/**
 * The ship's cell table (starship/starship.h and .cpp).
 *
 * The ship is a grid of square cells, each split along its diagonal into two
 * triangle cells numbered from 1. The table `cells` is built dead, the
 * triangles' middle points are filled in, and attack cells are written over
 * single entries. The alive cells are packed into uniform arrays, and the
 * first 256 alive cells' middle points become the cannon positions. A drag
 * with the right mouse button rotates the ship by the angle the cursor
 * sweeps around the grid's centre.
 *
 * Uniform uploads are replaced by ghost traces, glm matrices by the
 * translation and half-turn they are built from, `atan2f` by a function
 * parameter and `rand()` by boolean parameters. A field that the source
 * leaves uninitialised is `None`.
 */
module Starship {
  import opened Wrappers
  import opened Vectors
  import opened Seqs

  /** CellCategory (starship.h:13-19). */
  datatype CellCategory = Attack | Defense | Utility | Jet | Custom

  /** CellName (starship.h:21-66). */
  datatype CellName =
    | Fire | Ice | Radioactive | ProjectileGun | LaserGun | MissileGun | PlasmaGun | RapidFireProjectile
    | KineticBarrier | EnergyShield | HybridShield | ReflectiveShield | RegenShield | SpikeArmor
    | CloakingField | ForceBubble
    | Sensor | RepairDrone | Scanner | Jammer | CargoHold | Battery | Analyzer | EnergyCore
    | ForwardThrustJet | OmniBoostJet | TurnJet | BurstJet | EfficiencyJet | OverdriveJet | StabilizerJet
    | HomingMissile | AreaDenialMine | SteamLaser | SwitchBlaster

  /** AtlasSprite (starship.h:100-104): the three sprites of the cell atlas, 0, 1 and 2. */
  newtype AtlasSprite = s: int | 0 <= s <= 2
  const AtlasFire: AtlasSprite := 0
  const AtlasIce: AtlasSprite := 1
  const AtlasRadioactive: AtlasSprite := 2

  /** CellTexCoords (starship.h:93-98): three corners of a triangle in the atlas, and padding. */
  datatype CellTexCoords = CellTexCoords(u0: real, v0: real, u1: real, v1: real, u2: real, v2: real,
                                         pad0: real, pad1: real)

  /**
   * A cell's transform: glm::translate to (x, y), times a half turn about z
   * when `halfTurn` holds (starship.cpp:528-534).
   */
  datatype Placement = Placement(x: real, y: real, halfTurn: bool)

  /**
   * TriangleCell (starship.h:106-124). The union of per-category data is never
   * written and is not part of this model.
   */
  datatype Cell = Cell(category: Option<CellCategory>, name: Option<CellName>, alive: bool, number: int,
                       middle: Option<Vec2>, transform: Option<Placement>, x: Option<real>, y: Option<real>,
                       texCoords: Option<CellTexCoords>, sprite: Option<AtlasSprite>, color: Option<Vec4>)

  /** The grid settings (starship.h:128-133). */
  datatype Grid = Grid(width: int, height: int, cellSize: real, originX: real, originY: real)

  /** The default 9 x 9 grid of 0.12-wide cells, its origin half its extent below zero (starship.h:129-133). */
  const DefaultGrid: Grid := Grid(9, 9, 0.12, -(9.0 * 0.12) / 2.0, -(9.0 * 0.12) / 2.0)

  /** MAX_CANNONS (starship.h:174): the size of the shader's cannon position array. */
  const MaxCannons: int := 256

  /** The instance count of the cell shader's uniform arrays (starship.cpp:28-30). */
  const UniformInstances: int := 256

  /** A grid the source can work with: both dimensions and the cell size positive. */
  predicate ValidGrid(g: Grid)
  {
    g.width > 0 && g.height > 0 && g.cellSize > 0.0
  }

  /** The number of triangle cells, two per square (starship.cpp:592). */
  function CellTotal(g: Grid): int
  {
    g.width * g.height * 2
  }

  /** The default grid is valid, centred on 0 on both axes, and its 162 cells fit the 256-instance uniform arrays. */
  lemma DefaultGridFacts()
    ensures ValidGrid(DefaultGrid)
    ensures DefaultGrid.originX + (DefaultGrid.width as real * DefaultGrid.cellSize) / 2.0 == 0.0
    ensures DefaultGrid.originY + (DefaultGrid.height as real * DefaultGrid.cellSize) / 2.0 == 0.0
    ensures CellTotal(DefaultGrid) == 162 <= UniformInstances && MaxCannons == UniformInstances
  {
  }

  // ---------------------------------------------------------------------------
  // Atlas coordinates (starship.cpp:434-478)

  /**
   * getRandomAtlasCoords, with its two rand() parities as `useTop` and
   * `flipU`. The sprite's third of the atlas is narrowed by 0.04 on the left;
   * the upper or lower two thirds are narrowed by 0.02 at each end; a flip
   * swaps the u-values of the corners and never the v-values. The cell number
   * the source also takes is unused.
   */
  function AtlasCoords(sprite: AtlasSprite, useTop: bool, flipU: bool): (c: CellTexCoords)
    ensures c.pad0 == 0.0 && c.pad1 == 0.0
    ensures c.v0 == c.v1 && c.u1 == c.u2 && c.u0 != c.u1
    ensures (sprite as real) / 3.0 < c.u0 <= (sprite as real + 1.0) / 3.0
    ensures (sprite as real) / 3.0 < c.u1 <= (sprite as real + 1.0) / 3.0
    ensures 0.0 < c.v0 < 1.0 && 0.0 < c.v2 < 1.0
    ensures useTop <==> c.v0 < c.v2
  {
    var spriteWidth := 1.0 / 3.0;
    var offsetTop := 0.020;
    var offsetLeft := 0.04;
    var uL := if sprite as int == 3 then sprite as real * spriteWidth - offsetLeft else sprite as real * spriteWidth + offsetLeft;
    var uR := if sprite as int == 3 then uL + spriteWidth + offsetLeft else uL + spriteWidth - offsetLeft;
    var vB := if useTop then 0.0 + offsetTop else 1.0 - offsetTop;
    var vT := if useTop then 0.667 - offsetTop else 0.333 + offsetTop;
    if flipU then CellTexCoords(uR, vB, uL, vB, uL, vT, 0.0, 0.0)
    else CellTexCoords(uL, vB, uR, vB, uR, vT, 0.0, 0.0)
  }

  /** Flipping swaps the left and right u-values and leaves every v-value as it was. */
  lemma FlipSwapsOnlyU(sprite: AtlasSprite, useTop: bool)
    ensures var plain, flipped := AtlasCoords(sprite, useTop, false), AtlasCoords(sprite, useTop, true);
            && flipped.u0 == plain.u1 && flipped.u1 == plain.u0 && flipped.u2 == plain.u0
            && flipped.v0 == plain.v0 && flipped.v1 == plain.v1 && flipped.v2 == plain.v2
  {
  }

  // ---------------------------------------------------------------------------
  // The cell table

  /** The cell initStarshipCells pushes for number n (starship.cpp:597-600): dead, everything else unset. */
  function DeadCell(n: int): (c: Cell)
    ensures !c.alive && c.number == n
  {
    Cell(None, None, false, n, None, None, None, None, None, None, None)
  }

  /** Every cell carries its 1-based position as its number. */
  predicate Numbered(cs: seq<Cell>)
  {
    forall k :: 0 <= k < |cs| ==> cs[k].number == k + 1
  }

  /** The alive cells, in table order. */
  function Alive(cs: seq<Cell>): (r: seq<Cell>)
    ensures |r| <= |cs|
    ensures forall k :: 0 <= k < |r| ==> r[k].alive
  {
    if cs == [] then []
    else Alive(cs[..|cs| - 1]) + (if cs[|cs| - 1].alive then [cs[|cs| - 1]] else [])
  }

  /** The number of alive cells. */
  function AliveCount(cs: seq<Cell>): nat
  {
    if cs == [] then 0 else AliveCount(cs[..|cs| - 1]) + (if cs[|cs| - 1].alive then 1 else 0)
  }

  /** Alive keeps exactly the alive cells: as many as AliveCount counts, and every alive cell is among them. */
  lemma {:induction false} AliveExactly(cs: seq<Cell>)
    ensures |Alive(cs)| == AliveCount(cs)
    ensures forall k :: 0 <= k < |cs| && cs[k].alive ==> cs[k] in Alive(cs)
    ensures forall c :: c in Alive(cs) ==> c in cs
  {
    if cs != [] {
      var init := cs[..|cs| - 1];
      AliveExactly(init);
      forall k | 0 <= k < |cs| && cs[k].alive
        ensures cs[k] in Alive(cs)
      {
        if k < |cs| - 1 {
          assert cs[k] == init[k];
        }
      }
      forall c | c in Alive(cs)
        ensures c in cs
      {
        if c in Alive(init) {
          assert c in init;
        }
      }
    }
  }

  /** The alive cells of the first i + 1 cells. */
  lemma AliveStep(cs: seq<Cell>, i: nat)
    requires i < |cs|
    ensures Alive(cs[..i + 1]) == Alive(cs[..i]) + (if cs[i].alive then [cs[i]] else [])
  {
    assert cs[..i + 1][..i] == cs[..i];
  }

  /** The alive cells of a prefix of the table are a prefix of its alive cells. */
  lemma {:induction false} AlivePrefix(cs: seq<Cell>, i: nat)
    requires i <= |cs|
    ensures Alive(cs[..i]) <= Alive(cs)
    decreases |cs| - i
  {
    if i < |cs| {
      AlivePrefix(cs, i + 1);
      AliveStep(cs, i);
    } else {
      assert cs[..i] == cs;
    }
  }

  /** A freshly numbered table of dead cells has no alive cell. */
  lemma {:induction false} NoneAlive(cs: seq<Cell>)
    requires forall k :: 0 <= k < |cs| ==> !cs[k].alive
    ensures Alive(cs) == []
  {
    if cs != [] {
      NoneAlive(cs[..|cs| - 1]);
    }
  }

  /** The index of the first cell numbered n, None when there is none. */
  function FirstNumbered(cs: seq<Cell>, n: int): (r: Option<nat>)
    ensures r.None? <==> forall k :: 0 <= k < |cs| ==> cs[k].number != n
    ensures r.Some? ==> r.value < |cs| && cs[r.value].number == n
    ensures r.Some? ==> forall k :: 0 <= k < r.value ==> cs[k].number != n
  {
    if cs == [] then None
    else
      var init := cs[..|cs| - 1];
      var before := FirstNumbered(init, n);
      assert forall k :: 0 <= k < |init| ==> init[k] == cs[k];
      if before.Some? then before
      else if cs[|cs| - 1].number == n then Some(|cs| - 1)
      else None
  }

  /** In a numbered table the cell numbered n sits at index n - 1. */
  lemma NumberedFirst(cs: seq<Cell>, n: int)
    requires Numbered(cs) && 1 <= n <= |cs|
    ensures FirstNumbered(cs, n) == Some(n - 1)
  {
    assert cs[n - 1].number == n;
  }

  /** Writing a cell over the first one numbered n, nothing when no cell is (starship.cpp:553-558). */
  function ReplaceFirst(cs: seq<Cell>, n: int, c: Cell): (r: seq<Cell>)
    ensures |r| == |cs|
    ensures FirstNumbered(cs, n).None? ==> r == cs
    ensures FirstNumbered(cs, n).Some? ==>
              && r[FirstNumbered(cs, n).value] == c
              && forall k :: 0 <= k < |cs| && k != FirstNumbered(cs, n).value ==> r[k] == cs[k]
  {
    var at := FirstNumbered(cs, n);
    if at.Some? then cs[at.value := c] else cs
  }

  // ---------------------------------------------------------------------------
  // Geometry of the grid

  /** The left edge of column i (starship.cpp:567). */
  function ColumnX(g: Grid, i: int): real
  {
    g.originX + i as real * g.cellSize
  }

  /** The bottom edge of the square in row j, rows counted from the top (starship.cpp:569). */
  function RowBottom(g: Grid, j: int): real
  {
    g.originY + (g.height - 1 - j) as real * g.cellSize
  }

  /** The top edge of the square in row j (starship.cpp:570). */
  function RowTop(g: Grid, j: int): real
  {
    g.originY + (g.height - j) as real * g.cellSize
  }

  /**
   * The middle of the triangle of square (i, j) that initCellMiddlePoints
   * gives index `(j * width + i) * 2 + t` (starship.cpp:574-586): for t = 1
   * the bottom-right triangle (x0, y0), (x1, y0), (x1, y1), for t = 0 the
   * top-left one (x0, y0), (x1, y1), (x0, y1); each the mean of its corners.
   */
  function Middle(g: Grid, i: int, j: int, t: int): Vec2
    requires t == 0 || t == 1
  {
    var x0, x1 := ColumnX(g, i), ColumnX(g, i + 1);
    var y0, y1 := RowBottom(g, j), RowTop(g, j);
    if t == 1 then Vec2((x0 + x1 + x1) / 3.0, (y0 + y0 + y1) / 3.0)
    else Vec2((x0 + x0 + x1) / 3.0, (y0 + y1 + y1) / 3.0)
  }

  /** The index initCellMiddlePoints writes for triangle t of square (i, j) (starship.cpp:572-582). */
  function Slot(g: Grid, i: int, j: int, t: int): int
  {
    (j * g.width + i) * 2 + t
  }

  /** The square and triangle index k denotes: pair k / 2, column pair % width, row pair / width. */
  function MiddleAt(g: Grid, k: nat): Vec2
    requires ValidGrid(g)
  {
    var pair := k / 2;
    Middle(g, pair % g.width, pair / g.width, k % 2)
  }

  /** The centre of square (i, j). */
  function SquareCentre(g: Grid, i: int, j: int): Vec2
  {
    Vec2((ColumnX(g, i) + ColumnX(g, i + 1)) / 2.0, (RowBottom(g, j) + RowTop(g, j)) / 2.0)
  }

  /**
   * Both middles of a square lie strictly inside it, the bottom-right one
   * below and right of its diagonal, the top-left one above and left of it,
   * and the two are symmetric about the square's centre.
   */
  lemma SquareMiddles(g: Grid, i: int, j: int)
    requires ValidGrid(g)
    ensures var x0, x1, y0, y1 := ColumnX(g, i), ColumnX(g, i + 1), RowBottom(g, j), RowTop(g, j);
            var lower, upper := Middle(g, i, j, 1), Middle(g, i, j, 0);
            && x0 < lower.x < x1 && y0 < lower.y < y1 && x0 < upper.x < x1 && y0 < upper.y < y1
            && lower.y - y0 < lower.x - x0 && upper.y - y0 > upper.x - x0
            && (lower.x + upper.x) / 2.0 == SquareCentre(g, i, j).x
            && (lower.y + upper.y) / 2.0 == SquareCentre(g, i, j).y
  {
    var cs := g.cellSize;
    assert ColumnX(g, i + 1) == ColumnX(g, i) + cs;
    assert RowTop(g, j) == RowBottom(g, j) + cs;
  }

  /** Index (j * width + i) * 2 + t names square (i, j) and triangle t back through MiddleAt's division. */
  lemma SlotDecode(g: Grid, i: int, j: int, t: int)
    requires ValidGrid(g) && 0 <= i < g.width && 0 <= j && (t == 0 || t == 1)
    ensures Slot(g, i, j, t) >= 0
    ensures MiddleAt(g, Slot(g, i, j, t)) == Middle(g, i, j, t)
  {
    var w := g.width;
    var pair := j * w + i;
    if j > 0 {
      MulAtLeast(j, w);
    }
    var k := Slot(g, i, j, t);
    assert k / 2 == pair && k % 2 == t;
    DivModUnique(pair, w, j, i);
  }

  /** A number written as q * d + r with 0 <= r < d has quotient q and remainder r. */
  lemma DivModUnique(n: int, d: int, q: int, r: int)
    requires 0 < d && 0 <= r < d && n == q * d + r
    ensures n / d == q && n % d == r
  {
    var q', r' := n / d, n % d;
    var e := q - q';
    assert e * d == r' - r by {
      assert e * d == q * d - q' * d;
    }
    if e >= 1 {
      MulAtLeast(e, d);
    } else if e <= -1 {
      MulAtLeast(-e, d);
    }
  }

  /** A positive multiple of d is at least d. */
  lemma {:induction false} MulAtLeast(a: int, d: int)
    requires a >= 1 && d >= 0
    ensures a * d >= d
    decreases a
  {
    if a > 1 {
      MulAtLeast(a - 1, d);
      assert a * d == (a - 1) * d + d;
    }
  }

  /** The slots of the squares' triangles are exactly the indices below the cell total, each met once. */
  lemma SlotsTile(g: Grid)
    requires ValidGrid(g)
    ensures forall i, j, t :: 0 <= i < g.width && 0 <= j < g.height && 0 <= t <= 1 ==> 0 <= Slot(g, i, j, t) < CellTotal(g)
    ensures forall i, j, t, i', j', t' ::
              && 0 <= i < g.width && 0 <= j < g.height && 0 <= t <= 1
              && 0 <= i' < g.width && 0 <= j' < g.height && 0 <= t' <= 1
              && Slot(g, i, j, t) == Slot(g, i', j', t')
              ==> i == i' && j == j' && t == t'
    ensures forall k :: 0 <= k < CellTotal(g) ==> k == Slot(g, (k / 2) % g.width, (k / 2) / g.width, k % 2)
  {
    forall i, j, t | 0 <= i < g.width && 0 <= j < g.height && 0 <= t <= 1
      ensures 0 <= Slot(g, i, j, t) < CellTotal(g)
    {
      SlotBound(g, i, j);
    }
    forall i, j, t, i', j', t' |
      && 0 <= i < g.width && 0 <= j < g.height && 0 <= t <= 1
      && 0 <= i' < g.width && 0 <= j' < g.height && 0 <= t' <= 1
      && Slot(g, i, j, t) == Slot(g, i', j', t')
      ensures i == i' && j == j' && t == t'
    {
      var k := Slot(g, i, j, t);
      SlotBound(g, i, j);
      SlotBound(g, i', j');
      DivModUnique(k / 2, g.width, j, i);
      DivModUnique(k / 2, g.width, j', i');
    }
    forall k | 0 <= k < CellTotal(g)
      ensures k == Slot(g, (k / 2) % g.width, (k / 2) / g.width, k % 2)
    {
      var pair := k / 2;
      assert pair == (pair / g.width) * g.width + pair % g.width;
    }
  }

  /** Square (i, j)'s slots are below the cell total. */
  lemma SlotBound(g: Grid, i: int, j: int)
    requires ValidGrid(g) && 0 <= i < g.width && 0 <= j < g.height
    ensures 0 <= j * g.width + i < g.width * g.height
    ensures 0 <= Slot(g, i, j, 0) && Slot(g, i, j, 1) < CellTotal(g)
  {
    var w, h := g.width, g.height;
    if j > 0 {
      MulAtLeast(j, w);
    }
    MulAtLeast(h - j, w);
    assert (h - j) * w == h * w - j * w;
  }

  // ---------------------------------------------------------------------------
  // Attack cells (starship.cpp:511-551)

  /** Whether the grid's origin is half its height below zero, as the default grid's is. */
  predicate CentredVertically(g: Grid)
  {
    g.originY == -(g.height as real * g.cellSize) / 2.0
  }

  /**
   * The sprite, atlas coordinates and colour newAttackCell gives a name
   * (starship.cpp:536-550): fire is orange, ice blue, radioactive green;
   * any other name leaves all three unset.
   */
  function Look(name: CellName, useTop: bool, flipU: bool): (r: (Option<AtlasSprite>, Option<CellTexCoords>, Option<Vec4>))
    ensures r.0.Some? <==> name == Fire || name == Ice || name == Radioactive
    ensures r.1.Some? <==> r.0.Some?
    ensures r.2.Some? <==> r.0.Some?
    ensures r.0.Some? ==> r.1.value == AtlasCoords(r.0.value, useTop, flipU)
  {
    if name == Fire then (Some(AtlasFire), Some(AtlasCoords(AtlasFire, useTop, flipU)), Some(Vec4(1.0, 0.5, 0.2, 1.0)))
    else if name == Ice then (Some(AtlasIce), Some(AtlasCoords(AtlasIce, useTop, flipU)), Some(Vec4(0.2, 0.6, 1.0, 1.0)))
    else if name == Radioactive then
      (Some(AtlasRadioactive), Some(AtlasCoords(AtlasRadioactive, useTop, flipU)), Some(Vec4(0.2, 1.0, 0.2, 1.0)))
    else (None, None, None)
  }

  /**
   * The cell newAttackCell builds for number n (starship.cpp:512-550): alive,
   * an attack cell with the given name, the middle point copied from the
   * entry at index n - 1, placed at the centre of square pair (n - 1) / 2 of
   * the grid (column pair % width, row pair / width counted from the top),
   * and turned half round when n is odd.
   */
  function AttackCell(g: Grid, middle: Option<Vec2>, name: CellName, n: int, useTop: bool, flipU: bool): (c: Cell)
    requires ValidGrid(g) && n >= 1
    ensures c.alive && c.category == Some(Attack) && c.name == Some(name) && c.number == n && c.middle == middle
    ensures c.transform.Some? && c.x == Some(c.transform.value.x) && c.y == Some(c.transform.value.y)
    ensures c.transform.value.halfTurn <==> n % 2 == 1
    ensures (c.sprite, c.texCoords, c.color) == Look(name, useTop, flipU)
  {
    var pairIndex := (n - 1) / 2;
    var row := pairIndex / g.width;
    var column := pairIndex % g.width;
    var x := g.originX + column as real * g.cellSize + g.cellSize / 2.0;
    var y := -g.originY - g.cellSize - row as real * g.cellSize + g.cellSize / 2.0;
    var look := Look(name, useTop, flipU);
    Cell(Some(Attack), Some(name), true, n, middle, Some(Placement(x, y, n % 2 == 1)), Some(x), Some(y),
         look.1, look.0, look.2)
  }

  /** Number Slot(i, j, t) + 1 lies in square pair j * width + i, at row j and column i, and is odd exactly for t == 0. */
  lemma SlotDecodes(g: Grid, i: int, j: int, t: int)
    requires ValidGrid(g)
    requires 0 <= i < g.width && 0 <= j < g.height && (t == 0 || t == 1)
    ensures Slot(g, i, j, t) >= 0
    ensures var n := Slot(g, i, j, t) + 1;
            (n - 1) / 2 / g.width == j && (n - 1) / 2 % g.width == i && n % 2 == 1 - t
  {
    SlotBound(g, i, j);
    var pair := j * g.width + i;
    var n := Slot(g, i, j, t) + 1;
    assert (n - 1) / 2 == pair && n % 2 == 1 - t;
    DivModUnique(pair, g.width, j, i);
  }

  /**
   * On a vertically centred grid the attack cell for the triangle at index
   * Slot(i, j, t) sits at the centre of square (i, j), the point midway
   * between the square's two middles, and is turned half round exactly when
   * it is the top-left triangle.
   */
  lemma AttackCellOnItsSquare(g: Grid, i: int, j: int, t: int, middle: Option<Vec2>, name: CellName, useTop: bool, flipU: bool)
    requires ValidGrid(g) && CentredVertically(g)
    requires 0 <= i < g.width && 0 <= j < g.height && (t == 0 || t == 1)
    ensures Slot(g, i, j, t) >= 0
    ensures AttackCell(g, middle, name, Slot(g, i, j, t) + 1, useTop, flipU).transform
            == Some(Placement(SquareCentre(g, i, j).x, SquareCentre(g, i, j).y, t == 0))
  {
    SlotDecodes(g, i, j, t);
    AttackCellPlaced(g, middle, name, Slot(g, i, j, t) + 1, useTop, flipU, i, j);
    SquareCentreFromTop(g, i, j);
  }

  /** The attack cell of a number in square pair (column i, row j) is placed at that square's centre as newAttackCell computes it. */
  lemma AttackCellPlaced(g: Grid, middle: Option<Vec2>, name: CellName, n: int, useTop: bool, flipU: bool, i: int, j: int)
    requires ValidGrid(g) && n >= 1 && (n - 1) / 2 / g.width == j && (n - 1) / 2 % g.width == i
    ensures AttackCell(g, middle, name, n, useTop, flipU).transform
            == Some(Placement(g.originX + i as real * g.cellSize + g.cellSize / 2.0,
                              -g.originY - g.cellSize - j as real * g.cellSize + g.cellSize / 2.0, n % 2 == 1))
  {
  }

  /**
   * On a vertically centred grid the centre of square (i, j) is where
   * newAttackCell puts it (starship.cpp:526-533): half a cell right of column
   * edge i, and half a cell up from the bottom of row j counted from the top.
   */
  lemma SquareCentreFromTop(g: Grid, i: int, j: int)
    requires CentredVertically(g)
    ensures SquareCentre(g, i, j)
            == Vec2(g.originX + i as real * g.cellSize + g.cellSize / 2.0,
                    -g.originY - g.cellSize - j as real * g.cellSize + g.cellSize / 2.0)
  {
    var cs := g.cellSize;
    var ir, jr, hr := i as real, j as real, g.height as real;
    assert (i + 1) as real == ir + 1.0 && (g.height - j) as real == hr - jr && (g.height - 1 - j) as real == (hr - jr) - 1.0;
    ScaleDiff(ir + 1.0, 1.0, cs);
    ScaleDiff(hr, jr, cs);
    ScaleDiff(hr - jr, 1.0, cs);
  }

  /** Scaling distributes over a difference. */
  lemma ScaleDiff(a: real, b: real, c: real)
    ensures (a - b) * c == a * c - b * c
  {
  }

  /** The two triangles of a square pair, numbers 2p + 1 and 2p + 2, share one position and differ in their turn. */
  lemma PairSharesPosition(g: Grid, p: nat, middle: Option<Vec2>, middle': Option<Vec2>, name: CellName, name': CellName,
                           useTop: bool, flipU: bool, useTop': bool, flipU': bool)
    requires ValidGrid(g)
    ensures var odd, even := AttackCell(g, middle, name, 2 * p + 1, useTop, flipU), AttackCell(g, middle', name', 2 * p + 2, useTop', flipU');
            && odd.x == even.x && odd.y == even.y
            && odd.transform.value.halfTurn && !even.transform.value.halfTurn
  {
    assert (2 * p + 1 - 1) / 2 == p && (2 * p + 2 - 1) / 2 == p;
  }

  /**
   * On a numbered table newAttackCell overwrites exactly entry n - 1, the
   * table stays numbered, and the new cell is alive.
   */
  lemma AttackKeepsNumbered(g: Grid, cs: seq<Cell>, n: int, name: CellName, useTop: bool, flipU: bool)
    requires ValidGrid(g) && Numbered(cs) && 1 <= n <= |cs|
    ensures var c := AttackCell(g, cs[n - 1].middle, name, n, useTop, flipU);
            && ReplaceFirst(cs, n, c) == cs[n - 1 := c]
            && Numbered(ReplaceFirst(cs, n, c))
            && ReplaceFirst(cs, n, c)[n - 1].alive
  {
    NumberedFirst(cs, n);
  }

  // ---------------------------------------------------------------------------
  // Uniform packing (starship.cpp:481-509) and cannons (starship.cpp:223-236)

  /** What updateCellUniforms hands to glUniform*: per alive cell its transform, three atlas corners and colour. */
  datatype CellUpload = CellUpload(transforms: seq<Option<Placement>>, texCoords: seq<Option<Vec2>>, colors: seq<Option<Vec4>>)

  /** The three atlas corners of a cell as vec2s, u0 v0, u1 v1, u2 v2 (starship.cpp:496-498). */
  function Corners(c: Cell): (r: seq<Option<Vec2>>)
    ensures |r| == 3
  {
    if c.texCoords.Some? then
      var t := c.texCoords.value;
      [Some(Vec2(t.u0, t.v0)), Some(Vec2(t.u1, t.v1)), Some(Vec2(t.u2, t.v2))]
    else [None, None, None]
  }

  /** The packed uniform arrays for a run of cells, slot by slot. */
  function Pack(a: seq<Cell>): (u: CellUpload)
    ensures |u.transforms| == |a| && |u.colors| == |a| && |u.texCoords| == 3 * |a|
  {
    if a == [] then CellUpload([], [], [])
    else
      var before := Pack(a[..|a| - 1]);
      var c := a[|a| - 1];
      CellUpload(before.transforms + [c.transform], before.texCoords + Corners(c), before.colors + [c.color])
  }

  /** Slot k of the packed transform and colour arrays holds cell k's transform and colour. */
  lemma {:induction false} PackedInOrder(a: seq<Cell>)
    ensures forall k :: 0 <= k < |a| ==> Pack(a).transforms[k] == a[k].transform && Pack(a).colors[k] == a[k].color
  {
    if a != [] {
      var init := a[..|a| - 1];
      PackedInOrder(init);
      forall k | 0 <= k < |init|
        ensures Pack(a).transforms[k] == a[k].transform && Pack(a).colors[k] == a[k].color
      {
        assert a[k] == init[k];
      }
    }
  }

  /** Slots 3k to 3k + 2 of the packed atlas coordinates hold cell k's three corners. */
  lemma {:induction false} PackedCornersInOrder(a: seq<Cell>, k: nat)
    requires k < |a|
    ensures Pack(a).texCoords[3 * k..3 * k + 3] == Corners(a[k])
    decreases |a|
  {
    var init, c := a[..|a| - 1], a[|a| - 1];
    var before := Pack(init).texCoords;
    assert Pack(a).texCoords == before + Corners(c);
    if k < |init| {
      PackedCornersInOrder(init, k);
      assert a[k] == init[k];
      SliceOfFront(before, Corners(c), 3 * k, 3 * k + 3);
    } else {
      SliceOfBack(before, Corners(c));
    }
  }

  /** The packed arrays of a run one cell longer. */
  lemma PackStep(a: seq<Cell>, c: Cell)
    ensures Pack(a + [c]) == CellUpload(Pack(a).transforms + [c.transform], Pack(a).texCoords + Corners(c), Pack(a).colors + [c.color])
  {
    assert (a + [c])[..|a|] == a;
  }

  /** The smaller of two integers. */
  function Min(a: int, b: int): int
  {
    if a <= b then a else b
  }

  /** The cannon positions: the middle points of a run of cells. */
  function Middles(a: seq<Cell>): (r: seq<Option<Vec2>>)
    ensures |r| == |a|
    ensures forall k :: 0 <= k < |a| ==> r[k] == a[k].middle
  {
    seq(|a|, k requires 0 <= k < |a| => a[k].middle)
  }

  /** The drag rotation: the rotation at the drag's start plus the angle swept since (starship.cpp:727). */
  function DragRotation(startRotation: real, startAngle: real, angle: real): real
  {
    startRotation + (angle - startAngle)
  }

  /**
   * The rotation depends only on where the cursor is, not on the path it
   * took: back at the start angle it is the start rotation, and a drag
   * resumed where another ended composes with it into one drag.
   */
  lemma DragIsPathIndependent(rotation: real, a0: real, a1: real, a2: real)
    ensures DragRotation(rotation, a0, a0) == rotation
    ensures DragRotation(DragRotation(rotation, a0, a1), a1, a2) == DragRotation(rotation, a0, a2)
  {
  }

  /** The centre of the grid (starship.cpp:699-700, 720-721). */
  function GridCentre(g: Grid): Vec2
  {
    Vec2(g.originX + (g.width as real * g.cellSize) / 2.0, g.originY + (g.height as real * g.cellSize) / 2.0)
  }

  /** The y of the grid's j-th horizontal line, counted from the bottom (starship.cpp:632). */
  function LineY(g: Grid, j: int): real
  {
    g.originY + j as real * g.cellSize
  }

  /** One line of the grid: two consecutive vertices of its GL_LINES buffer. */
  datatype Segment = Segment(from: Vec2, to: Vec2)

  /** The number of vertices initGrid builds: W + 1 vertical lines, H + 1 horizontal ones and one diagonal per square. */
  function GridVertexTotal(g: Grid): int
  {
    2 * (g.width + 1) + 2 * (g.height + 1) + 2 * g.width * g.height
  }

  /** The grid point at column edge i and row edge j, counted from the bottom-left corner. */
  function GridPoint(g: Grid, i: int, j: int): Vec2
  {
    Vec2(ColumnX(g, i), LineY(g, j))
  }

  /** The vertical lines of initGrid (starship.cpp:621-628): column edge a, from the grid's bottom to its top. */
  function VerticalLines(g: Grid): (r: seq<Segment>)
    requires ValidGrid(g)
    ensures |r| == g.width + 1
  {
    seq(g.width + 1, a => Segment(GridPoint(g, a, 0), GridPoint(g, a, g.height)))
  }

  /** The horizontal lines of initGrid (starship.cpp:630-637): row edge b, from the grid's left to its right. */
  function HorizontalLines(g: Grid): (r: seq<Segment>)
    requires ValidGrid(g)
    ensures |r| == g.height + 1
  {
    seq(g.height + 1, b => Segment(GridPoint(g, 0, b), GridPoint(g, g.width, b)))
  }

  /**
   * The diagonals of initGrid (starship.cpp:639-649): square after square,
   * column by column and bottom to top within a column, from its bottom-left
   * corner to its top-right corner.
   */
  function DiagonalLines(g: Grid): (r: seq<Segment>)
    requires ValidGrid(g)
    ensures |r| == g.width * g.height
  {
    seq(g.width * g.height, p =>
      var i, j := p / g.height, p % g.height;
      Segment(GridPoint(g, i, j), GridPoint(g, i + 1, j + 1)))
  }

  /** The whole line buffer of initGrid. */
  function GridLines(g: Grid): (r: seq<Segment>)
    requires ValidGrid(g)
    ensures 2 * |r| == GridVertexTotal(g)
  {
    VerticalLines(g) + HorizontalLines(g) + DiagonalLines(g)
  }

  /** The diagonal of square (i, j) is line i * H + j of the diagonals, and joins the square's bottom-left and top-right corners. */
  lemma SquareDiagonal(g: Grid, i: int, j: int)
    requires ValidGrid(g) && 0 <= i < g.width && 0 <= j < g.height
    ensures i * g.height + j < |DiagonalLines(g)|
    ensures DiagonalLines(g)[i * g.height + j] == Segment(GridPoint(g, i, j), GridPoint(g, i + 1, j + 1))
  {
    RowMajor(i * g.height + j, i, j, g.width, g.height);
  }

  /** Index p == i * h + j of a w-by-h row-major table lies inside it and decodes to row i, column j. */
  lemma RowMajor(p: int, i: int, j: int, w: int, h: int)
    requires 0 <= i < w && 0 <= j < h && p == i * h + j
    ensures 0 <= p < w * h && p / h == i && p % h == j
  {
    MulAtLeast(w - i, h);
    assert w * h == i * h + (w - i) * h;
    if i > 0 {
      MulAtLeast(i, h);
    }
    DivModUnique(p, h, i, j);
  }

  /** Pushing the diagonal of square (i, j) extends the diagonals pushed so far by one. */
  lemma DiagonalsAdvance(g: Grid, done: seq<Segment>, i: int, j: int)
    requires ValidGrid(g) && 0 <= i < g.width && 0 <= j < g.height
    ensures i * g.height + j < |DiagonalLines(g)|
    ensures (done + DiagonalLines(g)[..i * g.height + j]) + [Segment(GridPoint(g, i, j), GridPoint(g, i + 1, j + 1))]
         == done + DiagonalLines(g)[..i * g.height + j + 1]
  {
    SquareDiagonal(g, i, j);
    PrefixSnoc(DiagonalLines(g), i * g.height + j);
    AppendAssoc(done, DiagonalLines(g)[..i * g.height + j], [Segment(GridPoint(g, i, j), GridPoint(g, i + 1, j + 1))]);
  }

  /** Neighbouring column edges and row edges lie one cell apart. */
  lemma NextEdge(g: Grid, i: int, j: int)
    ensures ColumnX(g, i + 1) == ColumnX(g, i) + g.cellSize
    ensures LineY(g, j + 1) == LineY(g, j) + g.cellSize
  {
    assert (i + 1) as real * g.cellSize == i as real * g.cellSize + g.cellSize;
    assert (j + 1) as real * g.cellSize == j as real * g.cellSize + g.cellSize;
  }

  /**
   * The lines of the buffer: the first W + 1 are vertical and span the grid's
   * height, the next H + 1 are horizontal and span its width, and the rest are
   * diagonals climbing one cell right and one cell up.
   */
  lemma GridLineDirections(g: Grid, k: int)
    requires ValidGrid(g) && 0 <= k < |GridLines(g)|
    ensures var l := GridLines(g)[k];
      if k < g.width + 1 then
        l.to == Vec2(l.from.x, l.from.y + g.height as real * g.cellSize)
      else if k < g.width + 1 + g.height + 1 then
        l.to == Vec2(l.from.x + g.width as real * g.cellSize, l.from.y)
      else
        l.to == Vec2(l.from.x + g.cellSize, l.from.y + g.cellSize)
  {
    var v, h, d := VerticalLines(g), HorizontalLines(g), DiagonalLines(g);
    if k < |v| {
      assert GridLines(g)[k] == v[k];
    } else if k < |v| + |h| {
      assert GridLines(g)[k] == h[k - |v|];
    } else {
      var p := k - |v| - |h|;
      assert GridLines(g)[k] == d[p];
      NextEdge(g, p / g.height, p % g.height);
    }
  }

  // ---------------------------------------------------------------------------
  // The ship

  /** Starship (starship.h:11-212): the cell table, the grid, the rotation and the mouse state. */
  class Starship {
    /** cells (starship.h:126). */
    var cells: seq<Cell>
    /** gridWidth, gridHeight, cellSize, originX, originY (starship.h:129-133): set once, never changed. */
    var grid: Grid
    /** currentRotation, dragStartRotation (starship.h:144-145), radians. */
    var currentRotation: real
    var dragStartRotation: real
    /** isDragging (starship.h:148); dragStartX holds the angle at the drag's start (starship.cpp:703). */
    var isDragging: bool
    var dragStartX: real
    var dragStartY: real
    /** cursorX, cursorY (starship.h:182-183). */
    var cursorX: real
    var cursorY: real
    /** cannonCount (starship.h:180). */
    var cannonCount: int
    /** gridVertexCount (starship.h:141). */
    var gridVertexCount: int
    /** The grid's vertex buffer, as glBufferData received it, read as line segments (two vertices each). */
    ghost var gridBuffer: seq<Segment>
    /** Every upload of the cell uniform arrays, in order. */
    ghost var cellUploads: seq<CellUpload>
    /** Every upload of the cannon positions, in order. */
    ghost var cannonUploads: seq<seq<Option<Vec2>>>

    ghost predicate Valid()
      reads this
    {
      ValidGrid(grid)
    }

    /** The constructor with the header's initialisers (starship.h:129-184, starship.cpp:150-162). */
    constructor ()
      ensures Valid() && grid == DefaultGrid && cells == []
      ensures currentRotation == 0.0 && dragStartRotation == 0.0 && !isDragging
      ensures dragStartX == 0.0 && dragStartY == 0.0 && cursorX == 0.0 && cursorY == 0.0
      ensures cannonCount == 0 && gridVertexCount == 0
      ensures gridBuffer == [] && cellUploads == [] && cannonUploads == []
    {
      cells := [];
      grid := DefaultGrid;
      currentRotation := 0.0;
      dragStartRotation := 0.0;
      isDragging := false;
      dragStartX := 0.0;
      dragStartY := 0.0;
      cursorX := 0.0;
      cursorY := 0.0;
      cannonCount := 0;
      gridVertexCount := 0;
      gridBuffer := [];
      cellUploads := [];
      cannonUploads := [];
    }

    /** initStarshipCells (starship.cpp:591-602): 2WH dead cells numbered 1 to 2WH. */
    method InitStarshipCells()
      requires Valid()
      modifies this`cells
      ensures |cells| == CellTotal(grid) && Numbered(cells)
      ensures forall k :: 0 <= k < |cells| ==> cells[k] == DeadCell(k + 1)
    {
      var totalTriangles := grid.width * grid.height * 2;
      MulAtLeast(grid.height, grid.width);
      cells := [];
      var i := 1;
      while i < totalTriangles + 1
        invariant 1 <= i <= totalTriangles + 1
        invariant |cells| == i - 1
        invariant forall k :: 0 <= k < |cells| ==> cells[k] == DeadCell(k + 1)
      {
        cells := cells + [DeadCell(i)];
        i := i + 1;
      }
    }

    /**
     * initCellMiddlePoints (starship.cpp:564-589): square by square, row by
     * row from the top, the middle of the bottom-right triangle goes to index
     * (j * W + i) * 2 + 1 and that of the top-left one to (j * W + i) * 2.
     * Every index below 2WH gets the middle of the triangle it denotes; nothing
     * else changes.
     */
    method InitCellMiddlePoints()
      requires Valid() && CellTotal(grid) <= |cells|
      modifies this`cells
      ensures |cells| == |old(cells)|
      ensures forall k :: 0 <= k < |cells| ==>
                cells[k] == if k < CellTotal(grid) then old(cells[k]).(middle := Some(MiddleAt(grid, k))) else old(cells[k])
    {
      ghost var start := cells;
      var j := 0;
      while j < grid.height
        invariant 0 <= j <= grid.height
        invariant |cells| == |start|
        invariant forall k :: 0 <= k < |cells| ==>
                    cells[k] == if k < 2 * (j * grid.width) then start[k].(middle := Some(MiddleAt(grid, k))) else start[k]
      {
        var i := 0;
        while i < grid.width
          invariant 0 <= i <= grid.width
          invariant |cells| == |start|
          invariant forall k :: 0 <= k < |cells| ==>
                      cells[k] == if k < 2 * (j * grid.width + i) then start[k].(middle := Some(MiddleAt(grid, k))) else start[k]
        {
          SlotBound(grid, i, j);
          SlotDecode(grid, i, j, 0);
          SlotDecode(grid, i, j, 1);
          var baseCellNumber := (j * grid.width + i) * 2;
          var cellNum0 := baseCellNumber + 1;
          cells := cells[cellNum0 := cells[cellNum0].(middle := Some(Middle(grid, i, j, 1)))];
          var cellNum1 := baseCellNumber;
          cells := cells[cellNum1 := cells[cellNum1].(middle := Some(Middle(grid, i, j, 0)))];
          i := i + 1;
        }
        assert (j + 1) * grid.width == j * grid.width + grid.width;
        j := j + 1;
      }
    }

    /**
     * updateCellUniforms (starship.cpp:481-509): nothing without cells;
     * otherwise the alive cells' transforms, atlas corners and colours are
     * packed into the front of three arrays, in table order, and the first
     * aliveCount entries are uploaded.
     */
    method UpdateCellUniforms()
      modifies this`cellUploads
      ensures cells == [] ==> cellUploads == old(cellUploads)
      ensures cells != [] ==> cellUploads == old(cellUploads) + [Pack(Alive(cells))]
    {
      if |cells| == 0 {
        return;
      }
      var transforms, texCoords, colors, aliveCount := PackAlive(cells);
      cellUploads := cellUploads + [CellUpload(transforms[..aliveCount], texCoords[..aliveCount * 3], colors[..aliveCount])];
    }

    /**
     * The packing loop of updateCellUniforms (starship.cpp:486-504): arrays
     * as long as the table (three slots per cell for the corners), filled
     * from the front with the alive cells in table order.
     */
    static method PackAlive(cells: seq<Cell>)
      returns (transforms: array<Option<Placement>>, texCoords: array<Option<Vec2>>, colors: array<Option<Vec4>>, aliveCount: nat)
      ensures transforms.Length == |cells| && texCoords.Length == |cells| * 3 && colors.Length == |cells|
      ensures aliveCount == |Alive(cells)|
      ensures Pack(Alive(cells)) == CellUpload(transforms[..aliveCount], texCoords[..aliveCount * 3], colors[..aliveCount])
    {
      transforms := new Option<Placement>[|cells|](_ => None);
      texCoords := new Option<Vec2>[|cells| * 3](_ => None);
      colors := new Option<Vec4>[|cells|](_ => None);
      aliveCount := 0;
      ghost var alive := [];
      for i := 0 to |cells|
        invariant alive == Alive(cells[..i]) && aliveCount == |alive|
        invariant transforms[..aliveCount] == Pack(alive).transforms
        invariant texCoords[..aliveCount * 3] == Pack(alive).texCoords
        invariant colors[..aliveCount] == Pack(alive).colors
      {
        AliveStep(cells, i);
        if cells[i].alive {
          PackInto(transforms, texCoords, colors, aliveCount, alive, cells[i]);
          alive := alive + [cells[i]];
          aliveCount := aliveCount + 1;
        } else {
          assert Alive(cells[..i + 1]) == alive;
        }
      }
      assert cells[..|cells|] == cells;
    }

    /**
     * One alive cell into slot `slot` of the uniform arrays (starship.cpp:494-500),
     * the slots before it holding the packing of `alive`.
     */
    static method PackInto(transforms: array<Option<Placement>>, texCoords: array<Option<Vec2>>, colors: array<Option<Vec4>>,
                           slot: nat, ghost alive: seq<Cell>, c: Cell)
      requires slot < transforms.Length && slot < colors.Length && slot * 3 + 3 <= texCoords.Length
      requires transforms[..slot] == Pack(alive).transforms
      requires texCoords[..slot * 3] == Pack(alive).texCoords
      requires colors[..slot] == Pack(alive).colors
      modifies transforms, texCoords, colors
      ensures transforms[..slot + 1] == Pack(alive + [c]).transforms
      ensures texCoords[..(slot + 1) * 3] == Pack(alive + [c]).texCoords
      ensures colors[..slot + 1] == Pack(alive + [c]).colors
    {
      PackStep(alive, c);
      Place(transforms, slot, Pack(alive).transforms, c.transform);
      PlaceCorners(texCoords, slot, Pack(alive).texCoords, Corners(c));
      Place(colors, slot, Pack(alive).colors, c.color);
    }

    /** One value into slot `slot` of a uniform array whose earlier slots hold `before`. */
    static method Place<T>(a: array<T>, slot: nat, ghost before: seq<T>, x: T)
      requires slot < a.Length && a[..slot] == before
      modifies a
      ensures a[..slot + 1] == before + [x]
    {
      a[slot] := x;
      assert a[..slot + 1] == a[..slot] + [x];
    }

    /** The three atlas corners of one cell into slots 3 * slot .. 3 * slot + 2, the earlier slots holding `before`. */
    static method PlaceCorners(texCoords: array<Option<Vec2>>, slot: nat, ghost before: seq<Option<Vec2>>, corners: seq<Option<Vec2>>)
      requires slot * 3 + 3 <= texCoords.Length && texCoords[..slot * 3] == before && |corners| == 3
      modifies texCoords
      ensures texCoords[..(slot + 1) * 3] == before + corners
    {
      var base := slot * 3;
      texCoords[base + 0] := corners[0];
      assert texCoords[..base + 1] == before + corners[..1];
      texCoords[base + 1] := corners[1];
      assert texCoords[..base + 2] == before + corners[..2];
      texCoords[base + 2] := corners[2];
      assert texCoords[..base + 3] == before + corners;
    }

    /**
     * updateCannonPositions (starship.cpp:223-236): the middle points of the
     * alive cells, in table order, until the 256 slots are full; cannonCount
     * ends as the number uploaded.
     */
    method UpdateCannonPositions()
      modifies this`cannonCount, this`cannonUploads
      ensures cannonCount == Min(|Alive(cells)|, MaxCannons)
      ensures cannonUploads == old(cannonUploads) + [Middles(Alive(cells)[..cannonCount])]
    {
      var cannonPositions := new Option<Vec2>[MaxCannons](_ => None);
      cannonCount := 0;
      ghost var alive := [];
      var i := 0;
      while i < |cells| && cannonCount < MaxCannons
        invariant 0 <= i <= |cells|
        invariant alive == Alive(cells[..i]) && cannonCount == |alive| <= MaxCannons
        invariant cannonPositions[..cannonCount] == Middles(alive)
        invariant cannonUploads == old(cannonUploads)
      {
        AliveStep(cells, i);
        if cells[i].alive {
          cannonPositions[cannonCount] := cells[i].middle;
          assert cannonPositions[..cannonCount + 1] == Middles(alive + [cells[i]]);
          alive := alive + [cells[i]];
          cannonCount := cannonCount + 1;
        } else {
          assert Alive(cells[..i + 1]) == alive;
        }
        i := i + 1;
      }
      AlivePrefix(cells, i);
      if i == |cells| {
        assert cells[..i] == cells;
      }
      assert Alive(cells)[..cannonCount] == alive;
      cannonUploads := cannonUploads + [cannonPositions[..cannonCount]];
    }

    /**
     * newAttackCell (starship.cpp:511-562): an alive attack cell with the
     * given name, positioned from its number, is written over the first cell
     * with that number; then the uniforms are packed again. The source reads
     * the entry at index cellNumber - 1, so the number must index the table.
     */
    method NewAttackCell(name: CellName, cellNumber: int, useTop: bool, flipU: bool)
      requires Valid() && 1 <= cellNumber <= |cells|
      modifies this`cells, this`cellUploads
      ensures cells == ReplaceFirst(old(cells), cellNumber,
                                    AttackCell(grid, old(cells)[cellNumber - 1].middle, name, cellNumber, useTop, flipU))
      ensures cellUploads == old(cellUploads) + [Pack(Alive(cells))]
    {
      var newCell := AttackCell(grid, cells[cellNumber - 1].middle, name, cellNumber, useTop, flipU);
      ghost var before := cells;
      var at := FindNumbered(cells, cellNumber);
      if at.Some? {
        cells := cells[at.value := newCell];
      }
      assert cells == ReplaceFirst(before, cellNumber, newCell) && cells != [];
      UpdateCellUniforms();
    }

    /** The search of newAttackCell's loop (starship.cpp:553-558): the first cell with the number, if any. */
    static method FindNumbered(cells: seq<Cell>, cellNumber: int) returns (at: Option<nat>)
      ensures at == FirstNumbered(cells, cellNumber)
    {
      var i := 0;
      while i < |cells|
        invariant 0 <= i <= |cells|
        invariant forall k :: 0 <= k < i ==> cells[k].number != cellNumber
      {
        if cells[i].number == cellNumber {
          return Some(i);
        }
        i := i + 1;
      }
      return None;
    }

    /**
     * onMouseDown (starship.cpp:693-705): the right button (2) starts a
     * drag, remembering the rotation and the angle from the grid's centre to
     * the cursor; any other button changes nothing. atan2f is a parameter.
     */
    method OnMouseDown(button: int, x: real, y: real, atan2: (real, real) -> real)
      modifies this`isDragging, this`dragStartRotation, this`dragStartX
      ensures button == 2 ==>
                && isDragging && dragStartRotation == currentRotation
                && dragStartX == atan2(y - GridCentre(grid).y, x - GridCentre(grid).x)
      ensures button != 2 ==>
                isDragging == old(isDragging) && dragStartRotation == old(dragStartRotation) && dragStartX == old(dragStartX)
    {
      if button == 2 {
        isDragging := true;
        dragStartRotation := currentRotation;
        var centerX := grid.originX + (grid.width as real * grid.cellSize) / 2.0;
        var centerY := grid.originY + (grid.height as real * grid.cellSize) / 2.0;
        assert Vec2(centerX, centerY) == GridCentre(grid);
        dragStartX := atan2(y - centerY, x - centerX);
      }
    }

    /** onMouseUp (starship.cpp:707-711): releasing the right button ends the drag. */
    method OnMouseUp(button: int, x: real, y: real)
      modifies this`isDragging
      ensures isDragging == (old(isDragging) && button != 2)
    {
      if button == 2 {
        isDragging := false;
      }
    }

    /**
     * onMouseMove (starship.cpp:713-728): the cursor is recorded; while
     * dragging, the rotation is the drag's start rotation plus the angle
     * swept around the grid's centre since the drag began.
     */
    method OnMouseMove(x: real, y: real, atan2: (real, real) -> real)
      modifies this`cursorX, this`cursorY, this`currentRotation
      ensures cursorX == x && cursorY == y
      ensures currentRotation == if isDragging
        then DragRotation(dragStartRotation, dragStartX, atan2(y - GridCentre(grid).y, x - GridCentre(grid).x))
        else old(currentRotation)
    {
      cursorX := x;
      cursorY := y;
      if !isDragging {
        return;
      }
      var centerX := grid.originX + (grid.width as real * grid.cellSize) / 2.0;
      var centerY := grid.originY + (grid.height as real * grid.cellSize) / 2.0;
      assert Vec2(centerX, centerY) == GridCentre(grid);
      var currentAngle := atan2(y - centerY, x - centerX);
      currentRotation := dragStartRotation + (currentAngle - dragStartX);
    }

    /**
     * initGrid's vertex buffer (starship.cpp:618-651): the vertical lines,
     * the horizontal lines and the diagonals, pushed in that order; the
     * vertex count is the number of vertices pushed. The shader and the
     * vertex array around it are GL calls.
     */
    method InitGrid()
      requires Valid()
      modifies this`gridVertexCount, this`gridBuffer
      ensures gridBuffer == GridLines(grid)
      ensures gridVertexCount == 2 * |gridBuffer| == GridVertexTotal(grid)
    {
      var lines := PushVerticals(grid, []);
      lines := PushHorizontals(grid, lines);
      lines := PushDiagonals(grid, lines);
      gridVertexCount := 2 * |lines|;
      gridBuffer := lines;
    }

    /** The first loop of initGrid (starship.cpp:621-628): one vertical line per column edge. */
    static method PushVerticals(g: Grid, start: seq<Segment>) returns (lines: seq<Segment>)
      requires ValidGrid(g)
      ensures lines == start + VerticalLines(g)
    {
      lines := start;
      var i := 0;
      while i <= g.width
        invariant 0 <= i <= g.width + 1
        invariant lines == start + VerticalLines(g)[..i]
      {
        var x := g.originX + i as real * g.cellSize;
        var y0 := g.originY;
        var y1 := g.originY + g.height as real * g.cellSize;
        assert VerticalLines(g)[i] == Segment(Vec2(x, y0), Vec2(x, y1));
        PrefixSnoc(VerticalLines(g), i);
        AppendAssoc(start, VerticalLines(g)[..i], [Segment(Vec2(x, y0), Vec2(x, y1))]);
        lines := lines + [Segment(Vec2(x, y0), Vec2(x, y1))];
        i := i + 1;
      }
      assert VerticalLines(g)[..i] == VerticalLines(g);
    }

    /** The second loop of initGrid (starship.cpp:630-637): one horizontal line per row edge. */
    static method PushHorizontals(g: Grid, start: seq<Segment>) returns (lines: seq<Segment>)
      requires ValidGrid(g)
      ensures lines == start + HorizontalLines(g)
    {
      lines := start;
      var j := 0;
      while j <= g.height
        invariant 0 <= j <= g.height + 1
        invariant lines == start + HorizontalLines(g)[..j]
      {
        var y := g.originY + j as real * g.cellSize;
        var x0 := g.originX;
        var x1 := g.originX + g.width as real * g.cellSize;
        assert HorizontalLines(g)[j] == Segment(Vec2(x0, y), Vec2(x1, y));
        PrefixSnoc(HorizontalLines(g), j);
        AppendAssoc(start, HorizontalLines(g)[..j], [Segment(Vec2(x0, y), Vec2(x1, y))]);
        lines := lines + [Segment(Vec2(x0, y), Vec2(x1, y))];
        j := j + 1;
      }
      assert HorizontalLines(g)[..j] == HorizontalLines(g);
    }

    /** The nested loop of initGrid (starship.cpp:639-649): one diagonal per square, column by column. */
    static method PushDiagonals(g: Grid, start: seq<Segment>) returns (lines: seq<Segment>)
      requires ValidGrid(g)
      ensures lines == start + DiagonalLines(g)
    {
      lines := start;
      var i := 0;
      while i < g.width
        invariant 0 <= i <= g.width
        invariant lines == start + DiagonalLines(g)[..i * g.height]
      {
        ghost var base := i * g.height;
        assert base + g.height <= g.width * g.height by {
          MulAtLeast(g.width - i, g.height);
          assert g.width * g.height == base + (g.width - i) * g.height;
        }
        var j := 0;
        while j < g.height
          invariant 0 <= j <= g.height
          invariant lines == start + DiagonalLines(g)[..base + j]
        {
          var from, to := GridPoint(g, i, j), GridPoint(g, i + 1, j + 1);
          DiagonalsAdvance(g, start, i, j);
          lines := lines + [Segment(from, to)];
          j := j + 1;
        }
        assert (i + 1) * g.height == base + g.height;
        i := i + 1;
      }
      assert DiagonalLines(g)[..i * g.height] == DiagonalLines(g);
    }
  }
}

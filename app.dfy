/**
 * The browser glue of main.cpp: the map from canvas pixels to normalized
 * device coordinates, the mouse handlers that hand each event to the button
 * layer and to the ship, and the start-up sequence that fills the ship's
 * cell table.
 *
 * The canvas size is an int (main.cpp:62-63); the pixel coordinates are
 * reals. atan2f and rand() are parameters.
 */
module App {
  import opened Wrappers
  import opened Button
  import opened Starship

  /** The canvas size AppState starts with (main.cpp:62-63). */
  const DefaultWidth := 800
  const DefaultHeight := 600

  // ---------------------------------------------------------------------------
  // browserToNormalized (main.cpp:89-92)

  /**
   * browserToNormalized, its two out-parameters as a pair: x from 0..width
   * onto -1..1, y from 0..height onto 1..-1 (browser y grows downwards).
   * Each normalized coordinate determines its pixel coordinate.
   */
  function BrowserToNormalized(width: int, height: int, browserX: real, browserY: real): (r: (real, real))
    requires width > 0 && height > 0
    ensures browserX == (r.0 + 1.0) * width as real / 2.0
    ensures browserY == (1.0 - r.1) * height as real / 2.0
  {
    var w, h := width as real, height as real;
    var outX := (browserX / w) * 2.0 - 1.0;
    var outY := 1.0 - (browserY / h) * 2.0;
    assert (browserX / w) * w == browserX;
    assert (browserY / h) * h == browserY;
    (outX, outY)
  }

  /** The inverse map, from normalized device coordinates back to canvas pixels. */
  function NormalizedToBrowser(width: int, height: int, nx: real, ny: real): (r: (real, real))
    requires width > 0 && height > 0
    ensures BrowserToNormalized(width, height, r.0, r.1) == (nx, ny)
  {
    var p := ((nx + 1.0) * width as real / 2.0, (1.0 - ny) * height as real / 2.0);
    var q := BrowserToNormalized(width, height, p.0, p.1);
    InverseCoordinate(width as real, nx, q.0);
    InverseCoordinate(height as real, -ny, -q.1);
    p
  }

  /** Two normalized values that scale to the same pixel are equal. */
  lemma InverseCoordinate(size: real, a: real, b: real)
    requires size > 0.0 && (a + 1.0) * size / 2.0 == (b + 1.0) * size / 2.0
    ensures a == b
  {
    assert (a + 1.0) * size == (b + 1.0) * size;
    assert (a - b) * size == 0.0;
  }

  /** The canvas corners go to the corners of the normalized square: top-left to (-1, 1), bottom-right to (1, -1). */
  lemma NormalizedCorners(width: int, height: int)
    requires width > 0 && height > 0
    ensures BrowserToNormalized(width, height, 0.0, 0.0) == (-1.0, 1.0)
    ensures BrowserToNormalized(width, height, width as real, height as real) == (1.0, -1.0)
    ensures BrowserToNormalized(width, height, width as real / 2.0, height as real / 2.0) == (0.0, 0.0)
  {
    var w, h := width as real, height as real;
    NormalizedDetermined(width, height, w, h, (1.0, -1.0));
    NormalizedDetermined(width, height, w / 2.0, h / 2.0, (0.0, 0.0));
  }

  /** A point whose pixel coordinates are those of n normalizes to n. */
  lemma NormalizedDetermined(width: int, height: int, browserX: real, browserY: real, n: (real, real))
    requires width > 0 && height > 0
    requires browserX == (n.0 + 1.0) * width as real / 2.0 && browserY == (1.0 - n.1) * height as real / 2.0
    ensures BrowserToNormalized(width, height, browserX, browserY) == n
  {
    var r := BrowserToNormalized(width, height, browserX, browserY);
    InverseCoordinate(width as real, r.0, n.0);
    InverseCoordinate(height as real, -r.1, -n.1);
  }

  /** The map is strictly increasing in x and strictly decreasing in y (browser y points down, device y up). */
  lemma NormalizedMonotone(width: int, height: int, browserX: real, browserY: real, browserX': real, browserY': real)
    requires width > 0 && height > 0
    ensures browserX < browserX' <==> BrowserToNormalized(width, height, browserX, browserY).0 < BrowserToNormalized(width, height, browserX', browserY').0
    ensures browserY < browserY' <==> BrowserToNormalized(width, height, browserX, browserY).1 > BrowserToNormalized(width, height, browserX', browserY').1
  {
    var r, r' := BrowserToNormalized(width, height, browserX, browserY), BrowserToNormalized(width, height, browserX', browserY');
    var w, h := width as real, height as real;
    assert browserX' - browserX == (r'.0 - r.0) * w / 2.0;
    assert browserY' - browserY == (r.1 - r'.1) * h / 2.0;
    SignOfScaled(r'.0 - r.0, w);
    SignOfScaled(r.1 - r'.1, h);
  }

  /** Scaling by a positive size keeps the sign. */
  lemma SignOfScaled(d: real, size: real)
    requires size > 0.0
    ensures d > 0.0 <==> d * size / 2.0 > 0.0
  {
    if d > 0.0 {
      assert d * size > 0.0;
    } else {
      assert d * size <= 0.0 by { assert (-d) * size >= 0.0; }
    }
  }

  /** Canvas points inside the canvas normalize into the square [-1, 1] x [-1, 1]. */
  lemma NormalizedInSquare(width: int, height: int, browserX: real, browserY: real)
    requires width > 0 && height > 0
    requires 0.0 <= browserX <= width as real && 0.0 <= browserY <= height as real
    ensures -1.0 <= BrowserToNormalized(width, height, browserX, browserY).0 <= 1.0
    ensures -1.0 <= BrowserToNormalized(width, height, browserX, browserY).1 <= 1.0
  {
    NormalizedCorners(width, height);
    NormalizedMonotone(width, height, 0.0, 0.0, browserX, browserY);
    NormalizedMonotone(width, height, browserX, browserY, width as real, height as real);
  }

  /**
   * The pixel point the handlers give the button layer, (targetX, height -
   * targetY), is the point the ship receives in normalized coordinates: both
   * flip y so that it grows upwards, and the pixel point is the normalized
   * one scaled back the way x is.
   */
  lemma FlipAgrees(width: int, height: int, targetX: real, targetY: real)
    requires width > 0 && height > 0
    ensures var n := BrowserToNormalized(width, height, targetX, targetY);
            && targetX == (n.0 + 1.0) * width as real / 2.0
            && height as real - targetY == (n.1 + 1.0) * height as real / 2.0
  {
    var n := BrowserToNormalized(width, height, targetX, targetY);
    assert targetY == (1.0 - n.1) * height as real / 2.0;
  }

  // ---------------------------------------------------------------------------
  // The cells main fills at start-up (main.cpp:507-521)

  /** One attack loop of main: cells lo to hi - 1 become attack cells with this name. */
  datatype AttackRun = AttackRun(name: CellName, lo: int, hi: int)

  /**
   * The four attack loops as written: the last one runs to 163, one past
   * the 162 cells of the default grid, so its final newAttackCell reads
   * cells[162] out of range.
   */
  function StartupRunsAsWritten(): seq<AttackRun>
  {
    [AttackRun(Fire, 29, 34), AttackRun(Fire, 55, 60), AttackRun(Fire, 60, 104), AttackRun(Radioactive, 139, 164)]
  }

  /** The four attack loops with the last one stopping at the last cell, 162. */
  function StartupRuns(): seq<AttackRun>
  {
    [AttackRun(Fire, 29, 34), AttackRun(Fire, 55, 60), AttackRun(Fire, 60, 104), AttackRun(Radioactive, 139, 163)]
  }

  /** Whether every number a run visits is a cell of a table with `total` cells, as newAttackCell needs. */
  predicate RunFits(r: AttackRun, total: int)
  {
    1 <= r.lo <= r.hi <= total + 1
  }

  /** The last loop as written calls newAttackCell(RADIOACTIVE, 163) on a table of 162 cells. */
  lemma StartupOverrunsTable()
    ensures CellTotal(DefaultGrid) == 162
    ensures !RunFits(StartupRunsAsWritten()[3], CellTotal(DefaultGrid))
    ensures StartupRunsAsWritten()[3].lo <= 163 < StartupRunsAsWritten()[3].hi
  {
    DefaultGridFacts();
  }

  /** Every corrected run stays within the default table, and the runs differ from the written ones only in that bound. */
  lemma StartupRunsFit()
    ensures forall r :: r in StartupRuns() ==> RunFits(r, CellTotal(DefaultGrid))
    ensures StartupRuns()[..3] == StartupRunsAsWritten()[..3]
    ensures StartupRuns()[3] == StartupRunsAsWritten()[3].(hi := StartupRunsAsWritten()[3].hi - 1)
  {
    DefaultGridFacts();
  }

  /** The name the start-up gives cell n, None for the cells it leaves dead. */
  function StartupName(n: int): (r: Option<CellName>)
    ensures r.Some? <==> exists k :: 0 <= k < |StartupRuns()| && StartupRuns()[k].lo <= n < StartupRuns()[k].hi
    ensures r.Some? ==> forall k :: 0 <= k < |StartupRuns()| && StartupRuns()[k].lo <= n < StartupRuns()[k].hi ==>
                          r.value == StartupRuns()[k].name
  {
    var runs := StartupRuns();
    if 29 <= n < 34 then assert runs[0].lo <= n < runs[0].hi; Some(Fire)
    else if 55 <= n < 60 then assert runs[1].lo <= n < runs[1].hi; Some(Fire)
    else if 60 <= n < 104 then assert runs[2].lo <= n < runs[2].hi; Some(Fire)
    else if 139 <= n < 163 then assert runs[3].lo <= n < runs[3].hi; Some(Radioactive)
    else None
  }

  /**
   * The globals the mouse handlers and the start-up use (main.cpp:60-86):
   * the canvas size from AppState, the ship and the button manager.
   */
  class App {
    var width: int
    var height: int
    const ship: Starship
    const buttonManager: ButtonManager

    /** AppState's initialisers (main.cpp:61-63), with the ship and the button manager as they are constructed. */
    constructor (ship: Starship, buttonManager: ButtonManager)
      ensures width == DefaultWidth && height == DefaultHeight
      ensures this.ship == ship && this.buttonManager == buttonManager
    {
      width := DefaultWidth;
      height := DefaultHeight;
      this.ship := ship;
      this.buttonManager := buttonManager;
    }

    /**
     * onMouseDown (main.cpp:94-108): the left button (0) presses the button
     * layer at the pixel point with y flipped; every button goes to the ship
     * in normalized coordinates.
     */
    method OnMouseDown(button: int, targetX: real, targetY: real, atan2: (real, real) -> real)
      requires width > 0 && height > 0 && buttonManager.Valid()
      modifies buttonManager`activeButton, ship`isDragging, ship`dragStartRotation, ship`dragStartX
      ensures buttonManager.Valid()
      ensures buttonManager.activeButton
              == if button == 0 then ButtonAt(old(buttonManager.buttons), FirstHit(old(buttonManager.buttons), old(buttonManager.store), targetX, old(height) as real - targetY))
                 else old(buttonManager.activeButton)
      ensures var n := BrowserToNormalized(old(width), old(height), targetX, targetY);
              var centre := GridCentre(ship.grid);
              && (button == 2 ==>
                    && ship.isDragging && ship.dragStartRotation == ship.currentRotation
                    && ship.dragStartX == atan2(n.1 - centre.y, n.0 - centre.x))
              && (button != 2 ==>
                    && ship.isDragging == old(ship.isDragging) && ship.dragStartRotation == old(ship.dragStartRotation)
                    && ship.dragStartX == old(ship.dragStartX))
    {
      var pixelX := targetX;
      var pixelY := height as real - targetY;
      Press(button, pixelX, pixelY);
      var n := BrowserToNormalized(width, height, targetX, targetY);
      ship.OnMouseDown(button, n.0, n.1, atan2);
    }

    /** The button-layer half of onMouseDown (main.cpp:99-101): only the left button presses. */
    method Press(button: int, pixelX: real, pixelY: real)
      requires buttonManager.Valid()
      modifies buttonManager`activeButton
      ensures buttonManager.Valid()
      ensures buttonManager.activeButton
              == if button == 0 then ButtonAt(old(buttonManager.buttons), FirstHit(old(buttonManager.buttons), old(buttonManager.store), pixelX, pixelY))
                 else old(buttonManager.activeButton)
    {
      if button == 0 {
        buttonManager.FingerStart(pixelX, pixelY);
      }
    }

    /**
     * onMouseUp (main.cpp:110-124): the left button releases the button
     * layer at the pixel point with y flipped; every button goes to the ship.
     */
    method OnMouseUp(button: int, targetX: real, targetY: real)
      requires width > 0 && height > 0 && buttonManager.Valid()
      modifies buttonManager`activeButton, buttonManager`fired, ship`isDragging
      ensures buttonManager.Valid()
      ensures button == 0 ==> buttonManager.activeButton == None
      ensures button == 0 && old(buttonManager.activeButton).Some? ==>
                var id := old(buttonManager.activeButton).value;
                var b := buttonManager.store[id];
                buttonManager.fired
                == old(buttonManager.fired) + (if Inside(b, targetX, old(height) as real - targetY) && b.hasCallback then [id] else [])
      ensures button != 0 || old(buttonManager.activeButton).None? ==>
                buttonManager.fired == old(buttonManager.fired)
      ensures button != 0 ==> buttonManager.activeButton == old(buttonManager.activeButton)
      ensures ship.isDragging == (old(ship.isDragging) && button != 2)
    {
      var pixelX := targetX;
      var pixelY := height as real - targetY;
      if button == 0 {
        var _ := buttonManager.FingerRelease(pixelX, pixelY);
      }
      var n := BrowserToNormalized(width, height, targetX, targetY);
      ship.OnMouseUp(button, n.0, n.1);
    }

    /** onMouseMove (main.cpp:126-131): only the ship hears it, in normalized coordinates. */
    method OnMouseMove(targetX: real, targetY: real, atan2: (real, real) -> real)
      requires width > 0 && height > 0
      modifies ship`cursorX, ship`cursorY, ship`currentRotation
      ensures var n := BrowserToNormalized(old(width), old(height), targetX, targetY);
              var centre := GridCentre(ship.grid);
              && ship.cursorX == n.0 && ship.cursorY == n.1
              && ship.currentRotation
                 == if ship.isDragging then DragRotation(ship.dragStartRotation, ship.dragStartX, atan2(n.1 - centre.y, n.0 - centre.x))
                    else old(ship.currentRotation)
    {
      var n := BrowserToNormalized(width, height, targetX, targetY);
      ship.OnMouseMove(n.0, n.1, atan2);
    }

    /**
     * The ship's part of main's start-up (main.cpp:452-455, 507-523): the
     * cell table, the middle points, the grid, the four attack loops (the
     * last one stopping at cell 162) and the cannon positions that
     * initCannons uploads. rolls gives the two rand() choices of each cell's
     * atlas corners.
     */
    method SetUpShip(rolls: int -> (bool, bool))
      requires ship.Valid() && ship.grid == DefaultGrid
      modifies ship`cells, ship`gridBuffer, ship`gridVertexCount, ship`cellUploads, ship`cannonCount, ship`cannonUploads
      ensures ship.grid == DefaultGrid && |ship.cells| == CellTotal(DefaultGrid) && Numbered(ship.cells)
      ensures StartupCells(ship.cells)
      ensures ship.gridBuffer == GridLines(DefaultGrid)
      ensures ship.cannonCount == Min(|Alive(ship.cells)|, MaxCannons)
    {
      BuildShip();
      AttackStartupRuns(rolls);
      ship.UpdateCannonPositions();
    }

    /** The table, the middle points and the grid (main.cpp:453-455): every cell dead and positioned. */
    method BuildShip()
      requires ship.Valid() && ship.grid == DefaultGrid
      modifies ship`cells, ship`gridBuffer, ship`gridVertexCount
      ensures |ship.cells| == CellTotal(DefaultGrid) && Numbered(ship.cells)
      ensures forall k :: 0 <= k < |ship.cells| ==> !ship.cells[k].alive && ship.cells[k].middle == Some(MiddleAt(DefaultGrid, k))
      ensures ship.gridBuffer == GridLines(DefaultGrid)
    {
      ship.InitStarshipCells();
      ship.InitCellMiddlePoints();
      ship.InitGrid();
    }

    /** The four attack loops of main (main.cpp:507-521), the last one stopping at cell 162. */
    method AttackStartupRuns(rolls: int -> (bool, bool))
      requires ship.Valid() && ship.grid == DefaultGrid
      requires |ship.cells| == CellTotal(DefaultGrid) && Numbered(ship.cells)
      requires forall k :: 0 <= k < |ship.cells| ==> !ship.cells[k].alive && ship.cells[k].middle == Some(MiddleAt(DefaultGrid, k))
      modifies ship`cells, ship`cellUploads
      ensures |ship.cells| == CellTotal(DefaultGrid) && Numbered(ship.cells)
      ensures StartupCells(ship.cells)
    {
      DefaultGridFacts();
      ghost var dead := ship.cells;
      AttackRange(ship, Fire, 29, 34, rolls);
      ghost var c1 := ship.cells;
      AttackRange(ship, Fire, 55, 60, rolls);
      ghost var c2 := ship.cells;
      AttackRange(ship, Fire, 60, 104, rolls);
      ghost var c3 := ship.cells;
      AttackRange(ship, Radioactive, 139, 163, rolls);
      StartupCellsFollow(dead, c1, c2, c3, ship.cells, rolls);
    }

    /**
     * One attack loop of main (main.cpp:507-521): newAttackCell for every
     * number from lo to hi - 1, each with its own rand() choices. The other
     * cells keep what they held.
     */
    static method AttackRange(ship: Starship, name: CellName, lo: int, hi: int, rolls: int -> (bool, bool))
      requires ship.Valid() && Numbered(ship.cells) && RunFits(AttackRun(name, lo, hi), |ship.cells|)
      modifies ship`cells, ship`cellUploads
      ensures Numbered(ship.cells) && AttackedUpTo(ship.grid, old(ship.cells), ship.cells, name, lo, hi, rolls)
    {
      ghost var start := ship.cells;
      AttackedNone(ship.grid, start, name, lo, rolls);
      var i := lo;
      while i < hi
        invariant lo <= i <= hi
        invariant Numbered(ship.cells) && AttackedUpTo(ship.grid, start, ship.cells, name, lo, i, rolls)
      {
        var useTop, flipU := rolls(i).0, rolls(i).1;
        AttackKeepsNumbered(ship.grid, ship.cells, i, name, useTop, flipU);
        AttackedStep(ship.grid, start, ship.cells, name, lo, i, rolls);
        ship.NewAttackCell(name, i, useTop, flipU);
        i := i + 1;
      }
    }
  }

  /** Cells lo to i - 1 of cur are the attack cells made from start's entries; every other cell is start's. */
  ghost predicate AttackedUpTo(g: Grid, start: seq<Cell>, cur: seq<Cell>, name: CellName, lo: int, i: int, rolls: int -> (bool, bool))
    requires ValidGrid(g)
  {
    && |cur| == |start|
    && forall k :: 0 <= k < |cur| ==>
         cur[k] == if lo <= k + 1 < i then AttackCell(g, start[k].middle, name, k + 1, rolls(k + 1).0, rolls(k + 1).1) else start[k]
  }

  /** Before the first call nothing is attacked. */
  lemma AttackedNone(g: Grid, start: seq<Cell>, name: CellName, lo: int, rolls: int -> (bool, bool))
    requires ValidGrid(g)
    ensures AttackedUpTo(g, start, start, name, lo, lo, rolls)
  {
  }

  /** newAttackCell for number i extends the attacked run by one. */
  lemma AttackedStep(g: Grid, start: seq<Cell>, cur: seq<Cell>, name: CellName, lo: int, i: int, rolls: int -> (bool, bool))
    requires ValidGrid(g) && 1 <= lo <= i <= |cur| && AttackedUpTo(g, start, cur, name, lo, i, rolls)
    ensures AttackedUpTo(g, start, cur[i - 1 := AttackCell(g, cur[i - 1].middle, name, i, rolls(i).0, rolls(i).1)], name, lo, i + 1, rolls)
  {
    assert cur[i - 1] == start[i - 1];
  }

  /** The cells after start-up: alive exactly where a run visited, named by that run, each with its middle point. */
  ghost predicate StartupCells(cells: seq<Cell>)
  {
    forall k :: 0 <= k < |cells| ==>
      && (cells[k].alive <==> StartupName(k + 1).Some?)
      && (cells[k].alive ==> cells[k].name == StartupName(k + 1))
      && cells[k].middle == Some(MiddleAt(DefaultGrid, k))
  }

  /** The four runs applied in turn to the dead, positioned table give the start-up cells. */
  lemma StartupCellsFollow(dead: seq<Cell>, c1: seq<Cell>, c2: seq<Cell>, c3: seq<Cell>, c4: seq<Cell>, rolls: int -> (bool, bool))
    requires forall k :: 0 <= k < |dead| ==> !dead[k].alive && dead[k].middle == Some(MiddleAt(DefaultGrid, k))
    requires ValidGrid(DefaultGrid)
    requires AttackedUpTo(DefaultGrid, dead, c1, Fire, 29, 34, rolls)
    requires AttackedUpTo(DefaultGrid, c1, c2, Fire, 55, 60, rolls)
    requires AttackedUpTo(DefaultGrid, c2, c3, Fire, 60, 104, rolls)
    requires AttackedUpTo(DefaultGrid, c3, c4, Radioactive, 139, 163, rolls)
    ensures StartupCells(c4)
  {
    forall k | 0 <= k < |c4|
      ensures && (c4[k].alive <==> StartupName(k + 1).Some?)
              && (c4[k].alive ==> c4[k].name == StartupName(k + 1))
              && c4[k].middle == Some(MiddleAt(DefaultGrid, k))
    {
      assert c1[k].middle == dead[k].middle && c2[k].middle == dead[k].middle && c3[k].middle == dead[k].middle;
    }
  }
}

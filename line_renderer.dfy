/**
 * The batched line renderer (lineRenderer/lineRenderer.h and .cpp).
 *
 * `draw` files a polyline under its (colour, thickness) key; `flush` visits the
 * keys in ascending LineKey order, turns every polyline of a key into a
 * triangle strip of 2N vertices, joins the strips of one key with degenerate
 * connectors and issues one draw per key. The GL calls are replaced by a ghost
 * trace of `LineDraw` records; glm::normalize is a function supplied by the
 * caller, about which nothing is assumed.
 */
module LineRenderer {
  import opened Vectors
  import opened Ordering

  /** LineKey (lineRenderer.h:20-31): the colour and thickness a batch shares. */
  datatype LineKey = LineKey(color: Vec4, thickness: real)

  /** LineKey::operator< (lineRenderer.h:24-30), written as the same comparison chain. */
  function KeyLess(a: LineKey, b: LineKey): bool
  {
    if a.color.x != b.color.x then a.color.x < b.color.x
    else if a.color.y != b.color.y then a.color.y < b.color.y
    else if a.color.z != b.color.z then a.color.z < b.color.z
    else if a.color.w != b.color.w then a.color.w < b.color.w
    else a.thickness < b.thickness
  }

  /** Over the reals the chain is a strict total order, so std::map may use it. */
  lemma KeyLessIsStrictTotal()
    ensures StrictTotal(KeyLess)
  {
  }

  /** Keys are equivalent under the chain exactly when all five components agree. */
  lemma KeyEquivalentIffEqual(a: LineKey, b: LineKey)
    ensures (!KeyLess(a, b) && !KeyLess(b, a)) <==> a == b
  {
  }

  /** The chain is colour-lexicographic first and compares thickness only on equal colours. */
  lemma KeyLessIsLexicographic(a: LineKey, b: LineKey)
    ensures KeyLess(a, b) == if a.color != b.color then ColorLess(a.color, b.color)
                             else a.thickness < b.thickness
  {
  }

  /** The order in which a range-for over linesBatch visits the keys. */
  ghost function SortedKeys(keys: set<LineKey>): (r: seq<LineKey>)
    ensures |r| == |keys| && forall k :: k in keys <==> k in r
  {
    KeyLessIsStrictTotal();
    Ascending(KeyLess, keys)
  }

  /** The enumeration visits the keys in strictly ascending LineKey order. */
  lemma SortedKeysAscend(keys: set<LineKey>)
    ensures forall i, j :: 0 <= i < j < |SortedKeys(keys)| ==> KeyLess(SortedKeys(keys)[i], SortedKeys(keys)[j])
  {
    KeyLessIsStrictTotal();
    AscendingSorted(KeyLess, keys);
    assert SortedKeys(keys) == Ascending(KeyLess, keys);
  }

  /** Default arguments of draw and flush (lineRenderer.h:13-15). */
  const DefaultColor: Vec4 := White
  const DefaultThickness: real := 1.0
  const DefaultRotation: real := 0.0

  // ---------------------------------------------------------------------------
  // Triangulation

  /**
   * Miter length `thickness / dot`. The dot product is zero only when a
   * polyline turns back on itself, where glm::normalize of the zero vector is
   * NaN; the model then uses length 0.
   */
  function MiterLength(half: real, d: real): real
  {
    if d != 0.0 then half / d else 0.0
  }

  /**
   * The offset vector of point j: vertices 2j and 2j+1 of its strip are
   * points[j] minus and plus this vector. The first and last points use the
   * plain normal of their segment; an interior point uses the miter normal of
   * the tangent averaged from its two segments.
   */
  function Offset(points: seq<Vec2>, j: nat, half: real, normalize: Vec2 -> Vec2): Vec2
    requires 2 <= |points| && j < |points|
  {
    if j == 0 then
      normalize(points[1].Minus(points[0])).Perp().Scale(half)
    else if j == |points| - 1 then
      normalize(points[j].Minus(points[j - 1])).Perp().Scale(half)
    else
      var line := normalize(points[j + 1].Minus(points[j]));
      var preceding := normalize(points[j].Minus(points[j - 1]));
      var miter := normalize(line.Plus(preceding)).Perp();
      miter.Scale(MiterLength(half, line.Perp().Dot(miter)))
  }

  /** The offsets of every point of a polyline of at least two points. */
  function Offsets(points: seq<Vec2>, half: real, normalize: Vec2 -> Vec2): (offsets: seq<Vec2>)
    requires 2 <= |points|
    ensures |offsets| == |points|
    ensures forall j :: 0 <= j < |points| ==> offsets[j] == Offset(points, j, half, normalize)
  {
    seq(|points|, j requires 0 <= j < |points| => Offset(points, j, half, normalize))
  }

  /** The vertex pairs of points j, j+1, ..., N-1: each point minus and plus its offset. */
  function Pairs(points: seq<Vec2>, offsets: seq<Vec2>, j: nat): seq<Vec2>
    requires |offsets| == |points| && j <= |points|
    decreases |points| - j
  {
    if j == |points| then []
    else [points[j].Minus(offsets[j]), points[j].Plus(offsets[j])] + Pairs(points, offsets, j + 1)
  }

  /** The strip triangulateLine builds: empty below two points, else the pairs of all points. */
  function Strip(points: seq<Vec2>, half: real, normalize: Vec2 -> Vec2): seq<Vec2>
  {
    if |points| < 2 then [] else Pairs(points, Offsets(points, half, normalize), 0)
  }

  function Midpoint(a: Vec2, b: Vec2): Vec2
  {
    Vec2((a.x + b.x) / 2.0, (a.y + b.y) / 2.0)
  }

  /** A point is the midpoint of itself minus and plus any offset. */
  lemma MidpointOfPair(p: Vec2, offset: Vec2, a: Vec2, b: Vec2)
    requires a == p.Minus(offset) && b == p.Plus(offset)
    ensures Midpoint(a, b) == p
  {
  }

  lemma {:induction false} PairsLength(points: seq<Vec2>, offsets: seq<Vec2>, j: nat)
    requires |offsets| == |points| && j <= |points|
    ensures |Pairs(points, offsets, j)| == 2 * (|points| - j)
    decreases |points| - j
  {
    if j < |points| {
      PairsLength(points, offsets, j + 1);
    }
  }

  /** Pair m of the pairs from j on sits at positions 2(m - j) and 2(m - j) + 1. */
  lemma {:induction false} PairsAt(points: seq<Vec2>, offsets: seq<Vec2>, j: nat, m: nat)
    requires |offsets| == |points| && j <= m < |points|
    ensures |Pairs(points, offsets, j)| == 2 * (|points| - j)
    ensures Pairs(points, offsets, j)[2 * (m - j)] == points[m].Minus(offsets[m])
    ensures Pairs(points, offsets, j)[2 * (m - j) + 1] == points[m].Plus(offsets[m])
    decreases m - j
  {
    PairsLength(points, offsets, j);
    if j < m {
      PairsAt(points, offsets, j + 1, m);
      PairsLength(points, offsets, j + 1);
      var rest := Pairs(points, offsets, j + 1);
      assert Pairs(points, offsets, j) == [points[j].Minus(offsets[j]), points[j].Plus(offsets[j])] + rest;
      assert 2 * (m - j) == 2 * (m - (j + 1)) + 2;
    }
  }

  /**
   * A strip has 2N vertices for N >= 2 points and none otherwise; its pair
   * (2j, 2j+1) is points[j] minus and plus the offset of point j, so the
   * midpoint of the pair is exactly points[j].
   */
  lemma StripShape(points: seq<Vec2>, half: real, normalize: Vec2 -> Vec2)
    ensures |Strip(points, half, normalize)| == if |points| < 2 then 0 else 2 * |points|
    ensures 2 <= |points| ==> forall j :: 0 <= j < |points| ==>
              && Strip(points, half, normalize)[2 * j] == points[j].Minus(Offset(points, j, half, normalize))
              && Strip(points, half, normalize)[2 * j + 1] == points[j].Plus(Offset(points, j, half, normalize))
    ensures 2 <= |points| ==> forall j :: 0 <= j < |points| ==>
              Midpoint(Strip(points, half, normalize)[2 * j], Strip(points, half, normalize)[2 * j + 1]) == points[j]
  {
    if 2 <= |points| {
      var offsets := Offsets(points, half, normalize);
      PairsLength(points, offsets, 0);
      var strip := Pairs(points, offsets, 0);
      forall j | 0 <= j < |points|
        ensures strip[2 * j] == points[j].Minus(offsets[j]) && strip[2 * j + 1] == points[j].Plus(offsets[j])
        ensures Midpoint(strip[2 * j], strip[2 * j + 1]) == points[j]
      {
        PairsAt(points, offsets, 0, j);
        MidpointOfPair(points[j], offsets[j], strip[2 * j], strip[2 * j + 1]);
      }
    }
  }

  /**
   * triangulateLine (lineRenderer.cpp:63-97): two vertices at the start, two
   * per interior point, two at the end; each pair is centred on its point.
   */
  method TriangulateLine(points: seq<Vec2>, half: real, normalize: Vec2 -> Vec2) returns (r: seq<Vec2>)
    ensures |r| == if |points| < 2 then 0 else 2 * |points|
    ensures forall j :: 0 <= j < |points| && 2 <= |points| ==>
              Midpoint(r[2 * j], r[2 * j + 1]) == points[j]
    ensures r == Strip(points, half, normalize)
  {
    r := [];
    if |points| < 2 {
      return;
    }
    ghost var offsets := Offsets(points, half, normalize);
    var startLine := normalize(points[1].Minus(points[0]));
    var normal := startLine.Perp();
    assert offsets[0] == normal.Scale(half);
    r := r + [points[0].Minus(normal.Scale(half)), points[0].Plus(normal.Scale(half))];
    var precedingLine := startLine;
    var i := 2;
    while i < |points|
      invariant 2 <= i <= |points|
      invariant precedingLine == normalize(points[i - 1].Minus(points[i - 2]))
      invariant r + Pairs(points, offsets, i - 1) == Strip(points, half, normalize)
    {
      var line := normalize(points[i].Minus(points[i - 1]));
      var tangent := normalize(line.Plus(precedingLine));
      precedingLine := line;
      var segmentNormal := line.Perp();
      var miter := tangent.Perp();
      var length := MiterLength(half, segmentNormal.Dot(miter));
      assert offsets[i - 1] == miter.Scale(length);
      var pair := [points[i - 1].Minus(miter.Scale(length)), points[i - 1].Plus(miter.Scale(length))];
      assert Pairs(points, offsets, i - 1) == pair + Pairs(points, offsets, i);
      r := r + pair;
      i := i + 1;
    }
    var endIndex := |points| - 1;
    var endLine := normalize(points[endIndex].Minus(points[endIndex - 1]));
    normal := endLine.Perp();
    assert offsets[endIndex] == normal.Scale(half);
    r := r + [points[endIndex].Minus(normal.Scale(half)), points[endIndex].Plus(normal.Scale(half))];
    assert Pairs(points, offsets, endIndex + 1) == [];
    StripShape(points, half, normalize);
  }

  // ---------------------------------------------------------------------------
  // One batch: strips joined by degenerate connectors

  /**
   * Appends a strip to the batch's vertices: an empty strip is skipped; a
   * strip after earlier ones is preceded by a connector that repeats the last
   * vertex so far and the strip's first vertex.
   */
  function Join(acc: seq<Vec2>, strip: seq<Vec2>): seq<Vec2>
  {
    if |strip| == 0 then acc
    else if |acc| == 0 then strip
    else acc + [acc[|acc| - 1], strip[0]] + strip
  }

  /** The vertices flush uploads for one key's polylines, in submission order. */
  function BatchVertices(lines: seq<seq<Vec2>>, half: real, normalize: Vec2 -> Vec2): seq<Vec2>
  {
    if |lines| == 0 then []
    else Join(BatchVertices(lines[..|lines| - 1], half, normalize), Strip(lines[|lines| - 1], half, normalize))
  }

  function TotalPoints(lines: seq<seq<Vec2>>): nat
  {
    if |lines| == 0 then 0 else TotalPoints(lines[..|lines| - 1]) + |lines[|lines| - 1]|
  }

  ghost predicate AllDrawable(lines: seq<seq<Vec2>>)
  {
    forall i :: 0 <= i < |lines| ==> 2 <= |lines[i]|
  }

  /** k polylines of n_i points give sum(2 n_i) + 2 (k - 1) vertices. */
  lemma {:induction false} BatchVertexCount(lines: seq<seq<Vec2>>, half: real, normalize: Vec2 -> Vec2)
    requires AllDrawable(lines)
    ensures lines == [] ==> BatchVertices(lines, half, normalize) == []
    ensures lines != [] ==>
              |BatchVertices(lines, half, normalize)| == 2 * TotalPoints(lines) + 2 * (|lines| - 1)
  {
    if lines != [] {
      var init := lines[..|lines| - 1];
      assert AllDrawable(init);
      BatchVertexCount(init, half, normalize);
      StripShape(lines[|lines| - 1], half, normalize);
    }
  }

  /**
   * Between the strips of consecutive polylines sits a connector repeating the
   * earlier batch's last vertex and the new strip's first vertex.
   */
  lemma ConnectorRepeatsEnds(lines: seq<seq<Vec2>>, half: real, normalize: Vec2 -> Vec2)
    requires 2 <= |lines| && AllDrawable(lines)
    ensures var before := BatchVertices(lines[..|lines| - 1], half, normalize);
            var strip := Strip(lines[|lines| - 1], half, normalize);
            var all := BatchVertices(lines, half, normalize);
            && |before| > 0
            && all == before + [before[|before| - 1], strip[0]] + strip
  {
    var init := lines[..|lines| - 1];
    assert AllDrawable(init);
    BatchVertexCount(init, half, normalize);
  }

  // ---------------------------------------------------------------------------
  // Uploads: one draw per key, grow-only buffer capacity

  /** Bytes uploaded for a batch: two 4-byte floats per vertex. */
  function DataSize(vertices: seq<Vec2>): nat { 8 * |vertices| }

  /**
   * The uniforms flush sets once for all its keys (lineRenderer.cpp:114-115):
   * the projection matrix passed by the caller, as its 16 entries, and the
   * rotation.
   */
  datatype Uniforms = Uniforms(projection: seq<real>, rotation: real)

  /**
   * What one flush emits for one key: its colour, the flush's uniforms, the
   * strip vertices, the uploaded size, and whether the upload reallocated the
   * buffer (glBufferData) or overwrote it in place (glBufferSubData).
   */
  datatype LineDraw = LineDraw(color: Vec4, uniforms: Uniforms, vertices: seq<Vec2>,
                               dataSize: nat, reallocated: bool)

  /**
   * The vertices flush builds for each key that holds polylines (a key with an
   * empty list is skipped, lineRenderer.cpp:121).
   */
  function BatchMap(batch: map<LineKey, seq<seq<Vec2>>>, normalize: Vec2 -> Vec2): (vm: map<LineKey, seq<Vec2>>)
    ensures forall k :: k in vm <==> k in batch && |batch[k]| != 0
  {
    map k | k in batch && |batch[k]| != 0 :: KeyVertices(batch, k, normalize)
  }

  /** The vertices of one key's polylines, offset by half its thickness. */
  function KeyVertices(batch: map<LineKey, seq<seq<Vec2>>>, key: LineKey, normalize: Vec2 -> Vec2): seq<Vec2>
    requires key in batch
  {
    BatchVertices(batch[key], key.thickness * 0.5, normalize)
  }

  /** Every nonempty set of keys has a least one. */
  lemma LeastKeyExists(keys: set<LineKey>)
    requires keys != {}
    ensures exists key :: IsLeast(KeyLess, key, keys)
  {
    KeyLessIsStrictTotal();
    LeastExists(KeyLess, keys);
  }

  /** The least key comes first in the ascending enumeration. */
  lemma SortedKeysStep(key: LineKey, keys: set<LineKey>)
    requires IsLeast(KeyLess, key, keys)
    ensures SortedKeys(keys) == [key] + SortedKeys(keys - {key})
  {
    KeyLessIsStrictTotal();
    AscendingStep(KeyLess, key, keys);
  }

  /**
   * One step of flush's walk over the keys: taking the least remaining key
   * either skips it or appends its draw and grows the capacity, and the
   * draws and capacity still to come are those of the other keys.
   */
  lemma FlushStep(key: LineKey, keys: set<LineKey>, vm: map<LineKey, seq<Vec2>>, cap: nat, uniforms: Uniforms,
                  drawn: seq<LineDraw>, total: seq<LineDraw>, totalCap: nat)
    requires IsLeast(KeyLess, key, keys)
    requires total == drawn + Uploads(SortedKeys(keys), vm, cap, uniforms)
    requires totalCap == CapacityAfter(SortedKeys(keys), vm, cap)
    ensures key !in vm ==>
              && total == drawn + Uploads(SortedKeys(keys - {key}), vm, cap, uniforms)
              && totalCap == CapacityAfter(SortedKeys(keys - {key}), vm, cap)
    ensures key in vm ==>
              var size := DataSize(vm[key]);
              && total == (drawn + [LineDraw(key.color, uniforms, vm[key], size, size > cap)])
                          + Uploads(SortedKeys(keys - {key}), vm, Grow(cap, size), uniforms)
              && totalCap == CapacityAfter(SortedKeys(keys - {key}), vm, Grow(cap, size))
  {
    SortedKeysStep(key, keys);
    UploadsStep(key, SortedKeys(keys - {key}), vm, cap, uniforms);
  }

  /** The vertices of a key that holds polylines. */
  lemma BatchMapAt(batch: map<LineKey, seq<seq<Vec2>>>, normalize: Vec2 -> Vec2, key: LineKey)
    requires key in batch && |batch[key]| != 0
    ensures key in BatchMap(batch, normalize)
    ensures BatchMap(batch, normalize)[key] == KeyVertices(batch, key, normalize)
  {
  }

  /** The capacity after an upload of `size` bytes into a buffer of `cap` bytes. */
  function Grow(cap: nat, size: nat): nat { if size > cap then size else cap }

  /** The draws for `keys`, in that order, starting from buffer capacity `cap`. */
  function Uploads(keys: seq<LineKey>, vm: map<LineKey, seq<Vec2>>, cap: nat, uniforms: Uniforms): seq<LineDraw>
  {
    if |keys| == 0 then []
    else if keys[0] !in vm then Uploads(keys[1..], vm, cap, uniforms)
    else
      var size := DataSize(vm[keys[0]]);
      [LineDraw(keys[0].color, uniforms, vm[keys[0]], size, size > cap)] + Uploads(keys[1..], vm, Grow(cap, size), uniforms)
  }

  /** The buffer capacity after uploading the draws for `keys`. */
  function CapacityAfter(keys: seq<LineKey>, vm: map<LineKey, seq<Vec2>>, cap: nat): nat
  {
    if |keys| == 0 then cap
    else if keys[0] !in vm then CapacityAfter(keys[1..], vm, cap)
    else CapacityAfter(keys[1..], vm, Grow(cap, DataSize(vm[keys[0]])))
  }

  /** Unfolding Uploads and CapacityAfter at the first key. */
  lemma UploadsStep(key: LineKey, rest: seq<LineKey>, vm: map<LineKey, seq<Vec2>>, cap: nat, uniforms: Uniforms)
    ensures key !in vm ==>
              && Uploads([key] + rest, vm, cap, uniforms) == Uploads(rest, vm, cap, uniforms)
              && CapacityAfter([key] + rest, vm, cap) == CapacityAfter(rest, vm, cap)
    ensures key in vm ==>
              var size := DataSize(vm[key]);
              && Uploads([key] + rest, vm, cap, uniforms)
                 == [LineDraw(key.color, uniforms, vm[key], size, size > cap)] + Uploads(rest, vm, Grow(cap, size), uniforms)
              && CapacityAfter([key] + rest, vm, cap) == CapacityAfter(rest, vm, Grow(cap, size))
  {
    assert ([key] + rest)[0] == key && ([key] + rest)[1..] == rest;
  }

  /** The capacity never shrinks and ends at least as large as every upload. */
  lemma {:induction false} CapacityGrowsOnly(keys: seq<LineKey>, vm: map<LineKey, seq<Vec2>>, cap: nat, uniforms: Uniforms)
    ensures cap <= CapacityAfter(keys, vm, cap)
    ensures forall i :: 0 <= i < |Uploads(keys, vm, cap, uniforms)| ==>
              Uploads(keys, vm, cap, uniforms)[i].dataSize <= CapacityAfter(keys, vm, cap)
  {
    if keys != [] {
      var key := keys[0];
      var rest := keys[1..];
      assert keys == [key] + rest;
      UploadsStep(key, rest, vm, cap, uniforms);
      if key !in vm {
        CapacityGrowsOnly(rest, vm, cap, uniforms);
      } else {
        CapacityGrowsOnly(rest, vm, Grow(cap, DataSize(vm[key])), uniforms);
      }
    }
  }

  /**
   * An upload reallocates the buffer exactly when it is larger than the
   * starting capacity and than every earlier upload of the same flush.
   */
  lemma {:induction false} ReallocatesOnNewMaximum(keys: seq<LineKey>, vm: map<LineKey, seq<Vec2>>, cap: nat, uniforms: Uniforms)
    ensures forall i :: 0 <= i < |Uploads(keys, vm, cap, uniforms)| ==>
              (Uploads(keys, vm, cap, uniforms)[i].reallocated <==>
                 && Uploads(keys, vm, cap, uniforms)[i].dataSize > cap
                 && forall h :: 0 <= h < i ==>
                      Uploads(keys, vm, cap, uniforms)[i].dataSize > Uploads(keys, vm, cap, uniforms)[h].dataSize)
  {
    if keys != [] {
      var key := keys[0];
      var rest := keys[1..];
      assert keys == [key] + rest;
      UploadsStep(key, rest, vm, cap, uniforms);
      if key !in vm {
        ReallocatesOnNewMaximum(rest, vm, cap, uniforms);
      } else {
        var size := DataSize(vm[key]);
        var cap' := Grow(cap, size);
        ReallocatesOnNewMaximum(rest, vm, cap', uniforms);
        var ds := Uploads(keys, vm, cap, uniforms);
        var tail := Uploads(rest, vm, cap', uniforms);
        assert ds == [ds[0]] + tail;
        forall i | 0 < i < |ds|
          ensures ds[i].reallocated <==> (ds[i].dataSize > cap &&
                                          forall h :: 0 <= h < i ==> ds[i].dataSize > ds[h].dataSize)
        {
          var t := tail[i - 1];
          assert ds[i] == t && ds[0].dataSize == size;
          if t.dataSize > cap && forall h :: 0 <= h < i ==> t.dataSize > ds[h].dataSize {
            forall h | 0 <= h < i - 1
              ensures t.dataSize > tail[h].dataSize
            {
              assert tail[h] == ds[h + 1];
            }
          }
          if t.dataSize > cap' && forall h :: 0 <= h < i - 1 ==> t.dataSize > tail[h].dataSize {
            forall h | 0 <= h < i
              ensures t.dataSize > ds[h].dataSize
            {
              if 0 < h {
                assert ds[h] == tail[h - 1];
              }
            }
          }
        }
      }
    }
  }

  /** One draw per key that has polylines, in the order the keys are given, carrying that key's vertices. */
  lemma {:induction false} OneDrawPerKey(keys: seq<LineKey>, vm: map<LineKey, seq<Vec2>>, cap: nat, uniforms: Uniforms)
    requires forall k :: k in keys ==> k in vm
    ensures |Uploads(keys, vm, cap, uniforms)| == |keys|
    ensures forall i :: 0 <= i < |keys| ==>
              && Uploads(keys, vm, cap, uniforms)[i].color == keys[i].color
              && Uploads(keys, vm, cap, uniforms)[i].uniforms == uniforms
              && Uploads(keys, vm, cap, uniforms)[i].vertices == vm[keys[i]]
  {
    if keys != [] {
      var key := keys[0];
      var rest := keys[1..];
      assert keys == [key] + rest;
      UploadsStep(key, rest, vm, cap, uniforms);
      var cap' := Grow(cap, DataSize(vm[key]));
      OneDrawPerKey(rest, vm, cap', uniforms);
      var ds := Uploads(keys, vm, cap, uniforms);
      var tail := Uploads(rest, vm, cap', uniforms);
      assert ds == [ds[0]] + tail;
      forall i | 0 < i < |ds|
        ensures ds[i] == tail[i - 1] && keys[i] == rest[i - 1]
      {
      }
    }
  }

  /** The inner loop of flush for one key: strips joined by connectors. */
  method BuildBatch(lines: seq<seq<Vec2>>, half: real, normalize: Vec2 -> Vec2) returns (verts: seq<Vec2>)
    ensures verts == BatchVertices(lines, half, normalize)
  {
    verts := [];
    var i := 0;
    while i < |lines|
      invariant 0 <= i <= |lines|
      invariant verts == BatchVertices(lines[..i], half, normalize)
    {
      var strip := TriangulateLine(lines[i], half, normalize);
      assert lines[..i + 1][..i] == lines[..i];
      if |strip| != 0 {
        if |verts| != 0 {
          verts := verts + [verts[|verts| - 1], strip[0]];
        }
        verts := verts + strip;
      }
      i := i + 1;
    }
    assert lines[..|lines|] == lines;
  }

  /** The vertices of one key of the batch map, at half its thickness. */
  method BuildKeyBatch(batch: map<LineKey, seq<seq<Vec2>>>, key: LineKey, normalize: Vec2 -> Vec2) returns (verts: seq<Vec2>)
    requires key in batch && |batch[key]| != 0
    ensures key in BatchMap(batch, normalize) && verts == BatchMap(batch, normalize)[key]
  {
    verts := BuildBatch(batch[key], key.thickness * 0.5, normalize);
    assert verts == KeyVertices(batch, key, normalize);
    BatchMapAt(batch, normalize, key);
  }

  /**
   * The body of flush's loop for a key with polylines (lineRenderer.cpp:118-150):
   * the key's vertices are built, uploaded (the buffer reallocated when they
   * do not fit) and drawn in the key's colour with the flush's uniforms.
   */
  method UploadKey(batch: map<LineKey, seq<seq<Vec2>>>, key: LineKey, normalize: Vec2 -> Vec2, cap: nat, uniforms: Uniforms)
    returns (draw: LineDraw, newCap: nat)
    requires key in batch && |batch[key]| != 0
    ensures key in BatchMap(batch, normalize)
    ensures var size := DataSize(BatchMap(batch, normalize)[key]);
            && draw == LineDraw(key.color, uniforms, BatchMap(batch, normalize)[key], size, size > cap)
            && newCap == Grow(cap, size)
  {
    var verts := BuildKeyBatch(batch, key, normalize);
    var dataSize := DataSize(verts);
    var reallocated := dataSize > cap;
    draw := LineDraw(key.color, uniforms, verts, dataSize, reallocated);
    newCap := cap;
    if reallocated {
      newCap := dataSize;
    }
  }

  /**
   * The loop of flush (lineRenderer.cpp:116-152): the keys in ascending
   * order, each with polylines uploaded and drawn, starting from a buffer of
   * `cap` bytes; returns the draws and the final capacity.
   */
  method DrawKeys(batch: map<LineKey, seq<seq<Vec2>>>, normalize: Vec2 -> Vec2, cap: nat, uniforms: Uniforms)
    returns (drawn: seq<LineDraw>, capacity: nat)
    ensures var keys, vm := SortedKeys(batch.Keys), BatchMap(batch, normalize);
            drawn == Uploads(keys, vm, cap, uniforms) && capacity == CapacityAfter(keys, vm, cap)
  {
    ghost var vm := BatchMap(batch, normalize);
    var remaining := batch.Keys;
    ghost var keys0 := SortedKeys(batch.Keys);
    ghost var total := Uploads(keys0, vm, cap, uniforms);
    ghost var totalCap := CapacityAfter(keys0, vm, cap);
    drawn, capacity := [], cap;
    while remaining != {}
      invariant remaining <= batch.Keys
      invariant total == drawn + Uploads(SortedKeys(remaining), vm, capacity, uniforms)
      invariant totalCap == CapacityAfter(SortedKeys(remaining), vm, capacity)
      decreases remaining
    {
      LeastKeyExists(remaining);
      var key :| IsLeast(KeyLess, key, remaining);
      FlushStep(key, remaining, vm, capacity, uniforms, drawn, total, totalCap);
      remaining := remaining - {key};
      var lines := batch[key];
      if |lines| == 0 {
        continue;
      }
      var draw;
      draw, capacity := UploadKey(batch, key, normalize, capacity, uniforms);
      drawn := drawn + [draw];
    }
  }

  // ---------------------------------------------------------------------------
  // The renderer object

  class LineRenderer {
    /** linesBatch (lineRenderer.h:40): key -> polylines in submission order. */
    var linesBatch: map<LineKey, seq<seq<Vec2>>>
    /** bufferCapacity (lineRenderer.h:41), in bytes. */
    var bufferCapacity: nat
    /** The draws issued so far, standing in for the GL calls. */
    ghost var draws: seq<LineDraw>
    /** glm::normalize. */
    const normalize: Vec2 -> Vec2

    /** Every stored key holds at least one polyline, and every polyline at least two points. */
    ghost predicate Valid()
      reads this
    {
      forall k :: k in linesBatch ==> linesBatch[k] != [] && AllDrawable(linesBatch[k])
    }

    constructor (normalize: Vec2 -> Vec2)
      ensures Valid()
      ensures linesBatch == map[] && bufferCapacity == 0 && draws == []
      ensures this.normalize == normalize
    {
      linesBatch := map[];
      bufferCapacity := 0;
      draws := [];
      this.normalize := normalize;
    }

    /**
     * draw(points, color, thickness) (lineRenderer.cpp:104-108), colour and
     * thickness defaulting to white and 1 (lineRenderer.h:14): fewer than two
     * points are dropped; otherwise the polyline goes to the end of its key's list.
     */
    method Draw(points: seq<Vec2>, color: Vec4 := DefaultColor, thickness: real := DefaultThickness)
      requires Valid()
      modifies this`linesBatch
      ensures Valid()
      ensures |points| < 2 ==> linesBatch == old(linesBatch)
      ensures 2 <= |points| ==>
                var key := LineKey(color, thickness);
                linesBatch == old(linesBatch)[key := (if key in old(linesBatch) then old(linesBatch)[key] else []) + [points]]
    {
      if |points| < 2 {
        return;
      }
      var key := LineKey(color, thickness);
      var lines := if key in linesBatch then linesBatch[key] else [];
      linesBatch := linesBatch[key := lines + [points]];
    }

    /** draw(from, to, ...) (lineRenderer.cpp:100-102): the two-point polyline. */
    method DrawSegment(from: Vec2, to: Vec2, color: Vec4 := DefaultColor, thickness: real := DefaultThickness)
      requires Valid()
      modifies this`linesBatch
      ensures Valid()
      ensures var key := LineKey(color, thickness);
              linesBatch == old(linesBatch)[key := (if key in old(linesBatch) then old(linesBatch)[key] else []) + [[from, to]]]
    {
      Draw([from, to], color, thickness);
    }

    /**
     * flush(projectionMatrix, rotation) (lineRenderer.cpp:110-156), the
     * rotation defaulting to 0 (lineRenderer.h:15): nothing when the map is
     * empty; otherwise one draw per key in ascending key order, each with the
     * projection and the rotation as uniforms, then the map is emptied.
     */
    method Flush(projection: seq<real>, rotation: real := DefaultRotation)
      modifies this`linesBatch, this`bufferCapacity, this`draws
      ensures Valid()
      ensures linesBatch == map[]
      ensures old(linesBatch) == map[] ==> draws == old(draws) && bufferCapacity == old(bufferCapacity)
      ensures var keys := SortedKeys(old(linesBatch).Keys);
              var vm := BatchMap(old(linesBatch), normalize);
              && draws == old(draws) + Uploads(keys, vm, old(bufferCapacity), Uniforms(projection, rotation))
              && bufferCapacity == CapacityAfter(keys, vm, old(bufferCapacity))
    {
      if linesBatch == map[] {
        return;
      }
      var drawn, capacity := DrawKeys(linesBatch, normalize, bufferCapacity, Uniforms(projection, rotation));
      draws := draws + drawn;
      bufferCapacity := capacity;
      linesBatch := map[];
    }
  }
}

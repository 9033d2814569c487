/**
 * The batched text renderer (textRenderer/textRenderer.h and .cpp).
 *
 * `draw` and `drawCentered` queue text runs, each with an explicit z-index or
 * the next value of an auto-incrementing counter. `flush` sorts the queue by
 * z-index with std::sort (which is not stable), lays every run out glyph by
 * glyph into a per-colour vertex list, and issues one indexed draw per colour,
 * visiting the colours in ascending Vec4Comparator order. The glyph table is a
 * `map<char, Glyph>` filled by the font loader; a lookup of an absent
 * character yields, and inserts, an all-zero glyph. The GL calls are replaced
 * by a ghost trace of `TextDraw` records.
 */
module TextRenderer {
  import opened Vectors
  import opened Ordering
  import opened Wrappers
  import opened Seqs

  // ---------------------------------------------------------------------------
  // Glyph table

  /**
   * Character (textRenderer.h:33-38): the atlas rectangle's two corners, the
   * bitmap size, the bearing, and the advance in 26.6 fixed point.
   */
  datatype Glyph = Glyph(tex0: Vec2, tex1: Vec2, sizeX: int, sizeY: int,
                         bearingX: int, bearingY: int, advance: nat)

  /** The value-initialised Character that `characters[c]` inserts for an absent c. */
  const ZeroGlyph: Glyph := Glyph(Vec2(0.0, 0.0), Vec2(0.0, 0.0), 0, 0, 0, 0, 0)

  /** `characters[c]`, as a value. */
  function GlyphOf(glyphs: map<char, Glyph>, c: char): Glyph
  {
    if c in glyphs then glyphs[c] else ZeroGlyph
  }

  function CharsOf(s: string): set<char>
  {
    set c | c in s
  }

  /** The table after `characters[c]` was evaluated for every c in `cs`. */
  function WithDefaults(glyphs: map<char, Glyph>, cs: set<char>): (r: map<char, Glyph>)
    ensures r.Keys == glyphs.Keys + cs
    ensures forall c :: c in glyphs ==> r[c] == glyphs[c]
    ensures forall c :: c in cs && c !in glyphs ==> r[c] == ZeroGlyph
  {
    map c | c in glyphs.Keys + cs :: GlyphOf(glyphs, c)
  }

  /** Inserting the default glyphs changes no lookup result. */
  lemma LookupUnchangedByDefaults(glyphs: map<char, Glyph>, cs: set<char>, c: char)
    ensures GlyphOf(WithDefaults(glyphs, cs), c) == GlyphOf(glyphs, c)
  {
  }

  /** `Advance >> 6`: the whole pixels of a 26.6 fixed-point advance. */
  function AdvancePixels(g: Glyph): nat
  {
    g.advance / 64
  }

  /** A pixel count times a float scale factor. */
  function Scaled(n: int, scale: real): real
  {
    n as real * scale
  }

  /** How far the pen moves past character c at the given scale. */
  function Step(glyphs: map<char, Glyph>, c: char, scale: real): real
  {
    Scaled(AdvancePixels(GlyphOf(glyphs, c)), scale)
  }

  // ---------------------------------------------------------------------------
  // String metrics (getStringMetrics, getLetterPositions)

  /** The width a string accumulates, one advance at a time. */
  function Width(glyphs: map<char, Glyph>, s: string, scale: real): real
  {
    if s == [] then 0.0 else Width(glyphs, s[..|s| - 1], scale) + Step(glyphs, s[|s| - 1], scale)
  }

  /** The sum of the whole-pixel advances of a string. */
  function TotalAdvance(glyphs: map<char, Glyph>, s: string): nat
  {
    if s == [] then 0 else TotalAdvance(glyphs, s[..|s| - 1]) + AdvancePixels(GlyphOf(glyphs, s[|s| - 1]))
  }

  /** The width is the string's total advance times the scale. */
  lemma {:induction false} WidthIsScaledAdvance(glyphs: map<char, Glyph>, s: string, scale: real)
    ensures Width(glyphs, s, scale) == Scaled(TotalAdvance(glyphs, s), scale)
  {
    if s != [] {
      var init := s[..|s| - 1];
      WidthIsScaledAdvance(glyphs, init, scale);
      var a := TotalAdvance(glyphs, init) as real;
      var b := AdvancePixels(GlyphOf(glyphs, s[|s| - 1])) as real;
      assert (a + b) * scale == a * scale + b * scale;
    }
  }

  /** std::max(a, b): b when a < b, else a. */
  function Max(a: real, b: real): real
  {
    if a < b then b else a
  }

  /** A running maximum that starts at 0, as getStringMetrics keeps one. */
  function Peak(xs: seq<real>): real
  {
    if xs == [] then 0.0 else Max(Peak(xs[..|xs| - 1]), xs[|xs| - 1])
  }

  /** The running maximum is at least 0 and every element, and is 0 or one of them. */
  lemma {:induction false} PeakIsMaximum(xs: seq<real>)
    ensures Peak(xs) >= 0.0
    ensures forall i :: 0 <= i < |xs| ==> xs[i] <= Peak(xs)
    ensures Peak(xs) == 0.0 || Peak(xs) in xs
  {
    if xs != [] {
      var init := xs[..|xs| - 1];
      PeakIsMaximum(init);
      forall i | 0 <= i < |xs|
        ensures xs[i] <= Peak(xs)
      {
        if i < |xs| - 1 {
          assert xs[i] == init[i];
        }
      }
      if Peak(xs) != 0.0 && Peak(xs) != xs[|xs| - 1] {
        assert Peak(xs) == Peak(init);
        var j :| 0 <= j < |init| && init[j] == Peak(init);
        assert xs[j] == init[j];
      }
    }
  }

  lemma PeakSnoc(xs: seq<real>, x: real)
    ensures Peak(xs + [x]) == Max(Peak(xs), x)
  {
    assert (xs + [x])[..|xs|] == xs;
  }

  /** Per character: the scaled bitmap height. */
  function Heights(glyphs: map<char, Glyph>, s: string, scale: real): seq<real>
  {
    if s == [] then [] else Heights(glyphs, s[..|s| - 1], scale) + [Scaled(GlyphOf(glyphs, s[|s| - 1]).sizeY, scale)]
  }

  /** Per character: the scaled bearing above the baseline. */
  function Ascents(glyphs: map<char, Glyph>, s: string, scale: real): seq<real>
  {
    if s == [] then [] else Ascents(glyphs, s[..|s| - 1], scale) + [Scaled(GlyphOf(glyphs, s[|s| - 1]).bearingY, scale)]
  }

  /** Per character: the scaled height minus the scaled ascent. */
  function Descents(glyphs: map<char, Glyph>, s: string, scale: real): seq<real>
  {
    if s == [] then []
    else
      var g := GlyphOf(glyphs, s[|s| - 1]);
      Descents(glyphs, s[..|s| - 1], scale) + [Scaled(g.sizeY, scale) - Scaled(g.bearingY, scale)]
  }

  /** How the width and the three maxima change from the first i characters to the first i + 1. */
  lemma MetricsStep(glyphs: map<char, Glyph>, text: string, i: nat, scale: real)
    requires i < |text|
    ensures var g := GlyphOf(glyphs, text[i]);
      && Width(glyphs, text[..i + 1], scale) == Width(glyphs, text[..i], scale) + Scaled(AdvancePixels(g), scale)
      && Peak(Heights(glyphs, text[..i + 1], scale)) == Max(Peak(Heights(glyphs, text[..i], scale)), Scaled(g.sizeY, scale))
      && Peak(Ascents(glyphs, text[..i + 1], scale)) == Max(Peak(Ascents(glyphs, text[..i], scale)), Scaled(g.bearingY, scale))
      && Peak(Descents(glyphs, text[..i + 1], scale))
         == Max(Peak(Descents(glyphs, text[..i], scale)), Scaled(g.sizeY, scale) - Scaled(g.bearingY, scale))
  {
    var g := GlyphOf(glyphs, text[i]);
    PrefixSnoc(text, i);
    PeakSnoc(Heights(glyphs, text[..i], scale), Scaled(g.sizeY, scale));
    PeakSnoc(Ascents(glyphs, text[..i], scale), Scaled(g.bearingY, scale));
    PeakSnoc(Descents(glyphs, text[..i], scale), Scaled(g.sizeY, scale) - Scaled(g.bearingY, scale));
  }

  /**
   * Measuring a string after default glyphs were inserted gives the same width
   * and heights as before, since no lookup result changed.
   */
  lemma {:induction false} DefaultsKeepMetrics(glyphs: map<char, Glyph>, cs: set<char>, s: string, scale: real)
    ensures Width(WithDefaults(glyphs, cs), s, scale) == Width(glyphs, s, scale)
    ensures Heights(WithDefaults(glyphs, cs), s, scale) == Heights(glyphs, s, scale)
  {
    if s != [] {
      DefaultsKeepMetrics(glyphs, cs, s[..|s| - 1], scale);
      LookupUnchangedByDefaults(glyphs, cs, s[|s| - 1]);
    }
  }

  /** Inserting defaults for one set of characters and then another is inserting them for both. */
  lemma WithDefaultsTwice(glyphs: map<char, Glyph>, a: set<char>, b: set<char>)
    ensures WithDefaults(WithDefaults(glyphs, a), b) == WithDefaults(glyphs, a + b)
  {
  }

  /** The four results of getStringMetrics. */
  datatype Metrics = Metrics(width: real, maxHeight: real, maxAscent: real, maxDescent: real)

  /**
   * The loop of getStringMetrics (textRenderer.cpp:358-374): the width is the
   * sum of the scaled advances, the three maxima start at 0 and only grow.
   */
  method MeasureString(glyphs: map<char, Glyph>, text: string, scale: real) returns (m: Metrics)
    ensures m.width == Width(glyphs, text, scale) == Scaled(TotalAdvance(glyphs, text), scale)
    ensures m.maxHeight == Peak(Heights(glyphs, text, scale))
    ensures m.maxAscent == Peak(Ascents(glyphs, text, scale))
    ensures m.maxDescent == Peak(Descents(glyphs, text, scale))
    ensures m.maxHeight >= 0.0 && m.maxAscent >= 0.0 && m.maxDescent >= 0.0
  {
    var width, maxHeight, maxAscent, maxDescent := 0.0, 0.0, 0.0, 0.0;
    var i := 0;
    while i < |text|
      invariant 0 <= i <= |text|
      invariant width == Width(glyphs, text[..i], scale)
      invariant maxHeight == Peak(Heights(glyphs, text[..i], scale))
      invariant maxAscent == Peak(Ascents(glyphs, text[..i], scale))
      invariant maxDescent == Peak(Descents(glyphs, text[..i], scale))
    {
      var ch := GlyphOf(glyphs, text[i]);
      width := width + Scaled(AdvancePixels(ch), scale);
      var height := Scaled(ch.sizeY, scale);
      var ascent := Scaled(ch.bearingY, scale);
      var descent := height - ascent;
      maxHeight := Max(maxHeight, height);
      maxAscent := Max(maxAscent, ascent);
      maxDescent := Max(maxDescent, descent);
      MetricsStep(glyphs, text, i, scale);
      i := i + 1;
    }
    assert text[..i] == text;
    m := Metrics(width, maxHeight, maxAscent, maxDescent);
    WidthIsScaledAdvance(glyphs, text, scale);
    PeakIsMaximum(Heights(glyphs, text, scale));
    PeakIsMaximum(Ascents(glyphs, text, scale));
    PeakIsMaximum(Descents(glyphs, text, scale));
  }

  /**
   * The loop of getLetterPositions (textRenderer.cpp:382-397): max(1, |text|)
   * positions, the first at x, each later one the previous plus the advance
   * of the character before it; position k is x plus the width of the first
   * k characters.
   */
  method LetterPositions(glyphs: map<char, Glyph>, text: string, x: real, scale: real) returns (positions: seq<real>)
    ensures |positions| == if |text| == 0 then 1 else |text|
    ensures positions[0] == x
    ensures forall i :: 0 <= i < |positions| - 1 ==> positions[i + 1] == positions[i] + Step(glyphs, text[i], scale)
    ensures forall k :: 0 <= k < |positions| ==> positions[k] == x + Width(glyphs, text[..k], scale)
  {
    positions := [x];
    var currentX := x;
    var i := 0;
    while i < |text|
      invariant 0 <= i <= |text|
      invariant currentX == x + Width(glyphs, text[..i], scale)
      invariant |positions| == if i < |text| then i + 1 else if |text| == 0 then 1 else |text|
      invariant forall k :: 0 <= k < |positions| ==> positions[k] == x + Width(glyphs, text[..k], scale)
    {
      PrefixSnoc(text, i);
      currentX := currentX + Scaled(AdvancePixels(GlyphOf(glyphs, text[i])), scale);
      if i < |text| - 1 {
        positions := positions + [currentX];
      }
      i := i + 1;
    }
    forall i | 0 <= i < |positions| - 1
      ensures positions[i + 1] == positions[i] + Step(glyphs, text[i], scale)
    {
      PrefixSnoc(text, i);
    }
  }

  // ---------------------------------------------------------------------------
  // Layout of one queued run

  /** QueuedText (textRenderer.h:40-46). */
  datatype QueuedText = QueuedText(text: string, x: real, y: real, scale: real, color: Vec4,
                                   centered: bool, zIndex: int)

  /**
   * Where a run's pen starts (textRenderer.cpp:291-304): at (x, y), or for a
   * centred run half the string's width to the left and its tallest glyph's
   * height below.
   */
  function RunOrigin(glyphs: map<char, Glyph>, t: QueuedText): Vec2
  {
    if t.centered then Vec2(t.x - Width(glyphs, t.text, t.scale) / 2.0, t.y - Peak(Heights(glyphs, t.text, t.scale)))
    else Vec2(t.x, t.y)
  }

  /** A centred run's pen starts and ends equally far from x. */
  lemma CenteredRunSpansX(glyphs: map<char, Glyph>, t: QueuedText)
    requires t.centered
    ensures RunOrigin(glyphs, t).x + Width(glyphs, t.text, t.scale) / 2.0 == t.x
    ensures RunOrigin(glyphs, t).y <= t.y
  {
    PeakIsMaximum(Heights(glyphs, t.text, t.scale));
  }

  /** One vertex of the text VBO: four consecutive floats, the position then the atlas coordinate. */
  datatype TextVertex = TextVertex(x: real, y: real, u: real, v: real)

  /** The four vertices (16 floats) one character appends, in upload order. */
  datatype Quad = Quad(bottomLeft: TextVertex, topLeft: TextVertex, bottomRight: TextVertex, topRight: TextVertex)

  /** The quad of one glyph with its pen at (penX, baseY) (textRenderer.cpp:306-320). */
  function GlyphQuad(g: Glyph, penX: real, baseY: real, scale: real): Quad
  {
    var xpos := penX + Scaled(g.bearingX, scale);
    var ypos := baseY - Scaled(g.sizeY - g.bearingY, scale);
    var w := Scaled(g.sizeX, scale);
    var h := Scaled(g.sizeY, scale);
    Quad(TextVertex(xpos, ypos, g.tex0.x, g.tex1.y),
         TextVertex(xpos, ypos + h, g.tex0.x, g.tex0.y),
         TextVertex(xpos + w, ypos, g.tex1.x, g.tex1.y),
         TextVertex(xpos + w, ypos + h, g.tex1.x, g.tex0.y))
  }

  /**
   * A glyph's quad is offset from the pen by the scaled bearing: its top edge
   * lies bearingY above the baseline; it is the scaled bitmap size across;
   * and the atlas V of its top and bottom are exchanged so the bitmap is not
   * drawn upside down.
   */
  lemma GlyphQuadGeometry(g: Glyph, penX: real, baseY: real, scale: real)
    ensures var q := GlyphQuad(g, penX, baseY, scale);
      && q.bottomLeft.x == q.topLeft.x == penX + Scaled(g.bearingX, scale)
      && q.bottomRight.x - q.bottomLeft.x == q.topRight.x - q.topLeft.x == Scaled(g.sizeX, scale)
      && q.topLeft.y - q.bottomLeft.y == q.topRight.y - q.bottomRight.y == Scaled(g.sizeY, scale)
      && q.topLeft.y == baseY + Scaled(g.bearingY, scale)
      && q.bottomLeft.v == q.bottomRight.v == g.tex1.y && q.topLeft.v == q.topRight.v == g.tex0.y
      && q.bottomLeft.u == q.topLeft.u == g.tex0.x && q.bottomRight.u == q.topRight.u == g.tex1.x
  {
    assert Scaled(g.sizeY - g.bearingY, scale) == Scaled(g.sizeY, scale) - Scaled(g.bearingY, scale);
  }

  /**
   * The quads of a string laid out from `origin`: character k's quad has its
   * pen at origin.x plus the width of the k characters before it, on the
   * run's baseline origin.y.
   */
  function RunQuads(glyphs: map<char, Glyph>, s: string, origin: Vec2, scale: real): (r: seq<Quad>)
    ensures |r| == |s|
  {
    seq(|s|, k requires 0 <= k < |s| =>
      GlyphQuad(GlyphOf(glyphs, s[k]), origin.x + Width(glyphs, s[..k], scale), origin.y, scale))
  }

  /** A sequence with the right quad at every index is the run's quads. */
  lemma RunQuadsByIndex(glyphs: map<char, Glyph>, s: string, origin: Vec2, scale: real, quads: seq<Quad>)
    requires |quads| == |s|
    requires forall k {:trigger quads[k]} :: 0 <= k < |s| ==>
               quads[k] == GlyphQuad(GlyphOf(glyphs, s[k]), origin.x + Width(glyphs, s[..k], scale), origin.y, scale)
    ensures quads == RunQuads(glyphs, s, origin, scale)
  {
    var expected := RunQuads(glyphs, s, origin, scale);
    assert forall k {:trigger quads[k]} :: 0 <= k < |quads| ==> quads[k] == expected[k];
  }

  /** The vertices one queued run contributes to its colour's batch. */
  function RunVertices(glyphs: map<char, Glyph>, t: QueuedText): seq<Quad>
  {
    RunQuads(glyphs, t.text, RunOrigin(glyphs, t), t.scale)
  }

  /**
   * The quad loop of flush for one run (textRenderer.cpp:306-326), from a
   * given pen origin: the pen starts at origin.x and moves by each
   * character's advance.
   */
  method LayoutQuads(glyphs: map<char, Glyph>, text: string, origin: Vec2, scale: real) returns (quads: seq<Quad>)
    ensures quads == RunQuads(glyphs, text, origin, scale)
  {
    quads := [];
    var x := origin.x;
    var i := 0;
    while i < |text|
      invariant 0 <= i <= |text| && |quads| == i
      invariant x == origin.x + Width(glyphs, text[..i], scale)
      invariant forall k {:trigger quads[k]} :: 0 <= k < i ==>
                  quads[k] == GlyphQuad(GlyphOf(glyphs, text[k]), origin.x + Width(glyphs, text[..k], scale), origin.y, scale)
    {
      var ch := GlyphOf(glyphs, text[i]);
      PrefixSnoc(text, i);
      quads := quads + [GlyphQuad(ch, x, origin.y, scale)];
      x := x + Scaled(AdvancePixels(ch), scale);
      i := i + 1;
    }
    RunQuadsByIndex(glyphs, text, origin, scale, quads);
  }

  /** The body of flush's loop for one run (textRenderer.cpp:291-326). */
  method LayoutRun(glyphs: map<char, Glyph>, t: QueuedText) returns (quads: seq<Quad>)
    ensures quads == RunVertices(glyphs, t)
  {
    var startX, startY := t.x, t.y;
    if t.centered {
      var m := MeasureString(glyphs, t.text, t.scale);
      startX := t.x - m.width / 2.0;
      startY := t.y - m.maxHeight;
    }
    quads := LayoutQuads(glyphs, t.text, Vec2(startX, startY), t.scale);
  }

  // ---------------------------------------------------------------------------
  // Per-colour batches

  /** The colours of the queued runs. */
  function Colors(q: seq<QueuedText>): set<Vec4>
  {
    if q == [] then {} else Colors(q[..|q| - 1]) + {q[|q| - 1].color}
  }

  /** Every character looked up while laying out the queue. */
  function QueueChars(q: seq<QueuedText>): set<char>
  {
    if q == [] then {} else QueueChars(q[..|q| - 1]) + CharsOf(q[|q| - 1].text)
  }

  lemma {:induction false} ColorsMembership(q: seq<QueuedText>)
    ensures forall c :: c in Colors(q) <==> exists t :: t in q && t.color == c
  {
    if q != [] {
      var init := q[..|q| - 1];
      ColorsMembership(init);
      assert q == init + [q[|q| - 1]];
    }
  }

  lemma {:induction false} QueueCharsMembership(q: seq<QueuedText>)
    ensures forall c :: c in QueueChars(q) <==> exists t :: t in q && c in t.text
  {
    if q != [] {
      var init := q[..|q| - 1];
      QueueCharsMembership(init);
      assert q == init + [q[|q| - 1]];
    }
  }

  /** Reordering the queue changes neither its colours nor the characters it looks up. */
  lemma SameRunsSameSets(q: seq<QueuedText>, p: seq<QueuedText>)
    requires multiset(q) == multiset(p)
    ensures Colors(q) == Colors(p) && QueueChars(q) == QueueChars(p)
  {
    assert forall t :: t in q <==> t in multiset(q);
    assert forall t :: t in p <==> t in multiset(p);
    ColorsMembership(q);
    ColorsMembership(p);
    QueueCharsMembership(q);
    QueueCharsMembership(p);
  }

  /** colorBatches[c]: the vertices of the runs of colour c, in queue order. */
  function ColorVertices(glyphs: map<char, Glyph>, q: seq<QueuedText>, c: Vec4): seq<Quad>
  {
    if q == [] then []
    else
      var t := q[|q| - 1];
      ColorVertices(glyphs, q[..|q| - 1], c) + (if t.color == c then RunVertices(glyphs, t) else [])
  }

  /** charCounts[c]: the characters of all runs of colour c. */
  function ColorChars(q: seq<QueuedText>, c: Vec4): nat
  {
    if q == [] then 0
    else
      var t := q[|q| - 1];
      ColorChars(q[..|q| - 1], c) + (if t.color == c then |t.text| else 0)
  }

  /** A colour's batch holds one quad (16 floats) per character of that colour. */
  lemma {:induction false} ColorVerticesLength(glyphs: map<char, Glyph>, q: seq<QueuedText>, c: Vec4)
    ensures |ColorVertices(glyphs, q, c)| == ColorChars(q, c)
  {
    if q != [] {
      var t := q[|q| - 1];
      ColorVerticesLength(glyphs, q[..|q| - 1], c);
    }
  }

  /** A colour no run uses has no vertices and no characters. */
  lemma {:induction false} AbsentColorIsEmpty(glyphs: map<char, Glyph>, q: seq<QueuedText>, c: Vec4)
    requires c !in Colors(q)
    ensures ColorVertices(glyphs, q, c) == [] && ColorChars(q, c) == 0
  {
    if q != [] {
      AbsentColorIsEmpty(glyphs, q[..|q| - 1], c);
    }
  }

  /** `batches` is colorBatches after the runs of `q`. */
  ghost predicate VerticesBatched(glyphs: map<char, Glyph>, q: seq<QueuedText>, batches: map<Vec4, seq<Quad>>)
  {
    batches.Keys == Colors(q) && forall c :: c in batches ==> batches[c] == ColorVertices(glyphs, q, c)
  }

  /** `counts` is charCounts after the runs of `q`. */
  ghost predicate CharsCounted(q: seq<QueuedText>, counts: map<Vec4, nat>)
  {
    counts.Keys == Colors(q) && forall c :: c in counts ==> counts[c] == ColorChars(q, c)
  }

  ghost predicate BatchedAs(glyphs: map<char, Glyph>, q: seq<QueuedText>,
                            batches: map<Vec4, seq<Quad>>, counts: map<Vec4, nat>)
  {
    VerticesBatched(glyphs, q, batches) && CharsCounted(q, counts)
  }

  /**
   * `colorBatches[c].insert(end, ...)`: operator[] starts an absent colour
   * with an empty batch.
   */
  function AppendTo(batches: map<Vec4, seq<Quad>>, c: Vec4, quads: seq<Quad>): (r: map<Vec4, seq<Quad>>)
    ensures r.Keys == batches.Keys + {c}
    ensures r[c] == (if c in batches then batches[c] else []) + quads
    ensures forall d :: d in batches && d != c ==> r[d] == batches[d]
  {
    batches[c := (if c in batches then batches[c] else []) + quads]
  }

  /** `charCounts[c] += n`: operator[] starts an absent colour at 0. */
  function AddTo(counts: map<Vec4, nat>, c: Vec4, n: nat): (r: map<Vec4, nat>)
    ensures r.Keys == counts.Keys + {c}
    ensures r[c] == (if c in counts then counts[c] else 0) + n
    ensures forall d :: d in counts && d != c ==> r[d] == counts[d]
  {
    counts[c := (if c in counts then counts[c] else 0) + n]
  }

  lemma VerticesStep(glyphs: map<char, Glyph>, q: seq<QueuedText>, i: nat, batches: map<Vec4, seq<Quad>>, quads: seq<Quad>)
    requires i < |q| && VerticesBatched(glyphs, q[..i], batches) && quads == RunVertices(glyphs, q[i])
    ensures VerticesBatched(glyphs, q[..i + 1], AppendTo(batches, q[i].color, quads))
  {
    PrefixSnoc(q, i);
    if q[i].color !in batches {
      AbsentColorIsEmpty(glyphs, q[..i], q[i].color);
    }
  }

  lemma CharsStep(glyphs: map<char, Glyph>, q: seq<QueuedText>, i: nat, counts: map<Vec4, nat>)
    requires i < |q| && CharsCounted(q[..i], counts)
    ensures CharsCounted(q[..i + 1], AddTo(counts, q[i].color, |q[i].text|))
  {
    PrefixSnoc(q, i);
    if q[i].color !in counts {
      AbsentColorIsEmpty(glyphs, q[..i], q[i].color);
    }
  }

  /** Adding the next run's quads and characters to its colour keeps the batches in step with the queue. */
  lemma BatchedAsStep(glyphs: map<char, Glyph>, q: seq<QueuedText>, i: nat,
                      batches: map<Vec4, seq<Quad>>, counts: map<Vec4, nat>, quads: seq<Quad>)
    requires i < |q| && BatchedAs(glyphs, q[..i], batches, counts) && quads == RunVertices(glyphs, q[i])
    ensures BatchedAs(glyphs, q[..i + 1], AppendTo(batches, q[i].color, quads), AddTo(counts, q[i].color, |q[i].text|))
  {
    VerticesStep(glyphs, q, i, batches, quads);
    CharsStep(glyphs, q, i, counts);
  }

  /**
   * The first loop of flush (textRenderer.cpp:287-327): every run's quads go
   * to the end of its colour's batch, and its characters to its colour's count.
   */
  method BatchByColor(glyphs: map<char, Glyph>, q: seq<QueuedText>)
    returns (batches: map<Vec4, seq<Quad>>, counts: map<Vec4, nat>)
    ensures batches.Keys == Colors(q) && counts.Keys == Colors(q)
    ensures forall c :: c in batches ==> batches[c] == ColorVertices(glyphs, q, c)
    ensures forall c :: c in counts ==> counts[c] == ColorChars(q, c)
  {
    batches, counts := map[], map[];
    var i := 0;
    while i < |q|
      invariant 0 <= i <= |q|
      invariant BatchedAs(glyphs, q[..i], batches, counts)
    {
      var t := q[i];
      var quads := LayoutRun(glyphs, t);
      BatchedAsStep(glyphs, q, i, batches, counts, quads);
      batches := AppendTo(batches, t.color, quads);
      counts := AddTo(counts, t.color, |t.text|);
      i := i + 1;
    }
    assert q[..i] == q;
  }

  // ---------------------------------------------------------------------------
  // The draws of one flush

  /**
   * The screen size setupRenderState builds its projection from
   * (textRenderer.cpp:231-233): glm::ortho(0, width, 0, height, -1, 1).
   */
  datatype Screen = Screen(width: int, height: int)

  /** One glDrawElements: the projection in force, the colour uniform, the uploaded vertices and the index count. */
  datatype TextDraw = TextDraw(screen: Screen, color: Vec4, vertices: seq<Quad>, indexCount: int)

  /** The order in which a range-for over colorBatches visits its colours. */
  ghost function SortedColors(cs: set<Vec4>): (r: seq<Vec4>)
    ensures |r| == |cs| && forall c :: c in cs <==> c in r
  {
    ColorLessIsStrictTotal();
    Ascending(ColorLess, cs)
  }

  /** The draws for colours `cs`, in that order: each colour's vertices and six indices per character. */
  function DrawsFor(glyphs: map<char, Glyph>, q: seq<QueuedText>, cs: seq<Vec4>, screen: Screen): seq<TextDraw>
  {
    if cs == [] then []
    else [TextDraw(screen, cs[0], ColorVertices(glyphs, q, cs[0]), ColorChars(q, cs[0]) * 6)] + DrawsFor(glyphs, q, cs[1..], screen)
  }

  lemma DrawsForCons(glyphs: map<char, Glyph>, q: seq<QueuedText>, c: Vec4, cs: seq<Vec4>, screen: Screen)
    ensures DrawsFor(glyphs, q, [c] + cs, screen) == [TextDraw(screen, c, ColorVertices(glyphs, q, c), ColorChars(q, c) * 6)] + DrawsFor(glyphs, q, cs, screen)
  {
    assert ([c] + cs)[1..] == cs;
  }

  /** The draw for the least colour left is the next one, and it uses that colour's batch and count. */
  lemma NextDraw(glyphs: map<char, Glyph>, q: seq<QueuedText>,
                 batches: map<Vec4, seq<Quad>>, counts: map<Vec4, nat>, remaining: set<Vec4>, c: Vec4, screen: Screen)
    requires BatchedAs(glyphs, q, batches, counts)
    requires remaining <= batches.Keys && IsLeast(ColorLess, c, remaining)
    ensures c in batches && c in counts
    ensures DrawsFor(glyphs, q, SortedColors(remaining), screen)
            == [TextDraw(screen, c, batches[c], counts[c] * 6)] + DrawsFor(glyphs, q, SortedColors(remaining - {c}), screen)
  {
    SortedColorsStep(c, remaining);
    DrawsForCons(glyphs, q, c, SortedColors(remaining - {c}), screen);
  }

  /** What flush draws for a queue already in processing order. */
  ghost function TextPass(glyphs: map<char, Glyph>, q: seq<QueuedText>, screen: Screen): seq<TextDraw>
  {
    DrawsFor(glyphs, q, SortedColors(Colors(q)), screen)
  }

  lemma {:induction false} DrawsForShape(glyphs: map<char, Glyph>, q: seq<QueuedText>, cs: seq<Vec4>, screen: Screen)
    ensures |DrawsFor(glyphs, q, cs, screen)| == |cs|
    ensures forall i :: 0 <= i < |cs| ==>
              DrawsFor(glyphs, q, cs, screen)[i] == TextDraw(screen, cs[i], ColorVertices(glyphs, q, cs[i]), ColorChars(q, cs[i]) * 6)
  {
    if cs != [] {
      DrawsForShape(glyphs, q, cs[1..], screen);
    }
  }

  /** flush issues exactly one draw per distinct colour of the queue. */
  lemma TextPassOnePerColor(glyphs: map<char, Glyph>, q: seq<QueuedText>, screen: Screen)
    ensures |TextPass(glyphs, q, screen)| == |Colors(q)|
    ensures forall c :: c in Colors(q) <==> exists i :: 0 <= i < |TextPass(glyphs, q, screen)| && TextPass(glyphs, q, screen)[i].color == c
  {
    var cs := SortedColors(Colors(q));
    var draws := TextPass(glyphs, q, screen);
    DrawsForShape(glyphs, q, cs, screen);
    forall i | 0 <= i < |draws|
      ensures draws[i].color in Colors(q)
    {
      assert draws[i].color == cs[i];
    }
    forall c | c in Colors(q)
      ensures exists i :: 0 <= i < |draws| && draws[i].color == c
    {
      var i :| 0 <= i < |cs| && cs[i] == c;
      assert draws[i].color == c;
    }
  }

  /**
   * The draw of colour c uses the flush's projection, uploads that colour's
   * quads, one per character, and draws 6 indices per character.
   */
  lemma TextPassDrawContents(glyphs: map<char, Glyph>, q: seq<QueuedText>, screen: Screen)
    ensures forall i :: 0 <= i < |TextPass(glyphs, q, screen)| ==>
              var d := TextPass(glyphs, q, screen)[i];
              && d.screen == screen
              && d.vertices == ColorVertices(glyphs, q, d.color)
              && d.indexCount == 6 * ColorChars(q, d.color)
              && |d.vertices| == ColorChars(q, d.color)
  {
    var cs := SortedColors(Colors(q));
    DrawsForShape(glyphs, q, cs, screen);
    forall i | 0 <= i < |cs|
      ensures |ColorVertices(glyphs, q, cs[i])| == ColorChars(q, cs[i])
    {
      ColorVerticesLength(glyphs, q, cs[i]);
    }
  }

  /** The draws come in strictly ascending Vec4Comparator order of their colours. */
  lemma TextPassAscending(glyphs: map<char, Glyph>, q: seq<QueuedText>, screen: Screen)
    ensures forall i, j :: 0 <= i < j < |TextPass(glyphs, q, screen)| ==>
              ColorLess(TextPass(glyphs, q, screen)[i].color, TextPass(glyphs, q, screen)[j].color)
  {
    var cs := SortedColors(Colors(q));
    DrawsForShape(glyphs, q, cs, screen);
    ColorLessIsStrictTotal();
    AscendingSorted(ColorLess, Colors(q));
  }

  /** The least remaining colour is the next one the range-for visits. */
  lemma SortedColorsStep(c: Vec4, cs: set<Vec4>)
    requires IsLeast(ColorLess, c, cs)
    ensures SortedColors(cs) == [c] + SortedColors(cs - {c})
  {
    ColorLessIsStrictTotal();
    AscendingStep(ColorLess, c, cs);
  }

  lemma LeastColorExists(cs: set<Vec4>)
    requires cs != {}
    ensures exists c :: IsLeast(ColorLess, c, cs)
  {
    ColorLessIsStrictTotal();
    LeastExists(ColorLess, cs);
  }

  // ---------------------------------------------------------------------------
  // The z-order sort

  /** Non-decreasing z-index: the order std::sort establishes. */
  predicate ZSorted(q: seq<QueuedText>)
  {
    forall i, j :: 0 <= i < j < |q| ==> q[i].zIndex <= q[j].zIndex
  }

  /**
   * `s` is one order std::sort may leave `q` in: a permutation sorted by
   * z-index. Runs with equal z-index may end up in any relative order.
   */
  ghost predicate IsZOrder(s: seq<QueuedText>, q: seq<QueuedText>)
  {
    ZSorted(s) && multiset(s) == multiset(q)
  }

  /** Insertion of one run after every run with a z-index not above its own. */
  function InsertByZ(s: seq<QueuedText>, t: QueuedText): seq<QueuedText>
  {
    if s == [] then [t]
    else if t.zIndex < s[0].zIndex then [t] + s
    else [s[0]] + InsertByZ(s[1..], t)
  }

  lemma ZSortedTail(s: seq<QueuedText>)
    requires ZSorted(s) && s != []
    ensures ZSorted(s[1..])
    ensures forall x :: x in s[1..] ==> s[0].zIndex <= x.zIndex
  {
    forall i, j | 0 <= i < j < |s| - 1
      ensures s[1..][i].zIndex <= s[1..][j].zIndex
    {
      assert s[1..][i] == s[i + 1] && s[1..][j] == s[j + 1];
    }
  }

  /** Inserting into a z-sorted sequence keeps it z-sorted and adds exactly the one run. */
  lemma {:induction false} InsertByZSorted(s: seq<QueuedText>, t: QueuedText)
    requires ZSorted(s)
    ensures ZSorted(InsertByZ(s, t)) && multiset(InsertByZ(s, t)) == multiset(s) + multiset{t}
  {
    if s == [] {
      assert InsertByZ(s, t) == [t];
    } else if t.zIndex < s[0].zIndex {
      ZSortedTail(s);
      assert s == [s[0]] + s[1..];
      ConsKeepsZSorted(t, s);
    } else {
      var rest := InsertByZ(s[1..], t);
      ZSortedTail(s);
      InsertByZSorted(s[1..], t);
      assert s == [s[0]] + s[1..];
      InsertKeepsLowerBound(s[1..], t, rest, s[0].zIndex);
      ConsKeepsZSorted(s[0], rest);
      assert multiset(s) == multiset{s[0]} + multiset(s[1..]);
    }
  }

  lemma InsertKeepsLowerBound(s: seq<QueuedText>, t: QueuedText, r: seq<QueuedText>, lo: int)
    requires multiset(r) == multiset(s) + multiset{t}
    requires forall x :: x in s ==> lo <= x.zIndex
    requires lo <= t.zIndex
    ensures forall x :: x in r ==> lo <= x.zIndex
  {
    forall x | x in r
      ensures lo <= x.zIndex
    {
      assert x in multiset(r);
      if x != t {
        assert x in multiset(s);
      }
    }
  }

  lemma ConsKeepsZSorted(x: QueuedText, r: seq<QueuedText>)
    requires ZSorted(r) && forall y :: y in r ==> x.zIndex <= y.zIndex
    ensures ZSorted([x] + r)
  {
    var xs := [x] + r;
    forall i, j | 0 <= i < j < |xs|
      ensures xs[i].zIndex <= xs[j].zIndex
    {
      assert xs[j] == r[j - 1];
      if i > 0 {
        assert xs[i] == r[i - 1];
      }
    }
  }

  /** The sort of flush (textRenderer.cpp:268-271), by insertion. */
  method SortByZIndex(q: seq<QueuedText>) returns (s: seq<QueuedText>)
    ensures IsZOrder(s, q)
  {
    s := [];
    var i := 0;
    while i < |q|
      invariant 0 <= i <= |q|
      invariant ZSorted(s) && multiset(s) == multiset(q[..i])
    {
      PrefixSnoc(q, i);
      InsertByZSorted(s, q[i]);
      s := InsertByZ(s, q[i]);
      i := i + 1;
    }
    assert q[..i] == q;
  }

  lemma {:induction false} ColorCharsAppend(a: seq<QueuedText>, b: seq<QueuedText>, c: Vec4)
    ensures ColorChars(a + b, c) == ColorChars(a, c) + ColorChars(b, c)
  {
    if b != [] {
      var init := b[..|b| - 1];
      ColorCharsAppend(a, init, c);
      assert (a + b)[..|a + b| - 1] == a + init;
    } else {
      assert a + b == a;
    }
  }

  lemma ColorCharsRemove(p: seq<QueuedText>, k: nat, c: Vec4)
    requires k < |p|
    ensures ColorChars(p, c) == ColorChars(p[..k] + p[k + 1..], c) + (if p[k].color == c then |p[k].text| else 0)
  {
    assert p == p[..k] + [p[k]] + p[k + 1..];
    ColorCharsAppend(p[..k] + [p[k]], p[k + 1..], c);
    ColorCharsAppend(p[..k], [p[k]], c);
    ColorCharsAppend(p[..k], p[k + 1..], c);
    assert ColorChars([p[k]], c) == ColorChars([p[k]][..0], c) + (if p[k].color == c then |p[k].text| else 0);
  }

  lemma MultisetRemove(q: seq<QueuedText>, p: seq<QueuedText>, k: nat)
    requires multiset(q) == multiset(p) && q != [] && k < |p| && p[k] == q[|q| - 1]
    ensures multiset(q[..|q| - 1]) == multiset(p[..k] + p[k + 1..])
  {
    var t := p[k];
    assert q == q[..|q| - 1] + [t];
    assert p == p[..k] + [t] + p[k + 1..];
    assert multiset(q[..|q| - 1]) == multiset(q) - multiset{t};
    assert multiset(p[..k] + p[k + 1..]) == multiset(p[..k]) + multiset(p[k + 1..]) == multiset(p) - multiset{t};
  }

  /** The characters of a colour depend only on which runs are queued, not on their order. */
  lemma {:induction false} ColorCharsPermutation(q: seq<QueuedText>, p: seq<QueuedText>, c: Vec4)
    requires multiset(q) == multiset(p)
    ensures ColorChars(q, c) == ColorChars(p, c)
    decreases |q|
  {
    if q == [] {
      assert |p| == |multiset(p)| == 0;
    } else {
      var t := q[|q| - 1];
      assert t in multiset(p);
      var k :| 0 <= k < |p| && p[k] == t;
      MultisetRemove(q, p, k);
      ColorCharsPermutation(q[..|q| - 1], p[..k] + p[k + 1..], c);
      ColorCharsRemove(p, k, c);
    }
  }

  /**
   * std::sort's freedom with ties moves vertices within a colour's batch but
   * changes neither which draws flush issues, nor their order, nor their
   * index counts.
   */
  lemma TieOrderKeepsDraws(glyphs: map<char, Glyph>, q: seq<QueuedText>, s1: seq<QueuedText>, s2: seq<QueuedText>, screen: Screen)
    requires IsZOrder(s1, q) && IsZOrder(s2, q)
    ensures |TextPass(glyphs, s1, screen)| == |TextPass(glyphs, s2, screen)|
    ensures forall i :: 0 <= i < |TextPass(glyphs, s1, screen)| ==>
              && TextPass(glyphs, s1, screen)[i].color == TextPass(glyphs, s2, screen)[i].color
              && TextPass(glyphs, s1, screen)[i].indexCount == TextPass(glyphs, s2, screen)[i].indexCount
  {
    SameRunsSameSets(s1, s2);
    var cs := SortedColors(Colors(s1));
    DrawsForShape(glyphs, s1, cs, screen);
    DrawsForShape(glyphs, s2, cs, screen);
    forall i | 0 <= i < |cs|
      ensures ColorChars(s1, cs[i]) == ColorChars(s2, cs[i])
    {
      ColorCharsPermutation(s1, s2, cs[i]);
    }
  }

  predicate DistinctZ(q: seq<QueuedText>)
  {
    forall i, j :: 0 <= i < j < |q| ==> q[i].zIndex != q[j].zIndex
  }

  lemma DistinctZTail(s: seq<QueuedText>)
    requires DistinctZ(s) && s != []
    ensures DistinctZ(s[1..])
  {
    forall i, j | 0 <= i < j < |s| - 1
      ensures s[1..][i].zIndex != s[1..][j].zIndex
    {
      assert s[1..][i] == s[i + 1] && s[1..][j] == s[j + 1];
    }
  }

  lemma SortedHeadIsLowest(s: seq<QueuedText>, x: QueuedText)
    requires ZSorted(s) && x in multiset(s)
    ensures s[0].zIndex <= x.zIndex
  {
    var j :| 0 <= j < |s| && s[j] == x;
  }

  lemma DistinctZHeads(s1: seq<QueuedText>, s2: seq<QueuedText>)
    requires ZSorted(s1) && ZSorted(s2) && multiset(s1) == multiset(s2) && DistinctZ(s1) && s1 != []
    ensures s2 != [] && s1[0] == s2[0]
  {
    assert s1[0] in multiset(s2);
    assert s2[0] in multiset(s1);
    SortedHeadIsLowest(s1, s2[0]);
    SortedHeadIsLowest(s2, s1[0]);
    var j :| 0 <= j < |s1| && s1[j] == s2[0];
    assert s1[j].zIndex == s1[0].zIndex;
    assert j == 0;
  }

  lemma MultisetTail(s: seq<QueuedText>)
    requires s != []
    ensures multiset(s[1..]) == multiset(s) - multiset{s[0]}
  {
    assert s == [s[0]] + s[1..];
  }

  /** With pairwise distinct z-indices there is only one z-sorted order. */
  lemma {:induction false} DistinctZOrderIsUnique(s1: seq<QueuedText>, s2: seq<QueuedText>)
    requires ZSorted(s1) && ZSorted(s2) && multiset(s1) == multiset(s2) && DistinctZ(s1)
    ensures s1 == s2
    decreases |s1|
  {
    if s1 == [] {
      assert |s2| == |multiset(s2)| == 0;
    } else {
      DistinctZHeads(s1, s2);
      ZSortedTail(s1);
      ZSortedTail(s2);
      DistinctZTail(s1);
      MultisetTail(s1);
      MultisetTail(s2);
      DistinctZOrderIsUnique(s1[1..], s2[1..]);
      assert s1 == [s1[0]] + s1[1..] && s2 == [s2[0]] + s2[1..];
    }
  }

  /** Three runs queued with z-indices 5, 1, 3 are drawn in the order 1, 3, 5. */
  lemma ExplicitZIndicesOrder(a: QueuedText, b: QueuedText, c: QueuedText, s: seq<QueuedText>)
    requires a.zIndex == 5 && b.zIndex == 1 && c.zIndex == 3
    requires IsZOrder(s, [a, b, c])
    ensures s == [b, c, a]
  {
    var sorted := [b, c, a];
    assert multiset(sorted) == multiset([a, b, c]);
    assert forall i :: 0 <= i < 3 ==> sorted[i].zIndex == 2 * i + 1;
    DistinctZOrderIsUnique(sorted, s);
  }

  // ---------------------------------------------------------------------------
  // The index buffer built by initialize

  /** MAX_CHARS (textRenderer.cpp:179). */
  const MaxChars: nat := 4096

  /** The message getStringMetrics and getLetterPositions throw before initialisation. */
  const NotInitialized: string := "TextRenderer not initialized!"

  /** Quad i's two triangles (i*4 + 0, 1, 2) and (i*4 + 1, 3, 2). */
  predicate IsIndexPattern(indices: seq<int>, n: nat)
  {
    && |indices| == 6 * n
    && forall k :: 0 <= k < |indices| ==> indices[k] == 4 * (k / 6) + [0, 1, 2, 1, 3, 2][k % 6]
  }

  /**
   * The index loop of initialize (textRenderer.cpp:182-190): six indices per
   * quad; so drawing 6c indices touches exactly the first 4c vertices, the c
   * quads a batch of c characters uploads.
   */
  method BuildIndices(n: nat) returns (indices: seq<int>)
    ensures IsIndexPattern(indices, n)
    ensures forall k :: 0 <= k < |indices| ==> 4 * (k / 6) <= indices[k] < 4 * (k / 6) + 4
  {
    indices := [];
    var i := 0;
    while i < n
      invariant 0 <= i <= n
      invariant IsIndexPattern(indices, i)
    {
      var baseVertex := i * 4;
      indices := indices + [baseVertex + 0, baseVertex + 1, baseVertex + 2, baseVertex + 1, baseVertex + 3, baseVertex + 2];
      forall k | 6 * i <= k < 6 * i + 6
        ensures k / 6 == i && k % 6 == k - 6 * i
      {
      }
      i := i + 1;
    }
  }

  // ---------------------------------------------------------------------------
  // The renderer object

  class TextRenderer {
    var initialized: bool
    var screenWidth: int
    var screenHeight: int
    /** characters (textRenderer.h:60). */
    var characters: map<char, Glyph>
    /** textQueue (textRenderer.h:61), in call order until a flush sorts it. */
    var textQueue: seq<QueuedText>
    /** indices (textRenderer.h:62): the element buffer contents. */
    var indices: seq<int>
    /** currentZIndex (textRenderer.h:65). */
    var currentZIndex: int
    /** The draws issued so far, standing in for the GL calls. */
    ghost var draws: seq<TextDraw>

    /** The constructor's initialisers (textRenderer.cpp:8-9). */
    constructor ()
      ensures !initialized && currentZIndex == 0
      ensures screenWidth == 800 && screenHeight == 600
      ensures characters == map[] && textQueue == [] && indices == [] && draws == []
    {
      initialized := false;
      screenWidth := 800;
      screenHeight := 600;
      characters := map[];
      textQueue := [];
      indices := [];
      currentZIndex := 0;
      draws := [];
    }

    /**
     * initialize (textRenderer.cpp:137-221). `font` is the glyph table the
     * font loader produced, None when FreeType or the font file failed (the
     * method then returns false). The table is merged with std::map::insert,
     * which keeps entries already present. A shader that fails to compile or a
     * program that fails to link throws, leaving the renderer uninitialised.
     */
    method Initialize(width: int, height: int, font: Option<map<char, Glyph>>,
                      vertexCompiled: bool, fragmentCompiled: bool, linked: bool) returns (r: Result<bool>)
      modifies this`screenWidth, this`screenHeight, this`currentZIndex, this`characters, this`indices, this`initialized
      ensures screenWidth == width && screenHeight == height && currentZIndex == 0
      ensures font.None? ==> r == Success(false) && unchanged(this`characters, this`indices, this`initialized)
      ensures font.Some? ==>
                && characters == font.value + old(characters)
                && IsIndexPattern(indices, MaxChars)
                && (r.Success? <==> vertexCompiled && fragmentCompiled && linked)
                && (r.Success? ==> r.value && initialized)
                && (r.Failure? ==> initialized == old(initialized))
    {
      screenWidth := width;
      screenHeight := height;
      currentZIndex := 0;
      if font.None? {
        return Success(false);
      }
      characters := font.value + characters;
      indices := BuildIndices(MaxChars);
      if !vertexCompiled || !fragmentCompiled {
        return Failure("Shader compilation failed");
      }
      if !linked {
        return Failure("Shader program linking failed");
      }
      initialized := true;
      r := Success(true);
    }

    /** setScreenSize (textRenderer.cpp:223-226). */
    method SetScreenSize(width: int, height: int)
      modifies this`screenWidth, this`screenHeight
      ensures screenWidth == width && screenHeight == height
    {
      screenWidth := width;
      screenHeight := height;
    }

    /** draw without a z-index (textRenderer.cpp:249-251), colour defaulting to white (textRenderer.h:19): takes the counter's value, then bumps it. */
    method Draw(text: string, x: real, y: real, scale: real, color: Vec4 := White)
      modifies this`textQueue, this`currentZIndex
      ensures textQueue == old(textQueue) + [QueuedText(text, x, y, scale, color, false, old(currentZIndex))]
      ensures currentZIndex == old(currentZIndex) + 1
    {
      textQueue := textQueue + [QueuedText(text, x, y, scale, color, false, currentZIndex)];
      currentZIndex := currentZIndex + 1;
    }

    /** draw with a z-index (textRenderer.cpp:253-255): the counter is left alone. */
    method DrawAt(text: string, x: real, y: real, scale: real, color: Vec4, zIndex: int)
      modifies this`textQueue
      ensures textQueue == old(textQueue) + [QueuedText(text, x, y, scale, color, false, zIndex)]
    {
      textQueue := textQueue + [QueuedText(text, x, y, scale, color, false, zIndex)];
    }

    /** drawCentered without a z-index (textRenderer.cpp:257-259), colour defaulting to white (textRenderer.h:21). */
    method DrawCentered(text: string, x: real, y: real, scale: real, color: Vec4 := White)
      modifies this`textQueue, this`currentZIndex
      ensures textQueue == old(textQueue) + [QueuedText(text, x, y, scale, color, true, old(currentZIndex))]
      ensures currentZIndex == old(currentZIndex) + 1
    {
      textQueue := textQueue + [QueuedText(text, x, y, scale, color, true, currentZIndex)];
      currentZIndex := currentZIndex + 1;
    }

    /** drawCentered with a z-index (textRenderer.cpp:261-263). */
    method DrawCenteredAt(text: string, x: real, y: real, scale: real, color: Vec4, zIndex: int)
      modifies this`textQueue
      ensures textQueue == old(textQueue) + [QueuedText(text, x, y, scale, color, true, zIndex)]
    {
      textQueue := textQueue + [QueuedText(text, x, y, scale, color, true, zIndex)];
    }

    /** clear (textRenderer.cpp:345-349). */
    method Clear()
      modifies this`textQueue, this`currentZIndex
      ensures textQueue == [] && currentZIndex == 0
    {
      textQueue := [];
      currentZIndex := 0;
    }

    /**
     * The second loop of flush (textRenderer.cpp:329-339): one draw per
     * colour, visiting the colours in ascending order as the range-for over
     * the std::map does.
     */
    method DrawBatches(glyphs: map<char, Glyph>, q: seq<QueuedText>,
                       batches: map<Vec4, seq<Quad>>, counts: map<Vec4, nat>)
      requires BatchedAs(glyphs, q, batches, counts)
      modifies this`draws
      ensures draws == old(draws) + TextPass(glyphs, q, Screen(screenWidth, screenHeight))
    {
      var remaining := batches.Keys;
      ghost var pending := TextPass(glyphs, q, Screen(screenWidth, screenHeight));
      while remaining != {}
        invariant remaining <= batches.Keys
        invariant pending == DrawsFor(glyphs, q, SortedColors(remaining), Screen(screenWidth, screenHeight))
        invariant old(draws) + TextPass(glyphs, q, Screen(screenWidth, screenHeight)) == draws + pending
        decreases remaining
      {
        LeastColorExists(remaining);
        var c :| IsLeast(ColorLess, c, remaining);
        NextDraw(glyphs, q, batches, counts, remaining, c, Screen(screenWidth, screenHeight));
        var d := TextDraw(Screen(screenWidth, screenHeight), c, batches[c], counts[c] * 6);
        ghost var rest := DrawsFor(glyphs, q, SortedColors(remaining - {c}), Screen(screenWidth, screenHeight));
        AppendShift(draws, d, rest);
        draws := draws + [d];
        pending := rest;
        remaining := remaining - {c};
      }
    }

    /**
     * flush (textRenderer.cpp:265-343). Uninitialised or with an empty queue
     * it returns without touching anything. Otherwise the queue is put in some
     * z-sorted order `order`, the draws are those of that order, one per
     * colour, every looked-up character is in the table afterwards, and the
     * queue and the counter are reset.
     */
    method Flush() returns (ghost order: seq<QueuedText>)
      modifies this`textQueue, this`currentZIndex, this`characters, this`draws
      ensures !old(initialized) || old(textQueue) == [] ==>
                unchanged(this`textQueue, this`currentZIndex, this`characters, this`draws)
      ensures old(initialized) && old(textQueue) != [] ==> textQueue == [] && currentZIndex == 0
      ensures old(initialized) && old(textQueue) != [] ==>
                characters == WithDefaults(old(characters), QueueChars(old(textQueue)))
      ensures old(initialized) && old(textQueue) != [] ==>
                IsZOrder(order, old(textQueue)) && draws == old(draws) + TextPass(old(characters), order, Screen(screenWidth, screenHeight))
    {
      order := [];
      if !initialized || textQueue == [] {
        return;
      }
      var glyphs := characters;
      var queue := textQueue;
      var sorted := SortByZIndex(textQueue);
      textQueue := sorted;
      characters := WithDefaults(glyphs, QueueChars(queue));
      Clear();
      DrawQueue(glyphs, sorted);
      order := sorted;
    }

    /** Both loops of flush over the sorted queue (textRenderer.cpp:287-339): batch by colour, then one draw per colour. */
    method DrawQueue(glyphs: map<char, Glyph>, sorted: seq<QueuedText>)
      modifies this`draws
      ensures draws == old(draws) + TextPass(glyphs, sorted, Screen(screenWidth, screenHeight))
    {
      var batches, counts := BatchByColor(glyphs, sorted);
      DrawBatches(glyphs, sorted, batches, counts);
    }

    /** getStringMetrics (textRenderer.cpp:351-375): throws when uninitialised. */
    method GetStringMetrics(text: string, scale: real) returns (r: Result<Metrics>)
      modifies this`characters
      ensures !initialized ==> r == Failure(NotInitialized) && characters == old(characters)
      ensures initialized ==>
                && r.Success?
                && r.value.width == Width(old(characters), text, scale)
                && r.value.maxHeight == Peak(Heights(old(characters), text, scale))
                && r.value.maxAscent == Peak(Ascents(old(characters), text, scale))
                && r.value.maxDescent == Peak(Descents(old(characters), text, scale))
                && characters == WithDefaults(old(characters), CharsOf(text))
    {
      if !initialized {
        return Failure(NotInitialized);
      }
      var m := MeasureString(characters, text, scale);
      characters := WithDefaults(characters, CharsOf(text));
      r := Success(m);
    }

    /** getLetterPositions (textRenderer.cpp:377-398): throws when uninitialised. */
    method GetLetterPositions(text: string, x: real, scale: real) returns (r: Result<seq<real>>)
      modifies this`characters
      ensures !initialized ==> r == Failure(NotInitialized) && characters == old(characters)
      ensures initialized ==>
                && r.Success?
                && |r.value| == (if |text| == 0 then 1 else |text|)
                && (forall k :: 0 <= k < |r.value| ==> r.value[k] == x + Width(old(characters), text[..k], scale))
                && characters == WithDefaults(old(characters), CharsOf(text))
    {
      if !initialized {
        return Failure(NotInitialized);
      }
      var positions := LetterPositions(characters, text, x, scale);
      characters := WithDefaults(characters, CharsOf(text));
      r := Success(positions);
    }
  }
}

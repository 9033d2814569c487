/**
 * The button widget layer (button/button.h and .cpp).
 *
 * The manager owns an ordered collection of buttons; that order is the
 * hit-test priority. A press selects the first button under the finger, a
 * release fires that button's callback when the finger is still inside it.
 * Drawing queues each button's background shapes on the shape renderer,
 * flushes them, then queues each button's label on the text renderer and its
 * image on the shape renderer, and flushes both.
 *
 * Button pointers are modelled as opaque ids into a map that stands for the
 * heap; a callback is modelled by whether one is set, and firing it by an
 * entry in a ghost log.
 */
module Button {
  import opened Vectors
  import opened Wrappers
  import opened Seqs
  import opened Renderer2D
  import opened TextRenderer

  // ---------------------------------------------------------------------------
  // The button record

  /** Button (button.h:11-26); `hasCallback` says whether the std::function is set. */
  datatype Button = Button(x: real, y: real, width: real, height: real,
                           text: string, textScale: real,
                           color: Vec4, textColor: Vec4, borderColor: Vec4,
                           borderWidth: real, borderRadius: real,
                           textureId: nat, imageWidth: real, imageHeight: real, imageGap: real,
                           drawImage: string, hasCallback: bool)

  /** The default member initialisers of button.h:12-25 (0.3f is taken as 0.3). */
  const DefaultButton: Button :=
    Button(0.0, 0.0, 100.0, 40.0, "", 1.0,
           Vec4(0.3, 0.3, 0.3, 1.0), White, White,
           0.0, 0.0, 0, 0.0, 0.0, 10.0, "", false)

  /** isInsideButton (button.cpp:20-25): the closed rectangle, edges included. */
  predicate Inside(b: Button, px: real, py: real)
  {
    b.x <= px <= b.x + b.width && b.y <= py <= b.y + b.height
  }

  /** Both corners of a button of non-negative size are inside it; a point beyond any edge is not. */
  lemma InsideEdges(b: Button, px: real, py: real)
    ensures b.width >= 0.0 && b.height >= 0.0 ==>
              Inside(b, b.x, b.y) && Inside(b, b.x + b.width, b.y + b.height)
    ensures px < b.x || px > b.x + b.width || py < b.y || py > b.y + b.height ==> !Inside(b, px, py)
    ensures b.x <= px <= b.x + b.width && b.y <= py <= b.y + b.height ==> Inside(b, px, py)
  {
  }

  // ---------------------------------------------------------------------------
  // The collection

  /** A button pointer: the identity `new Button(config)` produced. */
  type ButtonId = nat

  /** Every id of the collection points to a live button. */
  predicate Stored(ids: seq<ButtonId>, store: map<ButtonId, Button>)
  {
    forall i :: 0 <= i < |ids| ==> ids[i] in store
  }

  /**
   * The index of the first button in collection order that contains the
   * point, None when no button does.
   */
  function FirstHit(ids: seq<ButtonId>, store: map<ButtonId, Button>, px: real, py: real): (r: Option<nat>)
    requires Stored(ids, store)
    ensures r.None? <==> forall i :: 0 <= i < |ids| ==> !Inside(store[ids[i]], px, py)
    ensures r.Some? ==> r.value < |ids| && Inside(store[ids[r.value]], px, py)
    ensures r.Some? ==> forall i :: 0 <= i < r.value ==> !Inside(store[ids[i]], px, py)
    decreases |ids|
  {
    if ids == [] then None
    else if Inside(store[ids[0]], px, py) then Some(0)
    else
      var rest := FirstHit(ids[1..], store, px, py);
      assert forall i :: 1 <= i < |ids| ==> ids[i] == ids[1..][i - 1];
      if rest.None? then None else Some(rest.value + 1)
  }

  /** The button at a hit index, None for no hit. */
  function ButtonAt(ids: seq<ButtonId>, hit: Option<nat>): Option<ButtonId>
    requires hit.Some? ==> hit.value < |ids|
  {
    if hit.Some? then Some(ids[hit.value]) else None
  }

  /** The first hit is the only index that is a hit with no hit before it. */
  lemma FirstHitIsUnique(ids: seq<ButtonId>, store: map<ButtonId, Button>, px: real, py: real, k: nat)
    requires Stored(ids, store)
    requires k < |ids| && Inside(store[ids[k]], px, py)
    requires forall i :: 0 <= i < k ==> !Inside(store[ids[i]], px, py)
    ensures FirstHit(ids, store, px, py) == Some(k)
  {
  }

  /** `buttons.erase` of the first entry equal to x, nothing when there is none. */
  function RemoveFirst(s: seq<ButtonId>, x: ButtonId): (r: seq<ButtonId>)
    ensures x !in s ==> r == s
    ensures x in s ==> |r| == |s| - 1
  {
    if s == [] then []
    else if s[0] == x then s[1..]
    else [s[0]] + RemoveFirst(s[1..], x)
  }

  /** Exactly one occurrence of x goes, every other entry stays. */
  lemma {:induction false} RemoveFirstMultiset(s: seq<ButtonId>, x: ButtonId)
    ensures multiset(RemoveFirst(s, x)) == multiset(s) - multiset{x}
  {
    if s != [] {
      assert s == [s[0]] + s[1..];
      if s[0] != x {
        RemoveFirstMultiset(s[1..], x);
      }
    }
  }

  /** Removing the first occurrence at index k keeps the entries before and after it, in order. */
  lemma {:induction false} RemoveFirstAt(s: seq<ButtonId>, x: ButtonId, k: nat)
    requires k < |s| && s[k] == x && x !in s[..k]
    ensures RemoveFirst(s, x) == s[..k] + s[k + 1..]
  {
    if k > 0 {
      var t := s[1..];
      assert t[..k - 1] == s[..k][1..];
      assert s[0] == s[..k][0];
      RemoveFirstAt(t, x, k - 1);
      assert t[k..] == s[k + 1..];
      assert [s[0]] + t[..k - 1] == s[..k];
    }
  }

  // ---------------------------------------------------------------------------
  // The background pass of drawButtons (button.cpp:81-119)

  /**
   * The shapes queued for one button: a filled shape, then an outline when
   * the border width is positive; the rounded variants when the radius is
   * positive.
   */
  function BackgroundRects(b: Button): (r: seq<RectData>)
    ensures |r| == 1 || |r| == 2
    ensures |r| == 2 <==> b.borderWidth > 0.0
    ensures r[0].filled && r[0].borderWidth == 0.0 && r[0].color == b.color
    ensures |r| == 2 ==> !r[1].filled && r[1].borderWidth == b.borderWidth && r[1].color == b.borderColor
    ensures forall k :: 0 <= k < |r| ==>
              && r[k].pos == Vec2(b.x, b.y) && r[k].width == b.width && r[k].height == b.height
              && (r[k].radius != 0.0 <==> b.borderRadius > 0.0)
              && (b.borderRadius > 0.0 ==> r[k].radius == b.borderRadius)
  {
    var pos := Vec2(b.x, b.y);
    var radius := if b.borderRadius > 0.0 then b.borderRadius else 0.0;
    var fill := RectData(pos, b.width, b.height, 0.0, radius, b.color, true);
    if b.borderWidth > 0.0 then [fill, RectData(pos, b.width, b.height, b.borderWidth, radius, b.borderColor, false)]
    else [fill]
  }

  /** A default button draws as one plain filled rectangle of its own size and colour. */
  lemma DefaultButtonIsOnePlainRect()
    ensures BackgroundRects(DefaultButton)
            == [RectData(Vec2(0.0, 0.0), 100.0, 40.0, 0.0, 0.0, Vec4(0.3, 0.3, 0.3, 1.0), true)]
  {
    var r := BackgroundRects(DefaultButton);
    assert |r| == 1;
  }

  /** The background shapes of a run of buttons, in collection order. */
  function Backgrounds(ids: seq<ButtonId>, store: map<ButtonId, Button>): seq<RectData>
    requires Stored(ids, store)
  {
    if ids == [] then []
    else Backgrounds(ids[..|ids| - 1], store) + BackgroundRects(store[ids[|ids| - 1]])
  }

  /** How many buttons of a run have a positive border width. */
  function Bordered(ids: seq<ButtonId>, store: map<ButtonId, Button>): nat
    requires Stored(ids, store)
  {
    if ids == [] then 0
    else Bordered(ids[..|ids| - 1], store) + (if store[ids[|ids| - 1]].borderWidth > 0.0 then 1 else 0)
  }

  /** The background pass queues one shape per button plus one per bordered button. */
  lemma {:induction false} BackgroundsCount(ids: seq<ButtonId>, store: map<ButtonId, Button>)
    requires Stored(ids, store)
    ensures |Backgrounds(ids, store)| == |ids| + Bordered(ids, store)
  {
    if ids != [] {
      BackgroundsCount(ids[..|ids| - 1], store);
    }
  }

  /** The background shapes of the first i + 1 buttons. */
  lemma BackgroundsStep(ids: seq<ButtonId>, store: map<ButtonId, Button>, i: nat)
    requires Stored(ids, store) && i < |ids|
    ensures Backgrounds(ids[..i + 1], store) == Backgrounds(ids[..i], store) + BackgroundRects(store[ids[i]])
  {
    PrefixSnoc(ids, i);
  }

  // ---------------------------------------------------------------------------
  // The layout of drawButtons (button.cpp:124-183)

  datatype LayoutMode = Top | Left | Center

  /** The `drawImage` string: "top", "left", and anything else is the centre layout. */
  function ModeOf(drawImage: string): (m: LayoutMode)
    ensures m == Top <==> drawImage == "top"
    ensures m == Left <==> drawImage == "left"
    ensures m == Center <==> drawImage != "top" && drawImage != "left"
  {
    if drawImage == "top" then Top
    else if drawImage == "left" then Left
    else Center
  }

  /** Where the label's and the image's bottom-left corners go. */
  datatype Placement = Placement(text: Vec2, image: Vec2)

  /** The larger of two floats, as the `?:` expressions of button.cpp:134,147 pick it. */
  function Larger(a: real, b: real): real
  {
    if a > b then a else b
  }

  /**
   * The layout of a button with an image (button.cpp:132-170), given the
   * label's measured width and height.
   */
  function ImageLayout(b: Button, textWidth: real, textHeight: real): Placement
  {
    match ModeOf(b.drawImage)
    case Top =>
      var boxHeight := b.imageHeight + textHeight + b.imageGap;
      var boxWidth := Larger(b.imageWidth, textWidth);
      var startX := b.x + b.width / 2.0 - boxWidth / 2.0;
      var startY := b.y + b.height / 2.0 - boxHeight / 2.0;
      Placement(Vec2(startX + (boxWidth - textWidth) / 2.0, startY),
                Vec2(startX + (boxWidth - b.imageWidth) / 2.0, startY + boxHeight - b.imageHeight))
    case Left =>
      var boxHeight := Larger(b.imageHeight, textHeight);
      var boxWidth := b.imageWidth + textWidth + b.imageGap;
      var startX := b.x + b.width / 2.0 - boxWidth / 2.0;
      var startY := b.y + b.height / 2.0 - boxHeight / 2.0;
      Placement(Vec2(startX + boxWidth - textWidth, startY + (boxHeight - textHeight) / 2.0),
                Vec2(startX, startY + (boxHeight - b.imageHeight) / 2.0))
    case Center =>
      Placement(Vec2(b.x + (b.width - textWidth) / 2.0, b.y + (b.height - textHeight) / 2.0),
                Vec2(b.x + (b.width - b.imageWidth) / 2.0, b.y + (b.height - b.imageHeight) / 2.0))
  }

  /** The label position of a button without an image (button.cpp:179-180). */
  function CenteredText(b: Button, textWidth: real, textHeight: real): Vec2
  {
    Vec2((b.x + b.width / 2.0) - textWidth / 2.0, (b.y + b.height / 2.0) - textHeight / 2.0)
  }

  /** Without an image, the label's centre is the button's centre. */
  lemma CenteredTextIsCentred(b: Button, textWidth: real, textHeight: real)
    ensures CenteredText(b, textWidth, textHeight).x + textWidth / 2.0 == b.x + b.width / 2.0
    ensures CenteredText(b, textWidth, textHeight).y + textHeight / 2.0 == b.y + b.height / 2.0
  {
  }

  /**
   * "top": image above label, the gap between them, both centred on the
   * button's vertical axis, the stack centred vertically on the button.
   */
  lemma TopLayout(b: Button, textWidth: real, textHeight: real)
    requires ModeOf(b.drawImage) == Top
    ensures var p := ImageLayout(b, textWidth, textHeight);
      && p.text.x + textWidth / 2.0 == b.x + b.width / 2.0
      && p.image.x + b.imageWidth / 2.0 == b.x + b.width / 2.0
      && p.image.y == p.text.y + textHeight + b.imageGap
      && p.text.y + (textHeight + b.imageGap + b.imageHeight) / 2.0 == b.y + b.height / 2.0
  {
  }

  /**
   * "left": the image starts at the left edge of the centred box, the label
   * ends at its right edge, the gap between them, both centred on the
   * button's horizontal axis.
   */
  lemma LeftLayout(b: Button, textWidth: real, textHeight: real)
    requires ModeOf(b.drawImage) == Left
    ensures var p := ImageLayout(b, textWidth, textHeight);
      var boxWidth := b.imageWidth + textWidth + b.imageGap;
      && p.image.x == b.x + b.width / 2.0 - boxWidth / 2.0
      && p.text.x + textWidth == p.image.x + boxWidth
      && p.text.x == p.image.x + b.imageWidth + b.imageGap
      && p.text.y + textHeight / 2.0 == b.y + b.height / 2.0
      && p.image.y + b.imageHeight / 2.0 == b.y + b.height / 2.0
  {
  }

  /** Any other mode: label and image are each centred on the button. */
  lemma CenterLayout(b: Button, textWidth: real, textHeight: real)
    requires ModeOf(b.drawImage) == Center
    ensures var p := ImageLayout(b, textWidth, textHeight);
      && p.text.x + textWidth / 2.0 == b.x + b.width / 2.0
      && p.text.y + textHeight / 2.0 == b.y + b.height / 2.0
      && p.image.x + b.imageWidth / 2.0 == b.x + b.width / 2.0
      && p.image.y + b.imageHeight / 2.0 == b.y + b.height / 2.0
  {
  }

  /** What the foreground pass queues for one button: a label and an image, each optional. */
  datatype Foreground = Foreground(caption: Option<Vec2>, image: Option<ImageData>)

  /**
   * The foreground of one button: a texture id of 0 means no image and an
   * always-drawn centred label; otherwise the image at its layout position and
   * the label only when the text is not empty.
   */
  function ForegroundOf(b: Button, textWidth: real, textHeight: real): (f: Foreground)
    ensures f.image.Some? <==> b.textureId != 0
    ensures f.caption.Some? <==> b.textureId == 0 || b.text != ""
    ensures b.textureId == 0 ==> f.caption == Some(CenteredText(b, textWidth, textHeight))
    ensures b.textureId != 0 && b.text != "" ==> f.caption == Some(ImageLayout(b, textWidth, textHeight).text)
    ensures f.image.Some? ==>
              var p := ImageLayout(b, textWidth, textHeight).image;
              f.image.value == ImageData(b.textureId, p.x, p.y, b.imageWidth, b.imageHeight, DefaultTint)
  {
    if b.textureId != 0 then
      var p := ImageLayout(b, textWidth, textHeight);
      Foreground(if b.text != "" then Some(p.text) else None,
                 Some(ImageData(b.textureId, p.image.x, p.image.y, b.imageWidth, b.imageHeight, DefaultTint)))
    else
      Foreground(Some(CenteredText(b, textWidth, textHeight)), None)
  }

  /** The foreground of a button, measured with a glyph table. */
  function Measured(glyphs: map<char, Glyph>, b: Button): Foreground
  {
    ForegroundOf(b, Width(glyphs, b.text, b.textScale), Peak(Heights(glyphs, b.text, b.textScale)))
  }

  /** The label one button queues (none or one run), with z-index z. */
  function LabelOf(glyphs: map<char, Glyph>, b: Button, z: int): seq<QueuedText>
  {
    var f := Measured(glyphs, b);
    if f.caption.Some?
    then [QueuedText(b.text, f.caption.value.x, f.caption.value.y, b.textScale, b.textColor, false, z)]
    else []
  }

  /** The image one button queues (none or one). */
  function ImageOf(glyphs: map<char, Glyph>, b: Button): seq<ImageData>
  {
    var f := Measured(glyphs, b);
    if f.image.Some? then [f.image.value] else []
  }

  /** Default glyphs inserted into the table do not move any label or image. */
  lemma ForegroundIgnoresDefaults(glyphs: map<char, Glyph>, cs: set<char>, b: Button, z: int)
    ensures LabelOf(WithDefaults(glyphs, cs), b, z) == LabelOf(glyphs, b, z)
    ensures ImageOf(WithDefaults(glyphs, cs), b) == ImageOf(glyphs, b)
  {
    DefaultsKeepMetrics(glyphs, cs, b.text, b.textScale);
  }

  /**
   * The labels the foreground pass queues for a run of buttons, in order,
   * numbered by the text renderer's counter from z0 on.
   */
  function Labels(glyphs: map<char, Glyph>, ids: seq<ButtonId>, store: map<ButtonId, Button>, z0: int): seq<QueuedText>
    requires Stored(ids, store)
  {
    if ids == [] then []
    else
      var before := Labels(glyphs, ids[..|ids| - 1], store, z0);
      before + LabelOf(glyphs, store[ids[|ids| - 1]], z0 + |before|)
  }

  /** The images the foreground pass queues for a run of buttons, in order. */
  function Images(glyphs: map<char, Glyph>, ids: seq<ButtonId>, store: map<ButtonId, Button>): seq<ImageData>
    requires Stored(ids, store)
  {
    if ids == [] then [] else Images(glyphs, ids[..|ids| - 1], store) + ImageOf(glyphs, store[ids[|ids| - 1]])
  }

  /** The characters of the buttons' texts: the ones getStringMetrics looks up. */
  function TextChars(ids: seq<ButtonId>, store: map<ButtonId, Button>): set<char>
    requires Stored(ids, store)
  {
    if ids == [] then {} else TextChars(ids[..|ids| - 1], store) + CharsOf(store[ids[|ids| - 1]].text)
  }

  /** The labels of a run are numbered consecutively from z0. */
  lemma {:induction false} LabelsNumbered(glyphs: map<char, Glyph>, ids: seq<ButtonId>, store: map<ButtonId, Button>, z0: int)
    requires Stored(ids, store)
    ensures forall k :: 0 <= k < |Labels(glyphs, ids, store, z0)| ==> Labels(glyphs, ids, store, z0)[k].zIndex == z0 + k
  {
    if ids != [] {
      var before := Labels(glyphs, ids[..|ids| - 1], store, z0);
      LabelsNumbered(glyphs, ids[..|ids| - 1], store, z0);
      var last := LabelOf(glyphs, store[ids[|ids| - 1]], z0 + |before|);
      var ls := Labels(glyphs, ids, store, z0);
      assert ls == before + last;
      forall k | 0 <= k < |ls|
        ensures ls[k].zIndex == z0 + k
      {
        if k < |before| {
          assert ls[k] == before[k];
        } else {
          assert ls[k] == last[0];
        }
      }
    }
  }

  /** Buttons without images each get one label and no image. */
  lemma {:induction false} TextOnlyButtons(glyphs: map<char, Glyph>, ids: seq<ButtonId>, store: map<ButtonId, Button>, z0: int)
    requires Stored(ids, store)
    requires forall i :: 0 <= i < |ids| ==> store[ids[i]].textureId == 0
    ensures |Labels(glyphs, ids, store, z0)| == |ids|
    ensures Images(glyphs, ids, store) == []
  {
    if ids != [] {
      TextOnlyButtons(glyphs, ids[..|ids| - 1], store, z0);
    }
  }

  /** The labels, images and looked-up characters of the first i + 1 buttons. */
  lemma ForegroundStep(glyphs: map<char, Glyph>, ids: seq<ButtonId>, store: map<ButtonId, Button>, i: nat, z0: int, z: int)
    requires Stored(ids, store) && i < |ids|
    requires z == z0 + |Labels(glyphs, ids[..i], store, z0)|
    ensures Labels(glyphs, ids[..i + 1], store, z0) == Labels(glyphs, ids[..i], store, z0) + LabelOf(glyphs, store[ids[i]], z)
    ensures Images(glyphs, ids[..i + 1], store) == Images(glyphs, ids[..i], store) + ImageOf(glyphs, store[ids[i]])
    ensures TextChars(ids[..i + 1], store) == TextChars(ids[..i], store) + CharsOf(store[ids[i]].text)
  {
    LabelsStep(glyphs, ids, store, i, z0, z);
    ImagesStep(glyphs, ids, store, i);
    TextCharsStep(ids, store, i);
  }

  lemma LabelsStep(glyphs: map<char, Glyph>, ids: seq<ButtonId>, store: map<ButtonId, Button>, i: nat, z0: int, z: int)
    requires Stored(ids, store) && i < |ids|
    requires z == z0 + |Labels(glyphs, ids[..i], store, z0)|
    ensures Labels(glyphs, ids[..i + 1], store, z0) == Labels(glyphs, ids[..i], store, z0) + LabelOf(glyphs, store[ids[i]], z)
  {
    var run := ids[..i + 1];
    PrefixSnoc(ids, i);
    assert run[..|run| - 1] == ids[..i] && run[|run| - 1] == ids[i];
  }

  lemma ImagesStep(glyphs: map<char, Glyph>, ids: seq<ButtonId>, store: map<ButtonId, Button>, i: nat)
    requires Stored(ids, store) && i < |ids|
    ensures Images(glyphs, ids[..i + 1], store) == Images(glyphs, ids[..i], store) + ImageOf(glyphs, store[ids[i]])
  {
    var run := ids[..i + 1];
    PrefixSnoc(ids, i);
    assert run[..|run| - 1] == ids[..i] && run[|run| - 1] == ids[i];
  }

  lemma TextCharsStep(ids: seq<ButtonId>, store: map<ButtonId, Button>, i: nat)
    requires Stored(ids, store) && i < |ids|
    ensures TextChars(ids[..i + 1], store) == TextChars(ids[..i], store) + CharsOf(store[ids[i]].text)
  {
    var run := ids[..i + 1];
    PrefixSnoc(ids, i);
    assert run[..|run| - 1] == ids[..i] && run[|run| - 1] == ids[i];
  }

  /**
   * One more button through the foreground pass: queueing its label and image,
   * measured with the table as the pass has grown it so far, and growing the
   * table with its characters gives the queues and the table of the first i + 1
   * buttons.
   */
  lemma ForegroundAdvance(glyphs: map<char, Glyph>, ids: seq<ButtonId>, store: map<ButtonId, Button>, i: nat, z0: int, z: int,
                          texts: seq<QueuedText>, images: seq<ImageData>)
    requires Stored(ids, store) && i < |ids|
    requires z == z0 + |Labels(glyphs, ids[..i], store, z0)|
    ensures var b := store[ids[i]];
            var chars := WithDefaults(glyphs, TextChars(ids[..i], store));
            && texts + Labels(glyphs, ids[..i], store, z0) + LabelOf(chars, b, z) == texts + Labels(glyphs, ids[..i + 1], store, z0)
            && z + |LabelOf(chars, b, z)| == z0 + |Labels(glyphs, ids[..i + 1], store, z0)|
            && images + Images(glyphs, ids[..i], store) + ImageOf(chars, b) == images + Images(glyphs, ids[..i + 1], store)
            && WithDefaults(chars, CharsOf(b.text)) == WithDefaults(glyphs, TextChars(ids[..i + 1], store))
  {
    var b := store[ids[i]];
    var seen := TextChars(ids[..i], store);
    ForegroundIgnoresDefaults(glyphs, seen, b, z);
    WithDefaultsTwice(glyphs, seen, CharsOf(b.text));
    ForegroundStep(glyphs, ids, store, i, z0, z);
    AppendAssoc(texts, Labels(glyphs, ids[..i], store, z0), LabelOf(glyphs, b, z));
    AppendAssoc(images, Images(glyphs, ids[..i], store), ImageOf(glyphs, b));
  }

  // ---------------------------------------------------------------------------
  // The manager's bookkeeping

  /**
   * What the manager's fields keep true: every pointer in the collection is
   * live and appears once, every live button is in the collection and was
   * handed out before `next`, and the active button is live.
   */
  predicate Wellformed(buttons: seq<ButtonId>, store: map<ButtonId, Button>, next: nat, active: Option<ButtonId>)
  {
    && Stored(buttons, store)
    && (forall id :: id in store ==> id in buttons && id < next)
    && (forall i, j :: 0 <= i < j < |buttons| ==> buttons[i] != buttons[j])
    && (active.Some? ==> active.value in store)
  }

  /** Appending a freshly allocated button keeps the bookkeeping. */
  lemma CreateKeepsWellformed(buttons: seq<ButtonId>, store: map<ButtonId, Button>, next: nat,
                              active: Option<ButtonId>, config: Button)
    requires Wellformed(buttons, store, next, active)
    ensures next !in store
    ensures Wellformed(buttons + [next], store[next := config], next + 1, active)
  {
    var nb := buttons + [next];
    forall i, j | 0 <= i < j < |nb|
      ensures nb[i] != nb[j]
    {
      if j == |buttons| {
        assert buttons[i] in store;
      }
    }
  }

  /** Erasing the entry at k, and its button, keeps the bookkeeping once a removed active button is cleared. */
  lemma RemoveKeepsWellformed(buttons: seq<ButtonId>, store: map<ButtonId, Button>, next: nat,
                              active: Option<ButtonId>, k: nat)
    requires Wellformed(buttons, store, next, active)
    requires k < |buttons|
    ensures var id := buttons[k];
      Wellformed(buttons[..k] + buttons[k + 1..], store - {id}, next, if active == Some(id) then None else active)
  {
    var id := buttons[k];
    var nb := buttons[..k] + buttons[k + 1..];
    assert forall i :: 0 <= i < |nb| ==> nb[i] == buttons[if i < k then i else i + 1];
    forall other | other in store - {id}
      ensures other in nb
    {
      var j :| 0 <= j < |buttons| && buttons[j] == other;
      assert nb[if j < k then j else j - 1] == other;
    }
  }

  // ---------------------------------------------------------------------------
  // The manager

  /** ButtonManager (button.h:28-53). */
  class ButtonManager {
    /** textRenderer / renderer2d (button.h:49-50): null until init. */
    var textRenderer: TextRenderer?
    var renderer2d: Renderer2D?
    /** buttons (button.h:51): the pointers in hit-test order. */
    var buttons: seq<ButtonId>
    /** The buttons the pointers point to. */
    var store: map<ButtonId, Button>
    /** activeButton (button.h:52). */
    var activeButton: Option<ButtonId>
    /** The identity the next `new Button` gets. */
    var nextId: nat
    /** The buttons whose callbacks ran, in order. */
    ghost var fired: seq<ButtonId>

    ghost predicate Valid()
      reads this
    {
      Wellformed(buttons, store, nextId, activeButton)
    }

    /** The constructor (button.cpp:5-6): no renderers, no buttons, no active button. */
    constructor ()
      ensures Valid()
      ensures textRenderer == null && renderer2d == null
      ensures buttons == [] && store == map[] && activeButton == None && fired == []
    {
      textRenderer := null;
      renderer2d := null;
      buttons := [];
      store := map[];
      activeButton := None;
      nextId := 0;
      fired := [];
    }

    /** init (button.cpp:15-18). */
    method Init(text: TextRenderer?, shapes: Renderer2D?)
      modifies this`textRenderer, this`renderer2d
      ensures textRenderer == text && renderer2d == shapes
    {
      textRenderer := text;
      renderer2d := shapes;
    }

    /** createButton (button.cpp:27-31): a copy of the config, appended after every existing button. */
    method CreateButton(config: Button) returns (id: ButtonId)
      requires Valid()
      modifies this`buttons, this`store, this`nextId
      ensures Valid()
      ensures id !in old(store)
      ensures buttons == old(buttons) + [id]
      ensures store == old(store)[id := config]
    {
      CreateKeepsWellformed(buttons, store, nextId, activeButton, config);
      id := nextId;
      nextId := nextId + 1;
      buttons := buttons + [id];
      store := store[id := config];
    }

    /** getColor (button.cpp:196-201): the button's colour, transparent black for a null pointer. */
    function GetColor(button: Option<ButtonId>): (c: Vec4)
      reads this
      requires button.Some? ==> button.value in store
      ensures button.None? ==> c == Vec4(0.0, 0.0, 0.0, 0.0)
      ensures button.Some? ==> c == store[button.value].color
    {
      if button.Some? then store[button.value].color else Vec4(0.0, 0.0, 0.0, 0.0)
    }

    /** setColor (button.cpp:190-194): only that button's colour changes; a null pointer does nothing. */
    method SetColor(button: Option<ButtonId>, color: Vec4)
      requires Valid()
      requires button.Some? ==> button.value in store
      modifies this`store
      ensures Valid()
      ensures button.None? ==> store == old(store)
      ensures button.Some? ==> store == old(store)[button.value := old(store)[button.value].(color := color)]
      ensures button.Some? ==> GetColor(button) == color
    {
      if button.Some? {
        store := store[button.value := store[button.value].(color := color)];
      }
    }

    /** setCallback (button.cpp:33-37), with the callback reduced to whether one is set. */
    method SetCallback(button: Option<ButtonId>, hasCallback: bool)
      requires Valid()
      requires button.Some? ==> button.value in store
      modifies this`store
      ensures Valid()
      ensures button.None? ==> store == old(store)
      ensures button.Some? ==> store == old(store)[button.value := old(store)[button.value].(hasCallback := hasCallback)]
    {
      if button.Some? {
        store := store[button.value := store[button.value].(hasCallback := hasCallback)];
      }
    }

    /**
     * removeButton (button.cpp:39-50): the first entry equal to the pointer
     * is erased and its button deleted; the active button is cleared when it
     * is the one removed. A pointer not in the collection changes nothing.
     */
    method RemoveButton(button: Option<ButtonId>)
      requires Valid()
      modifies this`buttons, this`store, this`activeButton
      ensures Valid()
      ensures button.None? || button.value !in old(buttons) ==>
                buttons == old(buttons) && store == old(store) && activeButton == old(activeButton)
      ensures button.Some? && button.value in old(buttons) ==>
                && buttons == RemoveFirst(old(buttons), button.value)
                && store == old(store) - {button.value}
                && activeButton == (if old(activeButton) == button then None else old(activeButton))
    {
      var i := 0;
      while i < |buttons|
        invariant 0 <= i <= |buttons|
        invariant forall k :: 0 <= k < i ==> Some(buttons[k]) != button
      {
        if Some(buttons[i]) == button {
          var id := buttons[i];
          RemoveFirstAt(buttons, id, i);
          RemoveKeepsWellformed(buttons, store, nextId, activeButton, i);
          store := store - {id};
          buttons := buttons[..i] + buttons[i + 1..];
          if activeButton == button {
            activeButton := None;
          }
          return;
        }
        i := i + 1;
      }
    }

    /**
     * fingerStart (button.cpp:52-60): the previous active button is
     * discarded; the first button in collection order under the finger
     * becomes active, none when no button is.
     */
    method FingerStart(px: real, py: real)
      requires Valid()
      modifies this`activeButton
      ensures Valid()
      ensures activeButton == ButtonAt(buttons, FirstHit(buttons, store, px, py))
    {
      activeButton := None;
      var i := 0;
      while i < |buttons|
        invariant 0 <= i <= |buttons|
        invariant activeButton == None
        invariant forall k :: 0 <= k < i ==> !Inside(store[buttons[k]], px, py)
      {
        if Inside(store[buttons[i]], px, py) {
          FirstHitIsUnique(buttons, store, px, py, i);
          activeButton := Some(buttons[i]);
          return;
        }
        i := i + 1;
      }
    }

    /**
     * fingerRelease (button.cpp:62-77): without an active button it reports
     * false and changes nothing. Otherwise the active button is cleared, and
     * the result says whether the finger was released inside it; only then
     * does its callback, when set, run once.
     */
    method FingerRelease(px: real, py: real) returns (hit: bool)
      requires Valid()
      modifies this`activeButton, this`fired
      ensures Valid()
      ensures activeButton == None
      ensures old(activeButton).None? ==> !hit && fired == old(fired)
      ensures old(activeButton).Some? ==>
                var id := old(activeButton).value;
                && hit == Inside(store[id], px, py)
                && fired == old(fired) + (if hit && store[id].hasCallback then [id] else [])
    {
      if activeButton.None? {
        return false;
      }
      var id := activeButton.value;
      if Inside(store[id], px, py) {
        if store[id].hasCallback {
          fired := fired + [id];
        }
        activeButton := None;
        return true;
      }
      activeButton := None;
      return false;
    }
  
    /** The background loop of drawButtons (button.cpp:81-119). */
    method EnqueueBackgrounds()
      requires Stored(buttons, store) && renderer2d != null
      modifies renderer2d`rectQueue
      ensures renderer2d.rectQueue == old(renderer2d.rectQueue) + Backgrounds(buttons, store)
    {
      ghost var start := renderer2d.rectQueue;
      var i := 0;
      while i < |buttons|
        invariant 0 <= i <= |buttons|
        invariant renderer2d.rectQueue == start + Backgrounds(buttons[..i], store)
      {
        var b := store[buttons[i]];
        var pos := Vec2(b.x, b.y);
        ghost var before := renderer2d.rectQueue;
        if b.borderRadius > 0.0 {
          renderer2d.DrawFilledRoundedRect(pos, b.width, b.height, b.borderRadius, b.color);
          if b.borderWidth > 0.0 {
            ghost var fill := renderer2d.rectQueue[|before|];
            renderer2d.DrawRoundedRect(pos, b.width, b.height, b.borderWidth, b.borderRadius, b.borderColor);
            AppendPair(before, fill, renderer2d.rectQueue[|before| + 1]);
          }
        } else {
          renderer2d.DrawFilledRect(pos, b.width, b.height, b.color);
          if b.borderWidth > 0.0 {
            ghost var fill := renderer2d.rectQueue[|before|];
            renderer2d.DrawRect(pos, b.width, b.height, b.borderWidth, b.borderColor);
            AppendPair(before, fill, renderer2d.rectQueue[|before| + 1]);
          }
        }
        assert renderer2d.rectQueue == before + BackgroundRects(b);
        AppendAssoc(start, Backgrounds(buttons[..i], store), BackgroundRects(b));
        BackgroundsStep(buttons, store, i);
        i := i + 1;
      }
      assert buttons[..i] == buttons;
    }

    /**
     * One turn of the label and image loop of drawButtons
     * (button.cpp:125-183): the text is measured, which throws when the text
     * renderer is not initialised; then the label goes to the text renderer
     * and the image to the shape renderer.
     */
    static method EnqueueForeground(textRenderer: TextRenderer, renderer2d: Renderer2D, b: Button) returns (r: Outcome)
      modifies renderer2d`imageQueue, textRenderer`textQueue, textRenderer`currentZIndex, textRenderer`characters
      ensures r.Thrown? <==> !textRenderer.initialized
      ensures r.Thrown? ==>
                && r.error == NotInitialized
                && renderer2d.imageQueue == old(renderer2d.imageQueue)
                && textRenderer.textQueue == old(textRenderer.textQueue)
                && textRenderer.currentZIndex == old(textRenderer.currentZIndex)
                && textRenderer.characters == old(textRenderer.characters)
      ensures r.Done? ==>
                && textRenderer.textQueue
                   == old(textRenderer.textQueue) + LabelOf(old(textRenderer.characters), b, old(textRenderer.currentZIndex))
                && textRenderer.currentZIndex
                   == old(textRenderer.currentZIndex) + |LabelOf(old(textRenderer.characters), b, old(textRenderer.currentZIndex))|
                && renderer2d.imageQueue == old(renderer2d.imageQueue) + ImageOf(old(textRenderer.characters), b)
                && textRenderer.characters == WithDefaults(old(textRenderer.characters), CharsOf(b.text))
    {
      var metrics := textRenderer.GetStringMetrics(b.text, b.textScale);
      if metrics.Failure? {
        return Thrown(metrics.error);
      }
      var f := ForegroundOf(b, metrics.value.width, metrics.value.maxHeight);
      if f.caption.Some? {
        textRenderer.Draw(b.text, f.caption.value.x, f.caption.value.y, b.textScale, b.textColor);
      }
      if f.image.Some? {
        var img := f.image.value;
        renderer2d.DrawImage(img.textureId, img.x, img.y, img.width, img.height, img.tint);
      }
      r := Done;
    }

    /** The label and image loop of drawButtons (button.cpp:124-184), button by button. */
    static method EnqueueForegrounds(textRenderer: TextRenderer, renderer2d: Renderer2D, buttons: seq<ButtonId>, store: map<ButtonId, Button>)
      returns (r: Outcome)
      requires Stored(buttons, store)
      modifies renderer2d`imageQueue, textRenderer`textQueue, textRenderer`currentZIndex, textRenderer`characters
      ensures r.Thrown? <==> !textRenderer.initialized && buttons != []
      ensures r.Thrown? ==>
                && r.error == NotInitialized
                && renderer2d.imageQueue == old(renderer2d.imageQueue)
                && textRenderer.textQueue == old(textRenderer.textQueue)
                && textRenderer.currentZIndex == old(textRenderer.currentZIndex)
                && textRenderer.characters == old(textRenderer.characters)
      ensures r.Done? ==>
                var glyphs := old(textRenderer.characters);
                var labels := Labels(glyphs, buttons, store, old(textRenderer.currentZIndex));
                && textRenderer.textQueue == old(textRenderer.textQueue) + labels
                && textRenderer.currentZIndex == old(textRenderer.currentZIndex) + |labels|
                && renderer2d.imageQueue == old(renderer2d.imageQueue) + Images(glyphs, buttons, store)
                && textRenderer.characters == WithDefaults(glyphs, TextChars(buttons, store))
    {
      ghost var glyphs := textRenderer.characters;
      ghost var texts := textRenderer.textQueue;
      ghost var z0 := textRenderer.currentZIndex;
      ghost var images := renderer2d.imageQueue;
      assert WithDefaults(glyphs, {}) == glyphs;
      var i := 0;
      while i < |buttons|
        invariant 0 <= i <= |buttons|
        invariant !textRenderer.initialized ==> i == 0
        invariant textRenderer.textQueue == texts + Labels(glyphs, buttons[..i], store, z0)
        invariant textRenderer.currentZIndex == z0 + |Labels(glyphs, buttons[..i], store, z0)|
        invariant renderer2d.imageQueue == images + Images(glyphs, buttons[..i], store)
        invariant textRenderer.characters == WithDefaults(glyphs, TextChars(buttons[..i], store))
      {
        var b := store[buttons[i]];
        ghost var z := textRenderer.currentZIndex;
        r := EnqueueForeground(textRenderer, renderer2d, b);
        if r.Thrown? {
          return;
        }
        ForegroundAdvance(glyphs, buttons, store, i, z0, z, texts, images);
        i := i + 1;
      }
      assert buttons[..i] == buttons;
      r := Done;
    }

    /** First half of drawButtons (button.cpp:79-121): every background, then one renderer2d flush. */
    method DrawBackgrounds()
      requires Stored(buttons, store) && renderer2d != null
      modifies renderer2d`rectQueue, renderer2d`imageQueue, renderer2d`commands
      ensures renderer2d.rectQueue == [] && renderer2d.imageQueue == []
      ensures renderer2d.commands
              == old(renderer2d.commands)
                 + RectPass(old(renderer2d.rectQueue) + Backgrounds(buttons, store),
                            renderer2d.rectShader, renderer2d.screenWidth, renderer2d.screenHeight)
                 + ImagePass(old(renderer2d.imageQueue), renderer2d.imageShader, renderer2d.screenWidth, renderer2d.screenHeight)
    {
      EnqueueBackgrounds();
      renderer2d.Flush();
    }

    /**
     * The text flush that ends drawButtons (button.cpp:187), starting from the text queue
     * `queue`, the glyph table `glyphs` and the draw log `before`.
     */
    method FlushText(ghost queue: seq<QueuedText>, ghost glyphs: map<char, Glyph>, ghost before: seq<TextDraw>)
      returns (ghost order: seq<QueuedText>)
      requires textRenderer != null
      requires textRenderer.textQueue == queue && textRenderer.characters == glyphs && textRenderer.draws == before
      modifies textRenderer`textQueue, textRenderer`currentZIndex, textRenderer`characters, textRenderer`draws
      ensures !textRenderer.initialized || queue == [] ==>
                && textRenderer.textQueue == queue && textRenderer.characters == glyphs && textRenderer.draws == before
                && unchanged(textRenderer`currentZIndex)
      ensures textRenderer.initialized && queue != [] ==>
                && textRenderer.textQueue == [] && textRenderer.currentZIndex == 0
                && textRenderer.characters == WithDefaults(glyphs, QueueChars(queue))
                && IsZOrder(order, queue)
                && textRenderer.draws == before + TextPass(glyphs, order, Screen(textRenderer.screenWidth, textRenderer.screenHeight))
    {
      order := textRenderer.Flush();
    }

    /**
     * Second half of drawButtons (button.cpp:123-187), starting from the text queue `texts`,
     * the glyph table `chars`, the z-index `z0`, the image queue `pending` and the text draw
     * log `log`: each button's label and image are queued, then the images and the text are
     * flushed. Measuring the first label throws when the text renderer is uninitialised.
     * `order` is the z-order the text flush drew its queue in.
     */
    method DrawForegrounds(ghost texts: seq<QueuedText>, ghost chars: map<char, Glyph>, ghost z0: int,
                           ghost pending: seq<ImageData>, ghost log: seq<TextDraw>, ghost shown: seq<Command>)
      returns (r: Outcome, ghost order: seq<QueuedText>)
      requires Stored(buttons, store) && renderer2d != null && textRenderer != null && renderer2d.rectQueue == []
      requires textRenderer.textQueue == texts && textRenderer.characters == chars && textRenderer.currentZIndex == z0
      requires renderer2d.imageQueue == pending && textRenderer.draws == log && renderer2d.commands == shown
      modifies renderer2d`rectQueue, renderer2d`imageQueue, renderer2d`commands
      modifies textRenderer`textQueue, textRenderer`currentZIndex, textRenderer`characters, textRenderer`draws
      ensures renderer2d.rectQueue == []
      ensures r.Thrown? <==> !textRenderer.initialized && buttons != []
      ensures r.Thrown? ==>
                && renderer2d.imageQueue == pending && renderer2d.commands == shown
                && textRenderer.textQueue == texts && textRenderer.characters == chars
                && textRenderer.currentZIndex == z0 && textRenderer.draws == log
      ensures r.Done? ==>
                && renderer2d.imageQueue == []
                && renderer2d.commands
                   == shown + ImagePass(pending + Images(chars, buttons, store),
                                        renderer2d.imageShader, renderer2d.screenWidth, renderer2d.screenHeight)
      ensures r.Done? && (!textRenderer.initialized || texts + Labels(chars, buttons, store, z0) == []) ==>
                && textRenderer.textQueue == texts + Labels(chars, buttons, store, z0)
                && textRenderer.currentZIndex == z0 + |Labels(chars, buttons, store, z0)|
                && textRenderer.characters == WithDefaults(chars, TextChars(buttons, store))
                && textRenderer.draws == log
      ensures r.Done? && textRenderer.initialized && texts + Labels(chars, buttons, store, z0) != [] ==>
                && textRenderer.textQueue == [] && textRenderer.currentZIndex == 0
                && textRenderer.characters
                   == WithDefaults(WithDefaults(chars, TextChars(buttons, store)), QueueChars(texts + Labels(chars, buttons, store, z0)))
                && IsZOrder(order, texts + Labels(chars, buttons, store, z0))
                && textRenderer.draws == log + TextPass(WithDefaults(chars, TextChars(buttons, store)), order, Screen(textRenderer.screenWidth, textRenderer.screenHeight))
    {
      order := [];
      r := EnqueueForegrounds(textRenderer, renderer2d, buttons, store);
      if r.Thrown? {
        return;
      }
      order := FlushAll(texts + Labels(chars, buttons, store, z0), WithDefaults(chars, TextChars(buttons, store)),
                        log, pending + Images(chars, buttons, store), shown);
    }

    /**
     * The two flushes that end drawButtons (button.cpp:186-187): the shape renderer's, with
     * only images queued, then the text renderer's.
     */
    method FlushAll(ghost queue: seq<QueuedText>, ghost glyphs: map<char, Glyph>, ghost log: seq<TextDraw>,
                    ghost images: seq<ImageData>, ghost shown: seq<Command>)
      returns (ghost order: seq<QueuedText>)
      requires renderer2d != null && textRenderer != null && renderer2d.rectQueue == []
      requires textRenderer.textQueue == queue && textRenderer.characters == glyphs && textRenderer.draws == log
      requires renderer2d.imageQueue == images && renderer2d.commands == shown
      modifies renderer2d`rectQueue, renderer2d`imageQueue, renderer2d`commands
      modifies textRenderer`textQueue, textRenderer`currentZIndex, textRenderer`characters, textRenderer`draws
      ensures renderer2d.rectQueue == [] && renderer2d.imageQueue == []
      ensures renderer2d.commands == shown + ImagePass(images, renderer2d.imageShader, renderer2d.screenWidth, renderer2d.screenHeight)
      ensures !textRenderer.initialized || queue == [] ==>
                && textRenderer.textQueue == queue && textRenderer.characters == glyphs && textRenderer.draws == log
                && unchanged(textRenderer`currentZIndex)
      ensures textRenderer.initialized && queue != [] ==>
                && textRenderer.textQueue == [] && textRenderer.currentZIndex == 0
                && textRenderer.characters == WithDefaults(glyphs, QueueChars(queue))
                && IsZOrder(order, queue)
                && textRenderer.draws == log + TextPass(glyphs, order, Screen(textRenderer.screenWidth, textRenderer.screenHeight))
    {
      renderer2d.Flush();
      assert RectPass([], renderer2d.rectShader, renderer2d.screenWidth, renderer2d.screenHeight) == [];
      order := FlushText(queue, glyphs, log);
    }

    /**
     * drawButtons (button.cpp:79-188): backgrounds in one renderer2d pass, then each button's
     * label and image, then a pass of images and a pass of text. The label loop throws when the
     * text renderer is uninitialised, after the backgrounds are already drawn. `queue` is the
     * text queue the final flush starts from and `glyphs` the glyph table it draws with;
     * `order` is the z-order the flush drew the queue in.
     */
    method DrawButtons() returns (r: Outcome, ghost queue: seq<QueuedText>, ghost glyphs: map<char, Glyph>, ghost order: seq<QueuedText>)
      requires Valid() && renderer2d != null && textRenderer != null
      modifies renderer2d`rectQueue, renderer2d`imageQueue, renderer2d`commands
      modifies textRenderer`textQueue, textRenderer`currentZIndex, textRenderer`characters, textRenderer`draws
      ensures r.Thrown? <==> !textRenderer.initialized && buttons != []
      ensures renderer2d.rectQueue == [] && renderer2d.imageQueue == []
      ensures r.Thrown? ==>
                renderer2d.commands
                == old(renderer2d.commands)
                   + RectPass(old(renderer2d.rectQueue) + Backgrounds(buttons, store),
                              renderer2d.rectShader, renderer2d.screenWidth, renderer2d.screenHeight)
                   + ImagePass(old(renderer2d.imageQueue), renderer2d.imageShader, renderer2d.screenWidth, renderer2d.screenHeight)
      ensures r.Done? ==>
                renderer2d.commands
                == old(renderer2d.commands)
                   + RectPass(old(renderer2d.rectQueue) + Backgrounds(buttons, store),
                              renderer2d.rectShader, renderer2d.screenWidth, renderer2d.screenHeight)
                   + ImagePass(old(renderer2d.imageQueue), renderer2d.imageShader, renderer2d.screenWidth, renderer2d.screenHeight)
                   + ImagePass(Images(old(textRenderer.characters), buttons, store),
                               renderer2d.imageShader, renderer2d.screenWidth, renderer2d.screenHeight)
      ensures queue == old(textRenderer.textQueue) + Labels(old(textRenderer.characters), buttons, store, old(textRenderer.currentZIndex))
      ensures glyphs == WithDefaults(old(textRenderer.characters), TextChars(buttons, store))
      ensures r.Thrown? ==> unchanged(textRenderer`textQueue, textRenderer`currentZIndex, textRenderer`characters, textRenderer`draws)
      ensures r.Done? && (!textRenderer.initialized || queue == []) ==>
                && textRenderer.textQueue == queue
                && textRenderer.currentZIndex == old(textRenderer.currentZIndex) + |queue| - |old(textRenderer.textQueue)|
                && textRenderer.characters == glyphs
                && textRenderer.draws == old(textRenderer.draws)
      ensures r.Done? && textRenderer.initialized && queue != [] ==>
                && textRenderer.textQueue == [] && textRenderer.currentZIndex == 0
                && textRenderer.characters == WithDefaults(glyphs, QueueChars(queue))
                && IsZOrder(order, queue)
                && textRenderer.draws == old(textRenderer.draws) + TextPass(glyphs, order, Screen(textRenderer.screenWidth, textRenderer.screenHeight))
    {
      ghost var texts, chars, z0, log := textRenderer.textQueue, textRenderer.characters, textRenderer.currentZIndex, textRenderer.draws;
      queue := texts + Labels(chars, buttons, store, z0);
      glyphs := WithDefaults(chars, TextChars(buttons, store));
      DrawBackgrounds();
      assert [] + Images(chars, buttons, store) == Images(chars, buttons, store);
      r, order := DrawForegrounds(texts, chars, z0, [], log, renderer2d.commands);
    }
  }
}

/**
 * The shape and image renderer (renderer2d/renderer2d.h and .cpp).
 *
 * Rectangles and images are queued in two independent FIFO queues; `flush`
 * runs the rectangle pass and then the image pass. Each pass does nothing on
 * an empty queue, drops its queue when its shader handle is 0, and otherwise
 * issues one draw per entry in queue order before clearing the queue. The GL
 * calls are replaced by a ghost trace of `Command`s.
 */
module Renderer2D {
  import opened Vectors

  /** RectData (renderer2d.h:23-30). */
  datatype RectData = RectData(pos: Vec2, width: real, height: real, borderWidth: real, radius: real,
                               color: Vec4, filled: bool)

  /** ImageData (renderer2d.h:32-36). */
  datatype ImageData = ImageData(textureId: nat, x: real, y: real, width: real, height: real, tint: Vec4)

  /** One vertex of an image quad: position and texture coordinate. */
  datatype QuadVertex = QuadVertex(x: real, y: real, u: real, v: real)

  /**
   * What the renderer sends to the GPU: a pass starts by selecting its program
   * with the orthographic projection of the screen size; a rectangle draw
   * carries its uniforms, an image draw its texture, tint and 6-vertex quad.
   */
  datatype Command =
    | UseProgram(program: nat, screenWidth: int, screenHeight: int)
    | RectDraw(color: Vec4, pos: Vec2, size: Vec2, radius: real, border: real)
    | ImageDraw(textureId: nat, tint: Vec4, quad: seq<QuadVertex>)

  /** Default screen size (renderer2d.h:43-44) and default drawImage tint (renderer2d.h:18). */
  const DefaultScreenWidth: int := 800
  const DefaultScreenHeight: int := 600
  const DefaultTint: Vec4 := White

  /**
   * createProgram (renderer2d.cpp:98-126), given the two compileShader results
   * (0 on a compile error), the link status and the handle glCreateProgram
   * returned: 0 unless both shaders compiled and the program linked.
   */
  function CreateProgram(vert: nat, frag: nat, linked: bool, program: nat): (r: nat)
    ensures r != 0 <==> vert != 0 && frag != 0 && linked && program != 0
    ensures r != 0 ==> r == program
  {
    if vert == 0 || frag == 0 then 0
    else if !linked then 0
    else program
  }

  // ---------------------------------------------------------------------------
  // The rectangle pass

  /** The uniforms of one rectangle draw (renderer2d.cpp:249-254). */
  function RectCommand(r: RectData): (c: Command)
    ensures c.RectDraw? && c.color == r.color && c.pos == r.pos && c.size == Vec2(r.width, r.height)
    ensures c.radius == r.radius
    ensures c.border == if r.filled then 0.0 else r.borderWidth
  {
    RectDraw(r.color, r.pos, Vec2(r.width, r.height), r.radius, if r.filled then 0.0 else r.borderWidth)
  }

  /** One rectangle draw per queued rectangle, in queue order. */
  function RectCommands(queue: seq<RectData>): seq<Command>
  {
    if |queue| == 0 then [] else RectCommands(queue[..|queue| - 1]) + [RectCommand(queue[|queue| - 1])]
  }

  /** flushRects (renderer2d.cpp:234-259) as a whole: nothing, or the program then one draw per entry. */
  function RectPass(queue: seq<RectData>, shader: nat, screenWidth: int, screenHeight: int): seq<Command>
  {
    if |queue| == 0 || shader == 0 then []
    else [UseProgram(shader, screenWidth, screenHeight)] + RectCommands(queue)
  }

  lemma {:induction false} RectCommandsInOrder(queue: seq<RectData>)
    ensures |RectCommands(queue)| == |queue|
    ensures forall i :: 0 <= i < |queue| ==> RectCommands(queue)[i] == RectCommand(queue[i])
  {
    if |queue| != 0 {
      var init := queue[..|queue| - 1];
      RectCommandsInOrder(init);
      forall i | 0 <= i < |queue|
        ensures RectCommands(queue)[i] == RectCommand(queue[i])
      {
        if i < |queue| - 1 {
          assert queue[i] == init[i];
        }
      }
    }
  }

  /**
   * The rectangle pass draws nothing when the queue is empty or the shader
   * handle is 0; otherwise it selects the program once and then issues one
   * draw per rectangle, in queue order.
   */
  lemma RectPassShape(queue: seq<RectData>, shader: nat, screenWidth: int, screenHeight: int)
    ensures |queue| == 0 || shader == 0 ==> RectPass(queue, shader, screenWidth, screenHeight) == []
    ensures |queue| != 0 && shader != 0 ==>
              && |RectPass(queue, shader, screenWidth, screenHeight)| == |queue| + 1
              && RectPass(queue, shader, screenWidth, screenHeight)[0] == UseProgram(shader, screenWidth, screenHeight)
              && forall i :: 0 <= i < |queue| ==> RectPass(queue, shader, screenWidth, screenHeight)[i + 1] == RectCommand(queue[i])
  {
    RectCommandsInOrder(queue);
  }

  // ---------------------------------------------------------------------------
  // The image pass

  /**
   * The quad of one image (renderer2d.cpp:279-286): two triangles over
   * [x, x+w] x [y, y+h], with the texture's v axis flipped.
   */
  function ImageQuad(img: ImageData): (q: seq<QuadVertex>)
    ensures |q| == 6
  {
    var x, y, w, h := img.x, img.y, img.width, img.height;
    [QuadVertex(x, y, 0.0, 1.0),
     QuadVertex(x + w, y, 1.0, 1.0),
     QuadVertex(x, y + h, 0.0, 0.0),
     QuadVertex(x + w, y, 1.0, 1.0),
     QuadVertex(x + w, y + h, 1.0, 0.0),
     QuadVertex(x, y + h, 0.0, 0.0)]
  }

  /**
   * Every vertex of the quad is a corner of the image rectangle whose texture
   * coordinate is (0 or 1, 0 or 1): u selects the left or right edge and v,
   * flipped, the top or bottom edge. The two triangles share the diagonal
   * from (x+w, y) to (x, y+h), and together they use all four corners.
   */
  lemma ImageQuadCorners(img: ImageData)
    ensures forall k :: 0 <= k < 6 ==>
              && (ImageQuad(img)[k].u == 0.0 || ImageQuad(img)[k].u == 1.0)
              && (ImageQuad(img)[k].v == 0.0 || ImageQuad(img)[k].v == 1.0)
              && ImageQuad(img)[k].x == img.x + ImageQuad(img)[k].u * img.width
              && ImageQuad(img)[k].y == img.y + (1.0 - ImageQuad(img)[k].v) * img.height
    ensures var q := ImageQuad(img);
            && q[0] == QuadVertex(img.x, img.y, 0.0, 1.0)
            && q[4] == QuadVertex(img.x + img.width, img.y + img.height, 1.0, 0.0)
            && q[1] == q[3] && q[2] == q[5]
  {
  }

  /** The draw of one image: its texture, its tint and its quad. */
  function ImageCommand(img: ImageData): (c: Command)
    ensures c.ImageDraw? && c.textureId == img.textureId && c.tint == img.tint && c.quad == ImageQuad(img)
  {
    ImageDraw(img.textureId, img.tint, ImageQuad(img))
  }

  /** One image draw per queued image, in queue order. */
  function ImageCommands(queue: seq<ImageData>): seq<Command>
  {
    if |queue| == 0 then [] else ImageCommands(queue[..|queue| - 1]) + [ImageCommand(queue[|queue| - 1])]
  }

  /** flushImages (renderer2d.cpp:261-297) as a whole. */
  function ImagePass(queue: seq<ImageData>, shader: nat, screenWidth: int, screenHeight: int): seq<Command>
  {
    if |queue| == 0 || shader == 0 then []
    else [UseProgram(shader, screenWidth, screenHeight)] + ImageCommands(queue)
  }

  lemma {:induction false} ImageCommandsInOrder(queue: seq<ImageData>)
    ensures |ImageCommands(queue)| == |queue|
    ensures forall i :: 0 <= i < |queue| ==> ImageCommands(queue)[i] == ImageCommand(queue[i])
  {
    if |queue| != 0 {
      var init := queue[..|queue| - 1];
      ImageCommandsInOrder(init);
      forall i | 0 <= i < |queue|
        ensures ImageCommands(queue)[i] == ImageCommand(queue[i])
      {
        if i < |queue| - 1 {
          assert queue[i] == init[i];
        }
      }
    }
  }

  /** The image pass: nothing, or the program once and then one draw per image in queue order. */
  lemma ImagePassShape(queue: seq<ImageData>, shader: nat, screenWidth: int, screenHeight: int)
    ensures |queue| == 0 || shader == 0 ==> ImagePass(queue, shader, screenWidth, screenHeight) == []
    ensures |queue| != 0 && shader != 0 ==>
              && |ImagePass(queue, shader, screenWidth, screenHeight)| == |queue| + 1
              && ImagePass(queue, shader, screenWidth, screenHeight)[0] == UseProgram(shader, screenWidth, screenHeight)
              && forall i :: 0 <= i < |queue| ==> ImagePass(queue, shader, screenWidth, screenHeight)[i + 1] == ImageCommand(queue[i])
  {
    ImageCommandsInOrder(queue);
  }

  /**
   * The rectangle pass issues no image draw and the image pass no rectangle
   * draw, so in flush's trace every rectangle comes before every image.
   */
  lemma PassesKeepToTheirKind(rects: seq<RectData>, images: seq<ImageData>, rectShader: nat, imageShader: nat,
                              screenWidth: int, screenHeight: int)
    ensures forall c :: c in RectPass(rects, rectShader, screenWidth, screenHeight) ==> !c.ImageDraw?
    ensures forall c :: c in ImagePass(images, imageShader, screenWidth, screenHeight) ==> !c.RectDraw?
  {
    var rectPass := RectPass(rects, rectShader, screenWidth, screenHeight);
    var imagePass := ImagePass(images, imageShader, screenWidth, screenHeight);
    RectPassShape(rects, rectShader, screenWidth, screenHeight);
    ImagePassShape(images, imageShader, screenWidth, screenHeight);
    forall c | c in rectPass
      ensures !c.ImageDraw?
    {
      var i :| 0 <= i < |rectPass| && rectPass[i] == c;
      if 0 < i {
        assert c == RectCommand(rects[i - 1]);
      }
    }
    forall c | c in imagePass
      ensures !c.RectDraw?
    {
      var i :| 0 <= i < |imagePass| && imagePass[i] == c;
      if 0 < i {
        assert c == ImageCommand(images[i - 1]);
      }
    }
  }

  // ---------------------------------------------------------------------------
  // The renderer object

  class Renderer2D {
    var screenWidth: int
    var screenHeight: int
    /** rectShader / imageShader (renderer2d.h:46,57): 0 until a program was created. */
    var rectShader: nat
    var imageShader: nat
    /** rectQueue / imageQueue (renderer2d.h:55,62). */
    var rectQueue: seq<RectData>
    var imageQueue: seq<ImageData>
    /** The commands issued so far, standing in for the GL calls. */
    ghost var commands: seq<Command>

    /** The field initialisers of renderer2d.h:43-62. */
    constructor ()
      ensures screenWidth == DefaultScreenWidth && screenHeight == DefaultScreenHeight
      ensures rectShader == 0 && imageShader == 0
      ensures rectQueue == [] && imageQueue == [] && commands == []
    {
      screenWidth := DefaultScreenWidth;
      screenHeight := DefaultScreenHeight;
      rectShader := 0;
      imageShader := 0;
      rectQueue := [];
      imageQueue := [];
      commands := [];
    }

    /**
     * init (renderer2d.cpp:128-193): each handle becomes the createProgram
     * result for that shader pair, which stays 0 when compiling or linking
     * failed. The arguments are what the GL reported for each step.
     */
    method Init(rectVert: nat, rectFrag: nat, rectLinked: bool, rectProgram: nat,
                imageVert: nat, imageFrag: nat, imageLinked: bool, imageProgram: nat)
      modifies this`rectShader, this`imageShader
      ensures rectShader == CreateProgram(rectVert, rectFrag, rectLinked, rectProgram)
      ensures imageShader == CreateProgram(imageVert, imageFrag, imageLinked, imageProgram)
    {
      rectShader := CreateProgram(rectVert, rectFrag, rectLinked, rectProgram);
      imageShader := CreateProgram(imageVert, imageFrag, imageLinked, imageProgram);
    }

    /** setScreenSize (renderer2d.cpp:204-207). */
    method SetScreenSize(width: int, height: int)
      modifies this`screenWidth, this`screenHeight
      ensures screenWidth == width && screenHeight == height
    {
      screenWidth := width;
      screenHeight := height;
    }

    /** drawFilledRect (renderer2d.cpp:209-211): no border, no radius, filled. */
    method DrawFilledRect(pos: Vec2, width: real, height: real, color: Vec4)
      modifies this`rectQueue
      ensures rectQueue == old(rectQueue) + [RectData(pos, width, height, 0.0, 0.0, color, true)]
    {
      rectQueue := rectQueue + [RectData(pos, width, height, 0.0, 0.0, color, true)];
    }

    /** drawRect (renderer2d.cpp:213-215): the given border, no radius, outlined. */
    method DrawRect(pos: Vec2, width: real, height: real, borderWidth: real, color: Vec4)
      modifies this`rectQueue
      ensures rectQueue == old(rectQueue) + [RectData(pos, width, height, borderWidth, 0.0, color, false)]
    {
      rectQueue := rectQueue + [RectData(pos, width, height, borderWidth, 0.0, color, false)];
    }

    /** drawFilledRoundedRect (renderer2d.cpp:217-219): no border, the given radius, filled. */
    method DrawFilledRoundedRect(pos: Vec2, width: real, height: real, radius: real, color: Vec4)
      modifies this`rectQueue
      ensures rectQueue == old(rectQueue) + [RectData(pos, width, height, 0.0, radius, color, true)]
    {
      rectQueue := rectQueue + [RectData(pos, width, height, 0.0, radius, color, true)];
    }

    /** drawRoundedRect (renderer2d.cpp:221-223): the given border and radius, outlined. */
    method DrawRoundedRect(pos: Vec2, width: real, height: real, borderWidth: real, radius: real, color: Vec4)
      modifies this`rectQueue
      ensures rectQueue == old(rectQueue) + [RectData(pos, width, height, borderWidth, radius, color, false)]
    {
      rectQueue := rectQueue + [RectData(pos, width, height, borderWidth, radius, color, false)];
    }

    /** drawImage (renderer2d.cpp:225-227). */
    method DrawImage(textureId: nat, x: real, y: real, width: real, height: real, tint: Vec4)
      modifies this`imageQueue
      ensures imageQueue == old(imageQueue) + [ImageData(textureId, x, y, width, height, tint)]
    {
      imageQueue := imageQueue + [ImageData(textureId, x, y, width, height, tint)];
    }

    /** flushRects (renderer2d.cpp:234-259). */
    method FlushRects()
      modifies this`rectQueue, this`commands
      ensures rectQueue == []
      ensures commands == old(commands) + RectPass(old(rectQueue), rectShader, screenWidth, screenHeight)
    {
      if |rectQueue| == 0 || rectShader == 0 {
        assert old(commands) + RectPass(old(rectQueue), rectShader, screenWidth, screenHeight) == old(commands);
        rectQueue := [];
        return;
      }
      commands := commands + [UseProgram(rectShader, screenWidth, screenHeight)];
      ghost var start := commands;
      var i := 0;
      while i < |rectQueue|
        invariant rectQueue == old(rectQueue)
        invariant 0 <= i <= |rectQueue|
        invariant commands == start + RectCommands(rectQueue[..i])
      {
        var r := rectQueue[i];
        var border := if r.filled then 0.0 else r.borderWidth;
        assert rectQueue[..i + 1][..i] == rectQueue[..i];
        assert RectCommands(rectQueue[..i + 1]) == RectCommands(rectQueue[..i]) + [RectCommand(r)];
        commands := commands + [RectDraw(r.color, r.pos, Vec2(r.width, r.height), r.radius, border)];
        i := i + 1;
      }
      assert rectQueue[..i] == rectQueue;
      assert commands == old(commands) + ([UseProgram(rectShader, screenWidth, screenHeight)] + RectCommands(rectQueue));
      rectQueue := [];
    }

    /** flushImages (renderer2d.cpp:261-297). */
    method FlushImages()
      modifies this`imageQueue, this`commands
      ensures imageQueue == []
      ensures commands == old(commands) + ImagePass(old(imageQueue), imageShader, screenWidth, screenHeight)
    {
      if |imageQueue| == 0 || imageShader == 0 {
        assert old(commands) + ImagePass(old(imageQueue), imageShader, screenWidth, screenHeight) == old(commands);
        imageQueue := [];
        return;
      }
      commands := commands + [UseProgram(imageShader, screenWidth, screenHeight)];
      ghost var start := commands;
      var i := 0;
      while i < |imageQueue|
        invariant imageQueue == old(imageQueue)
        invariant 0 <= i <= |imageQueue|
        invariant commands == start + ImageCommands(imageQueue[..i])
      {
        var img := imageQueue[i];
        var x, y, w, h := img.x, img.y, img.width, img.height;
        var verts := [QuadVertex(x, y, 0.0, 1.0),
                      QuadVertex(x + w, y, 1.0, 1.0),
                      QuadVertex(x, y + h, 0.0, 0.0),
                      QuadVertex(x + w, y, 1.0, 1.0),
                      QuadVertex(x + w, y + h, 1.0, 0.0),
                      QuadVertex(x, y + h, 0.0, 0.0)];
        assert imageQueue[..i + 1][..i] == imageQueue[..i];
        assert ImageCommands(imageQueue[..i + 1]) == ImageCommands(imageQueue[..i]) + [ImageCommand(img)];
        commands := commands + [ImageDraw(img.textureId, img.tint, verts)];
        i := i + 1;
      }
      assert imageQueue[..i] == imageQueue;
      assert commands == old(commands) + ([UseProgram(imageShader, screenWidth, screenHeight)] + ImageCommands(imageQueue));
      imageQueue := [];
    }

    /** flush (renderer2d.cpp:229-232): the rectangle pass, then the image pass. */
    method Flush()
      modifies this`rectQueue, this`imageQueue, this`commands
      ensures rectQueue == [] && imageQueue == []
      ensures commands == old(commands)
                          + RectPass(old(rectQueue), rectShader, screenWidth, screenHeight)
                          + ImagePass(old(imageQueue), imageShader, screenWidth, screenHeight)
    {
      FlushRects();
      FlushImages();
    }
  }
}

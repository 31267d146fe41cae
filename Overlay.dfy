/** `update_image` (server.py:309-426): validate the request, then draw each
    text block onto a transparent overlay, one block at a time, a failing
    block being skipped without stopping the others.

    The overlay is modelled by the list of drawing calls it received, in
    order. The environment is a `Platform` of uninterpreted functions:
    the filesystem probe, the image loader, whether the imaging library
    accepts a drawing call or raises, its text measurement, `repr` of
    containers, `secure_filename`, and whether saving succeeds. */
module Overlay {
  import opened PySemantics
  import opened Colors
  import opened Fonts

  /** A bounding box `(left, top, right, bottom)` as `textbbox` returns it. */
  datatype Box = Box(left: int, top: int, right: int, bottom: int)

  /** One drawing call on the overlay. */
  datatype DrawOp =
    | Rect(x0: int, y0: int, x1: int, y1: int, fill: Rgba)
    | Text(x: int, y: int, text: string, fill: Rgba, font: Font)
    | Line(x0: int, y0: int, x1: int, y1: int, fill: Rgba, width: int)

  datatype Platform = Platform(
    pathExists: string -> bool,                    // os.path.exists on a string path
    fdExists: int -> bool,                         // os.path.exists on an integer (a file descriptor)
    fontLoads: (string, int) -> bool,              // ImageFont.truetype returns without raising
    opens: string -> bool,                         // Image.open returns without raising
    draws: DrawOp -> bool,                         // the drawing call returns without raising
    textBbox: (int, int, string, Font) -> Option<Box>,  // draw.textbbox, None when it raises
    containerRepr: Json -> string,                 // repr of a list or dict
    secureName: string -> string,                  // werkzeug's secure_filename
    saves: string -> bool)                         // image.save to the output file succeeds

  /** The drawing surface `ImageDraw.Draw(overlay)`, as the calls it has
      received. */
  class Canvas {
    var ops: seq<DrawOp>

    /** A fresh, fully transparent overlay. */
    constructor ()
      ensures ops == []
    {
      ops := [];
    }

    /** One `draw.rectangle`, `draw.text` or `draw.line` call: recorded when
        the imaging library accepts it, nothing drawn when it raises. */
    method Draw(op: DrawOp, accepts: DrawOp -> bool) returns (ok: bool)
      modifies this
      ensures ok == accepts(op)
      ensures ops == if ok then old(ops) + [op] else old(ops)
    {
      ok := accepts(op);
      if ok {
        ops := ops + [op];
      }
    }
  }

  /** The values read from one block (server.py:342-356). The styling
      values stay JSON values: they are used by truthiness, looked up as a
      dictionary key, or parsed as colours. */
  datatype BlockFields = BlockFields(
    x: int, y: int, w: int, h: int, text: string, fontSize: int,
    fontFamily: Json, bold: Json, italic: Json, underline: Json,
    textColor: Json, backgroundColor: Json, backgroundTransparent: Json)

  /** `int(block[key])`. */
  function IntField(block: Json, key: string): Result<int> {
    var v :- Index(block, key);
    ToInt(v)
  }

  /** Reading the block's fields in order: `int(block['x'])`, `'y'`,
      `'width'`, `'height'`, `str(block['text'])`, then
      `int(block.get('fontSize', 20))` and the defaulted styling values. */
  function ParseFields(block: Json, p: Platform): Result<BlockFields> {
    var x :- IntField(block, "x");
    var y :- IntField(block, "y");
    var w :- IntField(block, "width");
    var h :- IntField(block, "height");
    var tv :- Index(block, "text");
    var fs :- ToInt(Get(block.fields, "fontSize", JNum(20)));
    Ok(BlockFields(x, y, w, h, ToStr(tv, p.containerRepr), fs,
                   Get(block.fields, "fontFamily", JStr("Arial")),
                   Get(block.fields, "bold", JBool(false)),
                   Get(block.fields, "italic", JBool(false)),
                   Get(block.fields, "underline", JBool(false)),
                   Get(block.fields, "textColor", JStr("#000000")),
                   Get(block.fields, "backgroundColor", JStr("#FFFFFF")),
                   Get(block.fields, "backgroundTransparent", JBool(true))))
  }

  /** The fill of the cover rectangle: the background colour at full
      opacity when the background is not transparent, otherwise white at
      alpha 200. */
  function CoverFill(f: BlockFields): Result<Rgba> {
    if !Truthy(f.backgroundTransparent) then
      var bg :- ColorOf(f.backgroundColor);
      Ok(Opaque(bg))
    else Ok(Rgba(255, 255, 255, 200))
  }

  /** The rectangle covering the block's box with a 2-pixel margin. */
  function CoverRect(f: BlockFields, fill: Rgba): DrawOp {
    Rect(f.x - 2, f.y - 2, f.x + f.w + 2, f.y + f.h + 2, fill)
  }

  /** The underline: 2 pixels wide, one pixel below the measured text, from
      the text's x to the right edge of its box. */
  function UnderlineOp(f: BlockFields, bbox: Box, rgb: Rgb): DrawOp {
    Line(f.x, bbox.bottom + 1, bbox.right, bbox.bottom + 1, Opaque(rgb), 2)
  }

  /** The underline calls of a block whose text was drawn: none unless the
      underline is requested; a failed measurement or a rejected line is
      swallowed. */
  function UnderlineOps(f: BlockFields, rgb: Rgb, font: Font, p: Platform): seq<DrawOp> {
    if !Truthy(f.underline) then []
    else match p.textBbox(f.x, f.y, f.text, font)
      case None => []
      case Some(bbox) => if p.draws(UnderlineOp(f, bbox, rgb)) then [UnderlineOp(f, bbox, rgb)] else []
  }

  /** How a block ends: drawn to the end, or interrupted by an exception
      that the loop catches and logs. */
  datatype Outcome = Rendered | Failed(error: PyError)

  /** The calls a block leaves on the overlay, and how it ended. */
  datatype Plan = Plan(ops: seq<DrawOp>, outcome: Outcome)

  /** The body of the per-block `try` (server.py:341-395). */
  function BlockPlan(block: Json, p: Platform): Plan {
    match ParseFields(block, p)
    case Err(e) => Plan([], Failed(e))
    case Ok(f) =>
      match ResolveFont(f.fontFamily, f.fontSize, Truthy(f.bold), Truthy(f.italic), p.pathExists, p.fontLoads)
      case Err(e) => Plan([], Failed(e))
      case Ok(font) =>
        match CoverFill(f)
        case Err(e) => Plan([], Failed(e))
        case Ok(fill) => DrawPlan(f, font, fill, ColorOf(f.textColor), p)
  }

  /** The drawing part of a block once its fields, font and cover fill are
      known (server.py:361-390). `textRgb` is what `hex_to_rgb(text_color)`
      returns; it is consulted only once the rectangle is drawn, and being
      pure it does not matter when it is computed. */
  function DrawPlan(f: BlockFields, font: Font, fill: Rgba, textRgb: Result<Rgb>, p: Platform): Plan {
    if !p.draws(CoverRect(f, fill)) then Plan([], Failed(DrawError))
    else match textRgb
      case Err(e) => Plan([CoverRect(f, fill)], Failed(e))
      case Ok(rgb) =>
        var text := Text(f.x, f.y, f.text, Opaque(rgb), font);
        if !p.draws(text) then Plan([CoverRect(f, fill)], Failed(DrawError))
        else Plan([CoverRect(f, fill), text] + UnderlineOps(f, rgb, font, p), Rendered)
  }

  /** Drawing one block on the overlay: the calls of its plan are appended,
      in order, and nothing else changes. */
  method ProcessBlock(canvas: Canvas, block: Json, p: Platform) returns (outcome: Outcome)
    modifies canvas
    ensures canvas.ops == old(canvas.ops) + BlockPlan(block, p).ops
    ensures outcome == BlockPlan(block, p).outcome
  {
    var parsed := ParseFields(block, p);
    if parsed.Err? {
      return Failed(parsed.error);
    }
    var f := parsed.value;
    var font := GetFont(f.fontFamily, f.fontSize, Truthy(f.bold), Truthy(f.italic), p.pathExists, p.fontLoads);
    if font.Err? {
      return Failed(font.error);
    }

    var fill: Rgba;
    if !Truthy(f.backgroundTransparent) {
      var bgRgb := ColorOf(f.backgroundColor);
      if bgRgb.Err? {
        return Failed(bgRgb.error);
      }
      fill := Opaque(bgRgb.value);
    } else {
      fill := Rgba(255, 255, 255, 200);
    }
    outcome := DrawBlock(canvas, f, font.value, fill, ColorOf(f.textColor), p);
  }

  /** The drawing calls of one block (server.py:361-390): the cover
      rectangle, the text, and the underline whose failure is swallowed. */
  method DrawBlock(canvas: Canvas, f: BlockFields, font: Font, fill: Rgba, textRgb: Result<Rgb>, p: Platform)
    returns (outcome: Outcome)
    modifies canvas
    ensures canvas.ops == old(canvas.ops) + DrawPlan(f, font, fill, textRgb, p).ops
    ensures outcome == DrawPlan(f, font, fill, textRgb, p).outcome
  {
    var rect := Rect(f.x - 2, f.y - 2, f.x + f.w + 2, f.y + f.h + 2, fill);
    var ok := canvas.Draw(rect, p.draws);
    if !ok {
      return Failed(DrawError);
    }

    if textRgb.Err? {
      return Failed(textRgb.error);
    }
    outcome := DrawText(canvas, f, textRgb.value, font, p);
  }

  /** The text and its underline, once the text colour is known. */
  method DrawText(canvas: Canvas, f: BlockFields, rgb: Rgb, font: Font, p: Platform) returns (outcome: Outcome)
    modifies canvas
    ensures var text := Text(f.x, f.y, f.text, Opaque(rgb), font);
            && canvas.ops == old(canvas.ops) + (if p.draws(text) then [text] + UnderlineOps(f, rgb, font, p) else [])
            && outcome == if p.draws(text) then Rendered else Failed(DrawError)
  {
    var text := Text(f.x, f.y, f.text, Opaque(rgb), font);
    var ok := canvas.Draw(text, p.draws);
    if !ok {
      return Failed(DrawError);
    }
    DrawUnderline(canvas, f, rgb, font, p);
    return Rendered;
  }

  /** The underline (server.py:379-390): measured, then drawn; a failure of
      either is swallowed. */
  method DrawUnderline(canvas: Canvas, f: BlockFields, rgb: Rgb, font: Font, p: Platform)
    modifies canvas
    ensures canvas.ops == old(canvas.ops) + UnderlineOps(f, rgb, font, p)
  {
    if Truthy(f.underline) {
      var bbox := p.textBbox(f.x, f.y, f.text, font);
      if bbox.Some? {
        var underlineY := bbox.value.bottom + 1;
        var _ := canvas.Draw(Line(f.x, underlineY, bbox.value.right, underlineY, Opaque(rgb), 2), p.draws);
      }
    }
  }

  /** The calls all blocks leave on the overlay, block after block. */
  function PlanOps(blocks: seq<Json>, p: Platform): seq<DrawOp> {
    if blocks == [] then []
    else PlanOps(blocks[..|blocks| - 1], p) + BlockPlan(blocks[|blocks| - 1], p).ops
  }

  /** The response of `update_image`. */
  datatype Response =
    | BadRequest                                  // 400 'Missing required data'
    | NotFound                                    // 404 'Original image not found'
    | ServerError                                 // 500, an exception outside the block loop
    | Edited(ops: seq<DrawOp>, filename: string)  // 200, the overlay's calls and the output file name

  /** The HTTP status of a response. */
  function StatusCode(r: Response): int {
    match r
    case BadRequest => 400
    case NotFound => 404
    case ServerError => 500
    case Edited(_, _) => 200
  }

  /** `os.path.exists(image_path)`: strings are looked up on disk, integers
      and booleans are taken as file descriptors, anything else raises
      TypeError. */
  function PathProbe(path: Json, p: Platform): Result<bool> {
    match path
    case JStr(s) => Ok(p.pathExists(s))
    case JNum(n) => Ok(p.fdExists(n))
    case JBool(b) => Ok(p.fdExists(if b then 1 else 0))
    case _ => Err(TypeError)
  }

  /** What `for block in text_blocks` iterates over once `len(text_blocks)`
      has succeeded: the items of a list, the one-character strings of a
      string. A dict iterates over its keys, which are strings and so fail
      like the characters of a string; they are not listed. Numbers and
      booleans have no `len` and raise TypeError. */
  function BlockItems(textBlocks: Json): Result<seq<Json>> {
    match textBlocks
    case JArr(items) => Ok(items)
    case JStr(s) => Ok(seq(|s|, k requires 0 <= k < |s| => JStr([s[k]])))
    case JObj(_) => Ok([])
    case _ => Err(TypeError)
  }

  /** `os.path.basename(path)`: the part after the last '/'. */
  function Basename(path: string): (r: string)
    ensures |r| <= |path| && r == path[|path| - |r|..]
    ensures forall k :: 0 <= k < |r| ==> r[k] != '/'
    ensures |r| < |path| ==> path[|path| - |r| - 1] == '/'
  {
    if path == [] || path[|path| - 1] == '/' then []
    else Basename(path[..|path| - 1]) + [path[|path| - 1]]
  }

  /** `'edited_' + secure_filename(os.path.basename(image_path))`. */
  function OutputName(path: string, p: Platform): string {
    "edited_" + p.secureName(Basename(path))
  }

  /** The whole response of `update_image` for a request body. A body that
      is not a JSON object has no `get` and ends in a 500. */
  function UpdateResponse(body: Json, p: Platform): Response {
    if !body.JObj? then ServerError
    else
      var imagePath := Get(body.fields, "image_path", JNull);
      var textBlocks := Get(body.fields, "text_blocks", JNull);
      if !Truthy(imagePath) || !Truthy(textBlocks) then BadRequest
      else match PathProbe(imagePath, p)
        case Err(_) => ServerError
        case Ok(found) =>
          if !found then NotFound
          else if !imagePath.JStr? || !p.opens(imagePath.s) then ServerError
          else match BlockItems(textBlocks)
            case Err(_) => ServerError
            case Ok(items) =>
              if !p.saves(OutputName(imagePath.s, p)) then ServerError
              else Edited(PlanOps(items, p), OutputName(imagePath.s, p))
  }

  /** `update_image`: validation, then the block loop over a fresh overlay,
      then the output file. */
  method UpdateImage(body: Json, p: Platform) returns (resp: Response)
    ensures resp == UpdateResponse(body, p)
  {
    if !body.JObj? {
      return ServerError;
    }
    var imagePath := Get(body.fields, "image_path", JNull);
    var textBlocks := Get(body.fields, "text_blocks", JNull);
    if !Truthy(imagePath) || !Truthy(textBlocks) {
      return BadRequest;
    }
    var found := PathProbe(imagePath, p);
    if found.Err? {
      return ServerError;
    }
    if !found.value {
      return NotFound;
    }
    if !imagePath.JStr? || !p.opens(imagePath.s) {
      return ServerError;
    }
    var items := BlockItems(textBlocks);
    if items.Err? {
      return ServerError;
    }

    var canvas := new Canvas();
    var blocks := items.value;
    for i := 0 to |blocks|
      invariant canvas.ops == PlanOps(blocks[..i], p)
    {
      var _ := ProcessBlock(canvas, blocks[i], p);
      assert blocks[..i + 1][..i] == blocks[..i];
    }
    assert blocks[..|blocks|] == blocks;

    var outputName := "edited_" + p.secureName(Basename(imagePath.s));
    if !p.saves(outputName) {
      return ServerError;
    }
    return Edited(canvas.ops, outputName);
  }

  // ---------------------------------------------------------------------
  // Validation

  /** 400 is answered exactly when the body is an object whose
      `image_path` or `text_blocks` is missing or falsy, before any
      filesystem access. */
  lemma BadRequestIff(body: Json, p: Platform)
    ensures StatusCode(UpdateResponse(body, p)) == 400
        <==> body.JObj? && (!Truthy(Get(body.fields, "image_path", JNull)) || !Truthy(Get(body.fields, "text_blocks", JNull)))
  {
  }

  /** 404 is answered exactly when both fields are present and truthy and
      the path probe says the file does not exist: a request that is also
      malformed gets 400, never 404. */
  lemma NotFoundIff(body: Json, p: Platform)
    ensures StatusCode(UpdateResponse(body, p)) == 404
        <==> && body.JObj?
             && Truthy(Get(body.fields, "image_path", JNull))
             && Truthy(Get(body.fields, "text_blocks", JNull))
             && PathProbe(Get(body.fields, "image_path", JNull), p) == Ok(false)
  {
  }

  /** A successful edit draws the blocks of a list in order, and names the
      output after the input file. */
  lemma EditedDrawsListBlocks(body: Json, p: Platform)
    requires UpdateResponse(body, p).Edited?
    ensures body.JObj? && Get(body.fields, "image_path", JNull).JStr?
    ensures UpdateResponse(body, p).filename == OutputName(Get(body.fields, "image_path", JNull).s, p)
    ensures Get(body.fields, "text_blocks", JNull).JArr? ==>
              UpdateResponse(body, p).ops == PlanOps(Get(body.fields, "text_blocks", JNull).items, p)
  {
  }

  /** The output name is "edited_" followed by the sanitised last path
      component. */
  lemma OutputNameShape(path: string, p: Platform)
    ensures OutputName(path, p)[..7] == "edited_"
    ensures OutputName(path, p)[7..] == p.secureName(Basename(path))
  {
    var prefix, name := "edited_", p.secureName(Basename(path));
    assert |prefix| == 7;
    assert (prefix + name)[..7] == prefix;
    assert (prefix + name)[7..] == name;
  }

  // ---------------------------------------------------------------------
  // Isolation of blocks

  /** Blocks are drawn independently: the calls of a list of blocks are the
      calls of its first part followed by those of its second part. */
  lemma {:induction false} PlanOpsAppend(a: seq<Json>, b: seq<Json>, p: Platform)
    ensures PlanOps(a + b, p) == PlanOps(a, p) + PlanOps(b, p)
    decreases |b|
  {
    if b == [] {
      assert a + b == a;
    } else {
      assert (a + b)[..|a + b| - 1] == a + b[..|b| - 1];
      PlanOpsAppend(a, b[..|b| - 1], p);
    }
  }

  /** A failing block does not stop the loop: whatever surrounds it is drawn
      as if it were alone, and the failing block itself leaves at most its
      cover rectangle. */
  lemma FailedBlockIsolated(before: seq<Json>, block: Json, after: seq<Json>, p: Platform)
    requires BlockPlan(block, p).outcome.Failed?
    ensures PlanOps(before + [block] + after, p) == PlanOps(before, p) + BlockPlan(block, p).ops + PlanOps(after, p)
    ensures |BlockPlan(block, p).ops| <= 1
    ensures BlockPlan(block, p).ops != [] ==> BlockPlan(block, p).ops[0].Rect?
  {
    PlanOpsAppend(before + [block], after, p);
    PlanOpsAppend(before, [block], p);
    assert [block][..0] == [];
  }

  /** Anything that is not a dict fails at `block['x']` with TypeError and
      draws nothing; so do the characters of a string and the keys of a
      dict. */
  lemma NonObjectBlockSkipped(block: Json, p: Platform)
    requires !block.JObj?
    ensures BlockPlan(block, p) == Plan([], Failed(TypeError))
  {
  }

  /** A dict missing one of the required keys fails with KeyError and
      draws nothing, provided the keys read before the first missing one
      convert; what follows the missing key is never read. */
  lemma MissingKeySkipped(fields: map<string, Json>, p: Platform)
    requires || "x" !in fields
             || (ToInt(fields["x"]).Ok? &&
                 (|| "y" !in fields
                  || (ToInt(fields["y"]).Ok? &&
                      (|| "width" !in fields
                       || (ToInt(fields["width"]).Ok? &&
                           (|| "height" !in fields
                            || (ToInt(fields["height"]).Ok? && "text" !in fields)))))))
    ensures BlockPlan(JObj(fields), p) == Plan([], Failed(KeyError))
  {
  }

  // ---------------------------------------------------------------------
  // The calls one block makes

  /** Missing styling keys take their documented defaults. */
  lemma FieldDefaults(block: Json, p: Platform)
    requires ParseFields(block, p).Ok?
    ensures block.JObj?
    ensures var f := ParseFields(block, p).value;
            && ("fontSize" !in block.fields ==> f.fontSize == 20)
            && ("fontFamily" !in block.fields ==> f.fontFamily == JStr("Arial"))
            && ("underline" !in block.fields ==> !Truthy(f.underline))
            && ("textColor" !in block.fields ==> f.textColor == JStr("#000000"))
            && ("backgroundColor" !in block.fields ==> f.backgroundColor == JStr("#FFFFFF"))
            && ("backgroundTransparent" !in block.fields ==> Truthy(f.backgroundTransparent))
  {
  }

  /** The cover fill: the background colour at alpha 255 when transparency
      is off, white at alpha 200 otherwise; an absent flag counts as
      transparent. */
  lemma CoverFillSpec(f: BlockFields)
    ensures Truthy(f.backgroundTransparent) ==> CoverFill(f) == Ok(Rgba(255, 255, 255, 200))
    ensures !Truthy(f.backgroundTransparent) ==>
              (CoverFill(f).Ok? <==> ColorOf(f.backgroundColor).Ok?)
    ensures !Truthy(f.backgroundTransparent) && CoverFill(f).Ok? ==>
              CoverFill(f).value == Opaque(ColorOf(f.backgroundColor).value) && CoverFill(f).value.a == 255
  {
  }

  /** A block drawn to the end leaves its cover rectangle (2 pixels larger
      than its box on every side), then its text at (x, y) in the text
      colour at alpha 255, then at most the underline; the underline is
      there exactly when requested, measured and accepted, and it runs one
      pixel below the measured box, 2 pixels wide, from x to the box's
      right edge. */
  lemma RenderedShape(f: BlockFields, font: Font, fill: Rgba, textRgb: Result<Rgb>, p: Platform)
    requires DrawPlan(f, font, fill, textRgb, p).outcome == Rendered
    ensures textRgb.Ok?
    ensures var ops := DrawPlan(f, font, fill, textRgb, p).ops;
            var rgb := textRgb.value;
            && 2 <= |ops| <= 3
            && ops[0] == Rect(f.x - 2, f.y - 2, f.x + f.w + 2, f.y + f.h + 2, fill)
            && ops[1] == Text(f.x, f.y, f.text, Opaque(rgb), font)
            && ops[1].fill.a == 255
            && (|ops| == 3 <==>
                  && Truthy(f.underline)
                  && p.textBbox(f.x, f.y, f.text, font).Some?
                  && p.draws(UnderlineOp(f, p.textBbox(f.x, f.y, f.text, font).value, rgb)))
            && (|ops| == 3 ==>
                  var b := p.textBbox(f.x, f.y, f.text, font).value;
                  && ops[2] == Line(f.x, b.bottom + 1, b.right, b.bottom + 1, Opaque(rgb), 2)
                  && ops[2].y0 == ops[2].y1 > b.bottom)
  {
  }

  /** A block is drawn to the end only when its fields, its font and its
      cover fill were all obtained, and then its calls are those of the
      drawing part. */
  lemma RenderedBlock(block: Json, p: Platform)
    requires BlockPlan(block, p).outcome == Rendered
    ensures ParseFields(block, p).Ok?
    ensures var f := ParseFields(block, p).value;
            var font := ResolveFont(f.fontFamily, f.fontSize, Truthy(f.bold), Truthy(f.italic), p.pathExists, p.fontLoads);
            && font.Ok? && CoverFill(f).Ok?
            && BlockPlan(block, p) == DrawPlan(f, font.value, CoverFill(f).value, ColorOf(f.textColor), p)
  {
  }

  /** Once the fields, the font and the cover fill are obtained, the block's
      calls are those of the drawing part. */
  lemma BlockReachesDrawing(block: Json, p: Platform)
    requires ParseFields(block, p).Ok?
    requires var f := ParseFields(block, p).value;
             ResolveFont(f.fontFamily, f.fontSize, Truthy(f.bold), Truthy(f.italic), p.pathExists, p.fontLoads).Ok?
             && CoverFill(f).Ok?
    ensures var f := ParseFields(block, p).value;
            var font := ResolveFont(f.fontFamily, f.fontSize, Truthy(f.bold), Truthy(f.italic), p.pathExists, p.fontLoads);
            BlockPlan(block, p) == DrawPlan(f, font.value, CoverFill(f).value, ColorOf(f.textColor), p)
  {
  }

  /** Failure after the cover rectangle leaves the block half drawn: a text
      colour that does not parse leaves exactly the rectangle. */
  lemma BadTextColorLeavesRect(block: Json, p: Platform)
    requires ParseFields(block, p).Ok?
    requires var f := ParseFields(block, p).value;
             && ResolveFont(f.fontFamily, f.fontSize, Truthy(f.bold), Truthy(f.italic), p.pathExists, p.fontLoads).Ok?
             && CoverFill(f).Ok?
             && p.draws(CoverRect(f, CoverFill(f).value))
             && ColorOf(f.textColor).Err?
    ensures var f := ParseFields(block, p).value;
            BlockPlan(block, p) == Plan([CoverRect(f, CoverFill(f).value)], Failed(ColorOf(f.textColor).error))
  {
  }

  /** A failure before the cover rectangle (reading a field, choosing the
      font, parsing the background colour, or the rectangle itself) leaves
      nothing. */
  lemma EarlyFailureDrawsNothing(block: Json, p: Platform)
    requires
      || ParseFields(block, p).Err?
      || (var f := ParseFields(block, p).value;
          || ResolveFont(f.fontFamily, f.fontSize, Truthy(f.bold), Truthy(f.italic), p.pathExists, p.fontLoads).Err?
          || CoverFill(f).Err?
          || !p.draws(CoverRect(f, CoverFill(f).value)))
    ensures BlockPlan(block, p).ops == [] && BlockPlan(block, p).outcome.Failed?
  {
  }

  /** A failed underline measurement, or a rejected underline, is
      swallowed: the block still counts as drawn, with its rectangle and
      its text. */
  lemma UnderlineFailureSwallowed(block: Json, p: Platform)
    requires ParseFields(block, p).Ok?
    requires var f := ParseFields(block, p).value;
             && ResolveFont(f.fontFamily, f.fontSize, Truthy(f.bold), Truthy(f.italic), p.pathExists, p.fontLoads).Ok?
             && CoverFill(f).Ok? && ColorOf(f.textColor).Ok?
             && p.draws(CoverRect(f, CoverFill(f).value))
             && p.draws(Text(f.x, f.y, f.text, Opaque(ColorOf(f.textColor).value),
                             ResolveFont(f.fontFamily, f.fontSize, Truthy(f.bold), Truthy(f.italic), p.pathExists, p.fontLoads).value))
             && Truthy(f.underline)
             && p.textBbox(f.x, f.y, f.text, ResolveFont(f.fontFamily, f.fontSize, Truthy(f.bold), Truthy(f.italic), p.pathExists, p.fontLoads).value).None?
    ensures BlockPlan(block, p).outcome == Rendered && |BlockPlan(block, p).ops| == 2
  {
  }

  /** A block whose four coordinates are JSON numbers, whose text is a
      string and which gives no font size is read as those values, the
      font size 20 and its styling values with their defaults. */
  lemma NumericBlockFields(fields: map<string, Json>, x: int, y: int, w: int, h: int, text: string, p: Platform)
    requires "x" in fields && fields["x"] == JNum(x)
    requires "y" in fields && fields["y"] == JNum(y)
    requires "width" in fields && fields["width"] == JNum(w)
    requires "height" in fields && fields["height"] == JNum(h)
    requires "text" in fields && fields["text"] == JStr(text)
    requires "fontSize" !in fields
    ensures ParseFields(JObj(fields), p).Ok?
    ensures var f := ParseFields(JObj(fields), p).value;
            && f.x == x && f.y == y && f.w == w && f.h == h && f.text == text && f.fontSize == 20
            && f.fontFamily == Get(fields, "fontFamily", JStr("Arial"))
            && f.underline == Get(fields, "underline", JBool(false))
            && f.textColor == Get(fields, "textColor", JStr("#000000"))
            && f.backgroundColor == Get(fields, "backgroundColor", JStr("#FFFFFF"))
            && f.backgroundTransparent == Get(fields, "backgroundTransparent", JBool(true))
  {
    var block := JObj(fields);
    assert IntField(block, "x") == Ok(x);
    assert IntField(block, "y") == Ok(y);
    assert IntField(block, "width") == Ok(w);
    assert IntField(block, "height") == Ok(h);
    assert ToInt(JNum(20)) == Ok(20);
  }

  /** A block without underline whose text colour parses, drawn by an
      imaging library that accepts every call: exactly its cover rectangle,
      then its text in the text colour at alpha 255. */
  lemma DrawingWithoutUnderline(f: BlockFields, font: Font, fill: Rgba, rgb: Rgb, p: Platform)
    requires forall op :: p.draws(op)
    requires !Truthy(f.underline)
    ensures DrawPlan(f, font, fill, Ok(rgb), p)
         == Plan([CoverRect(f, fill), Text(f.x, f.y, f.text, Opaque(rgb), font)], Rendered)
  {
  }
}

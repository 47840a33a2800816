/** `draw_caption` in ai_worker.py: the caption is burnt into the bottom
    left corner of the image as white text with a one-pixel black outline.

    The image is a `Canvas` whose drawing calls are recorded, in order, in
    `ops`. Wrapping the caption (`textwrap.fill`) and measuring the wrapped
    text with the font are parameters; decoding and re-encoding the JPEG
    are not part of this model. */
module CaptionDrawing {

  /** Column at which `textwrap.fill` breaks the caption. */
  const WrapWidth: nat := 50

  /** Distance of the text block from the left and from the bottom edge. */
  const Margin: int := 10

  datatype Color = Black | White

  /** One `draw.multiline_text((x, y), text, fill=...)` call. */
  datatype DrawOp = MultilineText(x: int, y: int, text: string, fill: Color)

  /** An opened image: its height and the drawing calls made on it. */
  class Canvas {
    const height: int
    var ops: seq<DrawOp>

    constructor(height: int)
      ensures this.height == height && ops == []
    {
      this.height := height;
      ops := [];
    }

    /** `draw.multiline_text(...)`. */
    method MultilineText(x: int, y: int, text: string, fill: Color)
      modifies this
      ensures ops == old(ops) + [DrawOp.MultilineText(x, y, text, fill)]
    {
      ops := ops + [DrawOp.MultilineText(x, y, text, fill)];
    }
  }

  /** The five calls `draw_caption` makes for wrapped text of height `h` on
      an image of height `height`. */
  function CaptionOps(height: int, wrapped: string, h: int): seq<DrawOp> {
    var x := Margin;
    var y := height - h - Margin;
    [ DrawOp.MultilineText(x - 1, y - 1, wrapped, Black),
      DrawOp.MultilineText(x + 1, y - 1, wrapped, Black),
      DrawOp.MultilineText(x - 1, y + 1, wrapped, Black),
      DrawOp.MultilineText(x + 1, y + 1, wrapped, Black),
      DrawOp.MultilineText(x, y, wrapped, White) ]
  }

  /** `draw_caption`: wrap the caption at 50 columns, measure it, draw the
      outline and then the text. `wrap(text, width)` stands for
      `textwrap.fill` and `textHeight` for the height the font measures. */
  method DrawCaption(canvas: Canvas, caption: string, wrap: (string, nat) -> string, textHeight: string -> int)
    modifies canvas
    ensures canvas.ops == old(canvas.ops) + CaptionOps(canvas.height, wrap(caption, WrapWidth), textHeight(wrap(caption, WrapWidth)))
  {
    var wrapped := wrap(caption, WrapWidth);
    var h := textHeight(wrapped);
    var x, y := Margin, canvas.height - h - Margin;
    // black outline
    canvas.MultilineText(x - 1, y - 1, wrapped, Black);
    canvas.MultilineText(x + 1, y - 1, wrapped, Black);
    canvas.MultilineText(x - 1, y + 1, wrapped, Black);
    canvas.MultilineText(x + 1, y + 1, wrapped, Black);
    // white text
    canvas.MultilineText(x, y, wrapped, White);
  }

  function Abs(n: int): nat {
    if n < 0 then -n else n
  }

  /** The white text is drawn last, 10 pixels from the left edge, with the
      bottom of the text block 10 pixels above the bottom of the image; it
      is preceded by black copies of the same text at the four diagonal
      neighbours of its position, each neighbour once. */
  lemma CaptionPlacement(height: int, wrapped: string, h: int)
    ensures var ops := CaptionOps(height, wrapped, h);
      && |ops| == 5
      && ops[4].fill == White && ops[4].x == Margin && ops[4].y + h + Margin == height
      && (forall i :: 0 <= i < 5 ==> ops[i].text == wrapped)
      && (forall i :: 0 <= i < 4 ==>
            ops[i].fill == Black && Abs(ops[i].x - ops[4].x) == 1 && Abs(ops[i].y - ops[4].y) == 1)
      && (forall i, j :: 0 <= i < j < 4 ==> (ops[i].x, ops[i].y) != (ops[j].x, ops[j].y))
  {
  }
}

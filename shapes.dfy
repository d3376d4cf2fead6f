/**
 * The annotations the window draws: one shape per tool, each carrying the
 * geometry and the pen the event handlers give the Qt item they build
 * (qtannotator.py:104-158).
 */
module Shapes {
  import opened Geometry

  type Channel = c: int | 0 <= c < 256

  /** A QColor: valid RGBA, or the invalid colour a cancelled colour dialog returns. */
  datatype Color = Rgba(r: Channel, g: Channel, b: Channel, a: Channel) | InvalidColor
  {
    predicate IsValid() { Rgba? }
  }

  /** Qt.red, the colour selected at start-up (qtannotator.py:44). */
  const Red: Color := Rgba(255, 0, 0, 255)

  datatype PenStyle = SolidLine | DashLine

  /** A QPen; `QPen(color)` is a solid pen of width 1. */
  datatype Pen = Pen(color: Color, width: nat, style: PenStyle)

  /**
   * A QRectF built from two corners. QRectF(p1, p2) keeps p1 as its top-left
   * and p2 as its bottom-right corner even when p2 lies above or left of p1:
   * the rectangle is not normalised.
   */
  datatype Rect = Rect(topLeft: Point, bottomRight: Point)

  /**
   * The arrow head polygon. Only its tip is modelled: the two back vertices
   * come from floating-point normalisation, rounding to integers and a
   * rotation by 15 degrees, which this model does not describe.
   */
  datatype ArrowHead = ArrowHead(tip: Point)

  datatype Tool = EllipseTool | ArrowTool | GuidelineTool | RectangleTool | TextTool

  datatype Shape =
    | Ellipse(bounds: Rect, pen: Pen)
    | Arrow(line: Line, linePen: Pen, head: ArrowHead, headPen: Pen)
    | Guideline(line: Line, pen: Pen)
    | Rectangle(bounds: Rect, pen: Pen)
    | Label(pos: Point, text: string, color: Color, pixelSize: nat)

  /** The tool whose gesture produces a shape of this kind. */
  function ToolOf(s: Shape): Tool {
    match s
    case Ellipse(_, _) => EllipseTool
    case Arrow(_, _, _, _) => ArrowTool
    case Guideline(_, _) => GuidelineTool
    case Rectangle(_, _) => RectangleTool
    case Label(_, _, _, _) => TextTool
  }

  /** The colour a shape is drawn in. */
  function ColorOf(s: Shape): Color {
    match s
    case Ellipse(_, pen) => pen.color
    case Arrow(_, pen, _, _) => pen.color
    case Guideline(_, pen) => pen.color
    case Rectangle(_, pen) => pen.color
    case Label(_, _, c, _) => c
  }

  /** Every stroke of a shape uses the same colour. */
  predicate SingleColored(s: Shape) {
    s.Arrow? ==> s.linePen.color == s.headPen.color
  }

  /** The stroke width of each drawing tool's pen. */
  function StrokeWidth(t: Tool): nat
    requires t != TextTool
  {
    match t
    case EllipseTool => 3
    case ArrowTool => 3
    case GuidelineTool => 2
    case RectangleTool => 1
  }

  /** The main stroke of a drawn (non-text) shape. */
  function MainPen(s: Shape): Pen
    requires !s.Label?
  {
    match s
    case Ellipse(_, pen) => pen
    case Arrow(_, pen, _, _) => pen
    case Guideline(_, pen) => pen
    case Rectangle(_, pen) => pen
  }

  /**
   * The preview a pointer move builds for a drag from `start` to `end` with
   * `tool` active and `color` selected (qtannotator.py:124-158).
   */
  function PreviewShape(tool: Tool, start: Point, end: Point, color: Color): (s: Shape)
    requires tool != TextTool
    ensures ToolOf(s) == tool && ColorOf(s) == color && SingleColored(s)
    ensures MainPen(s).width == StrokeWidth(tool)
    ensures MainPen(s).style == (if tool == GuidelineTool then DashLine else SolidLine)
    ensures s.Ellipse? || s.Rectangle? ==> s.bounds.topLeft == start && s.bounds.bottomRight == end
    ensures s.Arrow? ==> s.line == Line(start, end) && s.head.tip == end && s.headPen == s.linePen
    ensures s.Guideline? ==> s.line.p2 == start && s.line.p1 == SnapEnd(start, end) && AxisAligned(s.line)
  {
    match tool
    case EllipseTool => Ellipse(Rect(start, end), Pen(color, 3, SolidLine))
    case ArrowTool => Arrow(Line(start, end), Pen(color, 3, SolidLine), ArrowHead(end), Pen(color, 3, SolidLine))
    case GuidelineTool => Guideline(Line(SnapEnd(start, end), start), Pen(color, 2, DashLine))
    case RectangleTool => Rectangle(Rect(start, end), Pen(color, 1, SolidLine))
  }

  /** The text label a confirmed prompt places at the press position (qtannotator.py:107-112). */
  function TextLabel(pos: Point, text: string, color: Color): (s: Shape)
    ensures ToolOf(s) == TextTool && ColorOf(s) == color
    ensures s.pos == pos && s.text == text && s.pixelSize == 30
  {
    Label(pos, text, color, 30)
  }
}

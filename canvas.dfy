/** The page the generator draws on, as the list of calls it makes on the PDF canvas.
    Coordinates are points from the bottom-left corner; they are exact reals here. */
module Canvas {

  /** One segment of a path given to `lines`. */
  datatype Segment = Segment(x1: real, y1: real, x2: real, y2: real)

  datatype DrawOp =
    | CentredText(x: real, y: real, text: string)                           // drawCentredString
    | AlignedText(x: real, y: real, text: string)                           // drawAlignedString
    | Line(x1: real, y1: real, x2: real, y2: real)                          // line
    | Lines(segments: seq<Segment>)                                         // lines
    | InlineImage(path: string, x: real, y: real, width: real, height: real) // drawInlineImage

  /** The saved document: one page of the given size and the calls drawn on it. */
  datatype Page = Page(width: real, height: real, ops: seq<DrawOp>)

  /** The US letter page size. */
  const LetterWidth: real := 612.0
  const LetterHeight: real := 792.0
}

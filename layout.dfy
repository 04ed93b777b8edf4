/** The page geometry of the generator: the padding arithmetic of `generate_pdf`,
    where `draw_text` puts each text line, the two rule lines of `draw_lines`, the
    image boxes the loop of `draw_images` produces, and the border of
    `draw_image_border`. */
module Layout {
  import opened OrderedDict
  import opened Inputs
  import opened Canvas

  const LineHeight: real := 20.0
  /** The extra gap before the line whose key is "note". */
  const NoteLeading: real := 5.0
  /** How far below its image a caption is drawn. */
  const CaptionDrop: real := 15.0

  /** Horizontal padding: the page width left over by two image columns, split in three
      equal parts (left margin, gutter, right margin). */
  function PaddingX(w: int): (p: real)
    ensures 2.0 * w as real + 3.0 * p == LetterWidth
  {
    (LetterWidth - w as real * 2.0) / 3.0
  }

  /** Vertical padding: the height below `startY` left over by two image rows, split
      in three equal parts. */
  function PaddingY(startY: real, h: int): (p: real)
    ensures 2.0 * h as real + 3.0 * p == startY
  {
    (startY - h as real * 2.0) / 3.0
  }

  /** The quantities `generate_pdf` computes before drawing. */
  datatype Grid = Grid(startY: real, px: real, py: real, w: real, h: real)

  /** `generate_pdf`'s geometry for `lines` text entries and image size `dims`:
      the image area starts one line height per entry below the top of the page. */
  function GridFor(lines: nat, dims: Dims): (g: Grid)
    ensures g.startY == LetterHeight - LineHeight * lines as real
    ensures g.w == dims.width as real && g.h == dims.height as real
    ensures 2.0 * g.w + 3.0 * g.px == LetterWidth
    ensures 2.0 * g.h + 3.0 * g.py == g.startY
  {
    var startY := LetterHeight - lines as real * LineHeight;
    Grid(startY, PaddingX(dims.width), PaddingY(startY, dims.height), dims.width as real, dims.height as real)
  }

  /** The geometry equations together with positive image sizes and non-negative
      paddings: what the layout needs to fit on the page. */
  ghost predicate Fits(g: Grid) {
    && 2.0 * g.w + 3.0 * g.px == LetterWidth
    && 2.0 * g.h + 3.0 * g.py == g.startY
    && g.w > 0.0 && g.h > 0.0
    && g.px >= 0.0 && g.py >= 0.0
  }

  /** When the page geometry fits, stated on the inputs: image width in (0, 306],
      positive image height, and two image rows no taller than what the text leaves. */
  lemma GridFitsIff(lines: nat, dims: Dims)
    ensures Fits(GridFor(lines, dims)) <==>
      0 < dims.width <= 306 && 0 < dims.height && 2 * dims.height <= 792 - 20 * lines
  {
    var g := GridFor(lines, dims);
    assert g.px >= 0.0 <==> dims.width <= 306;
    assert g.py >= 0.0 <==> 2 * dims.height <= 792 - 20 * lines;
  }

  /** An axis-aligned box: lower-left corner, width, height. */
  datatype Box = Box(x: real, y: real, w: real, h: real)

  /** The interiors of two boxes do not meet. */
  ghost predicate Disjoint(a: Box, b: Box) {
    a.x + a.w <= b.x || b.x + b.w <= a.x || a.y + a.h <= b.y || b.y + b.h <= a.y
  }

  /** The box `b` lies inside the rectangle [x0, x1] x [y0, y1]. */
  ghost predicate Inside(b: Box, x0: real, x1: real, y0: real, y1: real) {
    x0 <= b.x && b.x + b.w <= x1 && y0 <= b.y && b.y + b.h <= y1
  }

  /** The left edge of image column c: one margin, then one column width and one
      gutter per column before it. */
  function ColumnX(g: Grid, c: nat): real {
    g.px + c as real * (g.w + g.px)
  }

  /** Where the image loop puts image k (0-based): columns are filled top to bottom,
      two images per column, so image k is in column k / 2, at the top of it for
      even k and at the bottom for odd k. */
  function ImageBox(g: Grid, k: nat): Box {
    Box(ColumnX(g, k / 2), if k % 2 == 0 then g.startY - g.py - g.h else g.py, g.w, g.h)
  }

  /** The next column starts one column width and one gutter further right. */
  lemma ColumnAdvance(g: Grid, c: nat)
    ensures ColumnX(g, c + 1) == ColumnX(g, c) + g.w + g.px
  {
    assert (c + 1) as real * (g.w + g.px) == c as real * (g.w + g.px) + (g.w + g.px);
  }

  /** Moving from image k to image k + 1 changes column after every odd k. */
  lemma ImageBoxStep(g: Grid, k: nat)
    ensures ImageBox(g, k + 1).x == ImageBox(g, k).x + (if k % 2 == 1 then g.w + g.px else 0.0)
  {
    if k % 2 == 1 {
      assert (k + 1) / 2 == k / 2 + 1;
      ColumnAdvance(g, k / 2);
    } else {
      assert (k + 1) / 2 == k / 2;
    }
  }

  /** The paddings space the grid evenly: the left margin, the gutter between the
      columns and the right margin are all `px`; the bottom margin, the gap between
      the rows and the gap below `startY` are all `py`. */
  lemma GridEvenlySpaced(g: Grid)
    requires 2.0 * g.w + 3.0 * g.px == LetterWidth
    requires 2.0 * g.h + 3.0 * g.py == g.startY
    ensures ImageBox(g, 0).x == g.px
    ensures ImageBox(g, 2).x - (ImageBox(g, 0).x + g.w) == g.px
    ensures LetterWidth - (ImageBox(g, 2).x + g.w) == g.px
    ensures ImageBox(g, 1).y == g.py
    ensures ImageBox(g, 0).y - (ImageBox(g, 1).y + g.h) == g.py
    ensures g.startY - (ImageBox(g, 0).y + g.h) == g.py
  {
    ColumnAdvance(g, 0);
  }

  /** Images 1 to 4 in column-major order: top-left, bottom-left, top-right,
      bottom-right. */
  lemma ColumnMajorOrder(g: Grid)
    requires Fits(g)
    ensures ImageBox(g, 0).x == ImageBox(g, 1).x < ImageBox(g, 2).x == ImageBox(g, 3).x
    ensures ImageBox(g, 0).y == ImageBox(g, 2).y > ImageBox(g, 1).y == ImageBox(g, 3).y
  {
    ColumnAdvance(g, 0);
  }

  /** The four boxes of a page lie in [px, 612 - px] x [py, startY - py]. */
  lemma ImagesWithinPage(g: Grid, k: nat)
    requires Fits(g) && k < 4
    ensures Inside(ImageBox(g, k), g.px, LetterWidth - g.px, g.py, g.startY - g.py)
  {
    ColumnAdvance(g, 0);
    if k >= 2 {
      assert k / 2 == 1;
    } else {
      assert k / 2 == 0;
    }
  }

  /** Columns further right start at least one column width and gutter further right. */
  lemma {:induction false} ColumnsApart(g: Grid, a: nat, b: nat)
    requires a < b && g.w + g.px >= 0.0
    ensures ColumnX(g, a) + g.w + g.px <= ColumnX(g, b)
  {
    ColumnAdvance(g, b - 1);
    if a < b - 1 {
      ColumnsApart(g, a, b - 1);
    }
  }

  /** No two images overlap, however many there are. */
  lemma ImagesDisjoint(g: Grid, j: nat, k: nat)
    requires Fits(g) && j < k
    ensures Disjoint(ImageBox(g, j), ImageBox(g, k))
  {
    if j / 2 < k / 2 {
      ColumnsApart(g, j / 2, k / 2);
    } else {
      assert j / 2 == k / 2 && j % 2 == 0 && k % 2 == 1;
    }
  }

  /** `draw_image_border`: the four sides of the box with corner (x, y), width w and
      height h, drawn as one closed path: each side is horizontal or vertical and
      ends where the next begins, and the last ends where the first begins. */
  function DrawImageBorder(x: real, y: real, w: real, h: real): (border: seq<Segment>)
    ensures |border| == 4
    ensures forall i :: 0 <= i < 3 ==> border[i].x2 == border[i + 1].x1 && border[i].y2 == border[i + 1].y1
    ensures border[3].x2 == border[0].x1 && border[3].y2 == border[0].y1
    ensures forall i :: 0 <= i < 4 ==> border[i].x1 == border[i].x2 || border[i].y1 == border[i].y2
  {
    [ Segment(x, y, x + w, y),
      Segment(x + w, y, x + w, y + h),
      Segment(x + w, y + h, x, y + h),
      Segment(x, y + h, x, y) ]
  }

  /** The corners the border passes through are exactly the corners of the box. */
  lemma BorderCorners(x: real, y: real, w: real, h: real)
    ensures var border := DrawImageBorder(x, y, w, h);
      (set i | 0 <= i < 4 :: (border[i].x1, border[i].y1)) == {(x, y), (x + w, y), (x + w, y + h), (x, y + h)}
  {
    var border := DrawImageBorder(x, y, w, h);
    var corners := set i | 0 <= i < 4 :: (border[i].x1, border[i].y1);
    assert (border[0].x1, border[0].y1) in corners;
    assert (border[1].x1, border[1].y1) in corners;
    assert (border[2].x1, border[2].y1) in corners;
    assert (border[3].x1, border[3].y1) in corners;
  }

  /** `draw_lines`: two horizontal rules, `y + 15` and `y - 5`, from `px` to the
      page width less `px`. */
  function DrawLines(y: real, px: real): (ops: seq<DrawOp>)
    ensures |ops| == 2 && ops[0].Line? && ops[1].Line?
    ensures forall i :: 0 <= i < 2 ==> ops[i].y1 == ops[i].y2 && ops[i].x1 == px && ops[i].x1 + ops[i].x2 == LetterWidth
    ensures ops[0].y1 - ops[1].y1 == LineHeight
  {
    [Line(px, y + 15.0, LetterWidth - px, y + 15.0), Line(px, y - 5.0, LetterWidth - px, y - 5.0)]
  }

  /** The rules `generate_pdf` draws (at `start_y - 23`) run from the left edge of
      the first image column to the right edge of the second, 8 and 28 points below
      `start_y`. */
  lemma RulesSpanImageGrid(g: Grid)
    requires 2.0 * g.w + 3.0 * g.px == LetterWidth
    ensures var rules := DrawLines(g.startY - 23.0, g.px);
      && rules[0].y1 == g.startY - 8.0 && rules[1].y1 == g.startY - 28.0
      && rules[0].x1 == rules[1].x1 == ImageBox(g, 0).x
      && rules[0].x2 == rules[1].x2 == ImageBox(g, 2).x + g.w
  {
    ColumnAdvance(g, 0);
  }

  /** How many of the first m keys are "note". */
  function NotesAmong(keys: seq<string>, m: nat): nat
    requires m <= |keys|
  {
    if m == 0 then 0 else NotesAmong(keys, m - 1) + (if keys[m - 1] == "note" then 1 else 0)
  }

  /** In a dict, the count is 1 exactly when "note" is among the first m keys. */
  lemma {:induction false} NotesAmongDistinct(d: seq<(string, string)>, m: nat)
    requires DistinctKeys(d) && m <= |d|
    ensures NotesAmong(Keys(d), m) == if "note" in Keys(d)[..m] then 1 else 0
  {
    if m > 0 {
      NotesAmongDistinct(d, m - 1);
      assert Keys(d)[..m] == Keys(d)[..m - 1] + [Keys(d)[m - 1]];
    }
  }

  /** The baseline of text line k: below the top offset `py / 3`, one line height per
      line so far, and the note leading once the "note" line is reached. */
  function TextLineY(py: real, keys: seq<string>, k: nat): real
    requires k < |keys|
  {
    LetterHeight - py / 3.0 - LineHeight * (k + 1) as real - NoteLeading * NotesAmong(keys, k + 1) as real
  }

  /** Later text lines are lower, by at least one line height per line. */
  lemma {:induction false} TextLinesDescend(py: real, keys: seq<string>, j: nat, k: nat)
    requires j < k < |keys|
    ensures TextLineY(py, keys, k) <= TextLineY(py, keys, j) - LineHeight * (k - j) as real
  {
    if j < k - 1 {
      TextLinesDescend(py, keys, j, k - 1);
    }
    assert NotesAmong(keys, k + 1) >= NotesAmong(keys, k);
  }

  /** `ops` are the centred text lines `draw_text` draws for `lines`. */
  ghost predicate IsTextBlock(ops: seq<DrawOp>, lines: seq<(string, string)>, py: real) {
    |ops| == |lines| &&
    forall k :: 0 <= k < |lines| ==>
      ops[k] == CentredText(LetterWidth / 2.0, TextLineY(py, Keys(lines), k), lines[k].1)
  }

  /** The three calls the image loop makes for one image in box `b`: the image, its
      border, and its caption centred 15 points below it. */
  ghost predicate PlacedAt(ops: seq<DrawOp>, k: nat, entry: (string, ImageEntry), b: Box)
    requires 3 * k + 2 < |ops|
  {
    && ops[3 * k] == InlineImage(entry.0, b.x, b.y, b.w, b.h)
    && ops[3 * k + 1] == Lines(DrawImageBorder(b.x, b.y, b.w, b.h))
    && ops[3 * k + 2] == CentredText(b.x + b.w / 2.0, b.y - CaptionDrop, entry.1.caption)
  }

  /** `ops` are the calls of the image loop, every image in its grid box. */
  ghost predicate IsImageGrid(ops: seq<DrawOp>, images: ImageData, g: Grid) {
    |ops| == 3 * |images| &&
    forall k :: 0 <= k < |images| ==> PlacedAt(ops, k, images[k], ImageBox(g, k))
  }

  /** Appending the calls for image i keeps the calls for images 0 to i - 1 in place. */
  lemma PlacedExtend(ops: seq<DrawOp>, tail: seq<DrawOp>, images: ImageData, g: Grid, i: nat)
    requires |ops| == 3 * i && i < |images| && |tail| == 3
    requires forall k :: 0 <= k < i ==> PlacedAt(ops, k, images[k], ImageBox(g, k))
    requires PlacedAt(ops + tail, i, images[i], ImageBox(g, i))
    ensures forall k :: 0 <= k < i + 1 ==> PlacedAt(ops + tail, k, images[k], ImageBox(g, k))
  {
    forall k | 0 <= k < i ensures PlacedAt(ops + tail, k, images[k], ImageBox(g, k)) {
      assert PlacedAt(ops, k, images[k], ImageBox(g, k));
      assert (ops + tail)[3 * k] == ops[3 * k];
      assert (ops + tail)[3 * k + 1] == ops[3 * k + 1];
      assert (ops + tail)[3 * k + 2] == ops[3 * k + 2];
    }
  }

  /** One turn of the image loop when the image height is positive, `py` is
      non-negative and `startY` is two rows and three paddings: from the cursor left
      by images 0 to i - 1, the wrap test and the step down by the image height put
      image i in its grid box, and the step down by `py` leaves the cursor for i + 1. */
  lemma CursorStep(g: Grid, i: nat, x: real, y: real)
    requires g.h > 0.0 && g.py >= 0.0 && g.startY == 2.0 * g.h + 3.0 * g.py
    requires i == 0 ==> x == g.px && y == g.startY - g.py
    requires i > 0 ==> x == ImageBox(g, i - 1).x && y == (if i % 2 == 1 then g.h + g.py else 0.0)
    ensures var x1 := if y <= g.py then x + g.w + g.px else x;
            var y1 := if y <= g.py then g.startY - g.py else y;
      && x1 == ImageBox(g, i).x && y1 - g.h == ImageBox(g, i).y
      && y1 - g.h - g.py == (if (i + 1) % 2 == 1 then g.h + g.py else 0.0)
  {
    if i > 0 {
      ImageBoxStep(g, i - 1);
    }
  }
}

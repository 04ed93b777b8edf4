# FEMA image attachment generator: page layout model

This project models `PDFGenerator`, the component of the FEMA image attachment
generator that turns a filled-in form into a one-page letter-size PDF. It covers
both versions of the class:

- `FEMA_Attachment_Generator/models/pdf_generator.py` (module `FemaPdfGenerator`,
  with the shared geometry in `Layout`). It checks the argument types. It upper-cases
  every text value and caption, and folds the city and zip code into one
  "CITY, FL, ZIP" line. It then draws a centred text block, two horizontal rules,
  and the images two per column. Each image has a border and a caption.
- `models/pdf_generator.py` (module `DraftPdfGenerator`), the earlier version. It
  upper-cases without merging. It records a page size from the image count. It
  draws the text lines 20 points apart from the top and every image at the fixed
  point (500, 500).

The two versions share the same `validate_data`, the same upper-casing loop in
`parse_text_data`, the same `parse_image_data` and the same `resize_image`.
These are modelled once: `Inputs.ValidateData` (draft lines 69-81),
`Normalize.UpperCaseTexts` (draft lines 99-111, which is all of the draft's
`parse_text_data`), `Normalize.ParseImageData` (draft lines 126-130) and
`Inputs.ResizeImage` (draft lines 142-149).

How the model represents the source:

- A Python dict is a sequence of (key, value) pairs with distinct keys, in
  insertion order (`OrderedDict`). `d[k] = v` on a present key keeps its position
  (`Assign`), and `d.pop(k)` removes only that pair (`Pop`).
- A text value is a `str`, an entry widget (the text its `get()` returns) or any
  other type. Only the last one raises `TypeError`.
- The file system is the set `onDisk` of paths whose file opens as an image and
  resizes without error. `resize_image` gives `Resized(path, w, h)` for such a path
  and `NoImage` (Python's `None`) for a path with no file, the one failure the source
  catches.
- Canvas calls are returned as a list of draw operations, and the saved PDF is a
  `Page(612, 792, ops)`. Coordinates are exact reals.
- An exception is an `Err` value. When an image could not be opened, both
  `generate_pdf` versions fail at `image.save`. The model returns
  `Err(ImageNotLoaded(path))` for the first such image.

Behaviour of the code worth noting, all of it modelled as written:

- The city/zip merge fires only when both upper-cased values are non-empty
  (`if city and zip_code`), not merely when both keys are present.
- Images fill a column top to bottom and then move one column right, so the order
  is column-major: image 1 top-left, 2 bottom-left, 3 top-right, 4 bottom-right.
- An image that cannot be opened is not skipped: drawing it fails, and so does
  generation.
- The arguments are checked only for their types. A non-positive image size is not
  rejected.
- The image size defaults to `IMAGE_DIMENSIONS` (275 x 275 in the later version,
  250 x 250 in the draft), and both user interfaces rely on that default.

## Model

| member | source | states |
|---|---|---|
| `Inputs.ValidateData` | FEMA_Attachment_Generator/models/pdf_generator.py:68-80 | no error exactly when text data and image data are dicts and the size is a tuple; otherwise the first failing check, in source order, decides the TypeError |
| `Inputs.ResizeImage` | FEMA_Attachment_Generator/models/pdf_generator.py:149-156 | the image is None exactly when the path is not on disk; otherwise it is the file at that path at the requested size |
| `Ascii.UpperChar` | FEMA_Attachment_Generator/models/pdf_generator.py:102 | no lower-case letter is left, and the character folds to the same letter as the input |
| `Ascii.Upper` | FEMA_Attachment_Generator/models/pdf_generator.py:102 | same length; every character is upper case and case-folds to the input's character |
| `OrderedDict.Get` | FEMA_Attachment_Generator/models/pdf_generator.py:111-112 | `d.get(k, None)` is a value exactly when k is a key, and then it is the value stored with k |
| `OrderedDict.Assign` | FEMA_Attachment_Generator/models/pdf_generator.py:114 | `d[k] = v` keeps the keys and their order when k is present and appends k otherwise; k maps to v and every other key is unchanged |
| `OrderedDict.Pop` | FEMA_Attachment_Generator/models/pdf_generator.py:115 | `d.pop(k)` of a present key leaves the key order with k taken out; k is gone and every other key is unchanged |
| `OrderedDict.WithoutOnce` | FEMA_Attachment_Generator/models/pdf_generator.py:115 | removing a key from distinct keys shortens the list by one exactly when the key is present |
| `Normalize.Upcased` | FEMA_Attachment_Generator/models/pdf_generator.py:99-104 | the upper-cased text data has the same keys in the same order, and each value is the upper-cased text of the input value |
| `Normalize.UpcasedDistinct` | FEMA_Attachment_Generator/models/pdf_generator.py:99-104 | upper-casing keeps keys distinct |
| `Normalize.UpperCaseTexts` | FEMA_Attachment_Generator/models/pdf_generator.py:99-109 | the copy-and-overwrite loop returns the upper-cased dict when every value is a str or entry; otherwise it returns the TypeError carrying the type of the first other value |
| `Normalize.UpcasedCaptions` | FEMA_Attachment_Generator/models/pdf_generator.py:133-137 | the same keys in the same order, each image kept and each caption upper-cased |
| `Normalize.ParseImageData` | FEMA_Attachment_Generator/models/pdf_generator.py:133-137 | the loop's result is the caption-upper-cased dict |
| `Normalize.ResizedAll` | FEMA_Attachment_Generator/models/pdf_generator.py:158-163 | after resizing, the same keys in the same order; only element 0 of each entry is replaced, by the resized image from its path; the captions are kept |
| `Normalize.ResizedAllLoaded` | FEMA_Attachment_Generator/models/pdf_generator.py:158-163 | after resizing, every image is present exactly when every path is on disk |
| `FemaPdfGenerator.MergeCityZip` | FEMA_Attachment_Generator/models/pdf_generator.py:111-115 | when city and zip code are both non-empty: the keys keep their order without zip_code, city is "CITY, FL, ZIP", and every other key is unchanged; otherwise the dict is unchanged; keys stay distinct |
| `FemaPdfGenerator.MergeCount` | FEMA_Attachment_Generator/models/pdf_generator.py:111-115 | the merge removes exactly one entry when it fires and none otherwise |
| `FemaPdfGenerator.ExampleMerge` | FEMA_Attachment_Generator/models/pdf_generator.py:111-115 | [city TAMPA, zip_code 33601, note] becomes [city "TAMPA, FL, 33601", note] |
| `FemaPdfGenerator.ExampleNoMerge` | FEMA_Attachment_Generator/models/pdf_generator.py:113 | an empty zip code leaves the dict unchanged |
| `FemaPdfGenerator.ParseTextData` | FEMA_Attachment_Generator/models/pdf_generator.py:99-117 | the TypeError carrying the type of the first value that is neither str nor entry; otherwise the upper-cased dict with city and zip code merged |
| `FemaPdfGenerator.DefaultGridFits` | FEMA_Attachment_Generator/models/pdf_generator.py:13-20 | with the default 275 x 275 images the grid fits the page exactly when the text has at most 12 lines |
| `FemaPdfGenerator.PdfGenerator.Create` | FEMA_Attachment_Generator/models/pdf_generator.py:17-45 | the image size defaults to 275 x 275; a type error from validation comes first, then a text value type error; otherwise a new generator holding the parsed text, the caption-upper-cased and resized images, and the image size |
| `FemaPdfGenerator.PdfGenerator.ResizeImages` | FEMA_Attachment_Generator/models/pdf_generator.py:158-163 | in place, the image data becomes its resized form and nothing else changes |
| `FemaPdfGenerator.PdfGenerator.DrawText` | FEMA_Attachment_Generator/models/pdf_generator.py:186-199 | one centred string per entry, in order, at x = 306 and y = 792 - py/3 - 20(k+1) - 5 * (number of "note" keys among the first k+1) |
| `FemaPdfGenerator.PdfGenerator.DrawImages` | FEMA_Attachment_Generator/models/pdf_generator.py:214-248 | fails exactly when some image is None, naming the first one; otherwise three calls per image, and when h > 0, py >= 0 and start_y = 2h + 3py, image k is drawn in its column-major grid box with its border and its caption at (x + w/2, y - 15) |
| `FemaPdfGenerator.PdfGenerator.GeneratePdf` | FEMA_Attachment_Generator/models/pdf_generator.py:165-184 | a 612 x 792 page: the text block for py, the rules drawn at start_y - 23, and the image grid for start_y = 792 - 20n and the paddings of the size; it fails exactly when an image is None |
| `Layout.PaddingX` | FEMA_Attachment_Generator/models/pdf_generator.py:175 | 2w + 3 padding_x = 612 |
| `Layout.PaddingY` | FEMA_Attachment_Generator/models/pdf_generator.py:176 | 2h + 3 padding_y = start_y |
| `Layout.GridFor` | FEMA_Attachment_Generator/models/pdf_generator.py:172-176 | start_y = 792 - 20n for n text entries, and both padding equations hold |
| `Layout.GridFitsIff` | FEMA_Attachment_Generator/models/pdf_generator.py:172-176 | the paddings are non-negative and the sizes positive exactly when 0 < w <= 306, h > 0 and 2h <= 792 - 20n |
| `Layout.GridEvenlySpaced` | FEMA_Attachment_Generator/models/pdf_generator.py:174-176 | left margin, column gutter and right margin all equal padding_x; bottom margin, row gap and the gap under start_y all equal padding_y |
| `Layout.ColumnAdvance` | FEMA_Attachment_Generator/models/pdf_generator.py:238 | each column starts one image width and one padding right of the previous one |
| `Layout.ImageBoxStep` | FEMA_Attachment_Generator/models/pdf_generator.py:236-238 | the next image changes column after every second image and stays in the column otherwise |
| `Layout.CursorStep` | FEMA_Attachment_Generator/models/pdf_generator.py:236-248 | one turn of the image loop, from the cursor the previous images left, puts image k in its grid box and leaves the cursor for image k + 1 |
| `Layout.ColumnMajorOrder` | FEMA_Attachment_Generator/models/pdf_generator.py:233-248 | images 1-4 are top-left, bottom-left, top-right, bottom-right |
| `Layout.ImagesWithinPage` | FEMA_Attachment_Generator/models/pdf_generator.py:233-248 | each of the first four boxes lies in [px, 612 - px] x [py, start_y - py] |
| `Layout.ColumnsApart` | FEMA_Attachment_Generator/models/pdf_generator.py:238 | a later column starts at least one image width and one padding right of an earlier one |
| `Layout.ImagesDisjoint` | FEMA_Attachment_Generator/models/pdf_generator.py:233-248 | no two image boxes overlap, for any number of images |
| `Layout.DrawImageBorder` | FEMA_Attachment_Generator/models/pdf_generator.py:267-273 | four horizontal or vertical segments; each ends where the next begins, and the last ends where the first begins |
| `Layout.BorderCorners` | FEMA_Attachment_Generator/models/pdf_generator.py:267-272 | the border passes through exactly the four corners of the image box |
| `Layout.DrawLines` | FEMA_Attachment_Generator/models/pdf_generator.py:211-212 | two horizontal rules 20 points apart, from padding_x to 612 - padding_x |
| `Layout.RulesSpanImageGrid` | FEMA_Attachment_Generator/models/pdf_generator.py:179 | the rules lie 8 and 28 points below start_y and span from the left edge of the first column to the right edge of the second |
| `Layout.NotesAmongDistinct` | FEMA_Attachment_Generator/models/pdf_generator.py:195-198 | in a dict, the note leading is counted once exactly when "note" is among the first k+1 keys |
| `Layout.TextLinesDescend` | FEMA_Attachment_Generator/models/pdf_generator.py:195-199 | a later text line lies at least 20 points per line lower than an earlier one |
| `DraftPdfGenerator.CalculatePdfDimensions` | models/pdf_generator.py:163-180 | a size exactly for 1 to 4 images, otherwise None; width doubles for an even count and height doubles from three images on |
| `DraftPdfGenerator.PdfGenerator.Create` | models/pdf_generator.py:17-46 | the image size defaults to 250 x 250; validation error first, then a text value type error; otherwise the upper-cased text, the caption-upper-cased and resized images, the size, and the page size for the image count |
| `DraftPdfGenerator.PdfGenerator.ResizeImages` | models/pdf_generator.py:151-154 | in place, the image data becomes its resized form and nothing else changes |
| `DraftPdfGenerator.PdfGenerator.GeneratePdf` | models/pdf_generator.py:182-213 | a 612 x 792 page: text line k centred at (306, 772 - 20k); every image at (500, 500) with size w x h and its caption at (500, 110 + h), whatever the count; it fails exactly when an image is None |

## Left out

- The GUI (`main.py` in both trees): window and widget construction, file dialogs, message boxes, and the bookkeeping that adds and clears images keyed by entry widget.
- Logging.
- Reading and writing files. `Image.open`/`resize` are one function of path and size (`Inputs.ResizeImage`). `image.save(image_path)` overwriting the source file is not modelled. Neither are reportlab's PDF rendering, `canvas.save()` and `save_path`.
- Inputs.ResizeImage: `onDisk` stands for "opens and resizes without error". The failures `resize_image` does not catch are not modelled: an existing file that is not an image (PIL's `UnidentifiedImageError`), a directory (`IsADirectoryError`), an unreadable file (`PermissionError`), and a non-positive size (`ValueError` from `resize`). Each of these escapes from the constructor.
- Python's Unicode `str.upper`: the model upper-cases the ASCII letters only.
- Floating point: coordinates and paddings are exact reals, so Python's float results may differ in the last bits.
- `image_dimensions` is a pair of integers. A tuple of another length or with non-integer items passes `validate_data` in the source but is not modelled.
- `parse_image_data` entries are typed (image, caption text). The errors Python raises for a value that is not a pair, or a caption without `get()`, are not modelled.
- `drawAlignedString`'s alignment on a pivot character: the draft's caption call is recorded by position and text only.
- FemaPdfGenerator.PdfGenerator.DrawImages: the grid placement is proved only when the image height is positive, padding_y is non-negative and start_y = 2h + 3 padding_y. The wrap test behaves differently for other values, and that layout is not stated.
- FemaPdfGenerator.PdfGenerator.GeneratePdf: the image grid is stated only for a positive image height and a non-negative padding_y. Too many text lines for the image size make padding_y negative.
- Layout.ImagesWithinPage: stated for at most four images. From the fifth image on, the loop keeps opening columns off the right edge of the page (the boxes still do not overlap, by `Layout.ImagesDisjoint`).

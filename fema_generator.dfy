/** The page generator of FEMA_Attachment_Generator/models/pdf_generator.py: upper-cases
    the form's text and captions, merges city and zip code into one line, and lays the
    text, two rules and up to four captioned, bordered images out on a letter page. */
module FemaPdfGenerator {
  import opened OrderedDict
  import opened Ascii
  import opened Inputs
  import opened Normalize
  import opened Canvas
  import opened Layout

  /** The class constants `IMAGE_DIMENSIONS` and `STATE`. */
  const DefaultImageDimensions := Dims(275, 275)
  const State := "FL"

  /** Python truthiness of `d.get(key, None)` for a string value: present and non-empty. */
  predicate Truthy(v: Option<string>) {
    v.Some? && v.value != ""
  }

  /** The merge fires only when both the city and the zip code are non-empty. */
  predicate MergeFires(d: seq<(string, string)>) {
    Truthy(Get(d, "city")) && Truthy(Get(d, "zip_code"))
  }

  /** The merged address line "CITY, FL, ZIP". */
  function MergedCity(city: string, zip: string): string {
    city + ", " + State + ", " + zip
  }

  /** The tail of `parse_text_data`: when city and zip code are both non-empty, city
      becomes "CITY, FL, ZIP" in its own place and the zip code entry is removed;
      otherwise the dict is returned as it is. */
  function MergeCityZip(d: seq<(string, string)>): (r: seq<(string, string)>)
    requires DistinctKeys(d)
    ensures DistinctKeys(r)
    ensures MergeFires(d) ==>
      && Keys(r) == Without(Keys(d), "zip_code")
      && Get(r, "city") == Some(MergedCity(Get(d, "city").value, Get(d, "zip_code").value))
      && Get(r, "zip_code") == None
      && forall k :: k != "city" && k != "zip_code" ==> Get(r, k) == Get(d, k)
    ensures !MergeFires(d) ==> r == d
  {
    var city := Get(d, "city");
    var zip := Get(d, "zip_code");
    if Truthy(city) && Truthy(zip) then
      Pop(Assign(d, "city", MergedCity(city.value, zip.value)), "zip_code")
    else
      d
  }

  /** The merge removes exactly one entry when it fires and none otherwise, so the
      page has one text line fewer. */
  lemma MergeCount(d: seq<(string, string)>)
    requires DistinctKeys(d)
    ensures |MergeCityZip(d)| == if MergeFires(d) then |d| - 1 else |d|
  {
    if MergeFires(d) {
      var a := Assign(d, "city", MergedCity(Get(d, "city").value, Get(d, "zip_code").value));
      DistinctKeysDistinct(a);
      WithoutOnce(Keys(a), "zip_code");
      assert Keys(a) == Keys(d);
    }
  }

  /** `parse_text_data`: upper-cases every value (raising TypeError on a value that is
      neither str nor entry), then merges city and zip code. */
  method ParseTextData(d: TextData) returns (r: Result<seq<(string, string)>>)
    requires DistinctKeys(d)
    ensures AllText(d) ==> r.Ok? && DistinctKeys(Upcased(d)) && r.value == MergeCityZip(Upcased(d))
    ensures !AllText(d) ==> r == Err(TextValueNotText(d[FirstNonText(d)].1.typeName))
  {
    r := UpperCaseTexts(d);
    if r.Ok? {
      UpcasedDistinct(d);
      r := Ok(MergeCityZip(r.value));
    }
  }

  /** An example: with both city and zip code filled in, the zip code is folded into
      the city line, which keeps its place before the note. */
  lemma ExampleMerge()
    ensures var u := [("city", "TAMPA"), ("zip_code", "33601"), ("note", "* NOTE")];
      DistinctKeys(u) && MergeCityZip(u) == [("city", "TAMPA, FL, 33601"), ("note", "* NOTE")]
  {
    var u := [("city", "TAMPA"), ("zip_code", "33601"), ("note", "* NOTE")];
    assert Get(u, "city") == Some("TAMPA");
    assert Get(u, "zip_code") == Some("33601");
    assert MergedCity("TAMPA", "33601") == "TAMPA, FL, 33601";
    var a := Assign(u, "city", "TAMPA, FL, 33601");
    assert a == [("city", "TAMPA, FL, 33601"), ("zip_code", "33601"), ("note", "* NOTE")];
    assert Pop(a, "zip_code") == [("city", "TAMPA, FL, 33601"), ("note", "* NOTE")];
  }

  /** An example: an empty zip code leaves the city line and the zip code entry as
      they are. */
  lemma ExampleNoMerge()
    ensures var u := [("city", "TAMPA"), ("zip_code", "")];
      DistinctKeys(u) && MergeCityZip(u) == u
  {
    var u := [("city", "TAMPA"), ("zip_code", "")];
    assert Get(u, "zip_code") == Some("");
  }

  /** With the default image size, the image grid fits the page exactly when the
      text has at most 12 lines. The form's five fields make four lines once city and
      zip code are merged, so the grid statements of `PdfGenerator.GeneratePdf` apply
      to the form the program fills in. */
  lemma DefaultGridFits(lines: nat)
    ensures Fits(GridFor(lines, DefaultImageDimensions)) <==> lines <= 12
  {
    GridFitsIff(lines, DefaultImageDimensions);
  }

  class PdfGenerator {
    var textData: seq<(string, string)>
    var imageData: ImageData
    var imageDimensions: Dims

    constructor (textData: seq<(string, string)>, imageData: ImageData, imageDimensions: Dims)
      ensures this.textData == textData && this.imageData == imageData
      ensures this.imageDimensions == imageDimensions
    {
      this.textData := textData;
      this.imageData := imageData;
      this.imageDimensions := imageDimensions;
    }

    /** `__init__`: validates the arguments, parses the text and the images, keeps the
        image size and resizes every image from its file. */
    static method Create(text: Arg<TextData>, images: Arg<ImageData>, onDisk: set<string>,
                         dims: Arg<Dims> := Given(DefaultImageDimensions))
      returns (r: Result<PdfGenerator>)
      requires text.Given? ==> DistinctKeys(text.value)
      ensures ValidateData(text, images, dims).Some? ==> r == Err(ValidateData(text, images, dims).value)
      ensures ValidateData(text, images, dims) == None && !AllText(text.value) ==>
        r == Err(TextValueNotText(text.value[FirstNonText(text.value)].1.typeName))
      ensures r.Ok? <==> ValidateData(text, images, dims) == None && AllText(text.value)
      ensures r.Ok? ==>
        && fresh(r.value)
        && DistinctKeys(Upcased(text.value))
        && r.value.textData == MergeCityZip(Upcased(text.value))
        && r.value.imageData == ResizedAll(UpcasedCaptions(images.value), dims.value, onDisk)
        && r.value.imageDimensions == dims.value
    {
      var invalid := ValidateData(text, images, dims);
      if invalid.Some? {
        return Err(invalid.value);
      }
      var parsed := ParseTextData(text.value);
      if parsed.Err? {
        return Err(parsed.error);
      }
      var parsedImages := ParseImageData(images.value);
      var g := new PdfGenerator(parsed.value, parsedImages, dims.value);
      g.ResizeImages(onDisk);
      return Ok(g);
    }

    /** `resize_images`: replaces element 0 of every image entry, in place, by the image
        re-opened from its path and resized; keys, order and captions stay. */
    method ResizeImages(onDisk: set<string>)
      modifies this
      ensures imageData == ResizedAll(old(imageData), imageDimensions, onDisk)
      ensures textData == old(textData) && imageDimensions == old(imageDimensions)
    {
      var i := 0;
      while i < |imageData|
        invariant 0 <= i <= |imageData| == |old(imageData)|
        invariant textData == old(textData) && imageDimensions == old(imageDimensions)
        invariant forall j :: 0 <= j < |imageData| ==> imageData[j].0 == old(imageData)[j].0
        invariant forall j :: 0 <= j < i ==>
          imageData[j].1 == ImageEntry(ResizeImage(imageData[j].0, imageDimensions, onDisk), old(imageData)[j].1.caption)
        invariant forall j :: i <= j < |imageData| ==> imageData[j] == old(imageData)[j]
      {
        var (path, entry) := imageData[i];
        imageData := imageData[i := (path, entry.(image := ResizeImage(path, imageDimensions, onDisk)))];
        i := i + 1;
      }
      var spec := ResizedAll(old(imageData), imageDimensions, onDisk);
      forall j | 0 <= j < |imageData| ensures imageData[j] == spec[j] {
        assert spec[j].0 == Keys(spec)[j] == Keys(old(imageData))[j];
      }
      assert imageData == spec;
    }

    /** `draw_text`: every text value centred on the page, starting `py / 3` below the
        top, one line height apart, with the note leading before the "note" line. */
    method DrawText(py: real) returns (ops: seq<DrawOp>)
      ensures IsTextBlock(ops, textData, py)
    {
      var x := LetterWidth / 2.0;
      var y := LetterHeight - py / 3.0;
      ghost var keys := Keys(textData);
      ops := [];
      var i := 0;
      while i < |textData|
        invariant 0 <= i <= |textData|
        invariant y == LetterHeight - py / 3.0 - LineHeight * i as real - NoteLeading * NotesAmong(keys, i) as real
        invariant |ops| == i
        invariant forall k :: 0 <= k < i ==> ops[k] == CentredText(x, TextLineY(py, keys, k), textData[k].1)
      {
        var (key, text) := textData[i];
        y := y - 20.0;
        if key == "note" {
          y := y - 5.0;
        }
        assert y == TextLineY(py, keys, i);
        ops := ops + [CentredText(x, y, text)];
        i := i + 1;
      }
    }

    /** `draw_images`: for each image, wraps to the top of the next column once the
        cursor is at or below `py`, then draws the image, its border and its caption.
        Drawing an image that could not be opened fails, as `None.save` does. When the
        image height is positive, `py` is non-negative and `startY` is two image rows
        and three paddings, every image lands in its column-major grid box. */
    method DrawImages(startY: real, px: real, py: real, w: int, h: int) returns (r: Result<seq<DrawOp>>)
      ensures r.Ok? <==> AllLoaded(imageData)
      ensures !AllLoaded(imageData) ==> r == Err(ImageNotLoaded(imageData[FirstMissing(imageData)].0))
      ensures r.Ok? ==> |r.value| == 3 * |imageData|
      ensures r.Ok? && h > 0 && py >= 0.0 && startY == 2.0 * h as real + 3.0 * py ==>
        IsImageGrid(r.value, imageData, Grid(startY, px, py, w as real, h as real))
    {
      var width, height := w as real, h as real;
      ghost var g := Grid(startY, px, py, width, height);
      ghost var stacks := height > 0.0 && py >= 0.0 && startY == 2.0 * height + 3.0 * py;
      var x := px;
      var y := startY - py;
      var ops: seq<DrawOp> := [];
      var i := 0;
      while i < |imageData|
        invariant 0 <= i <= |imageData|
        invariant forall j :: 0 <= j < i ==> imageData[j].1.image != NoImage
        invariant |ops| == 3 * i
        invariant stacks && i == 0 ==> x == px && y == startY - py
        invariant stacks && i > 0 ==> x == ImageBox(g, i - 1).x && y == (if i % 2 == 1 then height + py else 0.0)
        invariant stacks ==> forall k :: 0 <= k < i ==> PlacedAt(ops, k, imageData[k], ImageBox(g, k))
      {
        var (path, entry) := imageData[i];
        if stacks {
          CursorStep(g, i, x, y);
        }
        if y <= py {
          y := startY - py;
          x := x + width + px;
        }
        if entry.image == NoImage {
          assert FirstMissing(imageData) == i;
          return Err(ImageNotLoaded(path));
        }
        y := y - height;
        var tail := [InlineImage(path, x, y, width, height),
                     Lines(DrawImageBorder(x, y, width, height)),
                     CentredText(x + width / 2.0, y - 15.0, entry.caption)];
        if stacks {
          PlacedExtend(ops, tail, imageData, g, i);
        }
        ops := ops + tail;
        y := y - py;
        i := i + 1;
      }
      return Ok(ops);
    }

    /** `generate_pdf`: a letter page holding the text block, the two rules
        (`draw_lines` at `start_y - 23`) and the image grid, where `start_y` is the
        page height less 20 points per text entry and the paddings split the space
        left by two columns and two rows in three. */
    method GeneratePdf() returns (r: Result<Page>)
      ensures r.Ok? <==> AllLoaded(imageData)
      ensures !AllLoaded(imageData) ==> r == Err(ImageNotLoaded(imageData[FirstMissing(imageData)].0))
      ensures r.Ok? ==>
        var g := GridFor(|textData|, imageDimensions);
        var n := |textData|;
        && r.value.width == LetterWidth && r.value.height == LetterHeight
        && |r.value.ops| == n + 2 + 3 * |imageData|
        && IsTextBlock(r.value.ops[..n], textData, g.py)
        && r.value.ops[n..n + 2] == DrawLines(g.startY - 23.0, g.px)
        && (imageDimensions.height > 0 && g.py >= 0.0 ==> IsImageGrid(r.value.ops[n + 2..], imageData, g))
    {
      var imageWidth, imageHeight := imageDimensions.width, imageDimensions.height;
      var startY := LetterHeight - |textData| as real * 20.0;
      var px := PaddingX(imageWidth);
      var py := PaddingY(startY, imageHeight);
      assert GridFor(|textData|, imageDimensions) == Grid(startY, px, py, imageWidth as real, imageHeight as real);
      var text := DrawText(py);
      var rules := DrawLines(startY - 23.0, px);
      var images := DrawImages(startY, px, py, imageWidth, imageHeight);
      if images.Err? {
        return Err(images.error);
      }
      var ops := text + rules + images.value;
      assert ops[..|textData|] == text;
      assert ops[|textData|..|textData| + 2] == rules;
      assert ops[|textData| + 2..] == images.value;
      return Ok(Page(LetterWidth, LetterHeight, ops));
    }
  }
}

/** The earlier page generator of models/pdf_generator.py: it upper-cases text and
    captions without merging city and zip code, records a page size from the image
    count, and draws every text line 20 points apart from the top and every image at
    one fixed point of a letter page. */
module DraftPdfGenerator {
  import opened OrderedDict
  import opened Inputs
  import opened Normalize
  import opened Canvas

  /** The class constant `IMAGE_DIMENSIONS`. */
  const DefaultImageDimensions := Dims(250, 250)

  /** `calculate_pdf_dimensions`: one to four images make a grid one or two images
      wide (two for an even count) and one or two high (two from three images on);
      any other count, zero included, falls through every branch and gives None. */
  function CalculatePdfDimensions(imageCount: nat, dims: Dims): (r: Option<Dims>)
    ensures r.Some? <==> 1 <= imageCount <= 4
    ensures r.Some? ==> r.value.width == (if imageCount % 2 == 0 then 2 else 1) * dims.width
    ensures r.Some? ==> r.value.height == (if imageCount >= 3 then 2 else 1) * dims.height
  {
    if imageCount == 1 then Some(dims)
    else if imageCount == 2 then Some(Dims(dims.width * 2, dims.height))
    else if imageCount == 3 then Some(Dims(dims.width, dims.height * 2))
    else if imageCount == 4 then Some(Dims(dims.width * 2, dims.height * 2))
    else None
  }

  /** The baseline of text line k: 20 points below the top for the first line and 20
      points lower for each line after it. */
  function DraftTextY(k: nat): real {
    LetterHeight - 20.0 - 20.0 * k as real
  }

  class PdfGenerator {
    var textData: seq<(string, string)>
    var imageData: ImageData
    var imageDimensions: Dims
    var pdfDimensions: Option<Dims>

    constructor (textData: seq<(string, string)>, imageData: ImageData, imageDimensions: Dims)
      ensures this.textData == textData && this.imageData == imageData
      ensures this.imageDimensions == imageDimensions && this.pdfDimensions == None
    {
      this.textData := textData;
      this.imageData := imageData;
      this.imageDimensions := imageDimensions;
      this.pdfDimensions := None;
    }

    /** `__init__`: validates the arguments, upper-cases the text and the captions,
        keeps the image size, resizes every image from its file and records the page
        size for the image count. */
    static method Create(text: Arg<TextData>, images: Arg<ImageData>, onDisk: set<string>,
                         dims: Arg<Dims> := Given(DefaultImageDimensions))
      returns (r: Result<PdfGenerator>)
      ensures ValidateData(text, images, dims).Some? ==> r == Err(ValidateData(text, images, dims).value)
      ensures ValidateData(text, images, dims) == None && !AllText(text.value) ==>
        r == Err(TextValueNotText(text.value[FirstNonText(text.value)].1.typeName))
      ensures r.Ok? <==> ValidateData(text, images, dims) == None && AllText(text.value)
      ensures r.Ok? ==>
        && fresh(r.value)
        && r.value.textData == Upcased(text.value)
        && r.value.imageData == ResizedAll(UpcasedCaptions(images.value), dims.value, onDisk)
        && r.value.imageDimensions == dims.value
        && r.value.pdfDimensions == CalculatePdfDimensions(|images.value|, dims.value)
    {
      var invalid := ValidateData(text, images, dims);
      if invalid.Some? {
        return Err(invalid.value);
      }
      var parsed := UpperCaseTexts(text.value);
      if parsed.Err? {
        return Err(parsed.error);
      }
      var parsedImages := ParseImageData(images.value);
      var g := new PdfGenerator(parsed.value, parsedImages, dims.value);
      g.ResizeImages(onDisk);
      assert |g.imageData| == |Keys(g.imageData)| == |images.value|;
      g.pdfDimensions := CalculatePdfDimensions(|g.imageData|, g.imageDimensions);
      return Ok(g);
    }

    /** `resize_images`: replaces element 0 of every image entry, in place, by the image
        re-opened from its path and resized; keys, order and captions stay. */
    method ResizeImages(onDisk: set<string>)
      modifies this
      ensures imageData == ResizedAll(old(imageData), imageDimensions, onDisk)
      ensures textData == old(textData) && imageDimensions == old(imageDimensions)
      ensures pdfDimensions == old(pdfDimensions)
    {
      var i := 0;
      while i < |imageData|
        invariant 0 <= i <= |imageData| == |old(imageData)|
        invariant textData == old(textData) && imageDimensions == old(imageDimensions)
        invariant pdfDimensions == old(pdfDimensions)
        invariant forall j :: 0 <= j < |imageData| ==> imageData[j].0 == old(imageData)[j].0
        invariant forall j :: 0 <= j < i ==>
          imageData[j].1 == ImageEntry(ResizeImage(imageData[j].0, imageDimensions, onDisk), old(imageData)[j].1.caption)
        invariant forall j :: i <= j < |imageData| ==> imageData[j] == old(imageData)[j]
      {
        var (path, entry) := imageData[i];
        imageData := imageData[i := (path, entry.(image := ResizeImage(path, imageDimensions, onDisk)))];
        i := i + 1;
      }
      var spec := ResizedAll(old(imageData), imageDimensions, onDisk);
      forall j | 0 <= j < |imageData| ensures imageData[j] == spec[j] {
        assert spec[j].0 == Keys(spec)[j] == Keys(old(imageData))[j];
      }
      assert imageData == spec;
    }

    /** `generate_pdf`: a letter page with every text value centred, from 20 points
        below the top and 20 points apart, then, for every image, the image at the
        fixed point (500, 500) and its caption aligned at (500, 110 + image height),
        whatever the number of images. Drawing an image that could not be opened
        fails, as `None.save` does. */
    method GeneratePdf() returns (r: Result<Page>)
      ensures r.Ok? <==> AllLoaded(imageData)
      ensures !AllLoaded(imageData) ==> r == Err(ImageNotLoaded(imageData[FirstMissing(imageData)].0))
      ensures r.Ok? ==>
        var n := |textData|;
        var w, h := imageDimensions.width as real, imageDimensions.height as real;
        && r.value.width == LetterWidth && r.value.height == LetterHeight
        && |r.value.ops| == n + 2 * |imageData|
        && (forall k :: 0 <= k < n ==>
              r.value.ops[k] == CentredText(LetterWidth / 2.0, DraftTextY(k), textData[k].1))
        && (forall k :: 0 <= k < |imageData| ==>
              && r.value.ops[n + 2 * k] == InlineImage(imageData[k].0, 500.0, 500.0, w, h)
              && r.value.ops[n + 2 * k + 1] == AlignedText(500.0, 110.0 + h, imageData[k].1.caption))
    {
      var width, height := imageDimensions.width as real, imageDimensions.height as real;
      var x := LetterWidth / 2.0;
      var y := LetterHeight - 20.0;
      var ops: seq<DrawOp> := [];
      var i := 0;
      while i < |textData|
        invariant 0 <= i <= |textData|
        invariant y == DraftTextY(i)
        invariant |ops| == i
        invariant forall k :: 0 <= k < i ==> ops[k] == CentredText(x, DraftTextY(k), textData[k].1)
      {
        var (entry, text) := textData[i];
        ops := ops + [CentredText(x, y, text)];
        y := y - 20.0;
        i := i + 1;
      }
      ghost var textOps := ops;
      var n := |textData|;
      i := 0;
      while i < |imageData|
        invariant 0 <= i <= |imageData|
        invariant forall j :: 0 <= j < i ==> imageData[j].1.image != NoImage
        invariant |ops| == n + 2 * i
        invariant ops[..n] == textOps
        invariant forall k :: 0 <= k < i ==>
          && ops[n + 2 * k] == InlineImage(imageData[k].0, 500.0, 500.0, width, height)
          && ops[n + 2 * k + 1] == AlignedText(500.0, 110.0 + height, imageData[k].1.caption)
      {
        var (path, entry) := imageData[i];
        if entry.image == NoImage {
          assert FirstMissing(imageData) == i;
          return Err(ImageNotLoaded(path));
        }
        ops := ops + [InlineImage(path, 500.0, 500.0, width, height),
                      AlignedText(500.0, 100.0 + height + 10.0, entry.caption)];
        i := i + 1;
      }
      assert forall k :: 0 <= k < n ==> ops[k] == ops[..n][k];
      return Ok(Page(LetterWidth, LetterHeight, ops));
    }
  }
}

/** Input normalisation shared by both versions of the generator: the upper-casing
    loop of `parse_text_data`, `parse_image_data`, and what `resize_images` leaves
    in the image dict. */
module Normalize {
  import opened OrderedDict
  import opened Ascii
  import opened Inputs

  predicate IsText(v: TextValue) {
    v.Str? || v.EntryText?
  }

  /** The text of a `str` value, or what an entry's `get()` returns. */
  function TextOf(v: TextValue): string
    requires IsText(v)
  {
    if v.Str? then v.s else v.contents
  }

  ghost predicate AllText(d: TextData) {
    forall i :: 0 <= i < |d| ==> IsText(d[i].1)
  }

  /** The position of the first value that is neither `str` nor entry. */
  function FirstNonText(d: TextData): (i: nat)
    requires !AllText(d)
    ensures i < |d| && !IsText(d[i].1)
    ensures forall j :: 0 <= j < i ==> IsText(d[j].1)
  {
    if !IsText(d[0].1) then 0 else 1 + FirstNonText(d[1..])
  }

  /** The text data with every value upper-cased: the same keys in the same order. */
  function Upcased(d: TextData): (r: seq<(string, string)>)
    requires AllText(d)
    ensures Keys(r) == Keys(d)
    ensures forall i :: 0 <= i < |d| ==> r[i].1 == Upper(TextOf(d[i].1))
  {
    if d == [] then []
    else
      var rest := Upcased(d[1..]);
      ConsKeys((d[0].0, Upper(TextOf(d[0].1))), rest);
      [(d[0].0, Upper(TextOf(d[0].1)))] + rest
  }

  /** Upper-casing keeps the dict invariant. */
  lemma UpcasedDistinct(d: TextData)
    requires AllText(d) && DistinctKeys(d)
    ensures DistinctKeys(Upcased(d))
  {
    var r := Upcased(d);
    forall i, j | 0 <= i < j < |r| ensures r[i].0 != r[j].0 {
      assert r[i].0 == Keys(r)[i] == Keys(d)[i] == d[i].0;
      assert r[j].0 == Keys(r)[j] == Keys(d)[j] == d[j].0;
    }
  }

  /** The loop of `parse_text_data`: copies the dict and overwrites each value with its
      upper-cased text; a value that is neither `str` nor entry raises TypeError. */
  method UpperCaseTexts(d: TextData) returns (r: Result<seq<(string, string)>>)
    ensures AllText(d) ==> r == Ok(Upcased(d))
    ensures !AllText(d) ==> r == Err(TextValueNotText(d[FirstNonText(d)].1.typeName))
  {
    var out: seq<(string, string)> := [];
    var i := 0;
    while i < |d|
      invariant 0 <= i <= |d|
      invariant forall j :: 0 <= j < i ==> IsText(d[j].1)
      invariant |out| == i
      invariant forall j :: 0 <= j < i ==> out[j] == (d[j].0, Upper(TextOf(d[j].1)))
    {
      var (key, value) := d[i];
      if value.Str? {
        out := out + [(key, Upper(value.s))];
      } else if value.EntryText? {
        out := out + [(key, Upper(value.contents))];
      } else {
        assert FirstNonText(d) == i;
        return Err(TextValueNotText(value.typeName));
      }
      i := i + 1;
    }
    var spec := Upcased(d);
    forall j | 0 <= j < |d| ensures out[j] == spec[j] {
      assert spec[j].0 == Keys(spec)[j] == Keys(d)[j];
    }
    assert out == spec;
    return Ok(out);
  }

  /** The image data with every caption upper-cased and everything else kept. */
  function UpcasedCaptions(d: ImageData): (r: ImageData)
    ensures Keys(r) == Keys(d)
    ensures forall i :: 0 <= i < |d| ==> r[i].1 == ImageEntry(d[i].1.image, Upper(d[i].1.caption))
  {
    if d == [] then []
    else
      var rest := UpcasedCaptions(d[1..]);
      var e := ImageEntry(d[0].1.image, Upper(d[0].1.caption));
      ConsKeys((d[0].0, e), rest);
      [(d[0].0, e)] + rest
  }

  /** `parse_image_data`: copies the dict and replaces each (image, entry) pair by
      the list [image, upper-cased entry text]. */
  method ParseImageData(d: ImageData) returns (r: ImageData)
    ensures r == UpcasedCaptions(d)
  {
    r := [];
    var i := 0;
    while i < |d|
      invariant 0 <= i <= |d|
      invariant |r| == i
      invariant forall j :: 0 <= j < i ==> r[j] == (d[j].0, ImageEntry(d[j].1.image, Upper(d[j].1.caption)))
    {
      var (path, entry) := d[i];
      r := r + [(path, ImageEntry(entry.image, Upper(entry.caption)))];
      i := i + 1;
    }
    var spec := UpcasedCaptions(d);
    forall j | 0 <= j < |d| ensures r[j] == spec[j] {
      assert spec[j].0 == Keys(spec)[j] == Keys(d)[j];
    }
  }

  /** What `resize_images` leaves: element 0 of every entry replaced by the image
      re-opened from the entry's path and resized; keys and captions unchanged. */
  function ResizedAll(d: ImageData, dims: Dims, onDisk: set<string>): (r: ImageData)
    ensures Keys(r) == Keys(d)
    ensures forall i :: 0 <= i < |d| ==>
      r[i].1 == ImageEntry(ResizeImage(d[i].0, dims, onDisk), d[i].1.caption)
  {
    if d == [] then []
    else
      var rest := ResizedAll(d[1..], dims, onDisk);
      var e := ImageEntry(ResizeImage(d[0].0, dims, onDisk), d[0].1.caption);
      ConsKeys((d[0].0, e), rest);
      [(d[0].0, e)] + rest
  }

  /** Every image could be opened, so drawing will not meet a None. */
  ghost predicate AllLoaded(d: ImageData) {
    forall i :: 0 <= i < |d| ==> d[i].1.image != NoImage
  }

  /** The position of the first image that could not be opened. */
  function FirstMissing(d: ImageData): (i: nat)
    requires !AllLoaded(d)
    ensures i < |d| && d[i].1.image == NoImage
    ensures forall j :: 0 <= j < i ==> d[j].1.image != NoImage
  {
    if d[0].1.image == NoImage then 0 else 1 + FirstMissing(d[1..])
  }

  /** After resizing, an image is missing exactly when its file is not on disk. */
  lemma ResizedAllLoaded(d: ImageData, dims: Dims, onDisk: set<string>)
    ensures AllLoaded(ResizedAll(d, dims, onDisk)) <==> forall i :: 0 <= i < |d| ==> d[i].0 in onDisk
  {
    var r := ResizedAll(d, dims, onDisk);
    if AllLoaded(r) {
      forall i | 0 <= i < |d| ensures d[i].0 in onDisk {
        assert r[i].1.image != NoImage;
      }
    }
  }
}

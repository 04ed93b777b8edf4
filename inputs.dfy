/** The values the page generator is given and the errors it raises. Both versions
    of the generator take the same inputs: a dict of text values, a dict from image
    path to (image, caption entry), and an (width, height) image size. */
module Inputs {
  import opened OrderedDict

  /** A text value of the form: a Python `str`, a text entry widget (represented by
      the text its `get()` returns), or a value of any other Python type. */
  datatype TextValue = Str(s: string) | EntryText(contents: string) | OtherType(typeName: string)

  /** An image as the generator holds it: the picture it was given, the picture
      re-opened from its path and resized, or Python's `None`, which `resize_image`
      returns when the file at the path cannot be found. */
  datatype Img = Photo(handle: nat) | Resized(source: string, width: int, height: int) | NoImage

  /** The `image_dimensions` pair. */
  datatype Dims = Dims(width: int, height: int)

  /** One image entry: the image and its caption (for an input entry, the text of
      the caption widget). */
  datatype ImageEntry = ImageEntry(image: Img, caption: string)

  /** A constructor argument: of the Python type the generator checks for, or not. */
  datatype Arg<T> = Given(value: T) | WrongType(typeName: string)

  datatype Error =
    | TextDataNotDict
    | ImageDataNotDict
    | DimensionsNotTuple
    | TextValueNotText(typeName: string) // the type of a text value that is neither str nor entry
    | ImageNotLoaded(path: string)    // drawing an image that `resize_image` left as None

  datatype Result<T> = Ok(value: T) | Err(error: Error)

  type TextData = seq<(string, TextValue)>
  type ImageData = seq<(string, ImageEntry)>

  /** `validate_data`: the three `isinstance` checks, in the order the source makes
      them; the first that fails decides the error. */
  function ValidateData(text: Arg<TextData>, images: Arg<ImageData>, dims: Arg<Dims>): (r: Option<Error>)
    ensures r == None <==> text.Given? && images.Given? && dims.Given?
    ensures !text.Given? ==> r == Some(TextDataNotDict)
    ensures r == Some(ImageDataNotDict) <==> text.Given? && !images.Given?
    ensures r == Some(DimensionsNotTuple) <==> text.Given? && images.Given? && !dims.Given?
  {
    if !text.Given? then Some(TextDataNotDict)
    else if !images.Given? then Some(ImageDataNotDict)
    else if !dims.Given? then Some(DimensionsNotTuple)
    else None
  }

  /** `resize_image`: opens the file at `path` and resizes it to `dims`; when there
      is no such file (the set `onDisk` stands for the file system) it returns None. */
  function ResizeImage(path: string, dims: Dims, onDisk: set<string>): (img: Img)
    ensures img != NoImage <==> path in onDisk
    ensures img != NoImage ==> img.Resized? && img.source == path && Dims(img.width, img.height) == dims
  {
    if path in onDisk then Resized(path, dims.width, dims.height) else NoImage
  }
}

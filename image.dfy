/**
 * javax.microedition.lcdui.Image: the argument checks of the image
 * factories and the `mutable` flag. Decoding and pixel storage belong to
 * CanvasImage, which is not part of this model: an image records the
 * arguments it was built from, and the outcome of decoding is a parameter.
 */
module Image {
  import opened Wrappers
  import JavaInt

  /** The exception a factory throws. */
  datatype ImageError = NullPointer | ArrayIndexOutOfBounds | NegativeArraySize | IllegalArgument | IO

  /** What an image was built from. */
  datatype Pixels =
    | Encoded(bytes: seq<int>)
    | Region(source: Pixels, x: int, y: int, w: int, h: int, transform: int)
    | Filled(w: int, h: int, argb: int)
    | Rgb(rgb: seq<int>, w: int, h: int, processAlpha: bool)

  /** The size CanvasImage decoded from some bytes; None when it rejected them (IllegalArgumentException). */
  datatype Decoded = Decoded(size: Option<(int, int)>)

  class Image {
    var width: int
    var height: int
    var mutable: bool
    var hasSiemensAlpha: bool
    var pixels: Pixels

    /** A new image is immutable and without Siemens alpha. */
    constructor (pixels: Pixels, width: int, height: int)
      ensures this.pixels == pixels && this.width == width && this.height == height
      ensures !mutable && !hasSiemensAlpha
    {
      this.pixels := pixels;
      this.width := width;
      this.height := height;
      mutable := false;
      hasSiemensAlpha := false;
    }
  }

  /**
   * The check of createImage(byte[], offset, length) as written: Java's
   * `offset + length` wraps, so a huge offset passes it; the copy that
   * follows then rejects what the check let through.
   */
  function BytesError(data: Option<seq<int>>, offset: int, length: int): (r: Option<ImageError>)
    requires JavaInt.IsInt(offset) && JavaInt.IsInt(length)
    ensures r.None? <==> data.Some? && 0 <= offset && 0 <= length && offset + length <= |data.value|
    ensures data.None? ==> r == Some(NullPointer)
  {
    if data.None? then Some(NullPointer)
    else if JavaInt.Add(offset, length) > |data.value| then Some(ArrayIndexOutOfBounds)
    else if length < 0 then Some(NegativeArraySize)
    else if offset < 0 || offset + length > |data.value| then Some(ArrayIndexOutOfBounds)
    else None
  }

  /** createImage(byte[], offset, length): decode the `length` bytes from `offset`. */
  method CreateImageFromBytes(data: Option<seq<int>>, offset: int, length: int, decoded: Decoded) returns (r: Result<Image, ImageError>)
    requires JavaInt.IsInt(offset) && JavaInt.IsInt(length)
    ensures r.Err? <==> BytesError(data, offset, length).Some? || decoded.size.None?
    ensures BytesError(data, offset, length).Some? ==> r == Err(BytesError(data, offset, length).value)
    ensures r.Ok? ==> fresh(r.value) && !r.value.mutable && r.value.pixels == Encoded(data.value[offset..offset + length])
  {
    var err := BytesError(data, offset, length);
    if err.Some? {
      return Err(err.value);
    }
    if decoded.size.None? {
      return Err(IllegalArgument);
    }
    var image := new Image(Encoded(data.value[offset..offset + length]), decoded.size.value.0, decoded.size.value.1);
    return Ok(image);
  }

  /** createImage(Image): an immutable copy. */
  method CreateImageCopy(source: Option<Image>) returns (r: Result<Image, ImageError>)
    ensures source.None? <==> r == Err(NullPointer)
    ensures r.Ok? ==> fresh(r.value) && !r.value.mutable && r.value.pixels == source.value.pixels
    ensures r.Ok? ==> r.value.width == source.value.width && r.value.height == source.value.height
  {
    if source.None? {
      return Err(NullPointer);
    }
    var image := new Image(source.value.pixels, source.value.width, source.value.height);
    return Ok(image);
  }

  /**
   * The checks of the sub-image factory: a null source, a region reaching
   * past the right or bottom edge (with Java's wrapping addition), then an
   * empty region. Nothing rejects a negative x or y.
   */
  function RegionError(source: Option<(int, int)>, x: int, y: int, width: int, height: int): (r: Option<ImageError>)
    requires JavaInt.IsInt(x) && JavaInt.IsInt(y) && JavaInt.IsInt(width) && JavaInt.IsInt(height)
    ensures source.None? ==> r == Some(NullPointer)
    ensures source.Some? && JavaInt.IsInt(x + width) && JavaInt.IsInt(y + height) ==>
              (r.None? <==> x + width <= source.value.0 && y + height <= source.value.1 && width > 0 && height > 0)
  {
    if source.None? then Some(NullPointer)
    else if JavaInt.Add(x, width) > source.value.0 || JavaInt.Add(y, height) > source.value.1 then Some(IllegalArgument)
    else if width <= 0 || height <= 0 then Some(IllegalArgument)
    else None
  }

  /** A region within the image's width and height, even one starting left of or above it, is accepted. */
  lemma RegionChecksOnlyFarEdges(imageWidth: int, imageHeight: int, x: int, y: int, width: int, height: int)
    requires JavaInt.IsInt(x) && JavaInt.IsInt(y) && JavaInt.IsInt(width) && JavaInt.IsInt(height)
    requires x < 0 && 0 < width && x + width <= imageWidth && 0 < height && y + height <= imageHeight
    ensures RegionError(Some((imageWidth, imageHeight)), x, y, width, height).None?
  {
  }

  /** createImage(Image, x, y, width, height, transform); `size` is the size CanvasImage gives the region. */
  method CreateSubImage(source: Option<Image>, x: int, y: int, width: int, height: int, transform: int, size: (int, int))
    returns (r: Result<Image, ImageError>)
    requires JavaInt.IsInt(x) && JavaInt.IsInt(y) && JavaInt.IsInt(width) && JavaInt.IsInt(height)
    ensures var dims := if source.Some? then Some((source.value.width, source.value.height)) else None;
            && (r.Err? <==> RegionError(dims, x, y, width, height).Some?)
            && (r.Err? ==> r.error == RegionError(dims, x, y, width, height).value)
    ensures r.Ok? ==> fresh(r.value) && !r.value.mutable && r.value.pixels == Region(source.value.pixels, x, y, width, height, transform)
  {
    var dims := if source.Some? then Some((source.value.width, source.value.height)) else None;
    var err := RegionError(dims, x, y, width, height);
    if err.Some? {
      return Err(err.value);
    }
    var image := new Image(Region(source.value.pixels, x, y, width, height, transform), size.0, size.1);
    return Ok(image);
  }

  /** createImage(InputStream): all the stream's bytes decoded; a decoding failure becomes an IOException. */
  method CreateImageFromStream(stream: Option<seq<int>>, decoded: Decoded) returns (r: Result<Image, ImageError>)
    ensures stream.None? ==> r == Err(NullPointer)
    ensures stream.Some? && decoded.size.None? ==> r == Err(IO)
    ensures r.Ok? <==> stream.Some? && decoded.size.Some?
    ensures r.Ok? ==> fresh(r.value) && !r.value.mutable && r.value.pixels == Encoded(stream.value)
  {
    if stream.None? {
      return Err(NullPointer);
    }
    if decoded.size.None? {
      return Err(IO);
    }
    var image := new Image(Encoded(stream.value), decoded.size.value.0, decoded.size.value.1);
    return Ok(image);
  }

  /** createImage(String): the named resource of the MIDlet (None when it is missing), read as a stream. */
  method CreateImageFromResource(name: Option<string>, resource: Option<seq<int>>, decoded: Decoded) returns (r: Result<Image, ImageError>)
    ensures name.None? ==> r == Err(NullPointer)
    ensures name.Some? && resource.None? ==> r == Err(IO)
    ensures r.Ok? <==> name.Some? && resource.Some? && decoded.size.Some?
    ensures r.Ok? ==> fresh(r.value) && !r.value.mutable && r.value.pixels == Encoded(resource.value)
  {
    if name.None? {
      return Err(NullPointer);
    }
    if resource.None? {
      return Err(IO);
    }
    r := CreateImageFromStream(resource, decoded);
  }

  /** createImage(width, height): the one factory whose image is mutable, filled white. */
  method CreateMutableImage(width: int, height: int) returns (r: Result<Image, ImageError>)
    ensures r.Err? <==> width <= 0 || height <= 0
    ensures r.Err? ==> r.error == IllegalArgument
    ensures r.Ok? ==> fresh(r.value) && r.value.mutable && r.value.pixels == Filled(width, height, 0xFF_FFFF)
    ensures r.Ok? ==> r.value.width == width && r.value.height == height
  {
    if width <= 0 || height <= 0 {
      return Err(IllegalArgument);
    }
    var image := new Image(Filled(width, height, 0xFF_FFFF), width, height);
    image.mutable := true;
    return Ok(image);
  }

  /** createARGBImage: an immutable image filled with `argb`. */
  method CreateARGBImage(width: int, height: int, argb: int) returns (r: Result<Image, ImageError>)
    ensures r.Err? <==> width <= 0 || height <= 0
    ensures r.Err? ==> r.error == IllegalArgument
    ensures r.Ok? ==> fresh(r.value) && !r.value.mutable && r.value.pixels == Filled(width, height, argb)
    ensures r.Ok? ==> r.value.width == width && r.value.height == height
  {
    if width <= 0 || height <= 0 {
      return Err(IllegalArgument);
    }
    var image := new Image(Filled(width, height, argb), width, height);
    return Ok(image);
  }

  /**
   * The checks of createRGBImage as written: `width * height` is Java's
   * wrapping product, so a large enough size passes with an array that is
   * too short.
   */
  function RgbErrorAsWritten(rgb: Option<seq<int>>, width: int, height: int): (r: Option<ImageError>)
    requires JavaInt.IsInt(width) && JavaInt.IsInt(height)
    ensures rgb.None? ==> r == Some(NullPointer)
    ensures rgb.Some? && (width <= 0 || height <= 0) ==> r == Some(IllegalArgument)
  {
    if rgb.None? then Some(NullPointer)
    else if width <= 0 || height <= 0 then Some(IllegalArgument)
    else if |rgb.value| < JavaInt.Mul(width, height) then Some(ArrayIndexOutOfBounds)
    else None
  }

  /** A 65536 x 65536 image passes the as-written checks with an empty array. */
  lemma RgbCheckOverflows()
    ensures RgbErrorAsWritten(Some([]), 0x1_0000, 0x1_0000).None?
  {
    assert 0x1_0000 * 0x1_0000 == JavaInt.TWO32;
    assert JavaInt.Mul(0x1_0000, 0x1_0000) == 0;
  }

  /** The checks of createRGBImage with the array length compared to the true pixel count. */
  function RgbError(rgb: Option<seq<int>>, width: int, height: int): (r: Option<ImageError>)
    ensures rgb.None? ==> r == Some(NullPointer)
    ensures rgb.Some? && (width <= 0 || height <= 0) ==> r == Some(IllegalArgument)
  {
    if rgb.None? then Some(NullPointer)
    else if width <= 0 || height <= 0 then Some(IllegalArgument)
    else if |rgb.value| < width * height then Some(ArrayIndexOutOfBounds)
    else None
  }

  /** An accepted array holds a pixel for every position of the image; below 2^31 pixels both checks agree. */
  lemma RgbErrorAccepts(rgb: Option<seq<int>>, width: int, height: int)
    requires JavaInt.IsInt(width) && JavaInt.IsInt(height)
    ensures RgbError(rgb, width, height).None? ==> rgb.Some? && 0 < width && 0 < height && width * height <= |rgb.value|
    ensures JavaInt.IsInt(width * height) ==> RgbError(rgb, width, height) == RgbErrorAsWritten(rgb, width, height)
  {
  }

  /**
   * createRGBImage: an immutable image from the `width * height` pixels of
   * `rgb`, behind the checks as written; below 2^31 pixels these are the
   * corrected checks, so an accepted array then holds every pixel.
   */
  method CreateRGBImage(rgb: Option<seq<int>>, width: int, height: int, processAlpha: bool) returns (r: Result<Image, ImageError>)
    requires JavaInt.IsInt(width) && JavaInt.IsInt(height)
    ensures r.Err? <==> RgbErrorAsWritten(rgb, width, height).Some?
    ensures r.Err? ==> r.error == RgbErrorAsWritten(rgb, width, height).value
    ensures JavaInt.IsInt(width * height) ==> (r.Err? <==> RgbError(rgb, width, height).Some?)
    ensures JavaInt.IsInt(width * height) && r.Ok? ==> width * height <= |rgb.value|
    ensures r.Ok? ==> fresh(r.value) && !r.value.mutable && r.value.pixels == Rgb(rgb.value, width, height, processAlpha)
  {
    RgbErrorAccepts(rgb, width, height);
    var err := RgbErrorAsWritten(rgb, width, height);
    if err.Some? {
      return Err(err.value);
    }
    var image := new Image(Rgb(rgb.value, width, height, processAlpha), width, height);
    return Ok(image);
  }
}

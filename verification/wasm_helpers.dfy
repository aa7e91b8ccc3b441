/** The byte-buffer helpers of src/js/wasm-helpers.js: pure computations over
    ArrayBuffers and the windows typed-array views have on them. */
module WasmHelpers {
  import opened Js

  /** Size of one WebAssembly memory page. */
  const PAGE_SIZE: nat := 65536

  /** An ArrayBuffer: its identity and its size in bytes (contents are passed
      separately where they are read). */
  datatype ArrayBuffer = ArrayBuffer(id: nat, byteLength: nat)

  /** The window a typed-array view has on its buffer (all views here have
      one-byte elements, so lengths are in bytes). */
  datatype View = View(buffer: ArrayBuffer, byteOffset: nat, byteLength: nat) {
    predicate Valid() { byteOffset + byteLength <= buffer.byteLength }
  }

  /** The `buffer` argument of the helpers: a raw ArrayBuffer or a view over one. */
  datatype Source = Raw(raw: ArrayBuffer) | OfView(view: View)

  /** The pixel array of an ImageData and its dimensions. */
  datatype ImageShape = ImageShape(view: View, width: nat, height: nat)

  /** The ArrayBuffer underneath a source. */
  function Underlying(src: Source): ArrayBuffer {
    match src
    case Raw(b) => b
    case OfView(v) => v.buffer
  }

  /** Where a source starts inside its ArrayBuffer. */
  function BaseOffset(src: Source): nat {
    match src
    case Raw(_) => 0
    case OfView(v) => v.byteOffset
  }

  /** A typed-array constructor `new C(buffer, byteOffset, length)` over one-byte
      elements: with no length the view runs to the end of the buffer; a window
      outside the buffer is a RangeError. */
  function NewView(buffer: ArrayBuffer, byteOffset: nat, length: Option<nat>): (r: Result<View>)
    ensures r.Ok? <==> byteOffset <= buffer.byteLength &&
                       (length.Some? ==> byteOffset + length.value <= buffer.byteLength)
    ensures r.Ok? ==> r.value.Valid() && r.value.buffer == buffer && r.value.byteOffset == byteOffset
    ensures r.Ok? && length.Some? ==> r.value.byteLength == length.value
    ensures r.Ok? && length.None? ==> r.value.byteOffset + r.value.byteLength == buffer.byteLength
    ensures r.Err? ==> r.error == RangeError
  {
    match length
    case None =>
      if byteOffset <= buffer.byteLength then Ok(View(buffer, byteOffset, buffer.byteLength - byteOffset))
      else Err(RangeError)
    case Some(n) =>
      if byteOffset + n <= buffer.byteLength then Ok(View(buffer, byteOffset, n))
      else Err(RangeError)
  }

  /** `bufferViewOf(constr, buffer, byteOffset, length)`: a view over the
      ArrayBuffer underneath `src`, with the offset flattened to an absolute one. */
  function BufferViewOf(src: Source, byteOffset: nat, length: Option<nat>): (r: Result<View>)
    ensures r.Ok? ==> r.value.buffer == Underlying(src)
    ensures r.Ok? ==> r.value.byteOffset == BaseOffset(src) + byteOffset
    ensures r.Ok? && length.Some? ==> r.value.byteLength == length.value
    ensures r.Ok? && length.None? ==> r.value.byteOffset + r.value.byteLength == Underlying(src).byteLength
    ensures r.Err? ==> r.error == RangeError
    ensures r.Ok? <==> BaseOffset(src) + byteOffset <= Underlying(src).byteLength &&
                       (length.Some? ==> BaseOffset(src) + byteOffset + length.value <= Underlying(src).byteLength)
  {
    match src
    case Raw(b) => NewView(b, byteOffset, length)
    case OfView(v) => NewView(v.buffer, byteOffset + v.byteOffset, length)
  }

  /** A view of a view is the view of its buffer at the summed offset: flattening
      loses nothing and never confines the new view to the old one's window. */
  lemma ViewOfViewIsFlat(v: View, byteOffset: nat, length: Option<nat>)
    ensures BufferViewOf(OfView(v), byteOffset, length) ==
            BufferViewOf(Raw(v.buffer), v.byteOffset + byteOffset, length)
  {
  }

  /** Flattening composes: viewing at `b` a view that was itself made at `a`
      is viewing the original source at `a + b`. */
  lemma {:induction false} FlatteningComposes(src: Source, a: nat, n: nat, b: nat, length: Option<nat>)
    requires BufferViewOf(src, a, Some(n)).Ok?
    ensures BufferViewOf(OfView(BufferViewOf(src, a, Some(n)).value), b, length) ==
            BufferViewOf(Raw(Underlying(src)), BaseOffset(src) + a + b, length)
  {
    var v := BufferViewOf(src, a, Some(n)).value;
    ViewOfViewIsFlat(v, b, length);
  }

  /** `imageDataLength(width, height)`: four bytes (RGBA) per pixel. */
  function ImageDataLength(width: nat, height: nat): (r: nat)
    ensures r % 4 == 0 && r / 4 == width * height
    ensures r == 0 <==> width == 0 || height == 0
  {
    width * height * 4
  }

  /** `imageDataFrom(buffer, offset, width, height)`: a width x height image
      whose pixel array covers exactly ImageDataLength(width, height) bytes at
      the flattened offset. The ImageData constructor rejects an empty pixel
      array, so a zero width or height throws. */
  function ImageDataFrom(src: Source, offset: nat, width: nat, height: nat): (r: Result<ImageShape>)
    ensures r.Ok? <==> width > 0 && height > 0 &&
                       BaseOffset(src) + offset + ImageDataLength(width, height) <= Underlying(src).byteLength
    ensures r.Ok? ==> r.value.view == View(Underlying(src), BaseOffset(src) + offset, ImageDataLength(width, height))
    ensures r.Ok? ==> r.value.view.Valid() && r.value.width == width && r.value.height == height
  {
    var length := ImageDataLength(width, height);
    match BufferViewOf(src, offset, Some(length))
    case Err(e) => Err(e)
    case Ok(view) =>
      if length == 0 then Err(InvalidStateError)
      else Ok(ImageShape(view, width, height))
  }

  /** `view.indexOf(0)`: the position of the first zero byte, or -1. */
  function IndexOfZero(s: seq<byte>): (r: int)
    ensures -1 <= r < |s|
    ensures r == -1 <==> forall i :: 0 <= i < |s| ==> s[i] != 0
    ensures r >= 0 ==> s[r] == 0 && forall i :: 0 <= i < r ==> s[i] != 0
  {
    if s == [] then -1
    else if s[0] == 0 then 0
    else
      var k := IndexOfZero(s[1..]);
      if k == -1 then -1 else k + 1
  }

  const CSTRING_ERROR := "could not read a cstring"

  /** `readCStringFrom(buffer, offset)` exactly as written: the zero byte is
      searched from the flattened offset, but the bytes returned are taken from
      the UNflattened `offset` of the underlying buffer. `contents` are the bytes
      of that buffer. */
  function ReadCStringFromAsWritten(src: Source, offset: nat, contents: seq<byte>): (r: Result<seq<byte>>)
    requires |contents| == Underlying(src).byteLength
    ensures r.Ok? <==> ReadCStringFrom(src, offset, contents).Ok?
    ensures r.Ok? ==> |r.value| == |ReadCStringFrom(src, offset, contents).value|
    ensures r.Ok? ==> r.value == contents[offset..offset + |r.value|]
  {
    match BufferViewOf(src, offset, None)
    case Err(e) => Err(e)
    case Ok(view) =>
      var blen := IndexOfZero(contents[view.byteOffset..]);
      if blen < 0 then Err(PlainError(CSTRING_ERROR))
      else match NewView(view.buffer, offset, Some(blen))
        case Err(e) => Err(e)
        case Ok(str) => Ok(contents[str.byteOffset..str.byteOffset + str.byteLength])
  }

  /** `readCStringFrom` as evidently intended: the bytes from the flattened
      offset up to, not including, the first zero byte; an error when the
      buffer holds no zero byte from there on. */
  function ReadCStringFrom(src: Source, offset: nat, contents: seq<byte>): (r: Result<seq<byte>>)
    requires |contents| == Underlying(src).byteLength
    ensures r.Err? <==> BaseOffset(src) + offset > |contents| ||
                        forall i :: BaseOffset(src) + offset <= i < |contents| ==> contents[i] != 0
    ensures r.Err? && BaseOffset(src) + offset <= |contents| ==> r.error == PlainError(CSTRING_ERROR)
    ensures r.Ok? ==> (forall i :: 0 <= i < |r.value| ==> r.value[i] != 0) &&
                      BaseOffset(src) + offset + |r.value| < |contents| &&
                      contents[BaseOffset(src) + offset..BaseOffset(src) + offset + |r.value|] == r.value &&
                      contents[BaseOffset(src) + offset + |r.value|] == 0
  {
    match BufferViewOf(src, offset, None)
    case Err(e) => Err(e)
    case Ok(view) =>
      var tail := contents[view.byteOffset..];
      var blen := IndexOfZero(tail);
      if blen < 0 then
        assert forall i :: view.byteOffset <= i < |contents| ==> contents[i] == tail[i - view.byteOffset];
        Err(PlainError(CSTRING_ERROR))
      else
        assert forall i :: 0 <= i < blen ==> tail[i] == contents[view.byteOffset + i];
        Ok(contents[view.byteOffset..view.byteOffset + blen])
  }

  /** For a raw buffer, or a view starting at byte 0 of its buffer, the code as
      written returns the intended string. */
  lemma ReadCStringAgreesWithoutViewOffset(src: Source, offset: nat, contents: seq<byte>)
    requires |contents| == Underlying(src).byteLength
    requires BaseOffset(src) == 0
    ensures ReadCStringFromAsWritten(src, offset, contents) == ReadCStringFrom(src, offset, contents)
  {
  }

  /** A view at byte 3 of a buffer holding "ab\0cd\0": reading the string at
      offset 0 of the view should give "cd", but the code as written returns
      "ab", the bytes at offset 0 of the buffer. */
  lemma ReadCStringMisreadsViewWithOffset()
    ensures var buf := ArrayBuffer(0, 6);
            var contents: seq<byte> := [97, 98, 0, 99, 100, 0];
            var src := OfView(View(buf, 3, 3));
            ReadCStringFrom(src, 0, contents) == Ok([99, 100]) &&
            ReadCStringFromAsWritten(src, 0, contents) == Ok([97, 98])
  {
    var contents: seq<byte> := [97, 98, 0, 99, 100, 0];
    var src := OfView(View(ArrayBuffer(0, 6), 3, 3));
    var tail := contents[3..];
    assert tail == [99, 100, 0];
    assert tail[1..] == [100, 0] && tail[1..][1..] == [0];
    assert IndexOfZero(tail[1..][1..]) == 0;
    assert IndexOfZero(tail[1..]) == 1;
    assert IndexOfZero(tail) == 2;
    assert BufferViewOf(src, 0, None) == Ok(View(ArrayBuffer(0, 6), 3, 3));
    assert contents[3..5] == [99, 100];
    assert contents[0..2] == [97, 98];
  }
}

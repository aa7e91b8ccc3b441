/** The render worker of worker.js: one reusable pixel buffer in the worker's
    own module memory, reshaped in place when a request fits and released and
    reallocated when it does not; the message handler that renders a tile into
    it and posts a copy; and the one "ready" message. */
module Worker {
  import opened Js
  import opened WasmHelpers
  import opened WasmModule

  /** A message the worker posts to the coordinator. */
  datatype Outgoing = ReadyMessage | Bitmap(pixels: seq<byte>, width: nat, height: nat)

  /** The state of one worker: the module-level variables `data` and
      `imageData`, whether `onmessage` is installed, and what it has posted. */
  class RenderWorker {
    /** The worker's own instance of the compiled module. */
    const wasm: Instance
    /** `data`: the allocated pixel array, undefined (null) before the first request. */
    var data: TypedArray?
    /** `imageData`: the current image, a window at the start of `data`. */
    var imageData: Option<ImageData>
    /** Whether `onmessage` has been installed. */
    var installed: bool
    /** The messages posted to the coordinator, in order. */
    var outbox: seq<Outgoing>

    /** The buffer invariants: at most one live allocation, which is `data`;
        the image is a window at the start of it that fits inside it; and the
        outbox starts with the one "ready" message, followed only by bitmaps. */
    ghost predicate Valid()
      reads this, wasm
    {
      wasm.Valid() &&
      (data == null <==> imageData.None?) &&
      (data == null ==> wasm.allocCache == {}) &&
      (data != null ==>
        wasm.allocCache <= {data} &&
        data.view.buffer == wasm.memory && data.view.Valid() &&
        var img := imageData.value;
        img.width > 0 && img.height > 0 &&
        img.data.view == View(wasm.memory, data.view.byteOffset, ImageDataLength(img.width, img.height)) &&
        ImageDataLength(img.width, img.height) <= data.view.byteLength) &&
      (installed <==> outbox != []) &&
      (outbox != [] ==> outbox[0] == ReadyMessage) &&
      (forall i :: 1 <= i < |outbox| ==> outbox[i].Bitmap?)
    }

    /** A worker whose module has been instantiated and has allocated nothing. */
    constructor (wasm: Instance)
      requires wasm.Valid() && wasm.allocCache == {}
      ensures Valid() && this.wasm == wasm
      ensures data == null && !installed && outbox == []
    {
      this.wasm := wasm;
      data := null;
      imageData := None;
      installed := false;
      outbox := [];
    }

    /** Once the module is instantiated: install `onmessage`, then post "ready". */
    method Start()
      requires Valid() && !installed
      modifies this
      ensures Valid() && installed && outbox == [ReadyMessage]
      ensures data == old(data) && imageData == old(imageData)
    {
      installed := true;
      outbox := outbox + [ReadyMessage];
    }

    /** `ensureImageData(width, height)`. `ptr` is the pointer the allocator
        would return if asked; it is used only when the buffer is (re)allocated. */
    method EnsureImageData(width: nat, height: nat, ptr: nat) returns (r: Result<ImageData>)
      requires Valid()
      modifies this, wasm
      ensures Valid()
      ensures installed == old(installed) && outbox == old(outbox) && wasm.contents == old(wasm.contents)
      // the returned image has the requested dimensions and becomes the current one
      ensures r.Ok? ==> imageData == Some(r.value) && r.value.width == width && r.value.height == height
      ensures r.Err? ==> data == old(data) && imageData == old(imageData)
      // the byte length of the buffer never decreases
      ensures old(data) != null && data != null ==> old(data.view.byteLength) <= data.view.byteLength
      // first call: a fresh buffer of exactly width * height * 4 bytes
      ensures old(data) == null ==>
        wasm.calls == old(wasm.calls) + [AllocImageData(width, height)] &&
        (r.Ok? <==> ImageDataFrom(Raw(wasm.memory), ptr, width, height).Ok?) &&
        (r.Ok? ==> fresh(data) && data == r.value.data && wasm.allocCache == {data} &&
                   data.view == View(wasm.memory, ptr, ImageDataLength(width, height)))
      // same dimensions: the same image, nothing allocated or disposed
      ensures old(data) != null && old(imageData).value.width == width && old(imageData).value.height == height ==>
        r == Ok(old(imageData).value) && data == old(data) &&
        wasm.allocCache == old(wasm.allocCache) && wasm.calls == old(wasm.calls)
      // other dimensions that fit: the same region reshaped, nothing allocated or disposed
      ensures old(data) != null && (old(imageData).value.width != width || old(imageData).value.height != height) &&
              ImageDataLength(width, height) <= old(data.view.byteLength) ==>
        data == old(data) && wasm.allocCache == old(wasm.allocCache) && wasm.calls == old(wasm.calls) &&
        (r.Ok? <==> width > 0 && height > 0) &&
        (r.Ok? ==> fresh(r.value.data) &&
                   r.value.data.view == View(wasm.memory, data.view.byteOffset, ImageDataLength(width, height)))
      // other dimensions that do not fit: the old buffer is disposed, then a new one allocated
      ensures old(data) != null && ImageDataLength(width, height) > old(data.view.byteLength) ==>
        wasm.calls == old(wasm.calls) + Dispose(wasm.memory, old(wasm.allocCache), ViewValue(old(data))).called
                                          + [AllocImageData(width, height)] &&
        (r.Ok? <==> ImageDataFrom(Raw(wasm.memory), ptr, width, height).Ok?) &&
        (r.Ok? ==> fresh(data) && data == r.value.data && wasm.allocCache == {data} &&
                   data.view == View(wasm.memory, ptr, ImageDataLength(width, height))) &&
        // a failed reallocation leaves nothing registered, while `data` still
        // points at the block that was just released
        (r.Err? ==> wasm.allocCache == {})
    {
      if data == null {
        var created := wasm.CreateImageData(width, height, ptr);
        if created.Err? {
          return Err(created.error);
        }
        imageData := Some(created.value);
        data := created.value.data;
      }
      var current := imageData.value;
      if current.width != width || current.height != height {
        var byteLength := ImageDataLength(width, height);
        if byteLength <= data.view.byteLength {
          // reuse the buffer: a new image over the same region
          match ImageDataFrom(Raw(data.view.buffer), data.view.byteOffset, width, height)
          case Err(e) =>
            return Err(e);
          case Ok(shape) =>
            var pixels := new TypedArray(shape.view);
            imageData := Some(ImageData(pixels, width, height));
        } else {
          // allocate new memory
          var disposed := wasm.DisposeDataView(ViewValue(data));
          assert disposed.Ok?;
          var created := wasm.CreateImageData(width, height, ptr);
          if created.Err? {
            return Err(created.error);
          }
          imageData := Some(created.value);
          data := created.value.data;
        }
      }
      r := Ok(imageData.value);
    }

    /** `onMessage` for a tile request of width x height pixels. `pixels` are
        the bytes the compute kernel writes for it (the kernel is not modelled).
        The pixels are copied out of module memory before the bitmap is built
        and posted, so the posted bitmap is exactly this request's output,
        whatever later requests do to the buffer. A zero-area request makes
        the ImageData constructor throw: nothing is posted for it. */
    method OnMessage(width: nat, height: nat, ptr: nat, pixels: seq<byte>) returns (posted: bool)
      requires Valid() && installed
      requires |pixels| == ImageDataLength(width, height)
      modifies this, wasm
      ensures Valid() && installed
      ensures posted ==> outbox == old(outbox) + [Bitmap(pixels, width, height)]
      ensures !posted ==> outbox == old(outbox)
      ensures width == 0 || height == 0 ==> !posted
      // a posted request leaves an image of its dimensions whose window in
      // module memory holds its pixels, and nothing else in memory changed
      ensures posted ==>
        imageData.Some? && imageData.value.width == width && imageData.value.height == height &&
        var off := imageData.value.data.view.byteOffset;
        imageData.value.data.view.byteLength == |pixels| &&
        off + |pixels| <= |old(wasm.contents)| &&
        wasm.contents == old(wasm.contents)[..off] + pixels + old(wasm.contents)[off + |pixels|..]
      // a request that throws changes neither the buffer nor module memory
      ensures !posted ==> data == old(data) && imageData == old(imageData) && wasm.contents == old(wasm.contents)
      // first call: a fresh buffer of exactly width * height * 4 bytes
      ensures old(data) == null ==>
        wasm.calls == old(wasm.calls) + [AllocImageData(width, height)] &&
        (posted <==> ImageDataFrom(Raw(wasm.memory), ptr, width, height).Ok?) &&
        (posted ==> fresh(data) && wasm.allocCache == {data} &&
                    data.view == View(wasm.memory, ptr, ImageDataLength(width, height)))
      // same dimensions: posted into the same image, nothing allocated or disposed
      ensures old(data) != null && old(imageData).value.width == width && old(imageData).value.height == height ==>
        posted && imageData == old(imageData) && data == old(data) &&
        wasm.allocCache == old(wasm.allocCache) && wasm.calls == old(wasm.calls)
      // other dimensions that fit: the same region reshaped, nothing allocated or disposed
      ensures old(data) != null && ImageDataLength(width, height) <= old(data.view.byteLength) ==>
        data == old(data) && wasm.allocCache == old(wasm.allocCache) && wasm.calls == old(wasm.calls) &&
        (posted <==> width > 0 && height > 0) &&
        (posted ==> imageData.value.data.view.byteOffset == data.view.byteOffset)
      // other dimensions that do not fit: the old buffer is disposed, then a new one allocated
      ensures old(data) != null && ImageDataLength(width, height) > old(data.view.byteLength) ==>
        wasm.calls == old(wasm.calls) + Dispose(wasm.memory, old(wasm.allocCache), ViewValue(old(data))).called
                                          + [AllocImageData(width, height)] &&
        (posted <==> ImageDataFrom(Raw(wasm.memory), ptr, width, height).Ok?) &&
        (posted ==> fresh(data) && wasm.allocCache == {data} &&
                    data.view == View(wasm.memory, ptr, ImageDataLength(width, height))) &&
        // the request throws after the old buffer was released: nothing stays registered
        (!posted ==> wasm.allocCache == {})
    {
      var r := EnsureImageData(width, height, ptr);
      if r.Err? {
        // the exception escapes the handler
        return false;
      }
      var view := r.value.data.view;
      var off, len := view.byteOffset, view.byteLength;
      // Module.fractx renders the tile into the buffer
      wasm.contents := wasm.contents[..off] + pixels + wasm.contents[off + len..];
      // imageData.data.slice(): a copy that later requests cannot touch
      var copy := wasm.contents[off..off + len];
      assert copy == pixels;
      outbox := outbox + [Bitmap(copy, width, height)];
      posted := true;
    }
  }
}

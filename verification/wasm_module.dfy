/** The allocation registry of src/js/module.js: the `Module` object a
    WebAssembly instance is wrapped in, which hands out ImageData objects over
    module memory and keeps the set `allocCache` of the pixel arrays it
    allocated, so that each is released to the module's allocator at most once. */
module WasmModule {
  import opened Js
  import opened WasmHelpers

  /** A typed-array object. Its identity is the object's: two arrays with the
      same window are still different objects. */
  class TypedArray {
    const view: View

    constructor (view: View)
      ensures this.view == view
    {
      this.view := view;
    }
  }

  /** An ImageData object: a pixel array and its dimensions. */
  datatype ImageData = ImageData(data: TypedArray, width: nat, height: nat)

  /** Any JavaScript value handed to `disposeDataView`. */
  datatype Value = ViewValue(arr: TypedArray) | OtherValue

  /** A call from JavaScript into the compiled module's allocator. */
  datatype ForeignCall = AllocImageData(width: nat, height: nat) | DisposeMemory(ptr: nat, length: nat)

  const NOT_A_VIEW := "disposeDataView: view is not a view over ArrayBuffer"
  const NOT_MODULE_MEMORY := "disposeDataView: memory was not allocated for module"

  /** What one `disposeDataView(value)` does: the registry afterwards, the
      calls it makes into the allocator, and what it returns or throws. */
  datatype Disposal = Disposal(cache: set<TypedArray>, called: seq<ForeignCall>, result: Result<()>)

  /** `disposeDataView(value)` against a registry `cache` over module memory `memory`:
      a non-view is a TypeError, a view over another buffer an Error, and a
      registered view is removed and its bytes released exactly once; any other
      view is left alone. */
  function Dispose(memory: ArrayBuffer, cache: set<TypedArray>, value: Value): (d: Disposal)
    ensures value.OtherValue? ==> d == Disposal(cache, [], Err(TypeError(NOT_A_VIEW)))
    ensures value.ViewValue? && value.arr.view.buffer != memory ==>
              d == Disposal(cache, [], Err(PlainError(NOT_MODULE_MEMORY)))
    ensures d.result.Ok? <==> value.ViewValue? && value.arr.view.buffer == memory
    ensures d.result.Ok? ==> d.cache == cache - {value.arr}
    ensures d.result.Ok? && value.arr in cache ==>
              d.called == [DisposeMemory(value.arr.view.byteOffset, value.arr.view.byteLength)]
    ensures d.result.Ok? && value.arr !in cache ==> d.called == [] && d.cache == cache
  {
    match value
    case OtherValue => Disposal(cache, [], Err(TypeError(NOT_A_VIEW)))
    case ViewValue(a) =>
      if a.view.buffer != memory then Disposal(cache, [], Err(PlainError(NOT_MODULE_MEMORY)))
      else if a in cache then Disposal(cache - {a}, [DisposeMemory(a.view.byteOffset, a.view.byteLength)], Ok(()))
      else Disposal(cache, [], Ok(()))
  }

  /** Disposal is idempotent: disposing the same value again changes nothing,
      calls nothing and returns what the first call returned. */
  lemma {:induction false} DisposeIdempotent(memory: ArrayBuffer, cache: set<TypedArray>, value: Value)
    ensures var d := Dispose(memory, cache, value);
            Dispose(memory, d.cache, value) == Disposal(d.cache, [], d.result)
  {
    var d := Dispose(memory, cache, value);
    match value
    case OtherValue =>
    case ViewValue(a) =>
      if a.view.buffer == memory {
        assert a !in d.cache;
      }
  }

  /** Disposing a view never releases any other registered view. */
  lemma DisposeKeepsOthers(memory: ArrayBuffer, cache: set<TypedArray>, value: Value, other: TypedArray)
    requires other in cache && (value.OtherValue? || value.arr != other)
    ensures other in Dispose(memory, cache, value).cache
  {
  }

  /** The Module object of one WebAssembly instance. */
  class Instance {
    /** `memory.buffer`: the instance's linear memory. */
    const memory: ArrayBuffer
    /** The bytes of that memory. */
    var contents: seq<byte>
    /** `allocCache`: the pixel arrays allocated and not yet disposed. */
    var allocCache: set<TypedArray>
    /** Every call made into the module's allocator, in order. */
    ghost var calls: seq<ForeignCall>

    /** Every registered array is a window inside module memory. */
    ghost predicate Valid()
      reads this
    {
      |contents| == memory.byteLength &&
      forall a :: a in allocCache ==> a.view.buffer == memory && a.view.Valid()
    }

    constructor (memory: ArrayBuffer, contents: seq<byte>)
      requires |contents| == memory.byteLength
      ensures Valid() && this.memory == memory && this.contents == contents
      ensures allocCache == {} && calls == []
    {
      this.memory := memory;
      this.contents := contents;
      allocCache := {};
      calls := [];
    }

    /** `createImageData(w, h)`: asks the allocator for room for w x h pixels
        (`ptr` is the pointer `alloc_image_data` returns), wraps an ImageData
        around those ImageDataLength(w, h) bytes of module memory and registers
        its pixel array. When the ImageData cannot be built (a zero dimension, or
        a pointer too close to the end of memory) it throws, and the allocated
        block is never registered. */
    method CreateImageData(w: nat, h: nat, ptr: nat) returns (r: Result<ImageData>)
      requires Valid()
      modifies this
      ensures Valid() && contents == old(contents)
      ensures calls == old(calls) + [AllocImageData(w, h)]
      ensures r.Ok? <==> ImageDataFrom(Raw(memory), ptr, w, h).Ok?
      ensures r.Ok? ==> fresh(r.value.data) && r.value.width == w && r.value.height == h &&
                        r.value.data.view == View(memory, ptr, ImageDataLength(w, h)) &&
                        allocCache == old(allocCache) + {r.value.data}
      ensures r.Err? ==> r.error == ImageDataFrom(Raw(memory), ptr, w, h).error &&
                         allocCache == old(allocCache)
    {
      calls := calls + [AllocImageData(w, h)];
      match ImageDataFrom(Raw(memory), ptr, w, h)
      case Err(e) =>
        r := Err(e);
      case Ok(shape) =>
        var data := new TypedArray(shape.view);
        allocCache := allocCache + {data};
        r := Ok(ImageData(data, shape.width, shape.height));
    }

    /** `disposeDataView(view)`, as specified by Dispose. */
    method DisposeDataView(value: Value) returns (r: Result<()>)
      requires Valid()
      modifies this
      ensures Valid() && contents == old(contents)
      ensures var d := Dispose(memory, old(allocCache), value);
              allocCache == d.cache && calls == old(calls) + d.called && r == d.result
    {
      match value
      case OtherValue =>
        r := Err(TypeError(NOT_A_VIEW));
      case ViewValue(a) =>
        if a.view.buffer != memory {
          r := Err(PlainError(NOT_MODULE_MEMORY));
        } else {
          if a in allocCache {
            allocCache := allocCache - {a};
            calls := calls + [DisposeMemory(a.view.byteOffset, a.view.byteLength)];
          }
          r := Ok(());
        }
    }

    /** `disposeImageData(image)`: exactly `disposeDataView(image.data)`. */
    method DisposeImageData(image: ImageData) returns (r: Result<()>)
      requires Valid()
      modifies this
      ensures Valid() && contents == old(contents)
      ensures var d := Dispose(memory, old(allocCache), ViewValue(image.data));
              allocCache == d.cache && calls == old(calls) + d.called && r == d.result
    {
      r := DisposeDataView(ViewValue(image.data));
    }
  }
}

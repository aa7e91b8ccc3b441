# fractx wasm demo: the JavaScript core in Dafny

This project models the JavaScript half of the fractx WebAssembly demo. A
coordinator page renders the Mandelbrot set by splitting the canvas into
cols x rows tiles. It hands each tile to a pool of web workers through a
task queue, then draws the returned bitmaps either all at once in one
animation frame (`vsync`) or each as soon as it arrives. Every worker runs
its own instance of the compiled module. It renders each tile into a
pixel buffer that it reuses from one request to the next, and it posts a
copy of the pixels back.

The model has six modules, one per concern:

- `Js` (js.dfy) holds the JavaScript values the code relies on: the
  exceptions it throws, a result type for operations that may throw, and
  the integer conversions behind `x >>> 0` and `x | 0`.
- `WasmHelpers` (wasm_helpers.dfy) covers the pure byte-buffer helpers of
  src/js/wasm-helpers.js:
  - the image byte length;
  - flattening a view's offset onto its buffer;
  - `imageDataFrom`;
  - the NUL-terminated string reader.
- `WasmModule` (wasm_module.dfy) is the allocation registry of
  src/js/module.js. It is the `Module` object over one instance's memory,
  and its set `allocCache` holds the pixel arrays handed out and not yet
  released. Calls into the module's allocator are recorded in a log.
- `Worker` (worker.js, modelled in worker.dfy) is one render worker:
  - the buffer state `data`/`imageData` and `ensureImageData`;
  - the message handler, which copies the pixels before posting them;
  - the one "ready" message.
- `Queue` (queue.dfy) is `WorkerAsyncQueue` of src/js/queue.js.
  - Workers and tasks are numbers.
  - A task's promise is an entry of a ghost map `settled`.
  - The pure step functions (`TaskStep`, `OnMessageStep`,
    `CancelPendingStep`, `CancelStep`) give each operation's effect on the
    whole state and prove that it keeps the queue invariant `Inv`.
  - The class `WorkerAsyncQueue` runs the operations on its own fields and
    is proved to have exactly those effects.
  - Workers are assumed to follow their side of the protocol: each posts
    "ready" first and then exactly one response per task it was sent.
    This is the precondition of `_onmessage`.
- `Master` (master.dfy) is the coordinator of src/js/master.js:
  - the tile bounds and the proof that the tiles partition the canvas;
  - `Splitter.fractx` as a method that submits every tile to the queue;
  - the draw order in both modes;
  - how `run` ends a render;
  - the clamps on the iteration count.

Ids of tasks are consecutive. Task `id` is the id-th task submitted, so a
render's tiles are the tasks `base .. base + cols*rows - 1`, in
submission order.

Each worker creates its pixel buffer lazily, on its first request
(worker.js:14-17).

## Model

| member | source | states |
|---|---|---|
| Js.ToUint32 | src/js/master.js:112-113 | `n >>> 0` is the value in [0, 2^32) congruent to n, and is n itself when n is already in that range |
| Js.ToInt32 | src/js/queue.js:14 | `n \| 0` is the value in [-2^31, 2^31) congruent to n, and is n itself when n is already in that range |
| Js.TruncQuotient | src/js/master.js:112 | truncating the quotient of two naturals (`a / b >>> 0` before wrapping) gives their integer quotient |
| WasmHelpers.NewView | src/js/wasm-helpers.js:17 | a typed-array constructor succeeds exactly when the window fits in the buffer, otherwise it throws a RangeError; with no length the view runs to the buffer's end |
| WasmHelpers.BufferViewOf | src/js/wasm-helpers.js:12-18 | the view is over the buffer underneath the argument, at offset byteOffset plus the argument's own offset (0 for a raw buffer), `length` bytes long or running to the end of the buffer; it succeeds exactly when that window fits, and fails with a RangeError otherwise |
| WasmHelpers.ViewOfViewIsFlat | src/js/wasm-helpers.js:13-16 | viewing a view is viewing its buffer at the summed offset, so the new view is not confined to the old one's window |
| WasmHelpers.FlatteningComposes | src/js/wasm-helpers.js:12-18 | a view made at b of a view made at a is the view at a + b of the original buffer |
| WasmHelpers.ImageDataLength | src/js/wasm-helpers.js:20-22 | the length is 4 bytes per pixel, a multiple of 4 whose quarter is width * height, and zero exactly when a dimension is zero |
| WasmHelpers.ImageDataFrom | src/js/wasm-helpers.js:64-68 | the image covers exactly ImageDataLength(width, height) bytes at the flattened offset, with the requested dimensions; it throws when the window does not fit or a dimension is zero |
| WasmHelpers.IndexOfZero | src/js/wasm-helpers.js:58 | `indexOf(0)` is the first position holding 0, or -1 exactly when there is none |
| WasmHelpers.ReadCStringFromAsWritten | src/js/wasm-helpers.js:56-62 | as written: it fails exactly when the intended reader does and returns as many bytes, but takes them from the unflattened offset of the buffer |
| WasmHelpers.ReadCStringFrom | src/js/wasm-helpers.js:56-62 | it throws "could not read a cstring" exactly when no 0 byte lies at or after the flattened offset; otherwise it returns the bytes from there up to the first 0 byte, none of them 0 |
| WasmHelpers.ReadCStringAgreesWithoutViewOffset | src/js/wasm-helpers.js:56-62 | for a raw buffer, or a view at offset 0, the code as written returns the intended bytes |
| WasmHelpers.ReadCStringMisreadsViewWithOffset | src/js/wasm-helpers.js:57-60 | for a view at byte 3 of "ab\0cd\0", the intended reader gives "cd" but the code as written gives "ab" |
| WasmModule.Dispose | src/js/module.js:28-39 | a non-view throws a TypeError and a view over another buffer throws an Error, neither touching the registry; a registered view is removed and its bytes released once; an unregistered one is left alone |
| WasmModule.DisposeIdempotent | src/js/module.js:36-38 | disposing the same value again returns the same result, releases nothing and changes nothing |
| WasmModule.DisposeKeepsOthers | src/js/module.js:36-38 | disposing a value never unregisters any other array |
| WasmModule.Instance.constructor | src/js/module.js:8-14 | a fresh instance has an empty registry and has made no allocator calls |
| WasmModule.Instance.CreateImageData | src/js/module.js:21-26 | it calls the allocator once; on success it returns a new w x h image over ImageDataLength(w, h) bytes at the pointer and adds exactly its pixel array to the registry; on failure the registry is unchanged |
| WasmModule.Instance.DisposeDataView | src/js/module.js:28-39 | the registry, the allocator calls and the result are exactly those of Dispose |
| WasmModule.Instance.DisposeImageData | src/js/module.js:41-43 | it behaves exactly like `disposeDataView(image.data)` |
| Worker.RenderWorker.constructor | worker.js:11 | before any request there is no buffer and no image, and nothing has been posted |
| Worker.RenderWorker.Start | worker.js:5-9 | `onmessage` is installed, and "ready" is the one message posted so far |
| Worker.RenderWorker.EnsureImageData | worker.js:13-34 | the returned image has the requested dimensions; first call: a new w * h * 4-byte buffer is allocated and registered; same dimensions: the same image, nothing allocated or disposed; other dimensions that fit: the same region reshaped, nothing allocated or disposed; too large: the old buffer disposed once, then a new one allocated, and nothing stays registered when that allocation fails; the buffer never shrinks and at most one allocation is live |
| Worker.RenderWorker.OnMessage | worker.js:36-57 | the bitmap posted is exactly the tile's rendered pixels, written into the image's window of module memory and nowhere else, whatever later requests do to the buffer; per case of ensureImageData (first call, same dimensions, fits, does not fit) the buffer, allocations and module calls are those of ensureImageData, and a bitmap is posted exactly when the image could be built; a request that throws leaves `data`, the image and module memory unchanged (the allocator may already have been called, and a too-large request has already released the old buffer, leaving nothing registered); the invariants are kept |
| Queue.PoolSize | src/js/queue.js:14 | the pool has at least 2 workers: hardwareConcurrency when that is between 2 and 2^31 - 1, and 2 when it is at most 2 |
| Queue.InitState | src/js/queue.js:13-25 | a new queue satisfies the invariant and has no idle worker, no task and an unresolved ready promise; every worker still owes its "ready" |
| Queue.RejectEachUnsettled | src/js/queue.js:70-75 | rejecting the waiting tasks one by one cancels exactly those tasks and leaves every other promise alone |
| Queue.TaskStep | src/js/queue.js:49-61 | the invariant is kept (idle and waiting never coexist, FIFO, nothing lost, one task per worker); the id is the next one; with an idle worker the first one takes the task and `pending` is unchanged, otherwise the task joins the end of `pending` with `busy` and `available` unchanged; no promise settles |
| Queue.ReceivedKeepsInv | src/js/queue.js:90-104 | handling a message the protocol allows keeps the invariant |
| Queue.ReceivedSettled | src/js/queue.js:94-101 | a response settles the worker's running task, which had not settled, and nothing else; with no running task (after `cancel`) nothing settles |
| Queue.OnMessageStep | src/js/queue.js:90-104 | the invariant is kept; the ready promise resolves on "ready" and stays resolved; a response resolves the worker's task and only it; the worker then takes the oldest waiting task, or joins the end of the idle workers |
| Queue.CancelPendingStep | src/js/queue.js:70-75 | every waiting task is rejected with "job canceled" and the queue emptied; running tasks, idle workers and earlier settlements are untouched |
| Queue.CancelStep | src/js/queue.js:82-88 | waiting and running tasks are all rejected with "job canceled", and `pending` and `busy` are emptied; idle workers are untouched; afterwards every submitted task has settled |
| Queue.CanceledTwice | src/js/queue.js:83-86 | cancelling the waiting tasks and then the running ones cancels their union |
| Queue.CanceledOnly | src/js/queue.js:72 | cancelling adds no rejection other than "job canceled" |
| Queue.Step | src/js/queue.js:49-104 | every operation and allowed message keeps the invariant; it never unsettles or re-settles a promise, never forgets a task, never unresolves the ready promise, and rejects only with "job canceled" |
| Queue.Run | src/js/queue.js:49-104 | a whole sequence of operations and messages keeps the same guarantees as one step |
| Queue.RunFromStart | src/js/queue.js:13-25 | from a new queue, whatever happens, the invariant holds and every rejection is a cancellation |
| Queue.WorkerAsyncQueue.constructor | src/js/queue.js:13-25 | the queue starts in InitState of PoolSize(hardwareConcurrency) workers |
| Queue.WorkerAsyncQueue.DispatchTask | src/js/queue.js:106-114 | with a task, the worker becomes busy with it and the task is posted; without one, the worker joins the end of the idle workers |
| Queue.WorkerAsyncQueue.SubmitTask | src/js/queue.js:49-61 | the new state and the id are those of TaskStep: the id is the next one, the data is recorded, no promise settles and running tasks are untouched |
| Queue.WorkerAsyncQueue.CancelPending | src/js/queue.js:70-75 | the loop that rejects the waiting tasks and then empties the queue has exactly the effect of CancelPendingStep |
| Queue.WorkerAsyncQueue.Cancel | src/js/queue.js:82-88 | the effect is exactly CancelStep |
| Queue.WorkerAsyncQueue.CancelRunning | src/js/queue.js:84-87 | every running task is rejected and `busy` cleared, and the invariant is kept |
| Queue.WorkerAsyncQueue.DispatchNext | src/js/queue.js:103 | the worker takes the oldest waiting task, or becomes idle when none is waiting |
| Queue.WorkerAsyncQueue.OnMessage | src/js/queue.js:90-104 | the effect is exactly OnMessageStep, and the invariant is kept |
| Queue.RejectRunning | src/js/queue.js:84-86 | rejecting the running tasks one by one, in any order, cancels exactly them |
| Queue.CancelOneMore | src/js/queue.js:84-86 | each turn of that loop adds one more running task to the cancelled ones |
| Master.Bound | src/js/master.js:112-113 | a span boundary is a 32-bit unsigned value, and equals i * extent / count rounded down for the canvas sizes the code meets |
| Master.BoundEnds | src/js/master.js:111-117 | the first span starts at 0 and the last ends at the canvas extent |
| Master.BoundMonotone | src/js/master.js:111-117 | span boundaries never decrease |
| Master.SpanWidth | src/js/master.js:113 | every span is extent / count wide, rounded down or up, and all are equal when count divides extent |
| Master.SpanTelescopes | src/js/master.js:111-117 | the widths of the first n spans add up to the boundary of span n |
| Master.SpansSumToExtent | src/js/master.js:111-117 | the widths of all the spans add up to the canvas extent |
| Master.SomeSpanEmpty | src/js/master.js:112-113 | with fewer pixels than spans, some span is zero wide |
| Master.SpanIndex | src/js/master.js:111-117 | every pixel of the canvas lies in some span |
| Master.SpanUnique | src/js/master.js:111-117 | no pixel lies in two spans |
| Master.TilesUpToLength | src/js/master.js:111-136 | the first n columns hold n * rows tiles |
| Master.TilesUpToAt | src/js/master.js:111-136 | submission is column-major: the tile of column c and row r comes at position c * rows + r |
| Master.TileOfIndex | src/js/master.js:111-136 | there are cols * rows tiles, and the k-th is the tile of column k / rows and row k % rows |
| Master.TileAt | src/js/master.js:112-117 | the tile of column c and row r starts at c * width / cols and r * height / rows rounded down, ends where the next one starts, lies inside the canvas and carries the fractal's count |
| Master.CoversTileAt | src/js/master.js:112-117 | a tile covers exactly the pixels of its column span and its row span |
| Master.TilesCover | src/js/master.js:111-136 | every pixel of the canvas is covered by some submitted tile |
| Master.TilesDisjoint | src/js/master.js:111-136 | no pixel is covered by two submitted tiles |
| Master.TilesInsideCanvas | src/js/master.js:111-136 | a submitted tile covers only pixels of the canvas |
| Master.TilesPartitionCanvas | src/js/master.js:111-136 | the tiles partition the canvas: a point is covered by some tile exactly when it is a pixel of the canvas, and then by exactly one |
| Master.TileAtSize | src/js/master.js:112-117 | a tile is at least width / cols wide and height / rows high, so it is non-empty when the canvas has at least as many pixels as tiles across |
| Master.TilesNonEmpty | src/js/master.js:111-136 | every submitted tile has those minimum sizes; with fewer pixels than tiles across, some submitted tile is zero wide |
| Master.NarrowCanvasHasEmptyTile | src/js/master.js:111-136 | a canvas narrower than the column count still gets cols * rows tiles, one of them zero wide |
| Master.IncreasedIter | src/js/master.js:226 | doubling stays in [1, 5000] and never decreases the count; it doubles or caps at 5000, and is unchanged only at 5000 |
| Master.DecreasedIter | src/js/master.js:229 | halving stays in [1, 5000] and never increases the count; it halves with truncation, floored at 1, and is unchanged only at 1 |
| Master.IterRoundTrips | src/js/master.js:224-231 | halving undoes doubling below the cap, and doubling undoes halving of an even count |
| Master.ClampIterAsWritten | src/js/master.js:244 | as written, the result is in [1, 5000] and equals the intended clamp for every 32-bit input |
| Master.ClampIter | src/js/master.js:244 | the result is in [1, 5000]: the count itself when valid, 5000 above, 1 below |
| Master.ClampIterWrapsLargeInput | src/js/master.js:244 | typing 2147483648 gives 1 as written, where the intended clamp gives 5000 |
| Master.SavedIterLoadsBack | src/js/master.js:73 | a valid count that was saved is loaded back unchanged by the load clamp as written |
| Master.Fractal.constructor | src/js/master.js:15-16 | the count starts at 100 |
| Master.Fractal.IncrIter | src/js/master.js:224-226 | the "incr-iter" click sets the count to IncreasedIter of the old one and keeps it valid |
| Master.Fractal.DecrIter | src/js/master.js:228-231 | the "decr-iter" click sets the count to DecreasedIter of the old one and keeps it valid |
| Master.Fractal.InputIter | src/js/master.js:241-249 | a typed count becomes the clamp as written (wrapped to 32 bits, then into [1, 5000]); a value that does not parse changes nothing |
| Master.Fractal.LoadIter | src/js/master.js:73 | a loaded count is truncated, wrapped to 32 bits and clamped into [1, 5000], as written |
| Master.Splitter.constructor | src/js/master.js:97-101 | a splitter keeps its cols and rows and starts in vsync mode |
| Master.Splitter.Fractx | src/js/master.js:103-136 | exactly the cols * rows tiles are submitted, column by column and top to bottom, each with the fractal's count; `sink` holds their ids in that order; no promise settles and running tasks are untouched |
| Master.SubmitColumn | src/js/master.js:115-135 | one column's tiles are submitted top to bottom, with consecutive ids, settling nothing |
| Master.Run | src/js/master.js:318-322 | the tiles still waiting from earlier renders are rejected with "job canceled"; running tiles are kept, unsettled; no earlier settlement changes; the new render's tiles are submitted and none has settled |
| Master.DrawsOfAppend | src/js/master.js:123 | the draws of two runs of tiles are the draws of each, one after the other |
| Master.FrameDraws | src/js/master.js:120-143 | with vsync, nothing is drawn until every tile has resolved; then every tile is drawn at its place, in submission order |
| Master.EagerDraws | src/js/master.js:127-133 | without vsync, a settled tile makes at most one draw (the draws themselves are stated by EagerDrawsOfResolved) |
| Master.ResolvedArrivals | src/js/master.js:127-133 | the tasks kept are exactly the settled tasks of the render that resolved |
| Master.EagerDrawsOfResolved | src/js/master.js:127-133 | without vsync, the draws are exactly those of the tiles that resolved, in the order they resolved; a rejected or foreign task draws nothing |
| Master.EagerDrawsAllResolved | src/js/master.js:127-133 | when every settled tile resolved, the eager mode draws each of them, in arrival order |
| Master.DrawsOfPermutation | src/js/master.js:127-133 | reordering the tiles reorders their draws in the same way |
| Master.EagerDrawsSameAsFrame | src/js/master.js:120-146 | once every tile has resolved, the eager mode has made exactly the vsync mode's draws, each once, in another order |
| Master.FirstRejection | src/js/master.js:138 | `Promise.all` rejects with the reason of a rejected tile every earlier arrival of which resolved, that is the first rejection; it is not rejected exactly when every settled tile resolved |
| Master.RenderResult | src/js/master.js:322-328 | a render is saved only when every tile resolved and is still in progress only when some has not; it is saved or in progress exactly when nothing was rejected; the first rejection in arrival order decides the rest: it is swallowed exactly when it is a cancellation, and otherwise rethrown with its reason |
| Master.RenderSavedIffAllResolved | src/js/master.js:322-325 | a render is saved exactly when every tile resolved |
| Master.RenderNeverThrows | src/js/master.js:326-327 | when every rejection is a cancellation, `run` never rethrows |
| Master.NoRenderThrows | src/js/master.js:318-328 | whatever the queue goes through from its creation, no render ends in a rethrown error |

## Left out

- Floating-point view maths is not modelled: `resetWindow`, `resize`, `viewCoords`, `viewBox`, `zoom` and the Rust `zoom_at`.
- Master.Splitter.Fractx: a tile request carries its pixel origin (px, py) instead of the floating-point origin x0 + px*dx, y0 + py*dy. dx, dy and the view origin are not modelled.
- Master.Bound: the source divides doubles. The model divides exactly, which gives the same result for canvases whose width times column count stays below 2^53.
- Master.Fractal: only the iteration count is modelled. The localStorage and JSON parts of `load` and `save` are left out, and `LoadIter` takes the already-parsed finite number.
- Drawing on the canvas is modelled as the sequence of `drawImage` calls (FrameDraws, EagerDraws). The animation-frame timing is not modelled, and neither are the bitmap release statements.
- The DOM and UI wiring is not modelled: event listeners, layouts, resizing the canvas, the about popup and src/js/tools.js.
- `run`'s follow-up `save` is only the RenderEnd value `Saved`.
- Promises are modelled as a ghost map from task id to outcome. The ready promise is the flag `readyResolved`. The `transfer` argument of `task` and the transfer lists of `postMessage` are not modelled.
- Queue.Run: a sequence of events stops at the first message a worker would not send under the protocol. A worker that misbehaves is outside the model.
- Queue.RejectRunning: because promise states are ghost, the `cancel` loop over the running tasks is a ghost method: its only effect is on the promise states.
- Master.SubmitColumn: the inner loop of `fractx` is written as a separate method, so that each loop proves its own invariant.
- Worker.RenderWorker.OnMessage: the compute kernel `Module.fractx` is not modelled. Its output is the parameter `pixels`.
- `createImageBitmap` and its endless one-second retry are not modelled. The posted bitmap is modelled as the copied pixels.
- Worker.RenderWorker.EnsureImageData: the pointer `alloc_image_data` returns is a parameter. The allocator's own bookkeeping is not modelled, only the calls made into it.
- Memory growth is not modelled: the module's memory has a fixed size.
- The instance creation in src/js/module.js and the network fetches are not modelled: `instantiateWasmModule`, `fetchAndInstantiate` and `fetchAndSend`.
- WasmHelpers.ReadCStringFrom returns the bytes of the string. The UTF-8 decoding by `TextDecoder` is not modelled.
- src/rust/lib.rs, the fractal kernel and the bundled master.js/module.js are not part of this model.
- Worker termination is not modelled.
- A worker whose tile had zero area throws and never answers. The queue then keeps that worker busy forever. The model shows that no bitmap is posted for such a tile (RenderWorker.OnMessage). What the queue does afterwards follows from the protocol precondition and is not traced further.

## Findings

| source | as written | input that shows it | evidently intended | confidence | as-written member | corrected member |
|---|---|---|---|---|---|---|
| src/js/wasm-helpers.js:60 | the string is cut from `view.buffer` at the unflattened `offset`, while the 0 byte was searched for from the flattened offset | a Uint8Array view at byte 3 of a 6-byte buffer holding "ab\0cd\0", offset 0: the code returns "ab" | the bytes from the flattened offset up to the first 0 byte: "cd" | high, not executed | WasmHelpers.ReadCStringFromAsWritten, WasmHelpers.ReadCStringMisreadsViewWithOffset | WasmHelpers.ReadCStringFrom |
| src/js/master.js:244 | `Math.max(Math.min(iter\|0, MAX_ITER), 1)` wraps counts of 2^31 and above to 32 bits before clamping (line 73 does the same on load) | typing 2147483648 in the iterations field sets the count to 1 | a count above 5000 is capped at 5000 | high, not executed | Master.ClampIterAsWritten, Master.ClampIterWrapsLargeInput | Master.ClampIter |

For the wasm-helpers.js:60 finding, `ReadCStringFrom` is the reference reading and `ReadCStringAgreesWithoutViewOffset` shows that the code as written agrees with it for a raw buffer or a view at offset 0. The iteration handlers `Fractal.InputIter` and `Fractal.LoadIter` keep the behaviour of master.js:244 and master.js:73 as written, so they wrap to 32 bits. `ClampIterAsWritten` is proved equal to the corrected `ClampIter` for every 32-bit input, so the two differ only on counts of 2^31 and above.

# A verified model of the background remover's pixel pipeline and model loader

The background remover runs a segmentation network in the browser and uses
its output to make the background of a photo transparent. This project
models the two files that do the real work:

- `src/utils/imageProcessing.ts`
  - `processImage` turns an uploaded image into the network's input tensor.
    It resizes the image to the model's square resolution, normalises each
    channel with the ImageNet mean and standard deviation, and lays the
    channels out one plane after another (CHW, shape `[1, 3, s, s]`).
  - `applyMask` turns the network's single-channel output into the alpha
    channel of the original image. It finds the minimum and maximum of the
    output. When a value lies outside [-0.1, 1.1] it treats the output as
    logits and applies a sigmoid. It then writes each value times 255 into
    the alpha bytes of a small mask raster, which is stretched to the
    original size. Finally, every alpha byte of the original is replaced by
    the stretched mask's alpha.
- `src/utils/onnxHelper.ts`
  - The registry of the five models, with their names, weight URLs and
    input sizes.
  - The process-wide session and current-model cells.
  - `loadModel`:
    - returns at once when the requested model is already loaded;
    - otherwise releases the old session, logging and swallowing a release
      failure;
    - downloads the weights chunk by chunk, reporting progress;
    - then builds and stores the new session.
  - `runInference` feeds a tensor to the loaded session under its first
    input name and returns its first output.

The Dafny modules follow the source files:

- `ImageProcessing` is in `image_processing.dfy`.
- `OnnxHelper` is in `onnx_helper.dfy`.
- `Ort` (`ort.dfy`) holds the tensor and session values of the inference
  library.
- `Wrappers` (`wrappers.dfy`) holds `Option`, `Result` and `Outcome`.

Four facts about the code that the model follows:

- The code has only ImageNet normalisation. There is no "unit" (divide by
  255 only) mode, and nothing selects a normalisation per model.
- A Uint8ClampedArray store rounds half to even (127.5 becomes 128, 128.5
  becomes 128). It is not plain rounding. `AlphaByte` models the store
  exactly.
- `release` is called on the old session before the new weights are
  fetched. The call is not awaited, so `ReleaseWarning` models only a
  synchronous throw from it.
- Progress is `received / Content-Length` exactly as the code computes it.
  It is not clipped to [0, 1].

The steps the model cannot see enter as parameters:

- The rendering surface:
  - `decoded` is the decoded image, or `None` when decoding failed.
  - `resize` and `upscale` stand for drawImage followed by getImageData.
  - Boolean flags say whether each canvas yielded a 2D context.
- `sigmoid` stands for `1 / (1 + Math.exp(-x))`.
- `fetched` stands for the response of `fetch`, with its chunked body.
- `create` builds a session from bytes; `run` runs a session.

Observable actions (release, warning, fetch, progress report, session
build) are returned as a trace of `Effect`s, so that their order and number
can be stated.

## Model

| member | source | states |
|---|---|---|
| ImageProcessing.Mean | src/utils/imageProcessing.ts:36 | definition, no contract: the ImageNet means 0.485, 0.456 and 0.406 of R, G and B |
| ImageProcessing.Normalize | src/utils/imageProcessing.ts:40-47 | definition, no contract: (byte / 255 − mean_c) / std_c, the value stored for byte b of channel c; its properties are NormalizeInverse and NormalizeMonotone |
| ImageProcessing.Std | src/utils/imageProcessing.ts:37 | every ImageNet standard deviation lies in (0.2, 0.25), so normalisation never divides by zero |
| ImageProcessing.NormalizeInverse | src/utils/imageProcessing.ts:36-47 | (b/255 − mean)/std is undone by v·std + mean: the result is b/255, and times 255 it is the byte b again |
| ImageProcessing.NormalizeMonotone | src/utils/imageProcessing.ts:40-47 | normalisation is strictly increasing in the byte, so distinct bytes of a channel give distinct tensor values |
| ImageProcessing.Plane | src/utils/imageProcessing.ts:39-48 | one channel plane has exactly one value per pixel |
| ImageProcessing.ToPlanar | src/utils/imageProcessing.ts:39-48 | definition, no contract: the R plane, then the G plane, then the B plane; its layout is PlanarLayout |
| ImageProcessing.PlanarLayout | src/utils/imageProcessing.ts:39-48 | the CHW buffer has 3n slots; pixel i's R, G and B go to slots i, n + i and 2n + i |
| ImageProcessing.AlphaNeverRead | src/utils/imageProcessing.ts:39-48 | two rasters that agree on R, G and B give the same tensor data, whatever their alpha bytes |
| ImageProcessing.PlanarRoundTrip | src/utils/imageProcessing.ts:36-47 | every colour byte 4i + c of the resized raster is recovered from slot c·n + i by denormalising and scaling by 255 |
| ImageProcessing.PixelsToPlanar | src/utils/imageProcessing.ts:33-48 | the pixel loop fills a 3·s² buffer that is exactly the CHW normalisation of the raster |
| ImageProcessing.WritePixel | src/utils/imageProcessing.ts:40-47 | one loop iteration extends "pixels 0..i−1 are written" to "pixels 0..i are written", and the buffer afterwards is the old buffer with only pixel i's three slots written |
| ImageProcessing.WithPixel | src/utils/imageProcessing.ts:45-47 | writing pixel i sets slots i, n + i and 2n + i to its normalised R, G and B and leaves every other slot as it was |
| ImageProcessing.PixelsDoneStep | src/utils/imageProcessing.ts:44-47 | writing pixel i's three slots keeps the earlier pixels and adds pixel i |
| ImageProcessing.PlanarFromPixels | src/utils/imageProcessing.ts:39-48 | a buffer with every pixel's three slots written is the CHW buffer |
| ImageProcessing.ProcessImage | src/utils/imageProcessing.ts:3-55 | a decode failure rejects first, then a missing context; otherwise the tensor has dims [1, 3, s, s], as many values as the dims multiply to, data that is the CHW normalisation of the resized image, and the decoded image is returned alongside |
| ImageProcessing.RangeScan | src/utils/imageProcessing.ts:113-117 | starting from +∞ and −∞, the scan ends with the least and greatest mask values, each attained, or with +∞ and −∞ for an empty mask |
| ImageProcessing.Ext.Less | src/utils/imageProcessing.ts:113-119 | definition, no contract: JavaScript's `<` on the running bounds, which start at +Infinity and −Infinity: −∞ is below every finite value and +∞, +∞ is below nothing |
| ImageProcessing.NeedsSigmoid | src/utils/imageProcessing.ts:119 | definition, no contract: `min < -0.1 \|\| max > 1.1` on bounds that may be ±∞; its meaning is NeedsSigmoidIff |
| ImageProcessing.NeedsSigmoidIff | src/utils/imageProcessing.ts:119 | `min < -0.1 \|\| max > 1.1` holds exactly when some mask value is below −0.1 or above 1.1, and never for an empty mask |
| ImageProcessing.AlphaByte | src/utils/imageProcessing.ts:131 | a clamped byte store always yields a byte; values ≤ 0 give 0, values ≥ 255 give 255, and in-range values are rounded to within one half, a tie going to the even byte |
| ImageProcessing.AlphaByteOfByte | src/utils/imageProcessing.ts:131 | a whole byte value is stored unchanged |
| ImageProcessing.AlphaByteOfHalf | src/utils/imageProcessing.ts:131 | probability 0.5 (127.5) is stored as 128 |
| ImageProcessing.MaskValue | src/utils/imageProcessing.ts:122-125 | definition, no contract: the mask value, passed through the sigmoid when the range test fired |
| ImageProcessing.MaskBytes | src/utils/imageProcessing.ts:121-132 | the mask raster has four bytes per pixel of the s × s mask canvas |
| ImageProcessing.MaskBytesLayout | src/utils/imageProcessing.ts:121-132 | each pixel of the mask raster has R = G = B = 0 and alpha = clamped(value·255), or 0 past the end of the output; every byte is a byte |
| ImageProcessing.StoreClamped | src/utils/imageProcessing.ts:128-131 | a store into the clamped buffer changes only its index, to the clamped value, and a store past the end changes nothing |
| ImageProcessing.FillMask | src/utils/imageProcessing.ts:121-132 | the fill loop, including stores past the buffer for outputs longer than s², produces exactly the mask raster |
| ImageProcessing.WithAlpha | src/utils/imageProcessing.ts:157-166 | the composite is as long as the original |
| ImageProcessing.WithAlphaSpec | src/utils/imageProcessing.ts:157-166 | compositing keeps every R, G and B byte, takes every alpha byte from the scaled mask, ignores the original alpha, and is idempotent |
| ImageProcessing.WithAlphaAt | src/utils/imageProcessing.ts:157-166 | pixel p of the composite has the original's colour and the mask's alpha |
| ImageProcessing.ReplaceAlpha | src/utils/imageProcessing.ts:157-166 | the in-place loop stepping by four turns the pixel array into the composite of its old contents with the scaled mask |
| ImageProcessing.MaskImage | src/utils/imageProcessing.ts:87-132 | definition, no contract: the targetSize × targetSize mask raster, with the sigmoid chosen by OutOfRange; its bytes are described by MaskBytesLayout |
| ImageProcessing.Composite | src/utils/imageProcessing.ts:157-166 | definition, no contract: the original image with the alpha of the scaled mask; its pixels are described by WithAlphaSpec and WithAlphaAt |
| ImageProcessing.ApplyMask | src/utils/imageProcessing.ts:58-170 | the three missing-context errors in source order; otherwise the image is the original with its alpha replaced by that of the upscaled mask raster, with the sigmoid used exactly when a value is out of range |
| ImageProcessing.InRangeMaskUnchanged | src/utils/imageProcessing.ts:119-132 | a mask with every value in [−0.1, 1.1] is not passed through the sigmoid, and pixel i's alpha is clamped(value·255) |
| ImageProcessing.UniformMaskComposite | src/utils/imageProcessing.ts:119-166 | a uniform mask v in [0, 1] at the image's resolution keeps every pixel's colour and gives it alpha clamped(v·255): 255 for all 1.0, 0 for all 0.0, 128 for all 0.5 |
| OnnxHelper.Models | src/utils/onnxHelper.ts:13-39 | definition, no contract: the five entries with their display names, weight URLs and input sizes as written in the source; its domain is RegistryDomain |
| OnnxHelper.Config | src/utils/onnxHelper.ts:13-39 | every model has an input size; it is 320 exactly for u2netp and silueta and 1024 exactly for the three RMBG models |
| OnnxHelper.RegistryDomain | src/utils/onnxHelper.ts:5-39 | the registry holds exactly the five model identifiers of ModelType |
| OnnxHelper.Read | src/utils/onnxHelper.ts:79 | definition, no contract: the next chunk, then the end of the stream or a rejected read |
| OnnxHelper.SumLengths | src/utils/onnxHelper.ts:82 | definition, no contract: receivedLength, the chunk lengths summed in arrival order |
| OnnxHelper.Concat | src/utils/onnxHelper.ts:88 | definition, no contract: new Blob(chunks), the chunks joined in order; its length is ConcatLength |
| OnnxHelper.ConcatLength | src/utils/onnxHelper.ts:88 | the blob built from the chunks holds exactly receivedLength bytes |
| OnnxHelper.ProgressReports | src/utils/onnxHelper.ts:83-85 | one progress report per chunk |
| OnnxHelper.PrefixSumMonotone | src/utils/onnxHelper.ts:82 | the running byte count never decreases from one chunk to the next |
| OnnxHelper.Fraction | src/utils/onnxHelper.ts:84 | definition, no contract: `receivedLength / contentLength`, the value passed to onProgress, for a positive Content-Length |
| OnnxHelper.ProgressMonotone | src/utils/onnxHelper.ts:75-86 | progress reports never decrease, as byte counts and, with a positive Content-Length, as fractions; the last report counts every byte |
| OnnxHelper.ReportAt | src/utils/onnxHelper.ts:82-85 | report j counts the bytes of the first j + 1 chunks |
| OnnxHelper.LastProgressReport | src/utils/onnxHelper.ts:82-85 | the last report counts all bytes received |
| OnnxHelper.ProgressReportsSnoc | src/utils/onnxHelper.ts:81-85 | one more chunk appends exactly one report, of the new running total |
| OnnxHelper.Download | src/utils/onnxHelper.ts:75-86 | the read loop succeeds exactly when the stream does not reject, keeps every chunk in order, counts their bytes, and reports progress after each chunk only when a callback was given |
| OnnxHelper.AcquireEffects | src/utils/onnxHelper.ts:71-93 | the try block always begins with the fetch of the model's URL and never releases a session |
| OnnxHelper.Acquire | src/utils/onnxHelper.ts:62-95 | definition, no contract: the specification of loadModel's try block, with results FetchFailed, NoBody, ReadFailed, BuildFailed or the built session, and its effects Fetch, one Progress per chunk, Create; FetchSession implements it and AcquireEffects is proved about it |
| OnnxHelper.ShortCircuits | src/utils/onnxHelper.ts:45 | definition, no contract: the guard `session && currentModel === modelType`; LoadShortCircuit and LoadTwice are about it |
| OnnxHelper.Released | src/utils/onnxHelper.ts:50-58 | definition, no contract: no effect without a session, else Release, followed by ReleaseWarning when it throws |
| OnnxHelper.Load | src/utils/onnxHelper.ts:44-100 | definition, no contract: the specification of loadModel: the short circuit, release, the try block, and the new cells on success and failure; Runtime.LoadModel implements it and LoadShortCircuit through LoadTwice are proved about it |
| OnnxHelper.FetchSession | src/utils/onnxHelper.ts:62-95 | fetch, read, join and build, with each failure mapped to its error, match the specification of the try block in result and in effects |
| OnnxHelper.LoadShortCircuit | src/utils/onnxHelper.ts:45-47 | asking for the loaded model changes nothing and does nothing |
| OnnxHelper.LoadReleasesOnce | src/utils/onnxHelper.ts:50-71 | otherwise the load releases the old session exactly once, first, and never when there is none, and then fetches the model's URL |
| OnnxHelper.ReleaseFailureSwallowed | src/utils/onnxHelper.ts:51-56 | a throwing release leaves the new state and the outcome as a successful one would |
| OnnxHelper.LoadOutcomes | src/utils/onnxHelper.ts:91-99 | success stores a session and the requested model; failure leaves no session and the old current model, so no later call short-circuits |
| OnnxHelper.LoadSucceedsIff | src/utils/onnxHelper.ts:62-99 | a load succeeds exactly when it short-circuits or fetch, body, reads and build all succeed, and a built session comes from all the bytes of the body |
| OnnxHelper.LoadKeepsConsistent | src/utils/onnxHelper.ts:41-100 | a loaded session always has a current model, before and after every load |
| OnnxHelper.LoadTwice | src/utils/onnxHelper.ts:45-47 | after a successful load, loading the same model again does nothing, whatever the network would do |
| OnnxHelper.FirstName | src/utils/onnxHelper.ts:107-112 | definition, no contract: `names[0]` as a property key, "undefined" for an empty list |
| OnnxHelper.Runtime.constructor | src/utils/onnxHelper.ts:41-42 | both cells start out null |
| OnnxHelper.Runtime.LoadModel | src/utils/onnxHelper.ts:44-100 | the imperative load keeps the cells consistent and its new cells, outcome and effects are those of the load specification |
| OnnxHelper.Runtime.RunInference | src/utils/onnxHelper.ts:102-113 | rejects with "Model not loaded" without a session; otherwise feeds the tensor under the first input name, propagates a failed run, and returns the output under the first output name, or undefined when there is none |
| OnnxHelper.SelectSameModelTwice | src/utils/onnxHelper.ts:44-47 | on a fresh runtime, a second selection of a model that loaded returns at once with no effects |

## Left out

- The rendering surface is not modelled: image decoding, canvas creation, drawImage resampling, getImageData, putImageData and the PNG encoding by toDataURL. Decoding, resizing and upscaling are parameters, and ApplyMask returns the composited raster instead of a data URL.
- ImageProcessing.ProcessImage and ImageProcessing.ApplyMask: getImageData and createImageData throw for a zero width or height, but the model returns Success there (ApplyMask on an image of zero width or height, and ApplyMask with targetSize 0 for any image, where createImageData throws). For ProcessImage with targetSize 0 the throw happens inside the onload handler, so the source's promise never settles, which the model cannot express. The registry's sizes are 320 and 1024, so targetSize 0 never arises from the registry.
- ImageProcessing.ApplyMask: assumes that drawing the original image at its own size and reading it back yields its pixels unchanged.
- ImageProcessing.UniformMaskComposite: assumes, as a precondition, that upscaling the mask raster to its own size returns it unchanged.
- ImageProcessing.ProcessImage and ImageProcessing.ApplyMask: the canvas guarantee that getImageData returns four bytes per pixel of the requested size is taken as a precondition on the `resize` and `upscale` parameters.
- Float32 and float64 arithmetic is modelled by exact reals. Float32 rounding of the stored tensor values, NaN and infinities from the network output are not modelled.
- ImageProcessing.NeedsSigmoidIff: is stated over exact reals, where a mask value of exactly −0.1 or 1.1 does not trigger the sigmoid. In the source the mask is a Float32Array; float32(−0.1) is slightly below −0.1 and float32(1.1) slightly above 1.1, so such stored values do trigger it.
- Math.exp is not modelled: the sigmoid enters as a function parameter.
- The network and the inference library are not modelled: fetch, the body reader, InferenceSession.create and session.run enter as parameters.
- OnnxHelper.Download: a progress report is recorded as the pair (received bytes, Content-Length) and not divided. A missing Content-Length (0 in the source, which divides by zero) therefore needs no special case, and fractions are stated only for a positive Content-Length.
- OnnxHelper.ProgressMonotone: progress is not bounded by 1, because the source does not bound it. A body longer than its Content-Length reports fractions above 1.
- OnnxHelper.Acquire: a failure of blob.arrayBuffer() is folded into BuildFailed, so the trace then also holds a Create effect for a build the source never starts. A throwing onProgress callback, which inside the try would reject the load, cannot be expressed; the application's callback only sets state.
- OnnxHelper.Response: contentLength is a nat, so a Content-Length header that is not a number cannot be represented. In the source `+header` is then NaN and every progress report is NaN.
- console.warn and console.error appear only as the ReleaseWarning effect and the rejected outcome. Their message text is not modelled.
- Concurrency is not modelled: two overlapping loadModel calls interleaving at their await points.
- The display order of the registry (Object.keys) is not modelled: the registry is a map.
- App.tsx, the user interface components and the build scripts are not part of this model.

/** The pixel side of the background remover: turning a resized RGBA raster
    into the model's channel-planar input tensor (processImage), and turning
    the model's single-channel output back into the alpha channel of the
    original image (applyMask).

    The rendering surface (image decoding, drawImage resampling,
    getImageData/putImageData) and Math.exp are not modelled; they enter as
    parameters. Float32 and float64 arithmetic is modelled by exact reals. */
module ImageProcessing {
  import opened Wrappers
  import opened Ort

  predicate IsByte(x: int) { 0 <= x <= 255 }

  /** An RGBA raster as getImageData returns it: width × height pixels in
      row-major order, four bytes (R, G, B, A) per pixel. */
  datatype ImageData = ImageData(width: nat, height: nat, data: seq<int>) {
    predicate Valid() {
      |data| == 4 * (width * height) && forall k :: 0 <= k < |data| ==> IsByte(data[k])
    }
  }

  // ---------------------------------------------------------------------
  // ImageNet normalisation
  // ---------------------------------------------------------------------

  /** Per-channel mean, for c = 0 (R), 1 (G), 2 (B). */
  function Mean(c: nat): real
    requires c < 3
  {
    if c == 0 then 0.485 else if c == 1 then 0.456 else 0.406
  }

  /** Per-channel standard deviation, for c = 0 (R), 1 (G), 2 (B). */
  function Std(c: nat): (s: real)
    requires c < 3
    ensures 0.2 < s < 0.25
  {
    if c == 0 then 0.229 else if c == 1 then 0.224 else 0.225
  }

  /** The value the pixel loop stores for byte b of channel c. */
  function Normalize(c: nat, b: int): real
    requires c < 3
  {
    (b as real / 255.0 - Mean(c)) / Std(c)
  }

  /** The inverse map, from a tensor value back to the channel value in [0, 1]. */
  function Denormalize(c: nat, v: real): real
    requires c < 3
  {
    v * Std(c) + Mean(c)
  }

  /** Normalisation is undone by v·std + mean. */
  lemma NormalizeInverse(c: nat, b: int)
    requires c < 3
    ensures Denormalize(c, Normalize(c, b)) == b as real / 255.0
    ensures Denormalize(c, Normalize(c, b)) * 255.0 == b as real
  {
    var s := Std(c);
    var x := b as real / 255.0 - Mean(c);
    assert (x / s) * s == x;
  }

  /** Normalisation is strictly increasing, so distinct bytes give distinct values. */
  lemma NormalizeMonotone(c: nat, b1: int, b2: int)
    requires c < 3 && b1 < b2
    ensures Normalize(c, b1) < Normalize(c, b2)
  {
    var s := Std(c);
    var x1 := b1 as real / 255.0 - Mean(c);
    var x2 := b2 as real / 255.0 - Mean(c);
    assert x1 < x2;
    assert x1 / s < x2 / s by {
      assert (x2 - x1) / s > 0.0;
      assert x2 / s - x1 / s == (x2 - x1) / s;
    }
  }

  // ---------------------------------------------------------------------
  // Channel-planar layout
  // ---------------------------------------------------------------------

  /** Channel c of an n-pixel RGBA buffer, normalised, in pixel order. */
  function Plane(data: seq<int>, n: nat, c: nat): (p: seq<real>)
    requires |data| == 4 * n && c < 3
    ensures |p| == n
  {
    seq(n, i requires 0 <= i < n => Normalize(c, data[4 * i + c]))
  }

  /** The CHW buffer: all red values, then all green, then all blue. */
  function ToPlanar(data: seq<int>, n: nat): seq<real>
    requires |data| == 4 * n
  {
    Plane(data, n, 0) + Plane(data, n, 1) + Plane(data, n, 2)
  }

  /** Pixel i feeds slots i, n + i and 2n + i, from its R, G and B bytes. */
  lemma PlanarLayout(data: seq<int>, n: nat, i: nat)
    requires |data| == 4 * n && i < n
    ensures |ToPlanar(data, n)| == 3 * n
    ensures ToPlanar(data, n)[i] == Normalize(0, data[4 * i])
    ensures ToPlanar(data, n)[n + i] == Normalize(1, data[4 * i + 1])
    ensures ToPlanar(data, n)[2 * n + i] == Normalize(2, data[4 * i + 2])
  {
  }

  /** The alpha bytes are never read: buffers that agree on R, G and B give
      the same tensor data. */
  lemma AlphaNeverRead(d1: seq<int>, d2: seq<int>, n: nat)
    requires |d1| == 4 * n && |d2| == 4 * n
    requires forall i :: 0 <= i < n ==>
      d1[4 * i] == d2[4 * i] && d1[4 * i + 1] == d2[4 * i + 1] && d1[4 * i + 2] == d2[4 * i + 2]
    ensures ToPlanar(d1, n) == ToPlanar(d2, n)
  {
    forall c | 0 <= c < 3
      ensures Plane(d1, n, c) == Plane(d2, n, c)
    {
      forall i | 0 <= i < n
        ensures Plane(d1, n, c)[i] == Plane(d2, n, c)[i]
      {
        assert d1[4 * i + c] == d2[4 * i + c];
      }
    }
  }

  /** Every R, G and B byte can be read back from the tensor data: slot
      c·n + i, denormalised and scaled by 255, is byte 4i + c. */
  lemma PlanarRoundTrip(data: seq<int>, n: nat, i: nat, c: nat)
    requires |data| == 4 * n && i < n && c < 3
    ensures c * n + i < |ToPlanar(data, n)|
    ensures Denormalize(c, ToPlanar(data, n)[c * n + i]) * 255.0 == data[4 * i + c] as real
  {
    PlanarLayout(data, n, i);
    NormalizeInverse(c, data[4 * i + c]);
    if c == 0 {
      assert ToPlanar(data, n)[c * n + i] == Normalize(0, data[4 * i]);
    } else if c == 1 {
      assert c * n + i == n + i;
    } else {
      assert c * n + i == 2 * n + i;
    }
  }

  /** The pixel loop of processImage: fills a Float32Array of 3·n slots,
      n = targetSize², from the RGBA bytes of the resized image. */
  method PixelsToPlanar(data: seq<int>, targetSize: nat) returns (input: seq<real>)
    requires |data| == 4 * (targetSize * targetSize)
    ensures |input| == 3 * (targetSize * targetSize)
    ensures input == ToPlanar(data, targetSize * targetSize)
  {
    var n := targetSize * targetSize;
    var buf := new real[3 * n];
    for i := 0 to n
      invariant PixelsDone(buf[..], data, n, i)
    {
      WritePixel(buf, data, n, i);
    }
    input := buf[..];
    PlanarFromPixels(input, data, n);
  }

  /** Slots i, n + i and 2n + i of the 3n-slot buffer s hold the normalised
      R, G and B values of pixel i, for every pixel i below `done`. */
  predicate PixelsDone(s: seq<real>, data: seq<int>, n: nat, done: nat)
    requires |data| == 4 * n && done <= n
  {
    && |s| == 3 * n
    && forall k :: 0 <= k < done ==>
      && s[k] == Normalize(0, data[4 * k])
      && s[n + k] == Normalize(1, data[4 * k + 1])
      && s[2 * n + k] == Normalize(2, data[4 * k + 2])
  }

  /** One iteration of the pixel loop: pixel i's R, G and B values,
      (byte / 255 - mean) / std, go to slots i, n + i and 2n + i. */
  method WritePixel(buf: array<real>, data: seq<int>, n: nat, i: nat)
    requires |data| == 4 * n && i < n
    requires PixelsDone(buf[..], data, n, i)
    modifies buf
    ensures PixelsDone(buf[..], data, n, i + 1)
    ensures buf[..] == WithPixel(old(buf[..]), data, n, i)
  {
    ghost var before := buf[..];
    var r := data[4 * i] as real / 255.0;
    var g := data[4 * i + 1] as real / 255.0;
    var b := data[4 * i + 2] as real / 255.0;
    buf[i] := (r - Mean(0)) / Std(0);
    ghost var s1 := before[i := Normalize(0, data[4 * i])];
    assert buf[..] == s1;
    buf[i + n] := (g - Mean(1)) / Std(1);
    ghost var s2 := s1[n + i := Normalize(1, data[4 * i + 1])];
    assert buf[..] == s2;
    buf[i + 2 * n] := (b - Mean(2)) / Std(2);
    assert buf[..] == WithPixel(before, data, n, i);
    PixelsDoneStep(before, data, n, i);
  }

  /** The buffer s with pixel i's three slots written; every other slot
      keeps its value. */
  function WithPixel(s: seq<real>, data: seq<int>, n: nat, i: nat): (t: seq<real>)
    requires |s| == 3 * n && |data| == 4 * n && i < n
    ensures |t| == 3 * n
    ensures t[i] == Normalize(0, data[4 * i])
    ensures t[n + i] == Normalize(1, data[4 * i + 1])
    ensures t[2 * n + i] == Normalize(2, data[4 * i + 2])
    ensures forall k :: 0 <= k < 3 * n && k != i && k != n + i && k != 2 * n + i ==> t[k] == s[k]
  {
    s[i := Normalize(0, data[4 * i])][n + i := Normalize(1, data[4 * i + 1])][2 * n + i := Normalize(2, data[4 * i + 2])]
  }

  lemma PixelsDoneStep(s: seq<real>, data: seq<int>, n: nat, i: nat)
    requires |data| == 4 * n && i < n && PixelsDone(s, data, n, i)
    ensures PixelsDone(WithPixel(s, data, n, i), data, n, i + 1)
  {
    var t := WithPixel(s, data, n, i);
    forall k | 0 <= k < i + 1
      ensures t[k] == Normalize(0, data[4 * k])
      ensures t[n + k] == Normalize(1, data[4 * k + 1])
      ensures t[2 * n + k] == Normalize(2, data[4 * k + 2])
    {
    }
  }

  /** A 3n-slot buffer that holds pixel i's normalised R, G and B values at
      slots i, n + i and 2n + i is the CHW buffer. */
  lemma PlanarFromPixels(input: seq<real>, data: seq<int>, n: nat)
    requires |data| == 4 * n && PixelsDone(input, data, n, n)
    ensures input == ToPlanar(data, n)
  {
    forall j | 0 <= j < 3 * n
      ensures input[j] == ToPlanar(data, n)[j]
    {
      if j < n {
        PlanarLayout(data, n, j);
      } else if j < 2 * n {
        PlanarLayout(data, n, j - n);
      } else {
        PlanarLayout(data, n, j - 2 * n);
      }
    }
  }

  /** Why processImage rejects. */
  datatype ProcessError =
    | ImageLoadFailed    // img.onerror: the file could not be decoded
    | NoCanvasContext    // 'Could not get canvas context'

  /** What processImage resolves with. */
  datatype Processed = Processed(tensor: Tensor, originalImage: ImageData)

  /** processImage. `decoded` is the outcome of loading the file into an
      image element; `resize(img, s)` stands for drawing it stretched onto an
      s × s canvas and reading the pixels back. */
  method ProcessImage(decoded: Option<ImageData>, contextAvailable: bool,
                      resize: (ImageData, nat) -> seq<int>, targetSize: nat)
    returns (r: Result<Processed, ProcessError>)
    requires decoded.Some? ==> |resize(decoded.value, targetSize)| == 4 * (targetSize * targetSize)
    ensures decoded.None? ==> r == Failure(ImageLoadFailed)
    ensures decoded.Some? && !contextAvailable ==> r == Failure(NoCanvasContext)
    ensures decoded.Some? && contextAvailable ==>
      && r.Success?
      && r.value.originalImage == decoded.value
      && r.value.tensor.dims == [1, 3, targetSize, targetSize]
      && ShapeSize(r.value.tensor.dims) == |r.value.tensor.data|
      && r.value.tensor.data == ToPlanar(resize(decoded.value, targetSize), targetSize * targetSize)
  {
    if decoded.None? {
      return Failure(ImageLoadFailed);
    }
    var img := decoded.value;
    if !contextAvailable {
      return Failure(NoCanvasContext);
    }
    var data := resize(img, targetSize);
    var input := PixelsToPlanar(data, targetSize);
    var dims: seq<nat> := [1, 3, targetSize, targetSize];
    assert ShapeSize(dims) == 3 * (targetSize * targetSize) by {
      assert ShapeSize(dims[3..]) == targetSize;
      assert ShapeSize(dims[2..]) == targetSize * targetSize;
    }
    r := Success(Processed(Tensor(dims, input), img));
  }

  // ---------------------------------------------------------------------
  // Range detection
  // ---------------------------------------------------------------------

  /** The running bounds start at +Infinity and -Infinity. */
  datatype Ext = NegInf | Fin(v: real) | PosInf {
    predicate Less(other: Ext) {
      match this
      case NegInf => !other.NegInf?
      case PosInf => false
      case Fin(x) => other.PosInf? || (other.Fin? && x < other.v)
    }
  }

  /** lo and hi are the least and greatest values of the mask, or +∞ and −∞
      when it is empty. */
  predicate IsRange(mask: seq<real>, lo: Ext, hi: Ext) {
    if |mask| == 0 then lo == PosInf && hi == NegInf
    else
      && lo.Fin? && hi.Fin?
      && (forall k :: 0 <= k < |mask| ==> lo.v <= mask[k] <= hi.v)
      && (exists k :: 0 <= k < |mask| && mask[k] == lo.v)
      && (exists k :: 0 <= k < |mask| && mask[k] == hi.v)
  }

  /** The min/max pass of applyMask. */
  method RangeScan(mask: seq<real>) returns (lo: Ext, hi: Ext)
    ensures IsRange(mask, lo, hi)
  {
    lo, hi := PosInf, NegInf;
    for i := 0 to |mask|
      invariant i == 0 ==> lo == PosInf && hi == NegInf
      invariant i > 0 ==> lo.Fin? && hi.Fin?
      invariant i > 0 ==> forall k :: 0 <= k < i ==> lo.v <= mask[k] <= hi.v
      invariant i > 0 ==> exists k :: 0 <= k < i && mask[k] == lo.v
      invariant i > 0 ==> exists k :: 0 <= k < i && mask[k] == hi.v
    {
      if Fin(mask[i]).Less(lo) {
        lo := Fin(mask[i]);
      }
      if hi.Less(Fin(mask[i])) {
        hi := Fin(mask[i]);
      }
    }
  }

  /** `min < -0.1 || max > 1.1`. */
  predicate NeedsSigmoid(lo: Ext, hi: Ext) {
    lo.Less(Fin(-0.1)) || Fin(1.1).Less(hi)
  }

  /** Some mask value lies strictly outside [-0.1, 1.1]. */
  predicate OutOfRange(mask: seq<real>) {
    exists k :: 0 <= k < |mask| && (mask[k] < -0.1 || mask[k] > 1.1)
  }

  /** The range test on the scanned bounds holds exactly when some value is
      below -0.1 or above 1.1, and an empty mask never triggers it. */
  lemma NeedsSigmoidIff(mask: seq<real>, lo: Ext, hi: Ext)
    requires IsRange(mask, lo, hi)
    ensures NeedsSigmoid(lo, hi) <==> OutOfRange(mask)
    ensures |mask| == 0 ==> !NeedsSigmoid(lo, hi)
  {
    if |mask| > 0 {
      if lo.v < -0.1 {
        var k :| 0 <= k < |mask| && mask[k] == lo.v;
        assert mask[k] < -0.1;
      } else if hi.v > 1.1 {
        var k :| 0 <= k < |mask| && mask[k] == hi.v;
        assert mask[k] > 1.1;
      }
    }
  }

  // ---------------------------------------------------------------------
  // The mask raster
  // ---------------------------------------------------------------------

  /** Storing a number into a Uint8ClampedArray: values at or below 0 give 0,
      values at or above 255 give 255, and the rest are rounded to the
      nearest integer, ties to even. */
  function AlphaByte(x: real): (b: int)
    ensures IsByte(b)
    ensures x <= 0.0 ==> b == 0
    ensures x >= 255.0 ==> b == 255
    ensures 0.0 <= x <= 255.0 ==> x - 0.5 <= b as real <= x + 0.5
    ensures 0.0 < x < 255.0 && x == x.Floor as real + 0.5 ==> b % 2 == 0
  {
    if x <= 0.0 then 0
    else if x >= 255.0 then 255
    else
      var f := x.Floor;
      var d := x - f as real;
      if d < 0.5 then f
      else if d > 0.5 then f + 1
      else if f % 2 == 0 then f
      else f + 1
  }

  /** A whole channel value is stored as itself. */
  lemma AlphaByteOfByte(b: int)
    requires IsByte(b)
    ensures AlphaByte(b as real) == b
  {
  }

  /** A probability of one half is stored as 128 (127.5 rounds to even). */
  lemma AlphaByteOfHalf()
    ensures AlphaByte(0.5 * 255.0) == 128
  {
    assert (127.5).Floor == 127;
  }

  /** The value a mask entry contributes: passed through the sigmoid when the
      range test fired, used as is otherwise. */
  function MaskValue(v: real, needsSigmoid: bool, sigmoid: real -> real): real {
    if needsSigmoid then sigmoid(v) else v
  }

  /** The n-pixel mask raster: colour bytes 0; the alpha byte of pixel i is
      its mask value times 255 as a clamped byte when the mask has an entry
      i, and 0 (createImageData's transparent black) otherwise. Mask entries
      past pixel n fall outside the buffer. */
  function MaskBytes(mask: seq<real>, n: nat, needsSigmoid: bool, sigmoid: real -> real): (bytes: seq<int>)
    ensures |bytes| == 4 * n
  {
    seq(4 * n, k requires 0 <= k < 4 * n =>
      if k % 4 == 3 && k / 4 < |mask| then AlphaByte(MaskValue(mask[k / 4], needsSigmoid, sigmoid) * 255.0)
      else 0)
  }

  /** Byte 4p + c of an RGBA buffer is channel c of pixel p. */
  lemma ChannelOf(p: nat, c: nat)
    requires c < 4
    ensures (4 * p + c) % 4 == c && (4 * p + c) / 4 == p
  {
  }

  /** Per-pixel reading of the mask raster, and every byte is a byte. */
  lemma MaskBytesLayout(mask: seq<real>, n: nat, needsSigmoid: bool, sigmoid: real -> real, i: nat)
    requires i < n
    ensures MaskBytes(mask, n, needsSigmoid, sigmoid)[4 * i] == 0
    ensures MaskBytes(mask, n, needsSigmoid, sigmoid)[4 * i + 1] == 0
    ensures MaskBytes(mask, n, needsSigmoid, sigmoid)[4 * i + 2] == 0
    ensures MaskBytes(mask, n, needsSigmoid, sigmoid)[4 * i + 3] ==
      if i < |mask| then AlphaByte(MaskValue(mask[i], needsSigmoid, sigmoid) * 255.0) else 0
    ensures forall k :: 0 <= k < 4 * n ==> IsByte(MaskBytes(mask, n, needsSigmoid, sigmoid)[k])
  {
    var bytes := MaskBytes(mask, n, needsSigmoid, sigmoid);
    ChannelOf(i, 0);
    ChannelOf(i, 1);
    ChannelOf(i, 2);
    ChannelOf(i, 3);
    forall k | 0 <= k < 4 * n
      ensures IsByte(bytes[k])
    {
    }
  }

  /** Writing one value into a Uint8ClampedArray: the value is clamped and
      rounded, and a store past the end is ignored. */
  method StoreClamped(buf: array<int>, index: nat, x: real)
    modifies buf
    ensures forall k :: 0 <= k < buf.Length ==>
      buf[k] == if k == index then AlphaByte(x) else old(buf[k])
  {
    if index < buf.Length {
      buf[index] := AlphaByte(x);
    }
  }

  /** The mask-filling pass of applyMask, into a fresh targetSize ×
      targetSize ImageData. */
  method FillMask(maskData: seq<real>, targetSize: nat, needsSigmoid: bool, sigmoid: real -> real)
    returns (bytes: seq<int>)
    ensures bytes == MaskBytes(maskData, targetSize * targetSize, needsSigmoid, sigmoid)
  {
    var n := targetSize * targetSize;
    var buf := new int[4 * n](_ => 0);
    for i := 0 to |maskData|
      invariant forall k :: 0 <= k < 4 * n ==>
        buf[k] == if k % 4 == 3 && k / 4 < i
                  then AlphaByte(MaskValue(maskData[k / 4], needsSigmoid, sigmoid) * 255.0)
                  else 0
    {
      var val := maskData[i];
      if needsSigmoid {
        val := sigmoid(val);
      }
      var pixelIndex := i * 4;
      StoreClamped(buf, pixelIndex, 0.0);
      StoreClamped(buf, pixelIndex + 1, 0.0);
      StoreClamped(buf, pixelIndex + 2, 0.0);
      StoreClamped(buf, pixelIndex + 3, val * 255.0);
    }
    bytes := buf[..];
  }

  // ---------------------------------------------------------------------
  // Alpha replacement
  // ---------------------------------------------------------------------

  /** The RGBA buffer d with each pixel's alpha taken from s. */
  function WithAlpha(d: seq<int>, s: seq<int>): (r: seq<int>)
    requires |s| == |d|
    ensures |r| == |d|
  {
    seq(|d|, k requires 0 <= k < |d| => if k % 4 == 3 then s[k] else d[k])
  }

  /** Compositing keeps every R, G and B byte and takes every alpha byte
      from the scaled mask; the original alpha plays no part. */
  lemma WithAlphaSpec(d: seq<int>, s: seq<int>, d2: seq<int>)
    requires |s| == |d| && |d2| == |d|
    requires forall k :: 0 <= k < |d| && k % 4 != 3 ==> d2[k] == d[k]
    ensures forall k :: 0 <= k < |d| && k % 4 != 3 ==> WithAlpha(d, s)[k] == d[k]
    ensures forall k :: 0 <= k < |d| && k % 4 == 3 ==> WithAlpha(d, s)[k] == s[k]
    ensures WithAlpha(d2, s) == WithAlpha(d, s)
    ensures WithAlpha(WithAlpha(d, s), s) == WithAlpha(d, s)
  {
  }

  /** Pixel p of a composite: the colour of d, the alpha of s. */
  lemma WithAlphaAt(d: seq<int>, s: seq<int>, p: nat)
    requires |s| == |d| && 4 * p + 3 < |d|
    ensures WithAlpha(d, s)[4 * p] == d[4 * p]
    ensures WithAlpha(d, s)[4 * p + 1] == d[4 * p + 1]
    ensures WithAlpha(d, s)[4 * p + 2] == d[4 * p + 2]
    ensures WithAlpha(d, s)[4 * p + 3] == s[4 * p + 3]
  {
    ChannelOf(p, 0);
    ChannelOf(p, 1);
    ChannelOf(p, 2);
    ChannelOf(p, 3);
  }

  /** The final loop of applyMask: data[i + 3] := scaled[i + 3] for every
      pixel i, in place. */
  method ReplaceAlpha(data: array<int>, scaled: seq<int>)
    requires |scaled| == data.Length && data.Length % 4 == 0
    modifies data
    ensures data[..] == WithAlpha(old(data[..]), scaled)
  {
    var i := 0;
    while i < data.Length
      invariant 0 <= i <= data.Length && i % 4 == 0
      invariant forall k :: 0 <= k < data.Length ==>
        data[k] == if k % 4 == 3 && k < i then scaled[k] else old(data[k])
    {
      var maskAlpha := scaled[i + 3];
      data[i + 3] := maskAlpha;
      i := i + 4;
    }
  }

  // ---------------------------------------------------------------------
  // applyMask
  // ---------------------------------------------------------------------

  /** Why applyMask throws. */
  datatype MaskError =
    | NoContext          // 'Could not get context'
    | NoMaskContext      // 'Could not get mask context'
    | NoScaledContext    // 'No context'

  /** The targetSize × targetSize mask raster applyMask draws for a model output. */
  function MaskImage(maskData: seq<real>, targetSize: nat, sigmoid: real -> real): ImageData {
    ImageData(targetSize, targetSize,
              MaskBytes(maskData, targetSize * targetSize, OutOfRange(maskData), sigmoid))
  }

  /** The original image with its alpha replaced by that of the scaled mask. */
  function Composite(original: ImageData, scaledMask: ImageData): ImageData
    requires |scaledMask.data| == |original.data|
  {
    ImageData(original.width, original.height, WithAlpha(original.data, scaledMask.data))
  }

  /** applyMask up to the PNG encoding. `upscale(m, w, h)` stands for drawing
      raster m stretched onto a w × h canvas and reading it back; `sigmoid`
      stands for x ↦ 1 / (1 + Math.exp(-x)); the three flags say whether each
      canvas yielded a 2D context. */
  method ApplyMask(originalImage: ImageData, maskData: seq<real>, targetSize: nat,
                   contextOk: bool, maskContextOk: bool, scaledContextOk: bool,
                   sigmoid: real -> real, upscale: (ImageData, nat, nat) -> ImageData)
    returns (r: Result<ImageData, MaskError>)
    requires originalImage.Valid()
    requires |upscale(MaskImage(maskData, targetSize, sigmoid), originalImage.width, originalImage.height).data|
             == |originalImage.data|
    ensures !contextOk ==> r == Failure(NoContext)
    ensures contextOk && !maskContextOk ==> r == Failure(NoMaskContext)
    ensures contextOk && maskContextOk && !scaledContextOk ==> r == Failure(NoScaledContext)
    ensures contextOk && maskContextOk && scaledContextOk ==>
      r == Success(Composite(originalImage,
                             upscale(MaskImage(maskData, targetSize, sigmoid),
                                     originalImage.width, originalImage.height)))
  {
    if !contextOk {
      return Failure(NoContext);
    }
    var width, height := originalImage.width, originalImage.height;
    var data := new int[|originalImage.data|](k requires 0 <= k < |originalImage.data| => originalImage.data[k]);
    assert data[..] == originalImage.data;
    if !maskContextOk {
      return Failure(NoMaskContext);
    }
    // The first pass over the mask only reads each value.
    for i := 0 to |maskData| {
      var val := maskData[i];
    }
    var lo, hi := RangeScan(maskData);
    var needsSigmoid := NeedsSigmoid(lo, hi);
    NeedsSigmoidIff(maskData, lo, hi);
    var maskBytes := FillMask(maskData, targetSize, needsSigmoid, sigmoid);
    var maskImgData := ImageData(targetSize, targetSize, maskBytes);
    assert maskImgData == MaskImage(maskData, targetSize, sigmoid);
    if !scaledContextOk {
      return Failure(NoScaledContext);
    }
    var scaledMaskData := upscale(maskImgData, width, height);
    ReplaceAlpha(data, scaledMaskData.data);
    r := Success(ImageData(width, height, data[..]));
  }

  /** A mask whose values all lie in [-0.1, 1.1] is used without the
      sigmoid, and each pixel's alpha is its value times 255 as a clamped
      byte. */
  lemma InRangeMaskUnchanged(mask: seq<real>, targetSize: nat, sigmoid: real -> real, i: nat)
    requires forall k :: 0 <= k < |mask| ==> -0.1 <= mask[k] <= 1.1
    requires i < |mask| && i < targetSize * targetSize
    ensures !OutOfRange(mask)
    ensures MaskImage(mask, targetSize, sigmoid).data[4 * i + 3] == AlphaByte(mask[i] * 255.0)
  {
    MaskBytesLayout(mask, targetSize * targetSize, false, sigmoid, i);
  }

  /** With a mask at the image's own resolution and an upscale that leaves
      it as it is, a uniform mask value v in [0, 1] gives every pixel alpha
      AlphaByte(v·255) and keeps its colour: all 1.0 is fully opaque, all 0.0
      fully transparent, all 0.5 gives 128. */
  lemma UniformMaskComposite(original: ImageData, mask: seq<real>, v: real,
                             sigmoid: real -> real, upscale: (ImageData, nat, nat) -> ImageData, p: nat)
    requires original.width == original.height
    requires |original.data| == 4 * (original.width * original.width)
    requires |mask| == original.width * original.width
    requires forall k :: 0 <= k < |mask| ==> mask[k] == v
    requires 0.0 <= v <= 1.0
    requires upscale(MaskImage(mask, original.width, sigmoid), original.width, original.width)
             == MaskImage(mask, original.width, sigmoid)
    requires p < |mask|
    ensures var scaled := upscale(MaskImage(mask, original.width, sigmoid), original.width, original.width);
      && |scaled.data| == |original.data|
      && var out := Composite(original, scaled).data;
      && out[4 * p + 3] == AlphaByte(v * 255.0)
      && out[4 * p] == original.data[4 * p]
      && out[4 * p + 1] == original.data[4 * p + 1]
      && out[4 * p + 2] == original.data[4 * p + 2]
      && (v == 1.0 ==> out[4 * p + 3] == 255)
      && (v == 0.0 ==> out[4 * p + 3] == 0)
      && (v == 0.5 ==> out[4 * p + 3] == 128)
  {
    var t := original.width;
    var m := MaskImage(mask, t, sigmoid);
    InRangeMaskUnchanged(mask, t, sigmoid, p);
    assert |m.data| == |original.data|;
    WithAlphaAt(original.data, m.data, p);
    if v == 0.5 {
      AlphaByteOfHalf();
    }
  }
}

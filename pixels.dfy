/**
 * The integer helpers of src/api.js that walk RGBA byte buffers: the 3×3
 * sharpening convolution, the 3×3 Gaussian smoothing of an alpha mask, the
 * corner sampling of the fallback background remover and its colour test.
 * A buffer of a `width × height` image holds `4 · width · height` bytes, four
 * per pixel in row-major order; a mask holds one byte per pixel.
 */
module Pixels {

  /** An element of a `Uint8ClampedArray` or `Uint8Array`. */
  type Byte = b: int | 0 <= b < 256

  /** A colour `[r, g, b]` as the sampling and the palette hold it. */
  datatype Rgb = Rgb(r: int, g: int, b: int)

  function Min(a: int, b: int): int { if a <= b then a else b }
  function Max(a: int, b: int): int { if a >= b then a else b }

  /** `Math.min(255, Math.max(0, v))`, the value a clamped byte array stores. */
  function ClampByte(v: int): (b: Byte)
    ensures 0 <= v <= 255 ==> b == v
    ensures v < 0 ==> b == 0
    ensures v > 255 ==> b == 255
  {
    Min(255, Max(0, v))
  }

  lemma RowBelow(w: nat, y1: nat, y2: nat)
    requires y1 < y2
    ensures (y1 + 1) * w <= y2 * w
  {
  }

  lemma PixelBound(w: nat, h: nat, x: nat, y: nat)
    requires x < w && y < h
    ensures y * w + x < w * h
  {
    RowBelow(w, y, h);
  }

  /** `y * width + x`: the index of pixel (x, y) in a mask, and a quarter of its offset in a buffer. */
  function Pixel(w: nat, h: nat, x: nat, y: nat): (p: nat)
    requires x < w && y < h
    ensures p < w * h
  {
    PixelBound(w, h, x, y);
    y * w + x
  }

  /** Pixel indices follow row-major order; in particular distinct pixels have distinct indices. */
  lemma PixelOrder(w: nat, h: nat, x1: nat, y1: nat, x2: nat, y2: nat)
    requires x1 < w && y1 < h && x2 < w && y2 < h
    ensures Pixel(w, h, x1, y1) < Pixel(w, h, x2, y2) <==> (y1 < y2 || (y1 == y2 && x1 < x2))
  {
    if y1 < y2 {
      RowBelow(w, y1, y2);
    } else if y2 < y1 {
      RowBelow(w, y2, y1);
    }
  }

  /** Every pixel before (x, y) in row-major order has a smaller index. */
  lemma PixelsBefore(w: nat, h: nat, x: nat, y: nat)
    requires x < w && y < h
    ensures forall xx: nat, yy: nat :: xx < w && yy < h && (yy < y || (yy == y && xx < x)) ==>
      Pixel(w, h, xx, yy) < Pixel(w, h, x, y)
  {
    forall xx: nat, yy: nat | xx < w && yy < h && (yy < y || (yy == y && xx < x))
      ensures Pixel(w, h, xx, yy) < Pixel(w, h, x, y)
    {
      PixelOrder(w, h, xx, yy, x, y);
    }
  }

  // ---------------------------------------------------------------- applySharpen

  /** The sharpening kernel, row by row. */
  const Kernel: seq<int> := [0, -1, 0, -1, 5, -1, 0, -1, 0]
  /** `Math.round(Math.sqrt(kernel.length))`. */
  const Side: nat := 3
  /** `Math.floor(side / 2)`. */
  const HalfSide: nat := 1

  /** Kernel entry (cy, cx) times channel c of the source pixel it covers; zero off the image. */
  function Tap(data: seq<Byte>, w: nat, h: nat, x: nat, y: nat, cy: nat, cx: nat, c: nat): int
    requires |data| == 4 * (w * h) && cy < Side && cx < Side && c < 3
  {
    var sy := y + cy - HalfSide;
    var sx := x + cx - HalfSide;
    if 0 <= sy < h && 0 <= sx < w then data[4 * Pixel(w, h, sx, sy) + c] * Kernel[cy * Side + cx] else 0
  }

  /** The taps of kernel row cy, columns 0 .. n-1. */
  function RowTaps(data: seq<Byte>, w: nat, h: nat, x: nat, y: nat, cy: nat, n: nat, c: nat): int
    requires |data| == 4 * (w * h) && cy < Side && n <= Side && c < 3
  {
    if n == 0 then 0 else RowTaps(data, w, h, x, y, cy, n - 1, c) + Tap(data, w, h, x, y, cy, n - 1, c)
  }

  /** The taps of kernel rows 0 .. m-1. */
  function KernelSum(data: seq<Byte>, w: nat, h: nat, x: nat, y: nat, m: nat, c: nat): int
    requires |data| == 4 * (w * h) && m <= Side && c < 3
  {
    if m == 0 then 0 else KernelSum(data, w, h, x, y, m - 1, c) + RowTaps(data, w, h, x, y, m - 1, Side, c)
  }

  /** Byte c of output pixel (x, y): the clamped kernel sum for red, green and blue; alpha as in the source. */
  function Sharpened(data: seq<Byte>, w: nat, h: nat, x: nat, y: nat, c: nat): Byte
    requires |data| == 4 * (w * h) && x < w && y < h && c < 4
  {
    if c < 3 then ClampByte(KernelSum(data, w, h, x, y, Side, c)) else data[4 * Pixel(w, h, x, y) + 3]
  }

  /** The two kernel loops of `applySharpen` for one output pixel: the three unclamped channel sums. */
  method Convolve(data: seq<Byte>, w: nat, h: nat, x: nat, y: nat) returns (r: int, g: int, b: int)
    requires |data| == 4 * (w * h) && x < w && y < h
    ensures r == KernelSum(data, w, h, x, y, Side, 0)
    ensures g == KernelSum(data, w, h, x, y, Side, 1)
    ensures b == KernelSum(data, w, h, x, y, Side, 2)
  {
    r, g, b := 0, 0, 0;
    for cy := 0 to Side
      invariant r == KernelSum(data, w, h, x, y, cy, 0)
      invariant g == KernelSum(data, w, h, x, y, cy, 1)
      invariant b == KernelSum(data, w, h, x, y, cy, 2)
    {
      r, g, b := ConvolveRow(data, w, h, x, y, cy, r, g, b);
    }
  }

  /** The inner kernel loop: adds the taps of kernel row `cy` to the running sums. */
  method ConvolveRow(data: seq<Byte>, w: nat, h: nat, x: nat, y: nat, cy: nat, r0: int, g0: int, b0: int)
    returns (r: int, g: int, b: int)
    requires |data| == 4 * (w * h) && x < w && y < h && cy < Side
    ensures r == r0 + RowTaps(data, w, h, x, y, cy, Side, 0)
    ensures g == g0 + RowTaps(data, w, h, x, y, cy, Side, 1)
    ensures b == b0 + RowTaps(data, w, h, x, y, cy, Side, 2)
  {
    r, g, b := r0, g0, b0;
    for cx := 0 to Side
      invariant r == r0 + RowTaps(data, w, h, x, y, cy, cx, 0)
      invariant g == g0 + RowTaps(data, w, h, x, y, cy, cx, 1)
      invariant b == b0 + RowTaps(data, w, h, x, y, cy, cx, 2)
    {
      var scy := y + cy - HalfSide;
      var scx := x + cx - HalfSide;
      if scy >= 0 && scy < h && scx >= 0 && scx < w {
        var srcOff := 4 * Pixel(w, h, scx, scy);
        var wt := Kernel[cy * Side + cx];
        r := r + data[srcOff] * wt;
        g := g + data[srcOff + 1] * wt;
        b := b + data[srcOff + 2] * wt;
      }
    }
  }

  /**
   * `applySharpen`: reads only the source buffer and writes a fresh one in
   * which every pixel's colour is the clamped convolution and its alpha is copied.
   */
  method ApplySharpen(data: seq<Byte>, width: nat, height: nat) returns (out: seq<Byte>)
    requires |data| == 4 * (width * height)
    ensures |out| == |data|
    ensures forall x: nat, y: nat, c: nat :: x < width && y < height && c < 4 ==>
      out[4 * Pixel(width, height, x, y) + c] == Sharpened(data, width, height, x, y, c)
  {
    var output := new Byte[|data|](_ => 0);
    for y := 0 to height
      invariant forall xx: nat, yy: nat, c: nat :: xx < width && yy < y && c < 4 ==>
        output[4 * Pixel(width, height, xx, yy) + c] == Sharpened(data, width, height, xx, yy, c)
    {
      for x := 0 to width
        invariant forall xx: nat, yy: nat, c: nat :: xx < width && yy < height && c < 4 && (yy < y || (yy == y && xx < x)) ==>
          output[4 * Pixel(width, height, xx, yy) + c] == Sharpened(data, width, height, xx, yy, c)
      {
        var r, g, b := Convolve(data, width, height, x, y);
        var dstOff := 4 * Pixel(width, height, x, y);
        PixelsBefore(width, height, x, y);
        output[dstOff] := ClampByte(r);
        output[dstOff + 1] := ClampByte(g);
        output[dstOff + 2] := ClampByte(b);
        output[dstOff + 3] := data[dstOff + 3];
      }
    }
    out := output[..];
  }

  /**
   * A pixel whose four direct neighbours share its channel value keeps it:
   * the kernel weighs the centre 5 and each neighbour -1 and ignores the corners.
   */
  lemma SharpenKeepsFlat(data: seq<Byte>, w: nat, h: nat, x: nat, y: nat, c: nat)
    requires |data| == 4 * (w * h) && 0 < x < w - 1 && 0 < y < h - 1 && c < 3
    requires var v := data[4 * Pixel(w, h, x, y) + c];
      && data[4 * Pixel(w, h, x - 1, y) + c] == v && data[4 * Pixel(w, h, x + 1, y) + c] == v
      && data[4 * Pixel(w, h, x, y - 1) + c] == v && data[4 * Pixel(w, h, x, y + 1) + c] == v
    ensures Sharpened(data, w, h, x, y, c) == data[4 * Pixel(w, h, x, y) + c]
  {
    var v: int := data[4 * Pixel(w, h, x, y) + c];
    assert Tap(data, w, h, x, y, 0, 0, c) == 0 && Tap(data, w, h, x, y, 0, 2, c) == 0;
    assert Tap(data, w, h, x, y, 2, 0, c) == 0 && Tap(data, w, h, x, y, 2, 2, c) == 0;
    assert Tap(data, w, h, x, y, 0, 1, c) == -v && Tap(data, w, h, x, y, 2, 1, c) == -v;
    assert Tap(data, w, h, x, y, 1, 0, c) == -v && Tap(data, w, h, x, y, 1, 2, c) == -v;
    assert Tap(data, w, h, x, y, 1, 1, c) == 5 * v;
    assert RowTaps(data, w, h, x, y, 0, 1, c) == 0 && RowTaps(data, w, h, x, y, 1, 1, c) == -v;
    assert RowTaps(data, w, h, x, y, 2, 1, c) == 0;
    assert RowTaps(data, w, h, x, y, 0, 2, c) == -v && RowTaps(data, w, h, x, y, 1, 2, c) == 4 * v;
    assert RowTaps(data, w, h, x, y, 2, 2, c) == -v;
    assert KernelSum(data, w, h, x, y, 1, c) == -v;
    assert KernelSum(data, w, h, x, y, 2, c) == 2 * v;
  }

  // ---------------------------------------------------------------- smoothAlphaEdges

  /** The 3×3 Gaussian weights 1 2 1 / 2 4 2 / 1 2 1 over the mask around interior pixel (x, y). */
  function GaussSum(mask: seq<Byte>, w: nat, h: nat, x: nat, y: nat): (sum: int)
    requires |mask| == w * h && 0 < x < w - 1 && 0 < y < h - 1
    ensures 0 <= sum <= 16 * 255
  {
    (mask[Pixel(w, h, x - 1, y - 1)] as int) * 1 + (mask[Pixel(w, h, x, y - 1)] as int) * 2
    + (mask[Pixel(w, h, x + 1, y - 1)] as int) * 1 + (mask[Pixel(w, h, x - 1, y)] as int) * 2
    + (mask[Pixel(w, h, x, y)] as int) * 4 + (mask[Pixel(w, h, x + 1, y)] as int) * 2
    + (mask[Pixel(w, h, x - 1, y + 1)] as int) * 1 + (mask[Pixel(w, h, x, y + 1)] as int) * 2
    + (mask[Pixel(w, h, x + 1, y + 1)] as int) * 1
  }

  /** `Math.round(sum / 16)` for a non-negative sum (halves round up). */
  function RoundDiv16(sum: int): (q: int)
    requires sum >= 0
    ensures 16 * q - 8 <= sum < 16 * q + 8
  {
    (sum + 8) / 16
  }

  /** The smoothed alpha of pixel (x, y): the rounded Gaussian average inside, the mask value on the border. */
  function SmoothedAt(mask: seq<Byte>, w: nat, h: nat, x: nat, y: nat): Byte
    requires |mask| == w * h && x < w && y < h
  {
    if 0 < x < w - 1 && 0 < y < h - 1 then RoundDiv16(GaussSum(mask, w, h, x, y)) else mask[Pixel(w, h, x, y)]
  }

  /** A uniform mask is left as it is. */
  lemma SmoothUniform(mask: seq<Byte>, w: nat, h: nat, x: nat, y: nat)
    requires |mask| == w * h && x < w && y < h
    requires forall i :: 0 <= i < |mask| ==> mask[i] == mask[0]
    ensures SmoothedAt(mask, w, h, x, y) == mask[Pixel(w, h, x, y)]
  {
    if 0 < x < w - 1 && 0 < y < h - 1 {
      assert GaussSum(mask, w, h, x, y) == 16 * (mask[0] as int);
    }
  }

  /**
   * The first half of `smoothAlphaEdges`: a copy of the mask (`new
   * Uint8Array(alphaMask)`) in which every interior pixel is replaced by its
   * rounded Gaussian average; only the original mask is read.
   */
  method SmoothMask(mask: seq<Byte>, width: nat, height: nat) returns (smoothed: seq<Byte>)
    requires |mask| == width * height
    ensures |smoothed| == |mask|
    ensures forall x: nat, y: nat :: x < width && y < height ==>
      smoothed[Pixel(width, height, x, y)] == SmoothedAt(mask, width, height, x, y)
  {
    var tempAlpha := new Byte[|mask|](i requires 0 <= i < |mask| => mask[i]);
    var y := 1;
    while y < height - 1
      invariant 1 <= y
      invariant forall xx: nat, yy: nat :: xx < width && yy < height ==>
        tempAlpha[Pixel(width, height, xx, yy)]
          == if yy < y then SmoothedAt(mask, width, height, xx, yy) else mask[Pixel(width, height, xx, yy)]
    {
      var x := 1;
      while x < width - 1
        invariant 1 <= x && (x <= width - 1 || width < 2)
        invariant forall xx: nat, yy: nat :: xx < width && yy < height ==>
          tempAlpha[Pixel(width, height, xx, yy)]
            == if yy < y || (yy == y && xx < x) then SmoothedAt(mask, width, height, xx, yy)
               else mask[Pixel(width, height, xx, yy)]
      {
        var idx := Pixel(width, height, x, y);
        var sum := GaussSum(mask, width, height, x, y);
        PixelsDistinct(width, height, x, y);
        tempAlpha[idx] := RoundDiv16(sum);
        x := x + 1;
      }
      y := y + 1;
    }
    smoothed := tempAlpha[..];
  }

  /** No other pixel shares the index of (x, y). */
  lemma PixelsDistinct(w: nat, h: nat, x: nat, y: nat)
    requires x < w && y < h
    ensures forall xx: nat, yy: nat :: xx < w && yy < h && (xx != x || yy != y) ==>
      Pixel(w, h, xx, yy) != Pixel(w, h, x, y)
  {
    forall xx: nat, yy: nat | xx < w && yy < h && (xx != x || yy != y)
      ensures Pixel(w, h, xx, yy) != Pixel(w, h, x, y)
    {
      PixelOrder(w, h, xx, yy, x, y);
      PixelOrder(w, h, x, y, xx, yy);
    }
  }

  /**
   * `smoothAlphaEdges`: writes the smoothed mask into the alpha byte of every
   * pixel of `data` and touches no other byte.
   */
  method SmoothAlphaEdges(data: array<Byte>, mask: seq<Byte>, width: nat, height: nat)
    requires data.Length == 4 * (width * height) && |mask| == width * height
    modifies data
    ensures forall x: nat, y: nat :: x < width && y < height ==>
      data[4 * Pixel(width, height, x, y) + 3] == SmoothedAt(mask, width, height, x, y)
    ensures forall i :: 0 <= i < data.Length && i % 4 != 3 ==> data[i] == old(data[i])
  {
    var tempAlpha := SmoothMask(mask, width, height);
    var i := 0;
    while i < data.Length
      invariant 0 <= i <= data.Length && i % 4 == 0
      invariant forall j :: 0 <= j < i && j % 4 == 3 ==> data[j] == tempAlpha[j / 4]
      invariant forall j :: 0 <= j < data.Length && (i <= j || j % 4 != 3) ==> data[j] == old(data[j])
    {
      var pixelIndex := i / 4;
      data[i + 3] := tempAlpha[pixelIndex];
      i := i + 4;
    }
    forall x: nat, y: nat | x < width && y < height
      ensures data[4 * Pixel(width, height, x, y) + 3] == SmoothedAt(mask, width, height, x, y)
    {
      var j := 4 * Pixel(width, height, x, y) + 3;
      assert j / 4 == Pixel(width, height, x, y) && j % 4 == 3;
    }
  }

  // ---------------------------------------------------------------- sampleCornerPixels

  /** The red, green and blue bytes of pixel (x, y). */
  function ColourAt(data: seq<Byte>, w: nat, h: nat, x: nat, y: nat): Rgb
    requires |data| == 4 * (w * h) && x < w && y < h
  {
    var idx := 4 * Pixel(w, h, x, y);
    Rgb(data[idx], data[idx + 1], data[idx + 2])
  }

  /** Row y, columns x0 .. x0 + n - 1, left to right. */
  function RowColours(data: seq<Byte>, w: nat, h: nat, x0: nat, y: nat, n: nat): seq<Rgb>
    requires |data| == 4 * (w * h) && x0 + n <= w && y < h
  {
    if n == 0 then [] else RowColours(data, w, h, x0, y, n - 1) + [ColourAt(data, w, h, x0 + n - 1, y)]
  }

  /** The n × m block with top-left pixel (x0, y0), row by row. */
  function BlockColours(data: seq<Byte>, w: nat, h: nat, x0: nat, y0: nat, n: nat, m: nat): seq<Rgb>
    requires |data| == 4 * (w * h) && x0 + n <= w && y0 + m <= h
  {
    if m == 0 then [] else BlockColours(data, w, h, x0, y0, n, m - 1) + RowColours(data, w, h, x0, y0 + m - 1, n)
  }

  lemma {:induction false} RowColoursSize(data: seq<Byte>, w: nat, h: nat, x0: nat, y: nat, n: nat)
    requires |data| == 4 * (w * h) && x0 + n <= w && y < h
    ensures |RowColours(data, w, h, x0, y, n)| == n
  {
    if n > 0 {
      RowColoursSize(data, w, h, x0, y, n - 1);
    }
  }

  /** A block holds one sample per pixel. */
  lemma {:induction false} BlockColoursSize(data: seq<Byte>, w: nat, h: nat, x0: nat, y0: nat, n: nat, m: nat)
    requires |data| == 4 * (w * h) && x0 + n <= w && y0 + m <= h
    ensures |BlockColours(data, w, h, x0, y0, n, m)| == n * m
  {
    if m > 0 {
      BlockColoursSize(data, w, h, x0, y0, n, m - 1);
      RowColoursSize(data, w, h, x0, y0 + m - 1, n);
      assert n * (m - 1) + n == n * m;
    }
  }

  /** `Math.min(50, Math.floor(width / 10), Math.floor(height / 10))`. */
  function SampleSize(w: nat, h: nat): (s: nat)
    ensures s <= 50 && 10 * s <= w && 10 * s <= h
    ensures s == 50 || s == w / 10 || s == h / 10
  {
    Min(50, Min(w / 10, h / 10))
  }

  /** The samples of the four s × s corner blocks, in the order top-left, top-right, bottom-left, bottom-right. */
  function CornerSamples(data: seq<Byte>, w: nat, h: nat): seq<Rgb>
    requires |data| == 4 * (w * h)
  {
    var s := SampleSize(w, h);
    BlockColours(data, w, h, 0, 0, s, s) + BlockColours(data, w, h, w - s, 0, s, s)
    + BlockColours(data, w, h, 0, h - s, s, s) + BlockColours(data, w, h, w - s, h - s, s, s)
  }

  /** There are exactly 4·s² corner samples. */
  lemma CornerSamplesSize(data: seq<Byte>, w: nat, h: nat)
    requires |data| == 4 * (w * h)
    ensures |CornerSamples(data, w, h)| == 4 * SampleSize(w, h) * SampleSize(w, h)
  {
    var s := SampleSize(w, h);
    var ss := s * s;
    assert 4 * s * s == ss + ss + ss + ss;
    BlockColoursSize(data, w, h, 0, 0, s, s);
    BlockColoursSize(data, w, h, w - s, 0, s, s);
    BlockColoursSize(data, w, h, 0, h - s, s, s);
    BlockColoursSize(data, w, h, w - s, h - s, s, s);
  }

  /** One of the four double loops of `sampleCornerPixels`: appends the s × s block at (x0, y0). */
  method SampleBlock(samples: seq<Rgb>, data: seq<Byte>, w: nat, h: nat, x0: nat, y0: nat, s: nat)
    returns (r: seq<Rgb>)
    requires |data| == 4 * (w * h) && x0 + s <= w && y0 + s <= h
    ensures r == samples + BlockColours(data, w, h, x0, y0, s, s)
  {
    r := samples;
    for dy := 0 to s
      invariant r == samples + BlockColours(data, w, h, x0, y0, s, dy)
    {
      r := SampleRow(r, data, w, h, x0, y0 + dy, s);
      BlockColoursStep(samples, data, w, h, x0, y0, s, dy);
    }
  }

  /** The inner loop of a block: appends row y, columns x0 .. x0 + s - 1. */
  method SampleRow(samples: seq<Rgb>, data: seq<Byte>, w: nat, h: nat, x0: nat, y: nat, s: nat)
    returns (r: seq<Rgb>)
    requires |data| == 4 * (w * h) && x0 + s <= w && y < h
    ensures r == samples + RowColours(data, w, h, x0, y, s)
  {
    r := samples;
    for dx := 0 to s
      invariant r == samples + RowColours(data, w, h, x0, y, dx)
    {
      var idx := 4 * Pixel(w, h, x0 + dx, y);
      r := r + [Rgb(data[idx], data[idx + 1], data[idx + 2])];
      AppendAssoc(samples, RowColours(data, w, h, x0, y, dx), [ColourAt(data, w, h, x0 + dx, y)]);
    }
  }

  /** Appending the next row to a block sampled so far gives the block one row taller. */
  lemma BlockColoursStep(samples: seq<Rgb>, data: seq<Byte>, w: nat, h: nat, x0: nat, y0: nat, n: nat, m: nat)
    requires |data| == 4 * (w * h) && x0 + n <= w && y0 + m < h
    ensures samples + BlockColours(data, w, h, x0, y0, n, m) + RowColours(data, w, h, x0, y0 + m, n)
            == samples + BlockColours(data, w, h, x0, y0, n, m + 1)
  {
    AppendAssoc(samples, BlockColours(data, w, h, x0, y0, n, m), RowColours(data, w, h, x0, y0 + m, n));
  }

  lemma AppendAssoc<T>(a: seq<T>, b: seq<T>, c: seq<T>)
    ensures a + b + c == a + (b + c)
  {
  }

  /**
   * `sampleCornerPixels`: the colours of the four s × s corner blocks, every
   * read inside the buffer, `4·s²` samples in all.
   */
  method SampleCornerPixels(data: seq<Byte>, width: nat, height: nat) returns (samples: seq<Rgb>)
    requires |data| == 4 * (width * height)
    ensures samples == CornerSamples(data, width, height)
    ensures |samples| == 4 * SampleSize(width, height) * SampleSize(width, height)
  {
    var s := SampleSize(width, height);
    var right, bottom := width - s, height - s;
    ghost var tl := BlockColours(data, width, height, 0, 0, s, s);
    ghost var tr := BlockColours(data, width, height, right, 0, s, s);
    ghost var bl := BlockColours(data, width, height, 0, bottom, s, s);
    ghost var br := BlockColours(data, width, height, right, bottom, s, s);
    samples := SampleBlock([], data, width, height, 0, 0, s);
    assert samples == tl;
    samples := SampleBlock(samples, data, width, height, right, 0, s);
    samples := SampleBlock(samples, data, width, height, 0, bottom, s);
    samples := SampleBlock(samples, data, width, height, right, bottom, s);
    assert samples == tl + tr + bl + br;
    CornerSamplesSize(data, width, height);
  }

  // ---------------------------------------------------------------- isBackgroundColor

  /** The colour-similarity threshold of `isBackgroundColor`. */
  const Threshold: int := 40

  function SquaredDistance(r: int, g: int, b: int, p: Rgb): (d: int)
    ensures d >= 0
  {
    (r - p.r) * (r - p.r) + (g - p.g) * (g - p.g) + (b - p.b) * (b - p.b)
  }

  /** `sqrt(d) < 40` for a squared distance d, stated without the root. */
  predicate Near(r: int, g: int, b: int, p: Rgb) {
    SquaredDistance(r, g, b, p) < Threshold * Threshold
  }

  /** Comparing a non-negative root with 40 is comparing its square with 1600. */
  lemma RootBelowThreshold(d: real, root: real)
    requires root >= 0.0 && root * root == d
    ensures root < Threshold as real <==> d < (Threshold * Threshold) as real
  {
    if root >= 40.0 {
      assert root * root >= 40.0 * root >= 1600.0;
    }
  }

  /** Some palette colour lies within the threshold of (r, g, b). */
  predicate MatchesPalette(r: int, g: int, b: int, palette: seq<Rgb>) {
    exists k :: 0 <= k < |palette| && Near(r, g, b, palette[k])
  }

  /** `isBackgroundColor`: true as soon as one palette colour is near. */
  method IsBackgroundColor(r: int, g: int, b: int, palette: seq<Rgb>) returns (result: bool)
    ensures result <==> MatchesPalette(r, g, b, palette)
  {
    for k := 0 to |palette|
      invariant forall j :: 0 <= j < k ==> !Near(r, g, b, palette[j])
    {
      var p := palette[k];
      if SquaredDistance(r, g, b, p) < Threshold * Threshold {
        return true;
      }
    }
    return false;
  }
}

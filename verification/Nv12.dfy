/** ConvertBgraToNv12 (src/display/DesktopDuplication.cpp): the luma plane, then one U and one V byte
    for every 2x2 pixels. */
module Nv12 {
  import opened Bytes

  datatype Rgb = Rgb(r: byte, g: byte, b: byte)

  /** Clamp8 */
  function Clamp(v: int): byte {
    if v < 0 then 0 else if v > 255 then 255 else v
  }

  // ----- One value -----

  /** The source's >> on int is an arithmetic shift, which rounds down as / does here. */
  function RawY(p: Rgb): int {
    (66 * p.r + 129 * p.g + 25 * p.b + 128) / 256 + 16
  }

  function RawU(p: Rgb): int {
    (-38 * p.r - 74 * p.g + 112 * p.b + 128) / 256 + 128
  }

  function RawV(p: Rgb): int {
    (112 * p.r - 94 * p.g - 18 * p.b + 128) / 256 + 128
  }

  /** Studio range: the clamp never changes a value. */
  lemma NeverClamped(p: Rgb)
    ensures Clamp(RawY(p)) == RawY(p) && 16 <= RawY(p) <= 235
    ensures Clamp(RawU(p)) == RawU(p) && 16 <= RawU(p) <= 240
    ensures Clamp(RawV(p)) == RawV(p) && 16 <= RawV(p) <= 240
  {
  }

  predicate IsRounded(v: int, offset: int, sum: int) {
    -128 <= sum - 256 * (v - offset) < 128
  }

  /** The weighted sums in 256ths, rounded to the nearest. */
  lemma WeightsAreRounded(p: Rgb)
    ensures IsRounded(RawY(p), 16, 66 * p.r + 129 * p.g + 25 * p.b)
    ensures IsRounded(RawU(p), 128, 112 * p.b - 38 * p.r - 74 * p.g)
    ensures IsRounded(RawV(p), 128, 112 * p.r - 94 * p.g - 18 * p.b)
  {
  }

  /** Section 2.5 of ITU-R BT.601-7, for components of 0 to 255. */
  function Luma(p: Rgb): real {
    0.299 * p.r as real + 0.587 * p.g as real + 0.114 * p.b as real
  }

  function ExactY(p: Rgb): real {
    219.0 * Luma(p) / 255.0 + 16.0
  }

  function ExactU(p: Rgb): real {
    224.0 * (p.b as real - Luma(p)) / (1.772 * 255.0) + 128.0
  }

  function ExactV(p: Rgb): real {
    224.0 * (p.r as real - Luma(p)) / (1.402 * 255.0) + 128.0
  }

  predicate WithinOne(v: int, exact: real) {
    -1.0 <= v as real - exact <= 1.0
  }

  lemma YIsExactWithinOne(p: Rgb)
    ensures WithinOne(RawY(p), ExactY(p))
  {
  }

  lemma UIsExactWithinOne(p: Rgb)
    ensures WithinOne(RawU(p), ExactU(p))
  {
  }

  lemma VIsExactWithinOne(p: Rgb)
    ensures WithinOne(RawV(p), ExactV(p))
  {
  }

  // ----- The picture -----

  /** The mapped frame: rows of `pitch` bytes, of which the first 4 * width are B G R A. */
  datatype Frame = Frame(bgra: seq<byte>, pitch: nat, width: nat, height: nat)

  predicate Mapped(f: Frame) {
    f.height > 0 ==> (f.height - 1) * f.pitch + 4 * f.width <= |f.bgra|
  }

  lemma RowFits(f: Frame, row: nat)
    requires Mapped(f) && row < f.height
    ensures row * f.pitch + 4 * f.width <= |f.bgra|
  {
    assert row * f.pitch <= (f.height - 1) * f.pitch by { Monotone(row, f.height - 1, f.pitch); }
  }

  lemma Monotone(a: nat, b: nat, c: nat)
    requires a <= b
    ensures a * c <= b * c
  {
  }

  /** The pixel at `col` of the row that starts at offset `start`. */
  function PixelIn(f: Frame, start: nat, col: nat): Rgb
    requires start + 4 * f.width <= |f.bgra| && col < f.width
  {
    Rgb(f.bgra[start + col * 4 + 2], f.bgra[start + col * 4 + 1], f.bgra[start + col * 4])
  }

  function PixelAt(f: Frame, row: nat, col: nat): Rgb
    requires Mapped(f) && row < f.height && col < f.width
  {
    RowFits(f, row);
    PixelIn(f, row * f.pitch, col)
  }

  function Least(a: int, b: int): int {
    if b < a then b else a
  }

  function Average(p: Rgb, q: Rgb, r: Rgb, s: Rgb): Rgb {
    Rgb((p.r + q.r + r.r + s.r) / 4, (p.g + q.g + r.g + s.g) / 4, (p.b + q.b + r.b + s.b) / 4)
  }

  /** The 2x2 pixels at (row, col); beyond the last row or column the last one counts twice. */
  function BlockAt(f: Frame, row: nat, col: nat): Rgb
    requires Mapped(f) && row < f.height && col < f.width
  {
    var row1, col1 := Least(row + 1, f.height - 1), Least(col + 1, f.width - 1);
    Average(PixelAt(f, row, col), PixelAt(f, row, col1), PixelAt(f, row1, col), PixelAt(f, row1, col1))
  }

  /** Byte `col` of the chroma row for the pixel rows `row` and `row` + 1: U and V in turn. In a picture
      of odd width the last V takes the place of the last U. */
  function ChromaByte(f: Frame, row: nat, col: nat): byte
    requires Mapped(f) && row < f.height && col < f.width
  {
    if col % 2 == 1 then Clamp(RawV(BlockAt(f, row, col - 1)))
    else if col == f.width - 1 then Clamp(RawV(BlockAt(f, row, col)))
    else Clamp(RawU(BlockAt(f, row, col)))
  }

  function LumaLine(f: Frame, row: nat, cols: nat): (r: seq<byte>)
    requires Mapped(f) && row < f.height && cols <= f.width
    ensures |r| == cols
  {
    seq(cols, col requires 0 <= col < cols => Clamp(RawY(PixelAt(f, row, col))))
  }

  function LumaPlane(f: Frame, rows: nat): (r: seq<byte>)
    requires Mapped(f) && rows <= f.height
    ensures |r| == rows * f.width
  {
    if rows == 0 then [] else LumaPlane(f, rows - 1) + LumaLine(f, rows - 1, f.width)
  }

  function ChromaLine(f: Frame, row: nat, cols: nat): (r: seq<byte>)
    requires Mapped(f) && row < f.height && cols <= f.width
    ensures |r| == cols
  {
    seq(cols, col requires 0 <= col < cols => ChromaByte(f, row, col))
  }

  /** The chroma rows for the first 2 * `pairs` pixel rows. */
  function ChromaPlane(f: Frame, pairs: nat): (r: seq<byte>)
    requires Mapped(f) && 2 * pairs <= f.height
    ensures |r| == pairs * f.width
  {
    if pairs == 0 then [] else ChromaPlane(f, pairs - 1) + ChromaLine(f, 2 * pairs - 2, f.width)
  }

  function Picture(f: Frame): seq<byte>
    requires Mapped(f) && f.height % 2 == 0
  {
    LumaPlane(f, f.height) + ChromaPlane(f, f.height / 2)
  }

  /** For an even height the planes fill width * height * 3 / 2 bytes exactly. */
  lemma PictureSize(width: nat, height: nat)
    requires height % 2 == 0
    ensures width * height * 3 / 2 == height * width + height / 2 * width
  {
    var half := height / 2;
    assert height == 2 * half;
    Regrouped(width, half);
    assert half * width * 6 / 2 == half * width * 3;
  }

  lemma Regrouped(width: nat, half: nat)
    ensures width * (2 * half) * 3 == half * width * 6
    ensures 2 * half * width + half * width == half * width * 3
  {
  }

  lemma {:induction false} LumaPlaneAt(f: Frame, rows: nat, row: nat, col: nat)
    requires Mapped(f) && row < rows <= f.height && col < f.width
    ensures row * f.width + col < |LumaPlane(f, rows)|
    ensures LumaPlane(f, rows)[row * f.width + col] == Clamp(RawY(PixelAt(f, row, col)))
  {
    hide Clamp, RawY, PixelAt, Mapped;
    NextRow(row, rows, f.width, col);
    if row < rows - 1 {
      LumaPlaneAt(f, rows - 1, row, col);
    }
  }

  lemma {:induction false} ChromaPlaneAt(f: Frame, pairs: nat, pair: nat, col: nat)
    requires Mapped(f) && pair < pairs && 2 * pairs <= f.height && col < f.width
    ensures pair * f.width + col < |ChromaPlane(f, pairs)|
    ensures ChromaPlane(f, pairs)[pair * f.width + col] == ChromaByte(f, 2 * pair, col)
  {
    hide ChromaByte, Mapped;
    NextRow(pair, pairs, f.width, col);
    if pair < pairs - 1 {
      ChromaPlaneAt(f, pairs - 1, pair, col);
    }
  }

  lemma NextRow(row: nat, rows: nat, width: nat, col: nat)
    requires row < rows && col < width
    ensures row * width + col < rows * width
  {
    Monotone(row + 1, rows, width);
    assert (row + 1) * width == row * width + width;
  }

  lemma PlanesInTurn(a: seq<byte>, b: seq<byte>, i: nat)
    ensures i < |a| ==> (a + b)[i] == a[i]
    ensures i < |b| ==> (a + b)[|a| + i] == b[i]
  {
  }

  /** Every byte of the first width * height: the luma of its pixel, within one of the exact value. */
  lemma LumaOfPicture(f: Frame, row: nat, col: nat, at: nat)
    requires Mapped(f) && f.height % 2 == 0 && row < f.height && col < f.width && at == row * f.width + col
    ensures at < |Picture(f)| && 16 <= Picture(f)[at] <= 235
    ensures WithinOne(Picture(f)[at], ExactY(PixelAt(f, row, col)))
  {
    LumaPlaneAt(f, f.height, row, col);
    var p := PixelAt(f, row, col);
    NeverClamped(p);
    YIsExactWithinOne(p);
    var luma, chroma := LumaPlane(f, f.height), ChromaPlane(f, f.height / 2);
    assert Picture(f) == luma + chroma;
    hide *;
    PlanesInTurn(luma, chroma, at);
  }

  /** Every byte behind them: the U or V of a block of 2x2 pixels. */
  lemma ChromaOfPicture(f: Frame, pair: nat, col: nat, at: nat)
    requires Mapped(f) && f.height % 2 == 0 && pair < f.height / 2 && col < f.width
    requires at == f.height * f.width + (pair * f.width + col)
    ensures at < |Picture(f)| && Picture(f)[at] == ChromaByte(f, 2 * pair, col)
  {
    hide ChromaByte, Mapped, BlockAt, PixelAt, Clamp;
    ChromaPlaneAt(f, f.height / 2, pair, col);
    var luma, chroma := LumaPlane(f, f.height), ChromaPlane(f, f.height / 2);
    assert Picture(f) == luma + chroma && |luma| == f.height * f.width;
    hide *;
    PlanesInTurn(luma, chroma, pair * f.width + col);
  }

  /** U at the even and V at the odd places, within one of the exact value for the block's colour. */
  lemma ChromaIsExactWithinOne(f: Frame, row: nat, col: nat)
    requires Mapped(f) && row < f.height && col < f.width
    ensures 16 <= ChromaByte(f, row, col) <= 240
    ensures col % 2 == 0 && col + 1 < f.width ==> WithinOne(ChromaByte(f, row, col), ExactU(BlockAt(f, row, col)))
    ensures col % 2 == 1 ==> WithinOne(ChromaByte(f, row, col), ExactV(BlockAt(f, row, col - 1)))
  {
    var block := BlockAt(f, row, if col % 2 == 1 then col - 1 else col);
    hide BlockAt, ExactU, ExactV, WithinOne, Mapped;
    NeverClamped(block);
    UIsExactWithinOne(block);
    VIsExactWithinOne(block);
  }

  // ----- Down to the bytes of the frame -----

  /** The exact values for components that need not be whole. */
  function RealLuma(r: real, g: real, b: real): real {
    0.299 * r + 0.587 * g + 0.114 * b
  }

  function RealU(r: real, g: real, b: real): real {
    224.0 * (b - RealLuma(r, g, b)) / (1.772 * 255.0) + 128.0
  }

  function RealV(r: real, g: real, b: real): real {
    224.0 * (r - RealLuma(r, g, b)) / (1.402 * 255.0) + 128.0
  }

  lemma OffsetsFit(f: Frame, row: nat, col: nat)
    requires Mapped(f) && row < f.height && col < f.width
    ensures row * f.pitch + 4 * col + 4 <= |f.bgra|
  {
    RowFits(f, row);
  }

  /** Blue, green and red lie in this order at the pixel's offset in the frame. */
  lemma LumaOfBytes(f: Frame, row: nat, col: nat, o: nat)
    requires Mapped(f) && f.height % 2 == 0 && row < f.height && col < f.width && o == row * f.pitch + 4 * col
    ensures o + 4 <= |f.bgra| && row * f.width + col < |Picture(f)|
    ensures var red, green, blue := f.bgra[o + 2] as real, f.bgra[o + 1] as real, f.bgra[o] as real;
            WithinOne(Picture(f)[row * f.width + col], 219.0 * RealLuma(red, green, blue) / 255.0 + 16.0)
  {
    OffsetsFit(f, row, col);
    LumaOfPicture(f, row, col, row * f.width + col);
    hide Picture, Mapped;
  }

  predicate WithinFourThirds(v: int, exact: real) {
    -4.0 <= 3.0 * (v as real - exact) <= 4.0
  }

  /** Rounding the mean of each component down costs at most a third. */
  lemma FlooredMean(p: Rgb, r: real, g: real, b: real)
    requires p.r as real <= r <= p.r as real + 0.75 && p.g as real <= g <= p.g as real + 0.75
    requires p.b as real <= b <= p.b as real + 0.75
    ensures WithinFourThirds(RawU(p), RealU(r, g, b)) && WithinFourThirds(RawV(p), RealV(r, g, b))
  {
    UIsExactWithinOne(p);
    VIsExactWithinOne(p);
    var e := 224.0 / (1.772 * 255.0);
    var h := 224.0 / (1.402 * 255.0);
    assert RealU(r, g, b) - ExactU(p)
           == e * (0.886 * (b - p.b as real) - 0.299 * (r - p.r as real) - 0.587 * (g - p.g as real));
    assert RealV(r, g, b) - ExactV(p)
           == h * (0.701 * (r - p.r as real) - 0.587 * (g - p.g as real) - 0.114 * (b - p.b as real));
  }

  lemma QuarterOf(n: nat)
    ensures (n / 4) as real <= n as real / 4.0 <= (n / 4) as real + 0.75
  {
    var q, m := n / 4, n % 4;
    assert n == 4 * q + m;
  }

  lemma AverageIsMean(p: Rgb, q: Rgb, r: Rgb, s: Rgb, red: real, green: real, blue: real)
    requires red == (p.r as real + q.r as real + r.r as real + s.r as real) / 4.0
    requires green == (p.g as real + q.g as real + r.g as real + s.g as real) / 4.0
    requires blue == (p.b as real + q.b as real + r.b as real + s.b as real) / 4.0
    ensures WithinFourThirds(RawU(Average(p, q, r, s)), RealU(red, green, blue))
    ensures WithinFourThirds(RawV(Average(p, q, r, s)), RealV(red, green, blue))
  {
    QuarterOf(p.r + q.r + r.r + s.r);
    QuarterOf(p.g + q.g + r.g + s.g);
    QuarterOf(p.b + q.b + r.b + s.b);
    FlooredMean(Average(p, q, r, s), red, green, blue);
  }

  /** Four pixels of two rows, at the offsets `o` and `n` and `d` bytes behind them. */
  predicate FourPixels(s: seq<byte>, o: nat, n: nat, d: nat) {
    o + d + 4 <= |s| && n + d + 4 <= |s|
  }

  /** The mean of their bytes `c`: 0 is blue, 1 green, 2 red. */
  function Mean(s: seq<byte>, o: nat, n: nat, d: nat, c: nat): real
    requires FourPixels(s, o, n, d) && c < 4
  {
    (s[o + c] as real + s[n + c] as real + s[o + d + c] as real + s[n + d + c] as real) / 4.0
  }

  predicate IsUOf(u: int, s: seq<byte>, o: nat, n: nat, d: nat)
    requires FourPixels(s, o, n, d)
  {
    WithinFourThirds(u, RealU(Mean(s, o, n, d, 2), Mean(s, o, n, d, 1), Mean(s, o, n, d, 0)))
  }

  predicate IsVOf(v: int, s: seq<byte>, o: nat, n: nat, d: nat)
    requires FourPixels(s, o, n, d)
  {
    WithinFourThirds(v, RealV(Mean(s, o, n, d, 2), Mean(s, o, n, d, 1), Mean(s, o, n, d, 0)))
  }

  lemma NextRowAt(row: nat, d: nat)
    ensures (row + 1) * d == row * d + d
  {
  }

  lemma BlockFits(f: Frame, row: nat, col: nat, next: nat, o: nat, n: nat)
    requires Mapped(f) && row + 1 < f.height && col < f.width
    requires next == (if col + 1 < f.width then col + 1 else col)
    requires o == row * f.pitch + 4 * col && n == row * f.pitch + 4 * next
    ensures FourPixels(f.bgra, o, n, f.pitch)
  {
    NextRowAt(row, f.pitch);
    OffsetsFit(f, row + 1, col);
    OffsetsFit(f, row + 1, next);
  }

  function PixelOf(s: seq<byte>, o: nat): Rgb
    requires o + 4 <= |s|
  {
    Rgb(s[o + 2], s[o + 1], s[o])
  }

  lemma BlockIs(f: Frame, row: nat, col: nat, next: nat, o: nat, n: nat)
    requires Mapped(f) && row + 1 < f.height && col < f.width
    requires next == (if col + 1 < f.width then col + 1 else col)
    requires o == row * f.pitch + 4 * col && n == row * f.pitch + 4 * next && FourPixels(f.bgra, o, n, f.pitch)
    ensures BlockAt(f, row, col) == Average(PixelOf(f.bgra, o), PixelOf(f.bgra, n),
                                            PixelOf(f.bgra, o + f.pitch), PixelOf(f.bgra, n + f.pitch))
  {
    NextRowAt(row, f.pitch);
    RowFits(f, row);
    RowFits(f, row + 1);
    hide Average, Mapped;
  }

  lemma AverageFits(s: seq<byte>, o: nat, n: nat, d: nat)
    requires FourPixels(s, o, n, d)
    ensures var a := Average(PixelOf(s, o), PixelOf(s, n), PixelOf(s, o + d), PixelOf(s, n + d));
            IsUOf(RawU(a), s, o, n, d) && IsVOf(RawV(a), s, o, n, d)
  {
    AverageIsMean(PixelOf(s, o), PixelOf(s, n), PixelOf(s, o + d), PixelOf(s, n + d),
                  Mean(s, o, n, d, 2), Mean(s, o, n, d, 1), Mean(s, o, n, d, 0));
    hide Average, RealU, RealV, RawU, RawV, WithinFourThirds;
  }

  lemma ChromaOfBlock(f: Frame, row: nat, col: nat, next: nat)
    requires Mapped(f) && row < f.height && col < f.width && col % 2 == 0
    requires next == (if col + 1 < f.width then col + 1 else col)
    ensures next > col ==> ChromaByte(f, row, col) == RawU(BlockAt(f, row, col))
    ensures ChromaByte(f, row, next) == RawV(BlockAt(f, row, col))
  {
    hide BlockAt, RawU, RawV, Mapped, Clamp;
    var block := BlockAt(f, row, col);
    NeverClamped(block);
    assert ChromaByte(f, row, col) == Clamp(if next > col then RawU(block) else RawV(block));
    if next > col { assert next % 2 == 1 && next - 1 == col; }
  }

  /** U and V of a block stand for the mean of its four pixels: those at the columns `col` and `next` of two
      rows, `next` being the same column at the end of an odd row, where only V remains. `o` and `n` are the
      offsets of the upper two in the frame. */
  lemma ChromaOfBytes(f: Frame, pair: nat, col: nat, next: nat, o: nat, n: nat)
    requires Mapped(f) && f.height % 2 == 0 && pair < f.height / 2 && col < f.width && col % 2 == 0
    requires next == (if col + 1 < f.width then col + 1 else col)
    requires o == 2 * pair * f.pitch + 4 * col && n == 2 * pair * f.pitch + 4 * next
    ensures FourPixels(f.bgra, o, n, f.pitch)
    ensures f.height * f.width + (pair * f.width + next) < |Picture(f)|
    ensures var start := f.height * f.width + pair * f.width;
            && (next > col ==> IsUOf(Picture(f)[start + col], f.bgra, o, n, f.pitch))
            && IsVOf(Picture(f)[start + next], f.bgra, o, n, f.pitch)
  {
    hide *;
    var row := 2 * pair;
    assert row + 1 < f.height;
    BlockFits(f, row, col, next, o, n);
    BlockIs(f, row, col, next, o, n);
    AverageFits(f.bgra, o, n, f.pitch);
    ChromaOfPicture(f, pair, col, f.height * f.width + (pair * f.width + col));
    ChromaOfPicture(f, pair, next, f.height * f.width + (pair * f.width + next));
    ChromaOfBlock(f, row, col, next);
  }

  // ----- The conversion -----

  lemma LongerLumaLine(f: Frame, row: nat, cols: nat)
    requires Mapped(f) && row < f.height && cols < f.width
    ensures LumaLine(f, row, cols + 1) == LumaLine(f, row, cols) + [Clamp(RawY(PixelAt(f, row, cols)))]
  {
    hide Clamp, RawY, PixelAt, Mapped;
  }

  lemma LongerChromaLine(f: Frame, row: nat, cols: nat)
    requires Mapped(f) && row < f.height && cols < f.width
    ensures ChromaLine(f, row, cols + 1) == ChromaLine(f, row, cols) + [ChromaByte(f, row, cols)]
  {
    hide ChromaByte, Mapped;
  }

  /** The inner loop of the luma pass: one row, at offset `start` of the buffer. */
  method WriteLumaRow(nv12: array<byte>, f: Frame, row: nat, start: nat)
    requires Mapped(f) && row < f.height && start + f.width <= nv12.Length
    modifies nv12
    ensures nv12[..start + f.width] == old(nv12[..start]) + LumaLine(f, row, f.width)
  {
    hide Mapped, LumaLine, PixelAt, RawY, Clamp;
    ghost var before := nv12[..start];
    assert LumaLine(f, row, 0) == [];
    var col := 0;
    while col < f.width
      invariant col <= f.width && nv12[..start + col] == before + LumaLine(f, row, col)
    {
      LongerLumaLine(f, row, col);
      ghost var sofar := nv12[..start + col];
      var p := PixelAt(f, row, col);
      nv12[start + col] := Clamp(RawY(p));
      assert nv12[..start + col + 1] == sofar + [Clamp(RawY(p))];
      col := col + 1;
    }
  }

  /** One turn of the chroma pass: the U and V of the block at (row, col). */
  method WriteBlock(nv12: array<byte>, f: Frame, row: nat, start: nat, col: nat, ghost before: seq<byte>)
    requires Mapped(f) && row < f.height && start + f.width <= nv12.Length && col % 2 == 0 && col < f.width
    requires nv12[..start + col] == before + ChromaLine(f, row, col)
    modifies nv12
    ensures nv12[..start + Least(col + 2, f.width)] == before + ChromaLine(f, row, Least(col + 2, f.width))
  {
    hide Mapped, ChromaLine, BlockAt, RawU, RawV, Clamp;
    ghost var sofar := nv12[..start + col];
    LongerChromaLine(f, row, col);
    var block := BlockAt(f, row, col);
    var u, v := Clamp(RawU(block)), Clamp(RawV(block));
    nv12[start + col] := u;
    var col1 := Least(col + 1, f.width - 1);
    nv12[start + col1] := v;
    if col + 1 < f.width {
      LongerChromaLine(f, row, col + 1);
      TwoMore(nv12[..start + col + 2], sofar, u, v);
      assert sofar + [u, v] == sofar + [u] + [v];
    } else {
      assert nv12[..start + col + 1] == sofar + [v];
    }
  }

  /** The inner loop of the chroma pass: the pixel rows `row` and `row` + 1. */
  method WriteChromaRow(nv12: array<byte>, f: Frame, row: nat, start: nat)
    requires Mapped(f) && row < f.height && start + f.width <= nv12.Length
    modifies nv12
    ensures nv12[..start + f.width] == old(nv12[..start]) + ChromaLine(f, row, f.width)
  {
    hide Mapped, ChromaLine;
    ghost var before := nv12[..start];
    assert ChromaLine(f, row, 0) == [];
    var col := 0;
    while col < f.width
      invariant col % 2 == 0 && col <= f.width + 1
      invariant nv12[..start + Least(col, f.width)] == before + ChromaLine(f, row, Least(col, f.width))
    {
      WriteBlock(nv12, f, row, start, col, before);
      col := col + 2;
    }
  }

  lemma TwoMore(all: seq<byte>, sofar: seq<byte>, u: byte, v: byte)
    requires |all| == |sofar| + 2 && all[..|sofar|] == sofar && all[|sofar|] == u && all[|sofar| + 1] == v
    ensures all == sofar + [u, v]
  {
  }

  method WriteLuma(nv12: array<byte>, f: Frame)
    requires Mapped(f) && f.height * f.width <= nv12.Length
    modifies nv12
    ensures nv12[..f.height * f.width] == LumaPlane(f, f.height)
  {
    hide Mapped, LumaLine;
    var row := 0;
    while row < f.height
      invariant row <= f.height && row * f.width <= nv12.Length
      invariant nv12[..row * f.width] == LumaPlane(f, row)
    {
      NextRowFits(row, f.height, f.width);
      WriteLumaRow(nv12, f, row, row * f.width);
      row := row + 1;
    }
  }

  method WriteChroma(nv12: array<byte>, f: Frame, uvPlane: nat)
    requires Mapped(f) && f.height % 2 == 0 && uvPlane + f.height / 2 * f.width <= nv12.Length
    modifies nv12
    ensures nv12[..uvPlane + f.height / 2 * f.width] == old(nv12[..uvPlane]) + ChromaPlane(f, f.height / 2)
  {
    hide Mapped, ChromaLine;
    ghost var luma := nv12[..uvPlane];
    var row := 0;
    assert luma + ChromaPlane(f, 0) == luma;
    while row < f.height
      invariant row <= f.height && row % 2 == 0 && uvPlane + row / 2 * f.width <= nv12.Length
      invariant nv12[..uvPlane + row / 2 * f.width] == luma + ChromaPlane(f, row / 2)
    {
      ghost var pair := row / 2;
      NextRowFits(pair, f.height / 2, f.width);
      WriteChromaRow(nv12, f, row, uvPlane + row / 2 * f.width);
      OneMoreRow(luma, ChromaPlane(f, pair), ChromaLine(f, row, f.width));
      row := row + 2;
      assert row / 2 == pair + 1;
    }
  }

  /** The buffer is exactly the picture: every byte is written, and none outside. */
  method ConvertBgraToNv12(bgra: seq<byte>, pitch: nat, width: nat, height: nat) returns (nv12: array<byte>)
    requires Mapped(Frame(bgra, pitch, width, height)) && height % 2 == 0
    ensures fresh(nv12) && nv12.Length == width * height * 3 / 2
    ensures nv12[..] == Picture(Frame(bgra, pitch, width, height))
  {
    hide Mapped, LumaPlane, ChromaPlane;
    var f := Frame(bgra, pitch, width, height);
    PictureSize(width, height);
    nv12 := new byte[width * height * 3 / 2];
    WriteLuma(nv12, f);
    WriteChroma(nv12, f, height * width);
    assert nv12[..nv12.Length] == nv12[..];
  }

  lemma NextRowFits(row: nat, rows: nat, width: nat)
    requires row < rows
    ensures (row + 1) * width == row * width + width <= rows * width
  {
    Monotone(row + 1, rows, width);
  }

  lemma OneMoreRow(luma: seq<byte>, plane: seq<byte>, line: seq<byte>)
    ensures luma + plane + line == luma + (plane + line)
  {
  }

  /** The condition is needed: with an odd height the chroma rows do not fit the buffer. */
  lemma ChromaFitsIffEven(width: nat, height: nat)
    requires width > 0 && height > 0
    ensures width * height + (height + 1) / 2 * width <= width * height * 3 / 2 <==> height % 2 == 0
  {
    if height % 2 == 0 {
      PictureSize(width, height);
      assert (height + 1) / 2 == height / 2;
    } else {
      var half := height / 2;
      assert height == 2 * half + 1 && (height + 1) / 2 == half + 1;
      OddSize(width, half);
      assert width * height * 3 / 2 < width * height + (half + 1) * width;
    }
  }

  lemma OddSize(width: nat, half: nat)
    requires width > 0
    ensures width * (2 * half + 1) * 3 < 2 * (width * (2 * half + 1) + (half + 1) * width)
  {
    assert width * (2 * half + 1) == 2 * (width * half) + width;
    assert (half + 1) * width == width * half + width;
  }
}

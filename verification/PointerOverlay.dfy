/** CompositePointer (src/display/DesktopDuplication.cpp): the mouse pointer is drawn into the mapped
    frame, in place, wherever it lies. */
module PointerOverlay {
  import opened BitCodec
  import opened Bytes

  datatype Kind = Monochrome | Color | MaskedColor

  /** DXGI_OUTDUPL_POINTER_SHAPE_INFO and the shape buffer; a monochrome shape is two masks, one below
      the other. */
  datatype Shape = Shape(kind: Kind, width: nat, height: nat, pitch: nat, data: seq<byte>)

  function Rows(s: Shape): nat {
    if s.kind == Monochrome then s.height / 2 else s.height
  }

  /** The shape buffer holds what its description says. */
  predicate Complete(s: Shape) {
    if s.kind == Monochrome then s.width <= 8 * s.pitch && 2 * (Rows(s) * s.pitch) <= |s.data|
    else 4 * s.width <= s.pitch && s.height * s.pitch <= |s.data|
  }

  datatype Surface = Surface(stride: nat, width: nat, height: nat)

  predicate Holds(f: Surface, length: nat) {
    4 * f.width <= f.stride && f.height * f.stride <= length
  }

  // ----- One channel of one pixel -----

  /** The low `n` bits of a ^ b. */
  function XorBits(a: nat, b: nat, n: nat): (r: nat)
    ensures r < Pow2(n)
  {
    if n == 0 then 0 else 2 * XorBits(a / 2, b / 2, n - 1) + (a % 2 + b % 2) % 2
  }

  function Xor(a: byte, b: byte): byte {
    assert Pow2(8) == 256 by { assert Pow2(4) == 16; }
    XorBits(a, b, 8)
  }

  lemma BitTwice(p: nat, q: nat)
    requires p < 2 && q < 2
    ensures ((p + q) % 2 + q) % 2 == p
  {
  }

  lemma HalfAndBit(half: nat, bit: nat)
    requires bit < 2
    ensures (2 * half + bit) / 2 == half && (2 * half + bit) % 2 == bit
  {
  }

  lemma {:induction false} XorBitsTwice(a: nat, b: nat, n: nat)
    requires a < Pow2(n)
    ensures XorBits(XorBits(a, b, n), b, n) == a
    decreases n
  {
    if n > 0 {
      XorBitsTwice(a / 2, b / 2, n - 1);
      var half, bit := XorBits(a / 2, b / 2, n - 1), (a % 2 + b % 2) % 2;
      var x := 2 * half + bit;
      assert XorBits(a, b, n) == x;
      assert XorBits(x, b, n) == 2 * XorBits(x / 2, b / 2, n - 1) + (x % 2 + b % 2) % 2;
      hide XorBits, Pow2;
      HalfAndBit(half, bit);
      BitTwice(a % 2, b % 2);
    }
  }

  /** A straight alpha blend, rounded down. */
  function Blend(src: byte, dst: byte, alpha: byte): (r: byte)
    ensures (src <= dst ==> src <= r <= dst) && (dst <= src ==> dst <= r <= src)
    ensures alpha == 255 ==> r == src
    ensures alpha == 0 ==> r == dst
  {
    BlendBetween(src, dst, alpha);
    (src * alpha + dst * (255 - alpha)) / 255
  }

  lemma BlendBetween(src: int, dst: int, alpha: int)
    requires 0 <= src < 256 && 0 <= dst < 256 && 0 <= alpha < 256
    ensures var r := (src * alpha + dst * (255 - alpha)) / 255;
            (src <= dst ==> src <= r <= dst) && (dst <= src ==> dst <= r <= src)
  {
    var sum := src * alpha + dst * (255 - alpha);
    if src <= dst {
      assert sum == 255 * src + (dst - src) * (255 - alpha);
      assert sum == 255 * dst - (dst - src) * alpha;
      NotNegative(dst - src, 255 - alpha);
      NotNegative(dst - src, alpha);
    } else {
      assert sum == 255 * dst + (src - dst) * alpha;
      assert sum == 255 * src - (src - dst) * (255 - alpha);
      NotNegative(src - dst, 255 - alpha);
      NotNegative(src - dst, alpha);
    }
  }

  lemma NotNegative(a: int, b: int)
    requires a >= 0 && b >= 0
    ensures a * b >= 0
  {
  }

  /** The bit of the mask that starts at `base` for (x, y). */
  function MaskBit(s: Shape, base: nat, x: nat, y: nat): nat
    requires base + y * s.pitch + x / 8 < |s.data|
  {
    ShiftRight(s.data[base + y * s.pitch + x / 8], 7 - x % 8) % 2
  }

  lemma RowInside(y: nat, rows: nat, pitch: nat)
    requires y < rows
    ensures y * pitch + pitch <= rows * pitch
  {
    assert (y + 1) * pitch <= rows * pitch;
    assert (y + 1) * pitch == y * pitch + pitch;
  }

  /** The AND and the XOR mask. */
  function Keep(s: Shape, x: nat, y: nat): nat
    requires Complete(s) && x < s.width && y < Rows(s) && s.kind == Monochrome
  {
    RowInside(y, Rows(s), s.pitch);
    MaskBit(s, 0, x, y)
  }

  function Invert(s: Shape, x: nat, y: nat): nat
    requires Complete(s) && x < s.width && y < Rows(s) && s.kind == Monochrome
  {
    RowInside(y, Rows(s), s.pitch);
    MaskBit(s, Rows(s) * s.pitch, x, y)
  }

  /** What channel `c` (0 to 2: blue, green, red; 3: alpha) of a screen pixel becomes under (x, y) of the
      shape. */
  function Mixed(s: Shape, x: nat, y: nat, c: nat, screen: byte): byte
    requires Complete(s) && x < s.width && y < Rows(s) && c < 4
  {
    if c == 3 then screen
    else if s.kind == Monochrome then
      if Keep(s, x, y) == 0 then (if Invert(s, x, y) == 0 then 0 else 255)
      else if Invert(s, x, y) == 1 then 255 - screen else screen
    else
      RowInside(y, Rows(s), s.pitch);
      var at := y * s.pitch + 4 * x;
      var src, alpha := s.data[at + c], s.data[at + 3];
      if s.kind == MaskedColor then (if alpha == 0 then src else Xor(screen, src)) else Blend(src, screen, alpha)
  }

  lemma XorTwice(a: byte, b: byte)
    ensures Xor(Xor(a, b), b) == a
  {
    assert Pow2(8) == 256 by { assert Pow2(4) == 16; }
    XorBitsTwice(a, b, 8);
    hide XorBits, Pow2;
  }

  /** A point of the shape that keeps, inverts or XORs the screen. */
  predicate Reversible(s: Shape, x: nat, y: nat)
    requires Complete(s) && x < s.width && y < Rows(s)
  {
    if s.kind == Monochrome then Keep(s, x, y) != 0
    else
      RowInside(y, Rows(s), s.pitch);
      s.kind == MaskedColor && s.data[y * s.pitch + 4 * x + 3] != 0
  }

  /** Drawing it a second time restores the screen. */
  lemma DrawnTwice(s: Shape, x: nat, y: nat, c: nat, v: byte)
    requires Complete(s) && x < s.width && y < Rows(s) && c < 4 && Reversible(s, x, y)
    ensures Mixed(s, x, y, c, Mixed(s, x, y, c, v)) == v
  {
    RowInside(y, Rows(s), s.pitch);
    if s.kind == MaskedColor { XorTwice(v, s.data[y * s.pitch + 4 * x + c]); }
    hide Keep, Invert, Xor;
  }

  // ----- What a point of the shape does -----

  /** Bit `i` of a byte, counted from the least significant. */
  function BitOf(v: byte, i: nat): nat {
    v / Pow2(i) % 2
  }

  lemma {:induction false} ShiftIsQuotient(n: nat, i: nat)
    ensures ShiftRight(n, i) == n / Pow2(i)
    decreases i
  {
    if i > 0 {
      ShiftIsQuotient(n / 2, i - 1);
      HalfFirst(n, Pow2(i - 1));
    }
  }

  lemma HalfFirst(n: nat, p: nat)
    requires p > 0
    ensures n / 2 / p == n / (2 * p)
  {
    var q := n / (2 * p);
    var r := n % (2 * p);
    assert n == 2 * p * q + r;
    assert 2 * p * q == 2 * (p * q);
    assert n / 2 == p * q + r / 2;
    QuotientOf(p, q, r / 2);
  }

  lemma QuotientOf(p: nat, q: nat, r: nat)
    requires r < p
    ensures (p * q + r) / p == q
  {
    var m := (p * q + r) / p;
    assert p * m <= p * q + r < p * m + p;
    assert p * (q + 1) == p * q + p && p * (m + 1) == p * m + p;
    Smaller(p, m, q + 1);
    Smaller(p, q, m + 1);
  }

  lemma Smaller(p: nat, a: nat, b: nat)
    requires p * a < p * b
    ensures a < b
  {
  }

  /** A monochrome shape: eight points a byte, the most significant first, and the second mask half the
      height below the first. 0 and 0 is black, 0 and 1 white, 1 and 0 the screen, 1 and 1 its inverse. */
  lemma MonochromeMeans(s: Shape, x: nat, y: nat, c: nat, screen: byte)
    requires Complete(s) && s.kind == Monochrome && x < s.width && y < s.height / 2 && c < 3
    ensures y * s.pitch + x / 8 < |s.data| && s.height / 2 * s.pitch + y * s.pitch + x / 8 < |s.data|
    ensures var bit := 7 - x % 8;
            var keep := BitOf(s.data[y * s.pitch + x / 8], bit);
            var flip := BitOf(s.data[s.height / 2 * s.pitch + y * s.pitch + x / 8], bit);
            && (keep == 0 && flip == 0 ==> Mixed(s, x, y, c, screen) == 0)
            && (keep == 0 && flip == 1 ==> Mixed(s, x, y, c, screen) == 255)
            && (keep == 1 && flip == 0 ==> Mixed(s, x, y, c, screen) == screen)
            && (keep == 1 && flip == 1 ==> Mixed(s, x, y, c, screen) == 255 - screen)
  {
    RowInside(y, Rows(s), s.pitch);
    ShiftIsQuotient(s.data[y * s.pitch + x / 8], 7 - x % 8);
    ShiftIsQuotient(s.data[s.height / 2 * s.pitch + y * s.pitch + x / 8], 7 - x % 8);
    hide ShiftRight, Pow2;
  }

  lemma {:induction false} XorBit(a: nat, b: nat, n: nat, i: nat)
    requires i < n
    ensures XorBits(a, b, n) / Pow2(i) % 2 == (a / Pow2(i) % 2 + b / Pow2(i) % 2) % 2
    decreases n
  {
    var half, bit := XorBits(a / 2, b / 2, n - 1), (a % 2 + b % 2) % 2;
    assert XorBits(a, b, n) == 2 * half + bit;
    HalfAndBit(half, bit);
    if i > 0 {
      XorBit(a / 2, b / 2, n - 1, i - 1);
      var p := Pow2(i - 1);
      HalfFirst(a, p);
      HalfFirst(b, p);
      HalfFirst(2 * half + bit, p);
    } else {
      assert Pow2(0) == 1;
    }
  }

  /** A colour shape: blue, green, red and alpha a point. COLOR blends; MASKED_COLOR takes the point where
      its alpha is 0, and else flips the bits of the screen that are set in it. */
  lemma ColorMeans(s: Shape, x: nat, y: nat, c: nat, screen: byte)
    requires Complete(s) && s.kind != Monochrome && x < s.width && y < s.height && c < 3
    ensures y * s.pitch + 4 * x + 3 < |s.data|
    ensures var point, alpha := s.data[y * s.pitch + 4 * x + c], s.data[y * s.pitch + 4 * x + 3];
            var mixed := Mixed(s, x, y, c, screen);
            && (alpha == 0 ==> mixed == if s.kind == Color then screen else point)
            && (alpha == 255 && s.kind == Color ==> mixed == point)
            && (s.kind == Color ==>
                  255 * mixed <= point * alpha + screen * (255 - alpha) < 255 * (mixed + 1))
            && (alpha != 0 && s.kind == MaskedColor ==>
                  forall i: nat :: i < 8 ==> BitOf(mixed, i) == (BitOf(screen, i) + BitOf(point, i)) % 2)
  {
    RowInside(y, Rows(s), s.pitch);
    var point, alpha := s.data[y * s.pitch + 4 * x + c], s.data[y * s.pitch + 4 * x + 3];
    if s.kind == MaskedColor {
      XorMeans(screen, point);
      hide Xor, BitOf;
    } else {
      BlendMeans(point, screen, alpha);
      hide Blend;
    }
  }

  lemma XorMeans(a: byte, b: byte)
    ensures forall i: nat :: i < 8 ==> BitOf(Xor(a, b), i) == (BitOf(a, i) + BitOf(b, i)) % 2
  {
    forall i: nat | i < 8 ensures BitOf(Xor(a, b), i) == (BitOf(a, i) + BitOf(b, i)) % 2 {
      XorBit(a, b, 8, i);
      hide XorBits, Pow2;
    }
  }

  lemma BlendMeans(src: byte, dst: byte, alpha: byte)
    ensures var r := Blend(src, dst, alpha); 255 * r <= src * alpha + dst * (255 - alpha) < 255 * (r + 1)
  {
  }

  // ----- The frame -----

  function Offset(f: Surface, fx: int, fy: int, c: int): int {
    fy * f.stride + 4 * fx + c
  }

  predicate InFrame(f: Surface, fx: int, fy: int) {
    0 <= fx < f.width && 0 <= fy < f.height
  }

  lemma OffsetInside(f: Surface, length: nat, fx: int, fy: int, c: int)
    requires Holds(f, length) && InFrame(f, fx, fy) && 0 <= c < 4
    ensures 0 <= Offset(f, fx, fy, c) < length
  {
    RowInside(fy, f.height, f.stride);
    NotNegative(fy, f.stride);
  }

  lemma OffsetsDiffer(f: Surface, fx: int, fy: int, c: int, gx: int, gy: int, d: int)
    requires 4 * f.width <= f.stride && InFrame(f, fx, fy) && InFrame(f, gx, gy) && 0 <= c < 4 && 0 <= d < 4
    requires fx != gx || fy != gy || c != d
    ensures Offset(f, fx, fy, c) != Offset(f, gx, gy, d)
  {
    if fy < gy {
      RowInside(fy, gy, f.stride);
    } else if gy < fy {
      RowInside(gy, fy, f.stride);
    }
  }

  /** (x, y) of the shape has been drawn when the loops stand at (atX, atY). */
  predicate Drawn(x: int, y: int, atX: int, atY: int) {
    y < atY || (y == atY && x < atX)
  }

  predicate Under(s: Shape, x: int, y: int) {
    0 <= x < s.width && 0 <= y < Rows(s)
  }

  /** Channel `c` of the pixel at (fx, fy), with the shape at (posX, posY) drawn up to (atX, atY). */
  function Expected(s: Shape, posX: int, posY: int, atX: int, atY: int, fx: int, fy: int, c: nat, screen: byte): byte
    requires Complete(s) && c < 4
  {
    if Under(s, fx - posX, fy - posY) && Drawn(fx - posX, fy - posY, atX, atY) then Mixed(s, fx - posX, fy - posY, c, screen)
    else screen
  }

  /** A byte of no pixel: the end of a row, or behind the last one. */
  ghost predicate Padding(f: Surface, k: int) {
    forall fx, fy, c :: InFrame(f, fx, fy) && 0 <= c < 4 ==> Offset(f, fx, fy, c) != k
  }

  /** Every pixel is as expected, and what is no pixel is untouched. */
  ghost predicate Progress(now: seq<byte>, was: seq<byte>, f: Surface, s: Shape, posX: int, posY: int, atX: int, atY: int)
    requires Complete(s) && Holds(f, |was|)
  {
    && |now| == |was|
    && (forall fx, fy, c: nat :: InFrame(f, fx, fy) && c < 4 ==>
          PixelOk(now, was, f, s, posX, posY, atX, atY, fx, fy, c))
    && (forall k :: 0 <= k < |was| && Padding(f, k) ==> now[k] == was[k])
  }

  predicate PixelOk(now: seq<byte>, was: seq<byte>, f: Surface, s: Shape, posX: int, posY: int, atX: int, atY: int,
                    fx: int, fy: int, c: nat)
    requires Complete(s) && Holds(f, |was|) && |now| == |was| && InFrame(f, fx, fy) && c < 4
  {
    OffsetInside(f, |was|, fx, fy, c);
    var at := Offset(f, fx, fy, c);
    now[at] == Expected(s, posX, posY, atX, atY, fx, fy, c, was[at])
  }

  /** One turn of the inner loop that lies in the frame. */
  method DrawPixel(bgra: array<byte>, f: Surface, s: Shape, posX: int, posY: int, x: nat, y: nat, ghost was: seq<byte>)
    requires Complete(s) && Holds(f, |was|) && x < s.width && y < Rows(s) && InFrame(f, posX + x, posY + y)
    requires Progress(bgra[..], was, f, s, posX, posY, x, y)
    modifies bgra
    ensures Progress(bgra[..], was, f, s, posX, posY, x + 1, y)
  {
    hide Mixed, Complete, Offset, Padding, Holds;
    var fx, fy := posX + x, posY + y;
    OffsetInside(f, |was|, fx, fy, 0);
    OffsetInside(f, |was|, fx, fy, 2);
    var at := Offset(f, fx, fy, 0);
    NextChannels(f, fx, fy);
    ghost var before := bgra[..];
    assert PixelOk(before, was, f, s, posX, posY, x, y, fx, fy, 0);
    assert PixelOk(before, was, f, s, posX, posY, x, y, fx, fy, 1);
    assert PixelOk(before, was, f, s, posX, posY, x, y, fx, fy, 2);
    bgra[at] := Mixed(s, x, y, 0, bgra[at]);
    bgra[at + 1] := Mixed(s, x, y, 1, bgra[at + 1]);
    bgra[at + 2] := Mixed(s, x, y, 2, bgra[at + 2]);
    PixelDrawn(before, bgra[..], was, f, s, posX, posY, x, y);
  }

  lemma NextChannels(f: Surface, fx: int, fy: int)
    ensures Offset(f, fx, fy, 1) == Offset(f, fx, fy, 0) + 1 && Offset(f, fx, fy, 2) == Offset(f, fx, fy, 0) + 2
    ensures Offset(f, fx, fy, 3) == Offset(f, fx, fy, 0) + 3
  {
  }

  lemma PixelDrawn(before: seq<byte>, now: seq<byte>, was: seq<byte>, f: Surface, s: Shape, posX: int, posY: int, x: nat,
                   y: nat)
    requires Complete(s) && Holds(f, |was|) && x < s.width && y < Rows(s) && InFrame(f, posX + x, posY + y)
    requires Progress(before, was, f, s, posX, posY, x, y) && |now| == |before|
    requires var at := Offset(f, posX + x, posY + y, 0);
             && 0 <= at && at + 2 < |before|
             && now[at] == Mixed(s, x, y, 0, was[at]) && now[at + 1] == Mixed(s, x, y, 1, was[at + 1])
             && now[at + 2] == Mixed(s, x, y, 2, was[at + 2])
             && (forall k :: 0 <= k < |before| && !(at <= k < at + 3) ==> now[k] == before[k])
    ensures Progress(now, was, f, s, posX, posY, x + 1, y)
  {
    hide Complete, Offset, Mixed, Padding;
    var fx, fy := posX + x, posY + y;
    NextChannels(f, fx, fy);
    var next := x + 1;
    forall gx, gy, c: nat | InFrame(f, gx, gy) && c < 4
      ensures PixelOk(now, was, f, s, posX, posY, next, y, gx, gy, c)
    {
      OffsetInside(f, |was|, gx, gy, c);
      assert PixelOk(before, was, f, s, posX, posY, x, y, gx, gy, c);
      var k := Offset(f, gx, gy, c);
      if gx == fx && gy == fy {
        if c == 3 { AlphaKept(s, x, y, was[k]); }
      } else {
        OffsetsDiffer(f, gx, gy, c, fx, fy, 0);
        OffsetsDiffer(f, gx, gy, c, fx, fy, 1);
        OffsetsDiffer(f, gx, gy, c, fx, fy, 2);
      }
    }
    forall k | 0 <= k < |was| && Padding(f, k) ensures now[k] == was[k] {
      NotAPixel(f, k, fx, fy);
    }
  }

  lemma NotAPixel(f: Surface, k: int, fx: int, fy: int)
    requires Padding(f, k) && InFrame(f, fx, fy)
    ensures forall c :: 0 <= c < 4 ==> Offset(f, fx, fy, c) != k
  {
    hide Offset;
  }

  lemma AlphaKept(s: Shape, x: nat, y: nat, v: byte)
    requires Complete(s) && x < s.width && y < Rows(s)
    ensures Mixed(s, x, y, 3, v) == v
  {
  }

  /** A point of the shape outside the frame changes nothing. */
  lemma Skipped(now: seq<byte>, was: seq<byte>, f: Surface, s: Shape, posX: int, posY: int, x: nat, y: nat)
    requires Complete(s) && Holds(f, |was|) && Progress(now, was, f, s, posX, posY, x, y)
    requires !InFrame(f, posX + x, posY + y)
    ensures Progress(now, was, f, s, posX, posY, x + 1, y)
  {
    hide Complete, Offset, Mixed, Padding;
    var next := x + 1;
    forall gx, gy, c: nat | InFrame(f, gx, gy) && c < 4
      ensures PixelOk(now, was, f, s, posX, posY, next, y, gx, gy, c)
    {
      OffsetInside(f, |was|, gx, gy, c);
      assert PixelOk(now, was, f, s, posX, posY, x, y, gx, gy, c);
    }
  }

  lemma RowDone(now: seq<byte>, was: seq<byte>, f: Surface, s: Shape, posX: int, posY: int, y: nat)
    requires Complete(s) && Holds(f, |was|) && Progress(now, was, f, s, posX, posY, s.width, y)
    ensures Progress(now, was, f, s, posX, posY, 0, y + 1)
  {
    hide Complete, Offset, Mixed, Padding;
    var next := y + 1;
    forall gx, gy, c: nat | InFrame(f, gx, gy) && c < 4
      ensures PixelOk(now, was, f, s, posX, posY, 0, next, gx, gy, c)
    {
      OffsetInside(f, |was|, gx, gy, c);
      assert PixelOk(now, was, f, s, posX, posY, s.width, y, gx, gy, c);
    }
  }

  lemma NothingDrawn(was: seq<byte>, f: Surface, s: Shape, posX: int, posY: int)
    requires Complete(s) && Holds(f, |was|)
    ensures Progress(was, was, f, s, posX, posY, 0, 0)
  {
    hide Complete, Offset, Mixed, Padding, Holds;
  }

  /** The whole pointer: wherever it lies, also partly or wholly outside, every pixel of the frame under
      it is mixed once with the pixel of the shape above it, and no other byte changes. */
  method CompositePointer(bgra: array<byte>, f: Surface, s: Shape, posX: int, posY: int)
    requires Complete(s) && Holds(f, bgra.Length)
    modifies bgra
    ensures Progress(bgra[..], old(bgra[..]), f, s, posX, posY, 0, Rows(s))
  {
    hide Complete, Progress, Holds;
    ghost var was := bgra[..];
    NothingDrawn(was, f, s, posX, posY);
    var y := 0;
    while y < Rows(s)
      invariant y <= Rows(s) && Progress(bgra[..], was, f, s, posX, posY, 0, y)
    {
      var x := 0;
      while x < s.width
        invariant x <= s.width && Progress(bgra[..], was, f, s, posX, posY, x, y)
      {
        if InFrame(f, posX + x, posY + y) {
          DrawPixel(bgra, f, s, posX, posY, x, y, was);
        } else {
          Skipped(bgra[..], was, f, s, posX, posY, x, y);
        }
        x := x + 1;
      }
      RowDone(bgra[..], was, f, s, posX, posY, y);
      y := y + 1;
    }
  }
}

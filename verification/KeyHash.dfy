/** The input of the host-key hash of a Secure Execution image header, and the search for the
key slot that carries the hash.

An uncompressed curve point is the byte 4 followed by its two coordinates, each in the number
of bytes the field needs (section 2.3.3 of SEC 1).  Coordinates are padded to a fixed length
in big-endian order (section 4.1 of RFC 8017).
*/
module KeyHash {

  type Byte = n: int | 0 <= n < 256

  // ---------------------------------------------------------------- integers and bytes

  function Pow256(k: nat): (r: nat)
    ensures r > 0
  {
    if k == 0 then 1 else 256 * Pow256(k - 1)
  }

  /** int.from_bytes(bs, 'big') */
  function Value(bs: seq<Byte>): nat {
    if bs == [] then 0 else 256 * Value(bs[..|bs| - 1]) + bs[|bs| - 1]
  }

  /** n.to_bytes(len, 'big') for an n that fits. */
  function ToBytes(n: nat, len: nat): seq<Byte>
    decreases len
  {
    if len == 0 then [] else ToBytes(n / 256, len - 1) + [n % 256]
  }

  function BitLength(n: nat): nat {
    if n == 0 then 0 else 1 + BitLength(n / 2)
  }

  function ByteLength(n: nat): nat {
    (BitLength(n) + 7) / 8
  }

  function Zeros(k: nat): seq<Byte> {
    seq(k, _ => 0)
  }

  /** Python's s[-k:] for 0 <= k <= |s|: with k == 0 that is all of s. */
  function Last<T>(s: seq<T>, k: nat): seq<T>
    requires k <= |s|
  {
    if k == 0 then s else s[|s| - k..]
  }

  /** bn_bn2binpad */
  function BinPad(n: nat, size: nat): seq<Byte> {
    var bs := ToBytes(n, ByteLength(n));
    if |bs| < size then Zeros(size - |bs|) + bs
    else if |bs| > size then Last(bs, size)
    else bs
  }

  // ---------------------------------------------------------------- arithmetic of the encodings

  lemma {:induction false} ToBytesLength(n: nat, len: nat)
    ensures |ToBytes(n, len)| == len
    decreases len
  {
    if len > 0 {
      ToBytesLength(n / 256, len - 1);
    }
  }

  lemma {:induction false} ToBytesValue(n: nat, len: nat)
    requires n < Pow256(len)
    ensures Value(ToBytes(n, len)) == n
    decreases len
  {
    if len > 0 {
      ToBytesValue(n / 256, len - 1);
      var init := ToBytes(n / 256, len - 1);
      assert (init + [n % 256])[..|init|] == init;
    }
  }

  /** to_bytes is given enough bytes: 256^ByteLength(n) exceeds n. */
  lemma {:induction false} FitsByteLength(n: nat)
    ensures n < Pow256(ByteLength(n))
  {
    if n < 256 {
      SmallByteLength(n);
    } else {
      FitsByteLength(n / 256);
      EightBits(n);
    }
  }

  lemma SmallByteLength(n: nat)
    requires n < 256
    ensures n < Pow256(ByteLength(n))
  {
    if n > 0 {
      assert BitLength(n) >= 1;
      assert ByteLength(n) >= 1;
      assert Pow256(1) == 256;
      PowMonotone(1, ByteLength(n));
    }
  }

  lemma {:induction false} PowMonotone(a: nat, b: nat)
    requires a <= b
    ensures Pow256(a) <= Pow256(b)
  {
    if a < b {
      PowMonotone(a, b - 1);
    }
  }

  lemma EightBits(n: nat)
    requires n >= 256
    ensures ByteLength(n) == ByteLength(n / 256) + 1
  {
    var a, b := n / 4, n / 16;
    var c := b / 4;
    TwoBits(n);
    TwoBits(a);
    TwoBits(b);
    TwoBits(c);
    assert a / 4 == b && c / 4 == n / 256;
  }

  lemma TwoBits(n: nat)
    requires n >= 4
    ensures BitLength(n) == 2 + BitLength(n / 4)
  {
    var h := n / 2;
    assert BitLength(n) == 1 + BitLength(h);
    assert h / 2 == n / 4;
  }

  lemma {:induction false} ValueBound(bs: seq<Byte>)
    ensures Value(bs) < Pow256(|bs|)
  {
    if bs != [] {
      ValueBound(bs[..|bs| - 1]);
    }
  }

  lemma {:induction false} ValueConcat(a: seq<Byte>, b: seq<Byte>)
    ensures Value(a + b) == Value(a) * Pow256(|b|) + Value(b)
  {
    if b == [] {
      assert a + b == a;
    } else {
      var init, last := b[..|b| - 1], b[|b| - 1];
      assert (a + b)[..|a + b| - 1] == a + init;
      ValueConcat(a, init);
      Shift(Value(a), Pow256(|init|), Value(init), last);
    }
  }

  lemma Shift(v: nat, p: nat, w: nat, last: nat)
    ensures 256 * (v * p + w) + last == v * (256 * p) + (256 * w + last)
  {}

  lemma {:induction false} ZerosValue(k: nat)
    ensures Value(Zeros(k)) == 0
  {
    if k > 0 {
      assert Zeros(k)[..k - 1] == Zeros(k - 1);
      ZerosValue(k - 1);
    }
  }

  /** A byte string is determined by its length and its value. */
  lemma {:induction false} ValueInjective(a: seq<Byte>, b: seq<Byte>)
    requires |a| == |b| && Value(a) == Value(b)
    ensures a == b
  {
    if a != [] {
      ValueInjective(a[..|a| - 1], b[..|b| - 1]);
      assert a == a[..|a| - 1] + [a[|a| - 1]];
      assert b == b[..|b| - 1] + [b[|b| - 1]];
    }
  }

  /** Cutting off the front takes the value modulo a power of 256. */
  lemma SuffixValue(bs: seq<Byte>, k: nat)
    requires k <= |bs|
    ensures Value(bs[|bs| - k..]) == Value(bs) % Pow256(k)
  {
    var front, back := bs[..|bs| - k], bs[|bs| - k..];
    assert bs == front + back;
    ValueConcat(front, back);
    ValueBound(back);
    Remainder(Value(front), Pow256(k), Value(back));
  }

  lemma Remainder(q: nat, m: nat, r: nat)
    requires r < m
    ensures (q * m + r) % m == r
  {
    var a := q * m + r;
    var q0, r0 := a / m, a % m;
    var d := q - q0;
    assert a == q0 * m + r0;
    assert d * m == r0 - r by { assert d * m == q * m - q0 * m; }
    assert -d * m == -(d * m);
    if d > 0 {
      AtLeast(d, m);
    } else if d < 0 {
      AtLeast(-d, m);
    }
  }

  lemma AtLeast(d: nat, m: nat)
    requires d > 0
    ensures d * m >= m
  {}

  lemma SmallRemainder(n: nat, m: nat)
    requires n < m
    ensures n % m == n
  {}

  // ---------------------------------------------------------------- padding

  lemma BinPadValue(n: nat, size: nat)
    requires size > 0
    ensures |BinPad(n, size)| == size && Value(BinPad(n, size)) == n % Pow256(size)
  {
    hide Value, ToBytes, Pow256, ByteLength;
    var len := ByteLength(n);
    var bs := ToBytes(n, len);
    ToBytesLength(n, len);
    FitsByteLength(n);
    ToBytesValue(n, len);
    if len <= size {
      PowMonotone(len, size);
      SmallRemainder(n, Pow256(size));
      LeadingZeros(size - len, bs);
      assert len == size ==> Zeros(0) + bs == bs;
    } else {
      SuffixValue(bs, size);
    }
  }

  lemma LeadingZeros(k: nat, bs: seq<Byte>)
    ensures Value(Zeros(k) + bs) == Value(bs)
  {
    ZerosValue(k);
    ValueConcat(Zeros(k), bs);
  }

  /** The padded form has exactly `size` bytes and the value n mod 256^size, except for size 0,
      where it is the whole number.
   */
  lemma BinPadExactlyWhen(n: nat, size: nat)
    ensures (|BinPad(n, size)| == size && Value(BinPad(n, size)) == n % Pow256(size)) <==> size > 0 || n == 0
  {
    if size > 0 {
      BinPadValue(n, size);
    } else {
      ToBytesLength(n, ByteLength(n));
      FitsByteLength(n);
    }
  }

  lemma BinPadInjective(m: nat, n: nat, size: nat)
    requires size > 0 && m < Pow256(size) && n < Pow256(size)
    ensures BinPad(m, size) == BinPad(n, size) <==> m == n
  {
    BinPadValue(m, size);
    BinPadValue(n, size);
    SmallRemainder(m, Pow256(size));
    SmallRemainder(n, Pow256(size));
  }

  // ---------------------------------------------------------------- splitting the point

  /** Bytes per coordinate of a curve with this key size. */
  function Width(keySize: nat): nat {
    (keySize + 7) / 8
  }

  function Uncompressed(x: seq<Byte>, y: seq<Byte>): seq<Byte> {
    [4] + x + y
  }

  /** ec_point_to_affine_coordinates: slices clip to the end, as in Python. */
  function Split(point: seq<Byte>, keySize: nat): (seq<Byte>, seq<Byte>)
    requires point != []
  {
    var at := keySize / 8 + 2;
    if at <= |point| then (point[1..at], point[at..]) else (point[1..], [])
  }

  /** For key sizes not divisible by 8 the split gives the coordinates; for the others the first
      byte of y goes to x.
   */
  lemma SplitShape(x: seq<Byte>, y: seq<Byte>, keySize: nat)
    requires keySize > 0 && |x| == |y| == Width(keySize)
    ensures Split(Uncompressed(x, y), keySize) == if keySize % 8 != 0 then (x, y) else (x + y[..1], y[1..])
  {
    var p := Uncompressed(x, y);
    var at := keySize / 8 + 2;
    var (px, py) := Split(p, keySize);
    if keySize % 8 != 0 {
      assert px == x && py == y;
    } else {
      assert px == x + y[..1];
      assert py == y[1..];
    }
  }

  /** The split recovers both coordinates exactly when the key size is not divisible by 8, or x
      is zero and y starts with a zero byte.
   */
  lemma SplitRecoversExactlyWhen(x: seq<Byte>, y: seq<Byte>, keySize: nat)
    requires keySize > 0 && |x| == |y| == Width(keySize)
    ensures var (px, py) := Split(Uncompressed(x, y), keySize);
            (Value(px) == Value(x) && Value(py) == Value(y)) <==> keySize % 8 != 0 || (Value(x) == 0 && y[0] == 0)
  {
    SplitShape(x, y, keySize);
    if keySize % 8 == 0 {
      assert (x + y[..1])[..|x|] == x && (x + y[..1])[|x|] == y[0];
      assert Value(x + y[..1]) == 256 * Value(x) + y[0];
      assert y[..1] + y[1..] == y;
      ValueConcat(y[..1], y[1..]);
      assert Value(y[..1]) == y[0] by { assert y[..1][..0] == []; }
    }
  }

  // ---------------------------------------------------------------- the hash input

  const COORDINATE_SIZE := 80

  /** What parse_img_phkh_from_hkd feeds to SHA-256. */
  function HashInput(point: seq<Byte>, keySize: nat): seq<Byte>
    requires point != []
  {
    var (px, py) := Split(point, keySize);
    BinPad(Value(px), COORDINATE_SIZE) + BinPad(Value(py), COORDINATE_SIZE)
  }

  lemma PaddedPair(a: nat, b: nat, c: nat, d: nat)
    requires a < Pow256(COORDINATE_SIZE) && b < Pow256(COORDINATE_SIZE) && c < Pow256(COORDINATE_SIZE)
        && d < Pow256(COORDINATE_SIZE)
    ensures |BinPad(a, COORDINATE_SIZE) + BinPad(b, COORDINATE_SIZE)| == 160
    ensures BinPad(a, COORDINATE_SIZE) + BinPad(b, COORDINATE_SIZE)
              == BinPad(c, COORDINATE_SIZE) + BinPad(d, COORDINATE_SIZE)
       <==> a == c && b == d
  {
    hide BinPad;
    var pa, pb := BinPad(a, COORDINATE_SIZE), BinPad(b, COORDINATE_SIZE);
    var pc, pd := BinPad(c, COORDINATE_SIZE), BinPad(d, COORDINATE_SIZE);
    BinPadValue(a, COORDINATE_SIZE);
    BinPadValue(b, COORDINATE_SIZE);
    BinPadValue(c, COORDINATE_SIZE);
    BinPadValue(d, COORDINATE_SIZE);
    BinPadInjective(a, c, COORDINATE_SIZE);
    BinPadInjective(b, d, COORDINATE_SIZE);
    if pa + pb == pc + pd {
      assert pa == (pa + pb)[..COORDINATE_SIZE] && pc == (pc + pd)[..COORDINATE_SIZE];
      assert pb == (pa + pb)[COORDINATE_SIZE..] && pd == (pc + pd)[COORDINATE_SIZE..];
    }
  }

  lemma Small(bs: seq<Byte>)
    requires |bs| <= COORDINATE_SIZE
    ensures Value(bs) < Pow256(COORDINATE_SIZE)
  {
    ValueBound(bs);
    PowMonotone(|bs|, COORDINATE_SIZE);
  }

  /** The hash input is the two padded coordinates exactly when the split recovers them. */
  lemma HashInputFaithfulExactlyWhen(x: seq<Byte>, y: seq<Byte>, keySize: nat)
    requires keySize > 0 && |x| == |y| == Width(keySize) < COORDINATE_SIZE
    ensures HashInput(Uncompressed(x, y), keySize) == BinPad(Value(x), COORDINATE_SIZE)
        + BinPad(Value(y), COORDINATE_SIZE)
       <==> keySize % 8 != 0 || (Value(x) == 0 && y[0] == 0)
  {
    hide BinPad, Value;
    SplitShape(x, y, keySize);
    SplitRecoversExactlyWhen(x, y, keySize);
    var (px, py) := Split(Uncompressed(x, y), keySize);
    Small(px);
    Small(py);
    Small(x);
    Small(y);
    PaddedPair(Value(px), Value(py), Value(x), Value(y));
  }

  /** Different points of one curve give different hash inputs of 160 bytes, whatever the key size. */
  lemma HashInputInjective(x: seq<Byte>, y: seq<Byte>, x1: seq<Byte>, y1: seq<Byte>, keySize: nat)
    requires keySize > 0 && |x| == |y| == |x1| == |y1| == Width(keySize) < COORDINATE_SIZE
    ensures |HashInput(Uncompressed(x, y), keySize)| == 160
    ensures HashInput(Uncompressed(x, y), keySize) == HashInput(Uncompressed(x1, y1), keySize) <==> x == x1 && y == y1
  {
    hide BinPad, Value;
    SplitShape(x, y, keySize);
    SplitShape(x1, y1, keySize);
    var (px, py) := Split(Uncompressed(x, y), keySize);
    var (qx, qy) := Split(Uncompressed(x1, y1), keySize);
    Small(px);
    Small(py);
    Small(qx);
    Small(qy);
    PaddedPair(Value(px), Value(py), Value(qx), Value(qy));
    if Value(px) == Value(qx) && Value(py) == Value(qy) {
      ValueInjective(px, qx);
      ValueInjective(py, qy);
      if keySize % 8 == 0 {
        assert x == px[..|x|] && x1 == qx[..|x1|];
        assert y == px[|x|..] + py && y1 == qx[|x1|..] + qy;
      }
    }
  }

  /** P-521: 66-byte coordinates, padded faithfully and told apart. */
  lemma P521HashInput(x: seq<Byte>, y: seq<Byte>, x1: seq<Byte>, y1: seq<Byte>)
    requires |x| == |y| == |x1| == |y1| == 66
    ensures HashInput(Uncompressed(x, y), 521) == BinPad(Value(x), 80) + BinPad(Value(y), 80)
    ensures HashInput(Uncompressed(x, y), 521) == HashInput(Uncompressed(x1, y1), 521) <==> x == x1 && y == y1
  {
    hide BinPad, Value;
    HashInputFaithfulExactlyWhen(x, y, 521);
    HashInputInjective(x, y, x1, y1, 521);
  }

  // ---------------------------------------------------------------- the key slots

  const DIGITS := "0123456789abcdef"

  /** bytes.hex() */
  function Hex(bs: seq<Byte>): string {
    if bs == [] then "" else [DIGITS[bs[0] / 16], DIGITS[bs[0] % 16]] + Hex(bs[1..])
  }

  /** Two digits per byte, the high one first. */
  lemma {:induction false} HexDigits(bs: seq<Byte>, i: nat)
    requires i < |bs|
    ensures |Hex(bs)| == 2 * |bs|
    ensures Hex(bs)[2 * i] == "0123456789abcdef"[bs[i] / 16] && Hex(bs)[2 * i + 1] == "0123456789abcdef"[bs[i] % 16]
  {
    if |bs| > 1 {
      HexDigits(bs[1..], if i > 0 then i - 1 else 0);
    } else {
      assert bs[1..] == [];
    }
  }

  lemma {:induction false} HexInjective(a: seq<Byte>, b: seq<Byte>)
    ensures Hex(a) == Hex(b) <==> a == b
  {
    if a != [] && b != [] {
      assert a == [a[0]] + a[1..] && b == [b[0]] + b[1..];
      HexInjective(a[1..], b[1..]);
      var ha, hb := Hex(a), Hex(b);
      assert ha[2..] == Hex(a[1..]) && hb[2..] == Hex(b[1..]);
      if ha == hb {
        DigitInjective(a[0] / 16, b[0] / 16);
        DigitInjective(a[0] % 16, b[0] % 16);
        assert ha[0] == hb[0] && ha[1] == hb[1];
      }
    }
  }

  lemma DigitInjective(i: nat, j: nat)
    requires i < 16 && j < 16 && DIGITS[i] == DIGITS[j]
    ensures i == j
  {}

  const SLOT := 80
  const DIGEST := 32

  /** A whole slot starts at byte i of the slot table. */
  predicate SlotAt(data: seq<Byte>, i: int) {
    0 <= i && i % 80 == 0 && i + 80 <= |data|
  }

  /** That slot carries the key hash. */
  predicate Carries(data: seq<Byte>, i: int, digest: seq<Byte>)
    requires SlotAt(data, i)
  {
    data[i..i + 32] == digest
  }

  /** The slot loop of parse_hdr, comparing hex strings: the last whole slot that carries the
      hash, or -1 if there is none.
   */
  method FindSlot(data: seq<Byte>, phkh: string, ghost digest: seq<Byte>) returns (used: int)
    requires phkh == Hex(digest)
    ensures used == -1 || (SlotAt(data, used) && Carries(data, used, digest))
    ensures forall i | SlotAt(data, i) && used < i :: !Carries(data, i, digest)
  {
    used := -1;
    var i := 0;
    while i < |data|
      invariant i % SLOT == 0 && -1 <= used < i + 1
      invariant used == -1 || (SlotAt(data, used) && Carries(data, used, digest))
      invariant forall j | SlotAt(data, j) && used < j < i :: !Carries(data, j, digest)
    {
      if i + SLOT > |data| {
        break;
      }
      var chunk := data[i..i + SLOT];
      var digestKey := chunk[..DIGEST];
      assert digestKey == data[i..i + DIGEST];
      HexInjective(digestKey, digest);
      if Hex(digestKey) == phkh {
        used := i;
      }
      SlotGap(i);
      i := i + SLOT;
    }
  }

  lemma SlotGap(i: int)
    requires i % SLOT == 0
    ensures (i + SLOT) % SLOT == 0
    ensures forall j :: i < j < i + SLOT ==> j % SLOT != 0
  {}
}

/** What each field kind is read as, octet by octet, the kinds that pika does not write included. */
module FieldKinds {
  import opened Bytes
  import opened FieldTable
  import opened FieldWire
  import opened FieldTableTheorems

  // ---------- Integers ----------

  function At(b: bytes, i: nat): nat
    requires i < |b|
  {
    b[i]
  }

  function UnsignedTwo(b: bytes): nat
    requires |b| == 2
  {
    At(b, 0) * 0x100 + At(b, 1)
  }

  function UnsignedFour(b: bytes): (n: nat)
    requires |b| == 4
    ensures n < 0x1_0000_0000
  {
    At(b, 0) * 0x100_0000 + At(b, 1) * 0x1_0000 + At(b, 2) * 0x100 + At(b, 3)
  }

  function UnsignedEight(b: bytes): (n: nat)
    requires |b| == 8
    ensures n < 0x1_0000_0000_0000_0000
  {
    UnsignedFour(b[..4]) * 0x1_0000_0000 + UnsignedFour(b[4..])
  }

  /** Two's complement: `n` has as many values as `values`. */
  function Signed(n: nat, values: nat): int {
    if 2 * n >= values then n - values else n
  }

  lemma ReadFour(b: bytes)
    ensures |b| == 1 ==> FromBigEndian(b) == b[0]
    ensures |b| == 2 ==> FromBigEndian(b) == UnsignedTwo(b)
    ensures |b| == 4 ==> FromBigEndian(b) == UnsignedFour(b)
  {
    if |b| == 1 {
      assert b[..0] == [];
    } else if |b| == 2 {
      assert b[..1][..0] == [];
    } else if |b| == 4 {
      assert b[..3][..2] == b[..2] && b[..2][..1] == b[..1] && b[..1][..0] == [];
    }
  }

  lemma {:induction false} ReadSplit(a: bytes, b: bytes)
    ensures FromBigEndian(a + b) == FromBigEndian(a) * Pow256(|b|) + FromBigEndian(b)
  {
    if b == [] {
      assert a + b == a;
    } else {
      var c := b[..|b| - 1];
      assert (a + b)[..|a + b| - 1] == a + c;
      ReadSplit(a, c);
      Distribute(FromBigEndian(a), Pow256(|c|), FromBigEndian(c));
    }
  }

  lemma Distribute(x: nat, p: nat, y: nat)
    ensures 256 * (x * p + y) == x * (256 * p) + 256 * y
  {
  }

  lemma ReadEight(b: bytes)
    requires |b| == 8
    ensures FromBigEndian(b) == UnsignedEight(b)
  {
    hide FromBigEndian, UnsignedFour;
    assert b == b[..4] + b[4..];
    ReadSplit(b[..4], b[4..]);
    ReadFour(b[..4]);
    ReadFour(b[4..]);
    assert Pow256(4) == 0x1_0000_0000;
  }

  lemma Unpacked(encoded: bytes, offset: nat, b: bytes)
    requires Holds(encoded, offset, b) && |b| > 0
    ensures UnpackUnsigned(encoded, offset, |b|) == Ok(FromBigEndian(b))
    ensures UnpackSigned(encoded, offset, |b|) == Ok(Signed(FromBigEndian(b), Pow256(|b|)))
  {
  }

  /** The value of an integer kind. */
  function IntegerOf(kind: char, b: bytes): Option<Value> {
    match kind
    case 'b' => if |b| == 1 then Some(Int(b[0])) else None
    case 'B' => if |b| == 1 then Some(Int(Signed(b[0], 0x100))) else None
    case 'u' => if |b| == 2 then Some(Int(UnsignedTwo(b))) else None
    case 'U' => if |b| == 2 then Some(Int(Signed(UnsignedTwo(b), 0x1_0000))) else None
    case 's' => if |b| == 2 then Some(Int(Signed(UnsignedTwo(b), 0x1_0000))) else None
    case 'i' => if |b| == 4 then Some(Int(UnsignedFour(b))) else None
    case 'I' => if |b| == 4 then Some(Int(Signed(UnsignedFour(b), 0x1_0000_0000))) else None
    case 'l' => if |b| == 8 then Some(Long(UnsignedEight(b))) else None
    case 'L' => if |b| == 8 then Some(Long(Signed(UnsignedEight(b), 0x1_0000_0000_0000_0000))) else None
    case _ => None
  }

  lemma SkipKind(encoded: bytes, offset: nat, kind: char, b: bytes)
    requires kind as int < 256 && Holds(encoded, offset, [Letter(kind)] + b)
    ensures encoded[offset] == Letter(kind) && Holds(encoded, offset + 1, b)
  {
    HoldsConcat(encoded, offset, [Letter(kind)], b);
    assert encoded[offset..offset + 1][0] == encoded[offset];
  }

  /** Every integer kind is read at its width, with its sign, and marked as a long when it has eight octets. */
  lemma IntegersDecode(kind: char, b: bytes, encoded: bytes, offset: nat)
    requires kind as int < 256 && IntegerOf(kind, b).Some? && Holds(encoded, offset, [Letter(kind)] + b)
    ensures DecodeValue(encoded, offset) == Ok((IntegerOf(kind, b).value, offset + 1 + |b|))
  {
    hide FromBigEndian, UnsignedTwo, UnsignedFour, UnsignedEight, Holds, UnpackUnsigned, UnpackSigned;
    SkipKind(encoded, offset, kind, b);
    Unpacked(encoded, offset + 1, b);
    ReadFour(b);
    Widths();
    if |b| == 8 {
      ReadEight(b);
    }
  }

  // ---------- The other scalars ----------

  lemma OthersDecode(b: bytes, encoded: bytes, offset: nat)
    ensures |b| == 1 && Holds(encoded, offset, [Letter('t')] + b) ==>
              DecodeValue(encoded, offset) == Ok((Boolean(b[0] != 0), offset + 2))
    ensures |b| == 5 && Holds(encoded, offset, [Letter('D')] + b) ==>
              DecodeValue(encoded, offset)
              == Ok((Decimal(Signed(UnsignedFour(b[1..]), 0x1_0000_0000), 0 - At(b, 0)), offset + 6))
    ensures |b| == 8 && Holds(encoded, offset, [Letter('T')] + b) ==>
              DecodeValue(encoded, offset)
              == if UnsignedEight(b) <= 253402300799 then Ok((TimeStamp(UnsignedEight(b)), offset + 9))
                 else Err(ValueError)
    ensures Holds(encoded, offset, [Letter('V')]) ==> DecodeValue(encoded, offset) == Ok((Null, offset + 1))
  {
    hide FromBigEndian, UnsignedFour, UnsignedEight, Holds, UnpackUnsigned, UnpackSigned;
    Widths();
    if |b| == 1 && Holds(encoded, offset, [Letter('t')] + b) {
      SkipKind(encoded, offset, 't', b);
      Unpacked(encoded, offset + 1, b);
      ReadFour(b);
    }
    if |b| == 5 && Holds(encoded, offset, [Letter('D')] + b) {
      SkipKind(encoded, offset, 'D', b);
      assert b == [b[0]] + b[1..];
      HoldsConcat(encoded, offset + 1, [b[0]], b[1..]);
      Unpacked(encoded, offset + 1, [b[0]]);
      Unpacked(encoded, offset + 2, b[1..]);
      ReadFour([b[0]]);
      ReadFour(b[1..]);
    }
    if |b| == 8 && Holds(encoded, offset, [Letter('T')] + b) {
      SkipKind(encoded, offset, 'T', b);
      Unpacked(encoded, offset + 1, b);
      ReadEight(b);
    }
    if Holds(encoded, offset, [Letter('V')]) {
      assert [Letter('V')] + [] == [Letter('V')];
      SkipKind(encoded, offset, 'V', []);
    }
  }

  /** There is no other kind. */
  lemma OtherKindsRaise(encoded: bytes, offset: nat)
    requires offset >= |encoded|
             || forall i :: 0 <= i < |KINDS| ==> encoded[offset] as int != KINDS[i] as int
    ensures DecodeValue(encoded, offset) == Err(InvalidFieldType)
  {
    if offset < |encoded| {
      var k := encoded[offset];
      assert k as int != KINDS[0] as int && k as int != KINDS[1] as int && k as int != KINDS[2] as int;
      assert k as int != KINDS[3] as int && k as int != KINDS[4] as int && k as int != KINDS[5] as int;
      assert k as int != KINDS[6] as int && k as int != KINDS[7] as int && k as int != KINDS[8] as int;
      assert k as int != KINDS[9] as int && k as int != KINDS[10] as int && k as int != KINDS[11] as int;
      assert k as int != KINDS[12] as int && k as int != KINDS[13] as int && k as int != KINDS[14] as int;
      assert k as int != KINDS[15] as int && k as int != KINDS[16] as int && k as int != KINDS[17] as int;
      assert k as int != KINDS[18] as int;
    }
  }

  const KINDS := "tbBUuIiLlfdDsSxATFV"

  /** A long string, text if it is valid UTF-8, and a byte array, wherever they end. */
  lemma StringsDecode(n: bytes, b: bytes, encoded: bytes, offset: nat)
    requires |n| == 4 && UnsignedFour(n) == |b|
    ensures Holds(encoded, offset, [Letter('S')] + (n + b)) ==>
              DecodeValue(encoded, offset) == Ok((if IsUtf8(b) then Chars(b) else Binary(b), offset + 5 + |b|))
    ensures Holds(encoded, offset, [Letter('x')] + (n + b)) ==>
              DecodeValue(encoded, offset) == Ok((Binary(b), offset + 5 + |b|))
  {
    hide FromBigEndian, UnsignedFour, Holds, UnpackUnsigned, UnpackSigned, IsUtf8;
    if Holds(encoded, offset, [Letter('S')] + (n + b)) {
      StringHeld('S', n, b, encoded, offset);
    }
    if Holds(encoded, offset, [Letter('x')] + (n + b)) {
      StringHeld('x', n, b, encoded, offset);
    }
  }

  lemma StringHeld(kind: char, n: bytes, b: bytes, encoded: bytes, offset: nat)
    requires |n| == 4 && UnsignedFour(n) == |b| && kind as int < 256
    requires Holds(encoded, offset, [Letter(kind)] + (n + b))
    ensures encoded[offset] == Letter(kind) && UnpackUnsigned(encoded, offset + 1, 4) == Ok(|b|)
    ensures Slice(encoded, offset + 5, |b|) == b
  {
    hide FromBigEndian, UnsignedFour, UnpackUnsigned, UnpackSigned;
    SkipKind(encoded, offset, kind, n + b);
    HoldsConcat(encoded, offset + 1, n, b);
    Unpacked(encoded, offset + 1, n);
    ReadFour(n);
    HeldSlice(encoded, offset + 5, b);
  }

  lemma HeldSlice(encoded: bytes, offset: nat, b: bytes)
    requires Holds(encoded, offset, b)
    ensures Slice(encoded, offset, |b|) == b
  {
  }

  // ---------- Floating point ----------

  /** `magnitude` is `significand * 2^scale`, rounded down. */
  predicate RoundsDown(magnitude: int, significand: nat, scale: int) {
    magnitude >= 0
    && if scale >= 0 then magnitude == significand * Pow2(scale)
       else magnitude * Pow2(-scale) <= significand < (magnitude + 1) * Pow2(-scale)
  }

  /** `r` is `significand * 2^scale`, negated or not, truncated toward zero. */
  predicate Truncates(r: int, negative: bool, significand: nat, scale: int) {
    RoundsDown(if negative then -r else r, significand, scale)
  }

  lemma HalfFirst(n: nat, d: nat)
    requires d > 0
    ensures n / 2 / d == n / (2 * d)
  {
    var q, r := n / 2 / d, n / 2 % d;
    Quotient(n / 2, d);
    assert n == 2 * (n / 2) + n % 2;
    assert (2 * d) * q == 2 * (q * d) && (2 * d) * (q + 1) == 2 * ((q + 1) * d);
    QuotientIs(n, 2 * d, q);
  }

  lemma QuotientIs(n: nat, d: nat, q: nat)
    requires d > 0 && d * q <= n < d * (q + 1)
    ensures n / d == q
  {
    var e := n / d;
    Quotient(n, d);
    if e < q {
      Monotonic(d, e + 1, q);
    }
    if q < e {
      Monotonic(d, q + 1, e);
    }
  }

  lemma Monotonic(d: nat, a: nat, b: nat)
    requires a <= b
    ensures d * a <= d * b
  {
  }

  lemma {:induction false} BitIs(n: nat, k: nat)
    ensures Bit(n, k) <==> n / Pow2(k) % 2 == 1
  {
    if k == 0 {
      assert n / 1 == n;
    } else {
      BitIs(n / 2, k - 1);
      HalfFirst(n, Pow2(k - 1));
    }
  }

  lemma TruncateFloatTruncates(n: nat, exponentBits: nat, mantissaBits: nat)
    requires exponentBits > 0
    ensures var e, m := n / Pow2(mantissaBits) % Pow2(exponentBits), n % Pow2(mantissaBits);
            var r := TruncateFloat(n, exponentBits, mantissaBits);
            var bias := Pow2(exponentBits - 1) - 1 + mantissaBits;
            if e == Pow2(exponentBits) - 1 then r == Err(ValueError)
            else r.Ok? && Truncates(r.value, n / Pow2(exponentBits + mantissaBits) % 2 == 1,
                                    if e == 0 then m else m + Pow2(mantissaBits), (if e == 0 then 1 else e) - bias)
  {
    BitIs(n, exponentBits + mantissaBits);
    var e, m := n / Pow2(mantissaBits) % Pow2(exponentBits), n % Pow2(mantissaBits);
    var significand := if e == 0 then m else m + Pow2(mantissaBits);
    var scale := (if e == 0 then 1 else e) - (Pow2(exponentBits - 1) - 1) - mantissaBits;
    hide Bit, Pow2;
    if e != Pow2(exponentBits) - 1 {
      Truncated(n, exponentBits, mantissaBits, e, m, significand, scale);
    }
  }

  lemma ScaledRoundsDown(significand: nat, scale: int)
    ensures RoundsDown(Scaled(significand, scale), significand, scale)
  {
    hide RoundsDown, Scaled;
    if scale >= 0 {
      ScaledUp(significand, scale);
    } else {
      ScaledDown(significand, scale);
    }
  }

  lemma ScaledUp(significand: nat, scale: nat)
    ensures RoundsDown(Scaled(significand, scale), significand, scale)
  {
    hide Pow2;
    ProductNotNegative(significand, Pow2(scale));
  }

  lemma ProductNotNegative(a: nat, b: nat)
    ensures a * b >= 0
  {
  }

  lemma ScaledDown(significand: nat, scale: int)
    requires scale < 0
    ensures RoundsDown(Scaled(significand, scale), significand, scale)
  {
    hide Pow2, RoundsDown;
    var d := Pow2(-scale);
    Quotient(significand, d);
    Between(Scaled(significand, scale), significand, scale, d);
  }

  lemma Between(q: int, significand: nat, scale: int, d: nat)
    requires scale < 0 && d == Pow2(-scale) && q >= 0 && q * d <= significand < (q + 1) * d
    ensures RoundsDown(q, significand, scale)
  {
    hide Pow2;
  }

  lemma Truncated(n: nat, exponentBits: nat, mantissaBits: nat, e: nat, m: nat, significand: nat, scale: int)
    requires exponentBits > 0
    requires e == n / Pow2(mantissaBits) % Pow2(exponentBits) && m == n % Pow2(mantissaBits)
    requires significand == (if e == 0 then m else m + Pow2(mantissaBits)) && e != Pow2(exponentBits) - 1
    requires scale == (if e == 0 then 1 else e) - (Pow2(exponentBits - 1) - 1) - mantissaBits
    ensures var r := TruncateFloat(n, exponentBits, mantissaBits);
            r.Ok? && Truncates(r.value, Bit(n, exponentBits + mantissaBits), significand, scale)
  {
    hide Bit, Pow2, RoundsDown, Scaled;
    ScaledRoundsDown(significand, scale);
  }

  lemma Quotient(n: nat, d: nat)
    requires d > 0
    ensures n / d >= 0 && n / d * d <= n < (n / d + 1) * d
  {
    assert n == d * (n / d) + n % d;
  }

  lemma Powers()
    ensures Pow2(7) == 0x80 && Pow2(8) == 0x100 && Pow2(10) == 0x400 && Pow2(11) == 0x800
    ensures Pow2(23) == 0x80_0000 && Pow2(31) == 0x8000_0000
    ensures Pow2(52) == 0x10_0000_0000_0000 && Pow2(63) == 0x8000_0000_0000_0000
  {
    assert Pow2(7) == 0x80;
    assert Pow2(11) == 0x800;
    assert Pow2(17) == 0x2_0000;
    assert Pow2(23) == 0x80_0000;
    assert Pow2(31) == 0x8000_0000;
    assert Pow2(38) == 0x40_0000_0000;
    assert Pow2(45) == 0x2000_0000_0000;
    assert Pow2(52) == 0x10_0000_0000_0000;
    assert Pow2(58) == 0x400_0000_0000_0000;
  }

  /** The fields of a number of single precision. */
  function SingleExponent(b: bytes): (e: nat)
    requires |b| == 4
    ensures e < 0x100
  {
    At(b, 0) % 0x80 * 2 + At(b, 1) / 0x80
  }

  function SingleMantissa(b: bytes): (m: nat)
    requires |b| == 4
    ensures m < 0x80_0000
  {
    At(b, 1) % 0x80 * 0x1_0000 + At(b, 2) * 0x100 + At(b, 3)
  }

  /** The fields of a number of double precision. */
  function DoubleExponent(b: bytes): (e: nat)
    requires |b| == 8
    ensures e < 0x800
  {
    At(b, 0) % 0x80 * 0x10 + At(b, 1) / 0x10
  }

  function DoubleMantissa(b: bytes): (m: nat)
    requires |b| == 8
    ensures m < 0x10_0000_0000_0000
  {
    (At(b, 1) % 0x10 * 0x1_0000 + At(b, 2) * 0x100 + At(b, 3)) * 0x1_0000_0000 + UnsignedFour(b[4..])
  }

  /** A sign, an exponent and a mantissa, put together and taken apart. */
  lemma SingleFields(n: nat, sign: nat, exponent: nat, mantissa: nat)
    requires n == (sign * 0x100 + exponent) * 0x80_0000 + mantissa && sign < 2 && exponent < 0x100
    requires mantissa < 0x80_0000
    ensures n / 0x8000_0000 % 2 == sign && n / 0x80_0000 % 0x100 == exponent && n % 0x80_0000 == mantissa
  {
    assert n / 0x80_0000 == sign * 0x100 + exponent;
    assert n / 0x8000_0000 == sign;
  }

  lemma DoubleFields(n: nat, sign: nat, exponent: nat, mantissa: nat)
    requires n == (sign * 0x800 + exponent) * 0x10_0000_0000_0000 + mantissa && sign < 2 && exponent < 0x800
    requires mantissa < 0x10_0000_0000_0000
    ensures n / 0x8000_0000_0000_0000 % 2 == sign && n / 0x10_0000_0000_0000 % 0x800 == exponent
    ensures n % 0x10_0000_0000_0000 == mantissa
  {
    assert n / 0x10_0000_0000_0000 == sign * 0x800 + exponent;
    assert n / 0x8000_0000_0000_0000 == sign;
  }

  lemma SinglePrecision(b: bytes)
    requires |b| == 4
    ensures UnsignedFour(b) / 0x8000_0000 % 2 == b[0] / 0x80
    ensures UnsignedFour(b) / 0x80_0000 % 0x100 == SingleExponent(b)
    ensures UnsignedFour(b) % 0x80_0000 == SingleMantissa(b)
  {
    hide SingleExponent, SingleMantissa, UnsignedFour;
    SingleParts(b);
    SingleFields(UnsignedFour(b), b[0] / 0x80, SingleExponent(b), SingleMantissa(b));
  }

  lemma SingleParts(b: bytes)
    requires |b| == 4
    ensures var sign: nat := b[0] / 0x80;
            sign < 2 && UnsignedFour(b) == (sign * 0x100 + SingleExponent(b)) * 0x80_0000 + SingleMantissa(b)
  {
  }

  lemma DoublePrecision(b: bytes)
    requires |b| == 8
    ensures UnsignedEight(b) / 0x8000_0000_0000_0000 % 2 == b[0] / 0x80
    ensures UnsignedEight(b) / 0x10_0000_0000_0000 % 0x800 == DoubleExponent(b)
    ensures UnsignedEight(b) % 0x10_0000_0000_0000 == DoubleMantissa(b)
  {
    hide DoubleExponent, DoubleMantissa, UnsignedEight;
    DoubleParts(b);
    DoubleFields(UnsignedEight(b), b[0] / 0x80, DoubleExponent(b), DoubleMantissa(b));
  }

  lemma DoubleParts(b: bytes)
    requires |b| == 8
    ensures var sign: nat := b[0] / 0x80;
            sign < 2 && UnsignedEight(b) == (sign * 0x800 + DoubleExponent(b)) * 0x10_0000_0000_0000 + DoubleMantissa(b)
  {
  }

  /** A number of single precision, truncated; infinities and NaN raise. */
  lemma FloatDecodes(b: bytes, encoded: bytes, offset: nat)
    requires |b| == 4 && Holds(encoded, offset, [Letter('f')] + b)
    ensures var r, e, m := DecodeValue(encoded, offset), SingleExponent(b), SingleMantissa(b);
            if e == 255 then r == Err(ValueError)
            else r.Ok? && r.value.0.Long? && r.value.1 == offset + 5
                 && Truncates(r.value.0.l, b[0] >= 0x80, if e == 0 then m else m + 0x80_0000,
                              (if e == 0 then 1 else e) - 150)
  {
    hide FromBigEndian, UnsignedFour, Holds, UnpackUnsigned, Truncates, Pow2, Pow256, TruncateFloat, SingleExponent,
      SingleMantissa;
    SkipKind(encoded, offset, 'f', b);
    Unpacked(encoded, offset + 1, b);
    ReadFour(b);
    SinglePrecision(b);
    Powers();
    TruncateFloatTruncates(UnsignedFour(b), 8, 23);
  }

  lemma DoubleDecodes(b: bytes, encoded: bytes, offset: nat)
    requires |b| == 8 && Holds(encoded, offset, [Letter('d')] + b)
    ensures var r, e, m := DecodeValue(encoded, offset), DoubleExponent(b), DoubleMantissa(b);
            if e == 2047 then r == Err(ValueError)
            else r.Ok? && r.value.0.Long? && r.value.1 == offset + 9
                 && Truncates(r.value.0.l, b[0] >= 0x80, if e == 0 then m else m + 0x10_0000_0000_0000,
                              (if e == 0 then 1 else e) - 1075)
  {
    hide FromBigEndian, UnsignedEight, Holds, UnpackUnsigned, Truncates, Pow2, Pow256, TruncateFloat, DoubleExponent,
      DoubleMantissa;
    SkipKind(encoded, offset, 'd', b);
    Unpacked(encoded, offset + 1, b);
    ReadEight(b);
    DoublePrecision(b);
    Powers();
    TruncateFloatTruncates(UnsignedEight(b), 11, 52);
  }

  // ---------- Too little data ----------

  /** An integer that is cut off raises. */
  lemma CutIntegersRaise(kind: char, b: bytes, encoded: bytes, offset: nat)
    requires kind as int < 256 && IntegerOf(kind, b).Some?
    requires offset < |encoded| < offset + 1 + |b| && encoded[offset] == Letter(kind)
    ensures DecodeValue(encoded, offset) == Err(StructError)
  {
    hide FromBigEndian, UnsignedTwo, UnsignedFour, UnsignedEight;
  }

  /** A short string that is cut off is what there is of it, and ends where it would have ended. */
  lemma CutShortDecodes(encoded: bytes, offset: nat)
    requires offset < |encoded| <= offset + 1 + encoded[offset]
    ensures DecodeShort(encoded, offset) == Ok((DecodeText(encoded[offset + 1..]), offset + 1 + encoded[offset]))
  {
    hide FromBigEndian, IsUtf8;
    assert encoded[offset..offset + 1] == [encoded[offset]];
    ReadFour([encoded[offset]]);
    var n: nat := encoded[offset];
    assert offset + 1 + n == |encoded| ==> encoded[offset + 1..offset + 1 + n] == encoded[offset + 1..];
  }
}

/**
  Byte strings, big-endian integers as packed and unpacked by Python's `struct`,
  and the text/bytes distinction that the decoders draw with UTF-8.
 */
module Bytes {

  type byte = b: int | 0 <= b < 256
  type bytes = seq<byte>

  /** The exceptions that the modelled code raises. */
  datatype Error =
    | StructError          // struct.error: value out of range, or too few bytes
    | ShortStringTooLong
    | UnsupportedField
    | InvalidFieldType
    | ValueError           // also OverflowError: a float or timestamp outside Python's range
    | KeyError             // unknown method id or properties class
    | InvalidFrame
    | BodyTooLong
    | AttributeError       // a frame arrived before the one it belongs to
    | ZeroDivision
    | UnexpectedFrame

  datatype Option<+T> = None | Some(value: T)

  datatype Result<+T> = Ok(value: T) | Err(error: Error) {
    predicate IsFailure() { Err? }

    function PropagateFailure<U>(): Result<U>
      requires Err?
    {
      Err(error)
    }

    function Extract(): T
      requires Ok?
    {
      value
    }
  }

  // ---------- Unsigned and signed integers ----------

  /** 256 to the power `w`: the number of values of a `w`-byte unsigned integer. */
  function Pow256(w: nat): (p: nat)
    ensures p >= 1 && (w > 0 ==> p % 2 == 0)
  {
    if w == 0 then 1 else 256 * Pow256(w - 1)
  }

  /** The `w` low-order bytes of `n`, most significant first. */
  function BigEndian(n: nat, w: nat): (s: bytes)
    ensures |s| == w
  {
    if w == 0 then [] else BigEndian(n / 256, w - 1) + [n % 256]
  }

  function FromBigEndian(s: bytes): (n: nat)
    ensures n < Pow256(|s|)
  {
    if s == [] then 0 else 256 * FromBigEndian(s[..|s| - 1]) + s[|s| - 1]
  }

  lemma {:induction false} FromBigEndianOfBigEndian(n: nat, w: nat)
    requires n < Pow256(w)
    ensures FromBigEndian(BigEndian(n, w)) == n
  {
    if w > 0 {
      FromBigEndianOfBigEndian(n / 256, w - 1);
      assert BigEndian(n, w)[..w - 1] == BigEndian(n / 256, w - 1);
    }
  }

  /** `struct.pack` of an unsigned format of `w` bytes. */
  function PackUnsigned(n: int, w: nat): (r: Result<bytes>)
    ensures r.Ok? <==> 0 <= n < Pow256(w)
    ensures r.Ok? ==> |r.value| == w
  {
    if 0 <= n < Pow256(w) then Ok(BigEndian(n, w)) else Err(StructError)
  }

  /** `struct.pack` of a signed (two's complement) format of `w` bytes. */
  function PackSigned(n: int, w: nat): (r: Result<bytes>)
    requires w > 0
    ensures r.Ok? <==> 0 <= 2 * n + Pow256(w) < 2 * Pow256(w)
    ensures r.Ok? ==> |r.value| == w
  {
    if 0 <= 2 * n + Pow256(w) < 2 * Pow256(w)
    then Ok(BigEndian(if n < 0 then n + Pow256(w) else n, w))
    else Err(StructError)
  }

  /** `struct.unpack_from` of an unsigned format of `w` bytes at `offset`. */
  function UnpackUnsigned(encoded: bytes, offset: nat, w: nat): (r: Result<nat>)
    ensures r.Ok? <==> offset + w <= |encoded|
    ensures r.Ok? ==> r.value < Pow256(w)
  {
    if offset + w <= |encoded| then Ok(FromBigEndian(encoded[offset..offset + w])) else Err(StructError)
  }

  function UnpackSigned(encoded: bytes, offset: nat, w: nat): (r: Result<int>)
    requires w > 0
    ensures r.Ok? <==> offset + w <= |encoded|
  {
    var n :- UnpackUnsigned(encoded, offset, w);
    Ok(if 2 * n >= Pow256(w) then n - Pow256(w) else n)
  }

  /** `at` occurs in `encoded` at `offset`. */
  ghost predicate Holds(encoded: bytes, offset: nat, at: bytes) {
    offset + |at| <= |encoded| && encoded[offset..offset + |at|] == at
  }

  /** A concatenation is held exactly when both halves are held one after the other. */
  lemma HoldsConcat(encoded: bytes, offset: nat, a: bytes, b: bytes)
    ensures Holds(encoded, offset, a + b) <==> Holds(encoded, offset, a) && Holds(encoded, offset + |a|, b)
  {
    if Holds(encoded, offset, a + b) {
      var s := encoded[offset..offset + |a + b|];
      assert s[..|a|] == a && s[|a|..] == b;
      assert encoded[offset..offset + |a|] == s[..|a|];
      assert encoded[offset + |a|..offset + |a| + |b|] == s[|a|..];
    }
    if Holds(encoded, offset, a) && Holds(encoded, offset + |a|, b) {
      assert encoded[offset..offset + |a + b|]
             == encoded[offset..offset + |a|] + encoded[offset + |a|..offset + |a| + |b|];
    }
  }

  lemma UnpackPacked(encoded: bytes, offset: nat, n: int, w: nat)
    requires PackUnsigned(n, w).Ok? && Holds(encoded, offset, PackUnsigned(n, w).value)
    ensures UnpackUnsigned(encoded, offset, w) == Ok(n)
  {
    FromBigEndianOfBigEndian(n, w);
  }

  lemma UnpackPackedSigned(encoded: bytes, offset: nat, n: int, w: nat)
    requires w > 0 && PackSigned(n, w).Ok? && Holds(encoded, offset, PackSigned(n, w).value)
    ensures UnpackSigned(encoded, offset, w) == Ok(n)
  {
    FromBigEndianOfBigEndian(if n < 0 then n + Pow256(w) else n, w);
  }

  /** Python slicing `encoded[offset:offset + length]`, which clamps at the end of the data. */
  function Slice(encoded: bytes, offset: nat, length: nat): (s: bytes)
    ensures |s| <= length
    ensures offset + length <= |encoded| ==> s == encoded[offset..offset + length]
  {
    if offset >= |encoded| then []
    else if offset + length > |encoded| then encoded[offset..]
    else encoded[offset..offset + length]
  }

  /** Both results one after the other; the first failure wins. */
  function Append<T>(a: Result<seq<T>>, b: Result<seq<T>>): Result<seq<T>> {
    if a.Err? then a else if b.Err? then b else Ok(a.value + b.value)
  }

  lemma AppendAssociative<T>(a: Result<seq<T>>, b: Result<seq<T>>, c: Result<seq<T>>)
    ensures Append(Append(a, b), c) == Append(a, Append(b, c))
    ensures Append(Ok([]), a) == a == Append(a, Ok([]))
  {
    if a.Ok? {
      assert [] + a.value == a.value == a.value + [];
      if b.Ok? && c.Ok? {
        assert a.value + b.value + c.value == a.value + (b.value + c.value);
      }
    }
  }

  lemma ConcatAssociative<T>(a: seq<T>, b: seq<T>, c: seq<T>)
    ensures a + (b + c) == a + b + c
  {
  }

  /** `b''.join(parts)`. */
  function Concat(parts: seq<bytes>): bytes {
    if parts == [] then [] else parts[0] + Concat(parts[1..])
  }

  lemma {:induction false} ConcatAppend(a: seq<bytes>, b: seq<bytes>)
    ensures Concat(a + b) == Concat(a) + Concat(b)
  {
    if a == [] {
      assert a + b == b;
    } else {
      assert (a + b)[1..] == a[1..] + b;
      ConcatAppend(a[1..], b);
    }
  }

  lemma ConcatOne(part: bytes)
    ensures Concat([part]) == part
  {
    assert [part][1..] == [] && part + [] == part;
  }

  // ---------- Text ----------

  predicate IsContinuation(b: byte) { 0x80 <= b <= 0xBF }

  /** The length of the UTF-8 character at the head of `s`, or 0 when there is none. */
  function Utf8CharLength(s: bytes): (n: nat)
    ensures n <= |s|
  {
    if s == [] then 0
    else if s[0] <= 0x7F then 1
    else if 0xC2 <= s[0] <= 0xDF then
      if |s| >= 2 && IsContinuation(s[1]) then 2 else 0
    else if 0xE0 <= s[0] <= 0xEF then
      if |s| >= 3 && IsContinuation(s[1]) && IsContinuation(s[2])
         && (s[0] == 0xE0 ==> s[1] >= 0xA0) && (s[0] == 0xED ==> s[1] <= 0x9F)
      then 3 else 0
    else if 0xF0 <= s[0] <= 0xF4 then
      if |s| >= 4 && IsContinuation(s[1]) && IsContinuation(s[2]) && IsContinuation(s[3])
         && (s[0] == 0xF0 ==> s[1] >= 0x90) && (s[0] == 0xF4 ==> s[1] <= 0x8F)
      then 4 else 0
    else 0
  }

  /** `s.decode('utf8')` succeeds. */
  predicate IsUtf8(s: bytes) {
    s == [] || (Utf8CharLength(s) > 0 && IsUtf8(s[Utf8CharLength(s)..]))
  }

  /** A Python `str`, represented by its UTF-8 encoding. */
  type utf8 = s: bytes | IsUtf8(s) witness []

  /** A `str` or a `bytes` value where either is accepted. */
  datatype Text = Str(chars: utf8) | Raw(raw: bytes)

  function AsBytes(t: Text): bytes {
    match t
    case Str(s) => s
    case Raw(b) => b
  }

  /** Decode as UTF-8 and keep the bytes when that fails. */
  function DecodeText(b: bytes): (t: Text)
    ensures AsBytes(t) == b
    ensures t.Str? <==> IsUtf8(b)
  {
    if IsUtf8(b) then Str(b) else Raw(b)
  }

  // ---------- Powers of two and bits ----------

  function Pow2(k: nat): (p: nat)
    ensures p >= 1
  {
    if k == 0 then 1 else 2 * Pow2(k - 1)
  }

  /** Bit `k` of `n`: Python's `n & (1 << k) != 0`. */
  predicate Bit(n: nat, k: nat) {
    if k == 0 then n % 2 == 1 else Bit(n / 2, k - 1)
  }
}

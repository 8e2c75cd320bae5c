/** What the field-table codec promises. */
module FieldTableTheorems {
  import opened Bytes
  import opened FieldTable

  // ---------- The values that can be encoded ----------

  /** The number of bytes of a value on the wire, kind octet included. */
  function Size(v: Value): nat
    decreases v, 0
  {
    match v
    case Boolean(_) => 2
    case Int(n) => if -0x8000_0000 <= n < 0x8000_0000 then 5 else 9
    case Long(_) => 9
    case Chars(s) => 5 + |s|
    case Binary(b) => 5 + |b|
    case Decimal(_, _) => 6
    case TimeStamp(_) => 9
    case Table(es) => 5 + SizeEntries(es)
    case List(vs) => 5 + SizeList(vs)
    case Null => 1
    case Unsupported => 0
  }

  function SizeEntry(e: Entry): nat
    decreases e, 0
  {
    1 + |AsBytes(e.key)| + Size(e.value)
  }

  function SizeEntries(es: seq<Entry>): nat
    decreases es, 0
  {
    if es == [] then 0 else SizeEntry(es[0]) + SizeEntries(es[1..])
  }

  function SizeList(vs: seq<Value>): nat
    decreases vs, 0
  {
    if vs == [] then 0 else Size(vs[0]) + SizeList(vs[1..])
  }

  predicate InLongRange(n: int) {
    -0x8000_0000_0000_0000 <= n < 0x1_0000_0000_0000_0000
  }

  /** The value fits AMQP's field types: widths, lengths and 255-octet keys, at every depth. */
  predicate InRange(v: Value)
    decreases v, 0
  {
    match v
    case Int(n) => InLongRange(n)
    case Long(n) => InLongRange(n)
    case Chars(s) => |s| < 0x1_0000_0000
    case Binary(b) => |b| < 0x1_0000_0000
    case Decimal(c, e) =>
      var (decimals, raw) := DecimalParts(c, e);
      decimals < 256 && -0x8000_0000 <= raw < 0x8000_0000
    case TimeStamp(t) => t >= 0
    case Table(es) => InRangeEntries(es) && SizeEntries(es) < 0x1_0000_0000
    case List(vs) => InRangeList(vs) && SizeList(vs) < 0x1_0000_0000
    case Unsupported => false
    case _ => true
  }

  predicate InRangeEntry(e: Entry)
    decreases e, 0
  {
    |AsBytes(e.key)| <= 255 && InRange(e.value)
  }

  predicate InRangeEntries(es: seq<Entry>)
    decreases es, 0
  {
    es == [] || (InRangeEntry(es[0]) && InRangeEntries(es[1..]))
  }

  predicate InRangeList(vs: seq<Value>)
    decreases vs, 0
  {
    vs == [] || (InRange(vs[0]) && InRangeList(vs[1..]))
  }

  lemma Widths()
    ensures Pow256(1) == 256 && Pow256(2) == 0x1_0000 && Pow256(4) == 0x1_0000_0000
    ensures Pow256(8) == 0x1_0000_0000_0000_0000
  {
    assert Pow256(5) == 256 * Pow256(4);
    assert Pow256(6) == 256 * Pow256(5);
    assert Pow256(7) == 256 * Pow256(6);
    assert Pow256(8) == 256 * Pow256(7);
  }

  lemma DecimalDigits(c: int, e: int)
    ensures var (decimals, _) := DecimalParts(c, e); decimals >= 0
  {
  }

  /** `encode_value` fails on exactly the values out of range, and returns the size of what it wrote. */
  lemma {:induction false} EncodesExactlyInRange(v: Value)
    ensures EncodeValue(v).Ok? <==> InRange(v)
    ensures InRange(v) ==> |EncodeValue(v).value| == Size(v)
    decreases v, 0
  {
    Widths();
    match v
    case Table(es) => EntriesEncodeExactlyInRange(es);
    case List(vs) => ListEncodesExactlyInRange(vs);
    case Decimal(c, e) => DecimalDigits(c, e);
    case _ =>
  }

  lemma {:induction false} EntryEncodesExactlyInRange(e: Entry)
    ensures EncodeEntry(e).Ok? <==> InRangeEntry(e)
    ensures InRangeEntry(e) ==> |EncodeEntry(e).value| == SizeEntry(e)
    decreases e, 0
  {
    EncodesExactlyInRange(e.value);
  }

  lemma {:induction false} EntriesEncodeExactlyInRange(es: seq<Entry>)
    ensures EncodeEntries(es).Ok? <==> InRangeEntries(es)
    ensures InRangeEntries(es) ==> |EncodeEntries(es).value| == SizeEntries(es)
    decreases es, 0
  {
    if es != [] {
      EntryEncodesExactlyInRange(es[0]);
      EntriesEncodeExactlyInRange(es[1..]);
    }
  }

  lemma {:induction false} ListEncodesExactlyInRange(vs: seq<Value>)
    ensures EncodeList(vs).Ok? <==> InRangeList(vs)
    ensures InRangeList(vs) ==> |EncodeList(vs).value| == SizeList(vs)
    decreases vs, 0
  {
    if vs != [] {
      EncodesExactlyInRange(vs[0]);
      ListEncodesExactlyInRange(vs[1..]);
    }
  }

  // ---------- What decoding gives back ----------

  /** The value that comes back: wide ints become longs, decimals are normalised, keys that are UTF-8 become `str`. */
  function Normal(v: Value): Value
    decreases v, 0
  {
    match v
    case Int(n) => if -0x8000_0000 <= n < 0x8000_0000 then v else Long(n)
    case Decimal(c, e) =>
      var (decimals, raw) := DecimalParts(c, e);
      Decimal(raw, -decimals)
    case Table(es) => Table(NormalEntries(es, []))
    case List(vs) => List(NormalList(vs))
    case _ => v
  }

  function NormalKey(t: Text): Text { DecodeText(AsBytes(t)) }

  function NormalEntry(e: Entry): Entry
    decreases e, 0
  {
    Entry(NormalKey(e.key), Normal(e.value))
  }

  /** The dict built by assigning the entries in turn to a dict that holds `acc`. */
  function NormalEntries(es: seq<Entry>, acc: seq<Entry>): seq<Entry>
    decreases es, 0
  {
    if es == [] then acc
    else
      var e := NormalEntry(es[0]);
      NormalEntries(es[1..], Put(acc, e.key, e.value))
  }

  function NormalList(vs: seq<Value>): seq<Value>
    decreases vs, 0
  {
    if vs == [] then [] else [Normal(vs[0])] + NormalList(vs[1..])
  }

  // ---------- Round trip ----------

  lemma PackOctet(n: byte)
    ensures PackUnsigned(n, 1) == Ok([n])
  {
    assert Pow256(1) == 256;
    assert BigEndian(n, 1) == BigEndian(n / 256, 0) + [n % 256] == [] + [n] == [n];
  }

  lemma ShortRoundTrip(t: Text, encoded: bytes, offset: nat)
    requires EncodeShort(t).Ok? && Holds(encoded, offset, EncodeShort(t).value)
    ensures DecodeShort(encoded, offset) == Ok((NormalKey(t), offset + |EncodeShort(t).value|))
  {
    hide IsUtf8, Utf8CharLength, BigEndian, FromBigEndian;
    var b := AsBytes(t);
    HoldsConcat(encoded, offset, [|b|], b);
    PackOctet(|b|);
    UnpackPacked(encoded, offset, |b|, 1);
  }

  lemma LengthRoundTrip(kind: byte, b: bytes, encoded: bytes, offset: nat)
    requires WithLength(kind, b).Ok? && Holds(encoded, offset, WithLength(kind, b).value)
    ensures encoded[offset] == kind
    ensures UnpackUnsigned(encoded, offset + 1, 4) == Ok(|b|)
    ensures Holds(encoded, offset + 5, b)
    ensures |WithLength(kind, b).value| == 5 + |b|
  {
    var n := PackUnsigned(|b|, 4).value;
    HoldsConcat(encoded, offset, [kind] + n, b);
    HoldsConcat(encoded, offset, [kind], n);
    assert encoded[offset..offset + 1][0] == kind;
    UnpackPacked(encoded, offset + 1, |b|, 4);
  }

  /** A kind octet followed by a payload. */
  lemma KindHolds(kind: byte, b: bytes, encoded: bytes, offset: nat)
    requires Holds(encoded, offset, [kind] + b)
    ensures offset < |encoded| && encoded[offset] == kind && Holds(encoded, offset + 1, b)
  {
    HoldsConcat(encoded, offset, [kind], b);
    assert encoded[offset..offset + 1][0] == kind;
  }

  lemma LongRoundTrip(n: int, encoded: bytes, offset: nat)
    requires EncodeLong(n).Ok? && Holds(encoded, offset, EncodeLong(n).value)
    ensures DecodeValue(encoded, offset) == Ok((Long(n), offset + |EncodeLong(n).value|))
  {
    hide DecodeTable, DecodeList, IsUtf8, Normalize;
    if n < 0 {
      KindHolds(KIND_S64, PackSigned(n, 8).value, encoded, offset);
      UnpackPackedSigned(encoded, offset + 1, n, 8);
    } else {
      KindHolds(KIND_U64, PackUnsigned(n, 8).value, encoded, offset);
      UnpackPacked(encoded, offset + 1, n, 8);
    }
  }

  lemma DecimalRoundTrip(c: int, e: int, encoded: bytes, offset: nat)
    requires Scalar(Decimal(c, e), encoded, offset)
    ensures Returns(Decimal(c, e), encoded, offset)
  {
    hide DecodeTable, DecodeList, IsUtf8, Normalize;
    var (decimals, raw) := DecimalParts(c, e);
    var d, r := PackUnsigned(decimals, 1).value, PackSigned(raw, 4).value;
    assert [KIND_DECIMAL] + d + r == [KIND_DECIMAL] + (d + r);
    KindHolds(KIND_DECIMAL, d + r, encoded, offset);
    HoldsConcat(encoded, offset + 1, d, r);
    UnpackPacked(encoded, offset + 1, decimals, 1);
    UnpackPackedSigned(encoded, offset + 2, raw, 4);
  }

  /** `ScalarRoundTrip` case by case. */
  ghost predicate Returns(v: Value, encoded: bytes, offset: nat)
    requires !v.Table? && !v.List? && EncodeScalar(v).Ok?
  {
    DecodeValue(encoded, offset) == Ok((Normal(v), offset + |EncodeScalar(v).value|))
  }

  ghost predicate Scalar(v: Value, encoded: bytes, offset: nat) {
    !v.Table? && !v.List? && EncodeScalar(v).Ok? && Holds(encoded, offset, EncodeScalar(v).value)
  }

  lemma BooleanRoundTrip(b: bool, encoded: bytes, offset: nat)
    requires Scalar(Boolean(b), encoded, offset)
    ensures Returns(Boolean(b), encoded, offset)
  {
    hide DecodeTable, DecodeList, IsUtf8, Normalize, BigEndian, FromBigEndian;
    var octet: byte := if b then 1 else 0;
    assert [KIND_BOOL, octet] == [KIND_BOOL] + [octet];
    KindHolds(KIND_BOOL, [octet], encoded, offset);
    PackOctet(octet);
    UnpackPacked(encoded, offset + 1, octet, 1);
  }

  lemma IntRoundTrip(n: int, encoded: bytes, offset: nat)
    requires Scalar(Int(n), encoded, offset)
    ensures Returns(Int(n), encoded, offset)
  {
    hide DecodeTable, DecodeList, IsUtf8, Normalize, BigEndian, FromBigEndian;
    Widths();
    if PackSigned(n, 4).Ok? {
      KindHolds(KIND_S32, PackSigned(n, 4).value, encoded, offset);
      UnpackPackedSigned(encoded, offset + 1, n, 4);
    } else {
      LongRoundTrip(n, encoded, offset);
    }
  }

  lemma TimeStampRoundTrip(t: DateTime, encoded: bytes, offset: nat)
    requires Scalar(TimeStamp(t), encoded, offset)
    ensures Returns(TimeStamp(t), encoded, offset)
  {
    hide DecodeTable, DecodeList, IsUtf8, Normalize, BigEndian, FromBigEndian;
    KindHolds(KIND_TIMESTAMP, PackUnsigned(t, 8).value, encoded, offset);
    UnpackPacked(encoded, offset + 1, t, 8);
  }

  lemma CharsRoundTrip(s: utf8, encoded: bytes, offset: nat)
    requires Scalar(Chars(s), encoded, offset)
    ensures Returns(Chars(s), encoded, offset)
  {
    hide DecodeTable, DecodeList, Normalize, WithLength, Utf8CharLength;
    LengthRoundTrip(KIND_CHARS, s, encoded, offset);
  }

  lemma BinaryRoundTrip(b: bytes, encoded: bytes, offset: nat)
    requires Scalar(Binary(b), encoded, offset)
    ensures Returns(Binary(b), encoded, offset)
  {
    hide DecodeTable, DecodeList, Normalize, WithLength, IsUtf8;
    LengthRoundTrip(KIND_BINARY, b, encoded, offset);
  }

  lemma NullRoundTrip(encoded: bytes, offset: nat)
    requires Scalar(Null, encoded, offset)
    ensures Returns(Null, encoded, offset)
  {
    hide DecodeTable, DecodeList, Normalize, IsUtf8;
    KindHolds(KIND_NULL, [], encoded, offset);
  }

  lemma ScalarRoundTrip(v: Value, encoded: bytes, offset: nat)
    requires Scalar(v, encoded, offset)
    ensures Returns(v, encoded, offset)
  {
    hide DecodeValue, EncodeScalar, EncodeLong, Holds, IsUtf8, Normal;
    match v
    case Chars(s) => CharsRoundTrip(s, encoded, offset);
    case Binary(b) => BinaryRoundTrip(b, encoded, offset);
    case Boolean(b) => BooleanRoundTrip(b, encoded, offset);
    case Long(n) => ScalarLong(n); LongRoundTrip(n, encoded, offset);
    case Int(n) => IntRoundTrip(n, encoded, offset);
    case Decimal(c, e) => DecimalRoundTrip(c, e, encoded, offset);
    case TimeStamp(t) => TimeStampRoundTrip(t, encoded, offset);
    case Null => NullRoundTrip(encoded, offset);
    case Unsupported => NeverEncoded();
  }

  lemma ScalarLong(n: int)
    ensures EncodeScalar(Long(n)) == EncodeLong(n) && Normal(Long(n)) == Long(n)
  {
  }

  lemma NeverEncoded()
    ensures EncodeScalar(Unsupported).Err?
  {
  }

  /**
    Wherever the encoding of a value occurs, whatever surrounds it, decoding there gives the
    normal form of the value and stops exactly at the end of the encoding.
   */
  lemma {:induction false} ValueRoundTrip(v: Value, encoded: bytes, offset: nat)
    requires EncodeValue(v).Ok? && Holds(encoded, offset, EncodeValue(v).value)
    ensures DecodeValue(encoded, offset) == Ok((Normal(v), offset + |EncodeValue(v).value|))
    decreases v, 0
  {
    hide EncodeScalar, DecodeScalar, EncodeEntries, DecodeEntries, IsUtf8, Utf8CharLength;
    match v
    case Table(es) =>
      KindHolds(KIND_TABLE, EncodeTable(es).value, encoded, offset);
      TableRoundTrip(es, encoded, offset + 1);
    case List(vs) =>
      var b := EncodeList(vs).value;
      LengthRoundTrip(KIND_LIST, b, encoded, offset);
      ListRoundTrip(vs, encoded, offset + 5, []);
      assert [] + NormalList(vs) == NormalList(vs);
    case _ => ScalarRoundTrip(v, encoded, offset);
  }

  lemma {:induction false} TableRoundTrip(es: seq<Entry>, encoded: bytes, offset: nat)
    requires EncodeTable(es).Ok? && Holds(encoded, offset, EncodeTable(es).value)
    ensures DecodeTable(encoded, offset) == Ok((NormalEntries(es, []), offset + |EncodeTable(es).value|))
    decreases es, 1
  {
    hide EncodeValue, DecodeValue, EncodeEntry, DecodeEntries, EncodeScalar, DecodeScalar, Normal, IsUtf8;
    var b := EncodeEntries(es).value;
    HoldsConcat(encoded, offset, PackUnsigned(|b|, 4).value, b);
    UnpackPacked(encoded, offset, |b|, 4);
    EntriesRoundTrip(es, encoded, offset + 4, []);
  }

  lemma {:induction false} EntryRoundTrip(e: Entry, encoded: bytes, offset: nat)
    requires EncodeEntry(e).Ok? && Holds(encoded, offset, EncodeEntry(e).value)
    ensures DecodeShort(encoded, offset).Ok?
    ensures var (key, o) := DecodeShort(encoded, offset).value;
            key == NormalKey(e.key)
            && DecodeValue(encoded, o) == Ok((Normal(e.value), offset + |EncodeEntry(e).value|))
    decreases e, 0
  {
    hide EncodeValue, DecodeValue, EncodeScalar, DecodeScalar, Normal, IsUtf8, EncodeShort;
    var k := EncodeShort(e.key).value;
    HoldsConcat(encoded, offset, k, EncodeValue(e.value).value);
    ShortRoundTrip(e.key, encoded, offset);
    ValueRoundTrip(e.value, encoded, offset + |k|);
  }

  lemma {:induction false} EntriesRoundTrip(es: seq<Entry>, encoded: bytes, offset: nat, acc: seq<Entry>)
    requires EncodeEntries(es).Ok? && Holds(encoded, offset, EncodeEntries(es).value)
    ensures var limit := offset + |EncodeEntries(es).value|;
            DecodeEntries(encoded, offset, limit, acc) == Ok((NormalEntries(es, acc), limit))
    decreases es, 0
  {
    hide EncodeValue, EncodeEntry, DecodeValue, EncodeScalar, DecodeScalar, Normal, IsUtf8, DecodeShort, Put;
    if es != [] {
      var b := EncodeEntry(es[0]).value;
      HoldsConcat(encoded, offset, b, EncodeEntries(es[1..]).value);
      EntryRoundTrip(es[0], encoded, offset);
      var e := NormalEntry(es[0]);
      EntriesRoundTrip(es[1..], encoded, offset + |b|, Put(acc, e.key, e.value));
    }
  }

  lemma DecodeListEnd(encoded: bytes, offset: nat, acc: seq<Value>)
    ensures DecodeList(encoded, offset, offset, acc) == Ok((acc, offset))
  {
  }

  lemma DecodeListStep(encoded: bytes, offset: nat, limit: nat, acc: seq<Value>, v: Value, end: nat)
    requires offset < limit && DecodeValue(encoded, offset) == Ok((v, end))
    ensures DecodeList(encoded, offset, limit, acc) == DecodeList(encoded, end, limit, acc + [v])
  {
    hide DecodeValue;
  }

  lemma EncodeListStep(vs: seq<Value>)
    requires vs != [] && EncodeList(vs).Ok?
    ensures EncodeValue(vs[0]).Ok? && EncodeList(vs[1..]).Ok?
    ensures EncodeList(vs).value == EncodeValue(vs[0]).value + EncodeList(vs[1..]).value
  {
    hide EncodeValue;
  }

  lemma NormalListStep(acc: seq<Value>, vs: seq<Value>)
    requires vs != []
    ensures acc + NormalList(vs) == acc + [Normal(vs[0])] + NormalList(vs[1..])
  {
    hide Normal;
    ConcatAssociative(acc, [Normal(vs[0])], NormalList(vs[1..]));
  }

  lemma {:induction false} ListRoundTrip(vs: seq<Value>, encoded: bytes, offset: nat, acc: seq<Value>)
    requires EncodeList(vs).Ok? && Holds(encoded, offset, EncodeList(vs).value)
    ensures var limit := offset + |EncodeList(vs).value|;
            DecodeList(encoded, offset, limit, acc) == Ok((acc + NormalList(vs), limit))
    decreases vs, 0
  {
    hide EncodeValue, DecodeValue, DecodeList, NormalList, EncodeScalar, Normal, IsUtf8, Holds;
    if vs == [] {
      EmptyList(acc);
      DecodeListEnd(encoded, offset, acc);
    } else {
      EncodeListStep(vs);
      var b, rest := EncodeValue(vs[0]).value, EncodeList(vs[1..]).value;
      HoldsConcat(encoded, offset, b, rest);
      ValueRoundTrip(vs[0], encoded, offset);
      ListRoundTrip(vs[1..], encoded, offset + |b|, acc + [Normal(vs[0])]);
      DecodeListStep(encoded, offset, offset + |b + rest|, acc, Normal(vs[0]), offset + |b|);
      NormalListStep(acc, vs);
    }
  }

  lemma EmptyList(acc: seq<Value>)
    ensures acc + NormalList([]) == acc && EncodeList([]) == Ok([])
  {
  }

  // ---------- One-octet integers ----------

  /** How AMQP 0-9-1 (section 4.2.5.5) reads the kinds 'b', signed, and 'B', unsigned. */
  function StandardOctet(kind: byte, octet: byte): int {
    if kind == KIND_U8 && octet >= 128 then octet - 256 else octet
  }

  /** pika reads an octet of kind 'b' or 'B' as the standard does exactly when it is below 128. */
  lemma OctetsAgreeExactly(encoded: bytes, offset: nat)
    requires offset + 1 < |encoded| && (encoded[offset] == KIND_U8 || encoded[offset] == KIND_S8)
    ensures DecodeValue(encoded, offset).Ok? && DecodeValue(encoded, offset).value.1 == offset + 2
    ensures DecodeValue(encoded, offset).value.0 == Int(StandardOctet(encoded[offset], encoded[offset + 1]))
            <==> encoded[offset + 1] < 128
  {
    var octet := encoded[offset + 1];
    assert Pow256(1) == 256;
    assert encoded[offset + 1..offset + 2] == [octet];
    assert FromBigEndian([octet]) == octet by { assert [octet][..0] == []; }
  }
}

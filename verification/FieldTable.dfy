/** Field values and tables (data.py): the abstract encoder and decoder. */
module FieldTable {
  import opened Bytes

  const MAX_DATETIME := 253402300799  // 9999-12-31T23:59:59, the last datetime
  const MIN_DATETIME := -62135596800  // 0001-01-01T00:00:00

  /** Whole seconds since the epoch of a Python `datetime`. */
  type DateTime = t: int | MIN_DATETIME <= t <= MAX_DATETIME

  datatype Value =
    | Boolean(b: bool)
    | Int(n: int)
    | Long(l: int)                      // pika's marker subclass of int
    | Chars(chars: utf8)
    | Binary(data: bytes)
    | Decimal(coefficient: int, exponent: int)
    | TimeStamp(seconds: DateTime)
    | Table(entries: seq<Entry>)
    | List(items: seq<Value>)
    | Null
    | Unsupported                       // any other Python object

  /** An item of a `dict`, which is a sequence of them in insertion order; `Put` is its assignment. */
  datatype Entry = Entry(key: Text, value: Value)

  const KIND_BOOL: byte := 0x74        // 't'
  const KIND_U8: byte := 0x62          // 'b'
  const KIND_S8: byte := 0x42          // 'B'
  const KIND_S16: byte := 0x55         // 'U'
  const KIND_U16: byte := 0x75         // 'u'
  const KIND_S32: byte := 0x49         // 'I'
  const KIND_U32: byte := 0x69         // 'i'
  const KIND_S64: byte := 0x4C         // 'L'
  const KIND_U64: byte := 0x6C         // 'l'
  const KIND_FLOAT: byte := 0x66       // 'f'
  const KIND_DOUBLE: byte := 0x64      // 'd'
  const KIND_DECIMAL: byte := 0x44     // 'D'
  const KIND_SHORT: byte := 0x73       // 's'
  const KIND_CHARS: byte := 0x53       // 'S'
  const KIND_BINARY: byte := 0x78      // 'x'
  const KIND_LIST: byte := 0x41        // 'A'
  const KIND_TIMESTAMP: byte := 0x54   // 'T'
  const KIND_TABLE: byte := 0x46       // 'F'
  const KIND_NULL: byte := 0x56        // 'V'

  // ---------- Decimals ----------

  function Pow10(k: nat): (p: nat)
    ensures p >= 1
  {
    if k == 0 then 1 else 10 * Pow10(k - 1)
  }

  /** `Decimal.normalize()`: no trailing zeros, and zero has exponent 0. */
  function Normalize(coefficient: int, exponent: int): (int, int)
    decreases if coefficient < 0 then -coefficient else coefficient
  {
    if coefficient == 0 then (0, 0)
    else if coefficient % 10 == 0 then Normalize(coefficient / 10, exponent + 1)
    else (coefficient, exponent)
  }

  /** The `decimals` octet and the raw integer that `encode_value` packs for a decimal. */
  function DecimalParts(coefficient: int, exponent: int): (int, int) {
    var (c, e) := Normalize(coefficient, exponent);
    if e < 0 then (-e, c) else (0, c * Pow10(e))
  }

  // ---------- Encoding ----------

  function EncodeShort(t: Text): Result<bytes> {
    var b := AsBytes(t);
    if |b| > 255 then Err(ShortStringTooLong) else Ok([|b|] + b)
  }

  /** `struct.pack('>cI', kind, len(b))` followed by `b`. */
  function WithLength(kind: byte, b: bytes): Result<bytes> {
    var n :- PackUnsigned(|b|, 4);
    Ok([kind] + n + b)
  }

  /** `struct.pack('>cq', 'L', n)` when negative, `struct.pack('>cQ', 'l', n)` otherwise. */
  function EncodeLong(n: int): Result<bytes> {
    if n < 0 then
      var b :- PackSigned(n, 8);
      Ok([KIND_S64] + b)
    else
      var b :- PackUnsigned(n, 8);
      Ok([KIND_U64] + b)
  }

  function EncodeScalar(v: Value): Result<bytes>
    requires !v.Table? && !v.List?
  {
    match v
    case Chars(s) => WithLength(KIND_CHARS, s)
    case Binary(b) => WithLength(KIND_BINARY, b)
    case Boolean(b) => Ok([KIND_BOOL, if b then 1 else 0])
    case Long(n) => EncodeLong(n)
    case Int(n) =>
      var p := PackSigned(n, 4);
      if p.Ok? then Ok([KIND_S32] + p.value) else EncodeLong(n)
    case Decimal(c, e) =>
      var (decimals, raw) := DecimalParts(c, e);
      var d :- PackUnsigned(decimals, 1);
      var r :- PackSigned(raw, 4);
      Ok([KIND_DECIMAL] + d + r)
    case TimeStamp(t) =>
      var b :- PackUnsigned(t, 8);
      Ok([KIND_TIMESTAMP] + b)
    case Null => Ok([KIND_NULL])
    case Unsupported => Err(UnsupportedField)
  }

  function EncodeValue(v: Value): Result<bytes>
    decreases v, 0
  {
    match v
    case Table(es) =>
      var b :- EncodeTable(es);
      Ok([KIND_TABLE] + b)
    case List(vs) =>
      var b :- EncodeList(vs);
      WithLength(KIND_LIST, b)
    case _ => EncodeScalar(v)
  }

  function EncodeTable(es: seq<Entry>): Result<bytes>
    decreases es, 1
  {
    var b :- EncodeEntries(es);
    var n :- PackUnsigned(|b|, 4);
    Ok(n + b)
  }

  function EncodeEntries(es: seq<Entry>): Result<bytes>
    decreases es, 0
  {
    if es == [] then Ok([])
    else
      var e :- EncodeEntry(es[0]);
      var rest :- EncodeEntries(es[1..]);
      Ok(e + rest)
  }

  function EncodeEntry(e: Entry): Result<bytes>
    decreases e, 0
  {
    var k :- EncodeShort(e.key);
    var v :- EncodeValue(e.value);
    Ok(k + v)
  }

  function EncodeList(vs: seq<Value>): Result<bytes>
    decreases vs, 0
  {
    if vs == [] then Ok([])
    else
      var v :- EncodeValue(vs[0]);
      var rest :- EncodeList(vs[1..]);
      Ok(v + rest)
  }

  // ---------- Decoding ----------

  function DecodeShort(encoded: bytes, offset: nat): (r: Result<(Text, nat)>)
    ensures r.Ok? ==> offset < |encoded| && r.value.1 > offset
  {
    var length :- UnpackUnsigned(encoded, offset, 1);
    Ok((DecodeText(Slice(encoded, offset + 1, length)), offset + 1 + length))
  }

  /** Dict assignment: an existing key keeps its place. */
  function Put(es: seq<Entry>, key: Text, value: Value): seq<Entry> {
    if es == [] then [Entry(key, value)]
    else if es[0].key == key then [Entry(key, value)] + es[1..]
    else [es[0]] + Put(es[1..], key, value)
  }

  function Scaled(significand: nat, scale: int): int {
    if scale >= 0 then significand * Pow2(scale) else significand / Pow2(-scale)
  }

  /** `long(struct.unpack(...))` of an IEEE 754 number with the given field widths, truncated toward zero. */
  function TruncateFloat(n: nat, exponentBits: nat, mantissaBits: nat): Result<int>
    requires exponentBits > 0
  {
    var e := n / Pow2(mantissaBits) % Pow2(exponentBits);
    var m := n % Pow2(mantissaBits);
    if e == Pow2(exponentBits) - 1 then Err(ValueError)
    else
      var significand := if e == 0 then m else m + Pow2(mantissaBits);
      var scale := (if e == 0 then 1 else e) - (Pow2(exponentBits - 1) - 1) - mantissaBits;
      var magnitude := Scaled(significand, scale);
      Ok(if Bit(n, exponentBits + mantissaBits) then -magnitude else magnitude)
  }

  /** How much of the data lies at or after `offset`: the measure that every decoder decreases. */
  function Left(encoded: bytes, offset: nat): nat {
    if offset < |encoded| then |encoded| - offset else 0
  }

  datatype IntegerKind = IntegerKind(width: nat, signed: bool, long: bool)

  /** How `decode_value` reads the integer kinds. pika reads 'b' as unsigned and 'B' as signed. */
  function IntegerFormat(kind: byte): (r: Option<IntegerKind>)
    ensures r.Some? ==> r.value.width > 0
  {
    if kind == KIND_U8 then Some(IntegerKind(1, false, false))
    else if kind == KIND_S8 then Some(IntegerKind(1, true, false))
    else if kind == KIND_S16 || kind == KIND_SHORT then Some(IntegerKind(2, true, false))
    else if kind == KIND_U16 then Some(IntegerKind(2, false, false))
    else if kind == KIND_S32 then Some(IntegerKind(4, true, false))
    else if kind == KIND_U32 then Some(IntegerKind(4, false, false))
    else if kind == KIND_S64 then Some(IntegerKind(8, true, true))
    else if kind == KIND_U64 then Some(IntegerKind(8, false, true))
    else None
  }

  function UnpackInteger(encoded: bytes, offset: nat, width: nat, signed: bool): Result<int>
    requires width > 0
  {
    if signed then UnpackSigned(encoded, offset, width) else UnpackUnsigned(encoded, offset, width)
  }

  /** `decode_value` after the kind octet, for booleans and numbers. */
  function DecodeNumber(kind: byte, encoded: bytes, offset: nat): (r: Result<(Value, nat)>)
    ensures r.Ok? ==> r.value.1 >= offset
  {
    if kind == KIND_BOOL then
      var n :- UnpackUnsigned(encoded, offset, 1);
      Ok((Boolean(n != 0), offset + 1))
    else if IntegerFormat(kind).Some? then
      var IntegerKind(width, signed, long) := IntegerFormat(kind).value;
      var n :- UnpackInteger(encoded, offset, width, signed);
      Ok((if long then Long(n) else Int(n), offset + width))
    else if kind == KIND_FLOAT then
      var n :- UnpackUnsigned(encoded, offset, 4);
      var f :- TruncateFloat(n, 8, 23);
      Ok((Long(f), offset + 4))
    else if kind == KIND_DOUBLE then
      var n :- UnpackUnsigned(encoded, offset, 8);
      var f :- TruncateFloat(n, 11, 52);
      Ok((Long(f), offset + 8))
    else if kind == KIND_DECIMAL then
      var decimals :- UnpackUnsigned(encoded, offset, 1);
      var raw :- UnpackSigned(encoded, offset + 1, 4);
      Ok((Decimal(raw, 0 - decimals), offset + 5))
    else
      Err(InvalidFieldType)
  }

  /** `decode_value` after the kind octet, for every kind but the two that nest. */
  function DecodeScalar(kind: byte, encoded: bytes, offset: nat): (r: Result<(Value, nat)>)
    ensures r.Ok? ==> r.value.1 >= offset
  {
    if kind == KIND_CHARS || kind == KIND_BINARY then
      var length :- UnpackUnsigned(encoded, offset, 4);
      var s := Slice(encoded, offset + 4, length);
      Ok((if kind == KIND_CHARS && IsUtf8(s) then Chars(s) else Binary(s), offset + 4 + length))
    else if kind == KIND_TIMESTAMP then
      var n :- UnpackUnsigned(encoded, offset, 8);
      if n <= MAX_DATETIME then Ok((TimeStamp(n), offset + 8)) else Err(ValueError)
    else if kind == KIND_NULL then
      Ok((Null, offset))
    else
      DecodeNumber(kind, encoded, offset)
  }

  /** Terminates on every byte string: a decoder that succeeds has consumed something. */
  function DecodeValue(encoded: bytes, offset: nat): (r: Result<(Value, nat)>)
    ensures r.Ok? ==> offset < |encoded| && r.value.1 > offset
    decreases Left(encoded, offset), 0
  {
    if offset >= |encoded| then Err(InvalidFieldType)  // the kind is the empty slice
    else if encoded[offset] == KIND_LIST then
      var length :- UnpackUnsigned(encoded, offset + 1, 4);
      var (vs, end) :- DecodeList(encoded, offset + 5, offset + 5 + length, []);
      Ok((List(vs), end))
    else if encoded[offset] == KIND_TABLE then
      var (es, end) :- DecodeTable(encoded, offset + 1);
      Ok((Table(es), end))
    else
      DecodeScalar(encoded[offset], encoded, offset + 1)
  }

  function DecodeTable(encoded: bytes, offset: nat): (r: Result<(seq<Entry>, nat)>)
    ensures r.Ok? ==> r.value.1 >= offset + 4
    decreases Left(encoded, offset), 2
  {
    var size :- UnpackUnsigned(encoded, offset, 4);
    DecodeEntries(encoded, offset + 4, offset + 4 + size, [])
  }

  /** The loop of `decode_table`, entered with `result == acc`. */
  function DecodeEntries(encoded: bytes, offset: nat, limit: nat, acc: seq<Entry>): (r: Result<(seq<Entry>, nat)>)
    ensures r.Ok? ==> r.value.1 >= offset && r.value.1 >= limit
    decreases Left(encoded, offset), 1
  {
    if offset >= limit then Ok((acc, offset))
    else
      var (key, o) :- DecodeShort(encoded, offset);
      var (value, end) :- DecodeValue(encoded, o);
      DecodeEntries(encoded, end, limit, Put(acc, key, value))
  }

  /** The loop of `decode_value` over a field array, entered with `value == acc`. */
  function DecodeList(encoded: bytes, offset: nat, limit: nat, acc: seq<Value>): (r: Result<(seq<Value>, nat)>)
    ensures r.Ok? ==> r.value.1 >= offset && r.value.1 >= limit
    decreases Left(encoded, offset), 1
  {
    if offset >= limit then Ok((acc, offset))
    else
      var (value, end) :- DecodeValue(encoded, offset);
      DecodeList(encoded, end, limit, acc + [value])
  }
}

/** Field values on the wire, octet by octet. */
module FieldWire {
  import opened Bytes
  import opened FieldTable
  import opened FieldTableTheorems

  // ---------- Integers ----------

  /** The octets of `n`, most significant first. */
  function Two(n: nat): (s: bytes)
    ensures |s| == 2
  {
    [n / 0x100 % 256, n % 256]
  }

  function Four(n: nat): (s: bytes)
    ensures |s| == 4
  {
    [n / 0x100_0000 % 256, n / 0x1_0000 % 256, n / 0x100 % 256, n % 256]
  }

  function Eight(n: nat): (s: bytes)
    ensures |s| == 8
  {
    Four(n / 0x1_0000_0000) + Four(n)
  }

  /** Two's complement. */
  function SignedFour(n: int): (s: bytes)
    requires -0x8000_0000 <= n < 0x8000_0000
    ensures |s| == 4
  {
    Four(if n < 0 then n + 0x1_0000_0000 else n)
  }

  function SignedEight(n: int): (s: bytes)
    requires -0x8000_0000_0000_0000 <= n < 0x8000_0000_0000_0000
    ensures |s| == 8
  {
    Eight(if n < 0 then n + 0x1_0000_0000_0000_0000 else n)
  }

  lemma OctetsTwo(n: nat)
    ensures BigEndian(n, 1) == [n % 256] && BigEndian(n, 2) == Two(n)
  {
    assert BigEndian(n, 1) == BigEndian(n / 256, 0) + [n % 256] == [] + [n % 256];
    assert BigEndian(n / 256, 1) == BigEndian(n / 256 / 256, 0) + [n / 256 % 256] == [] + [n / 256 % 256];
  }

  lemma Quarters(n: nat)
    ensures n / 256 / 256 == n / 0x1_0000 && n / 256 / 256 / 256 == n / 0x100_0000
    ensures n / 256 / 256 / 256 / 256 == n / 0x1_0000_0000
  {
  }

  lemma OctetsFour(n: nat)
    ensures BigEndian(n, 4) == Four(n)
  {
    Quarters(n);
    OctetsTwo(n / 256 / 256);
    assert BigEndian(n, 4) == BigEndian(n / 256, 3) + [n % 256];
    assert BigEndian(n / 256, 3) == BigEndian(n / 256 / 256, 2) + [n / 256 % 256];
  }

  lemma OctetsEight(n: nat)
    ensures BigEndian(n, 8) == Eight(n)
  {
    hide Four;
    var m := n / 256;
    Quarters(n);
    OctetsFour(n);
    OctetsFour(n / 0x1_0000_0000);
    assert BigEndian(n, 8) == BigEndian(m, 7) + [n % 256];
    assert BigEndian(m, 7) == BigEndian(m / 256, 6) + [m % 256];
    assert BigEndian(m / 256, 6) == BigEndian(m / 256 / 256, 5) + [m / 256 % 256];
    assert BigEndian(m / 256 / 256, 5) == BigEndian(m / 256 / 256 / 256, 4) + [m / 256 / 256 % 256];
    assert BigEndian(n, 4) == BigEndian(m, 3) + [n % 256];
    assert BigEndian(m, 3) == BigEndian(m / 256, 2) + [m % 256];
    assert BigEndian(m / 256, 2) == BigEndian(m / 256 / 256, 1) + [m / 256 % 256];
  }
  lemma Packed(n: int)
    ensures PackUnsigned(n, 1).Ok? <==> 0 <= n < 256
    ensures PackUnsigned(n, 2).Ok? <==> 0 <= n < 0x1_0000
    ensures PackUnsigned(n, 4).Ok? <==> 0 <= n < 0x1_0000_0000
    ensures PackUnsigned(n, 8).Ok? <==> 0 <= n < 0x1_0000_0000_0000_0000
    ensures 0 <= n < 256 ==> PackUnsigned(n, 1) == Ok([n])
    ensures 0 <= n < 0x1_0000 ==> PackUnsigned(n, 2) == Ok(Two(n))
    ensures 0 <= n < 0x1_0000_0000 ==> PackUnsigned(n, 4) == Ok(Four(n))
    ensures 0 <= n < 0x1_0000_0000_0000_0000 ==> PackUnsigned(n, 8) == Ok(Eight(n))
  {
    hide BigEndian, Two, Four, Eight;
    Widths();
    if n >= 0 {
      OctetsTwo(n);
      OctetsFour(n);
      OctetsEight(n);
    }
  }

  lemma PackedSigned(n: int)
    ensures PackSigned(n, 4).Ok? <==> -0x8000_0000 <= n < 0x8000_0000
    ensures PackSigned(n, 8).Ok? <==> -0x8000_0000_0000_0000 <= n < 0x8000_0000_0000_0000
    ensures PackSigned(n, 4).Ok? ==> PackSigned(n, 4).value == SignedFour(n)
    ensures PackSigned(n, 8).Ok? ==> PackSigned(n, 8).value == SignedEight(n)
  {
    hide BigEndian, Four, Eight;
    Widths();
    if PackSigned(n, 4).Ok? {
      OctetsFour(if n < 0 then n + 0x1_0000_0000 else n);
    }
    if PackSigned(n, 8).Ok? {
      OctetsEight(if n < 0 then n + 0x1_0000_0000_0000_0000 else n);
    }
  }

  // ---------- Encoding ----------

  function Letter(c: char): byte
    requires c as int < 256
  {
    c as int
  }

  function ShortWire(t: Text): bytes
    requires |AsBytes(t)| <= 255
  {
    [|AsBytes(t)|] + AsBytes(t)
  }

  function LongWire(n: int): bytes
    requires InLongRange(n)
  {
    if n < 0 then [Letter('L')] + SignedEight(n) else [Letter('l')] + Eight(n)
  }

  /** Each kind of value: its letter, and what follows. */
  function ValueWire(v: Value): bytes
    requires InRange(v)
    decreases v, 0
  {
    match v
    case Boolean(b) => [Letter('t'), if b then 1 else 0]
    case Int(n) => if -0x8000_0000 <= n < 0x8000_0000 then [Letter('I')] + SignedFour(n) else LongWire(n)
    case Long(n) => LongWire(n)
    case Chars(s) => [Letter('S')] + Four(|s|) + s
    case Binary(b) => [Letter('x')] + Four(|b|) + b
    case Decimal(c, e) =>
      var (decimals, raw) := DecimalParts(c, e);
      DecimalDigits(c, e);
      [Letter('D'), decimals] + SignedFour(raw)
    case TimeStamp(t) => [Letter('T')] + Eight(t)
    case Table(es) => [Letter('F')] + TableWire(es)
    case List(vs) => [Letter('A')] + Four(|ListWire(vs)|) + ListWire(vs)
    case Null => [Letter('V')]
  }

  /** A table is its length in bytes and its keys, each followed by its value. */
  function TableWire(es: seq<Entry>): bytes
    requires InRangeEntries(es)
    decreases es, 1
  {
    Four(|EntriesWire(es)|) + EntriesWire(es)
  }

  function EntriesWire(es: seq<Entry>): bytes
    requires InRangeEntries(es)
    decreases es, 0
  {
    if es == [] then [] else EntryWire(es[0]) + EntriesWire(es[1..])
  }

  function EntryWire(e: Entry): bytes
    requires InRangeEntry(e)
    decreases e, 0
  {
    ShortWire(e.key) + ValueWire(e.value)
  }

  function ListWire(vs: seq<Value>): bytes
    requires InRangeList(vs)
    decreases vs, 0
  {
    if vs == [] then [] else ValueWire(vs[0]) + ListWire(vs[1..])
  }

  lemma LongEncodes(n: int)
    requires InLongRange(n)
    ensures EncodeLong(n) == Ok(LongWire(n))
  {
    hide Eight;
    Packed(n);
    PackedSigned(n);
  }

  lemma ScalarEncodes(v: Value)
    requires InRange(v) && !v.Table? && !v.List?
    ensures EncodeScalar(v) == Ok(ValueWire(v))
  {
    hide Four, Eight, PackUnsigned, PackSigned, EncodeLong, LongWire, DecimalParts;
    match v
    case Int(n) =>
      LongEncodes(n);
      PackedSigned(n);
    case Long(n) => LongEncodes(n);
    case Chars(s) => Packed(|s|);
    case Binary(b) => Packed(|b|);
    case Decimal(c, e) =>
      var (decimals, raw) := DecimalParts(c, e);
      DecimalDigits(c, e);
      Packed(decimals);
      PackedSigned(raw);
      assert [Letter('D')] + [decimals] == [Letter('D'), decimals];
    case TimeStamp(t) => Packed(t);
    case _ =>
  }

  /** Every value in range goes out in this form. */
  lemma {:induction false} EncodesToWire(v: Value)
    requires InRange(v)
    ensures EncodeValue(v) == Ok(ValueWire(v))
    decreases v, 0
  {
    hide Four, PackUnsigned, EncodeScalar;
    match v
    case Table(es) => TableEncodesToWire(es);
    case List(vs) =>
      ListEncodesToWire(vs);
      Packed(|ListWire(vs)|);
      ListEncodesExactlyInRange(vs);
    case _ => ScalarEncodes(v);
  }

  lemma {:induction false} TableEncodesToWire(es: seq<Entry>)
    requires InRangeEntries(es) && SizeEntries(es) < 0x1_0000_0000
    ensures EncodeTable(es) == Ok(TableWire(es))
    decreases es, 1
  {
    hide Four, PackUnsigned;
    EntriesEncodeToWire(es);
    EntriesEncodeExactlyInRange(es);
    Packed(|EntriesWire(es)|);
  }

  lemma {:induction false} EntriesEncodeToWire(es: seq<Entry>)
    requires InRangeEntries(es)
    ensures EncodeEntries(es) == Ok(EntriesWire(es))
    decreases es, 0
  {
    if es != [] {
      EntryEncodesToWire(es[0]);
      EntriesEncodeToWire(es[1..]);
    }
  }

  lemma {:induction false} EntryEncodesToWire(e: Entry)
    requires InRangeEntry(e)
    ensures EncodeEntry(e) == Ok(EntryWire(e))
    decreases e, 0
  {
    EncodesToWire(e.value);
  }

  lemma {:induction false} ListEncodesToWire(vs: seq<Value>)
    requires InRangeList(vs)
    ensures EncodeList(vs) == Ok(ListWire(vs))
    decreases vs, 0
  {
    if vs != [] {
      EncodesToWire(vs[0]);
      ListEncodesToWire(vs[1..]);
    }
  }

  /** The wire form of a value is decoded wherever it stands. */
  lemma DecodesFromWire(v: Value, encoded: bytes, offset: nat)
    requires InRange(v) && Holds(encoded, offset, ValueWire(v))
    ensures DecodeValue(encoded, offset) == Ok((Normal(v), offset + |ValueWire(v)|))
  {
    hide EncodeValue, ValueWire, DecodeValue, Normal;
    EncodesToWire(v);
    ValueRoundTrip(v, encoded, offset);
  }

  /**
    The `decimals` octet and the integer of a decimal stand for its value exactly, with no more digits than it
    needs.
   */
  lemma DecimalExactly(c: int, e: int)
    ensures var (decimals, raw) := DecimalParts(c, e);
            decimals >= 0 && (decimals > 0 ==> raw % 10 != 0)
            && raw * Pow10(if e < 0 then -e else 0) == c * Pow10(decimals) * Pow10(if e > 0 then e else 0)
  {
    hide Pow10, Normalize;
    var (m, f) := Normalize(c, e);
    NormalizeExactly(c, e);
    DecimalDigits(c, e);
    Pow10Zero();
    if c != 0 {
      if f < 0 {
        Regroup(m, f - e, -f);
      } else if e < 0 {
        Regroup(m, f, -e);
      } else {
        Regroup(m, f - e, e);
      }
    }
  }

  lemma Pow10Zero()
    ensures Pow10(0) == 1
  {
  }

  lemma Regroup(m: int, a: nat, b: nat)
    ensures m * Pow10(a) * Pow10(b) == m * Pow10(a + b)
  {
    Pow10Plus(a, b);
  }

  lemma {:induction false} NormalizeExactly(c: int, e: int)
    ensures var (m, f) := Normalize(c, e);
            if c == 0 then (m, f) == (0, 0) else m % 10 != 0 && f >= e && c == m * Pow10(f - e)
    decreases if c < 0 then -c else c
  {
    if c != 0 && c % 10 == 0 {
      NormalizeExactly(c / 10, e + 1);
    }
  }

  lemma {:induction false} Pow10Plus(a: nat, b: nat)
    ensures Pow10(a + b) == Pow10(a) * Pow10(b)
  {
    if a > 0 {
      Pow10Plus(a - 1, b);
    }
  }
}

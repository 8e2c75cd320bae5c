/** Encoding what was decoded. */
module FieldTableReencode {
  import opened Bytes
  import opened FieldTable
  import opened FieldTableTheorems

  /** At every depth, the keys of a table have pairwise different bytes. */
  predicate KeysDistinct(v: Value)
    decreases v, 0
  {
    match v
    case Table(es) => EntriesDistinct(es, {})
    case List(vs) => ListDistinct(vs)
    case _ => true
  }

  predicate EntryDistinct(e: Entry)
    decreases e, 0
  {
    KeysDistinct(e.value)
  }

  predicate EntriesDistinct(es: seq<Entry>, seen: set<bytes>)
    decreases es, 0
  {
    es == []
    || (AsBytes(es[0].key) !in seen && EntryDistinct(es[0])
        && EntriesDistinct(es[1..], seen + {AsBytes(es[0].key)}))
  }

  predicate ListDistinct(vs: seq<Value>)
    decreases vs, 0
  {
    vs == [] || (KeysDistinct(vs[0]) && ListDistinct(vs[1..]))
  }

  function Keys(es: seq<Entry>): set<bytes> {
    if es == [] then {} else {AsBytes(es[0].key)} + Keys(es[1..])
  }

  predicate KeysNormal(es: seq<Entry>) {
    es == [] || (es[0].key == NormalKey(es[0].key) && KeysNormal(es[1..]))
  }

  // ---------- Dict assignment ----------

  lemma {:induction false} PutKeys(es: seq<Entry>, key: Text, value: Value)
    requires KeysNormal(es) && key == NormalKey(key)
    ensures KeysNormal(Put(es, key, value))
    ensures Keys(Put(es, key, value)) == Keys(es) + {AsBytes(key)}
    ensures AsBytes(key) !in Keys(es) ==> Put(es, key, value) == es + [Entry(key, value)]
    ensures SizeEntries(Put(es, key, value)) <= SizeEntries(es) + SizeEntry(Entry(key, value))
    ensures SizeEntries(Put(es, key, value)) == SizeEntries(es) + SizeEntry(Entry(key, value))
            <==> AsBytes(key) !in Keys(es)
  {
    hide IsUtf8, Size;
    if es != [] {
      var rest := Put(es[1..], key, value);
      if es[0].key == key {
        assert ([Entry(key, value)] + es[1..])[1..] == es[1..];
      } else {
        PutKeys(es[1..], key, value);
        assert ([es[0]] + rest)[1..] == rest;
      }
    }
  }

  // ---------- Decimals are normalised once ----------

  lemma {:induction false} NormalizeResult(c: int, e: int)
    ensures var (d, f) := Normalize(c, e); (d == 0 && f == 0) || d % 10 != 0
    decreases if c < 0 then -c else c
  {
    if c != 0 && c % 10 == 0 {
      NormalizeResult(c / 10, e + 1);
    }
  }

  lemma {:induction false} NormalizeShifted(c: int, k: nat, e: int)
    requires c % 10 != 0
    ensures Normalize(c * Pow10(k), e) == (c, e + k)
  {
    if k > 0 {
      var d := c * Pow10(k - 1);
      assert c * Pow10(k) == 10 * d by { assert Pow10(k) == 10 * Pow10(k - 1); }
      assert d != 0;
      NormalizeShifted(c, k - 1, e + 1);
    }
  }

  lemma DecimalPartsIdempotent(c: int, e: int)
    ensures var (decimals, raw) := DecimalParts(c, e); DecimalParts(raw, -decimals) == (decimals, raw)
  {
    NormalizeResult(c, e);
    var (d, f) := Normalize(c, e);
    if f >= 0 && d != 0 {
      NormalizeShifted(d, f, 0);
    }
  }

  // ---------- Size ----------

  /** Normalising never lengthens a value, and shortens it exactly when keys clash. */
  lemma {:induction false} NormalSize(v: Value)
    ensures Size(Normal(v)) <= Size(v)
    ensures Size(Normal(v)) == Size(v) <==> KeysDistinct(v)
    decreases v, 0
  {
    match v
    case Table(es) => NormalEntriesSize(es, []);
    case List(vs) => NormalListSize(vs);
    case _ =>
  }

  lemma {:induction false} NormalEntrySize(e: Entry)
    ensures SizeEntry(NormalEntry(e)) <= SizeEntry(e)
    ensures SizeEntry(NormalEntry(e)) == SizeEntry(e) <==> EntryDistinct(e)
    decreases e, 0
  {
    NormalSize(e.value);
  }

  lemma {:induction false} NormalEntriesSize(es: seq<Entry>, acc: seq<Entry>)
    requires KeysNormal(acc)
    ensures SizeEntries(NormalEntries(es, acc)) <= SizeEntries(acc) + SizeEntries(es)
    ensures SizeEntries(NormalEntries(es, acc)) == SizeEntries(acc) + SizeEntries(es)
            <==> EntriesDistinct(es, Keys(acc))
    decreases es, 0
  {
    hide IsUtf8, Size, KeysDistinct, Put, Keys, KeysNormal, SizeEntry, EntryDistinct;
    if es != [] {
      var e := NormalEntry(es[0]);
      NormalEntrySize(es[0]);
      PutKeys(acc, e.key, e.value);
      NormalEntriesSize(es[1..], Put(acc, e.key, e.value));
    }
  }

  lemma {:induction false} NormalListSize(vs: seq<Value>)
    ensures SizeList(NormalList(vs)) <= SizeList(vs)
    ensures SizeList(NormalList(vs)) == SizeList(vs) <==> ListDistinct(vs)
    decreases vs, 0
  {
    if vs != [] {
      NormalSize(vs[0]);
      NormalListSize(vs[1..]);
      assert ([Normal(vs[0])] + NormalList(vs[1..]))[1..] == NormalList(vs[1..]);
    }
  }

  // ---------- Re-encoding ----------

  lemma {:induction false} EncodeEntriesConcat(a: seq<Entry>, b: seq<Entry>)
    ensures EncodeEntries(a + b) == Append(EncodeEntries(a), EncodeEntries(b))
  {
    hide EncodeEntry;
    AppendAssociative(EncodeEntries(b), Ok([]), Ok([]));
    if a == [] {
      assert a + b == b;
    } else {
      assert (a + b)[1..] == a[1..] + b;
      EncodeEntriesConcat(a[1..], b);
      AppendAssociative(EncodeEntry(a[0]), EncodeEntries(a[1..]), EncodeEntries(b));
    }
  }

  lemma {:induction false} ReencodeValue(v: Value)
    requires KeysDistinct(v)
    ensures EncodeValue(Normal(v)) == EncodeValue(v)
    decreases v, 0
  {
    hide IsUtf8, Normalize, DecimalParts;
    match v
    case Table(es) =>
      ReencodeEntries(es, []);
      assert [] + es == es;
    case List(vs) => ReencodeList(vs);
    case Decimal(c, e) => DecimalPartsIdempotent(c, e);
    case _ =>
  }

  lemma {:induction false} ReencodeEntry(e: Entry)
    requires EntryDistinct(e)
    ensures EncodeEntry(NormalEntry(e)) == EncodeEntry(e)
    decreases e, 0
  {
    ReencodeValue(e.value);
  }

  lemma {:induction false} ReencodeEntries(es: seq<Entry>, acc: seq<Entry>)
    requires KeysNormal(acc) && EntriesDistinct(es, Keys(acc))
    ensures EncodeEntries(NormalEntries(es, acc)) == EncodeEntries(acc + es)
    decreases es, 0
  {
    hide IsUtf8, EncodeEntry, EncodeEntries, Append, Normal, KeysDistinct, Put, Keys, KeysNormal, EntryDistinct,
      SizeEntries;
    if es == [] {
      assert acc + es == acc;
    } else {
      var e := NormalEntry(es[0]);
      PutKeys(acc, e.key, e.value);
      ReencodeEntries(es[1..], acc + [e]);
      ReencodeEntry(es[0]);
      SingletonEntry(e, es[0], es[1..]);
      assert acc + [e] + es[1..] == acc + ([e] + es[1..]);
      assert acc + es == acc + ([es[0]] + es[1..]);
      EncodeEntriesConcat(acc, [e] + es[1..]);
      EncodeEntriesConcat(acc, [es[0]] + es[1..]);
    }
  }

  lemma SingletonEntry(e: Entry, f: Entry, rest: seq<Entry>)
    requires EncodeEntry(e) == EncodeEntry(f)
    ensures EncodeEntries([e] + rest) == EncodeEntries([f] + rest)
  {
    assert ([e] + rest)[1..] == rest && ([f] + rest)[1..] == rest;
  }

  lemma {:induction false} ReencodeList(vs: seq<Value>)
    requires ListDistinct(vs)
    ensures EncodeList(NormalList(vs)) == EncodeList(vs)
    decreases vs, 0
  {
    if vs != [] {
      ReencodeValue(vs[0]);
      ReencodeList(vs[1..]);
      assert ([Normal(vs[0])] + NormalList(vs[1..]))[1..] == NormalList(vs[1..]);
    }
  }

  /**
    The decoded value encodes to the bytes it was decoded from exactly when the keys of every table
    differ in their bytes. A Python dict may hold both `"k"` and `b"k"`; those clash.
   */
  lemma ReencodesExactlyWhenKeysDistinct(v: Value)
    requires EncodeValue(v).Ok?
    ensures EncodeValue(Normal(v)) == EncodeValue(v) <==> KeysDistinct(v)
  {
    EncodesExactlyInRange(v);
    EncodesExactlyInRange(Normal(v));
    NormalSize(v);
    if KeysDistinct(v) {
      ReencodeValue(v);
    }
  }

  /** A table that does not come back: one key as text, the same key as bytes. */
  lemma ClashingKeysOccur()
    ensures var v := Table([Entry(Str([0x6B]), Null), Entry(Raw([0x6B]), Null)]);
            EncodeValue(v).Ok? && EncodeValue(Normal(v)) != EncodeValue(v)
  {
    var es := [Entry(Str([0x6B]), Null), Entry(Raw([0x6B]), Null)];
    var v := Table(es);
    assert es[1..] == [es[1]] && es[1..][1..] == [];
    assert InRangeEntry(es[0]) && InRangeEntry(es[1]);
    assert InRangeEntries(es[1..]);
    assert InRangeEntries(es);
    EncodesExactlyInRange(v);
    assert !EntriesDistinct(es, {});
    hide EncodeValue, Normal;
    ReencodesExactlyWhenKeysDistinct(v);
  }

  /** Decode, then encode: the bytes come back, and a second round changes nothing. */
  lemma SecondRoundTrip(v: Value, encoded: bytes, offset: nat)
    requires KeysDistinct(v) && EncodeValue(v).Ok? && Holds(encoded, offset, EncodeValue(v).value)
    ensures DecodeValue(encoded, offset).Ok?
    ensures EncodeValue(DecodeValue(encoded, offset).value.0) == EncodeValue(v)
    ensures Normal(Normal(v)) == Normal(v)
  {
    hide *;
    ReencodeValue(v);
    ValueRoundTrip(v, encoded, offset);
    ValueRoundTrip(Normal(v), encoded, offset);
  }
}

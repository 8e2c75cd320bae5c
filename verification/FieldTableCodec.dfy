/**
  data.py as it runs: encoders that append to a shared list of pieces and patch a table's length afterwards, and
  decoders that advance an offset in loops. Each is proved against `FieldTable`.
 */
module FieldTableCodec {
  import opened Bytes
  import opened FieldTable
  import F = FieldTable

  /** The list of encoded pieces; `None` is the placeholder of a length not yet known. */
  class PieceList {
    var items: seq<Option<bytes>>

    constructor ()
      ensures items == []
    {
      items := [];
    }

    method Add(b: bytes)
      modifies this
      ensures items == old(items) + [Some(b)]
    {
      items := items + [Some(b)];
    }

    /** `list.insert(0, b)`. */
    method Prepend(b: bytes)
      modifies this
      ensures items == [Some(b)] + old(items)
    {
      items := [Some(b)] + items;
    }

    method Join() returns (b: bytes)
      requires Joined(items).Some?
      ensures Some(b) == Joined(items)
    {
      b := [];
      var i := 0;
      while i < |items|
        invariant i <= |items|
        invariant Joined(items[..i]) == Some(b) && Joined(items[i..]).Some?
      {
        assert items[i..] == [items[i]] + items[i + 1..];
        JoinedConcat(items[..i], [items[i]]);
        assert items[..i + 1] == items[..i] + [items[i]];
        AppendedOne([], items[i].value);
        b := b + items[i].value;
        i := i + 1;
      }
      assert items[..i] == items;
    }
  }

  /** `b''.join(pieces)`; `None` while a placeholder remains. */
  function Joined(pieces: seq<Option<bytes>>): Option<bytes> {
    if pieces == [] then Some([])
    else if pieces[0].None? || Joined(pieces[1..]).None? then None
    else Some(pieces[0].value + Joined(pieces[1..]).value)
  }

  lemma {:induction false} JoinedConcat(a: seq<Option<bytes>>, b: seq<Option<bytes>>)
    ensures Joined(a + b).Some? <==> Joined(a).Some? && Joined(b).Some?
    ensures Joined(a + b).Some? ==> Joined(a + b).value == Joined(a).value + Joined(b).value
  {
    if a == [] {
      assert a + b == b;
    } else {
      assert (a + b)[1..] == a[1..] + b;
      JoinedConcat(a[1..], b);
    }
  }

  /**
    What every encoder does to the list: the pieces there before it are untouched, and what it added
    joins to the specified bytes, of the returned size, with no placeholder left; or it raised.
   */
  ghost predicate Appended(before: seq<Option<bytes>>, after: seq<Option<bytes>>, spec: Result<bytes>, r: Result<nat>) {
    before <= after
    && (spec.Ok? ==> r == Ok(|spec.value|) && Joined(after[|before|..]) == Some(spec.value))
    && (spec.Err? ==> r == Err(spec.error))
  }

  lemma AppendedNothing(before: seq<Option<bytes>>)
    ensures Appended(before, before, Ok([]), Ok(0))
  {
  }

  lemma AppendedOne(before: seq<Option<bytes>>, b: bytes)
    ensures Appended(before, before + [Some(b)], Ok(b), Ok(|b|))
  {
    assert (before + [Some(b)])[|before|..] == [Some(b)];
    assert b + [] == b;
  }

  lemma AppendedTwo(before: seq<Option<bytes>>, a: bytes, b: bytes)
    ensures Appended(before, before + [Some(a)] + [Some(b)], Ok(a + b), Ok(|a| + |b|))
  {
    AppendedOne(before, a);
    AppendedOne(before + [Some(a)], b);
    AppendedThen(before, before + [Some(a)], before + [Some(a)] + [Some(b)], Ok(a), Ok(|a|), Ok(b), Ok(|b|));
  }

  /** Two encoders in sequence. */
  lemma AppendedThen(p: seq<Option<bytes>>, q: seq<Option<bytes>>, s: seq<Option<bytes>>,
                     a: Result<bytes>, m: Result<nat>, b: Result<bytes>, n: Result<nat>)
    requires Appended(p, q, a, m) && Appended(q, s, b, n) && a.Ok?
    ensures Appended(p, s, Append(a, b), if n.Ok? then Ok(m.value + n.value) else n)
  {
    assert s[|p|..] == q[|p|..] + s[|q|..];
    JoinedConcat(q[|p|..], s[|q|..]);
  }

  /** Overwriting a placeholder that the appended pieces follow. */
  lemma Patched(before: seq<Option<bytes>>, items: seq<Option<bytes>>, length: bytes, b: bytes)
    requires Appended(before + [None], items, Ok(b), Ok(|b|))
    ensures Appended(before, items[|before| := Some(length)], Ok(length + b), Ok(|length| + |b|))
  {
    var tail := items[|before| + 1..];
    var patched := items[|before| := Some(length)];
    AppendedOne(before, length);
    assert items == before + [None] + tail;
    assert patched == before + [Some(length)] + tail;
    assert patched[|before| + 1..] == tail;
    AppendedThen(before, before + [Some(length)], patched, Ok(length), Ok(|length|), Ok(b), Ok(|b|));
  }

  // ---------- Encoders ----------

  method EncodeShortString(pieces: PieceList, value: Text) returns (r: Result<nat>)
    modifies pieces
    ensures Appended(old(pieces.items), pieces.items, EncodeShort(value), r)
  {
    var encodedValue := AsBytes(value);
    var length := |encodedValue|;
    if length > 255 {
      return Err(ShortStringTooLong);
    }
    pieces.Add([length]);
    pieces.Add(encodedValue);
    AppendedTwo(old(pieces.items), [length], encodedValue);
    return Ok(1 + length);
  }

  method EncodeTable(pieces: PieceList, table: seq<Entry>) returns (r: Result<nat>)
    modifies pieces
    ensures Appended(old(pieces.items), pieces.items, F.EncodeTable(table), r)
    decreases Table(table), 0
  {
    hide F.EncodeValue, EncodeShort;
    var lengthIndex := |pieces.items|;
    pieces.items := pieces.items + [None];  // placeholder
    ghost var start := pieces.items;
    ghost var done: Result<bytes> := Ok([]);
    var tableSize := 0;
    assert Appended(start, start, done, Ok(0));
    AppendAssociative(EncodeEntries(table), Ok([]), Ok([]));
    var i := 0;
    while i < |table|
      invariant i <= |table| && done.Ok?
      invariant Appended(start, pieces.items, done, Ok(tableSize))
      invariant EncodeEntries(table) == Append(done, EncodeEntries(table[i..]))
    {
      var key, value := table[i].key, table[i].value;
      ghost var p0, rest := pieces.items, EncodeEntries(table[i + 1..]);
      ghost var k, v := EncodeShort(key), F.EncodeValue(value);
      assert EncodeEntries(table[i..]) == Append(Append(k, v), rest) by {
        assert table[i..][1..] == table[i + 1..];
      }
      AppendAssociative(done, Append(k, v), rest);
      AppendAssociative(done, k, v);
      var keySize := EncodeShortString(pieces, key);
      if keySize.Err? {
        return keySize;
      }
      AppendedThen(start, p0, pieces.items, done, Ok(tableSize), k, keySize);
      ghost var p1 := pieces.items;
      var valueSize := EncodeValue(pieces, value);
      AppendedThen(start, p1, pieces.items, Append(done, k), Ok(tableSize + keySize.value), v, valueSize);
      if valueSize.Err? {
        return valueSize;
      }
      tableSize := tableSize + keySize.value + valueSize.value;
      done := Append(Append(done, k), v);
      i := i + 1;
    }
    AppendAssociative(done, Ok([]), Ok([]));
    var packed := PackUnsigned(tableSize, 4);
    if packed.Err? {
      return Err(packed.error);
    }
    Patched(old(pieces.items), pieces.items, packed.value, done.value);
    pieces.items := pieces.items[lengthIndex := Some(packed.value)];
    return Ok(tableSize + 4);
  }

  method EncodeValue(pieces: PieceList, value: Value) returns (r: Result<nat>)
    modifies pieces
    ensures Appended(old(pieces.items), pieces.items, F.EncodeValue(value), r)
    decreases value, 1
  {
    hide EncodeEntries, EncodeScalar, IsUtf8;
    match value {
      case Table(es) =>
        pieces.Add([KIND_TABLE]);
        AppendedOne(old(pieces.items), [KIND_TABLE]);
        ghost var p := pieces.items;
        var n := EncodeTable(pieces, es);
        AppendedThen(old(pieces.items), p, pieces.items, Ok([KIND_TABLE]), Ok(1), F.EncodeTable(es), n);
        return if n.Ok? then Ok(1 + n.value) else n;
      case List(vs) =>
        var piece := EncodeListPieces(vs);
        if piece.Err? {
          return Err(piece.error);
        }
        r := EncodeWithLength(pieces, KIND_LIST, piece.value);
      case Chars(s) =>
        ScalarSpec(value);
        r := EncodeWithLength(pieces, KIND_CHARS, s);
      case Binary(b) =>
        ScalarSpec(value);
        r := EncodeWithLength(pieces, KIND_BINARY, b);
      case _ =>
        // one struct.pack per kind
        var packed := EncodeScalar(value);
        if packed.Err? {
          return Err(packed.error);
        }
        pieces.Add(packed.value);
        AppendedOne(old(pieces.items), packed.value);
        return Ok(|packed.value|);
    }
  }

  lemma ScalarSpec(v: Value)
    requires v.Chars? || v.Binary?
    ensures EncodeScalar(v) == if v.Chars? then WithLength(KIND_CHARS, v.chars) else WithLength(KIND_BINARY, v.data)
  {
  }

  /** Appends the kind and length as one piece and the data as another. */
  method EncodeWithLength(pieces: PieceList, kind: byte, data: bytes) returns (r: Result<nat>)
    modifies pieces
    ensures Appended(old(pieces.items), pieces.items, WithLength(kind, data), r)
  {
    var n := PackUnsigned(|data|, 4);
    if n.Err? {
      return Err(n.error);
    }
    pieces.Add([kind] + n.value);
    pieces.Add(data);
    AppendedTwo(old(pieces.items), [kind] + n.value, data);
    return Ok(5 + |data|);
  }

  /** The pieces of a field array go to a list of their own, so that its length is known first. */
  method EncodeListPieces(vs: seq<Value>) returns (r: Result<bytes>)
    ensures r == EncodeList(vs)
    decreases List(vs), 0
  {
    hide F.EncodeValue;
    var listPieces := new PieceList();
    ghost var done: Result<bytes>, size := Ok([]), 0;
    AppendAssociative(EncodeList(vs), Ok([]), Ok([]));
    var i := 0;
    while i < |vs|
      invariant i <= |vs| && done.Ok?
      invariant Appended([], listPieces.items, done, Ok(size))
      invariant EncodeList(vs) == Append(done, EncodeList(vs[i..]))
    {
      ghost var p, v := listPieces.items, F.EncodeValue(vs[i]);
      assert vs[i..][1..] == vs[i + 1..];
      AppendAssociative(done, v, EncodeList(vs[i + 1..]));
      var n := EncodeValue(listPieces, vs[i]);
      AppendedThen([], p, listPieces.items, done, Ok(size), v, n);
      if n.Err? {
        return Err(n.error);
      }
      size := size + n.value;
      done := Append(done, v);
      i := i + 1;
    }
    AppendAssociative(done, Ok([]), Ok([]));
    assert listPieces.items[0..] == listPieces.items;
    var b := listPieces.Join();
    return Ok(b);
  }

  // ---------- Decoders ----------

  method DecodeTable(encoded: bytes, offset: nat) returns (r: Result<(seq<Entry>, nat)>)
    ensures r == F.DecodeTable(encoded, offset)
    decreases Left(encoded, offset), 1
  {
    hide DecodeScalar, Put;
    var result: seq<Entry> := [];
    var tableSize := UnpackUnsigned(encoded, offset, 4);
    if tableSize.Err? {
      return Err(tableSize.error);
    }
    var o := offset + 4;
    var limit := o + tableSize.value;
    while o < limit
      invariant o >= offset + 4
      invariant DecodeEntries(encoded, offset + 4, limit, []) == DecodeEntries(encoded, o, limit, result)
      decreases limit - o
    {
      var key := DecodeShort(encoded, o);
      if key.Err? {
        return Err(key.error);
      }
      var value := DecodeValue(encoded, key.value.1);
      if value.Err? {
        return Err(value.error);
      }
      result, o := Put(result, key.value.0, value.value.0), value.value.1;
    }
    return Ok((result, o));
  }

  method DecodeValue(encoded: bytes, offset: nat) returns (r: Result<(Value, nat)>)
    ensures r == F.DecodeValue(encoded, offset)
    decreases Left(encoded, offset), 0
  {
    hide DecodeScalar;
    var kind := Slice(encoded, offset, 1);
    if kind == [KIND_TABLE] {
      var t := DecodeTable(encoded, offset + 1);
      if t.Err? {
        return Err(t.error);
      }
      return Ok((Table(t.value.0), t.value.1));
    } else if kind == [KIND_LIST] {
      var length := UnpackUnsigned(encoded, offset + 1, 4);
      if length.Err? {
        return Err(length.error);
      }
      var o := offset + 5;
      var offsetEnd := o + length.value;
      var items: seq<Value> := [];
      while o < offsetEnd
        invariant o >= offset + 5
        invariant DecodeList(encoded, offset + 5, offsetEnd, []) == DecodeList(encoded, o, offsetEnd, items)
        decreases offsetEnd - o
      {
        var v := DecodeValue(encoded, o);
        if v.Err? {
          return Err(v.error);
        }
        items, o := items + [v.value.0], v.value.1;
      }
      return Ok((List(items), o));
    } else if kind == [] {
      return Err(InvalidFieldType);
    } else {
      return DecodeScalar(kind[0], encoded, offset + 1);
    }
  }
}

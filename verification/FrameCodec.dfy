/**
  spec.py and frame.py as they run: `encode` appends pieces and accumulates flags, `decode` advances an offset,
  `marshal` inserts the frame-specific prefix in front. The fourteen property blocks of `BasicProperties`, alike but
  for the field they name, are one loop over the property list.
 */
module FrameCodec {
  import opened Bytes
  import opened FieldTableCodec
  import opened Fields
  import opened Spec
  import opened Frame
  import F = Frame
  import S = Spec
  import W = WireFormat

  method EncodeField(pieces: PieceList, f: Field) returns (r: Result<nat>)
    modifies pieces
    ensures Appended(old(pieces.items), pieces.items, Fields.EncodeField(f), r)
  {
    match f {
      case TextField(t) => r := EncodeShortString(pieces, t);
      case TableField(es) => r := FieldTableCodec.EncodeTable(pieces, es);
      case UnsignedField(w, n) =>
        var b := PackUnsigned(n, w);
        if b.Err? {
          return Err(b.error);
        }
        pieces.Add(b.value);
        AppendedOne(old(pieces.items), b.value);
        return Ok(|b.value|);
    }
  }

  /** `encode` of a content method: its arguments in order. */
  method EncodeMethod(m: Method) returns (r: Result<PieceList>)
    requires WellFormed(m)
    ensures r.Ok? == S.EncodeMethod(m).Ok?
    ensures r.Ok? ==> fresh(r.value) && Joined(r.value.items) == Some(S.EncodeMethod(m).value)
    ensures r.Err? ==> r.error == S.EncodeMethod(m).error
  {
    var pieces := new PieceList();
    if m.Other? {
      pieces.Add(m.arguments);
      AppendedOne([], m.arguments);
      assert pieces.items == [] + [Some(m.arguments)];
      assert pieces.items[0..] == pieces.items;
      return Ok(pieces);
    }
    var fields := Present(Arguments(m));
    var done, size, failed := EncodeInOrder(pieces, fields);
    if failed.Some? {
      return Err(failed.value);
    }
    assert pieces.items[0..] == pieces.items;
    return Ok(pieces);
  }

  /** Encodes the fields that are set, one after the other, and accumulates the flag of each. */
  method EncodeInOrder(pieces: PieceList, fs: seq<Option<Field>>) returns (flags: nat, size: nat, failed: Option<Error>)
    modifies pieces
    ensures Appended(old(pieces.items), pieces.items, EncodeOptionals(fs),
                     if failed.Some? then Err(failed.value) else Ok(size))
    ensures |fs| <= 16 && failed.None? ==> flags == Word(Presence(fs)) * Pow2(16 - |fs|)
  {
    hide Fields.EncodeField, Word, Presence, Appended, Pow2;
    flags, size := 0, 0;
    AppendedNothing(pieces.items);
    ghost var done: Result<bytes> := Ok([]);
    AppendAssociative(EncodeOptionals(fs), Ok([]), Ok([]));
    NoFlags();
    var i := 0;
    while i < |fs|
      invariant i <= |fs| && done.Ok?
      invariant Appended(old(pieces.items), pieces.items, done, Ok(size))
      invariant EncodeOptionals(fs) == Append(done, EncodeOptionals(fs[i..]))
      invariant |fs| <= 16 ==> flags == Word(Presence(fs[..i])) * Pow2(16 - i)
    {
      assert fs[i..][1..] == fs[i + 1..];
      AppendAssociative(done, EncodeOptional(fs[i]), EncodeOptionals(fs[i + 1..]));
      if |fs| <= 16 {
        NextFlag(fs, i);
      }
      if fs[i].Some? {
        ghost var p := pieces.items;
        var n := EncodeField(pieces, fs[i].value);
        AppendedThen(old(pieces.items), p, pieces.items, done, Ok(size), EncodeOptional(fs[i]), n);
        if n.Err? {
          assert EncodeOptionals(fs) == Append(done, EncodeOptional(fs[i]));
          return flags, size, Some(n.error);
        }
        flags := flags + (if i < 16 then Pow2(15 - i) else 0);  // the flags differ, so `|` is `+`
        size := size + n.value;
      } else {
        AppendAssociative(done, Ok([]), Ok([]));
      }
      done := Append(done, EncodeOptional(fs[i]));
      i := i + 1;
    }
    AppendAssociative(done, Ok([]), Ok([]));
    assert fs[..i] == fs;
    return flags, size, None;
  }

  lemma NoFlags()
    ensures Word(Presence([])) == 0
  {
  }

  lemma NextFlag(fs: seq<Option<Field>>, i: nat)
    requires i < |fs| <= 16
    ensures Word(Presence(fs[..i + 1])) * Pow2(15 - i)
            == Word(Presence(fs[..i])) * Pow2(16 - i) + (if fs[i].Some? then Pow2(15 - i) else 0)
  {
    var bits := Presence(fs[..i + 1]);
    assert bits[..i] == Presence(fs[..i]) && bits[i] == fs[i].Some?;
    Distribute(Word(bits[..i]), if bits[i] then 1 else 0, Pow2(15 - i));
    assert Word(bits) == 2 * Word(bits[..i]) + if bits[i] then 1 else 0;
  }

  lemma Distribute(w: nat, b: nat, p: nat)
    ensures (2 * w + b) * p == w * (2 * p) + b * p
  {
  }

  lemma FlagsFromWord(fs: seq<Option<Field>>)
    requires |fs| == PROPERTY_COUNT
    ensures Word(Presence(fs)) * Pow2(2) == Flags(fs)
  {
    var bits := Presence(fs) + [false, false];
    assert bits[..15][..14] == Presence(fs) && bits[..15] == Presence(fs) + [false];
    assert Word(bits) == 2 * Word(bits[..15]);
    assert Word(bits[..15]) == 2 * Word(Presence(fs));
    assert Pow2(2) == 4;
  }

  lemma EncodeFlagsStep(done: bytes, flags: nat)
    ensures var remainder, partial := flags / 0x1_0000, flags % 0x1_0000 - flags % 2;
            done + EncodeFlags(flags) == if remainder == 0 then done + BigEndian(partial, 2)
                                         else done + BigEndian(partial + 1, 2) + EncodeFlags(remainder)
  {
    hide BigEndian;
    var remainder, partial := flags / 0x1_0000, flags % 0x1_0000 - flags % 2;
    if remainder != 0 {
      var word, rest := BigEndian(partial + 1, 2), EncodeFlags(remainder);
      assert EncodeFlags(flags) == word + rest;
      assert done + (word + rest) == done + word + rest;
    }
  }

  /** The flag-word loop of `BasicProperties.encode`. */
  method EncodeFlagWords(flags: nat) returns (flagPieces: bytes)
    ensures flagPieces == EncodeFlags(flags)
  {
    hide BigEndian, EncodeFlags;
    flagPieces := [];
    var left := flags;
    assert [] + EncodeFlags(flags) == EncodeFlags(flags);
    while true
      invariant flagPieces + EncodeFlags(left) == EncodeFlags(flags)
      decreases left
    {
      EncodeFlagsStep(flagPieces, left);
      var remainder := left / 0x1_0000;
      var partial := left % 0x1_0000 - left % 2;
      if remainder != 0 {
        partial := partial + 1;
      }
      flagPieces := flagPieces + BigEndian(partial, 2);
      left := remainder;
      if left == 0 {
        break;
      }
    }
  }

  method EncodeProperties(p: Properties) returns (r: Result<PieceList>)
    ensures r.Ok? == S.EncodeProperties(p).Ok?
    ensures r.Ok? ==> fresh(r.value) && Joined(r.value.items) == Some(S.EncodeProperties(p).value)
    ensures r.Err? ==> r.error == S.EncodeProperties(p).error
  {
    hide PropertyList, EncodeFlags, Flags, EncodeOptionals, Word, Presence;
    var pieces := new PieceList();
    var fs := PropertyList(p);
    var flags, size, failed := EncodeInOrder(pieces, fs);
    if failed.Some? {
      return Err(failed.value);
    }
    FlagsFromWord(fs);
    var flagPieces := EncodeFlagWords(flags);
    assert pieces.items[0..] == pieces.items;
    ghost var body := pieces.items;
    pieces.Prepend(flagPieces);
    AppendedOne([], flagPieces);
    assert [] + [Some(flagPieces)] == [Some(flagPieces)];
    JoinedConcat([Some(flagPieces)], body);
    assert [Some(flagPieces)][0..] == [Some(flagPieces)];
    return Ok(pieces);
  }

  /** `BasicProperties.decode`: the flag words, then each announced property. */
  method DecodeProperties(encoded: bytes, offset: nat) returns (r: Result<Properties>)
    ensures r == S.DecodeProperties(encoded, offset)
  {
    hide FromPropertyList;
    var flags := DecodeFlagWords(encoded, offset);
    if flags.Err? {
      return Err(flags.error);
    }
    var fs := DecodeAnnounced(PROPERTY_KINDS, Announced(flags.value.0), encoded, flags.value.1);
    if fs.Err? {
      return Err(fs.error);
    }
    return Ok(FromPropertyList(fs.value.0));
  }

  method DecodeFlagWords(encoded: bytes, offset: nat) returns (r: Result<(nat, nat)>)
    ensures r == DecodeFlags(encoded, offset, 0, 0)
  {
    hide FromBigEndian;
    var flags: nat, o: nat, index: nat := 0, offset, 0;
    while true
      invariant DecodeFlags(encoded, offset, 0, 0) == DecodeFlags(encoded, o, flags, index)
      decreases |encoded| - o
    {
      var partial := UnpackUnsigned(encoded, o, 2);
      if partial.Err? {
        return Err(partial.error);
      }
      o := o + 2;
      flags := flags + partial.value * Pow2(16 * index);
      if partial.value % 2 == 0 {
        return Ok((flags, o));
      }
      index := index + 1;
    }
  }

  method DecodeAnnounced(kinds: seq<Kind>, present: seq<bool>, encoded: bytes, offset: nat)
    returns (r: Result<(seq<Option<Field>>, nat)>)
    requires |kinds| == |present|
    ensures r == DecodeOptionals(kinds, present, encoded, offset)
  {
    hide DecodeField, Shaped, KindOf;
    var o := offset;
    var fs: seq<Option<Field>> := [];
    assert kinds[0..] == kinds && present[0..] == present;
    assert forall gs: seq<Option<Field>> :: [] + gs == gs;
    var i := 0;
    while i < |kinds|
      invariant i <= |kinds|
      invariant DecodeOptionals(kinds, present, encoded, offset)
                == Prefixed(fs, DecodeOptionals(kinds[i..], present[i..], encoded, o))
    {
      assert kinds[i..][1..] == kinds[i + 1..] && present[i..][1..] == present[i + 1..];
      if present[i] {
        var f := DecodeField(kinds[i], encoded, o);
        if f.Err? {
          return Err(f.error);
        }
        PrefixedStep(fs, Some(f.value.0), DecodeOptionals(kinds[i + 1..], present[i + 1..], encoded, f.value.1));
        fs, o := fs + [Some(f.value.0)], f.value.1;
      } else {
        PrefixedStep(fs, None, DecodeOptionals(kinds[i + 1..], present[i + 1..], encoded, o));
        fs := fs + [None];
      }
      i := i + 1;
    }
    assert fs + [] == fs;
    return Ok((fs, o));
  }

  function Prefixed(fs: seq<Option<Field>>, r: Result<(seq<Option<Field>>, nat)>): Result<(seq<Option<Field>>, nat)> {
    if r.Ok? then Ok((fs + r.value.0, r.value.1)) else r
  }

  lemma PrefixedStep(fs: seq<Option<Field>>, f: Option<Field>, r: Result<(seq<Option<Field>>, nat)>)
    ensures Prefixed(fs, Prefixed([f], r)) == Prefixed(fs + [f], r)
  {
    if r.Ok? {
      assert fs + ([f] + r.value.0) == fs + [f] + r.value.0;
    }
  }

  /** `marshal`. */
  method MarshalFrame(f: Frame) returns (r: Result<bytes>)
    requires FrameWellFormed(f)
    ensures r == F.Marshal(f)
    ensures W.FrameFits(f) ==> r == Ok(W.FrameWire(f))
    ensures !W.FrameFits(f) ==> r.Err?
  {
    hide W.FrameFits, W.FrameWire, F.Marshal, FrameWellFormed;
    W.MarshalsToWire(f);
    r := MarshalPieces(f);
  }

  /** The pieces of the payload, its prefix inserted in front, and the envelope around them. */
  method MarshalPieces(f: Frame) returns (r: Result<bytes>)
    requires FrameWellFormed(f)
    ensures r == F.Marshal(f)
  {
    hide S.EncodeMethod, S.EncodeProperties, Envelope, WellFormed, HeaderPrefix;
    match f {
      case MethodFrame(channel, m) =>
        var pieces := EncodeMethod(m);
        if pieces.Err? {
          return Err(pieces.error);
        }
        var id := PackUnsigned(Index(m), 4);
        if id.Err? {
          return Err(id.error);
        }
        var payload := JoinBehind(id.value, pieces.value);
        return Envelope(FRAME_METHOD, channel, payload);
      case HeaderFrame(channel, bodySize, p) =>
        var pieces := EncodeProperties(p);
        if pieces.Err? {
          return Err(pieces.error);
        }
        var prefix := HeaderPrefix(bodySize);
        if prefix.Err? {
          return Err(prefix.error);
        }
        var payload := JoinBehind(prefix.value, pieces.value);
        return Envelope(FRAME_HEADER, channel, payload);
      case BodyFrame(channel, fragment) => return Envelope(FRAME_BODY, channel, fragment);
      case Heartbeat => return Envelope(FRAME_HEARTBEAT, 0, []);
      case ProtocolHeader(_, _, _) => return F.Marshal(f);
    }
  }

  /** `pieces.insert(0, prefix)`, then join. */
  method JoinBehind(prefix: bytes, pieces: PieceList) returns (payload: bytes)
    requires Joined(pieces.items).Some?
    modifies pieces
    ensures payload == prefix + old(Joined(pieces.items).value)
  {
    ghost var body := pieces.items;
    pieces.Prepend(prefix);
    JoinedConcat([Some(prefix)], body);
    AppendedOne([], prefix);
    payload := pieces.Join();
  }
}

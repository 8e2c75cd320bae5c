/**
  The argument types of methods and properties, each written and read by one rule, and sequences of arguments
  some of which are missing.
 */
module Fields {
  import opened Bytes
  import opened FieldTable
  import opened FieldTableTheorems

  datatype Kind = TextKind | TableKind | UnsignedKind(width: nat)

  datatype Field =
    | TextField(text: Text)
    | TableField(entries: seq<Entry>)
    | UnsignedField(width: nat, n: int)

  function KindOf(f: Field): Kind {
    match f
    case TextField(_) => TextKind
    case TableField(_) => TableKind
    case UnsignedField(w, _) => UnsignedKind(w)
  }

  function EncodeField(f: Field): Result<bytes> {
    match f
    case TextField(t) => EncodeShort(t)
    case TableField(es) => EncodeTable(es)
    case UnsignedField(w, n) => PackUnsigned(n, w)
  }

  function DecodeField(kind: Kind, encoded: bytes, offset: nat): (r: Result<(Field, nat)>)
    ensures r.Ok? ==> KindOf(r.value.0) == kind
  {
    match kind
    case TextKind =>
      var (t, end) :- DecodeShort(encoded, offset);
      Ok((TextField(t), end))
    case TableKind =>
      var (es, end) :- DecodeTable(encoded, offset);
      Ok((TableField(es), end))
    case UnsignedKind(w) =>
      var n :- UnpackUnsigned(encoded, offset, w);
      Ok((UnsignedField(w, n), offset + w))
  }

  function NormalField(f: Field): (g: Field)
    ensures KindOf(g) == KindOf(f)
  {
    match f
    case TextField(t) => TextField(NormalKey(t))
    case TableField(es) => TableField(NormalEntries(es, []))
    case UnsignedField(_, _) => f
  }

  lemma FieldRoundTrip(f: Field, encoded: bytes, offset: nat)
    requires EncodeField(f).Ok? && Holds(encoded, offset, EncodeField(f).value)
    ensures DecodeField(KindOf(f), encoded, offset) == Ok((NormalField(f), offset + |EncodeField(f).value|))
  {
    hide EncodeShort, DecodeShort, EncodeTable, DecodeTable, NormalEntries, NormalKey, IsUtf8, BigEndian, FromBigEndian,
      PackUnsigned, UnpackUnsigned;
    match f
    case TextField(t) => ShortRoundTrip(t, encoded, offset);
    case TableField(es) => TableRoundTrip(es, encoded, offset);
    case UnsignedField(w, n) => UnpackPacked(encoded, offset, n, w);
  }

  // ---------- Optional fields in sequence ----------

  function EncodeOptional(f: Option<Field>): Result<bytes> {
    if f.Some? then EncodeField(f.value) else Ok([])
  }

  function EncodeOptionals(fs: seq<Option<Field>>): Result<bytes> {
    if fs == [] then Ok([]) else Append(EncodeOptional(fs[0]), EncodeOptionals(fs[1..]))
  }

  function DecodeOptionals(kinds: seq<Kind>, present: seq<bool>, encoded: bytes, offset: nat)
    : (r: Result<(seq<Option<Field>>, nat)>)
    requires |kinds| == |present|
    ensures r.Ok? ==> Shaped(kinds, present, r.value.0)
  {
    if kinds == [] then Ok(([], offset))
    else if present[0] then
      var (f, o) :- DecodeField(kinds[0], encoded, offset);
      var (fs, end) :- DecodeOptionals(kinds[1..], present[1..], encoded, o);
      Ok(([Some(f)] + fs, end))
    else
      var (fs, end) :- DecodeOptionals(kinds[1..], present[1..], encoded, offset);
      Ok(([None] + fs, end))
  }

  /** `fs` has a field exactly where `present` says so, of the kind listed there. */
  predicate Shaped(kinds: seq<Kind>, present: seq<bool>, fs: seq<Option<Field>>) {
    |fs| == |kinds| == |present|
    && forall i :: 0 <= i < |fs| ==> fs[i].Some? == present[i] && (fs[i].Some? ==> KindOf(fs[i].value) == kinds[i])
  }

  function NormalOptional(f: Option<Field>): Option<Field> {
    if f.Some? then Some(NormalField(f.value)) else None
  }

  function NormalOptionals(fs: seq<Option<Field>>): (gs: seq<Option<Field>>)
    ensures |gs| == |fs|
    ensures forall i :: 0 <= i < |fs| ==> gs[i] == NormalOptional(fs[i])
  {
    if fs == [] then [] else [NormalOptional(fs[0])] + NormalOptionals(fs[1..])
  }

  lemma {:induction false} OptionalsRoundTrip(kinds: seq<Kind>, present: seq<bool>, fs: seq<Option<Field>>,
                                              encoded: bytes, offset: nat)
    requires Shaped(kinds, present, fs)
    requires EncodeOptionals(fs).Ok? && Holds(encoded, offset, EncodeOptionals(fs).value)
    ensures DecodeOptionals(kinds, present, encoded, offset)
            == Ok((NormalOptionals(fs), offset + |EncodeOptionals(fs).value|))
  {
    hide EncodeField, DecodeField, NormalField;
    if fs != [] {
      var b := EncodeOptional(fs[0]).value;
      HoldsConcat(encoded, offset, b, EncodeOptionals(fs[1..]).value);
      if present[0] {
        FieldRoundTrip(fs[0].value, encoded, offset);
      }
      OptionalsRoundTrip(kinds[1..], present[1..], fs[1..], encoded, offset + |b|);
    }
  }
}

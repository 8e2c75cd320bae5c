/**
  Methods that carry content, and the content properties (spec.py): the fields of each in wire order, the flag
  words that announce the properties, and the round trips of both.
 */
module Spec {
  import opened Bytes
  import opened FieldTable
  import opened FieldTableTheorems
  import opened Fields

  const FRAME_METHOD := 1
  const FRAME_HEADER := 2
  const FRAME_BODY := 3
  const FRAME_HEARTBEAT := 8
  const FRAME_END: byte := 206
  const FRAME_HEADER_SIZE := 7
  const FRAME_END_SIZE := 1

  const PUBLISH := 0x003C0028
  const RETURN := 0x003C0032
  const DELIVER := 0x003C003C
  const GET_OK := 0x003C0047
  const BASIC := 0x003C

  /** The keys of the `methods` table. */
  predicate KnownMethod(id: nat) {
    id in {0x000A000A, 0x000A000B, 0x000A0014, 0x000A0015, 0x000A001E, 0x000A001F, 0x000A0028, 0x000A0029,
           0x000A0032, 0x000A0033, 0x000A003C, 0x000A003D, 0x000A0046, 0x000A0047}
    || id in {0x0014000A, 0x0014000B, 0x00140014, 0x00140015, 0x00140028, 0x00140029, 0x001E000A, 0x001E000B}
    || id in {0x0028000A, 0x0028000B, 0x00280014, 0x00280015, 0x0028001E, 0x0028001F, 0x00280028, 0x00280033}
    || id in {0x0032000A, 0x0032000B, 0x00320014, 0x00320015, 0x0032001E, 0x0032001F, 0x00320028, 0x00320029,
              0x00320032, 0x00320033}
    || id in {0x003C000A, 0x003C000B, 0x003C0014, 0x003C0015, 0x003C001E, 0x003C001F, 0x003C0046, 0x003C0048,
              0x003C0050, 0x003C005A, 0x003C0064, 0x003C006E, 0x003C006F, 0x003C0078}
    || id in {0x005A000A, 0x005A000B, 0x005A0014, 0x005A0015, 0x005A001E, 0x005A001F, 0x0055000A, 0x0055000B}
    || HasContent(id)
  }

  /** `spec.has_content`. */
  predicate HasContent(id: nat) {
    id == PUBLISH || id == RETURN || id == DELIVER || id == GET_OK
  }

  /** A method; one without content keeps its arguments as the bytes that encode them. */
  datatype Method =
    | Publish(ticket: int, exchange: Text, routingKey: Text, mandatory: bool, immediate: bool)
    | Return(replyCode: int, replyText: Text, exchange: Text, routingKey: Text)
    | Deliver(consumerTag: Text, deliveryTag: int, redelivered: bool, exchange: Text, routingKey: Text)
    | GetOk(deliveryTag: int, redelivered: bool, exchange: Text, routingKey: Text, messageCount: int)
    | Other(id: nat, arguments: bytes)

  function Index(m: Method): nat {
    match m
    case Publish(_, _, _, _, _) => PUBLISH
    case Return(_, _, _, _) => RETURN
    case Deliver(_, _, _, _, _) => DELIVER
    case GetOk(_, _, _, _, _) => GET_OK
    case Other(id, _) => id
  }

  predicate WellFormed(m: Method) {
    m.Other? ==> KnownMethod(m.id) && !HasContent(m.id)
  }

  // ---------- Method arguments ----------

  function BitOctet(low: bool, next: bool): Field {
    UnsignedField(1, (if low then 1 else 0) + (if next then 2 else 0))
  }

  /** The arguments of a content method in wire order. */
  function Arguments(m: Method): seq<Field>
    requires !m.Other?
  {
    match m
    case Publish(ticket, exchange, routingKey, mandatory, immediate) =>
      [UnsignedField(2, ticket), TextField(exchange), TextField(routingKey), BitOctet(mandatory, immediate)]
    case Return(replyCode, replyText, exchange, routingKey) =>
      [UnsignedField(2, replyCode), TextField(replyText), TextField(exchange), TextField(routingKey)]
    case Deliver(consumerTag, deliveryTag, redelivered, exchange, routingKey) =>
      [TextField(consumerTag), UnsignedField(8, deliveryTag), BitOctet(redelivered, false), TextField(exchange),
       TextField(routingKey)]
    case GetOk(deliveryTag, redelivered, exchange, routingKey, messageCount) =>
      [UnsignedField(8, deliveryTag), BitOctet(redelivered, false), TextField(exchange), TextField(routingKey),
       UnsignedField(4, messageCount)]
  }

  function ArgumentKinds(id: nat): seq<Kind>
    requires HasContent(id)
  {
    if id == PUBLISH then [UnsignedKind(2), TextKind, TextKind, UnsignedKind(1)]
    else if id == RETURN then [UnsignedKind(2), TextKind, TextKind, TextKind]
    else if id == DELIVER then [TextKind, UnsignedKind(8), UnsignedKind(1), TextKind, TextKind]
    else [UnsignedKind(8), UnsignedKind(1), TextKind, TextKind, UnsignedKind(4)]
  }

  predicate AllPresent(kinds: seq<Kind>, fs: seq<Option<Field>>) {
    Shaped(kinds, seq(|kinds|, i => true), fs)
  }

  /** The method object after its `decode` has assigned the fields read from the wire. */
  function FromArguments(id: nat, fs: seq<Option<Field>>): (m: Method)
    requires HasContent(id) && AllPresent(ArgumentKinds(id), fs)
    ensures Index(m) == id
  {
    assert forall i :: 0 <= i < |fs| ==> fs[i].Some? && KindOf(fs[i].value) == ArgumentKinds(id)[i];
    if id == PUBLISH then
      Publish(fs[0].value.n, fs[1].value.text, fs[2].value.text, Low(fs[3].value.n), Next(fs[3].value.n))
    else if id == RETURN then
      Return(fs[0].value.n, fs[1].value.text, fs[2].value.text, fs[3].value.text)
    else if id == DELIVER then
      Deliver(fs[0].value.text, fs[1].value.n, Low(fs[2].value.n), fs[3].value.text, fs[4].value.text)
    else
      GetOk(fs[0].value.n, Low(fs[1].value.n), fs[2].value.text, fs[3].value.text, fs[4].value.n)
  }

  predicate Low(octet: int) { octet % 2 == 1 }
  predicate Next(octet: int) { octet / 2 % 2 == 1 }

  function Present(fs: seq<Field>): (gs: seq<Option<Field>>)
    ensures |gs| == |fs| && forall i :: 0 <= i < |fs| ==> gs[i] == Some(fs[i])
  {
    seq(|fs|, i requires 0 <= i < |fs| => Some(fs[i]))
  }

  function EncodeMethod(m: Method): Result<bytes> {
    if m.Other? then Ok(m.arguments) else EncodeOptionals(Present(Arguments(m)))
  }

  /** `spec.methods[id]().decode(encoded, offset)`. */
  function DecodeMethod(id: nat, encoded: bytes, offset: nat): (r: Result<Method>)
    ensures r.Ok? ==> Index(r.value) == id && WellFormed(r.value)
  {
    if !KnownMethod(id) then Err(KeyError)
    else if !HasContent(id) then Ok(Other(id, if offset <= |encoded| then encoded[offset..] else []))
    else
      var kinds := ArgumentKinds(id);
      var (fs, _) :- DecodeOptionals(kinds, seq(|kinds|, i => true), encoded, offset);
      Ok(FromArguments(id, fs))
  }

  function NormalMethod(m: Method): Method {
    match m
    case Publish(ticket, exchange, routingKey, mandatory, immediate) =>
      Publish(ticket, NormalKey(exchange), NormalKey(routingKey), mandatory, immediate)
    case Return(replyCode, replyText, exchange, routingKey) =>
      Return(replyCode, NormalKey(replyText), NormalKey(exchange), NormalKey(routingKey))
    case Deliver(consumerTag, deliveryTag, redelivered, exchange, routingKey) =>
      Deliver(NormalKey(consumerTag), deliveryTag, redelivered, NormalKey(exchange), NormalKey(routingKey))
    case GetOk(deliveryTag, redelivered, exchange, routingKey, messageCount) =>
      GetOk(deliveryTag, redelivered, NormalKey(exchange), NormalKey(routingKey), messageCount)
    case Other(_, _) => m
  }

  lemma ArgumentsShaped(m: Method)
    requires !m.Other?
    ensures AllPresent(ArgumentKinds(Index(m)), Present(Arguments(m)))
    ensures AllPresent(ArgumentKinds(Index(m)), NormalOptionals(Present(Arguments(m))))
  {
    hide NormalField;
    var kinds, fs := ArgumentKinds(Index(m)), Arguments(m);
    assert forall i :: 0 <= i < |fs| ==> KindOf(fs[i]) == kinds[i];
    forall i | 0 <= i < |fs|
      ensures KindOf(NormalField(fs[i])) == kinds[i]
    {
    }
  }

  lemma FromNormalArguments(m: Method)
    requires !m.Other?
    ensures AllPresent(ArgumentKinds(Index(m)), NormalOptionals(Present(Arguments(m))))
    ensures FromArguments(Index(m), NormalOptionals(Present(Arguments(m)))) == NormalMethod(m)
  {
    hide NormalKey;
    ArgumentsShaped(m);
    var gs := NormalOptionals(Present(Arguments(m)));
    assert forall i :: 0 <= i < |gs| ==> gs[i] == Some(NormalField(Arguments(m)[i]));
  }

  /** A method is decoded from its encoding, wherever that ends the payload. */
  lemma MethodRoundTrip(m: Method, encoded: bytes, offset: nat)
    requires WellFormed(m) && EncodeMethod(m).Ok?
    requires offset <= |encoded| && encoded[offset..] == EncodeMethod(m).value
    ensures DecodeMethod(Index(m), encoded, offset) == Ok(NormalMethod(m))
  {
    hide FromArguments, Arguments, NormalMethod, KnownMethod;
    if m.Other? {
      assert NormalMethod(m) == m by { NormalOther(m); }
    } else {
      var kinds := ArgumentKinds(Index(m));
      ArgumentsShaped(m);
      KnownContent(Index(m));
      OptionalsRoundTrip(kinds, seq(|kinds|, i => true), Present(Arguments(m)), encoded, offset);
      FromNormalArguments(m);
    }
  }

  lemma NormalOther(m: Method)
    requires m.Other?
    ensures NormalMethod(m) == m
  {
  }

  lemma KnownContent(id: nat)
    requires HasContent(id)
    ensures KnownMethod(id)
  {
  }

  // ---------- Content properties ----------

  /** `BasicProperties`; a property that is not set is `None`. */
  datatype Properties = Properties(
    contentType: Option<Text>, contentEncoding: Option<Text>, headers: Option<seq<Entry>>,
    deliveryMode: Option<int>, priority: Option<int>, correlationId: Option<Text>, replyTo: Option<Text>,
    expiration: Option<Text>, messageId: Option<Text>, timestamp: Option<int>, typeName: Option<Text>,
    userId: Option<Text>, appId: Option<Text>, clusterId: Option<Text>)

  const PROPERTY_COUNT := 14

  const PROPERTY_KINDS: seq<Kind> :=
    [TextKind, TextKind, TableKind, UnsignedKind(1), UnsignedKind(1), TextKind, TextKind,
     TextKind, TextKind, UnsignedKind(8), TextKind, TextKind, TextKind, TextKind]

  function TextProperty(t: Option<Text>): Option<Field> {
    if t.Some? then Some(TextField(t.value)) else None
  }

  function UnsignedProperty(w: nat, n: Option<int>): Option<Field> {
    if n.Some? then Some(UnsignedField(w, n.value)) else None
  }

  /** The properties in flag order: property `i` has flag bit `15 - i`. */
  function PropertyList(p: Properties): (fs: seq<Option<Field>>)
    ensures |fs| == PROPERTY_COUNT
    ensures Shaped(PROPERTY_KINDS, Presence(fs), fs)
  {
    [TextProperty(p.contentType), TextProperty(p.contentEncoding),
     if p.headers.Some? then Some(TableField(p.headers.value)) else None,
     UnsignedProperty(1, p.deliveryMode), UnsignedProperty(1, p.priority),
     TextProperty(p.correlationId), TextProperty(p.replyTo), TextProperty(p.expiration), TextProperty(p.messageId),
     UnsignedProperty(8, p.timestamp), TextProperty(p.typeName), TextProperty(p.userId), TextProperty(p.appId),
     TextProperty(p.clusterId)]
  }

  function Presence(fs: seq<Option<Field>>): (bits: seq<bool>)
    ensures |bits| == |fs|
  {
    seq(|fs|, i requires 0 <= i < |fs| => fs[i].Some?)
  }

  function AsText(f: Option<Field>): Option<Text> {
    if f.Some? && f.value.TextField? then Some(f.value.text) else None
  }

  function AsUnsigned(f: Option<Field>): Option<int> {
    if f.Some? && f.value.UnsignedField? then Some(f.value.n) else None
  }

  function AsTable(f: Option<Field>): Option<seq<Entry>> {
    if f.Some? && f.value.TableField? then Some(f.value.entries) else None
  }

  function FromPropertyList(fs: seq<Option<Field>>): Properties
    requires |fs| == PROPERTY_COUNT
  {
    Properties(AsText(fs[0]), AsText(fs[1]), AsTable(fs[2]), AsUnsigned(fs[3]), AsUnsigned(fs[4]), AsText(fs[5]),
               AsText(fs[6]), AsText(fs[7]), AsText(fs[8]), AsUnsigned(fs[9]), AsText(fs[10]), AsText(fs[11]),
               AsText(fs[12]), AsText(fs[13]))
  }

  // ---------- Flag words ----------

  /** The number whose binary digits are `bits`, most significant first. */
  function Word(bits: seq<bool>): (n: nat)
    ensures n < Pow2(|bits|)
  {
    if bits == [] then 0 else 2 * Word(bits[..|bits| - 1]) + (if bits[|bits| - 1] then 1 else 0)
  }

  lemma {:induction false} WordBit(bits: seq<bool>, i: nat)
    requires i < |bits|
    ensures Bit(Word(bits), |bits| - 1 - i) == bits[i]
  {
    if i < |bits| - 1 {
      WordBit(bits[..|bits| - 1], i);
      assert Word(bits) / 2 == Word(bits[..|bits| - 1]);
    }
  }

  /** The property flags: the low two bits of the first word are unused. */
  function Flags(fs: seq<Option<Field>>): nat {
    Word(Presence(fs) + [false, false])
  }

  /** Flag words of 15 flags each; the low bit of a word says that another follows. */
  function EncodeFlags(flags: nat): bytes
    decreases flags
  {
    var remainder := flags / 0x1_0000;
    var partial := flags % 0x1_0000 - flags % 2;
    if remainder == 0 then BigEndian(partial, 2) else BigEndian(partial + 1, 2) + EncodeFlags(remainder)
  }

  /** The loop of `BasicProperties.decode` over flag words; the words do not overlap, so `|` is `+`. */
  function DecodeFlags(encoded: bytes, offset: nat, flags: nat, index: nat): Result<(nat, nat)>
    decreases |encoded| - offset
  {
    var partial :- UnpackUnsigned(encoded, offset, 2);
    var all := flags + partial * Pow2(16 * index);
    if partial % 2 == 0 then Ok((all, offset + 2)) else DecodeFlags(encoded, offset + 2, all, index + 1)
  }

  function EncodeProperties(p: Properties): Result<bytes> {
    Append(Ok(EncodeFlags(Flags(PropertyList(p)))), EncodeOptionals(PropertyList(p)))
  }

  /** Which of the 14 properties the flags announce. */
  function Announced(flags: nat): (bits: seq<bool>)
    ensures |bits| == PROPERTY_COUNT
  {
    seq(PROPERTY_COUNT, i requires 0 <= i < PROPERTY_COUNT => Bit(flags, 15 - i))
  }

  function DecodeProperties(encoded: bytes, offset: nat): Result<Properties> {
    var (flags, o) :- DecodeFlags(encoded, offset, 0, 0);
    var (fs, _) :- DecodeOptionals(PROPERTY_KINDS, Announced(flags), encoded, o);
    Ok(FromPropertyList(fs))
  }

  function NormalText(t: Option<Text>): Option<Text> {
    if t.Some? then Some(NormalKey(t.value)) else None
  }

  function NormalProperties(p: Properties): Properties {
    p.(contentType := NormalText(p.contentType), contentEncoding := NormalText(p.contentEncoding),
       headers := (if p.headers.Some? then Some(NormalEntries(p.headers.value, [])) else None),
       correlationId := NormalText(p.correlationId), replyTo := NormalText(p.replyTo),
       expiration := NormalText(p.expiration), messageId := NormalText(p.messageId),
       typeName := NormalText(p.typeName), userId := NormalText(p.userId), appId := NormalText(p.appId),
       clusterId := NormalText(p.clusterId))
  }

  lemma FromNormalProperties(p: Properties)
    ensures FromPropertyList(NormalOptionals(PropertyList(p))) == NormalProperties(p)
  {
    hide NormalKey, NormalEntries, NormalOptionals;
    var fs, gs := PropertyList(p), NormalOptionals(PropertyList(p));
    assert forall i :: 0 <= i < 14 ==> gs[i] == NormalOptional(fs[i]);
  }

  lemma AnnouncedFlags(fs: seq<Option<Field>>)
    requires |fs| == PROPERTY_COUNT
    ensures Announced(Flags(fs)) == Presence(fs)
  {
    var bits := Presence(fs) + [false, false];
    forall i | 0 <= i < PROPERTY_COUNT
      ensures Announced(Flags(fs))[i] == Presence(fs)[i]
    {
      WordBit(bits, i);
    }
  }

  lemma OneFlagWord(fs: seq<Option<Field>>)
    requires |fs| == PROPERTY_COUNT
    ensures Flags(fs) < 0x1_0000 && Flags(fs) % 2 == 0
    ensures EncodeFlags(Flags(fs)) == BigEndian(Flags(fs), 2)
  {
    var bits := Presence(fs) + [false, false];
    assert Pow2(8) == 256;
    assert Pow2(12) == 4096;
    assert Pow2(16) == 0x1_0000;
    assert Word(bits) == 2 * Word(bits[..15]);
  }

  /** One flag word suffices for 14 properties, and it announces exactly those that are set. */
  lemma FlagsRoundTrip(fs: seq<Option<Field>>, encoded: bytes, offset: nat)
    requires |fs| == PROPERTY_COUNT && Holds(encoded, offset, EncodeFlags(Flags(fs)))
    ensures |EncodeFlags(Flags(fs))| == 2
    ensures DecodeFlags(encoded, offset, 0, 0) == Ok((Flags(fs), offset + 2))
    ensures Announced(Flags(fs)) == Presence(fs)
  {
    hide Word, Flags, Announced, BigEndian, FromBigEndian;
    OneFlagWord(fs);
    AnnouncedFlags(fs);
    assert Pow256(2) == 0x1_0000;
    UnpackPacked(encoded, offset, Flags(fs), 2);
    assert Pow2(16 * 0) == 1;
  }

  /** The properties come back, normalised, for every combination of the 14 that is set. */
  lemma PropertiesRoundTrip(p: Properties, encoded: bytes, offset: nat)
    requires EncodeProperties(p).Ok? && Holds(encoded, offset, EncodeProperties(p).value)
    ensures DecodeProperties(encoded, offset) == Ok(NormalProperties(p))
  {
    hide EncodeFlags, DecodeFlags, Flags, Announced, NormalProperties, FromPropertyList, PropertyList, PROPERTY_KINDS;
    var fs := PropertyList(p);
    HoldsConcat(encoded, offset, EncodeFlags(Flags(fs)), EncodeOptionals(fs).value);
    FlagsRoundTrip(fs, encoded, offset);
    OptionalsRoundTrip(PROPERTY_KINDS, Presence(fs), fs, encoded, offset + 2);
    FromNormalProperties(p);
  }
}

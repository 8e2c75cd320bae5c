/** Frames on the wire, octet by octet. */
module WireFormat {
  import opened Bytes
  import opened FieldTable
  import opened FieldTableTheorems
  import opened Fields
  import opened Spec
  import opened Frame
  import opened FieldWire

  // ---------- Methods ----------

  predicate Fits(n: int, limit: nat) { 0 <= n < limit }

  predicate ShortFits(t: Text) { |AsBytes(t)| <= 255 }

  predicate ArgumentsFit(m: Method) {
    match m
    case Publish(ticket, exchange, routingKey, _, _) =>
      Fits(ticket, 0x1_0000) && ShortFits(exchange) && ShortFits(routingKey)
    case Return(replyCode, replyText, exchange, routingKey) =>
      Fits(replyCode, 0x1_0000) && ShortFits(replyText) && ShortFits(exchange) && ShortFits(routingKey)
    case Deliver(consumerTag, deliveryTag, _, exchange, routingKey) =>
      Fits(deliveryTag, 0x1_0000_0000_0000_0000) && ShortFits(consumerTag) && ShortFits(exchange)
      && ShortFits(routingKey)
    case GetOk(deliveryTag, _, exchange, routingKey, messageCount) =>
      Fits(deliveryTag, 0x1_0000_0000_0000_0000) && Fits(messageCount, 0x1_0000_0000) && ShortFits(exchange)
      && ShortFits(routingKey)
    case Other(_, _) => true
  }

  /** The arguments of a content method, in order. */
  function ArgumentParts(m: Method): seq<bytes>
    requires ArgumentsFit(m) && !m.Other?
  {
    match m
    case Publish(ticket, exchange, routingKey, mandatory, immediate) =>
      [Two(ticket), ShortWire(exchange), ShortWire(routingKey),
       [(if mandatory then 1 else 0) + if immediate then 2 else 0]]
    case Return(replyCode, replyText, exchange, routingKey) =>
      [Two(replyCode), ShortWire(replyText), ShortWire(exchange), ShortWire(routingKey)]
    case Deliver(consumerTag, deliveryTag, redelivered, exchange, routingKey) =>
      [ShortWire(consumerTag), Eight(deliveryTag), [if redelivered then 1 else 0], ShortWire(exchange),
       ShortWire(routingKey)]
    case GetOk(deliveryTag, redelivered, exchange, routingKey, messageCount) =>
      [Eight(deliveryTag), [if redelivered then 1 else 0], ShortWire(exchange), ShortWire(routingKey),
       Four(messageCount)]
  }

  /** Class, method and arguments. */
  function MethodWire(m: Method): bytes
    requires ArgumentsFit(m)
  {
    match m
    case Publish(_, _, _, _, _) => [0, 60, 0, 40] + Concat(ArgumentParts(m))
    case Return(_, _, _, _) => [0, 60, 0, 50] + Concat(ArgumentParts(m))
    case Deliver(_, _, _, _, _) => [0, 60, 0, 60] + Concat(ArgumentParts(m))
    case GetOk(_, _, _, _, _) => [0, 60, 0, 71] + Concat(ArgumentParts(m))
    case Other(id, arguments) => Four(id) + arguments
  }

  lemma ShortEncodes(t: Text)
    ensures EncodeShort(t) == if ShortFits(t) then Ok(ShortWire(t)) else Err(ShortStringTooLong)
  {
  }

  lemma {:induction false} OptionalsEncode(fs: seq<Option<Field>>, parts: seq<bytes>)
    requires |fs| == |parts| && forall i :: 0 <= i < |fs| ==> EncodeOptional(fs[i]) == Ok(parts[i])
    ensures EncodeOptionals(fs) == Ok(Concat(parts))
  {
    hide EncodeOptional;
    if fs != [] {
      OptionalsEncode(fs[1..], parts[1..]);
    }
  }

  lemma {:induction false} OptionalsEncodeOnlyIf(fs: seq<Option<Field>>, i: nat)
    requires EncodeOptionals(fs).Ok? && i < |fs|
    ensures EncodeOptional(fs[i]).Ok?
  {
    hide EncodeOptional;
    if i > 0 {
      OptionalsEncodeOnlyIf(fs[1..], i - 1);
    }
  }

  lemma ArgumentEncodes(m: Method, i: nat)
    requires !m.Other? && ArgumentsFit(m) && i < |Arguments(m)|
    ensures |ArgumentParts(m)| == |Arguments(m)|
    ensures EncodeOptional(Present(Arguments(m))[i]) == Ok(ArgumentParts(m)[i])
  {
    hide EncodeShort, ShortWire, PackUnsigned, Two, Four, Eight, ShortFits;
    var f := Arguments(m)[i];
    if f.TextField? {
      ShortEncodes(f.text);
    } else if f.UnsignedField? {
      Packed(f.n);
    }
  }

  lemma ArgumentsEncode(m: Method)
    requires !m.Other?
    ensures EncodeMethod(m).Ok? <==> ArgumentsFit(m)
    ensures ArgumentsFit(m) ==> EncodeMethod(m) == Ok(Concat(ArgumentParts(m)))
  {
    if EncodeMethod(m).Ok? {
      ArgumentsFitIfEncoded(m);
    }
    hide EncodeOptional, ArgumentParts, Arguments;
    if ArgumentsFit(m) {
      var fs, parts := Present(Arguments(m)), ArgumentParts(m);
      forall i | 0 <= i < |fs|
        ensures |parts| == |fs| && EncodeOptional(fs[i]) == Ok(parts[i])
      {
        ArgumentEncodes(m, i);
      }
      assert |parts| == |fs| by { PartsAsMany(m); }
      OptionalsEncode(fs, parts);
    }
  }

  lemma PartsAsMany(m: Method)
    requires !m.Other? && ArgumentsFit(m)
    ensures |ArgumentParts(m)| == |Arguments(m)|
  {
  }

  lemma ArgumentsFitIfEncoded(m: Method)
    requires !m.Other? && EncodeMethod(m).Ok?
    ensures ArgumentsFit(m)
  {
    var fs := Arguments(m);
    forall i | 0 <= i < |fs|
      ensures EncodeField(fs[i]).Ok?
    {
      OptionalsEncodeOnlyIf(Present(fs), i);
    }
    hide EncodeField;
    forall f | f in fs
      ensures f.TextField? ==> ShortFits(f.text)
      ensures f.UnsignedField? && f.width == 2 ==> Fits(f.n, 0x1_0000)
      ensures f.UnsignedField? && f.width == 4 ==> Fits(f.n, 0x1_0000_0000)
      ensures f.UnsignedField? && f.width == 8 ==> Fits(f.n, 0x1_0000_0000_0000_0000)
    {
      FieldFitsIfEncoded(f);
    }
    hide ShortFits, Fits;
    assert forall i :: 0 <= i < |fs| ==> fs[i] in fs;
    match m
    case Publish(_, _, _, _, _) => assert fs[0] in fs && fs[1] in fs && fs[2] in fs;
    case Return(_, _, _, _) => assert fs[0] in fs && fs[1] in fs && fs[2] in fs && fs[3] in fs;
    case Deliver(_, _, _, _, _) => assert fs[0] in fs && fs[1] in fs && fs[3] in fs && fs[4] in fs;
    case GetOk(_, _, _, _, _) => assert fs[0] in fs && fs[2] in fs && fs[3] in fs && fs[4] in fs;
  }

  lemma FieldFitsIfEncoded(f: Field)
    requires EncodeField(f).Ok?
    ensures f.TextField? ==> ShortFits(f.text)
    ensures f.UnsignedField? && f.width == 1 ==> Fits(f.n, 0x100)
    ensures f.UnsignedField? && f.width == 2 ==> Fits(f.n, 0x1_0000)
    ensures f.UnsignedField? && f.width == 4 ==> Fits(f.n, 0x1_0000_0000)
    ensures f.UnsignedField? && f.width == 8 ==> Fits(f.n, 0x1_0000_0000_0000_0000)
    ensures f.TableField? ==> InRangeEntries(f.entries) && SizeEntries(f.entries) < 0x1_0000_0000
  {
    match f
    case TextField(t) => ShortEncodes(t);
    case UnsignedField(w, n) => Packed(n);
    case TableField(es) =>
      EntriesEncodeExactlyInRange(es);
      Widths();
  }

  lemma MethodEncodes(m: Method)
    requires WellFormed(m)
    ensures EncodeMethod(m).Ok? <==> ArgumentsFit(m)
    ensures ArgumentsFit(m) ==> PackUnsigned(Index(m), 4).Ok?
    ensures ArgumentsFit(m) ==> PackUnsigned(Index(m), 4).value + EncodeMethod(m).value == MethodWire(m)
  {
    hide PackUnsigned, ArgumentParts, ArgumentsFit, KnownMethod, Concat, Four, EncodeMethod;
    if m.Other? {
      OtherEncodes(m);
      KnownFits(m.id);
      Packed(m.id);
    } else {
      ArgumentsEncode(m);
      Packed(Index(m));
      ClassAndMethod();
    }
  }

  lemma ClassAndMethod()
    ensures Four(PUBLISH) == [0, 60, 0, 40] && Four(RETURN) == [0, 60, 0, 50]
    ensures Four(DELIVER) == [0, 60, 0, 60] && Four(GET_OK) == [0, 60, 0, 71]
  {
  }

  lemma OtherEncodes(m: Method)
    requires m.Other?
    ensures EncodeMethod(m) == Ok(m.arguments) && ArgumentsFit(m)
  {
  }

  lemma KnownFits(id: nat)
    requires KnownMethod(id)
    ensures id < 0x1_0000_0000
  {
  }

  // ---------- Properties ----------

  predicate ShortOptionalFits(t: Option<Text>) { t.Some? ==> ShortFits(t.value) }

  predicate OptionalFits(n: Option<int>, limit: nat) { n.Some? ==> Fits(n.value, limit) }

  predicate HeadersFit(headers: Option<seq<Entry>>) {
    headers.Some? ==> InRangeEntries(headers.value) && SizeEntries(headers.value) < 0x1_0000_0000
  }

  predicate PropertiesFit(p: Properties) {
    ShortOptionalFits(p.contentType) && ShortOptionalFits(p.contentEncoding) && HeadersFit(p.headers)
    && OptionalFits(p.deliveryMode, 0x100) && OptionalFits(p.priority, 0x100)
    && ShortOptionalFits(p.correlationId) && ShortOptionalFits(p.replyTo) && ShortOptionalFits(p.expiration)
    && ShortOptionalFits(p.messageId) && OptionalFits(p.timestamp, 0x1_0000_0000_0000_0000)
    && ShortOptionalFits(p.typeName) && ShortOptionalFits(p.userId) && ShortOptionalFits(p.appId)
    && ShortOptionalFits(p.clusterId)
  }

  /** A hexadecimal digit, from its bits. */
  function Digit(a: bool, b: bool, c: bool, d: bool): nat {
    (if a then 8 else 0) + (if b then 4 else 0) + (if c then 2 else 0) + (if d then 1 else 0)
  }

  /** The flags of the properties, digit by digit; the last two are not used. */
  function PropertyFlags(p: Properties): nat {
    0x1000 * Digit(p.contentType.Some?, p.contentEncoding.Some?, p.headers.Some?, p.deliveryMode.Some?)
    + 0x100 * Digit(p.priority.Some?, p.correlationId.Some?, p.replyTo.Some?, p.expiration.Some?)
    + 0x10 * Digit(p.messageId.Some?, p.timestamp.Some?, p.typeName.Some?, p.userId.Some?)
    + Digit(p.appId.Some?, p.clusterId.Some?, false, false)
  }

  function ShortOptional(t: Option<Text>): bytes
    requires ShortOptionalFits(t)
  {
    if t.Some? then ShortWire(t.value) else []
  }

  function OctetOptional(n: Option<int>): bytes
    requires OptionalFits(n, 0x100)
  {
    if n.Some? then [n.value] else []
  }

  function EightOptional(n: Option<int>): bytes
    requires OptionalFits(n, 0x1_0000_0000_0000_0000)
  {
    if n.Some? then Eight(n.value) else []
  }

  function HeadersOptional(headers: Option<seq<Entry>>): bytes
    requires HeadersFit(headers)
  {
    if headers.Some? then TableWire(headers.value) else []
  }

  /** The properties that are set, in the order of their flags. */
  function PropertyParts(p: Properties): seq<bytes>
    requires PropertiesFit(p)
  {
    [ShortOptional(p.contentType), ShortOptional(p.contentEncoding), HeadersOptional(p.headers),
     OctetOptional(p.deliveryMode), OctetOptional(p.priority), ShortOptional(p.correlationId),
     ShortOptional(p.replyTo), ShortOptional(p.expiration), ShortOptional(p.messageId), EightOptional(p.timestamp),
     ShortOptional(p.typeName), ShortOptional(p.userId), ShortOptional(p.appId), ShortOptional(p.clusterId)]
  }

  function PropertiesWire(p: Properties): bytes
    requires PropertiesFit(p)
  {
    Two(PropertyFlags(p)) + Concat(PropertyParts(p))
  }

  lemma TextPropertyEncodes(t: Option<Text>)
    ensures EncodeOptional(TextProperty(t)).Ok? <==> ShortOptionalFits(t)
    ensures ShortOptionalFits(t) ==> EncodeOptional(TextProperty(t)) == Ok(ShortOptional(t))
  {
    hide EncodeShort, ShortWire, ShortFits;
    if t.Some? {
      ShortEncodes(t.value);
    }
  }

  lemma UnsignedPropertyEncodes(n: Option<int>)
    ensures EncodeOptional(UnsignedProperty(1, n)).Ok? <==> OptionalFits(n, 0x100)
    ensures OptionalFits(n, 0x100) ==> EncodeOptional(UnsignedProperty(1, n)) == Ok(OctetOptional(n))
    ensures EncodeOptional(UnsignedProperty(8, n)).Ok? <==> OptionalFits(n, 0x1_0000_0000_0000_0000)
    ensures OptionalFits(n, 0x1_0000_0000_0000_0000) ==> EncodeOptional(UnsignedProperty(8, n)) == Ok(EightOptional(n))
  {
    hide PackUnsigned, Eight;
    if n.Some? {
      Packed(n.value);
    }
  }

  function TableProperty(headers: Option<seq<Entry>>): Option<Field> {
    if headers.Some? then Some(TableField(headers.value)) else None
  }

  lemma TablePropertyEncodes(headers: Option<seq<Entry>>)
    ensures EncodeOptional(TableProperty(headers)).Ok? <==> HeadersFit(headers)
    ensures HeadersFit(headers) ==> EncodeOptional(TableProperty(headers)) == Ok(HeadersOptional(headers))
  {
    hide EncodeTable, TableWire, PackUnsigned;
    if headers.Some? {
      if EncodeOptional(TableProperty(headers)).Ok? {
        FieldFitsIfEncoded(TableField(headers.value));
      }
      if HeadersFit(headers) {
        TableEncodesToWire(headers.value);
      }
    }
  }

  lemma PropertiesEncode(p: Properties)
    ensures EncodeOptionals(PropertyList(p)).Ok? <==> PropertiesFit(p)
    ensures PropertiesFit(p) ==> EncodeOptionals(PropertyList(p)) == Ok(Concat(PropertyParts(p)))
  {
    TextPropertyEncodes(p.contentType);
    TextPropertyEncodes(p.contentEncoding);
    TablePropertyEncodes(p.headers);
    UnsignedPropertyEncodes(p.deliveryMode);
    UnsignedPropertyEncodes(p.priority);
    TextPropertyEncodes(p.correlationId);
    TextPropertyEncodes(p.replyTo);
    TextPropertyEncodes(p.expiration);
    TextPropertyEncodes(p.messageId);
    UnsignedPropertyEncodes(p.timestamp);
    TextPropertyEncodes(p.typeName);
    TextPropertyEncodes(p.userId);
    TextPropertyEncodes(p.appId);
    TextPropertyEncodes(p.clusterId);
    hide EncodeOptional, TextProperty, UnsignedProperty, ShortOptional, OctetOptional, EightOptional, HeadersOptional,
      ShortOptionalFits, OptionalFits, HeadersFit, Concat, EncodeOptionals;
    var fs := PropertyList(p);
    assert fs[2] == TableProperty(p.headers);
    if PropertiesFit(p) {
      OptionalsEncode(fs, PropertyParts(p));
    }
    if EncodeOptionals(fs).Ok? {
      forall i | 0 <= i < |fs|
        ensures EncodeOptional(fs[i]).Ok?
      {
        OptionalsEncodeOnlyIf(fs, i);
      }
      assert EncodeOptional(fs[0]).Ok? && EncodeOptional(fs[1]).Ok? && EncodeOptional(fs[2]).Ok?;
      assert EncodeOptional(fs[3]).Ok? && EncodeOptional(fs[4]).Ok? && EncodeOptional(fs[5]).Ok?;
      assert EncodeOptional(fs[6]).Ok? && EncodeOptional(fs[7]).Ok? && EncodeOptional(fs[8]).Ok?;
      assert EncodeOptional(fs[9]).Ok? && EncodeOptional(fs[10]).Ok? && EncodeOptional(fs[11]).Ok?;
      assert EncodeOptional(fs[12]).Ok? && EncodeOptional(fs[13]).Ok?;
    }
  }

  lemma WordPrefix(bits: seq<bool>, k: nat)
    requires k < |bits|
    ensures Word(bits[..k + 1]) == 2 * Word(bits[..k]) + if bits[k] then 1 else 0
  {
    assert bits[..k + 1][..k] == bits[..k];
  }

  lemma WordDigit(bits: seq<bool>, i: nat, j: nat)
    requires j == i + 4 <= |bits|
    ensures Word(bits[..j]) == 16 * Word(bits[..i]) + Digit(bits[i], bits[i + 1], bits[i + 2], bits[i + 3])
  {
    var a, b, c := i + 1, i + 2, i + 3;
    WordPrefix(bits, i);
    WordPrefix(bits, a);
    WordPrefix(bits, b);
    WordPrefix(bits, c);
    hide Word;
  }

  lemma FourDigits(bits: seq<bool>)
    requires |bits| == 16
    ensures Word(bits)
            == 0x1000 * Digit(bits[0], bits[1], bits[2], bits[3]) + 0x100 * Digit(bits[4], bits[5], bits[6], bits[7])
              + 0x10 * Digit(bits[8], bits[9], bits[10], bits[11]) + Digit(bits[12], bits[13], bits[14], bits[15])
  {
    hide Word, Digit;
    NoBits();
    WordDigit(bits, 0, 4);
    WordDigit(bits, 4, 8);
    WordDigit(bits, 8, 12);
    WordDigit(bits, 12, 16);
    assert bits[..16] == bits && bits[..0] == [];
  }

  lemma PresenceAt(fs: seq<Option<Field>>, i: nat)
    requires i < |fs|
    ensures (Presence(fs) + [false, false])[i] == fs[i].Some?
  {
  }

  lemma TextsSet(p: Properties, bits: seq<bool>)
    requires bits == Presence(PropertyList(p)) + [false, false]
    ensures |bits| == 16 && !bits[14] && !bits[15]
    ensures bits[0] == p.contentType.Some? && bits[1] == p.contentEncoding.Some? && bits[5] == p.correlationId.Some?
    ensures bits[6] == p.replyTo.Some? && bits[7] == p.expiration.Some? && bits[8] == p.messageId.Some?
    ensures bits[10] == p.typeName.Some? && bits[11] == p.userId.Some?
    ensures bits[12] == p.appId.Some? && bits[13] == p.clusterId.Some?
  {
    hide Presence, PROPERTY_KINDS, Shaped, UnsignedProperty;
    var fs := PropertyList(p);
    PresenceAt(fs, 0);
    PresenceAt(fs, 1);
    PresenceAt(fs, 5);
    PresenceAt(fs, 6);
    PresenceAt(fs, 7);
    PresenceAt(fs, 8);
    PresenceAt(fs, 10);
    PresenceAt(fs, 11);
    PresenceAt(fs, 12);
    PresenceAt(fs, 13);
  }

  lemma OthersSet(p: Properties, bits: seq<bool>)
    requires bits == Presence(PropertyList(p)) + [false, false]
    ensures |bits| == 16 && bits[2] == p.headers.Some? && bits[3] == p.deliveryMode.Some?
    ensures bits[4] == p.priority.Some? && bits[9] == p.timestamp.Some?
  {
    hide Presence, PROPERTY_KINDS, Shaped, TextProperty;
    var fs := PropertyList(p);
    PresenceAt(fs, 2);
    PresenceAt(fs, 3);
    PresenceAt(fs, 4);
    PresenceAt(fs, 9);
  }

  lemma FlagsAre(p: Properties)
    ensures Flags(PropertyList(p)) == PropertyFlags(p)
  {
    hide Word, Digit, Presence, PropertyList;
    var bits := Presence(PropertyList(p)) + [false, false];
    TextsSet(p, bits);
    OthersSet(p, bits);
    FourDigits(bits);
  }

  lemma NoBits()
    ensures Word([]) == 0
  {
  }

  lemma PropertiesEncodeToWire(p: Properties)
    ensures EncodeProperties(p).Ok? <==> PropertiesFit(p)
    ensures PropertiesFit(p) ==> EncodeProperties(p) == Ok(PropertiesWire(p))
  {
    hide PropertiesFit, EncodeOptionals, Flags, EncodeFlags, Concat, PropertyParts, PropertyFlags, Two, PropertyList;
    PropertiesEncode(p);
    FlagsAre(p);
    OneFlagWord(PropertyList(p));
    OctetsTwo(PropertyFlags(p));
  }

  // ---------- Frames ----------

  predicate EnclosureFits(channel: int, payload: bytes) {
    Fits(channel, 0x1_0000) && |payload| < 0x1_0000_0000
  }

  /** A frame: its type, its channel, the length of the payload, the payload and the end octet. */
  function Enclosed(frameType: byte, channel: int, payload: bytes): bytes
    requires EnclosureFits(channel, payload)
  {
    [frameType] + Two(channel) + Four(|payload|) + payload + [206]
  }

  /** Class, weight, size of the body, and the properties. */
  function HeaderWire(bodySize: int, p: Properties): bytes
    requires Fits(bodySize, 0x1_0000_0000_0000_0000) && PropertiesFit(p)
  {
    [0, 60, 0, 0] + Eight(bodySize) + PropertiesWire(p)
  }

  predicate FrameFits(f: Frame) {
    match f
    case MethodFrame(channel, m) => ArgumentsFit(m) && EnclosureFits(channel, MethodWire(m))
    case HeaderFrame(channel, bodySize, p) =>
      Fits(bodySize, 0x1_0000_0000_0000_0000) && PropertiesFit(p) && EnclosureFits(channel, HeaderWire(bodySize, p))
    case BodyFrame(channel, fragment) => EnclosureFits(channel, fragment)
    case Heartbeat => true
    case ProtocolHeader(major, minor, revision) => Fits(major, 0x100) && Fits(minor, 0x100) && Fits(revision, 0x100)
  }

  function FrameWire(f: Frame): bytes
    requires FrameFits(f)
  {
    match f
    case MethodFrame(channel, m) => Enclosed(1, channel, MethodWire(m))
    case HeaderFrame(channel, bodySize, p) => Enclosed(2, channel, HeaderWire(bodySize, p))
    case BodyFrame(channel, fragment) => Enclosed(3, channel, fragment)
    case Heartbeat => [8, 0, 0, 0, 0, 0, 0, 206]
    case ProtocolHeader(major, minor, revision) =>
      [Letter('A'), Letter('M'), Letter('Q'), Letter('P'), 0, major, minor, revision]
  }

  lemma EnvelopeEncloses(frameType: byte, channel: int, payload: bytes)
    ensures Envelope(frameType, channel, payload).Ok? <==> EnclosureFits(channel, payload)
    ensures EnclosureFits(channel, payload) ==>
              Envelope(frameType, channel, payload) == Ok(Enclosed(frameType, channel, payload))
  {
    hide PackUnsigned, Two, Four;
    Packed(channel);
    Packed(|payload|);
  }

  lemma HeaderEncodes(bodySize: int, p: Properties)
    ensures HeaderPrefix(bodySize).Ok? && EncodeProperties(p).Ok?
            <==> Fits(bodySize, 0x1_0000_0000_0000_0000) && PropertiesFit(p)
    ensures Fits(bodySize, 0x1_0000_0000_0000_0000) && PropertiesFit(p) ==>
              HeaderPrefix(bodySize).value + EncodeProperties(p).value == HeaderWire(bodySize, p)
  {
    hide PackUnsigned, EncodeProperties, PropertiesFit, PropertiesWire, Eight, BigEndian;
    PropertiesEncodeToWire(p);
    Packed(bodySize);
    OctetsTwo(BASIC);
  }

  /** A frame that can be sent goes out in this form, and no other can be sent. */
  lemma MarshalsToWire(f: Frame)
    requires FrameWellFormed(f)
    ensures Marshal(f).Ok? <==> FrameFits(f)
    ensures FrameFits(f) ==> Marshal(f) == Ok(FrameWire(f))
  {
    hide Envelope, Enclosed, EnclosureFits, MethodWire, HeaderWire, EncodeMethod, EncodeProperties, HeaderPrefix,
      PackUnsigned, ArgumentsFit, PropertiesFit, WellFormed;
    match f
    case MethodFrame(channel, m) =>
      MethodEncodes(m);
      if ArgumentsFit(m) { EnvelopeEncloses(1, channel, MethodWire(m)); }
    case HeaderFrame(channel, bodySize, p) =>
      HeaderEncodes(bodySize, p);
      if Fits(bodySize, 0x1_0000_0000_0000_0000) && PropertiesFit(p) {
        EnvelopeEncloses(2, channel, HeaderWire(bodySize, p));
      }
    case BodyFrame(channel, fragment) => EnvelopeEncloses(3, channel, fragment);
    case Heartbeat =>
      EnvelopeEncloses(8, 0, []);
      HeartbeatWire();
    case ProtocolHeader(major, minor, revision) =>
      if FrameFits(f) {
        assert AMQP + [0, major, minor, revision] == FrameWire(f);
      }
  }

  lemma HeartbeatWire()
    ensures EnclosureFits(0, []) && Enclosed(8, 0, []) == [8, 0, 0, 0, 0, 0, 0, 206]
  {
  }

  /** The wire form of a frame is decoded whatever follows it. */
  lemma FrameDecodes(f: Frame, rest: bytes)
    requires FrameWellFormed(f) && FrameFits(f)
    ensures DecodeFrame(FrameWire(f) + rest) == Ok((|FrameWire(f)|, Some(NormalFrame(f))))
    ensures f.BodyFrame? || f.Heartbeat? ==> NormalFrame(f) == f
  {
    hide DecodeFrame, FrameWire, Marshal, FrameFits, FrameWellFormed;
    MarshalsToWire(f);
    FrameRoundTrip(f, rest);
  }

  /** What `decode_frame` makes of a whole frame of any type and with any end octet. */
  lemma EnclosedDecodes(frameType: byte, channel: nat, payload: bytes, end: byte, rest: bytes)
    requires EnclosureFits(channel, payload) && frameType != 0x41
    ensures var r := DecodeFrame([frameType] + Two(channel) + Four(|payload|) + payload + [end] + rest);
            (end != 206 ==> r == Err(InvalidFrame))
            && (end == 206 && frameType !in {1, 2, 3, 8} ==> r == Err(InvalidFrame))
            && (end == 206 && frameType == 3 ==> r == Ok((|payload| + 8, Some(BodyFrame(channel, payload)))))
            && (end == 206 && frameType == 8 ==> r == Ok((|payload| + 8, Some(Heartbeat))))
  {
    hide DecodePayload, UnpackUnsigned, FromBigEndian, PackUnsigned, Two, Four;
    var data := [frameType] + Two(channel) + Four(|payload|) + payload + [end] + rest;
    assert data[1..3] == Two(channel) && data[3..7] == Four(|payload|);
    assert data[7..7 + |payload|] == payload;
    Packed(channel);
    Packed(|payload|);
    UnpackPacked(data, 1, channel, 2);
    UnpackPacked(data, 3, |payload|, 4);
    assert data[7 + |payload|] == end && data[0] == frameType;
    OtherTypes(frameType, channel, payload);
  }

  lemma OtherTypes(frameType: byte, channel: nat, payload: bytes)
    ensures frameType !in {1, 2, 3, 8} ==> DecodePayload(frameType, channel, payload) == Err(InvalidFrame)
    ensures frameType == 3 ==> DecodePayload(frameType, channel, payload) == Ok(BodyFrame(channel, payload))
    ensures frameType == 8 ==> DecodePayload(frameType, channel, payload) == Ok(Heartbeat)
  {
  }

  /** A protocol header, whole or not; a zero minor version or revision is taken for the default. */
  lemma ProtocolHeaderDecodes(major: byte, minor: byte, revision: byte, rest: bytes, k: nat)
    ensures DecodeFrame([Letter('A'), Letter('M'), Letter('Q'), Letter('P'), 0, major, minor, revision] + rest)
            == Ok((8, Some(ProtocolHeader(major, if minor == 0 then 9 else minor,
                                          if revision == 0 then 1 else revision))))
    ensures k < 8 ==>
              DecodeFrame([Letter('A'), Letter('M'), Letter('Q'), Letter('P'), 0, major, minor, revision][..k])
              == Ok((0, None))
  {
    var header := [Letter('A'), Letter('M'), Letter('Q'), Letter('P'), 0, major, minor, revision];
    assert AMQP <= header + rest;
    if 4 <= k < 8 {
      assert AMQP <= header[..k];
    }
  }

  // ---------- Payloads ----------

  /** Class and method of every method that is known, as they are numbered in the standard and its extensions. */
  predicate Known(class_: nat, method_: nat) {
    match class_
    case 10 => method_ in {10, 11, 20, 21, 30, 31, 40, 41, 50, 51, 60, 61, 70, 71}
    case 20 => method_ in {10, 11, 20, 21, 40, 41}
    case 30 => method_ in {10, 11}
    case 40 => method_ in {10, 11, 20, 21, 30, 31, 40, 51}
    case 50 => method_ in {10, 11, 20, 21, 30, 31, 40, 41, 50, 51}
    case 60 => method_ in {10, 11, 20, 21, 30, 31, 40, 50, 60, 70, 71, 72, 80, 90, 100, 110, 111, 120}
    case 85 => method_ in {10, 11}
    case 90 => method_ in {10, 11, 20, 21, 30, 31}
    case _ => false
  }

  lemma KnownMethodsAre(class_: nat, method_: nat)
    requires method_ < 0x1_0000
    ensures KnownMethod(0x1_0000 * class_ + method_) <==> Known(class_, method_)
  {
  }

  /**
    What `decode_frame` makes of the payload of a method frame: an unknown method raises, and so does a short
    payload.
   */
  lemma MethodPayloadDecodes(channel: nat, class_: nat, method_: nat, arguments: bytes, short: bytes)
    requires class_ < 0x1_0000 && method_ < 0x1_0000
    ensures |short| < 4 ==> DecodePayload(1, channel, short) == Err(StructError)
    ensures var r := DecodePayload(1, channel, Two(class_) + Two(method_) + arguments);
            (!Known(class_, method_) ==> r == Err(KeyError))
            && (Known(class_, method_) && !(class_ == 60 && method_ in {40, 50, 60, 71}) ==>
                  r == Ok(MethodFrame(channel, Other(0x1_0000 * class_ + method_, arguments))))
  {
    hide Known, KnownMethod, FromBigEndian, PackUnsigned, UnpackUnsigned, Two, Four, DecodeOptionals;
    var id := 0x1_0000 * class_ + method_;
    var payload := Two(class_) + Two(method_) + arguments;
    KnownMethodsAre(class_, method_);
    Packed(id);
    Halves(class_, method_);
    ContentMethods(class_, method_);
    assert payload[0..4] == Four(id);
    UnpackPacked(payload, 0, id, 4);
    assert payload[4..] == arguments;
    if |short| < 4 {
      TooShort(short, 4);
    }
  }

  lemma Halves(high: nat, low: nat)
    requires high < 0x1_0000 && low < 0x1_0000
    ensures Four(0x1_0000 * high + low) == Two(high) + Two(low)
  {
    var n := 0x1_0000 * high + low;
    assert n / 0x1_0000 == high && n / 0x100_0000 == high / 0x100;
    assert n / 0x100 == 0x100 * high + low / 0x100;
  }

  lemma ContentMethods(class_: nat, method_: nat)
    requires method_ < 0x1_0000
    ensures HasContent(0x1_0000 * class_ + method_) <==> class_ == 60 && method_ in {40, 50, 60, 71}
  {
  }

  lemma TooShort(short: bytes, w: nat)
    requires |short| < w
    ensures UnpackUnsigned(short, 0, w) == Err(StructError)
  {
  }

  /** And of a header frame: the class must be 60, the weight may be anything. */
  lemma HeaderPayloadDecodes(channel: nat, class_: nat, weight: bytes, bodySize: nat, p: Properties, short: bytes)
    requires class_ < 0x1_0000 && |weight| == 2 && bodySize < 0x1_0000_0000_0000_0000 && PropertiesFit(p)
    ensures |short| < 12 ==> DecodePayload(2, channel, short) == Err(StructError)
    ensures DecodePayload(2, channel, Two(class_) + weight + Eight(bodySize) + PropertiesWire(p))
            == if class_ == 60 then Ok(HeaderFrame(channel, bodySize, NormalProperties(p))) else Err(KeyError)
  {
    hide FromBigEndian, PackUnsigned, UnpackUnsigned, EncodeProperties, DecodeProperties, NormalProperties,
      PropertiesFit, PropertiesWire, Two, Eight;
    var payload := Two(class_) + weight + Eight(bodySize) + PropertiesWire(p);
    Packed(class_);
    Packed(bodySize);
    assert payload[0..2] == Two(class_) && payload[4..12] == Eight(bodySize) && payload[12..] == PropertiesWire(p);
    UnpackPacked(payload, 0, class_, 2);
    UnpackPacked(payload, 4, bodySize, 8);
    PropertiesEncodeToWire(p);
    PropertiesRoundTrip(p, payload[12..], 0);
  }

  // ---------- Flag words ----------

  /** An odd flag word is continued by the next, whose flags are sixteen bits higher; the properties follow. */
  lemma FlagWordsContinue(first: nat, second: nat, encoded: bytes, offset: nat)
    requires first < 0x1_0000 && first % 2 == 1 && second < 0x1_0000 && second % 2 == 0
    requires Holds(encoded, offset, Two(first) + Two(second))
    ensures DecodeFlags(encoded, offset, 0, 0) == Ok((first + 0x1_0000 * second, offset + 4))
  {
    hide FromBigEndian, PackUnsigned, UnpackUnsigned, Two, Pow2;
    HoldsConcat(encoded, offset, Two(first), Two(second));
    Packed(first);
    Packed(second);
    UnpackPacked(encoded, offset, first, 2);
    UnpackPacked(encoded, offset + 2, second, 2);
    PowersOfWord();
    assert first + second * 0x1_0000 == first + 0x1_0000 * second;
  }

  lemma PowersOfWord()
    ensures Pow2(16 * 0) == 1 && Pow2(16 * 1) == 0x1_0000
  {
    assert Pow2(8) == 0x100;
    assert Pow2(12) == 0x1000;
  }

  /** More than sixteen bits of flags go out in two words, of which the first says so. */
  lemma FlagWordsGoOut(first: nat, second: nat)
    requires first < 0x1_0000 && 0 < second < 0x1_0000 && first % 2 == 0 && second % 2 == 0
    ensures EncodeFlags(first + 0x1_0000 * second) == Two(first + 1) + Two(second)
  {
    hide BigEndian, Two, EncodeFlags;
    var flags := first + 0x1_0000 * second;
    LowWord(first, second);
    OctetsTwo(first + 1);
    OctetsTwo(second);
    TwoWords(flags, first, second);
    OneWord(second);
  }

  lemma LowWord(low: nat, high: nat)
    requires low < 0x1_0000 && low % 2 == 0
    ensures (low + 0x1_0000 * high) / 0x1_0000 == high && (low + 0x1_0000 * high) % 0x1_0000 == low
    ensures (low + 0x1_0000 * high) % 2 == 0
  {
  }

  lemma TwoWords(flags: nat, low: nat, high: nat)
    requires flags / 0x1_0000 == high && flags % 0x1_0000 == low && flags % 2 == 0 && high != 0
    ensures EncodeFlags(flags) == BigEndian(low + 1, 2) + EncodeFlags(high)
  {
    hide BigEndian;
  }

  lemma OneWord(flags: nat)
    requires flags < 0x1_0000 && flags % 2 == 0
    ensures EncodeFlags(flags) == BigEndian(flags, 2)
  {
    hide BigEndian;
  }
}

/** What comes back as it was sent. */
module Canonical {
  import opened Bytes
  import opened FieldTable
  import opened FieldTableTheorems
  import opened Spec
  import opened Frame
  import opened FieldWire
  import opened WireFormat
  import opened Assembler
  import opened Publisher
  import opened Stream
  import opened EndToEnd

  // ---------- Values ----------

  /** Bytes that are text are given as text. */
  predicate CanonicalText(t: Text) { t.Raw? ==> !IsUtf8(t.raw) }

  /**
    Integers of 32 bits or marked as long, decimals without trailing zeros, and tables in which no key is given
    twice.
   */
  predicate CanonicalValue(v: Value)
    decreases v, 0
  {
    match v
    case Int(n) => -0x8000_0000 <= n < 0x8000_0000
    case Decimal(c, e) => e == 0 || (e < 0 && c % 10 != 0)
    case Table(es) => CanonicalEntries(es)
    case List(vs) => CanonicalList(vs)
    case _ => true
  }

  predicate CanonicalEntry(e: Entry)
    decreases e, 0
  {
    CanonicalText(e.key) && CanonicalValue(e.value)
  }

  predicate CanonicalEntries(es: seq<Entry>)
    decreases es, 0
  {
    es == [] || (CanonicalEntry(es[0]) && CanonicalEntries(es[1..]) && !HasKey(es[1..], es[0].key))
  }

  predicate CanonicalList(vs: seq<Value>)
    decreases vs, 0
  {
    vs == [] || (CanonicalValue(vs[0]) && CanonicalList(vs[1..]))
  }

  predicate HasKey(es: seq<Entry>, key: Text) {
    exists e :: e in es && e.key == key
  }

  lemma TextComesBack(t: Text)
    requires CanonicalText(t)
    ensures NormalKey(t) == t
  {
  }

  lemma DecimalComesBack(c: int, e: int)
    requires e == 0 || (e < 0 && c % 10 != 0)
    ensures DecimalParts(c, e) == (-e, c)
  {
    NormalizeExactly(c, e);
    var (m, f) := Normalize(c, e);
    if e == 0 && c == 0 {
      assert Pow10(0) == 1;
    }
  }

  lemma {:induction false} PutNew(es: seq<Entry>, key: Text, value: Value)
    requires !HasKey(es, key)
    ensures Put(es, key, value) == es + [Entry(key, value)]
  {
    if es != [] {
      assert es[0] in es;
      assert forall e :: e in es[1..] ==> e in es;
      PutNew(es[1..], key, value);
    }
  }

  /** A key that is given again takes the new value in its old place. */
  lemma {:induction false} PutAgain(es: seq<Entry>, i: nat, value: Value)
    requires i < |es| && forall j :: 0 <= j < i ==> es[j].key != es[i].key
    ensures Put(es, es[i].key, value) == es[i := Entry(es[i].key, value)]
  {
    if i > 0 {
      PutAgain(es[1..], i - 1, value);
      assert es == [es[0]] + es[1..];
    }
  }

  lemma {:induction false} ValueComesBack(v: Value)
    requires CanonicalValue(v)
    ensures Normal(v) == v
    decreases v, 0
  {
    match v
    case Decimal(c, e) => DecimalComesBack(c, e);
    case Table(es) =>
      EntriesComeBack(es, []);
      assert [] + es == es;
    case List(vs) => ListComesBack(vs);
    case _ =>
  }

  lemma {:induction false} EntryComesBack(e: Entry)
    requires CanonicalEntry(e)
    ensures NormalEntry(e) == e
    decreases e, 0
  {
    TextComesBack(e.key);
    ValueComesBack(e.value);
  }

  lemma {:induction false} EntriesComeBack(es: seq<Entry>, acc: seq<Entry>)
    requires CanonicalEntries(es) && forall e :: e in es ==> !HasKey(acc, e.key)
    ensures NormalEntries(es, acc) == acc + es
    decreases es, 0
  {
    if es == [] {
      assert acc + es == acc;
    } else {
      var e, rest := es[0], es[1..];
      assert es == [e] + rest;
      EntryComesBack(e);
      PutNew(acc, e.key, e.value);
      KeysStayNew(e, rest, acc);
      EntriesComeBack(rest, acc + [e]);
      ConcatAssociative(acc, [e], rest);
    }
  }

  lemma KeysStayNew(e: Entry, rest: seq<Entry>, acc: seq<Entry>)
    requires !HasKey(rest, e.key) && forall f :: f in rest ==> !HasKey(acc, f.key)
    ensures forall f :: f in rest ==> !HasKey(acc + [e], f.key)
  {
  }

  lemma {:induction false} ListComesBack(vs: seq<Value>)
    requires CanonicalList(vs)
    ensures NormalList(vs) == vs
    decreases vs, 0
  {
    if vs != [] {
      ValueComesBack(vs[0]);
      ListComesBack(vs[1..]);
    }
  }

  // ---------- Methods, properties and frames ----------

  predicate CanonicalMethod(m: Method) {
    match m
    case Publish(_, exchange, routingKey, _, _) => CanonicalText(exchange) && CanonicalText(routingKey)
    case Return(_, replyText, exchange, routingKey) =>
      CanonicalText(replyText) && CanonicalText(exchange) && CanonicalText(routingKey)
    case Deliver(consumerTag, _, _, exchange, routingKey) =>
      CanonicalText(consumerTag) && CanonicalText(exchange) && CanonicalText(routingKey)
    case GetOk(_, _, exchange, routingKey, _) => CanonicalText(exchange) && CanonicalText(routingKey)
    case Other(_, _) => true
  }

  predicate CanonicalOptional(t: Option<Text>) { t.Some? ==> CanonicalText(t.value) }

  predicate CanonicalProperties(p: Properties) {
    CanonicalOptional(p.contentType) && CanonicalOptional(p.contentEncoding) && CanonicalOptional(p.correlationId)
    && CanonicalOptional(p.replyTo) && CanonicalOptional(p.expiration) && CanonicalOptional(p.messageId)
    && CanonicalOptional(p.typeName) && CanonicalOptional(p.userId) && CanonicalOptional(p.appId)
    && CanonicalOptional(p.clusterId) && (p.headers.Some? ==> CanonicalEntries(p.headers.value))
  }

  predicate CanonicalFrame(f: Frame) {
    match f
    case MethodFrame(_, m) => CanonicalMethod(m)
    case HeaderFrame(_, _, p) => CanonicalProperties(p)
    case ProtocolHeader(_, minor, revision) => minor != 0 && revision != 0
    case _ => true
  }

  lemma TextsComeBack()
    ensures forall t :: CanonicalText(t) ==> NormalKey(t) == t
    ensures forall t :: CanonicalOptional(t) ==> NormalText(t) == t
  {
    hide NormalKey, CanonicalText;
    forall t | CanonicalText(t)
      ensures NormalKey(t) == t
    {
      TextComesBack(t);
    }
  }

  lemma MethodComesBack(m: Method)
    requires CanonicalMethod(m)
    ensures NormalMethod(m) == m
  {
    hide NormalKey, CanonicalText;
    TextsComeBack();
  }

  lemma PropertiesComeBack(p: Properties)
    requires CanonicalProperties(p)
    ensures NormalProperties(p) == p
  {
    hide NormalKey, NormalText, CanonicalText, CanonicalOptional, NormalEntries, CanonicalEntries;
    TextsComeBack();
    if p.headers.Some? {
      EntriesComeBack(p.headers.value, []) by { NoKeys(p.headers.value); }
      assert [] + p.headers.value == p.headers.value;
    }
  }

  lemma NoKeys(es: seq<Entry>)
    ensures forall e :: e in es ==> !HasKey([], e.key)
  {
  }

  lemma FrameComesBack(f: Frame)
    requires CanonicalFrame(f)
    ensures NormalFrame(f) == f
  {
    hide NormalMethod, NormalProperties, CanonicalMethod, CanonicalProperties;
    match f
    case MethodFrame(_, m) => MethodComesBack(m);
    case HeaderFrame(_, _, p) => PropertiesComeBack(p);
    case _ =>
  }

  /** The octets of a frame are decoded to that very frame. */
  lemma CanonicalFrameDecodes(f: Frame, rest: bytes)
    requires FrameWellFormed(f) && FrameFits(f) && CanonicalFrame(f)
    ensures DecodeFrame(FrameWire(f) + rest) == Ok((|FrameWire(f)|, Some(f)))
  {
    hide DecodeFrame, FrameWire, NormalFrame, FrameFits, FrameWellFormed, CanonicalFrame;
    FrameDecodes(f, rest);
    FrameComesBack(f);
  }

  /** The octets of a value are decoded to that very value. */
  lemma CanonicalValueDecodes(v: Value, encoded: bytes, offset: nat)
    requires InRange(v) && CanonicalValue(v) && Holds(encoded, offset, ValueWire(v))
    ensures DecodeValue(encoded, offset) == Ok((v, offset + |ValueWire(v)|))
  {
    hide DecodeValue, ValueWire, Normal, CanonicalValue;
    DecodesFromWire(v, encoded, offset);
    ValueComesBack(v);
  }

  // ---------- Delivery ----------

  predicate CanonicalMessage(m: Message) {
    CanonicalMethod(m.command) && CanonicalProperties(m.properties)
  }

  /** What the receiver is to see of the messages of a channel. */
  function AsSent(channel: int, ms: seq<Message>): (contents: seq<Content>)
    ensures |contents| == |ms|
    ensures forall i :: 0 <= i < |ms| ==>
              contents[i] == Content(Some(MethodFrame(channel, ms[i].command)),
                                     HeaderFrame(channel, |ms[i].body|, ms[i].properties), ms[i].body)
  {
    if ms == [] then []
    else [Content(Some(MethodFrame(channel, ms[0].command)),
                  HeaderFrame(channel, |ms[0].body|, ms[0].properties), ms[0].body)] + AsSent(channel, ms[1..])
  }

  lemma {:induction false} YieldedAsSent(channel: int, ms: seq<Message>)
    requires forall m :: m in ms ==> CanonicalMessage(m)
    ensures Yields(channel, ms) == AsSent(channel, ms)
  {
    hide CanonicalMethod, CanonicalProperties, NormalFrame;
    if ms != [] {
      assert ms == [ms[0]] + ms[1..];
      assert CanonicalMessage(ms[0]);
      FrameComesBack(MethodFrame(channel, ms[0].command));
      FrameComesBack(HeaderFrame(channel, |ms[0].body|, ms[0].properties));
      YieldedAsSent(channel, ms[1..]);
    }
  }

  /**
    Delivery on a tuned connection, seen from both ends: whatever the interleaving and the cuts, each channel yields
    the methods, the properties and the bodies that were sent on it, as they were, in order and once each.
   */
  lemma DeliveredAsSent(sent: map<int, seq<Message>>, client: int, server: nat, fs: seq<Frame>, chunks: seq<bytes>,
                        listening: nat -> Keys)
    requires Accepted(client) && Tune(client, server).Ok?
    requires forall c :: c in sent ==>
               c > 0 && OnChannel(fs, c, listening, 0) == AllFrames(c, sent[c], TunedLimit(client, server))
    requires forall c, m :: c in sent && m in sent[c] ==> HasContent(Index(m.command)) && CanonicalMessage(m)
    requires forall f :: f in fs ==> FrameWellFormed(f)
    requires MarshalAll(fs).Ok? && Concat(chunks) == Concat(MarshalAll(fs).value)
    ensures var (end, failure) := Feed(Receiver([], 0, 0, [], FreshInboxes(sent.Keys), listening), chunks);
            failure.None? && end.inboxes.Keys == sent.Keys
            && forall c :: c in sent ==> end.inboxes[c].contents == AsSent(c, sent[c])
  {
    hide Tune, TunedLimit, Feed, Marshal, MarshalAll, AllFrames, OnChannel, CanonicalMessage, HasContent, Index, Concat,
      FrameWellFormed, FreshInboxes, AsSent, Yields;
    TunedDelivery(sent, client, server, fs, chunks, listening);
    forall c | c in sent
      ensures Yields(c, sent[c]) == AsSent(c, sent[c])
    {
      YieldedAsSent(c, sent[c]);
    }
  }
}

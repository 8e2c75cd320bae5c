# A model of pika's protocol machinery, with proofs

pika (under `lib/python/pika`) is a client for AMQP 0-9-1; `slow_ack_consumer.py` is a program on top of
it. This project models five of its parts in Dafny and proves what they promise.

1. **Wire codec and stream.** Field tables, content methods and properties, frames, the cutting of bodies,
   the buffered parser and the reassembly of messages (AMQP 0-9-1, sections 4.2.3, 4.2.5 and 4.2.6).
   `Bytes`, `FieldTable`, `FieldTableTheorems`, `FieldTableReencode`, `FieldTableCodec`, `Fields`, `Spec`,
   `Frame`, `FrameCodec`, `Assembler`, `Publisher`, `Stream`, `EndToEnd`; octet by octet in `FieldWire`,
   `FieldKinds` and `WireFormat`; `Canonical`, `StreamErrors`.
2. **Channels and their shutdown.** The callback registry, the RPC queue, and closing a channel or a
   connection, as state machines over every run of calls, frames and failures.
   `Callbacks`, `CallbackMatching`, `OneShots`, `ChannelModel`, `ChannelTheorems`, `ChannelRuns`, `ChannelClosing`,
   `ChannelCalls`, `ChannelObject`, `ConnectionModel`, `ConnectionEffects`, `ConnectionClose`.
3. **The event loop.** Timers with lazy cancellation, the plaintext and TLS transports, and the watcher
   tables. `Heap`, `Timer`, `TimerRuns`, `TimerRequests`, `TimerObject`, `TransportBase`, `PlaintextTransport`,
   `TlsTransport`, `Outcomes`, `PlaintextOutcomes`, `TlsOutcomes`, `TransportObjects`, `Watchers`, `WatcherObjects`.
4. **The connection workflow.** A machine driven by callbacks, and the loop it is documented to be.
   `Workflow`, `WorkflowFails`, `WorkflowObject`.
5. **Deliveries.** The queue in front of a blocking channel's callbacks, and the slow-ack consumer.
   `Deliveries`, `DeliveryRuns`, `DeliveryEffects`, `BlockingChannelObject`, `SlowAck`, `SlowAckObject`.

How it is built. Code that changes state step by step is modelled twice: by functions on values, about
which the theorems are proved, and by classes and methods with the program's fields and loops, each of
which is proved to have exactly the effect of its function, so that the theorems hold of it. What the functions
do is pinned down in turn in terms of their own: octets in numerals, the calls issued, the timeouts asked for,
the failures announced. Sockets, the
resolver, the TLS library, clocks, the broker and the application are inputs: the theorems hold for all of
them. A callback of the application is the sequence of public operations that it performs. Assertions of
the program are recorded in a field `sound`, which the theorems show to stay true; exceptions are values
of `Error` or of `Option`.

Where code and documentation differ, the code is followed:

- `CallbackManager.remove` without a callback removes nothing, though it is documented to remove all.
- A one-shot is not called as often as it was added when using up another one-shot of the same callback removes
  it first; `OneShots.CalledWhenDueExactly` says exactly when, `Callbacks.OverlapLosesCalls` is a case.
- Kind `b` is read as an unsigned octet and `B` as a signed one, the reverse of the standard; the readings agree
  exactly below 128 (`FieldTableTheorems.OctetsAgreeExactly`).
- A decoded table encodes to the bytes it came from only if no two keys clash
  (`FieldTableReencode.ReencodesExactlyWhenKeysDistinct`, `FieldTableReencode.ClashingKeysOccur`).
- `BlockingChannel.basic_cancel` drops deliveries to an automatic consumer that arrive while it waits
  (`DeliveryRuns.AutomaticCancelReturns`, `DeliveryRuns.AutomaticCancelLoses`).
- The workflow can pass the class `AMQPConnectionWorkflowAborted`, not an instance, to `on_done`
  (`Workflow.AbortedClassExactly`, `Workflow.AbortedClassOccurs`).
- A transport that shuts down clears its buffers but not the byte count, which is then right exactly when all
  output had been accepted (`PlaintextTransport.CounterInEveryPhase`, `PlaintextTransport.CounterStaysBehind`).
- `abort` on a transport after `connection_lost` fails an assertion (`PlaintextTransport.StepKeeps`,
  `PlaintextTransport.LateAbortOccurs`).

## Model

| member | source | states |
|---|---|---|
| EndToEnd.EndToEndDelivery | lib/python/pika/connection.py:2257-2286 | messages of any number of channels, their frames interleaved in any way, mixed with heartbeats, with method frames that callbacks take and with unexpected ones, and cut in any way: every channel yields exactly its own messages, in order and once each, ends reset, and the buffer ends empty |
| EndToEnd.TunedDelivery | lib/python/pika/connection.py:1924-1948 | that delivery for every frame size that a client and a server agree on, with the body limit computed from it; no body frame on the wire exceeds that size |
| Canonical.DeliveredAsSent | lib/python/pika/connection.py:2257-2286 | delivery seen from both ends: for messages in the form that is decoded, each channel yields the very methods, properties and bodies that were sent on it |
| EndToEnd.ChannelsIndependent | lib/python/pika/connection.py:2093-2139 | for every interleaving, and whichever callbacks are registered when, each channel sees its own frames but for those that callbacks take, and no others |
| EndToEnd.TakeMessages | lib/python/pika/channel.py:1458-1515 | the assembler turns the frames of a sequence of messages back into those messages and ends reset |
| EndToEnd.TakeBody | lib/python/pika/channel.py:1492-1508 | body frames, however many, complete the content that a method and a header frame announced |
| EndToEnd.DrainFrames | lib/python/pika/connection.py:1966-1973 | a buffer of whole frames is processed as exactly those frames and left empty |
| StreamErrors.FirstFailureStops | lib/python/pika/connection.py:1966-1973 | a frame that its channel refuses ends the reading with that exception, after the frames before it; later bytes stay unread |
| StreamErrors.MalformedStops | lib/python/pika/connection.py:1966-1973 | a frame of unknown type or with another end octet raises InvalidFrame after the frames before it |
| StreamErrors.BodyDecides | lib/python/pika/channel.py:1492-1508 | body frames after a method and a header: complete at the announced length, waiting below it, raising above it |
| StreamErrors.MissingFramesRaise | lib/python/pika/channel.py:1458-1508 | a body without a header raises, and so does an empty content without a method |
| Publisher.SendsMessageFrames | lib/python/pika/connection.py:2265-2286 | what `_send_message` puts out is the method frame, the header frame and the body frames of the message |
| Stream.CutsDoNotMatter | lib/python/pika/connection.py:1959-1973 | input fed in any chunks has the effect of the same input fed whole; an exception comes after the same frames and leaves the same state but for unread bytes |
| Stream.DrainSplit | lib/python/pika/connection.py:1966-1973 | draining, and draining again when more data has come, is draining once |
| Stream.BytesConserved | lib/python/pika/connection.py:2312-2321 | bytes received plus bytes buffered are the bytes fed; frames already handled stay handled, and the frames counted are those handled that are not protocol headers |
| Stream.Connection.OnDataAvailable | lib/python/pika/connection.py:1959-1973 | the loop over the buffer has the specified effect, with the specified exception, and conserves bytes |
| Stream.Connection.TrimFrameBuffer | lib/python/pika/connection.py:2312-2321 | drops exactly the bytes of a frame and counts them |
| Stream.Connection.ProcessFrame | lib/python/pika/connection.py:2111-2139 | ignores a protocol header without counting it and counts any other frame; a method frame for which a callback is registered goes no further, any other goes to its channel if that is registered; other channels are untouched |
| Publisher.SendMessage | lib/python/pika/connection.py:2257-2286 | the loop over chunks puts out every frame of the message in order, or nothing and the first failure |
| Publisher.FragmentAt | lib/python/pika/connection.py:2277-2284 | chunk k is the slice of the body from k times the limit to the next multiple, or to the end |
| Publisher.FragmentsCover | lib/python/pika/connection.py:2274-2284 | the chunks are non-empty, within the limit, and concatenate to the body |
| Publisher.SentWhole | lib/python/pika/connection.py:2274-2284 | the frames decoded from the pieces that go out for a message carry its body, for every positive limit |
| Publisher.TunesExactly | lib/python/pika/connection.py:1924-1948 | for every client limit that pika accepts, tuning succeeds if and only if the server proposes 0 or at least 4096; the smaller limit then holds, and bodies are cut at 4088 to 131064 bytes |
| Publisher.TunedSendsWhole | lib/python/pika/connection.py:2257-2286 | on every tuned connection a message is sent whole, its body in frames within the agreed size, or not at all, and then because one of its frames cannot be marshalled |
| Publisher.Output.SetFrameMax | lib/python/pika/connection.py:282-301 | stores a frame size from 4096 to 131072 and refuses any other without a change |
| Publisher.Output.OnConnectionTune | lib/python/pika/connection.py:1924-1948 | stores the negotiated frame size and the body limit, or raises and changes neither, exactly if the server proposes 1 to 4095 |
| Publisher.Output.Send | lib/python/pika/connection.py:2257-2286 | a tuned connection sends a message whole, in frames within the agreed size, or nothing |
| Publisher.BodyFramesFit | lib/python/pika/connection.py:1626-1633 | no body frame is longer than the negotiated `frame_max` |
| Assembler.ContentFrameAssembler.Process | lib/python/pika/channel.py:1458-1479 | a method, header or body frame changes the assembler, completes a content or is refused; the new fields are given |
| Assembler.ContentFrameAssembler.HandleBodyFrame | lib/python/pika/channel.py:1492-1508 | a body is complete exactly when its length is the announced one, and too long a body raises |
| Assembler.ContentFrameAssembler.Finish | lib/python/pika/channel.py:1481-1490 | yields the method, the header and the joined fragments, and resets |
| Frame.FrameRoundTrip | lib/python/pika/frame.py:188-264 | a frame is decoded from its own bytes whatever follows, and exactly those bytes are consumed |
| Frame.DecodeFrameStable | lib/python/pika/frame.py:188-264 | once the data decides the outcome of `decode_frame`, more data does not change it |
| Frame.EnvelopeDecodes | lib/python/pika/frame.py:197-224 | an envelope of any type and payload is taken off the stream whole, and its payload decoded |
| Frame.PrefixIncomplete | lib/python/pika/frame.py:197-219 | no proper prefix of a frame is taken for a frame or an error |
| Frame.DecodeFrame | lib/python/pika/frame.py:188-264 | a frame found takes at least 8 bytes and no more than there are; none found takes none |
| WireFormat.MarshalsToWire | lib/python/pika/frame.py:31-184 | a frame can be sent if and only if its parts fit, and is then, octet by octet: type 1, 2, 3 or 8, channel, length, payload, 206; a header payload starts 0 60 0 0 and the body size |
| WireFormat.FrameDecodes | lib/python/pika/frame.py:188-264 | those octets are decoded, whatever follows them, to the frame in its normal form |
| WireFormat.EnclosedDecodes | lib/python/pika/frame.py:205-264 | octets of any type and end: 206 is demanded, types 3 and 8 are body and heartbeat, types other than 1, 2, 3 and 8 raise |
| WireFormat.ProtocolHeaderDecodes | lib/python/pika/frame.py:197-203 | the letters AMQP, a zero and three octets are a protocol header; fewer octets are no frame yet |
| WireFormat.MethodPayloadDecodes | lib/python/pika/frame.py:226-238 | class and method are two octets each; an unknown pair raises, and so does a payload below four octets |
| WireFormat.HeaderPayloadDecodes | lib/python/pika/frame.py:240-252 | class 60, any weight, eight octets of body size and the properties; another class or fewer than twelve octets raise |
| WireFormat.KnownMethodsAre | lib/python/pika/spec.py:2301-2372 | the methods known, by class and method number |
| WireFormat.MethodEncodes | lib/python/pika/spec.py:1575-1590 | each content method: its ids 60 40, 60 50, 60 60 or 60 71, and its arguments in order, each at its width; it is encoded if and only if they fit |
| WireFormat.PropertiesEncodeToWire | lib/python/pika/spec.py:2224-2299 | the flags digit by digit, then the properties that are set, in order; encoded if and only if they fit |
| WireFormat.FlagWordsContinue | lib/python/pika/spec.py:2153-2162 | an odd flag word is continued by the next, sixteen bits higher |
| WireFormat.FlagWordsGoOut | lib/python/pika/spec.py:2288-2299 | more than sixteen bits of flags go out in two words |
| Canonical.CanonicalFrameDecodes | lib/python/pika/frame.py:188-264 | the octets of a frame in the form that is decoded give that very frame |
| Canonical.CanonicalValueDecodes | lib/python/pika/data.py:201-328 | the octets of a value in the form that is decoded give that very value |
| Canonical.PutAgain | lib/python/pika/data.py:192-197 | a key that is given again takes its new value in its old place |
| FrameCodec.MarshalFrame | lib/python/pika/frame.py:31-133 | a frame that fits goes out octet by octet as `WireFormat.FrameWire` has it, in numerals, and any other raises; prefix and envelope are put around the pieces |
| FrameCodec.EncodeMethod | lib/python/pika/spec.py:1575-1590 | the pieces of a content method join to its encoding; error cases agree |
| FrameCodec.EncodeInOrder | lib/python/pika/spec.py:2224-2287 | appends the properties that are set, in order, and accumulates the flag of each |
| FrameCodec.EncodeFlagWords | lib/python/pika/spec.py:2288-2299 | the flag-word loop writes 15 flags a word with continuation bits |
| FrameCodec.EncodeProperties | lib/python/pika/spec.py:2224-2299 | flag words and properties join to the specified encoding; error cases agree |
| FrameCodec.DecodeFlagWords | lib/python/pika/spec.py:2153-2162 | the flag-word loop ends at the first word without a continuation bit |
| FrameCodec.DecodeAnnounced | lib/python/pika/spec.py:2163-2222 | each announced property is read at the offset where the one before it ended |
| FrameCodec.DecodeProperties | lib/python/pika/spec.py:2153-2222 | reads the flags, then the announced properties; value and errors are given |
| Spec.MethodRoundTrip | lib/python/pika/spec.py:1645-1672 | a content method is decoded from its encoding, in its normal form |
| Spec.PropertiesRoundTrip | lib/python/pika/spec.py:2153-2299 | every combination of the 14 properties comes back, in its normal form |
| Spec.FlagsRoundTrip | lib/python/pika/spec.py:2288-2299 | one flag word suffices, reads back, and announces exactly the properties that are set |
| Spec.WordBit | lib/python/pika/spec.py:2120-2133 | each property has a bit of its own in the flag word |
| Fields.OptionalsRoundTrip | lib/python/pika/spec.py:2163-2222 | optional fields decode to those encoded, ending at the returned offset |
| Fields.FieldRoundTrip | lib/python/pika/spec.py:1656-1672 | a method argument of each kind decodes to its normal form |
| FieldTableTheorems.ValueRoundTrip | lib/python/pika/data.py:201-328 | wherever the encoding of a nested value occurs, decoding there gives its normal form and stops exactly at its end |
| FieldTableTheorems.TableRoundTrip | lib/python/pika/data.py:181-198 | the same for tables, with duplicate keys assigned in order |
| FieldTableTheorems.EncodesExactlyInRange | lib/python/pika/data.py:98-178 | `encode_value` fails on exactly the values out of range, and the returned size is that of the bytes |
| FieldWire.EncodesToWire | lib/python/pika/data.py:98-178 | every value in range goes out, at every depth, as its letter t, I, l, L, S, x, D, T, F, A or V and what follows, octet by octet |
| FieldWire.DecodesFromWire | lib/python/pika/data.py:201-328 | those octets are decoded, wherever they stand, to the normal form of the value |
| FieldWire.DecimalExactly | lib/python/pika/data.py:149-158 | the scale and digits of a decimal stand for its value exactly, with no trailing zero behind the point |
| FieldKinds.IntegersDecode | lib/python/pika/data.py:222-284 | each of the nine integer kinds is read at its width and with its sign; eight octets make a long |
| FieldKinds.OthersDecode | lib/python/pika/data.py:216-328 | booleans, decimals, timestamps and null are read octet by octet; a timestamp beyond the year 9999 raises |
| FieldKinds.StringsDecode | lib/python/pika/data.py:286-301 | long strings and byte arrays are read by their four-octet length; a long string that is not UTF-8 is left as bytes |
| FieldKinds.FloatDecodes | lib/python/pika/data.py:262-265 | a single-precision number is its sign, exponent and mantissa, truncated toward zero; infinities and NaN raise |
| FieldKinds.DoubleDecodes | lib/python/pika/data.py:267-270 | the same for double precision |
| FieldKinds.OtherKindsRaise | lib/python/pika/data.py:325-326 | any other kind, and the end of the data, raises |
| FieldKinds.CutIntegersRaise | lib/python/pika/data.py:222-284 | an integer that is cut off raises |
| FieldKinds.CutShortDecodes | lib/python/pika/data.py:63-74 | a short string that is cut off is what there is of it |
| FieldTableTheorems.TimeStampRoundTrip | lib/python/pika/data.py:312-316 | a timestamp within the range of `datetime` comes back |
| FieldTableTheorems.OctetsAgreeExactly | lib/python/pika/data.py:222-230 | an octet of kind `b` or `B` is read as the standard reads it if and only if it is below 128 |
| FieldTableTheorems.ShortRoundTrip | lib/python/pika/data.py:13-74 | a short string comes back, as text if it is valid UTF-8 and as bytes otherwise |
| FieldTableReencode.ReencodesExactlyWhenKeysDistinct | lib/python/pika/data.py:77-178 | the decoded value encodes to the same bytes if and only if the keys of every table differ in their bytes |
| FieldTableReencode.ClashingKeysOccur | lib/python/pika/data.py:77-95 | a table, of one key as text and as bytes, that is encoded and does not come back |
| FieldTableReencode.SecondRoundTrip | lib/python/pika/data.py:77-328 | with distinct keys, decoding and encoding again gives the bytes back, and normalising twice is normalising once |
| FieldTableReencode.NormalSize | lib/python/pika/data.py:77-178 | normalising never lengthens an encoding and keeps its size if and only if no keys clash |
| FieldTableReencode.DecimalPartsIdempotent | lib/python/pika/data.py:149-158 | a decimal as decoded encodes to the same scale and digits |
| FieldTable.DecodeValue | lib/python/pika/data.py:201-328 | terminates on every byte string: success means a strictly larger offset |
| FieldTable.DecodeTable | lib/python/pika/data.py:181-198 | terminates on every byte string; success consumes at least the length |
| FieldTable.DecodeShort | lib/python/pika/data.py:63-74 | success consumes at least one byte that is there |
| FieldTableCodec.EncodeShortString | lib/python/pika/data.py:13-42 | appends a length and a string, or raises and appends nothing |
| FieldTableCodec.EncodeTable | lib/python/pika/data.py:77-95 | the placeholder is overwritten by the length of the bytes that follow it, earlier pieces are untouched, and the size is exact |
| FieldTableCodec.EncodeValue | lib/python/pika/data.py:98-178 | appends the specified bytes after the pieces already there and returns their size, or the specified error |
| FieldTableCodec.EncodeListPieces | lib/python/pika/data.py:166-173 | a field array is encoded in a list of its own, so that its length is known |
| FieldTableCodec.Patched | lib/python/pika/data.py:86-95 | overwriting a placeholder that pieces follow makes a length-prefixed block |
| FieldTableCodec.DecodeTable | lib/python/pika/data.py:181-198 | the loop fills the dict to the declared length, wherever that ends |
| FieldTableCodec.DecodeValue | lib/python/pika/data.py:201-328 | the loops and branches give the specified value, offset or error |
| Callbacks.ProcessCallsMatching | lib/python/pika/callback.py:203-240 | `process` calls every matching callback once, in order of registration, whatever one-shots it uses up |
| Callbacks.AddKeepsDistinct | lib/python/pika/callback.py:116-166 | no two entries of a list have the same callback, caller and arguments; a duplicate adds no entry |
| Callbacks.ProcessOf | lib/python/pika/callback.py:203-240 | the entries of one callback fare as if they were alone in the list |
| CallbackMatching.ContradictedIsPassedBy | lib/python/pika/callback.py:286-390 | an entry that expects a value which the event lacks or gives otherwise is neither called, counted down nor removed, and the others fare as if it were not listed |
| CallbackMatching.ExpectedIsCalled | lib/python/pika/callback.py:286-390 | an entry all of whose expected attributes are given with equal values, for the right caller, is called, in its place |
| CallbackMatching.OtherCallerIsNotHeard | lib/python/pika/callback.py:388-390 | an entry for one caller is not called by another |
| CallbackMatching.NewIsAppended | lib/python/pika/callback.py:116-166 | a callback not listed with the same caller and arguments is listed last, with one call if it is a one-shot |
| CallbackMatching.KnownIsCounted | lib/python/pika/callback.py:142-160 | a one-shot that is listed gains one call; nothing else changes |
| CallbackMatching.RemovedExactly | lib/python/pika/callback.py:242-274 | `remove` deletes exactly the entries of the callback whose expected attributes are all among those given |
| OneShots.CalledWhenDueExactly | lib/python/pika/callback.py:203-272 | in any list of different entries, an entry is called by exactly the first `calls` of its events, whatever events occur, if and only if no one-shot of the same callback undercuts it: removes it along with itself, and has fewer calls or can be called without it |
| OneShots.OneShotFiresCountedTimes | lib/python/pika/callback.py:116-166 | a one-shot registered n times beside any other entries is called by exactly the first n of its events if and only if none of the others undercuts it |
| OneShots.CalledWhenDue | lib/python/pika/callback.py:203-240 | without such a pair every sequence of events calls the entry as often as it is due |
| OneShots.MissesACall | lib/python/pika/callback.py:392-407 | for every such pair, events in which the entry misses a call: those that use up the other one-shot, and then one more |
| OneShots.FindCollect | lib/python/pika/callback.py:203-240 | what `process` leaves of an entry: nothing if a one-shot that is used up removes it, one call less if it is a one-shot that was called, itself otherwise |
| Callbacks.LoneOneShotFiresCountedTimes | lib/python/pika/callback.py:392-407 | as a count of the calls of the callback: where it has no other entry, a one-shot registered k times is called by exactly the first k matching events, whatever other callbacks are registered |
| Callbacks.OverlapLosesCalls | lib/python/pika/callback.py:254-264 | the count fails when entries of one callback overlap: a concrete case |
| Callbacks.CallbackManager.Add | lib/python/pika/callback.py:116-166 | adds to one list; every other list is unchanged |
| Callbacks.CallbackManager.Fire | lib/python/pika/callback.py:203-240 | selects the matching callbacks, uses up one-shots and prunes; every other list is unchanged |
| Callbacks.CallbackManager.Remove | lib/python/pika/callback.py:242-274 | removes the matching entries of the callback, and nothing when no callback is given |
| Callbacks.CallbackManager.SetList | lib/python/pika/callback.py:326-336 | an emptied list is pruned from the tables |
| Callbacks.CallbackManager.Cleanup | lib/python/pika/callback.py:174-187 | removes every list of a prefix and no other, and says whether there was one |
| Callbacks.CallbackManager.Pending | lib/python/pika/callback.py:189-201 | the number of entries, or None |
| ChannelRuns.CallsSerialised | lib/python/pika/channel.py:1306-1383 | in every run of a channel that is not closed, the methods sent followed by the blocked queue are the methods issued, in order; a non-empty queue means a reply is awaited |
| ChannelRuns.OneAwaitsReply | lib/python/pika/channel.py:1342-1383 | the channel blocks exactly while one `_on_synchronous_complete` is registered for one call under the awaited reply, or is about to be called |
| ChannelCalls.ConsumeIssues | lib/python/pika/channel.py:306-334 | an accepted `basic_consume` records the consumer and issues Basic.Consume: sent and awaiting ConsumeOk of its own tag, with the callback registered under it, or last in the queue |
| ChannelCalls.CallIssues | lib/python/pika/channel.py:1306-1383 | the same for every other request of an open channel; a channel in another state is left alone |
| ChannelCalls.CancelIssues | lib/python/pika/channel.py:226-262 | an accepted `basic_cancel` issues Basic.Cancel; a reply is awaited, and the consumer kept until then, if and only if a callback is given |
| ChannelCalls.CloseIssues | lib/python/pika/channel.py:529-553 | `close` issues one Basic.Cancel for each consumer not cancelled yet, in order, and then Channel.Close, which is awaited or last in the queue |
| ChannelCalls.CancelCallsOnce | lib/python/pika/channel.py:543-545 | those cancellations are of exactly the consumers not cancelled yet, each once |
| ChannelCalls.ReplySendsQueue | lib/python/pika/channel.py:1262-1276 | a reply sends the queue in order up to and including the first request that expects a reply, which is then awaited |
| ChannelCalls.OtherReplyIgnored | lib/python/pika/channel.py:1342-1383 | a reply for another consumer leaves the channel blocked: the queue, the awaited request and its one-shot stay, nothing is sent, and `_on_synchronous_complete` is not called |
| ChannelCalls.ReplyAnswers | lib/python/pika/channel.py:1342-1383 | the awaited reply uses up the one-shot and has `_on_synchronous_complete` called once, and every callback that listens for it |
| ChannelCalls.ConsumerForgotten | lib/python/pika/channel.py:983-1050 | CancelOk, and a cancel by the broker of a consumer that is not being cancelled, forget that consumer and no other |
| ChannelCalls.StartOpens | lib/python/pika/channel.py:765-770 | a new channel has sent Channel.Open, awaits OpenOk, and listens for a close and a cancel by the broker |
| ChannelCalls.CloserIsCalled | lib/python/pika/channel.py:134-156 | an on-close callback is kept once, behind the earlier ones, and called when the channel closes |
| ChannelCalls.AddedIsCalled | lib/python/pika/channel.py:109-120 | a callback that the application adds is called for the frames of its key |
| ChannelCalls.SelectedInOrder | lib/python/pika/callback.py:226-240 | the callbacks of a frame are called with its attributes in the order of their selection |
| ChannelCalls.CleanupClears | lib/python/pika/channel.py:975-981 | the clean-up forgets every consumer and callback, and gives the number back |
| ChannelRuns.CloseIsLastCall | lib/python/pika/channel.py:515-553 | once CLOSING, `Channel.Close` is the last method queued, or the queue is empty and it is the last one sent |
| ChannelRuns.RemoteClose | lib/python/pika/channel.py:1073-1108 | a remote close finishes at once if and only if the client was not closing or its own `Channel.Close` was still queued; it is acknowledged either way |
| ChannelRuns.NeverReopens | lib/python/pika/channel.py:1231-1238 | whatever happens, a closing channel stays closing or closes, and a closed one stays closed |
| ChannelRuns.OpenOkKeeps | lib/python/pika/channel.py:1218-1238 | OpenOk opens an opening channel and is ignored by a closing one |
| ChannelRuns.CloseOkKeeps | lib/python/pika/channel.py:1126-1135 | CloseOk arrives at a closing channel only, and closes it |
| ChannelClosing.OnCloseCalledOnce | lib/python/pika/channel.py:1052-1071 | on every path to CLOSED the on-close callbacks that have been called, followed by those still to be called, are the callbacks registered, each once and in order; before that none is called |
| ChannelClosing.StepWhileClosed | lib/python/pika/channel.py:1052-1071 | each step of a closed channel calls the next on-close callback, or leaves those still to be called alone |
| ChannelRuns.CloseKeeps | lib/python/pika/channel.py:515-553 | `close` cancels consumers and issues the last call, keeping every invariant |
| ChannelRuns.CleanupKeeps | lib/python/pika/channel.py:975-981 | clean-up happens in the closed channel and gives its number back |
| ChannelRuns.StepKeeps | lib/python/pika/channel.py:1262-1383 | every call, broker frame, callback and loss of the stream keeps the invariant |
| ChannelTheorems.PumpKeeps | lib/python/pika/channel.py:1262-1276 | the loop sends queued methods until one blocks again, keeping order |
| ChannelTheorems.IssueKeeps | lib/python/pika/channel.py:1306-1383 | a method is sent at once or queued, keeping order and the one-shots of the awaited reply |
| ChannelTheorems.TransitionKeeps | lib/python/pika/channel.py:1052-1071 | closing selects every on-close callback, then the clean-up |
| ChannelTheorems.DrainEffect | lib/python/pika/channel.py:1278-1304 | draining on a remote close drops the queue, and closes at once if `Channel.Close` was in it |
| ChannelObject.Channel.Rpc | lib/python/pika/channel.py:1306-1383 | raises when closed, queues while a reply is awaited, and otherwise sends; the whole new channel state is given |
| ChannelObject.Channel.Send | lib/python/pika/channel.py:1360-1383 | sends, and if a reply is expected blocks and registers both one-shots under it with its arguments |
| ChannelObject.Channel.OnSynchronousComplete | lib/python/pika/channel.py:1262-1276 | unblocks, and the loop sends queued methods until one blocks |
| ChannelObject.Channel.OnOpenOk | lib/python/pika/channel.py:1218-1238 | opens the channel unless it is closing |
| ChannelObject.Channel.TransitionToClosed | lib/python/pika/channel.py:1052-1071 | closes, selects the on-close callbacks and puts the clean-up after them |
| ChannelObject.Channel.OnCloseMeta | lib/python/pika/channel.py:1110-1124 | closes a channel that is not closed, for the given reason; keeps the invariant |
| ChannelObject.Channel.DrainBlockedMethodsOnRemoteClose | lib/python/pika/channel.py:1278-1304 | the loop drops the queue in order, and a queued `Channel.Close` closes the channel |
| ChannelObject.Channel.OnCloseFromBroker | lib/python/pika/channel.py:1073-1108 | acknowledges, then drains the queue of a closing channel or closes any other |
| ChannelObject.Channel.BasicCancel | lib/python/pika/channel.py:206-262 | cancels a known consumer that is not being cancelled, with or without awaiting the reply; keeps the invariant |
| ChannelObject.Channel.BasicConsume | lib/python/pika/channel.py:264-334 | registers a new consumer and issues Basic.Consume, which is sent and awaits ConsumeOk of the tag, or waits in the queue; a known tag changes nothing; keeps the invariant |
| ChannelObject.Channel.Close | lib/python/pika/channel.py:515-553 | the loop cancels each consumer, then the channel is closing and `Channel.Close` is issued; keeps the invariant |
| ChannelObject.Channel.RunNext | lib/python/pika/channel.py:1052-1071 | calls the next selected callback, or cleans up after the on-close callbacks; keeps the invariant |
| ChannelObject.Channel.OnMethodFrame | lib/python/pika/callback.py:203-240 | selects the callbacks of a method frame and uses up one-shots; keeps the invariant |
| ConnectionModel.GracefulClose | lib/python/pika/connection.py:1691-1733 | in every run `Connection.Close` is sent at most once, never while a channel is left, and has been sent once an established connection is closing and its last channel is gone; every channel left is closing; a connection closed before its handshake was over terminates its stream instead, once |
| ConnectionModel.ClosingOnlyShrinks | lib/python/pika/connection.py:1298-1345 | a closing connection gains no channel and stays closing until the stream is gone |
| ConnectionModel.AllocatedNumberIsFree | lib/python/pika/connection.py:1676-1689 | the number that is given out is the lowest free one and within the limit; none is given out if and only if the limit is reached |
| ConnectionModel.StepKeeps | lib/python/pika/connection.py:1691-1733 | every step of the connection or of one of its channels keeps the invariant |
| ConnectionEffects.EveryChannelTold | lib/python/pika/connection.py:2070-2078 | when the stream is gone every channel that was not closed is closed for that reason and calls its on-close callbacks next, a closing one too |
| ConnectionEffects.EveryChannelAsked | lib/python/pika/connection.py:1554-1567 | `close` has every open or opening channel cancel its consumers and issue Channel.Close, and leaves the others alone |
| ConnectionEffects.ChannelAdded | lib/python/pika/connection.py:1676-1689 | a new channel takes a free number within the limit, the others are left alone, and no other event adds one |
| ConnectionEffects.OtherChannelsUntouched | lib/python/pika/connection.py:1691-1719 | what happens on one channel concerns no other; the channel is dropped when its clean-up has run |
| ConnectionEffects.OpenOkEstablishes | lib/python/pika/connection.py:1823-1836 | the end of the handshake establishes the connection, and nothing else does |
| ConnectionModel.RegisteredStays | lib/python/pika/channel.py:975-981 | only the clean-up of a channel gives its number back |
| ConnectionClose.Connection.NextChannelNumber | lib/python/pika/connection.py:1676-1689 | the loop finds the specified number |
| ConnectionClose.Connection.CloseChannels | lib/python/pika/connection.py:1554-1567 | the loop closes every channel that is not closing yet |
| ConnectionClose.Connection.Close | lib/python/pika/connection.py:1298-1345 | closes the channels; before the handshake is over it terminates the stream, after it it sends `Connection.Close` at once if no channel is there; keeps the invariant |
| ConnectionClose.Connection.OnChannelCleanup | lib/python/pika/connection.py:1691-1719 | gives the number back and sends `Connection.Close` when a closing connection lost its last channel |
| ConnectionClose.Connection.OnStreamTerminated | lib/python/pika/connection.py:2070-2078 | every channel left learns of the loss |
| TimerRuns.ProcessFires | lib/python/pika/adapters/select_connection.py:306-342 | a pass fires, in deadline order, exactly the due live timeouts that no earlier callback of the pass cancelled; added timeouts wait; few dead entries are left |
| Timer.TakeReadyTakes | lib/python/pika/adapters/select_connection.py:314-323 | the ready list has exactly the due live entries in deadline order, and the heap keeps exactly the later ones |
| Timer.FireAllFires | lib/python/pika/adapters/select_connection.py:325-333 | the ready callbacks are called in order, without those that an earlier one cancelled |
| TimerRuns.FiresOnceNotEarly | lib/python/pika/adapters/select_connection.py:257-342 | in every run each timeout fires at most once, and not before its deadline |
| TimerRequests.FiresAsAsked | lib/python/pika/adapters/select_connection.py:235-342 | in every run the timeout number n answers the nth call of `call_later`, callbacks' calls included: it fires at most once, and not before the delay asked for has passed since that call |
| TimerRequests.CalledWhenAsked | lib/python/pika/adapters/select_connection.py:235-342 | a new timeout is called by the first pass at or after its time, unless a callback of the pass cancels it, and by no earlier one |
| TimerRequests.CancelledNeverFires | lib/python/pika/adapters/select_connection.py:270-288 | a timeout cancelled before it fires never fires |
| TimerRequests.CollectsWhen | lib/python/pika/adapters/select_connection.py:335-342 | dead entries are collected exactly when at least 1024, and more than half the heap, have been cancelled |
| TimerRuns.NeverAfterCancellation | lib/python/pika/adapters/select_connection.py:270-288 | in every run a timeout that was cancelled or has fired does not fire again |
| TimerRuns.CounterCoversDead | lib/python/pika/adapters/select_connection.py:279-288 | the cancellation counter is the number of dead entries plus the self-cancellations since the last collection, so never below it |
| TimerRuns.CounterExactWithoutSelfCancels | lib/python/pika/adapters/select_connection.py:318-342 | in a run in which no callback cancels its own running timeout the counter equals the number of dead entries |
| TimerRuns.CollectKeeps | lib/python/pika/adapters/select_connection.py:335-342 | collection keeps every live timeout and the heap order; dead entries are then at most the larger of 1023 and the live ones |
| TimerRuns.IntervalNeverOvershoots | lib/python/pika/adapters/select_connection.py:290-304 | the interval is that of an entry of the heap and never passes any deadline on it; no interval means nothing is live |
| TimerRuns.LiveIsScheduled | lib/python/pika/adapters/select_connection.py:257-263 | every live timeout is on the heap |
| TimerObject.Timers.CallLater | lib/python/pika/adapters/select_connection.py:235-268 | the heap gains exactly the timeout that is returned, whose deadline is the time asked for; negative delays and deadlines are refused |
| TimerObject.Timers.RemoveTimeout | lib/python/pika/adapters/select_connection.py:270-288 | cancels a live timeout and counts it; any other is left alone |
| TimerObject.Timers.GetRemainingInterval | lib/python/pika/adapters/select_connection.py:290-304 | time to the first deadline, not below zero; None for an empty heap |
| TimerObject.Timers.TakeDue | lib/python/pika/adapters/select_connection.py:314-323 | the loop pops every due timeout, keeps the live ones and uncounts the dead ones |
| TimerObject.Timers.InvokeReady | lib/python/pika/adapters/select_connection.py:325-333 | the loop calls each ready timeout that is still live, clears it, and uncounts the others |
| TimerObject.Timers.Collect | lib/python/pika/adapters/select_connection.py:335-342 | above the threshold, the heap is rebuilt from its live entries and the counter reset |
| TimerObject.Timers.ProcessTimeouts | lib/python/pika/adapters/select_connection.py:306-342 | takes, calls and collects: the new timer is that of the pass |
| Heap.Push | lib/python/pika/adapters/select_connection.py:261-261 | a heap of the same entries and the new one |
| Heap.Pop | lib/python/pika/adapters/select_connection.py:319-319 | a heap of the same entries without the first |
| Heap.Heapify | lib/python/pika/adapters/select_connection.py:342-342 | a heap of the given entries |
| Heap.FirstIsEarliest | lib/python/pika/adapters/select_connection.py:318-318 | the first entry of a heap has the earliest deadline |
| TlsTransport.FourCombinations | lib/python/pika/adapters/utils/io_services_utils.py:1139-1384 | in every run, between events, an active TLS transport is in one of four combinations of actions with the stated output, watches exactly the directions that have an action, loses no output, and fails no assertion |
| TlsTransport.EachCombinationOccurs | lib/python/pika/adapters/utils/io_services_utils.py:1139-1384 | each of the four combinations is reached |
| TlsTransport.StepKeeps | lib/python/pika/adapters/utils/io_services_utils.py:1139-1384 | for every outcome of the socket, an assertion fails if and only if the step is an abort by the user after `connection_lost`; otherwise the invariant is kept |
| TlsTransport.LateAbortOccurs | lib/python/pika/adapters/utils/io_services_utils.py:895-916 | a run in which the user aborts after `connection_lost` and an assertion fails |
| TlsTransport.CounterInEveryPhase | lib/python/pika/adapters/utils/io_services_utils.py:864-873 | as for the plaintext transport |
| TlsTransport.AfterConsumeKeeps | lib/python/pika/adapters/utils/io_services_utils.py:1266-1292 | re-registration after reading leads from any combination to one of the four |
| TlsTransport.AfterProduceKeeps | lib/python/pika/adapters/utils/io_services_utils.py:1329-1384 | re-registration after writing leads to one of the four, and its assertions hold |
| TlsTransport.ConsumeLoopHears | lib/python/pika/adapters/utils/io_services_utils.py:771-806 | what is read reaches the protocol in order and once |
| TlsTransport.LostExactlyOnce | lib/python/pika/adapters/utils/io_services_utils.py:895-980 | after any run that ends inactive, draining the queue calls `connection_lost` exactly once, with None if and only if the user had aborted |
| TlsOutcomes.TlsHalts | lib/python/pika/adapters/utils/io_services_utils.py:1221-1292 | from any active transport: WANT_READ and WANT_WRITE wait for that direction; any other exception ends it Failed, with exactly that failure queued |
| TlsOutcomes.TlsEnds | lib/python/pika/adapters/utils/io_services_utils.py:1221-1264 | the end of the stream fails the connection with EndOfStream |
| TlsOutcomes.TlsRaises | lib/python/pika/adapters/utils/io_services_utils.py:1221-1264 | a protocol that raises fails the connection with that failure, unless it aborted it before |
| TlsOutcomes.TlsReadingStops | lib/python/pika/adapters/utils/io_services_utils.py:1221-1264 | after an abort by the user the rest is left unread; after 102400 bytes the next read is queued |
| TlsOutcomes.TlsTakes | lib/python/pika/adapters/utils/io_services_utils.py:1294-1384 | when all has been sent only reading goes on; otherwise the rest waits for the direction wanted, or the exception fails the connection; whether a read is queued |
| TlsOutcomes.TlsFailureTold | lib/python/pika/adapters/utils/io_services_utils.py:895-980 | draining then calls `connection_lost` once, with that failure |
| TlsOutcomes.WriteTlsQueues | lib/python/pika/adapters/utils/io_services_utils.py:1147-1174 | an active transport takes what is written behind what waits, and sends it next unless a read is being handed over; another takes nothing |
| TlsOutcomes.ReactionTlsDone | lib/python/pika/adapters/utils/io_services_utils.py:771-806 | what the protocol does on receiving data is done: it writes up to its first abort, which ends the connection |
| PlaintextTransport.TransmitConservation | lib/python/pika/adapters/utils/io_services_utils.py:1005-1118 | in every run, bytes taken by the socket followed by the buffers are the bytes written, the counter is the buffered length, and writability is watched exactly while output is buffered; no assertion fails |
| PlaintextTransport.StepKeeps | lib/python/pika/adapters/utils/io_services_utils.py:1005-1118 | an assertion fails if and only if the step is an abort by the user after `connection_lost`; otherwise the invariant is kept |
| PlaintextTransport.LateAbortOccurs | lib/python/pika/adapters/utils/io_services_utils.py:895-916 | a run in which the user aborts after `connection_lost` and an assertion fails |
| PlaintextTransport.CounterInEveryPhase | lib/python/pika/adapters/utils/io_services_utils.py:864-873 | in every run and phase the counter is what was written and not accepted; after shutdown it equals what is buffered if and only if everything written had been accepted |
| PlaintextTransport.CounterStaysBehind | lib/python/pika/adapters/utils/io_services_utils.py:743-748 | a run that leaves bytes in the counter and none in the buffers |
| PlaintextTransport.ConsumeHears | lib/python/pika/adapters/utils/io_services_utils.py:771-806 | what is read reaches the protocol in order and once, all of it unless the transport stops reading for a stated reason |
| PlaintextTransport.LostExactlyOnce | lib/python/pika/adapters/utils/io_services_utils.py:895-980 | as for the TLS transport |
| PlaintextOutcomes.SocketHalts | lib/python/pika/adapters/utils/io_services_utils.py:1053-1083 | from any active transport: would-block leaves it open; any other exception of the socket ends it Failed, with exactly that failure queued |
| PlaintextOutcomes.StreamEnds | lib/python/pika/adapters/utils/io_services_utils.py:1058-1076 | at the end of the stream the protocol keeps the connection open without reading, or aborts it as the user, or fails it by raising |
| PlaintextOutcomes.ProtocolRaises | lib/python/pika/adapters/utils/io_services_utils.py:1066-1083 | a protocol that raises fails the connection with that failure, unless it aborted it before |
| PlaintextOutcomes.ReadingStops | lib/python/pika/adapters/utils/io_services_utils.py:771-806 | after an abort by the user, or after 102400 bytes, the rest is left unread |
| PlaintextOutcomes.SocketTakes | lib/python/pika/adapters/utils/io_services_utils.py:1086-1118 | when all has been sent the watcher is turned off; otherwise the rest waits, or the socket's exception fails the connection |
| PlaintextOutcomes.SocketFailureTold | lib/python/pika/adapters/utils/io_services_utils.py:895-980 | draining then calls `connection_lost` once, with that failure |
| PlaintextOutcomes.WriteQueues | lib/python/pika/adapters/utils/io_services_utils.py:1005-1031 | an active transport takes what is written behind what waits and watches for room; another takes nothing |
| PlaintextOutcomes.ReactionDone | lib/python/pika/adapters/utils/io_services_utils.py:771-806 | what the protocol does on receiving data is done: it writes up to its first abort, which ends the connection |
| TransportBase.ProduceConserves | lib/python/pika/adapters/utils/io_services_utils.py:808-831 | partial and refused sends lose, repeat and reorder nothing; the counter does not underflow; no exception means nothing is left |
| Outcomes.SendsProgress | lib/python/pika/adapters/utils/io_services_utils.py:808-831 | a socket that takes at least a byte each time is sent as many bytes as there are calls, or everything |
| Outcomes.SendsWithinChunk | lib/python/pika/adapters/utils/io_services_utils.py:808-831 | after partial sends the rest of the chunk is next |
| Outcomes.SendsWholeChunks | lib/python/pika/adapters/utils/io_services_utils.py:808-831 | whole chunks are sent in order |
| Outcomes.EndingTold | lib/python/pika/adapters/utils/io_services_utils.py:895-980 | a failure is told to the protocol exactly once, and so is an abort, whatever else was queued |
| TransportBase.AbortKeeps | lib/python/pika/adapters/utils/io_services_utils.py:895-946 | an abort begins the shutdown, and a user abort is remembered |
| TransportBase.NoticeKeeps | lib/python/pika/adapters/utils/io_services_utils.py:948-980 | a notification keeps the shutdown invariant, `connection_lost` aborting again included |
| TransportBase.ToldExactlyOnce | lib/python/pika/adapters/utils/io_services_utils.py:948-980 | once shutdown has begun and no notification is left, `connection_lost` has been called exactly once |
| TransportBase.DrainTellsOnce | lib/python/pika/adapters/utils/io_services_utils.py:895-980 | running the queue ends, completes the transport and calls `connection_lost` once; with None if the user had aborted |
| TransportObjects.AsyncTransport.Buffer | lib/python/pika/adapters/utils/io_services_utils.py:750-769 | appends the data and counts its bytes |
| TransportObjects.AsyncTransport.Produce | lib/python/pika/adapters/utils/io_services_utils.py:808-831 | the send loop requeues the rest of a partial send and stops at the exception |
| TransportObjects.AsyncTransport.InitiateAbort | lib/python/pika/adapters/utils/io_services_utils.py:895-946 | stops I/O, records the phase, and queues one notification unless one of the same or higher rank is queued |
| TransportObjects.AsyncTransport.ConnectionLostNotify | lib/python/pika/adapters/utils/io_services_utils.py:948-980 | calls `connection_lost` and completes, unless it was done or a user abort has priority |
| TransportObjects.AsyncTransport.RunNextNotice | lib/python/pika/adapters/utils/io_services_utils.py:943-946 | takes the first queued notification and runs it |
| TransportObjects.AsyncPlaintextTransport.Write | lib/python/pika/adapters/utils/io_services_utils.py:1005-1031 | buffers, and turns the writability watcher on if the buffer was empty; keeps the invariant |
| TransportObjects.AsyncPlaintextTransport.Consume | lib/python/pika/adapters/utils/io_services_utils.py:771-806 | the receive loop passes data on until the limit, the end, an exception or an abort |
| TransportObjects.AsyncPlaintextTransport.OnSocketReadable | lib/python/pika/adapters/utils/io_services_utils.py:1034-1083 | would-block is ignored, the end of the stream asks the protocol, failures abort; keeps the invariant |
| TransportObjects.AsyncPlaintextTransport.OnSocketWritable | lib/python/pika/adapters/utils/io_services_utils.py:1086-1118 | sends, and turns the watcher off if and only if nothing is left; failures abort; keeps the invariant |
| TransportObjects.AsyncSSLTransport.Write | lib/python/pika/adapters/utils/io_services_utils.py:1147-1174 | buffers, and sets the writable action if the buffer was empty and there is none; keeps the invariant |
| TransportObjects.AsyncSSLTransport.Consume | lib/python/pika/adapters/utils/io_services_utils.py:1221-1292 | reads, then re-registers for WANT_READ, WANT_WRITE or more data; other errors are raised |
| TransportObjects.AsyncSSLTransport.Produce | lib/python/pika/adapters/utils/io_services_utils.py:1294-1384 | sends, then re-registers for what is left, and resumes reading |
| TransportObjects.AsyncSSLTransport.OnSocketReadable | lib/python/pika/adapters/utils/io_services_utils.py:1177-1196 | runs the readable action, whichever it is; an exception aborts; keeps the invariant |
| TransportObjects.AsyncSSLTransport.OnSocketWritable | lib/python/pika/adapters/utils/io_services_utils.py:1199-1218 | runs the writable action, whichever it is; an exception aborts; keeps the invariant |
| Watchers.PerformKeeps | lib/python/pika/adapters/utils/selector_ioloop_adapter.py:246-369 | every operation keeps the watcher map, the handlers, the READ, WRITE and ERROR sets and the registered masks in agreement for every descriptor |
| Watchers.DispatchJustified | lib/python/pika/adapters/select_connection.py:876-907 | whatever callbacks change, a pass calls only present callbacks of watchers that have been on the map since it began, for events that were reported and are still watched |
| Watchers.DispatchServes | lib/python/pika/adapters/select_connection.py:876-907 | a descriptor that no callback changes gets exactly the calls that its reported events call for, the writer before the reader |
| Watchers.RunsAgree | lib/python/pika/adapters/utils/selector_ioloop_adapter.py:246-369 | after every run of operations and dispatch passes the tables agree, and the calls of the next pass are justified |
| Watchers.PerformSets | lib/python/pika/adapters/utils/selector_ioloop_adapter.py:246-369 | an operation sets or removes its callback and leaves the other one, the watcher object and all other descriptors as they were |
| Watchers.LastSetIsCalled | lib/python/pika/adapters/utils/selector_ioloop_adapter.py:246-406 | the callback set last, one that replaces another included, is the one that the next event calls; one removed is not called |
| Watchers.ReaderPerforms | lib/python/pika/adapters/utils/selector_ioloop_adapter.py:371-406 | after a pass that calls one reader, what the reader does has been done |
| Watchers.WriterPerforms | lib/python/pika/adapters/utils/selector_ioloop_adapter.py:371-406 | the same for a writer |
| WatcherObjects.Adapter.SetReader | lib/python/pika/adapters/utils/selector_ioloop_adapter.py:246-274 | adds, updates or replaces the reader; the tables agree |
| WatcherObjects.Adapter.RemoveReader | lib/python/pika/adapters/utils/selector_ioloop_adapter.py:276-305 | removes the reader, and the watcher with its last callback; its assertion holds and the tables agree |
| WatcherObjects.Adapter.SetWriter | lib/python/pika/adapters/utils/selector_ioloop_adapter.py:307-337 | adds, updates or replaces the writer; the tables agree |
| WatcherObjects.Adapter.RemoveWriter | lib/python/pika/adapters/utils/selector_ioloop_adapter.py:339-369 | removes the writer, and the watcher with its last callback; its assertion holds and the tables agree |
| WatcherObjects.Adapter.OnReaderWriterFdEvents | lib/python/pika/adapters/utils/selector_ioloop_adapter.py:371-406 | calls the writer, then the reader if the object still has one; calls and new state are given |
| WatcherObjects.Adapter.AddHandler | lib/python/pika/adapters/select_connection.py:695-707 | adds the handler, its events and its registration |
| WatcherObjects.Adapter.UpdateHandler | lib/python/pika/adapters/select_connection.py:709-724 | changes the events and the registration |
| WatcherObjects.Adapter.RemoveHandler | lib/python/pika/adapters/select_connection.py:726-741 | removes the handler everywhere, the pass in progress included |
| WatcherObjects.Adapter.SetHandlerEvents | lib/python/pika/adapters/select_connection.py:743-766 | each set has the descriptor exactly if the mask has the event |
| WatcherObjects.Adapter.DispatchFdEvents | lib/python/pika/adapters/select_connection.py:876-907 | the loop over the event map makes the specified calls |
| Workflow.RefinesNestedLoop | lib/python/pika/adapters/utils/connection_workflow.py:542-551 | the callback-driven workflow makes the pauses, lookups and attempts of the documented nested loop, in that order, then calls `on_done` exactly once with the loop's result |
| Workflow.AttemptsInOrder | lib/python/pika/adapters/utils/connection_workflow.py:716-866 | attempts are made in cycle, configuration and address order, each at most once, and an attempt succeeds if and only if it is the last and the one reported |
| WorkflowFails.EverythingTried | lib/python/pika/adapters/utils/connection_workflow.py:732-866 | when nothing succeeds every host of every cycle is looked up until a lookup of the cycle fails, every address found is attempted, only the first cycle has no pause, and the report has exactly the failures met |
| Workflow.AbortedClassExactly | lib/python/pika/adapters/utils/connection_workflow.py:831-866 | `on_done` is given the exception class, not an instance, if and only if the workflow was to stop at the first AMQP attempt and that attempt, its last action, was aborted in the handshake |
| Workflow.AbortedClassOccurs | lib/python/pika/adapters/utils/connection_workflow.py:853-858 | a workflow that reports the class |
| Workflow.StepDescends | lib/python/pika/adapters/utils/connection_workflow.py:732-866 | each completed callback lowers (attempts left, configurations left, addresses left) lexicographically |
| Workflow.StepContinues | lib/python/pika/adapters/utils/connection_workflow.py:732-866 | each callback does what the nested loop would do next |
| WorkflowObject.AMQPConnectionWorkflow.StartNewCycleAsync | lib/python/pika/adapters/utils/connection_workflow.py:732-758 | without attempts left it reports failure; otherwise it uses one up and waits; as a pending callback it keeps the invariant and lowers the measure |
| WorkflowObject.AMQPConnectionWorkflow.TryNextConfigAsync | lib/python/pika/adapters/utils/connection_workflow.py:760-788 | looks up the next configuration, or starts a new cycle after the last; as a pending callback it keeps the invariant and lowers the measure |
| WorkflowObject.AMQPConnectionWorkflow.OnGetaddrinfoAsyncDone | lib/python/pika/adapters/utils/connection_workflow.py:790-807 | a failed lookup ends the cycle; as a pending callback it keeps the invariant and lowers the measure |
| WorkflowObject.AMQPConnectionWorkflow.TryNextResolvedAddress | lib/python/pika/adapters/utils/connection_workflow.py:809-829 | attempts the next address, or goes on to the next configuration |
| WorkflowObject.AMQPConnectionWorkflow.OnConnectorDone | lib/python/pika/adapters/utils/connection_workflow.py:831-866 | success stops, an AMQP handshake failure may stop, other failures go on; as a pending callback it keeps the invariant and lowers the measure |
| WorkflowObject.RunWorkflow | lib/python/pika/adapters/utils/connection_workflow.py:619-866 | run to its end, the object does what the nested loop does and reports once |
| DeliveryRuns.DeliveryConservation | lib/python/pika/adapters/blocking_connection.py:1452-1520 | in every run on an open channel each delivery to a manual-acknowledge consumer is in exactly one place, once: handed over, rejected or pending |
| DeliveryRuns.HandedInOrder | lib/python/pika/adapters/blocking_connection.py:1499-1520 | in every run the deliveries handed over are in delivery order, for each consumer and overall, and no assertion fails or consumer is missed |
| DeliveryRuns.NothingPendingAfterCancel | lib/python/pika/adapters/blocking_connection.py:1767-1827 | once `basic_cancel` returns nothing of the consumer is pending or registered, even if a cancel by the broker races it |
| DeliveryEffects.DeliveryGoes | lib/python/pika/channel.py:1137-1159 | a delivery is queued, unless its consumer is being cancelled: then it is rejected, or dropped if acknowledged automatically |
| DeliveryEffects.CancellationGoes | lib/python/pika/adapters/blocking_connection.py:1428-1450 | a cancel by the broker queues the cancellation event and forgets a consumer that is not being cancelled |
| DeliveryEffects.AnswersTaken | lib/python/pika/channel.py:1043-1050 | ConsumeOk and CancelOk have their effect on the consumer and on nothing else |
| DeliveryEffects.ConsumerBecomesActive | lib/python/pika/adapters/blocking_connection.py:1653-1729 | whatever frames arrive meanwhile, `basic_consume` ends with the consumer active and served, unless the broker cancels it |
| DeliveryEffects.CancelRejects | lib/python/pika/adapters/blocking_connection.py:1767-1800 | `basic_cancel` rejects exactly the pending deliveries of a manual consumer and asks the broker if it still has the consumer |
| DeliveryEffects.DispatchHands | lib/python/pika/adapters/blocking_connection.py:1499-1520 | dispatch hands over every delivery that waits, in order, and forgets the consumers whose cancellation was queued |
| DeliveryEffects.DeliveryHanded | lib/python/pika/adapters/blocking_connection.py:821-851 | a delivery to an active consumer is handed over by the next `process_data_events` |
| DeliveryEffects.CancellationHanded | lib/python/pika/adapters/blocking_connection.py:821-851 | a consumer cancelled by the broker is gone after the next `process_data_events` |
| DeliveryEffects.CancelInsideCallback | lib/python/pika/adapters/blocking_connection.py:1499-1520 | a call inside a callback is carried out: a consumer cancelled by its own callback is gone afterwards |
| Deliveries.ReceiveKeeps | lib/python/pika/channel.py:1137-1159 | every frame, while calls wait or not, keeps the books |
| Deliveries.CancelKeeps | lib/python/pika/adapters/blocking_connection.py:1731-1827 | `basic_cancel` keeps the books and its assertions hold |
| Deliveries.ConsumeKeeps | lib/python/pika/adapters/blocking_connection.py:1653-1729 | `basic_consume` keeps the books |
| Deliveries.DispatchKeeps | lib/python/pika/adapters/blocking_connection.py:1499-1520 | dispatch empties the queue, whatever consumers callbacks add, cancel or receive for |
| DeliveryRuns.AutomaticCancelReturns | lib/python/pika/adapters/blocking_connection.py:1731-1827 | for an automatic consumer what was pending at the call is returned; a delivery is lost if and only if one arrives while the broker still serves the consumer |
| DeliveryRuns.AutomaticCancelLoses | lib/python/pika/adapters/blocking_connection.py:1738-1744 | a run that loses such a delivery, against the documentation |
| Deliveries.WithoutIs | lib/python/pika/adapters/blocking_connection.py:1829-1857 | taking out a consumer's events separates its deliveries from the rest and keeps the order |
| BlockingChannelObject.BlockingChannel.OnDeliver | lib/python/pika/channel.py:1137-1159 | a delivery to a cancelled consumer is rejected or dropped, any other is queued and a dispatch requested |
| BlockingChannelObject.BlockingChannel.OnConsumerCancelledByBroker | lib/python/pika/adapters/blocking_connection.py:1428-1450 | marks the consumer, unless it is being cancelled, and queues the event |
| BlockingChannelObject.BlockingChannel.RemovePendingDeliveries | lib/python/pika/adapters/blocking_connection.py:1829-1857 | the loop takes out exactly the consumer's deliveries and discards its cancellation |
| BlockingChannelObject.BlockingChannel.BasicConsume | lib/python/pika/adapters/blocking_connection.py:1653-1729 | registers the consumer on both levels, waits, and activates it unless the broker cancelled it meanwhile |
| BlockingChannelObject.BlockingChannel.BasicCancel | lib/python/pika/adapters/blocking_connection.py:1731-1827 | rejects, requests, waits and removes; the messages returned are exactly those of an automatic consumer still pending |
| BlockingChannelObject.BlockingChannel.DispatchEvents | lib/python/pika/adapters/blocking_connection.py:1499-1520 | the loop hands over event after event, reading the queue afresh after every callback, until it is empty |
| BlockingChannelObject.BlockingChannel.ProcessDataEvents | lib/python/pika/adapters/blocking_connection.py:821-851 | dispatches as the owner of the dispatcher |
| BlockingChannelObject.BlockingChannel.DispatchChannelEvents | lib/python/pika/adapters/blocking_connection.py:541-567 | clears the request and dispatches exactly when no caller higher up owns the dispatcher |
| BlockingChannelObject.BlockingChannel.PerformNested | lib/python/pika/adapters/blocking_connection.py:385-401 | a call inside a callback does not own the dispatcher, and does not dispatch |
| SlowAck.CounterBounded | slow_ack_consumer.py:73-93 | under every interleaving of the dispatcher with any number of workers `held_count` stays within 0 and MAX_HELD, and is the increments less the decrements and the number of unreleased workers |
| SlowAck.NoDoubleAck | slow_ack_consumer.py:46-56 | under every interleaving no delivery tag is acknowledged twice |
| SlowAck.QuietMeansAllAcked | slow_ack_consumer.py:46-93 | when an open channel comes to rest, every message has been acknowledged, exactly once |
| SlowAck.MessageHandled | slow_ack_consumer.py:73-93 | a message is held, by a worker of its own, if and only if fewer than 1000 are held, and acknowledged at once otherwise |
| SlowAck.WorkerHandled | slow_ack_consumer.py:46-90 | a worker's message is acknowledged, if the channel is open, and no longer held |
| SlowAck.StepKeeps | slow_ack_consumer.py:73-93 | every atomic action keeps the counter and the place of every tag |
| SlowAckObject.Consumer.CheckHeld | slow_ack_consumer.py:73-75 | the dispatcher, being idle, reads the counter; counter exact and within bounds, tags in one place (the invariant) |
| SlowAckObject.Consumer.AckOrHold | slow_ack_consumer.py:77-82 | acknowledges at MAX_HELD; otherwise holds, and then the counter is below MAX_HELD whatever the workers did since it was read; keeps the invariant |
| SlowAckObject.Consumer.IncrementHeld | slow_ack_consumer.py:84-85 | counts the message; the counter is then between 1 and MAX_HELD; keeps the invariant |
| SlowAckObject.Consumer.StartThread | slow_ack_consumer.py:87-93 | a worker starts with the counted tag; keeps the invariant |
| SlowAckObject.Consumer.HoldAndAck | slow_ack_consumer.py:51-54 | a worker hands its acknowledgement to the connection; keeps the invariant |
| SlowAckObject.Consumer.DecrementHeld | slow_ack_consumer.py:87-90 | the counter goes down by one and is then between 0 and MAX_HELD - 1; keeps the invariant |
| SlowAckObject.Consumer.AckMessage | slow_ack_consumer.py:46-48 | acknowledges, on an open channel, a tag that has not been acknowledged; keeps the invariant |

## Left out

- Operating-system calls, `select`, `epoll` and `kqueue`, the TLS library, DNS threads and logging: only their outcomes occur.
- The `asyncio`, `gevent`, `tornado` and `twisted` adapters, URL parameters, other parameter setters than that of `frame_max`, and credentials: wrappers.
- Method classes without content: such a method keeps its arguments as undecoded bytes; a few content methods stand for all.
- Recursion depth limits of Python in nested tables, and memory limits.
- `Decimal` context rounding, NaN and negative zero; other floats are decoded exactly, by truncation as the code does.
- `dict` as a hash table: a dict is its entries in insertion order; text is its UTF-8 bytes.
- The 14 unrolled blocks of `BasicProperties` are one loop over the list of properties.
- The chunk count of a body is the exact integer ceiling, without the rounding of floats beyond 2 to the 53.
- Heartbeat bookkeeping; what the callbacks do that take method frames from the stream.
- Publisher.Output.OnConnectionTune: the channel maximum and the heartbeat of Tune, the TuneOk reply, and Open.
- Stream.Connection.ProcessFrame: the assembler of a channel is a value in the map, not a shared object; which callbacks are registered when a frame arrives is an input there.
- Callbacks that raise; the RabbitMQ extensions of the channel other than cancel notification.
- ChannelObject.Channel.Rpc: the channel keeps its own slice of the callback registry instead of sharing the manager's object.
- Handlers of the channel without effect on it (`_on_eventok`, `_on_getempty`, `_on_flow`) are treated as user callbacks.
- Application code that runs between the loss of the stream and a channel's own notification of it.
- Heartbeat and blocked-connection timers, and the reset of a connection's fields for reuse after its stream is gone; opening it beyond `OpenOk`.
- User-supplied channel numbers that are already taken.
- Heap.Push: `heapq` is modelled by sifting in a sequence, with the contract of `heapq`, not its order of comparisons; times are integers.
- `_Timer.close` and the other operations on a timer that is closed.
- `_FileDescriptorCallbacks` objects are values with an identity in the watcher map; nested dispatch passes and the wake-up socket are not modelled.
- `AMQPConnector` inside the workflow: an attempt is its outcome. Both `abort` methods of the workflow.
- A delivery to a channel that is closing or closed; the `consume` generator; returned messages and publisher confirms of a blocking channel.
- SlowAck.CounterBounded: the random delay, and an acknowledgement that fails because the channel closes in the middle of `on_message`.

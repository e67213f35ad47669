# A verified model of an SMPP gateway

This project models the core of go-smsc, a store-and-forward gateway between SMPP engines (north) and
downstream SMSCs (south), and proves properties of it in Dafny. `dafny verify dfyconfig.toml` checks all of it.

The model has four parts.

- **Message lifecycle.** `Sessions`, `Southbound` and `Northbound` describe the gateway as a state machine. One
  step is one atomic access to shared state: a map, a channel, a counter, the durable queue. Steps of all
  goroutines interleave freely. `Gateway` joins them and states what holds after every run. `Conservation`,
  `Retrying`, `Outcomes`, `InFlight` and `Affinity` hold one invariant each. `Exhaustion` counts the retries of a
  message exactly, `Correlations` and `Reports` show that receipts find their message and that none disappears,
  `Progress` shows that no message is ever stuck, and `SampleRuns` shows runs that reach both outcomes.
- **Text coding and segmentation.** `GsmAlphabet`, `Gsm7`, `Ucs2`, `Coding`, `Segmentation`, `PartCount`,
  `Transport` and `Reassembly` cover the 7-bit packing of 3GPP TS 23.038 (sections 6.1.2.1 and 6.2.1), UTF-16BE, the greedy
  split, the concatenation header of 3GPP TS 23.040 (section 9.2.3.24.1), and what a receiver gets back.
- **Wire codec.** `Tlv`, `Fields`, `Pdu` and `ShortMessage` cover PDU framing, mandatory-field walkers, optional
  parameters, body builders and parsers, and the source-address rewrite (sections 3.2, 4.4.1, 4.6.1 and 5.3.2 of
  SMPP v3.4). `Receipts` covers receipt parsing and message-ID translation.
- **Refinement cores.** `KeyOrder` and `RetryStore` (ordered keys and the northbound retry queue), `Routing`,
  `ShardMap`, and `Pending` (response matching and the submit window).

`Octets`, `Seqs` and `Options` are shared definitions. Fields named as history (`place`, `flight`, `origin`,
`owner`, `overflow`, `unheard`, `log`, `sent`, `lost`, `latest`, `torn`) record what happened; no step looks at them to decide what to
do, except that `owner` makes downstream message IDs unique and `torn` ends a session.

## Assumptions

- Downstream message IDs are non-empty and unique across pools.
- System IDs are non-empty, and each session binds once.
- The store is present and its writes succeed.
- One run of one process, without a crash. Time is a parameter of the steps that read the clock.
- Text is a sequence of Unicode scalar values. Costs are real numbers.
- The choice of a route, the outcome of every write to a peer, and which pools are healthy are inputs.

## Where the code does less than one might expect

Each item names the lemma with the exact condition, and one at an input that fails.

- Generic decoding of 7-bit data adds a carriage return when 7 of the last 8 septets are used
  (`Coding.CarriageReturnAdded`; seven letters: `Coding.SevenLettersGainOne`).
- A message that needs more than 255 parts is cut short by the receiver, because part numbers are one octet: beyond
  17085 UCS-2 characters, or 39015 basic 7-bit characters (`Reassembly.ReassemblesIffAtMost255`,
  `Reassembly.Ucs2Limit`, `Reassembly.BasicLimit`). One character more and nothing arrives
  (`Reassembly.Ucs2TextLost`, `Reassembly.Gsm7TextLost`).
- UCS-2 limits count characters, so characters beyond the BMP overflow a segment (`Reassembly.Ucs2MessageFits`,
  `Reassembly.Ucs2BeyondBmpOverflows`).
- TLVs after an empty C-string-only response body are not found again (`Pdu.PduRoundTrip`, `Pdu.ParameterLost`).
- A downstream ID that contains a status or error field, or an error field that runs into the ID, changes those
  fields in translation (`Receipts.StatusKept`, `Receipts.ErrorKept`; two such receipts: `Receipts.StatusCanChange`,
  `Receipts.ErrorCanChange`).
- A prefix scan visits extra keys when the prefix ends in 0xFF (`KeyOrder.ScanExact`, `KeyOrder.StrayVisited`).
- A re-queued northbound entry can overwrite another one with the same key, and then the counter stays too high
  (`RetryStore.DrainOnce`, `RetryStore.OneOfTwoLost`). That and expiry are the only ways in which an engine never
  learns of a failure (`Reports.FailedIsReported`, `Reports.LostOnlyInQueue`).
- The counter of the submit-retry queue is updated after the queue, so it can be -1 for an empty queue
  (`Gateway.RetryCounterOff`, `SampleRuns.CounterBelowZero`).
- The length of the sharded map can be negative while operations overlap (`ShardMap.Linearizable`,
  `ShardMap.LengthCanBeNegative`).
- A request is forgotten when its sequence number is used again while it waits, when it registers after a
  disconnect, or when the client is closed around it (`Pending.ForgottenIff`, `Pending.ReuseForgets`,
  `Pending.LateRegistrationForgets`).

## Model

| member | source | states |
|---|---|---|
| `Gateway.RunKeepsInv` | gateway/router.go:404-602 | In every state that any interleaving of submits, workers, the drainer, deliveries, binds and teardowns can reach, the combined invariant of places, budgets, outcomes, counters, origins and receipts holds |
| `Gateway.Conserved` | gateway/router.go:404-602 | After any run, each accepted message sits in exactly one place: being enqueued, in the channel, at one worker, in the durable queue, at the drainer, forwarded, or failed with a synthetic receipt |
| `Gateway.NothingElse` | gateway/router.go:404-602 | After any run, whatever sits in a queue, at a goroutine or in the log is an accepted message |
| `Gateway.InFlightExact` | gateway/router.go:450-474 | After any run, each session's in-flight counter is the number of messages that its submits, the channel and the workers carry for it |
| `Gateway.CarriedOnce` | gateway/router.go:450-474 | A message counts for one session and through one carrier |
| `Gateway.AttemptsBounded` | gateway/router.go:1044-1065 | At most 1 + maxSubmitRetries southbound attempts, and at most maxSubmitRetries if the channel was full at submit; the exact numbers are in `Exhaustion` |
| `Exhaustion.FailedIsExhausted` | gateway/router.go:1044-1065 | A message that failed went into the durable queue exactly maxSubmitRetries times (never if that is not positive), and its attempts, its turns without a route and a full channel at submit make one more |
| `Exhaustion.FailedAttemptsExact` | gateway/router.go:1145-1189 | Without turns that found no route a failed message was attempted exactly 1 + maxSubmitRetries times, once less if the channel was full at submit |
| `Exhaustion.ForwardedTurns` | gateway/router.go:1145-1189 | A forwarded message used one turn more than it went into the durable queue |
| `Exhaustion.RunAccounted` | gateway/router.go:1044-1065 | After any run the queueings, attempts and turns without a route of a message are those its place calls for, with the RetryCount it carries |
| `Exhaustion.StepBalanced` | gateway/router.go:1145-1189 | Every southbound step keeps that account |
| `Gateway.RunInBounds` | gateway/router.go:456-474 | After any run the channel holds no more than its size and only started workers hold a message |
| `Gateway.OneOutcome` | gateway/router.go:1145-1234 | Successful attempts and synthetic receipts of a message together number at most one |
| `Gateway.OutcomeFinal` | gateway/router.go:1145-1234 | No step moves a message that was forwarded or has failed |
| `Gateway.MovesBounded` | gateway/router.go:1044-1065 | In any run a message changes place at most 2 * maxSubmitRetries + 4 times |
| `Gateway.RetryCounterOff` | gateway/store.go:292-348 | After any run the counter of the submit-retry queue is its size, plus committed deletions not yet subtracted, minus writes not yet added; it is right exactly when those are equally many |
| `Gateway.ReceiptsGoHome` | gateway/router.go:806-938 | Every real or synthetic receipt ever written to an engine, directly or after any buffering, went to the engine that submitted the message |
| `Gateway.ReceiptsAddressed` | gateway/router.go:806-938 | Every receipt underway is marked as one and addressed to the submitting engine; only a message whose submit found no session may have an empty address, which is never registered |
| `Gateway.UnheardAtLookup` | gateway/router.go:404-474 | A task in the channel or at a worker has no session exactly when its message was submitted while none was registered |
| `Gateway.ReceiptsNameTheirMessage` | gateway/router.go:624-661 | Correlations and stored records lead a downstream ID to the message that was given that ID |
| `Reports.FailedIsReported` | gateway/router.go:1040-1065 | Engines learn of every failure: after any run the receipt of a failed message was written to the engine that submitted it, or is being delivered, buffered or drained, or was overwritten or expired in the queue |
| `Reports.ReceiptKept` | gateway/router.go:806-938 | Once there is a receipt for a message, real or synthetic, no continuation of the run makes it disappear in any other way |
| `Reports.LostOnlyInQueue` | gateway/store.go:223-289 | A step loses a receipt only by expiry or by writing over its key |
| `Reports.FailureNotifies` | gateway/router.go:1070-1123 | A message fails only in a step that starts the delivery of its failure receipt |
| `Reports.ReceiptRelayed` | gateway/router.go:624-706 | After any run, a receipt for a correlated or recorded downstream ID is started, and if the engine that submitted the message is registered the first delivery writes it to that engine |
| `Reports.CallIsRelayed` | gateway/router.go:806-811 | After any run, the first delivery of any receipt writes it to the submitting engine if that is registered |
| `Reports.BufferedIsRelayed` | gateway/router.go:904-938 | After any run, the drain writes a buffered receipt to the submitting engine once that is registered |
| `Correlations.CorrelationKept` | gateway/router.go:544-571 | After any run, every downstream ID given to a message is correlated, or still in the hands of the goroutine that got it, or was removed; the same of the durable records |
| `Correlations.ForwardedIsAnswered` | gateway/router.go:544-706 | After any run, a receipt for the downstream ID of a message reaches the registered engine that submitted it, unless its correlation was removed |
| `Correlations.GatewayIdKept` | gateway/router.go:404-425 | After any run that did not remove it, the gateway ID of an accepted message is correlated with the engine that submitted it, even if no session was found at the submit |
| `Gateway.RegistryCurrent` | gateway/server.go:259-267 | An ID is registered exactly while the last session that bound under it is up, and it is that session |
| `Conservation.StepKeepsPlaces` | gateway/router.go:404-602 | Every southbound step keeps every message in exactly the place recorded for it |
| `Conservation.RetryOrFailPlaces` | gateway/router.go:1044-1065 | A message that was taken out of its place is put into exactly one place, and no queue entry is overwritten |
| `Conservation.OthersUntouched` | gateway/router.go:404-602 | A step changes the record of no message but its own |
| `Retrying.StepKeepsBudget` | gateway/router.go:1145-1189 | Attempts made and retries counted stay within the budget of each stage |
| `Outcomes.StepKeepsOnce` | gateway/router.go:1044-1065 | Each outcome is logged at most once per message |
| `Outcomes.StepCloser` | gateway/router.go:1145-1189 | Every step leaves a message where it is or lowers a measure built on maxSubmitRetries minus RetryCount |
| `Outcomes.RankBounds` | gateway/router.go:1044-1065 | The measure is between 0 and 2 * maxSubmitRetries + 4, and 0 exactly at an outcome |
| `InFlight.StepKeepsFlight` | gateway/connection.go:426-428 | Every step keeps each in-flight counter equal to the number of messages carried for that session |
| `Affinity.SouthKeepsOrigin` | gateway/router.go:404-602 | Every southbound step keeps the submitting engine with the message, and tells the northbound side nothing else |
| `Affinity.NorthKeepsNorth` | gateway/router.go:607-723 | Every northbound step keeps receipts marked as receipts and addressed to the submitting engine |
| `Progress.CanFinish` | gateway/router.go:483-602 | After any run, every accepted message has a continuation in which it is forwarded or has failed; with the bounded moves, no message can go on without an end |
| `Progress.Do` | gateway/router.go:404-602 | A southbound step that is not blocked can be taken in the whole gateway and brings no message further from its outcome |
| `Progress.RunKeepsLive` | gateway/server.go:161-171 | A session with a submit under way is bound and not torn down |
| `SampleRuns.CounterBelowZero` | gateway/store.go:298-345 | A worker between its write and its count, with a drain in between: the counter of the empty queue is -1 |
| `SampleRuns.Forwards` | gateway/router.go:483-602 | For every system ID and channel with room there is a run that forwards a message |
| `SampleRuns.Fails` | gateway/router.go:1070-1123 | Without retries there is a run in which a message fails and its engine is sent the synthetic receipt |
| `Sessions.BindKeepsCurrent` | gateway/server.go:194-237 | Binding keeps the registry at the latest live session of each ID |
| `Sessions.TeardownKeepsCurrent` | gateway/server.go:161-171 | Teardown keeps it too |
| `Sessions.TeardownSparesOthers` | gateway/server.go:161-171 | The teardown of an old session never unregisters its replacement |
| `Sessions.Server.OnBind` | gateway/server.go:194-237 | The new session is registered, its disconnect time cleared, and an ID keeps a disconnect time exactly while it was bound before and has no session |
| `Sessions.Server.TearDown` | gateway/server.go:161-171 | Only the active session is unregistered, with its disconnect time |
| `Sessions.Server.Lookup` | gateway/server.go:259-267 | The lookup finds the last session to bind under the ID unless it was torn down |
| `GsmAlphabet.BasicTablesInverse` | smpp/coding.go:28-81 | The basic table and its inverse agree, with the escape code left out |
| `GsmAlphabet.ExtensionTablesInverse` | smpp/coding.go:52-81 | The extension table and its inverse agree, and no extended character is basic |
| `GsmAlphabet.GsmValid` | smpp/coding.go:28-81 | The shipped tables meet what the coding theorems ask of an alphabet, with the carriage return at its code |
| `GsmAlphabet.AsciiKept` | smpp/coding.go:28-50 | Letters, digits, space and line ends have their ASCII codes as septets |
| `Gsm7.EncodeGsm7` | smpp/coding.go:111-160 | Fails exactly on texts with a character outside the alphabet; otherwise the packed octets and the septet count |
| `Gsm7.PackSeptets` | smpp/coding.go:126-157 | The in-place bit packing with its carriage-return padding gives the packed form |
| `Gsm7.PackUnique` | smpp/coding.go:126-157 | The packed form is the only octet string whose bit stream is the padded septet stream |
| `Gsm7.DecodeGsm7` | smpp/coding.go:164-202 | The bit extraction and the escape loop compute the text of the unpacked septets, or fail when the data is too short |
| `Gsm7.CharCountIsSeptetCount` | smpp/segment.go:52-62 | The character count equals the number of septets encoded |
| `Gsm7.CountedRoundTrip` | smpp/coding.go:111-202 | Decoding with the right count gives back every encodable text |
| `Gsm7.GuessedRoundTrip` | smpp/coding.go:305-311 | Decoding with the count guessed from the length gives the text, plus a carriage return exactly when the count is 7 modulo 8 |
| `Ucs2.EncodeUcs2` | smpp/coding.go:209-217 | The buffer holds the UTF-16 units in big-endian order |
| `Ucs2.DecodeUcs2` | smpp/coding.go:220-230 | Fails exactly on odd lengths; otherwise the decoded units, with replacement characters for lone surrogates |
| `Ucs2.RoundTrip` | smpp/coding.go:209-230 | Decoding the encoding gives back every text |
| `Ucs2.CharacterOctets` | smpp/coding.go:209-217 | A character is its two octets, most significant first, or beyond the BMP the four octets of its surrogates |
| `Coding.RoundTrip` | smpp/coding.go:286-323 | For 7-bit and UCS-2 the generic dispatch gives back every encodable text with what decoding adds |
| `Coding.CarriageReturnAdded` | smpp/coding.go:305-311 | What decoding adds is one carriage return or nothing |
| `Coding.SevenLettersGainOne` | smpp/coding.go:305-311 | With the shipped tables seven letters come back with a carriage return |
| `Coding.DetectCoding` | smpp/coding.go:328-337 | Chooses 7-bit exactly when 7-bit encoding would succeed, and always a coding that succeeds |
| `Segmentation.Gsm7CharCount` | smpp/segment.go:52-62 | The septet count, or -1 exactly for texts outside the alphabet |
| `Segmentation.SplitTextBySeptets` | smpp/segment.go:161-181 | Parts are non-empty, join to the text, stay within the limit, and each is closed only when the next character does not fit |
| `Segmentation.GreedyAhead` | smpp/segment.go:161-181 | After any number of parts the greedy split has covered at least as much text as any other split |
| `Segmentation.GreedyIsShortest` | smpp/segment.go:161-181 | No split on character boundaries has fewer parts |
| `Segmentation.GreedyPartsFull` | smpp/segment.go:161-181 | Every part but the last holds the limit or one septet less |
| `PartCount.GreedyTally` | smpp/segment.go:161-181 | A count over the characters of the text gives the number of parts of the greedy split and the septets of its last part |
| `PartCount.BasicTally` | smpp/segment.go:161-181 | Without extension characters every part but the last is full |
| `PartCount.ChunkAt` | smpp/segment.go:235-245 | Chunk i is the stretch of the text from 67 i on |
| `Segmentation.SplitRuneChunks` | smpp/segment.go:235-245 | Chunks join to the text, and all but the last are full |
| `Transport.AnyOrderDelivers` | smpp/segment.go:256-269 | Up to 255 parts, a receiver that sorts by the header octets recovers the payloads from any order of arrival |
| `Transport.AmongOthersDelivers` | smpp/segment.go:256-269 | Also when segments of messages with other references arrive in between, in any order |
| `Transport.PartLabel` | smpp/segment.go:131-154 | A receiver reads from the header of part i the low octet of the reference, of the total and of i + 1 |
| `Transport.HeaderOctets` | smpp/segment.go:256-269 | The header is 05 00 03, then reference, total and number, then the payload |
| `Transport.SameReference` | smpp/segment.go:131-154 | All parts of a message carry one reference octet |
| `Transport.ReferencesRecur` | smpp/segment.go:40-44 | Two messages travel under one reference exactly when a multiple of 256 calls lies between them with a header, of 65536 without |
| `Transport.InOrderDelivers` | smpp/segment.go:131-154 | Whatever their number, parts in order are recovered up to the total announced in their headers |
| `Transport.NumbersFit` | smpp/segment.go:131-154 | The headers carry the true numbers and total of all parts exactly up to 255 parts |
| `Reassembly.SplitGsm7` | smpp/segment.go:107-157 | Succeeds exactly on encodable texts, with one segment up to 160 septets and greedy parts of 153 otherwise |
| `Reassembly.SplitUcs2` | smpp/segment.go:184-232 | One segment up to 70 characters, chunks of 67 otherwise |
| `Reassembly.SplitMessage` | smpp/segment.go:91-104 | Fails exactly on empty text, other codings and unencodable text |
| `Reassembly.PartsCounted` | smpp/segment.go:107-232 | The number of parts, and the carriage return that decoding the last one adds, are those computed from the text |
| `Reassembly.AnyOrderReassembles` | smpp/segment.go:107-269 | For a text that needs at most 255 segments, whatever the order of arrival, stripping headers, decoding each part and joining gives the text, plus a carriage return exactly when the last part has 7 modulo 8 septets |
| `Reassembly.AmongOthersReassembles` | smpp/segment.go:107-269 | Also among segments of messages with other references |
| `Reassembly.ReassemblesIffAtMost255` | smpp/segment.go:131-154 | Segments in order give the text back if and only if the text needs at most 255; beyond, a proper prefix of the text arrives |
| `Reassembly.Ucs2Limit` | smpp/segment.go:184-232 | For UCS-2 that is at most 17085 characters |
| `Reassembly.Gsm7Limit` | smpp/segment.go:107-157 | For 7-bit it is the texts that some split on character boundaries cuts into 255 parts |
| `Reassembly.BasicLimit` | smpp/segment.go:107-157 | Without extension characters it is at most 39015 characters |
| `Reassembly.Ucs2TextLost` | smpp/segment.go:184-232 | 17086 characters go out as 256 segments, from which nothing is received |
| `Reassembly.Gsm7TextLost` | smpp/segment.go:107-157 | 39016 basic characters go out as 256 segments, from which nothing is received |
| `Reassembly.Gsm7SegmentsFit` | smpp/segment.go:68-79 | Every 7-bit segment is at most 140 octets |
| `Reassembly.Gsm7SingleIff140` | smpp/segment.go:113-126 | A text goes out as one segment exactly when its packed septets fit 140 octets |
| `Reassembly.Gsm7PartLimit` | smpp/segment.go:68-79 | 153 is the most septets that fit 140 octets after the header |
| `Reassembly.Ucs2SegmentFits` | smpp/segment.go:184-245 | A UCS-2 segment is at most 140 octets exactly when its stretch of the text has at most 70 units, or 67 with a header |
| `Reassembly.Ucs2MessageFits` | smpp/segment.go:184-245 | All segments are at most 140 octets exactly when every stretch of the text fits |
| `Reassembly.Ucs2BmpSegmentsFit` | smpp/segment.go:184-245 | Every UCS-2 segment of a text within the BMP is at most 140 octets |
| `Reassembly.Ucs2BeyondBmpOverflows` | smpp/segment.go:184-200 | Seventy characters beyond the BMP go out as one segment of 280 octets |
| `Tlv.SortTags` | smpp/tlv.go:190-201 | The tags in ascending order, each once |
| `Tlv.Encode` | smpp/tlv.go:190-218 | The buffer holds the triples of the set in ascending tag order |
| `Tlv.TripleOctets` | smpp/tlv.go:204-218 | A parameter is tag, length modulo 65536 and value, most significant octets first |
| `Tlv.Deterministic` | smpp/tlv.go:190-218 | A set has one encoding |
| `Tlv.DecodeTlvs` | smpp/tlv.go:263-285 | Reads triples to the end of the data and fails on a truncated one |
| `Tlv.RoundTrip` | smpp/tlv.go:190-285 | Decoding the encoding gives back the set exactly when every value is under 65536 octets |
| `Fields.WalkSerialized` | smpp/pdu_fields.go:8-74 | A walker reads back every list of field values it can hold and leaves what follows |
| `Fields.WalkAccepts` | smpp/pdu_fields.go:8-74 | Whatever a walker accepts is the serialization of the values it read, and the rest |
| `Fields.SuffixIgnored` | smpp/pdu_fields.go:8-74 | Octets after an accepted body do not change its length |
| `Fields.SkipCString` | smpp/pdu_fields.go:218-230 | The offset after the terminator, or -1 without one |
| `Fields.MandatoryLenSubmitDeliverSm` | smpp/pdu_fields.go:85-157 | The offset-advancing walker computes the length that the field layout gives, or -1 |
| `Pdu.Pdu.Encode` | smpp/pdu.go:55-73 | Header with the stored total length, body, then the TLVs of the set |
| `Pdu.FrameRoundTrip` | smpp/pdu.go:75-94 | The header and all octets it covers are read back, whatever follows them |
| `Pdu.HeaderOctets` | smpp/pdu.go:60-66 | The header is length, command, status and sequence number, each four octets, most significant first |
| `Pdu.PduRoundTrip` | smpp/pdu_fields.go:630-641 | For a body that the walker accepts as a whole, the TLVs are extracted again exactly when their values are under 65536 octets and the body delimits itself or there are none |
| `Pdu.ParameterLost` | smpp/pdu_fields.go:630-641 | A submit_sm_resp with an empty body and any one parameter does not give the parameter back |
| `ShortMessage.ReadCString` | smpp/pdu.go:106-119 | The octets up to a NUL or the end, and the offset after it; an offset past the data is returned as it is |
| `ShortMessage.ParseDeliverSmByOffset` | smpp/pdu.go:190-292 | The offset-advancing parser computes the lenient reading of the body, truncated bodies included |
| `ShortMessage.StrictImpliesLenient` | smpp/pdu.go:190-292 | Whenever the strict walker accepts a body, the lenient parsers read the same fields from it |
| `ShortMessage.AppendBody` | smpp/pdu.go:140-177 | The buffer holds the fields in order, with the message in the short_message or, from 255 octets on, in a message_payload parameter |
| `ShortMessage.BodyOctets` | smpp/pdu.go:140-177 | The octets of a body in order: addresses with TON and NPI, the fixed fields, then length and message |
| `ShortMessage.MessageOctets` | gateway/connection.go:560-571 | Up to 254 octets the length and the message; beyond, 00 04 24, the length modulo 65536 and the message |
| `ShortMessage.BuildDeliverSmBody` | gateway/connection.go:540-574 | The body octet by octet: source TON and NPI 0, destination TON and NPI 1, the ESM class, no receipt requested, message or message_payload; with NUL-free addresses the parser reads back addresses, ESM class and short message, and the long message is extracted exactly below 65536 octets |
| `ShortMessage.BuildSubmitSmBody` | gateway/connection.go:582-615 | The body octet by octet, with a receipt requested; the addresses read back exactly when both are NUL-free; then so does the short message, and the long one exactly below 65536 octets |
| `ShortMessage.WalkBuilt` | gateway/connection.go:540-615 | The strict walker accepts every built body with NUL-free addresses and reads the values put in |
| `ShortMessage.BuiltBodyReadsBack` | smpp/pdu.go:140-177 | Addresses, ESM class and message are recovered on both sides of the 254-octet switch, the long form exactly below 65536 octets |
| `ShortMessage.AddressesReadBackIffNulFree` | gateway/connection.go:460-492 | The addresses read back exactly when both are NUL-free |
| `ShortMessage.RewriteSubmitSmSource` | gateway/connection.go:500-534 | The rebuilt buffer is the body with its source address field replaced, or the body itself when it is too short |
| `ShortMessage.RewriteKeepsTheRest` | gateway/connection.go:500-534 | The service type and every octet after the source field are unchanged |
| `ShortMessage.RewriteParsesIffNulFree` | gateway/connection.go:460-534 | The result parses to the new source and the old destination exactly when the new address is NUL-free |
| `ShortMessage.RewriteOverrides` | gateway/connection.go:500-534 | A second rewrite overrides the first |
| `ShortMessage.RewriteKeepsMessage` | gateway/connection.go:500-534 | For every body long enough to be rewritten, the lenient parser reads the same destination, ESM class and message from the result |
| `ShortMessage.RewriteKeepsTlvs` | gateway/connection.go:500-534 | For every such body the TLV extraction answers the same, bodies without a boundary and malformed TLVs included |
| `ShortMessage.RewriteKeepsFields` | gateway/connection.go:500-534 | For a strictly valid body all mandatory fields but the source are the same |
| `Receipts.LeftmostFound` | smpp/handler.go:22-43 | The ID read is the run of non-space characters after the leftmost key that has one |
| `Receipts.StatusRead` | smpp/handler.go:45-48 | The status is the five to seven letters after the first status key that has them, in capitals |
| `Receipts.StatusParsed` | smpp/handler.go:45-48 | That is the status of a parsed receipt, and capitals stay as they are |
| `Receipts.SmallRaised` | smpp/handler.go:45-48 | Small letters of a status are raised to the capitals 32 below them |
| `Receipts.StatusAbsent` | smpp/handler.go:45-48 | The status is empty exactly when the text has no status field |
| `Receipts.ErrorRead` | smpp/handler.go:50-53 | The error is the run of non-space characters after the first error key that has one |
| `Receipts.ErrorParsed` | smpp/handler.go:50-53 | That is the error of a parsed receipt |
| `Receipts.ErrorAbsent` | smpp/handler.go:50-53 | The error is empty exactly when the text has no error field |
| `Receipts.OrdinaryReceipt` | smpp/handler.go:22-56 | A receipt of ID, status and error fields with plain values parses to those values |
| `Receipts.DeliveredReceipt` | smpp/handler.go:22-56 | "id:1 stat:DELIVRD err:000" parses to 1, DELIVRD and 000 |
| `Receipts.TranslateHits` | gateway/router.go:885-887 | Translation replaces the ID that was parsed and nothing else |
| `Receipts.TranslatedReceipt` | gateway/router.go:628-661 | For every receipt that parses, the translated text parses to the gateway ID and the rest of the text is unchanged |
| `Receipts.StatusKept` | smpp/handler.go:45-48 | The status parsed from the translated receipt is that of the receipt exactly when it stands before the ID, the old ID holds none, or the text after it gives the same |
| `Receipts.ErrorKept` | smpp/handler.go:50-53 | The error parsed from the translated receipt is that of the receipt exactly when it does not run into the ID and was not read out of the old ID |
| `Receipts.StatusCanChange` | smpp/handler.go:45-48 | The receipt "id:stat:AAAAA" has another status after translation |
| `Receipts.ErrorCanChange` | smpp/handler.go:50-53 | The receipt "err:id:7" has another error after translation |
| `KeyOrder.LessTotal` | gateway/store.go:594-612 | Store keys are totally ordered |
| `KeyOrder.PrefixUpperBound` | gateway/store.go:616-626 | The in-place carry turns trailing 0xFF octets into zeros and gives no bound for all-0xFF prefixes |
| `KeyOrder.ScanVisits` | gateway/store.go:594-626 | A scan visits exactly the keys with the prefix and the strays that the kept zeros let in |
| `KeyOrder.ScanExact` | gateway/store.go:594-626 | The scan is exact if and only if the prefix does not end in 0xFF or is all 0xFF |
| `KeyOrder.StrayVisited` | gateway/store.go:594-626 | A scan of "a" and 0xFF visits the key "b" |
| `RetryStore.DigitsSort` | gateway/store.go:228-229 | Zero-padded numbers of equal width sort as numbers and are distinct |
| `RetryStore.KeyBeforeNow` | gateway/store.go:241-246 | The bounds of a drain cover exactly the entries from before now |
| `RetryStore.OldestFirst` | gateway/store.go:240-289 | Drained entries come out by age and nothing older stays behind |
| `RetryStore.MessageStore.EnqueueRetry` | gateway/store.go:223-235 | One entry is filed under its own time, and the counter is off by exactly the entries ever overwritten |
| `RetryStore.MessageStore.DrainRetries` | gateway/store.go:240-289 | Exactly the oldest entries up to the limit leave the queue, those not stale are returned in order, and the counter follows |
| `RetryStore.Scan` | gateway/store.go:255-282 | The iteration visits the oldest entries from before now in key order, up to the limit |
| `RetryStore.RecentExactly` | gateway/store.go:255-282 | Of the visited entries exactly those not older than the age limit are returned |
| `RetryStore.NoneLost` | gateway/router.go:904-938 | Putting entries back loses none exactly when their keys are new and distinct |
| `RetryStore.PutAllHolds` | gateway/router.go:904-938 | With new keys every returned entry is in the queue with its original time, beside what was there |
| `RetryStore.BackOrTaken` | gateway/router.go:915-937 | Each drained entry is delivered or goes back, and a receipt is delivered only to its own engine; which of the two is in `RetryStore.FateOf` |
| `RetryStore.FateOf` | gateway/router.go:915-937 | An entry goes back exactly if it is a receipt whose engine is not registered, or no engine is there for it, or the engine it is written to does not accept it; otherwise it is delivered |
| `RetryStore.FatesStay` | gateway/router.go:915-937 | Later entries do not change what became of earlier ones |
| `RetryStore.RefusedIsKept` | gateway/router.go:915-937 | An entry refused by its engine is in the queue again, with its own time, when the new keys are new |
| `RetryStore.AcceptedIsTaken` | gateway/router.go:915-937 | An entry whose registered engine accepts it is delivered to that engine |
| `RetryStore.Redeliver` | gateway/router.go:915-937 | The loop computes which entries are delivered and which go back, entry by entry as `RetryStore.FateOf` says |
| `RetryStore.DrainOnce` | gateway/router.go:904-938 | What leaves the counter is what was delivered or stale; the queue itself shrinks by the same exactly when the new keys are new |
| `RetryStore.OneOfTwoLost` | gateway/router.go:915-937 | Of two entries of one time that go back under one id, one is lost |
| `Routing.SortSlice` | gateway/route_table.go:138-146 | An ordered permutation, with ties in any order |
| `Routing.BeforeIsRank` | gateway/route_table.go:138-146 | The comparison used is the order of one rank, so it is a strict weak order |
| `Routing.MTRouteTable.AddRoute` | gateway/route_table.go:129-147 | The configured routes become the old ones with the prefix's route replaced, and the list stays sorted and free of duplicates |
| `Routing.MTRouteTable.RemoveRoute` | gateway/route_table.go:150-154 | The prefix's route goes, and the answer says whether there was one |
| `Routing.MTRouteTable.RemoveByPrefix` | gateway/route_table.go:166-174 | The splice removes the one route with the prefix |
| `Routing.MTRouteTable.Match` | gateway/route_table.go:39-47 | The route found is the most specific one that matches; none is found exactly when none matches |
| `Routing.MTRouteTable.Resolve` | gateway/route_table.go:39-55 | The most specific route answers by its strategy, an error otherwise, and no other route's counter moves |
| `Routing.MostSpecificUnique` | gateway/route_table.go:39-55 | The answer depends only on the set of configured prefixes |
| `Routing.ApplyStrategy` | gateway/route_table.go:58-69 | Each strategy's own choice, and an error for unknown strategies |
| `Routing.Failover` | gateway/route_table.go:72-83 | The first listed pool that is up; an error exactly when none is |
| `Routing.RoundRobin` | gateway/route_table.go:86-104 | The first pool that is up from the counter on, in a circle; an error exactly when none is; the counter moves by one |
| `Routing.LeastCost` | gateway/route_table.go:107-125 | A pool that is up and that none that is up undercuts; an error exactly when none is |
| `Routing.AllUpPicks` | gateway/route_table.go:86-104 | With all pools up a call picks the position of its counter |
| `Routing.FairShare` | gateway/route_table.go:92-94 | Any m consecutive counter values begin at each of n positions m / n times or once more |
| `Routing.PickRepeatedly` | gateway/route_table.go:86-104 | Any m consecutive calls with all pools up pick each listed pool m / n times or once more |
| `Routing.MORouteTable.AddRoute` | gateway/route_table.go:240-247 | The route is added and the list stays sorted by priority |
| `Routing.MORouteTable.RemoveRoute` | gateway/route_table.go:251-261 | One matching route goes, if there is one |
| `Routing.MORouteTable.Resolve` | gateway/route_table.go:208-237 | The target of a matching route that no matching route outranks; none exactly when none matches |
| `Routing.MOCases` | gateway/route_table.go:214-228 | A pattern "p*" takes the destinations that start with p, another pattern exactly itself, and both only sources that start with the source prefix |
| `ShardMap.ShardIndex` | gateway/shardmap.go:36-40 | The loop computes the low six bits of the FNV-1a hash |
| `ShardMap.StepRefines` | gateway/shardmap.go:53-76 | Every locked section and every counter update, in any interleaving, acts as one plain map, with each key in its own shard |
| `ShardMap.Linearizable` | gateway/shardmap.go:43-81 | After any interleaving every lookup answers as the plain map, and the counter is off by exactly what is still owed |
| `ShardMap.LengthCanBeNegative` | gateway/shardmap.go:79-81 | Overlapping operations can make the length -1 |
| `ShardMap.ShardMap.Get` | gateway/shardmap.go:43-49 | The plain map's answer |
| `ShardMap.ShardMap.Set` | gateway/shardmap.go:53-62 | The plain map's update, with the counter following its size |
| `ShardMap.ShardMap.Delete` | gateway/shardmap.go:65-76 | The plain map's removal, with the counter following its size |
| `ShardMap.ShardMap.SetLocked` | gateway/shardmap.go:54-58 | The locked section of Set is one step of the interleaving model |
| `ShardMap.ShardMap.DeleteLocked` | gateway/shardmap.go:66-72 | The locked section of Delete is one step of the interleaving model |
| `ShardMap.ShardMap.AddCount` | gateway/shardmap.go:59-61 | The counter update is one step of the interleaving model |
| `ShardMap.ShardMap.Len` | gateway/shardmap.go:79-81 | Exact whenever no operation is between its two halves |
| `ShardMap.ShardMap.Range` | gateway/shardmap.go:84-95 | Every key once, or keys up to the first that stops the iteration |
| `ShardMap.UninterruptedSeesAll` | gateway/shardmap.go:84-95 | An iteration that is never stopped sees each entry exactly once |
| `Pending.RunKeepsInv` | smpp/client.go:679-767 | Over every interleaving of registrations, responses, timeouts and disconnects, a channel in the table or in a reader's hand has had nothing sent to it |
| `Pending.SendsNeverBlock` | smpp/client.go:901-934 | No send to a response channel ever blocks, that of a disconnect under the lock included |
| `Pending.OneOwnResponse` | smpp/client.go:751-767 | A request gets at most one PDU, its own response or the disconnect notice, even if sequence numbers recur; when it gets which is in the next rows |
| `Pending.OnlyWhatWasAddressed` | smpp/client.go:751-767 | What a caller gets is the response that a reader took out for its channel, or the notice of a disconnect while its entry was in the table |
| `Pending.NoticeNeedsDisconnect` | smpp/client.go:901-934 | In a run without a disconnect nobody gets the notice |
| `Pending.GetsItsResponse` | smpp/client.go:751-767 | After any run, taking out the entry of a waiting request, sending and receiving ends with the caller holding that very response |
| `Pending.GetsTheNotice` | smpp/client.go:901-934 | After any run, a disconnect of a bound client and a receive end with the caller holding the notice |
| `Pending.ForgottenIff` | smpp/client.go:679-695 | A waiting request becomes unreachable exactly when a step displaces its entry by reusing its number, registers it without a reader, or ends an unbound reader while it waits |
| `Pending.ReuseForgets` | smpp/client.go:679-685 | A run that reuses the number of a waiting request forgets it |
| `Pending.LateRegistrationForgets` | smpp/client.go:250-281 | A run that registers a request after the disconnect forgets it |
| `Pending.RunForgetsNone` | smpp/client.go:679-767 | In every run that reuses no number of a waiting request, registers while a reader runs and ends no unbound reader over waiting requests, every waiting request can still be answered or already is |
| `Pending.NumbersRecur` | smpp/client.go:153-155 | Two requests share a number exactly when a multiple of 2^32 lies between them |
| `Pending.Client.RegisterPending` | smpp/client.go:679-685 | A new empty channel is entered under the number |
| `Pending.Client.TimeOut` | smpp/client.go:306-308 | A request that gives up is one step of the model: whatever entry has its number goes, and its caller waits no longer |
| `Pending.Client.TakeChannel` | smpp/client.go:751-767 | The first half of a dispatch is one step; unknown numbers change nothing |
| `Pending.Client.SendResponse` | smpp/client.go:751-767 | The second half of a dispatch is one step, finds the channel empty and leaves that response in it |
| `Pending.Client.HandleDisconnect` | smpp/client.go:901-934 | If bound, the channel of every pending request holds the notice and the table is emptied; an unbound client answers nobody |
| `Pending.WindowRespected` | smpp/pool.go:158-176 | In every run the tokens of a connection are its outstanding submits, never more than the window, and a release never waits |
| `Pending.TokenIff` | smpp/pool.go:158-176 | After any run, a submit gets a token exactly when fewer than the window are outstanding on the connection |
| `Pending.Probe` | smpp/pool.go:158-176 | A round finds the first bound connection with a free token from the counter on, and none exactly when there is none |

## Left out

- The handlers of `gateway/router.go` are steps of a state machine over values, because they interleave; they are not methods that update objects in place.
- Deliveries and the cleanup of correlations may interleave more freely in the model than in the code, and a drain fetches entries one at a time in any order.
- Submit filters before acceptance in HandleSubmit (blacklist, rate limits, address checks) and the MaxBinds limit of onBind.
- REST-originated messages, callbacks, message log, message status, metrics and TPS metering.
- Crash recovery, restart of gateway IDs, and the shutdown of the asynchronous batch writer.
- The grace period of mobile-originated messages, and which session a deliver_sm_resp belongs to after a replacement.
- The approximate counters msgCount and logCount.
- JSON encoding, entries that fail to decode, and failures of the store.
- Negative timestamps in store keys.
- Latin-1, IA5 and binary codings, and invalid UTF-8 input.
- Fill bits after a concatenation header: reassembly is proved for this library's own decoder.
- Encoders for bind, query, cancel, replace, multi and broadcast operations; their walkers appear only as field layouts.
- PDUs of 2^32 octets and more, and typed getters and setters of TLVs.
- TCP, TLS, HTTP, the admin interface, the key-value store itself and the mock SMSC.
- Counter updates of the submit-retry queue may come at any time after the write they belong to; the model does not hold back the goroutine that owes one.
- EnqueueRetry, DrainRetries and DrainOnce: run one at a time, so the model does not cover a drain between another caller's write and its count.
- OnBind: an empty system ID and a second bind on one session are excluded by the assumptions above.
- Coding.RoundTrip: does not cover Latin-1, IA5 and binary codings.
- SplitTextBySeptets: covers encodable texts and limits of two septets and more, which is how splitGSM7 calls it.
- Pdu.Encode: excludes PDUs of 2^32 octets and more, for which the code allocates a truncated buffer.
- RoundRobin: the counter is unbounded, so the model does not cover counters of 2^63 and more, where the code's conversion turns negative.
- Probe: the counter is unbounded, so the model does not cover the wrap of the code's 64-bit sum.
- LeastCost: costs are real numbers, so the model does not cover costs that are not a number.
- Resolve, Failover, RoundRobin and LeastCost: read the health of all pools at one moment, as one set.
- Range: other callers do not change the map during the iteration.

# A verified model of an SMPP v3.4 session endpoint

The project models one endpoint (SMSC or ESME) of an asynchronous SMPP v3.4 library as
three layers that compose, and proves what each layer promises over every input or every
run. `dafny verify dfyconfig.toml` checks all of it.

## The layers

**Codec** (`Bytes`, `Tlvs`, `Headers`, `Messages`, `SubmitMulti`, `Responses`, `Layout`,
`ReplyLayout`). Octets in, entities out, and back. Every parser is characterised by an if-and-only-if: it returns
`(value, rest)` on exactly the one input that prints `value` in front of `rest`. From these
follow the round trips, each with the exact condition under which it holds, the agreement of
the separately computed `command_length` with the octets emitted, and the normal form that
re-encoding a received PDU produces. The loops of the source are methods proved against these
functions. `Layout` and `ReplyLayout` say by offset, and without the printers, which octet means
what: where the encoders put each field, and that the decoders return, on any octets at all,
exactly what stands there.

**Framing** (`Framing`, `EndToEnd`). `CutStream` is a recursive cut of a whole byte stream; it
knows nothing about reads. The accumulating buffer-and-cursor loop is the class `FrameReader`,
and its loop over any sequence of reads computes that cut: same frames, same stopping point,
same unconsumed octets. The bind handshake, which frames one PDU and replays the rest in front
of the socket, does too. `EndToEnd` puts the codec on top: a list of messages encoded,
concatenated, cut into arbitrary reads, framed and decoded is that list.

**Session** (`Dispatch`, `Pending`, `Session`, `Sections`, and the proofs in `Bookkeeping`,
`Ledger`, `Preservation`, `Growth`, `Losses`, `Runs`, `Safety`, `Opening`, `Ordering`, `Effects`,
`Witnesses`). A labelled step system over the state that the tasks of a session share: callers that
allocate a sequence number and push to a bounded FIFO, the writer with a program counter between
registering a request and writing it, the `enquire_link` ticker, the read loop with its timeout
sweep, handler tasks that reply in any order, a clock, and a peer that sends any PDU at any time.
Each step is one atomic section of one task. `Inv` is the inductive invariant; `Safety`, `Opening`
and `Ordering` state what holds in every state a run can reach, and `Effects` what each step must
bring about, with the command identifiers written out as numbers. The table of pending requests and
the counter are classes changed in place; `Sections` proves that each task's critical section on
them is the corresponding step. The dispatch tables of both sides are functions of bind type and
`command_id`, with a rank argument that automatic replies die out.

Requests are identified by allocation index `k`; `Number(c, k)` is the wrapped 32-bit number on
the wire, so that wrap-around is part of the model and not assumed away.

## What turned out false, and exactly when it holds

- A `deliver_sm` reply built by `reject` or `generic_reject` declares 16 octets and emits 17.
  `DeliverRespLength` shows its header does not decode. `RejectedDeliveryDesyncs` shows, for
  every PDU behind it, what the peer's reader does: it starts one octet early, closes on a bad
  length if that PDU is shorter than 4096 octets, and otherwise cuts a 256th of it and goes on
  from inside it.
- A registration does replace a live entry once numbers wrap: exactly when a request some
  multiple of 2^32 allocations away is still registered (`InsertOverwritesIff`). It can happen:
  `OverwritingHappens` gives the run, on either side.
- A reply that is owed need not reach the wire. While the session is alive it is given up exactly
  when its own write fails (`LiveRepliesAreKept`), which happens (`RepliesGetLost`); afterwards also
  when the writer has stopped or the session is cut off (`StepLoses`, for every step).
- One PDU can cause three automatic ones, but more than two only when a reply does not decode
  (`NoReplyStorm`, `FourDeliveriesHappen`). The bodies of submit_sm, data_sm, deliver_sm and
  submit_multi responses built by `accept` or a failing `reject` do decode (`BuiltBodyDecodes`,
  `BuiltRepliesDecode`); the API lets a listener build a `data_sm_resp` that does not
  (`UndecodableRejection`), and `DataRespDecodesIff` says which those are.
- A reply to a request the endpoint may send is not always correlated: not on the server for a
  `deliver_sm` on a receiver bind, nor for an `unbind` (`SettlesIff`). The documentation lists
  both as supported for sending; the server refuses the responses.
- Responses with more than 255 `unsuccess_sme` entries, and TLV values of 65536 octets or more,
  do not round-trip; the round-trip lemmas are equivalences, so they say so.

## Model

| member | source | states |
|---|---|---|
| Bytes.ParseCStringIff | src/common/mod.rs:436-440 | the C-Octet-String parser inverts printing exactly the strings without a NUL, for any rest |
| Bytes.U32AtAfter | src/common/mod.rs:285-291 | a big-endian u32 written into a buffer is what reading at that offset returns |
| Tlvs.ParseTlvIff | src/common/tlv.rs:268-281 | one TLV is read back if and only if its length fits in 16 bits |
| Tlvs.ImagesParse | src/common/tlv.rs:283-306 | decode(encode(ts) ++ rest) is ts followed by decode(rest) |
| Tlvs.GreedyParseIff | src/common/tlv.rs:283-298 | for arbitrary octets the greedy parse is the only split into printable TLVs and a tail that is shorter than four octets or overruns |
| Tlvs.DecodeTlvs | src/common/tlv.rs:283-298 | the loop returns the TLVs of that greedy parse |
| Tlvs.EncodeTlvs | src/common/tlv.rs:300-306 | the loop emits the images in order |
| Tlvs.TlvsEncodedLen | src/common/tlv.rs:308-310 | the length summed without encoding is the number of octets encoding emits |
| Headers.EncodeHeader | src/common/mod.rs:110-117 | the four fields in network byte order, 16 octets |
| Headers.HeaderRoundTripIff | src/common/mod.rs:68-117 | a header decodes off a PDU if and only if its length names the whole PDU |
| Headers.DecodedHeaderIsPrefix | src/common/mod.rs:68-108 | the decoded header prints back to the first 16 octets |
| Layout.DecodeHeaderIff | src/common/mod.rs:68-108 | on any octets: the four fields are those at octets 0, 4, 8 and 12, big-endian, if the first is the PDU's length; the two errors otherwise |
| Messages.FramedDecodesIff | src/common/commands/submit_sm.rs:239-262 | the emitted length is the octet count, and the image decodes, exactly below 4 GiB |
| Messages.ParseContentIff | src/common/commands/submit_sm.rs:180-236 | the parser of the fields from esm_class to the TLVs is the exact inverse of the printer, tail included |
| Messages.ParseShortMessageIff | src/common/commands/submit_sm.rs:157-237 | the whole body parser of submit_sm and deliver_sm is the exact inverse of the printer |
| Messages.ShortMessageLength | src/common/commands/submit_sm.rs:35-66 | message_command_length plus the TLV length is the octet count, through both 32-bit casts |
| Messages.EncodeShortMessage | src/common/commands/submit_sm.rs:239-281 | the encoder emits the body behind a header whose length is recomputed, whatever TLVs were attached |
| Layout.ShortMessageOctets | src/common/commands/submit_sm.rs:239-281 | every octet of it by offset: service_type, ton, npi and address twice, the flags, times, sm_length, message, and each TLV's tag, length and value; nothing behind |
| Layout.DecodeShortMessageIff | src/common/commands/submit_sm.rs:157-237 | on any octets: the decoder returns exactly the fields that stand at those offsets, or the error it should |
| Messages.ShortMessageRoundTripIff | src/common/commands/deliver_sm.rs:158-282 | decode(encode(p)) is p if and only if strings hold no NUL, sm_length matches and TLVs fit |
| Messages.ShortMessageNormalises | src/common/commands/submit_sm.rs:157-281 | whatever decodes re-encodes to the received body without its unparsable TLV tail, and decodes to itself |
| Messages.ParseDataSmIff | src/common/commands/data_sm.rs:103-152 | the data_sm body parser is the exact inverse of the printer |
| Messages.DataSmLength | src/common/commands/data_sm.rs:30-40 | base_command_length plus the TLV length is the octet count |
| Messages.EncodeDataSm | src/common/commands/data_sm.rs:154-182 | the encoder emits the body behind a header with the recomputed length |
| Layout.DataSmOctets | src/common/commands/data_sm.rs:154-182 | every octet of it by offset |
| Layout.DecodeDataSmIff | src/common/commands/data_sm.rs:103-152 | on any octets: exactly the fields at those offsets, or the error |
| Messages.DataSmRoundTripIff | src/common/commands/data_sm.rs:103-182 | decode(encode(p)) is p if and only if p is well-formed |
| Messages.DataSmNormalises | src/common/commands/data_sm.rs:103-182 | re-encoding changes only the length and an unparsable TLV tail, and is idempotent |
| SubmitMulti.ParseDestIff | src/common/commands/submit_sm_multi.rs:73-92 | one destination is read exactly from its image under a flag that announces it: 2 a distribution list, anything else an SME address |
| SubmitMulti.ParsedDestsIsPrefix | src/common/commands/submit_sm_multi.rs:345-370 | the list parser returns the count asked for, and the input is those destinations printed with the flags it saw |
| SubmitMulti.DecodeDests | src/common/commands/submit_sm_multi.rs:355-366 | the counted loop computes the recursive list parse, failures included |
| SubmitMulti.EncodeDests | src/common/commands/submit_sm_multi.rs:42-71 | the destinations' lengths sum to the octets their images have |
| SubmitMulti.MultiLength | src/common/commands/submit_sm_multi.rs:233-260 | base_len plus the TLV length is the octet count |
| SubmitMulti.EncodeMulti | src/common/commands/submit_sm_multi.rs:269-302 | the encoder emits the body behind a header with the recomputed length |
| Layout.MultiOctets | src/common/commands/submit_sm_multi.rs:42-302 | every octet of it by offset, the count, and each destination's dest_flag 1 or 2 with its address or list name |
| Layout.DecodeMultiIff | src/common/commands/submit_sm_multi.rs:345-397 | on any octets: exactly the fields at those offsets, dest_flag 2 for a list and any other for an address |
| SubmitMulti.MultiRoundTripIff | src/common/commands/submit_sm_multi.rs:262-302 | decode(encode(p)) is p if and only if p is well-formed with number_of_dests the list's length |
| SubmitMulti.MultiNormalises | src/common/commands/submit_sm_multi.rs:345-397 | re-encoding changes the length, an unparsable TLV tail and non-standard dest_flags, and is idempotent |
| Responses.SubmitRespRoundTripIff | src/common/commands/submit_sm.rs:341-371 | submit_sm_resp round-trips if and only if it has a body exactly when the status is OK |
| ReplyLayout.SubmitRespOctets | src/common/commands/submit_sm.rs:341-352 | the header's octets, the message_id if there is one, and nothing else |
| ReplyLayout.DecodeSubmitRespIff | src/common/commands/submit_sm.rs:354-371 | on any octets: no body is looked at on failure; on success the message_id from octet 16 |
| Responses.EncodeDataResp | src/common/commands/data_sm.rs:262-284 | the length computed from message_id and TLVs is the octet count |
| ReplyLayout.DataRespOctets | src/common/commands/data_sm.rs:262-284 | every octet by offset |
| ReplyLayout.DecodeDataRespIff | src/common/commands/data_sm.rs:286-313 | on any octets: message_id on success only, then the TLVs that stand there; neither where there is no body |
| Responses.DataRespRoundTripIff | src/common/commands/data_sm.rs:262-313 | data_sm_resp round-trips if and only if it failed and has TLVs only, or succeeded and has a message_id and TLVs or neither; no NUL in the message_id, TLVs that fit |
| Responses.DataRespDecodesIff | src/common/commands/data_sm.rs:286-313 | it fails to decode exactly when it claims success with a body that has no terminator |
| Responses.UndecodableRejection | src/common/commands/data_sm.rs:201-256 | the public API builds such a response: reject with ESME_ROK and a TLV without a zero octet |
| Responses.DeliverRespRoundTripIff | src/common/commands/deliver_sm.rs:339-370 | the body decoder inverts the encoder exactly for an OK status, or an empty message_id |
| Responses.DeliverRespLength | src/common/commands/deliver_sm.rs:284-347 | an accepted delivery's image is one PDU; a rejected one's header does not match its octets |
| ReplyLayout.BuiltDeliverRespOctets | src/common/commands/deliver_sm.rs:284-306 | the 17 octets of an accepted and of a rejected delivery |
| ReplyLayout.DecodeDeliverRespIff | src/common/commands/deliver_sm.rs:349-370 | on any octets: an absent body is an empty message_id |
| Responses.ParseUnsuccessesIff | src/common/commands/submit_sm_multi.rs:433-441 | the counted list of unsuccessful destinations is read exactly from its image |
| Responses.MultiRespRoundTripIff | src/common/commands/submit_sm_multi.rs:419-466 | submit_multi_resp round-trips if and only if its count is the list's length, and there is no body on failure |
| ReplyLayout.MultiRespOctets | src/common/commands/submit_sm_multi.rs:451-466 | every octet by offset: message_id, count, and each entry's ton, npi, address and four octets of error code |
| ReplyLayout.DecodeMultiRespIff | src/common/commands/submit_sm_multi.rs:419-449 | on any octets: exactly the fields at those offsets |
| Responses.AcceptMulti | src/common/commands/submit_sm_multi.rs:306-324 | the length is the octet count in 32 bits; the reply round-trips if and only if at most 255 entries and no NUL |
| Responses.MultiRespTruncates | src/common/commands/submit_sm_multi.rs:419-449 | beyond 255 entries the reader gets as many as the truncated count says, and no error |
| Framing.DecisionIsStable | src/common/mod.rs:315-327 | once decided, bytes arriving later change neither the decision nor the frame |
| Framing.FrameDecodes | src/server/state.rs:252-277 | every frame's header decodes and the number read at offset 12 is the header's: the header-error arm is dead |
| Framing.FrameIffDecodes | src/common/mod.rs:68-108 | a buffer is one frame if and only if its header decodes and it is at most 1 MiB |
| Layout.FrameFirstIff | src/common/mod.rs:315-327 | the decision by the first four octets, their value 16 to 1048576, and the octets there are |
| Framing.CutIsLossless | src/server/state.rs:248-306 | frames ++ rest is the input; each frame is 16 octets to 1 MiB; a pass that waits keeps less than 1 MiB; it ends at the first frame that ends the loop and at no other |
| Framing.StreamIsReads | src/server/state.rs:237-243 | what is read is the concatenation of the reads up to the first empty one |
| Framing.CutExtends | src/server/state.rs:902-910 | later bytes continue the cut where it stopped, or lie untouched behind it |
| Framing.CutStep | src/server/state.rs:252-268 | the tests at the cursor are one unfolding of the cut of the unread part |
| Framing.FrameReader.Drain | src/server/state.rs:248-904 | one pass over the buffer takes exactly the frames of the cut and keeps its rest |
| Framing.FrameReader.ReadLoop | src/server/state.rs:237-910 | over any split into reads: the frames, stop and unconsumed octets of cutting the whole stream |
| Framing.TakeBindPdu | src/server/mod.rs:818-849 | for any reads, the handshake takes the stream's first frame if there is one, and loses no octet |
| Framing.Replay | src/server/state.rs:72-76 | the leftover is served first, whole and in order, in pieces of any size |
| Framing.HandshakeThenSession | src/client/mod.rs:1388-1460 | the bind PDU and the session's frames are the cut of the whole stream |
| EndToEnd.FrameRoundTripIff | src/server/state.rs:252-329 | a message's image is one frame and decodes to the message if and only if it is well-formed, at most 1 MiB and stores the right length |
| EndToEnd.KindById | src/server/state.rs:282-807 | the kind a frame decodes to, by the number in octets 4 to 7 |
| EndToEnd.EncodeMessage | src/common/commands/submit_sm.rs:239-281 | for each kind the encoder's octets, all laid out by offset |
| EndToEnd.WiresCut | src/server/state.rs:248-306 | concatenated images are cut into exactly those images, the bytes of an unfinished PDU kept |
| EndToEnd.Transmit | src/server/state.rs:98-141 | the octets written are the images in order |
| EndToEnd.ReceiveAll | src/server/state.rs:237-306 | over any cutting of those octets into reads, the receiver decodes exactly the messages sent, in order |
| EndToEnd.RejectedDeliveryDesyncs | src/common/commands/deliver_sm.rs:296-347 | the cut of the stream behind a rejected delivery, for every next PDU: a bad length below 4096 octets, otherwise a 256th of it as a frame and on from inside it |
| EndToEnd.BuiltRepliesDecode | src/common/commands/submit_sm.rs:341-371 | a response built by accept or a failing reject decodes at the other side, header and body, if and only if the length it stores is its own; for submit_multi, its strings holding no NUL |
| Dispatch.HandlersAreGated | src/server/state.rs:280-565 | under each bind type a side hands to its listener exactly the message operations the other side may send (and the server a data_sm on a receiver bind), and answers with the request's own response id |
| Dispatch.SentIsServed | src/client/mod.rs:1663-2374 | no request a side may send is refused by the other |
| Dispatch.SettlesIff | src/server/state.rs:678-874 | which responses are correlated, exactly |
| Dispatch.ReplyRankDrops | src/server/state.rs:280-900 | every automatic reply has strictly smaller rank than what it answers, on both sides, under all bind types, whether or not PDU and reply decode |
| Dispatch.NoReplyStorm | src/client/mod.rs:1663-2374 | in a closed system of client and server any run of deliveries ends: at most four per PDU in flight, so at most three automatic ones; at most three if every reply sent decodes |
| Dispatch.FourDeliveriesHappen | src/server/state.rs:744-806 | the bound of four is met by a data_sm on a receiver bind whose response does not decode |
| Dispatch.ThreeDeliveriesHappen | src/server/state.rs:678-874 | the bound of three is met, all replies decoding, by a deliver_sm the server may send on a receiver bind |
| Pending.PendingRequests.Sweep | src/server/state.rs:914-935 | exactly the expired entries go, each reported once |
| Sections.AllocateNumber | src/client/mod.rs:89-91 | fetch_add on the shared counter hands out the number of the session's next allocation, across the wrap |
| Sections.RegisterFrame | src/server/state.rs:108-113 | inserting into the shared table is the Insert step, and the entry dropped is the one request that step ends |
| Sections.UnregisterFrame | src/server/state.rs:121-126 | removing after a failed write is the Remove step on the shared table |
| Sections.TakeResponse | src/server/state.rs:681-697 | removing first and testing the age after is the lookup of every correlating arm: absent, late or in time as the session says |
| Sections.TakeHeartbeat | src/server/state.rs:617-631 | the same behind an enquire_link_resp that was passed on |
| Sections.SweepExpired | src/server/state.rs:914-935 | what the retain loop reports is an order the session's sweep may take, and it leaves the session's table |
| Preservation.StepKeepsCore | src/server/state.rs:96-141 | every step of every task keeps the bookkeeping of our own requests |
| Preservation.StepKeepsReplies | src/server/state.rs:280-900 | every step keeps the balance of replies owed and replies accounted for |
| Preservation.StepKeepsTickerAndStage | src/server/state.rs:147-210 | every step keeps the ticker in step with its channel and the session on its lifecycle |
| Preservation.RunKeepsInv | src/server/state.rs:237-979 | so does every run |
| Preservation.SweepKeeps | src/server/state.rs:914-935 | a sweep keeps the bookkeeping and removes exactly the entries it lists |
| Safety.WrittenIsRegistered | src/server/state.rs:101-128 | a request on the wire is registered under its own number, or was ended by response, timeout or rival |
| Safety.FirstResponseMatches | src/client/mod.rs:1492-1525 | no lost response: in every interleaving the first response to a written request ends that request and no other, in the way stated |
| Safety.FirstHeartbeatMatches | src/server/state.rs:606-631 | likewise for an enquire_link_resp: when the reader comes to the table after passing it on, the entry is there |
| Safety.UnmatchedIsOver | src/server/state.rs:681-743 | a response in the "No pending request" arm belongs to no request still open on the wire |
| Witnesses.WritingFirstLosesResponse | src/server/state.rs:103-107 | from a reachable state, with the order reversed, a response is dropped and its entry registered afterwards |
| Witnesses.OverwritingHappens | src/server/state.rs:108-113 | a run of 2^32 + 1 requests in which registering ends another request on the wire |
| Witnesses.RepliesGetLost | src/server/state.rs:114-127 | a run in which a live session gives up an enquire_link_resp whose write failed |
| Safety.RequestsAreConserved | src/server/state.rs:96-141 | every allocated request is in exactly one of hand, FIFO, writer, table, ended |
| Safety.SameNumberIff | src/server/state.rs:63-63 | two allocations share a number if and only if a multiple of 2^32 lies between them |
| Safety.LegalRangeIff | src/client/mod.rs:1482-1482 | numbers count from 1 on the server and 2 on the client; up to the wrap they are in the range of section 5.1.4 exactly up to 2^31 - 1 |
| Safety.InsertOverwritesIff | src/server/state.rs:108-113 | registering ends another request exactly when that one is registered a multiple of 2^32 allocations away |
| Safety.WindowPreventsOverwriting | src/server/state.rs:108-113 | nothing is overwritten while fewer than 2^32 numbers were allocated since the oldest live request |
| Safety.NoOverwriteBeforeWrap | src/client/mod.rs:1500-1510 | in a session of up to 2^32 requests none is ever overwritten |
| Safety.CallersGetTheirOwn | src/client/mod.rs:153-219 | a call returns Ok(r) only for an r of its response type with its own number that ended it |
| Effects.CallerReturns | src/client/mod.rs:181-204 | and it does return: in any reachable state the first timely response under the number of a waiting request on the wire is handed over, and the caller gets it if it is of its type, and an error otherwise |
| Effects.RequestIsQueued | src/client/mod.rs:166-180 | a request goes to the back of the FIFO when there is room, and nowhere once the writer stopped |
| Effects.GivingUpIff | src/client/mod.rs:181-218 | a caller may give up exactly once queued and while its response is not there |
| Effects.FrameIsTaken | src/server/state.rs:101-102 | the writer takes the front of the FIFO |
| Effects.RequestIsWritten | src/server/state.rs:101-115 | a request is registered with the time of its insertion and then put on the wire, or fails |
| Effects.FailureIsUndone | src/server/state.rs:116-127 | after a failed write its entry is gone, it was not written, and its caller can fail at once |
| Effects.ReplyIsWritten | src/server/state.rs:114-128 | a reply is written or given up |
| Effects.WriterHaltsIff | src/server/state.rs:100-141 | the writer stops only when the session is no longer alive |
| Ordering.WireIsOrdered | src/server/state.rs:78-141 | over any run frames are taken in the order they were queued, and stand on the wire in that order |
| Effects.QueuesAreBounded | src/server/state.rs:78-78 | FIFO and ticker channel never hold more than 100 |
| Opening.RequestsAreAllowed | src/server/mod.rs:125-395 | every request allocated is one the bind type allows this side to send, or a keep-alive |
| Opening.AskingIff | src/client/mod.rs:153-158 | a caller is given a number exactly in an open session for such a request |
| Safety.ResponseWasRead | src/client/mod.rs:1747-1800 | what a caller returned is what one particular read handed over to its call in the very next event |
| Safety.RepliesAreNotSwapped | src/server/mod.rs:125-185 | no two calls swap or share a response, against any peer and for any number of requests; up to 2^32 requests the numbers differ too |
| Safety.EndedAtMostOnce | src/client/mod.rs:1747-1800 | no request is ended twice by the reader: no oneshot is completed twice |
| Safety.OutcomesAreFinal | src/client/mod.rs:1747-1800 | over every continuation, how a request ended and what its caller returned stay |
| Safety.TimeoutDiscipline | src/server/state.rs:682-695 | on_timeout if and only if the entry was older than response_timer |
| Safety.TimeoutsAtMostOnce | src/client/mod.rs:2388-2411 | per allocation of a number, on_timeout at most once and never with a delivered reply; up to 2^32 requests, per number |
| Safety.SweepIsExact | src/server/state.rs:914-935 | in every reachable state the sweep removes exactly the expired entries, calls on_timeout once for each of their numbers, and nothing else |
| Losses.StepLoses | src/server/state.rs:114-140 | for every step, exactly which replies it gives up; a session that ended is never alive again |
| Safety.LiveRepliesAreKept | src/server/state.rs:282-424 | while the session is alive exactly the replies whose write failed are given up; with no failed write, as often as a reply is owed it is with a handler, the reader, FIFO or writer, or written |
| Safety.RepliesAreConserved | src/server/state.rs:472-565 | the same balance in every reachable state, with what was given up as one more term |
| Safety.KeepAliveIsInStep | src/server/state.rs:147-210 | a live ticker sent exactly the numbers it read, in order, and at most one more |
| Effects.TickerAsks | src/server/state.rs:161-176 | at its interval it allocates a number and queues an enquire_link with it |
| Effects.HeartbeatIsForwarded | src/server/state.rs:606-615 | an enquire_link_resp's number goes to the ticker while it lives |
| Effects.HeartbeatIsSettled | src/server/state.rs:617-631 | and then its entry is taken out, late or not |
| Effects.HearingIff | src/server/state.rs:180-187 | its own number lets the ticker go on, any other ends it |
| Effects.TickerDiesIff | src/server/state.rs:147-210 | in which steps the ticker ends, exactly |
| Safety.KeepAliveNumbersAreItsOwn | src/server/state.rs:143-168 | an application request shares a number with a ticker enquire_link only a multiple of 2^32 allocations away, so never up to 2^32 requests |
| Safety.DeadTickerEndsSession | src/server/state.rs:949-954 | once the ticker is finished, at most one more read from the socket, and it is never restarted |
| Safety.LifecycleIsPaired | src/server/state.rs:968-979 | bound at most once, unbound at most once and after it; a session whose loop ended was told both exactly once, a refused one neither |
| Opening.BoundIff | src/server/state.rs:991-1115 | the listener is told bound as b if and only if the run's one bind step succeeded for b (decoded, accepted, answer written; or the client's answer to number 1 with status zero) and telling it came after |
| Effects.LoopEndsIff | src/server/state.rs:902-966 | why the read loop ends, exactly: in which step of a reachable state, the inactivity timer and a client's unbind_resp included |
| Effects.LoopTurns | src/server/state.rs:237-966 | each turn of the loop outside dispatch can happen and does this |
| Effects.LastReadIff | src/server/state.rs:912-912 | the time of the last read is that of the bind, then of the last pass that ended |
| Effects.PassEnds | src/server/state.rs:914-966 | a pass is followed by the tests |
| Effects.StoppingIff | src/client/mod.rs:2470-2480 | only a client is told to stop, and only then cut off |
| Safety.DispatchIsGated | src/server/state.rs:991-1115 | on_esme_bound only after a successful bind answer, which is a step of its own; each PDU dispatched under the bind type; listener called only where allowed; each request owed one reply, to its number, of the right id |
| Effects.RequestIsHandled | src/client/mod.rs:1663-1740 | each message request of the bind type that decodes goes to the listener in a task that owes exactly its response; one that does not is answered with the complaint for its id |
| Effects.EnquireLinkIsAnswered | src/server/state.rs:566-605 | the reader's own reply, to a PDU that decodes or not |
| Effects.UnbindIsAnswered | src/server/state.rs:632-677 | the ticker is stopped, the listener told if it decodes, the reply is the last |
| Effects.AlertIsTold | src/client/mod.rs:2092-2121 | the client's listener is told, nothing is answered |
| Effects.TimelyResponse | src/server/state.rs:698-742 | what a response in time that decodes does, exactly: whom it completes, and when it ends the loop |
| Effects.LateResponse | src/server/state.rs:681-697 | and one without an entry, or late |
| Effects.GarbledResponse | src/server/state.rs:716-738 | and one that does not decode, with the objection to it |
| Effects.OthersAreRefused | src/server/state.rs:853-874 | everything else draws a generic_nack |
| Effects.OwesWhatTablesSay | src/server/state.rs:280-900 | what a PDU makes the session owe is what the dispatch tables of the reply-storm bound say |
| Effects.HandlerAnswers | src/server/state.rs:290-308 | a task's reply goes to the back of the FIFO |
| Safety.NothingFollowsUnbind | src/server/state.rs:632-677 | no frame is dispatched after an unbind, none before the bind |

## Left out

- Tlvs.Tlv: string contents are octets; the lossy UTF-8 conversion of received strings is not modelled, so a string is what stands between two terminators.
- Short writes: the writer calls `write`, not `write_all`, and ignores the count; a write step is all or nothing.
- Debug builds: `as u32` casts and u32 additions wrap, as in a release build; the overflow panic of a debug build is not modelled.
- Messages.ShortMessage: one datatype serves submit_sm and deliver_sm, whose layouts and code are the same; an address and the run of fields from esm_class to the TLVs are grouped.
- SubmitMulti.DecodeMulti: requires 16 octets, as the source slices without a test; its callers pass frames.
- Session.Apply: the tasks' concurrency is a step system over values; the shared map and counter are in place in `Pending`, where each method is one critical section. The sweep and its notifications are one step, and so are taking a late entry out and its on_timeout, and a response's lookup and the completion of its oneshot.
- Session.DoCall: the caller's own timer is a nondeterministic GiveUp, at any time its reply is not there.
- Session.Dispatched: whether a PDU's body decodes is the peer's choice; the session sees `command_id` and sequence number, which `Framing.FrameDecodes` ties to the octets. A handler is assumed to answer with the response of its request.
- Session.Open: the bind PDUs' bodies, the listener's decision and the write of the answer are parameters of the step.
- Safety.LifecycleIsPaired: a client cut off by `stop()` may have been told unbound or not; a session that hangs is not ruled out, only what it can have done.
- Safety.LiveRepliesAreKept: says nothing of a session that has ended; there a reply may stay in the FIFO or be given up, so unbind_resp need not reach the wire.
- alert_notification: registered as a request though no response exists; it ends as timed out.
- cancel_sm codec: only "one reply" in dispatch.
- bind, outbind, query_sm, replace_sm and header-only PDU codecs, builders, tag tables, DeliveryReceipt, status mapping: they would only add easy members.
- TCP, TLS, trust stores, scheduling, logging, session ids: foreign calls; the socket is a sequence of reads and the clock a counter.
- The header-error arm of the session loops: proved unreachable, so no step.
- `window_size`: stored and logged only. The documentation advertises windowing, but the code bounds nothing, so no bound on requests in flight is claimed.
- Dispatch.NoReplyStorm: counts PDUs as sent and received; behind a rejected deliver_sm, what the reader frames is not what was sent (`EndToEnd.RejectedDeliveryDesyncs`). A listener's reply is taken to carry the command_id of the response it is typed as.

// From one side's encoders to the other side's decoders: a list of messages encoded,
// concatenated, cut into arbitrary reads, framed and decoded is that list again.

module EndToEnd {
  import opened Bytes
  import opened Headers
  import opened Messages
  import opened SubmitMulti
  import opened Responses
  import opened Framing
  import opened Layout
  import opened ReplyLayout
  import Tlvs

  /** A PDU of one of the modelled kinds. */
  datatype Message =
    | SubmitSm(sm: ShortMessage)
    | DeliverSm(sm: ShortMessage)
    | Data(data: DataSm)
    | Multiple(multi: Multi)
    | SubmitReply(submit: SubmitResp)
    | DeliverReply(deliver: DeliverResp)
    | DataReply(dataResp: DataResp)
    | MultipleReply(multiResp: MultiResp)

  function HeaderOf(m: Message): CommandHeader {
    match m
    case SubmitSm(sm) => sm.header
    case DeliverSm(sm) => sm.header
    case Data(data) => data.header
    case Multiple(multi) => multi.header
    case SubmitReply(submit) => submit.header
    case DeliverReply(deliver) => deliver.header
    case DataReply(dataResp) => dataResp.header
    case MultipleReply(multiResp) => multiResp.header
  }

  function WithHeader(m: Message, h: CommandHeader): Message {
    match m
    case SubmitSm(sm) => SubmitSm(sm.(header := h))
    case DeliverSm(sm) => DeliverSm(sm.(header := h))
    case Data(data) => Data(data.(header := h))
    case Multiple(multi) => Multiple(multi.(header := h))
    case SubmitReply(submit) => SubmitReply(submit.(header := h))
    case DeliverReply(deliver) => DeliverReply(deliver.(header := h))
    case DataReply(dataResp) => DataReply(dataResp.(header := h))
    case MultipleReply(multiResp) => MultipleReply(multiResp.(header := h))
  }

  /** The identifier the session loops dispatch the kind by. */
  function IdOf(m: Message): u32 {
    match m
    case SubmitSm(_) => SUBMIT_SM
    case DeliverSm(_) => DELIVER_SM
    case Data(_) => DATA_SM
    case Multiple(_) => SUBMIT_MULTI
    case SubmitReply(_) => RespId(SUBMIT_SM)
    case DeliverReply(_) => RespId(DELIVER_SM)
    case DataReply(_) => RespId(DATA_SM)
    case MultipleReply(_) => RespId(SUBMIT_MULTI)
  }

  function BodyOf(m: Message): seq<byte> {
    match m
    case SubmitSm(sm) => sm.Body()
    case DeliverSm(sm) => sm.Body()
    case Data(data) => data.Body()
    case Multiple(multi) => multi.Body()
    case SubmitReply(submit) => IdImage(submit.messageId)
    case DeliverReply(deliver) => CString(deliver.messageId)
    case DataReply(dataResp) => dataResp.Body()
    case MultipleReply(multiResp) => multiResp.Image()[16..]
  }

  /** These encoders write the command_length they were built with; the others compute it. */
  predicate StoresLength(m: Message) { m.SubmitReply? || m.DeliverReply? || m.MultipleReply? }

  function Wire(m: Message): seq<byte> {
    if StoresLength(m) then HeaderImage(HeaderOf(m)) + BodyOf(m) else Framed(HeaderOf(m), BodyOf(m))
  }

  /** Every octet the encoder emits, by offset. */
  predicate LaidOut(w: seq<byte>, m: Message) {
    && HeaderAt(w, if StoresLength(m) then HeaderOf(m) else HeaderOf(m).(commandLength := |w| % 0x1_0000_0000))
    && match m
       case SubmitSm(sm) => |w| == ShortMessageSize(sm) && ShortMessageAt(w, sm)
       case DeliverSm(sm) => |w| == ShortMessageSize(sm) && ShortMessageAt(w, sm)
       case Data(data) => |w| == DataSmSize(data) && DataSmAt(w, data)
       case Multiple(multi) =>
         |w| == MultiSize(multi) && MultiAt(w, multi) && StandardAt(w, DestsOffset(multi), multi.destAddresses)
       case SubmitReply(r) => |w| == 16 + IdSize(r.messageId) && IdAt(w, r.messageId)
       case DeliverReply(r) => |w| == 16 + |r.messageId| + 1 && TextAt(w, 16, r.messageId)
       case DataReply(r) => |w| == 16 + IdSize(r.messageId) + TlvsSize(r.tlvs) && DataRespAt(w, r)
       case MultipleReply(r) =>
         if r.header.commandStatus != 0 then |w| == 16
         else
           var id := if r.messageId.Some? then r.messageId.value else [];
           && |w| == 16 + |id| + 1 + 1 + UnsuccessesSize(r.unsuccessSme)
           && MultiRespAt(w, id, r.noUnsuccess, r.unsuccessSme)
  }

  lemma WireIsLaidOut(m: Message)
    ensures LaidOut(Wire(m), m)
  {
    hide Framed, HeaderImage, HeaderAt, ShortMessageAt, DataSmAt, MultiAt, StandardAt, DataRespAt, TextAt, MultiRespAt,
      ShortMessageSize, DataSmSize, MultiSize, UnsuccessesSize, TlvsSize, IdAt, IdSize, CString, IdImage;
    match m
    case SubmitSm(sm) => ShortMessageOctets(sm);
    case DeliverSm(sm) => ShortMessageOctets(sm);
    case Data(data) => DataSmOctets(data);
    case Multiple(multi) => MultiOctets(multi);
    case SubmitReply(r) => SubmitRespOctets(r);
    case DeliverReply(r) => DeliverRespOctets(r);
    case DataReply(r) => DataRespOctets(r);
    case MultipleReply(r) =>
      MultiRespOctets(r);
      assert r.Image()[..16] == HeaderImage(r.header);
      assert r.Image() == Wire(m);
  }

  predicate WellFormed(m: Message) {
    match m
    case SubmitSm(sm) => sm.WellFormed()
    case DeliverSm(sm) => sm.WellFormed()
    case Data(data) => data.WellFormed()
    case Multiple(multi) => multi.WellFormed()
    case SubmitReply(submit) => submit.WellFormed()
    case DeliverReply(deliver) => deliver.WellFormed()
    case DataReply(dataResp) => dataResp.WellFormed()
    case MultipleReply(multiResp) => multiResp.WellFormed()
  }

  /** The message a receiver has: the header with the length that was written. */
  function Canonical(m: Message): Message {
    WithHeader(m, HeaderOf(m).(commandLength := Low32(|Wire(m)|)))
  }

  function DecodeBody(h: CommandHeader, frame: seq<byte>): Result<Message>
    requires |frame| >= 16
  {
    if h.commandId == SUBMIT_SM then Lift(DecodeShortMessage(h, frame), sm => SubmitSm(sm))
    else if h.commandId == DELIVER_SM then Lift(DecodeShortMessage(h, frame), sm => DeliverSm(sm))
    else if h.commandId == DATA_SM then Lift(DecodeDataSm(h, frame), data => Data(data))
    else if h.commandId == SUBMIT_MULTI then Lift(DecodeMulti(h, frame), multi => Multiple(multi))
    else if h.commandId == RespId(SUBMIT_SM) then Lift(DecodeSubmitResp(h, frame), r => SubmitReply(r))
    else if h.commandId == RespId(DELIVER_SM) then Lift(DecodeDeliverResp(h, frame), r => DeliverReply(r))
    else if h.commandId == RespId(DATA_SM) then Lift(DecodeDataResp(h, frame), r => DataReply(r))
    else if h.commandId == RespId(SUBMIT_MULTI) then Lift(DecodeMultiResp(h, frame), r => MultipleReply(r))
    else Err(ESME_RINVCMDID)
  }

  function Lift<T, U>(r: Result<T>, f: T -> U): Result<U> {
    match r
    case Ok(value) => Ok(f(value))
    case Err(error) => Err(error)
  }

  /** What the session loop does with a frame: header first, then the body by command_id. */
  function DecodeFrame(frame: seq<byte>): Result<Message> {
    match DecodeHeader(frame)
    case Err(error) => Err(error)
    case Ok(h) => DecodeBody(h, frame)
  }

  /** The kind a frame decodes to, by the command_id in its octets 4 to 7. */
  lemma KindById(frame: seq<byte>)
    requires DecodeFrame(frame).Ok?
    ensures |frame| >= 16
    ensures var id := Quad(frame[4], frame[5], frame[6], frame[7]);
            match DecodeFrame(frame).value
            case SubmitSm(_) => id == 0x0000_0004
            case DeliverSm(_) => id == 0x0000_0005
            case Data(_) => id == 0x0000_0103
            case Multiple(_) => id == 0x0000_0021
            case SubmitReply(_) => id == 0x8000_0004
            case DeliverReply(_) => id == 0x8000_0005
            case DataReply(_) => id == 0x8000_0103
            case MultipleReply(_) => id == 0x8000_0021
  {
    hide DecodeShortMessage, DecodeDataSm, DecodeMulti, DecodeSubmitResp, DecodeDeliverResp, DecodeDataResp,
      DecodeMultiResp;
  }

  /**
   * What may be sent: a well-formed message under its own command_id, of at most
   * 1 MiB, and, where the length is stored, with the right one.
   */
  predicate Sendable(m: Message) {
    && WellFormed(m) && HeaderOf(m).commandId == IdOf(m) && |Wire(m)| <= MAX_PDU_LEN
    && (StoresLength(m) ==> HeaderOf(m).commandLength == |Wire(m)|)
  }

  /** The body alone comes back exactly when it is well-formed. */
  lemma BodyRoundTripIff(m: Message)
    requires HeaderOf(m).commandId == IdOf(m)
    requires StoresLength(m) ==> HeaderOf(m).commandLength == Low32(|Wire(m)|)
    ensures |Wire(m)| >= 16
    ensures DecodeBody(HeaderOf(Canonical(m)), Wire(m)) == Ok(Canonical(m)) <==> WellFormed(m)
  {
    hide Framed, HeaderImage, Low32, DecodeShortMessage, DecodeDataSm, DecodeMulti, DecodeSubmitResp, DecodeDeliverResp,
      DecodeDataResp, DecodeMultiResp, IdImage, CString;
    var h := HeaderOf(Canonical(m));
    FramedDecodesIff(HeaderOf(m), BodyOf(m));
    match m
    case SubmitSm(sm) => ShortMessageRoundTripIff(sm, h);
    case DeliverSm(sm) => ShortMessageRoundTripIff(sm, h);
    case Data(data) => DataSmRoundTripIff(data, h);
    case Multiple(multi) => MultiRoundTripIff(multi, h);
    case SubmitReply(submit) => SubmitRespRoundTripIff(submit);
    case DeliverReply(deliver) => DeliverRespRoundTripIff(deliver);
    case DataReply(dataResp) => DataRespRoundTripIff(dataResp, h);
    case MultipleReply(multiResp) =>
      MultiRespRoundTripIff(multiResp);
      assert multiResp.Image()[..16] == HeaderImage(multiResp.header);
      assert multiResp.Image() == Wire(m);
  }

  /**
   * One message over the wire: its image is one frame and decodes to the message
   * exactly when the message is sendable.
   */
  lemma FrameRoundTripIff(m: Message)
    requires HeaderOf(m).commandId == IdOf(m)
    ensures IsFrame(Wire(m)) && DecodeFrame(Wire(m)) == Ok(Canonical(m)) <==> Sendable(m)
  {
    hide WellFormed, DecodeBody, BodyOf, HeaderImage, DecodeHeader, FrameFirst, U32At;
    FramedDecodesIff(HeaderOf(m), BodyOf(m));
    HeaderRoundTripIff(HeaderOf(m), BodyOf(m));
    HeaderComesBack(HeaderOf(m), BodyOf(m));
    FrameIffDecodes(Wire(m));
    if StoresLength(m) ==> HeaderOf(m).commandLength == Low32(|Wire(m)|) {
      BodyRoundTripIff(m);
    }
  }

  lemma HeaderComesBack(h: CommandHeader, body: seq<byte>)
    ensures DecodeHeader(HeaderImage(h) + body).Ok? ==> DecodeHeader(HeaderImage(h) + body) == Ok(h)
  {
    hide HeaderImage, U32At;
    HeaderFields(h, body);
  }

  /**
   * A response as accept, or reject with a failing status, builds it. The strings of
   * an accepted submit_multi must hold no NUL; its count is the list's length modulo 256.
   */
  predicate AsBuilt(m: Message) {
    match m
    case SubmitReply(r) => r.messageId.Some? <==> r.header.commandStatus == ESME_ROK
    case DeliverReply(_) => true
    case DataReply(r) => r.messageId.Some? <==> r.header.commandStatus == ESME_ROK
    case MultipleReply(r) =>
      r.header.commandStatus == ESME_ROK ==>
        && r.messageId.Some? && NulFree(r.messageId.value)
        && UnsuccessNulFree(r.unsuccessSme) && r.noUnsuccess == |r.unsuccessSme| % 0x100
    case _ => false
  }

  /** The decoders look at no more of a response's header than its command_id and status. */
  lemma BuiltBodyDecodes(m: Message, h: CommandHeader)
    requires AsBuilt(m) && h.commandId == IdOf(m) && h.commandStatus == HeaderOf(m).commandStatus
    ensures |Wire(m)| >= 16 && DecodeBody(h, Wire(m)).Ok?
  {
    hide HeaderImage, CString, ParseCString, Tlvs.ParseTlvs, Tlvs.Images, Low32, DecodeMultiResp;
    match m
    case SubmitReply(r) =>
      if r.messageId.Some? {
        Terminated(r.messageId.value, []);
        assert CString(r.messageId.value) + [] == CString(r.messageId.value);
      }
    case DeliverReply(r) =>
      Terminated(r.messageId, []);
      assert CString(r.messageId) + [] == CString(r.messageId);
    case DataReply(r) =>
      if r.messageId.Some? {
        Terminated(r.messageId.value, Tlvs.Images(r.tlvs));
      }
    case MultipleReply(r) =>
      assert r.Image()[..16] == HeaderImage(r.header);
      assert r.Image() == Wire(m);
      BuiltMultiRespDecodes(r, h);
  }

  lemma BuiltMultiRespDecodes(r: MultiResp, h: CommandHeader)
    requires AsBuilt(MultipleReply(r)) && h.commandStatus == r.header.commandStatus
    ensures |r.Image()| >= 16 && DecodeMultiResp(h, r.Image()).Ok?
  {
    hide HeaderImage, ParseMultiRespBody, UnsuccessImages;
    if r.header.commandStatus == ESME_ROK {
      MultiRespTruncates(r);
    }
  }

  lemma Terminated(s: seq<byte>, rest: seq<byte>)
    ensures ParseCString(CString(s) + rest).Done?
  {
    TerminatedIff(CString(s) + rest);
    assert (CString(s) + rest)[|s|] == 0;
  }

  /**
   * Such a response decodes at the other side, header and body, whatever its strings
   * and TLVs hold: everywhere but for a rejected deliver_sm, whose stored length is wrong.
   */
  lemma BuiltRepliesDecode(m: Message)
    requires AsBuilt(m) && HeaderOf(m).commandId == IdOf(m) && |Wire(m)| < 0x1_0000_0000
    ensures DecodeFrame(Wire(m)).Ok? <==> (StoresLength(m) ==> HeaderOf(m).commandLength == |Wire(m)|)
  {
    hide HeaderImage, DecodeBody, BodyOf, AsBuilt, DecodeHeader, Framed;
    var h := HeaderOf(m);
    FramedDecodesIff(h, BodyOf(m));
    HeaderRoundTripIff(h, BodyOf(m));
    HeaderComesBack(h, BodyOf(m));
    BuiltBodyDecodes(m, h);
    BuiltBodyDecodes(m, h.(commandLength := Low32(HEADER_LEN + |BodyOf(m)|)));
  }

  // ---- the stream ----------------------------------------------------------

  function Wires(ms: seq<Message>): seq<byte> {
    if ms == [] then [] else Wire(ms[0]) + Wires(ms[1..])
  }

  predicate AllSendable(ms: seq<Message>) { forall m | m in ms :: Sendable(m) }

  /** No message but possibly the last makes the receiving loop leave. */
  ghost predicate KeepsGoing(ends: Ends, n: nat, ms: seq<Message>) {
    forall i | 0 <= i < |ms| :: !ends(n + i, Wire(ms[i]))
  }

  function Frames(ms: seq<Message>): seq<seq<byte>> { seq(|ms|, i requires 0 <= i < |ms| => Wire(ms[i])) }

  lemma {:induction false} WiresCut(ends: Ends, n: nat, ms: seq<Message>, tail: seq<byte>)
    requires AllSendable(ms) && KeepsGoing(ends, n, ms) && FrameFirst(tail).Incomplete?
    ensures CutStream(ends, n, Wires(ms) + tail) == Cut(Frames(ms), tail, NeedMore)
    decreases |ms|
  {
    hide Wire, Sendable, FrameFirst, CutStream;
    if ms == [] {
      WaitingCut(ends, n, tail);
      assert Wires(ms) + tail == tail;
    } else {
      var first, after := Wire(ms[0]), Wires(ms[1..]) + tail;
      SendableFrames(ms[0]);
      Assoc(first, Wires(ms[1..]), tail);
      assert !ends(n + 0, first);
      assert KeepsGoing(ends, n + 1, ms[1..]) by {
        forall i | 0 <= i < |ms[1..]| ensures !ends(n + 1 + i, Wire(ms[1..][i])) {
          assert !ends(n + (i + 1), Wire(ms[i + 1]));
        }
      }
      DecisionIsStable(first, after);
      CutUnfolds(ends, n, first + after);
      WiresCut(ends, n + 1, ms[1..], tail);
      assert first[..|first|] == first && first[|first|..] + after == after;
      assert Frames(ms) == [first] + Frames(ms[1..]);
    }
  }

  lemma SendableFrames(m: Message)
    requires Sendable(m)
    ensures FrameFirst(Wire(m)) == Complete(|Wire(m)|)
    ensures DecodeFrame(Wire(m)) == Ok(Canonical(m))
  {
    hide FrameFirst, Wire, DecodeFrame;
    FrameRoundTripIff(m);
  }

  method EncodeMessage(m: Message) returns (wire: seq<byte>)
    ensures wire == Wire(m) && LaidOut(wire, m)
  {
    hide Framed, HeaderImage, LaidOut;
    WireIsLaidOut(m);
    match m {
      case SubmitSm(sm) => wire := EncodeShortMessage(sm);
      case DeliverSm(sm) => wire := EncodeShortMessage(sm);
      case Data(data) => wire := EncodeDataSm(data);
      case Multiple(multi) => wire := EncodeMulti(multi);
      case DataReply(dataResp) => wire := EncodeDataResp(dataResp);
      case _ =>
        wire := EncodeHeader(HeaderOf(m));
        wire := wire + BodyOf(m);
    }
  }

  /** The sender: everything it writes, in order. */
  method Transmit(ms: seq<Message>) returns (wire: seq<byte>)
    ensures wire == Wires(ms)
  {
    hide Wire;
    wire := [];
    for i := 0 to |ms|
      invariant wire == Wires(ms[..i])
    {
      var image := EncodeMessage(ms[i]);
      WiresAppend(ms[..i], ms[i]);
      assert ms[..i + 1] == ms[..i] + [ms[i]];
      wire := wire + image;
    }
    assert ms[..|ms|] == ms;
  }

  lemma {:induction false} WiresAppend(ms: seq<Message>, m: Message)
    ensures Wires(ms + [m]) == Wires(ms) + Wire(m)
  {
    hide Wire;
    if ms == [] {
      assert ms + [m] == [m];
    } else {
      assert (ms + [m])[1..] == ms[1..] + [m];
      WiresAppend(ms[1..], m);
    }
  }

  /**
   * The receiver, over any way `chunks` of cutting the sender's octets into reads:
   * it decodes exactly the messages sent, in order, and no octet is left over.
   */
  method ReceiveAll(ghost ms: seq<Message>, chunks: seq<seq<byte>>)
    returns (got: seq<Result<Message>>, leftover: seq<byte>)
    requires AllSendable(ms) && Stream(chunks) == Wires(ms)
    ensures |got| == |ms| && forall i | 0 <= i < |ms| :: got[i] == Ok(Canonical(ms[i]))
    ensures leftover == []
  {
    hide Wire, Sendable, FrameFirst, CutStream, Stream, DecodeFrame;
    var reader := new FrameReader(0);
    var never: Ends := (n, frame) => false;
    var frames, stop, used := reader.ReadLoop(never, chunks);
    EmptyIsIncomplete();
    WiresCut(never, 0, ms, []);
    assert Wires(ms) + [] == Wires(ms);
    leftover := reader.buffer;
    assert leftover == leftover + [] == [];
    got := [];
    for i := 0 to |frames|
      invariant |got| == i && forall j | 0 <= j < i :: got[j] == Ok(Canonical(ms[j]))
    {
      SendableFrames(ms[i]);
      got := got + [DecodeFrame(frames[i])];
    }
  }

  // ---- where it breaks -----------------------------------------------------

  /** What the reader sees where the next PDU should begin. */
  lemma ShiftedDecision(next: seq<byte>, more: seq<byte>)
    requires IsFrame(next)
    ensures FrameFirst([0] + next + more) ==
            if |next| < 4096 then Invalid(|next| / 256) else Complete(|next| / 256)
  {
    var after := [0] + next + more;
    assert U32At(next, 0) == |next|;
    assert |next| == U32At(after, 0) * 256 + next[3];
  }

  lemma RejectionFirst(sequenceNumber: u32, status: u32, after: seq<byte>)
    ensures var image := RejectDelivery(sequenceNumber, status).Image();
            && image == image[..16] + [0]
            && FrameFirst(image + after) == Complete(16)
            && (image + after)[..16] == image[..16] && (image + after)[16..] == [0] + after
  {
    hide HeaderImage, U32At;
    var h := RejectDelivery(sequenceNumber, status).header;
    assert RejectDelivery(sequenceNumber, status).Image() + after == HeaderImage(h) + ([0] + after);
    HeaderFields(h, [0] + after);
  }

  /**
   * A rejected deliver_sm leaves one octet more on the wire than its header declares.
   * Whatever PDU comes next, the reader takes 16 octets and looks at it one octet too
   * early. It closes on a bad length if that PDU is shorter than 4096 octets; otherwise
   * it cuts a 256th of its length, and goes on from inside it.
   */
  lemma RejectedDeliveryDesyncs(ends: Ends, n: nat, sequenceNumber: u32, status: u32, next: seq<byte>, more: seq<byte>)
    requires IsFrame(next)
    requires !ends(n, RejectDelivery(sequenceNumber, status).Image()[..16])
    ensures var image := RejectDelivery(sequenceNumber, status).Image();
            var length := |next| / 256;
            var bogus := ([0] + next)[..length];
            var here := CutStream(ends, n, image + (next + more));
            && (|next| < 4096 ==> here == Cut([image[..16]], [0] + (next + more), BadLength(length)))
            && (|next| >= 4096 && !ends(n + 1, bogus) ==>
                  16 <= length < |next|
                  && here == CutStream(ends, n + 2, next[length - 1..] + more).After([image[..16], bogus]))
  {
    hide FrameFirst, CutStream;
    var image := RejectDelivery(sequenceNumber, status).Image();
    var length, first := |next| / 256, image[..16];
    var bogus, after := ([0] + next)[..length], [0] + (next + more);
    RejectionFirst(sequenceNumber, status, next + more);
    ShiftedDecision(next, more);
    assert [0] + next + more == after;
    CutUnfolds(ends, n, image + (next + more));
    CutUnfolds(ends, n + 1, after);
    if |next| >= 4096 {
      assert after[..length] == bogus && after[length..] == next[length - 1..] + more;
      AfterAfter(CutStream(ends, n + 2, after[length..]), [first], [bogus]);
    }
  }
}

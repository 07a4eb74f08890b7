// The response PDUs that carry a body: submit_sm_resp, data_sm_resp, deliver_sm_resp
// and submit_multi_resp (sections 4.4 to 4.7 of the SMPP v3.4 specification). The
// body depends on the status.

module Responses {
  import opened Bytes
  import opened Headers
  import opened Messages
  import Tlvs

  /** A message_id that is present is written with its terminator. */
  function IdImage(id: Option<seq<byte>>): seq<byte> {
    match id
    case None => []
    case Some(s) => CString(s)
  }

  predicate IdNulFree(id: Option<seq<byte>>) { id.Some? ==> NulFree(id.value) }

  // ---- submit_sm_resp ------------------------------------------------------

  datatype SubmitResp = SubmitResp(header: CommandHeader, messageId: Option<seq<byte>>) {
    function Image(): seq<byte> { HeaderImage(header) + IdImage(messageId) }

    /** What accept and reject build: a body if and only if the status is ESME_ROK. */
    predicate WellFormed() {
      (messageId.Some? <==> header.commandStatus == ESME_ROK) && IdNulFree(messageId)
    }
  }

  function DecodeSubmitResp(header: CommandHeader, pdu: seq<byte>): Result<SubmitResp>
    requires |pdu| >= 16
  {
    if header.commandStatus != ESME_ROK then Ok(SubmitResp(header, None))
    else match ParseCString(pdu[16..])
      case Fail => Err(ESME_RINVPARLEN)
      case Done(id, _) => Ok(SubmitResp(header, Some(id)))
  }

  lemma SubmitRespRoundTripIff(r: SubmitResp)
    ensures DecodeSubmitResp(r.header, r.Image()) == Ok(r) <==> r.WellFormed()
  {
    hide HeaderImage;
    var body := IdImage(r.messageId);
    assert r.Image()[16..] == body;
    if r.messageId.Some? {
      assert body == body + [];
      ParseCStringIff(body, r.messageId.value, []);
      var parsed := ParseCString(body);
      if parsed.Done? {
        ParseCStringIff(body, parsed.value, parsed.rest);
      }
    }
  }

  // ---- data_sm_resp --------------------------------------------------------

  datatype DataResp = DataResp(header: CommandHeader, messageId: Option<seq<byte>>, tlvs: seq<Tlvs.Tlv>) {
    function Body(): seq<byte> { IdImage(messageId) + Tlvs.Images(tlvs) }

    /**
     * A failed response has TLVs only; a successful one has a message_id and TLVs,
     * or neither.
     */
    predicate WellFormed() {
      && (if header.commandStatus != ESME_ROK then messageId.None? else messageId.Some? || tlvs == [])
      && IdNulFree(messageId) && Tlvs.AllFit(tlvs)
    }
  }

  function DecodeDataResp(header: CommandHeader, pdu: seq<byte>): Result<DataResp> {
    if header.commandStatus != ESME_ROK then
      Ok(DataResp(header, None, Tlvs.ParseTlvs(if |pdu| >= 16 then pdu[16..] else []).0))
    else if |pdu| > 16 then
      match ParseCString(pdu[16..])
      case Fail => Err(ESME_RINVPARLEN)
      case Done(id, rest) => Ok(DataResp(header, Some(id), Tlvs.ParseTlvs(rest).0))
    else Ok(DataResp(header, None, []))
  }

  method EncodeDataResp(r: DataResp) returns (buffer: seq<byte>)
    ensures buffer == Framed(r.header, r.Body())
  {
    hide HeaderImage, Low32, Tlvs.Images;
    var baseLen := match r.messageId
      case Some(id) => Low32(17 + Low32(|id|))
      case None => 16;
    var tlvsLen := Tlvs.TlvsEncodedLen(r.tlvs);
    var totalLen := Low32(baseLen + Low32(tlvsLen));
    if r.messageId.Some? {
      Low32Sum(17, |r.messageId.value|);
      Low32Sum(17 + |r.messageId.value|, tlvsLen);
    } else {
      Low32Sum(16, tlvsLen);
    }
    var tlvs := Tlvs.EncodeTlvs(r.tlvs);
    buffer := EncodeHeader(r.header.(commandLength := totalLen));
    Assoc(buffer, IdImage(r.messageId), tlvs);
    match r.messageId {
      case Some(id) =>
        buffer := buffer + CString(id);
      case None =>
        assert buffer + [] == buffer;
    }
    buffer := buffer + tlvs;
  }

  lemma DataRespRoundTripIff(r: DataResp, header: CommandHeader)
    requires header.commandStatus == r.header.commandStatus
    ensures DecodeDataResp(header, Framed(r.header, r.Body())) == Ok(r.(header := header)) <==> r.WellFormed()
  {
    hide Framed, DecodeHeader, Tlvs.ParseTlvs, Tlvs.Images, ParseCString;
    var tlvs := Tlvs.Images(r.tlvs);
    FramedDecodesIff(r.header, r.Body());
    assert tlvs == tlvs + [];
    match r.messageId {
      case None =>
        assert r.Body() == tlvs;
        Tlvs.GreedyParseIff(tlvs, Tlvs.ParseTlvs(tlvs).0, Tlvs.ParseTlvs(tlvs).1);
        Tlvs.GreedyParseIff(tlvs, r.tlvs, []);
        EmptyImages(r.tlvs);
      case Some(id) =>
        ParseCStringIff(r.Body(), id, tlvs);
        match ParseCString(r.Body())
        case Fail =>
        case Done(parsed, rest) =>
          ParseCStringIff(r.Body(), parsed, rest);
          Tlvs.GreedyParseIff(rest, Tlvs.ParseTlvs(rest).0, Tlvs.ParseTlvs(rest).1);
          if parsed == id {
            assert rest == r.Body()[|CString(id)|..] == tlvs;
            Tlvs.GreedyParseIff(tlvs, r.tlvs, []);
          }
    }
  }

  /**
   * Whether a data_sm_resp decodes at all, whoever built it: not exactly when it claims
   * success and has a body without a terminator.
   */
  lemma DataRespDecodesIff(r: DataResp, header: CommandHeader)
    requires header.commandStatus == r.header.commandStatus
    ensures DecodeDataResp(header, Framed(r.header, r.Body())).Ok? <==>
            (r.header.commandStatus != ESME_ROK || r.Body() == [] || 0 in r.Body())
  {
    hide Framed, DecodeHeader, Tlvs.ParseTlvs, ParseCString;
    FramedDecodesIff(r.header, r.Body());
    TerminatedIff(r.Body());
  }

  /** data_sm.reject, with TLVs added. */
  function RejectData(sequenceNumber: u32, status: u32, tlvs: seq<Tlvs.Tlv>): DataResp {
    DataResp(CommandHeader(16, RespId(DATA_SM), status, sequenceNumber), None, tlvs)
  }

  /** Such a reply can be built: a rejection that claims success, with a message_payload of 257 ones. */
  lemma UndecodableRejection(sequenceNumber: u32) returns (r: DataResp)
    ensures r == RejectData(sequenceNumber, ESME_ROK, [Tlvs.Tlv(0x0424, Ones())])
    ensures DecodeDataResp(r.header, Framed(r.header, r.Body())) == Err(ESME_RINVPARLEN)
  {
    hide Framed, Tlvs.Images;
    var payload := Ones();
    r := RejectData(sequenceNumber, ESME_ROK, [Tlvs.Tlv(0x0424, payload)]);
    DataRespDecodesIff(r, r.header);
    PayloadHasNoNul();
    assert [] + Tlvs.Images(r.tlvs) == Tlvs.Images(r.tlvs);
    FramedDecodesIff(r.header, r.Body());
  }

  function Ones(): seq<byte> { seq(257, _ => 1) }

  lemma PayloadHasNoNul()
    ensures var image := Tlvs.Images([Tlvs.Tlv(0x0424, Ones())]); image != [] && 0 !in image
  {
    var t := Tlvs.Tlv(0x0424, Ones());
    assert [t][1..] == [];
    assert Tlvs.Images([t]) == Tlvs.Image(t) + [];
    assert Tlvs.Image(t) == [0x04, 0x24] + ([0x01, 0x01] + Ones());
  }

  lemma EmptyImages(ts: seq<Tlvs.Tlv>)
    ensures Tlvs.Images(ts) == [] <==> ts == []
  {}

  // ---- deliver_sm_resp -----------------------------------------------------

  datatype DeliverResp = DeliverResp(header: CommandHeader, messageId: seq<byte>) {
    function Image(): seq<byte> { HeaderImage(header) + CString(messageId) }

    predicate WellFormed() {
      if header.commandStatus == ESME_ROK then NulFree(messageId) else messageId == []
    }
  }

  function AcceptDelivery(sequenceNumber: u32): DeliverResp {
    DeliverResp(CommandHeader(16 + 1, RespId(DELIVER_SM), ESME_ROK, sequenceNumber), [])
  }

  function RejectDelivery(sequenceNumber: u32, status: u32): DeliverResp {
    DeliverResp(CommandHeader(16, RespId(DELIVER_SM), status, sequenceNumber), [])
  }

  function DecodeDeliverResp(header: CommandHeader, pdu: seq<byte>): Result<DeliverResp> {
    if header.commandStatus != ESME_ROK then Ok(DeliverResp(header, []))
    else if |pdu| > 16 then
      match ParseCString(pdu[16..])
      case Fail => Err(ESME_RINVPARLEN)
      case Done(id, _) => Ok(DeliverResp(header, id))
    else Ok(DeliverResp(header, []))
  }

  lemma DeliverRespRoundTripIff(r: DeliverResp)
    ensures DecodeDeliverResp(r.header, r.Image()) == Ok(r) <==> r.WellFormed()
  {
    hide HeaderImage, ParseCString;
    var body := CString(r.messageId);
    assert r.Image()[16..] == body;
    assert body == body + [];
    ParseCStringIff(body, r.messageId, []);
    var parsed := ParseCString(body);
    if parsed.Done? {
      ParseCStringIff(body, parsed.value, parsed.rest);
    }
  }

  /**
   * An accepted delivery's response frames as one PDU; a rejected one declares
   * 16 octets and emits 17, so its header does not even decode.
   */
  lemma DeliverRespLength(sequenceNumber: u32, status: u32)
    ensures DecodeHeader(AcceptDelivery(sequenceNumber).Image()) == Ok(AcceptDelivery(sequenceNumber).header)
    ensures DecodeHeader(RejectDelivery(sequenceNumber, status).Image()) == Err(ESME_RINVMSGLEN)
  {
    hide HeaderImage, U32At;
    HeaderFields(AcceptDelivery(sequenceNumber).header, CString([]));
    HeaderFields(RejectDelivery(sequenceNumber, status).header, CString([]));
  }

  // ---- submit_multi_resp ---------------------------------------------------

  datatype UnsuccessSme = UnsuccessSme(address: Address, errorStatusCode: u32)

  function UnsuccessImage(u: UnsuccessSme): (b: seq<byte>)
    ensures |b| == 1 + 1 + |u.address.addr| + 1 + 4
  {
    AddressImage(u.address) + Be32(u.errorStatusCode)
  }

  function ParseUnsuccess(input: seq<byte>): Parsed<UnsuccessSme> {
    var (address, input) :- ParseAddress(input);
    var (code, input) :- ParseU32(input);
    Done(UnsuccessSme(address, code), input)
  }

  lemma ParseUnsuccessIff(input: seq<byte>, u: UnsuccessSme, rest: seq<byte>)
    ensures ParseUnsuccess(input) == Done(u, rest)
            <==> NulFree(u.address.addr) && input == UnsuccessImage(u) + rest
  {
    hide ParseAddress, ParseU32, AddressImage, Be32, NulFree;
    Assoc(AddressImage(u.address), Be32(u.errorStatusCode), rest);
    ParseAddressIff(input, u.address, Be32(u.errorStatusCode) + rest);
    ParseU32Iff(Be32(u.errorStatusCode) + rest, u.errorStatusCode, rest);
    match ParseAddress(input)
    case Fail =>
    case Done(address, after) =>
      ParseAddressIff(input, address, after);
      ParseU32Iff(after, u.errorStatusCode, rest);
  }

  function UnsuccessImages(us: seq<UnsuccessSme>): seq<byte> {
    if us == [] then [] else UnsuccessImage(us[0]) + UnsuccessImages(us[1..])
  }

  predicate UnsuccessNulFree(us: seq<UnsuccessSme>) { forall u | u in us :: NulFree(u.address.addr) }

  function ParseUnsuccesses(n: nat, input: seq<byte>): Parsed<seq<UnsuccessSme>> {
    if n == 0 then Done([], input)
    else
      var (u, input) :- ParseUnsuccess(input);
      var (more, input) :- ParseUnsuccesses(n - 1, input);
      Done([u] + more, input)
  }

  lemma {:induction false} ParseUnsuccessesIff(n: nat, input: seq<byte>, us: seq<UnsuccessSme>, rest: seq<byte>)
    ensures ParseUnsuccesses(n, input) == Done(us, rest)
            <==> |us| == n && UnsuccessNulFree(us) && input == UnsuccessImages(us) + rest
  {
    hide ParseUnsuccess, UnsuccessImage, NulFree;
    if n == 0 {
      assert us == [] ==> UnsuccessImages(us) + rest == rest;
    } else if us != [] {
      var after := UnsuccessImages(us[1..]) + rest;
      Assoc(UnsuccessImage(us[0]), UnsuccessImages(us[1..]), rest);
      assert us == [us[0]] + us[1..];
      ParseUnsuccessIff(input, us[0], after);
      ParseUnsuccessesIff(n - 1, after, us[1..], rest);
      match ParseUnsuccess(input)
      case Fail =>
      case Done(u, i1) =>
        ParseUnsuccessIff(input, u, i1);
        ParseUnsuccessesIff(n - 1, i1, us[1..], rest);
        match ParseUnsuccesses(n - 1, i1)
        case Fail =>
        case Done(more, _) => assert ([u] + more)[1..] == more;
    }
  }

  datatype MultiResp = MultiResp(
    header: CommandHeader,
    messageId: Option<seq<byte>>,
    noUnsuccess: byte,
    unsuccessSme: seq<UnsuccessSme>)
  {
    function Image(): seq<byte> {
      if header.commandStatus != ESME_ROK then HeaderImage(header)
      else
        HeaderImage(header)
        + (CString(if messageId.Some? then messageId.value else [])
           + ([noUnsuccess] + UnsuccessImages(unsuccessSme)))
    }

    predicate WellFormed() {
      if header.commandStatus != ESME_ROK then messageId.None? && noUnsuccess == 0 && unsuccessSme == []
      else
        && messageId.Some? && NulFree(messageId.value)
        && noUnsuccess == |unsuccessSme| && UnsuccessNulFree(unsuccessSme)
    }
  }

  function DecodeMultiResp(header: CommandHeader, pdu: seq<byte>): Result<MultiResp>
    requires |pdu| >= 16
  {
    if header.commandStatus != ESME_ROK then Ok(MultiResp(header, None, 0, []))
    else match ParseMultiRespBody(pdu[16..])
      case Fail => Err(ESME_RINVPARLEN)
      case Done((id, n, us), _) => Ok(MultiResp(header, Some(id), n, us))
  }

  function ParseMultiRespBody(input: seq<byte>): Parsed<(seq<byte>, byte, seq<UnsuccessSme>)> {
    var (id, input) :- ParseCString(input);
    var (n, input) :- ParseU8(input);
    var (us, input) :- ParseUnsuccesses(n, input);
    Done((id, n, us), input)
  }

  lemma MultiRespRoundTripIff(r: MultiResp)
    ensures DecodeMultiResp(r.header, r.Image()) == Ok(r) <==> r.WellFormed()
  {
    hide HeaderImage, CString, ParseCString, ParseUnsuccesses, UnsuccessImages, NulFree, UnsuccessNulFree;
    if r.header.commandStatus == ESME_ROK {
      var id := if r.messageId.Some? then r.messageId.value else [];
      var list := UnsuccessImages(r.unsuccessSme);
      var body := CString(id) + ([r.noUnsuccess] + list);
      assert r.Image()[16..] == body;
      assert list + [] == list;
      ParseCStringIff(body, id, [r.noUnsuccess] + list);
      ParseU8Iff([r.noUnsuccess] + list, r.noUnsuccess, list);
      ParseUnsuccessesIff(r.noUnsuccess, list, r.unsuccessSme, []);
      if ParseMultiRespBody(body).Done? {
        var (parsedId, i1) := ParseCString(body).Extract();
        var (n, i2) := ParseU8(i1).Extract();
        var (us, rest) := ParseUnsuccesses(n, i2).Extract();
        ParseCStringIff(body, parsedId, i1);
        ParseUnsuccessesIff(n, i2, us, rest);
      }
    }
  }

  lemma {:induction false} UnsuccessImagesSplit(us: seq<UnsuccessSme>, n: nat)
    requires n <= |us|
    ensures UnsuccessImages(us) == UnsuccessImages(us[..n]) + UnsuccessImages(us[n..])
  {
    hide UnsuccessImage;
    if n == 0 {
      assert us[..0] == [] && us[0..] == us;
    } else {
      UnsuccessImagesSplit(us[1..], n - 1);
      assert us[..n][1..] == us[1..][..n - 1] && us[n..] == us[1..][n - 1..];
    }
  }

  /**
   * A list longer than its count, which is what accept builds from more than 255
   * entries: the reader gets as many entries as the count says, and no error.
   */
  lemma MultiRespTruncates(r: MultiResp)
    requires r.header.commandStatus == ESME_ROK
    requires r.messageId.Some? && NulFree(r.messageId.value) && UnsuccessNulFree(r.unsuccessSme)
    requires r.noUnsuccess <= |r.unsuccessSme|
    ensures DecodeMultiResp(r.header, r.Image()) == Ok(r.(unsuccessSme := r.unsuccessSme[..r.noUnsuccess]))
  {
    var n, us := r.noUnsuccess, r.unsuccessSme;
    assert UnsuccessNulFree(us[..n]);
    hide HeaderImage, CString, ParseCString, ParseUnsuccesses, UnsuccessImages, NulFree, UnsuccessNulFree;
    var list, rest := UnsuccessImages(us), UnsuccessImages(us[n..]);
    var body := CString(r.messageId.value) + ([n] + list);
    assert r.Image()[16..] == body;
    UnsuccessImagesSplit(us, n);
    ParseCStringIff(body, r.messageId.value, [n] + list);
    ParseU8Iff([n] + list, n, list);
    ParseUnsuccessesIff(n, list, us[..n], rest);
  }

  /** accept: the entry count and the length are both cast to their field's width. */
  method AcceptMulti(sequenceNumber: u32, messageId: seq<byte>, unsuccess: seq<UnsuccessSme>)
    returns (r: MultiResp)
    ensures r.header.sequenceNumber == sequenceNumber && r.header.commandId == RespId(SUBMIT_MULTI)
    ensures r.header.commandStatus == ESME_ROK
    ensures r.messageId == Some(messageId) && r.unsuccessSme == unsuccess
    ensures r.header.commandLength == Low32(|r.Image()|)
    ensures r.WellFormed() <==> |unsuccess| < 256 && NulFree(messageId) && UnsuccessNulFree(unsuccess)
  {
    hide NulFree, UnsuccessNulFree, UnsuccessImage;
    var unsuccessLen := 0;
    for i := 0 to |unsuccess|
      invariant unsuccessLen == |UnsuccessImages(unsuccess[..i])|
    {
      assert unsuccess[..i + 1] == unsuccess[..i] + [unsuccess[i]];
      UnsuccessImagesAppend(unsuccess[..i], unsuccess[i]);
      unsuccessLen := unsuccessLen + (1 + 1 + |unsuccess[i].address.addr| + 1 + 4);
    }
    assert unsuccess[..|unsuccess|] == unsuccess;
    var length := Low32(16 + |messageId| + 1 + 1 + unsuccessLen);
    r := MultiResp(CommandHeader(length, RespId(SUBMIT_MULTI), ESME_ROK, sequenceNumber),
                   Some(messageId), |unsuccess| % 0x100, unsuccess);
  }

  lemma {:induction false} UnsuccessImagesAppend(us: seq<UnsuccessSme>, u: UnsuccessSme)
    ensures UnsuccessImages(us + [u]) == UnsuccessImages(us) + UnsuccessImage(u)
  {
    hide UnsuccessImage;
    if us != [] {
      assert (us + [u])[1..] == us[1..] + [u];
      UnsuccessImagesAppend(us[1..], u);
    }
  }
}

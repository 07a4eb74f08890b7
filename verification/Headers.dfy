// The 16-octet command header (section 3.2 of the SMPP v3.4 specification) and
// the command identifiers and status codes the session layer names.

module Headers {
  import opened Bytes

  const GENERIC_NACK: u32 := 0x8000_0000
  const BIND_RECEIVER: u32 := 0x0000_0001
  const BIND_TRANSMITTER: u32 := 0x0000_0002
  const QUERY_SM: u32 := 0x0000_0003
  const SUBMIT_SM: u32 := 0x0000_0004
  const DELIVER_SM: u32 := 0x0000_0005
  const UNBIND: u32 := 0x0000_0006
  const REPLACE_SM: u32 := 0x0000_0007
  const CANCEL_SM: u32 := 0x0000_0008
  const BIND_TRANSCEIVER: u32 := 0x0000_0009
  const ENQUIRE_LINK: u32 := 0x0000_0015
  const SUBMIT_MULTI: u32 := 0x0000_0021
  const ALERT_NOTIFICATION: u32 := 0x0000_0102
  const DATA_SM: u32 := 0x0000_0103

  /** A response carries its request's identifier with bit 31 set. */
  function RespId(id: u32): u32 {
    if id < 0x8000_0000 then id + 0x8000_0000 else id
  }

  const ESME_ROK: u32 := 0x00

  datatype SmppError = ESME_RINVMSGLEN | ESME_RINVCMDLEN | ESME_RINVCMDID | ESME_RINVPARLEN

  datatype Option<+T> = None | Some(value: T)

  datatype Result<+T> = Ok(value: T) | Err(error: SmppError)

  datatype CommandHeader = CommandHeader(
    commandLength: u32,
    commandId: u32,
    commandStatus: u32,
    sequenceNumber: u32)

  const HEADER_LEN: nat := 16

  function HeaderImage(h: CommandHeader): (b: seq<byte>)
    ensures |b| == HEADER_LEN
  {
    Be32(h.commandLength) + Be32(h.commandId) + Be32(h.commandStatus) + Be32(h.sequenceNumber)
  }

  function DecodeHeader(pdu: seq<byte>): Result<CommandHeader> {
    if |pdu| < HEADER_LEN then Err(ESME_RINVCMDLEN)
    else
      var header := CommandHeader(U32At(pdu, 0), U32At(pdu, 4), U32At(pdu, 8), U32At(pdu, 12));
      if |pdu| != header.commandLength then Err(ESME_RINVMSGLEN)
      else Ok(header)
  }

  method EncodeHeader(h: CommandHeader) returns (buffer: seq<byte>)
    ensures buffer == HeaderImage(h)
  {
    buffer := [];
    buffer := buffer + Be32(h.commandLength);
    buffer := buffer + Be32(h.commandId);
    buffer := buffer + Be32(h.commandStatus);
    buffer := buffer + Be32(h.sequenceNumber);
    assert [] + Be32(h.commandLength) == Be32(h.commandLength);
  }

  lemma HeaderFields(h: CommandHeader, body: seq<byte>)
    ensures var pdu := HeaderImage(h) + body;
            && U32At(pdu, 0) == h.commandLength && U32At(pdu, 4) == h.commandId
            && U32At(pdu, 8) == h.commandStatus && U32At(pdu, 12) == h.sequenceNumber
  {
    hide Be32, U32At;
    var pdu := HeaderImage(h) + body;
    var l, i, s, n := Be32(h.commandLength), Be32(h.commandId), Be32(h.commandStatus), Be32(h.sequenceNumber);
    U32AtAfter([], h.commandLength, i + s + n + body);
    U32AtAfter(l, h.commandId, s + n + body);
    U32AtAfter(l + i, h.commandStatus, n + body);
    U32AtAfter(l + i + s, h.sequenceNumber, body);
    assert pdu == [] + l + (i + s + n + body) == l + i + (s + n + body);
    assert pdu == (l + i) + s + (n + body) == (l + i + s) + n + body;
  }

  /** A header is decoded off a PDU exactly when its length names the whole PDU. */
  lemma HeaderRoundTripIff(h: CommandHeader, body: seq<byte>)
    ensures DecodeHeader(HeaderImage(h) + body) == Ok(h) <==> h.commandLength == HEADER_LEN + |body|
    ensures (HeaderImage(h) + body)[HEADER_LEN..] == body
  {
    hide HeaderImage, U32At;
    HeaderFields(h, body);
  }

  lemma U32AtIsSlice(bytes: seq<byte>, offset: nat)
    requires offset + 4 <= |bytes|
    ensures Be32(U32At(bytes, offset)) == bytes[offset..offset + 4]
  {
    FromBe32Inverse(bytes[offset], bytes[offset + 1], bytes[offset + 2], bytes[offset + 3]);
  }

  /** Conversely, the decoded header prints back to the first 16 octets. */
  lemma DecodedHeaderIsPrefix(pdu: seq<byte>)
    ensures DecodeHeader(pdu).Ok? ==> HeaderImage(DecodeHeader(pdu).value) == pdu[..HEADER_LEN]
  {
    hide Be32, U32At;
    if |pdu| >= HEADER_LEN {
      U32AtIsSlice(pdu, 0);
      U32AtIsSlice(pdu, 4);
      U32AtIsSlice(pdu, 8);
      U32AtIsSlice(pdu, 12);
      assert pdu[..16] == pdu[0..4] + pdu[4..8] + pdu[8..12] + pdu[12..16];
    }
  }
}

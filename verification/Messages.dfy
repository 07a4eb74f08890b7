// The message PDUs submit_sm, deliver_sm, data_sm and submit_multi (sections 4.2
// and 4.4 to 4.6 of the SMPP v3.4 specification): decoding, encoding and the
// separately computed command_length.
//
// submit_sm and deliver_sm have one layout and share the datatype ShortMessage;
// the run of fields from esm_class to the TLVs is also that of submit_multi, and
// is the datatype Content. Strings are the octets between the terminators.

module Messages {
  import opened Bytes
  import opened Headers
  import Tlvs

  // ---- shared pieces -------------------------------------------------------

  /**
   * The wire image of a message: its header, with command_length set to the
   * length of the whole, in front of its body. The field has 32 bits.
   */
  function Framed(header: CommandHeader, body: seq<byte>): seq<byte> {
    HeaderImage(header.(commandLength := Low32(HEADER_LEN + |body|))) + body
  }

  /**
   * The command_length written is the number of octets emitted, and so the image
   * decodes at all, exactly for an image of less than 4 GiB.
   */
  lemma FramedDecodesIff(header: CommandHeader, body: seq<byte>)
    ensures |Framed(header, body)| == HEADER_LEN + |body|
    ensures Framed(header, body)[HEADER_LEN..] == body
    ensures DecodeHeader(Framed(header, body)).Ok? <==> HEADER_LEN + |body| < 0x1_0000_0000
    ensures HEADER_LEN + |body| < 0x1_0000_0000 ==>
              DecodeHeader(Framed(header, body)) == Ok(header.(commandLength := HEADER_LEN + |body|))
    ensures U32At(Framed(header, body), 0) == Low32(HEADER_LEN + |body|)
  {
    hide HeaderImage, U32At;
    var h := header.(commandLength := Low32(HEADER_LEN + |body|));
    HeaderFields(h, body);
    HeaderRoundTripIff(h, body);
  }

  datatype Address = Address(ton: byte, npi: byte, addr: seq<byte>)

  function AddressImage(a: Address): (b: seq<byte>)
    ensures |b| == 3 + |a.addr|
  {
    [a.ton, a.npi] + CString(a.addr)
  }

  function ParseAddress(input: seq<byte>): Parsed<Address> {
    var (flags, input) :- Take(2, input);
    var (addr, input) :- ParseCString(input);
    Done(Address(flags[0], flags[1], addr), input)
  }

  lemma ParseAddressIff(input: seq<byte>, a: Address, rest: seq<byte>)
    ensures ParseAddress(input) == Done(a, rest) <==> NulFree(a.addr) && input == AddressImage(a) + rest
  {
    hide ParseCString, NulFree;
    TakeIff(2, input, [a.ton, a.npi], CString(a.addr) + rest);
    Assoc([a.ton, a.npi], CString(a.addr), rest);
    match Take(2, input)
    case Fail =>
    case Done(flags, after) =>
      TakeIff(2, input, flags, after);
      ParseCStringIff(after, a.addr, rest);
      assert flags == [flags[0], flags[1]];
  }

  datatype Content = Content(
    esmClass: byte, protocolId: byte, priorityFlag: byte,
    scheduleDeliveryTime: seq<byte>,
    validityPeriod: seq<byte>,
    registeredDelivery: byte, replaceIfPresentFlag: byte, dataCoding: byte, smDefaultMsgId: byte, smLength: byte,
    shortMessage: seq<byte>,
    tlvs: seq<Tlvs.Tlv>)

  predicate ContentWellFormed(c: Content) {
    && NulFree(c.scheduleDeliveryTime) && NulFree(c.validityPeriod)
    && c.smLength == |c.shortMessage|
    && Tlvs.AllFit(c.tlvs)
  }

  function Flags3(c: Content): seq<byte> { [c.esmClass, c.protocolId, c.priorityFlag] }

  function Flags5(c: Content): seq<byte> {
    [c.registeredDelivery, c.replaceIfPresentFlag, c.dataCoding, c.smDefaultMsgId, c.smLength]
  }

  /** The octets of `c` in front of `tail`. */
  function ContentThen(c: Content, tail: seq<byte>): seq<byte> {
    Flags3(c) + (CString(c.scheduleDeliveryTime) + (CString(c.validityPeriod)
      + (Flags5(c) + (c.shortMessage + (Tlvs.Images(c.tlvs) + tail)))))
  }

  /** Never fails on the TLVs: what they leave unread is the rest. */
  function ParseContent(input: seq<byte>): Parsed<Content> {
    var (a, input) :- Take(3, input);
    var (schedule, input) :- ParseCString(input);
    var (validity, input) :- ParseCString(input);
    var (b, input) :- Take(5, input);
    var (message, input) :- Take(b[4], input);
    var (tlvs, tail) := Tlvs.ParseTlvs(input);
    Done(Content(a[0], a[1], a[2], schedule, validity, b[0], b[1], b[2], b[3], b[4], message, tlvs), tail)
  }

  lemma ParsedContentIsPrefix(input: seq<byte>)
    ensures var r := ParseContent(input);
            r.Done? ==> ContentWellFormed(r.value) && Tlvs.Stuck(r.rest) && input == ContentThen(r.value, r.rest)
  {
    hide ParseCString, NulFree, Tlvs.ParseTlvs, Tlvs.AllFit, Tlvs.Stuck, Tlvs.Images;
    if ParseContent(input).Done? {
      var (a, i1) := Take(3, input).Extract();
      var (schedule, i2) := ParseCString(i1).Extract();
      var (validity, i3) := ParseCString(i2).Extract();
      var (b, i4) := Take(5, i3).Extract();
      var (message, i5) := Take(b[4], i4).Extract();
      var (tlvs, tail) := Tlvs.ParseTlvs(i5);
      TakeIff(3, input, a, i1);
      assert a == [a[0], a[1], a[2]];
      ParseCStringIff(i1, schedule, i2);
      ParseCStringIff(i2, validity, i3);
      TakeIff(5, i3, b, i4);
      assert b == [b[0], b[1], b[2], b[3], b[4]];
      TakeIff(b[4], i4, message, i5);
      Tlvs.GreedyParseIff(i5, tlvs, tail);
    }
  }

  lemma ContentParses(c: Content, tail: seq<byte>)
    requires ContentWellFormed(c) && Tlvs.Stuck(tail)
    ensures ParseContent(ContentThen(c, tail)) == Done(c, tail)
  {
    hide ParseCString, NulFree, Tlvs.ParseTlvs, Tlvs.AllFit, Tlvs.Stuck, Tlvs.Images;
    var i5 := Tlvs.Images(c.tlvs) + tail;
    var i4 := c.shortMessage + i5;
    var i3 := Flags5(c) + i4;
    var i2 := CString(c.validityPeriod) + i3;
    var i1 := CString(c.scheduleDeliveryTime) + i2;
    TakeIff(3, Flags3(c) + i1, Flags3(c), i1);
    ParseCStringIff(i1, c.scheduleDeliveryTime, i2);
    ParseCStringIff(i2, c.validityPeriod, i3);
    TakeIff(5, i3, Flags5(c), i4);
    TakeIff(c.smLength, i4, c.shortMessage, i5);
    Tlvs.GreedyParseIff(i5, c.tlvs, tail);
  }

  /** The parser is the exact inverse of the printer, tail included. */
  lemma ParseContentIff(input: seq<byte>, c: Content, tail: seq<byte>)
    ensures ParseContent(input) == Done(c, tail)
            <==> ContentWellFormed(c) && Tlvs.Stuck(tail) && input == ContentThen(c, tail)
  {
    hide ParseContent, ContentThen, Tlvs.Stuck, ContentWellFormed;
    ParsedContentIsPrefix(input);
    if ContentWellFormed(c) && Tlvs.Stuck(tail) && input == ContentThen(c, tail) {
      ContentParses(c, tail);
    }
  }

  lemma ContentTail(c: Content, tail: seq<byte>)
    ensures ContentThen(c, tail) == ContentThen(c, []) + tail
  {
    hide CString, Flags3, Flags5, Tlvs.Images;
    var a, b, d := Flags3(c), CString(c.scheduleDeliveryTime), CString(c.validityPeriod);
    var e, f, g := Flags5(c), c.shortMessage, Tlvs.Images(c.tlvs);
    assert g + [] == g;
    Assoc(a, b + (d + (e + (f + g))), tail);
    Assoc(b, d + (e + (f + g)), tail);
    Assoc(d, e + (f + g), tail);
    Assoc(e, f + g, tail);
    Assoc(f, g, tail);
  }

  // ---- submit_sm and deliver_sm --------------------------------------------

  datatype ShortMessage = ShortMessage(
    header: CommandHeader,
    serviceType: seq<byte>,
    source: Address,
    dest: Address,
    content: Content)
  {
    predicate WellFormed() {
      NulFree(serviceType) && NulFree(source.addr) && NulFree(dest.addr) && ContentWellFormed(content)
    }

    function BodyThen(tail: seq<byte>): seq<byte> {
      CString(serviceType) + (AddressImage(source) + (AddressImage(dest) + ContentThen(content, tail)))
    }

    function Body(): seq<byte> { BodyThen([]) }
  }

  function ParseShortMessage(header: CommandHeader, input: seq<byte>): Parsed<ShortMessage> {
    var (serviceType, input) :- ParseCString(input);
    var (source, input) :- ParseAddress(input);
    var (dest, input) :- ParseAddress(input);
    var (content, tail) :- ParseContent(input);
    Done(ShortMessage(header, serviceType, source, dest, content), tail)
  }

  lemma ParseShortMessageIff(header: CommandHeader, input: seq<byte>, m: ShortMessage, tail: seq<byte>)
    ensures ParseShortMessage(header, input) == Done(m, tail)
            <==> m.header == header && m.WellFormed() && Tlvs.Stuck(tail) && input == m.BodyThen(tail)
  {
    hide ParseCString, ParseAddress, ParseContent, ContentThen, AddressImage, CString, NulFree, ContentWellFormed,
      Tlvs.Stuck;
    var i3 := ContentThen(m.content, tail);
    var i2 := AddressImage(m.dest) + i3;
    var i1 := AddressImage(m.source) + i2;
    ParseCStringIff(input, m.serviceType, i1);
    ParseAddressIff(i1, m.source, i2);
    ParseAddressIff(i2, m.dest, i3);
    ParseContentIff(i3, m.content, tail);
    if ParseShortMessage(header, input) == Done(m, tail) {
      var (_, j1) := ParseCString(input).Extract();
      var (_, j2) := ParseAddress(j1).Extract();
      var (_, j3) := ParseAddress(j2).Extract();
      ParseCStringIff(input, m.serviceType, j1);
      ParseAddressIff(j1, m.source, j2);
      ParseAddressIff(j2, m.dest, j3);
      ParseContentIff(j3, m.content, tail);
    }
  }

  function DecodeShortMessage(header: CommandHeader, pdu: seq<byte>): Result<ShortMessage> {
    if |pdu| < 16 then Err(ESME_RINVCMDLEN)
    else match ParseShortMessage(header, pdu[16..])
      case Fail => Err(ESME_RINVPARLEN)
      case Done(m, _) => Ok(m)
  }

  /** The length arithmetic of message_command_length, field by field. */
  function MessageCommandLength(m: ShortMessage): u32 {
    Low32(16 + |m.serviceType| + 1 + 1 + 1 + |m.source.addr| + 1 + 1 + 1 + |m.dest.addr| + 1 + 1 + 1 + 1
          + |m.content.scheduleDeliveryTime| + 1 + |m.content.validityPeriod| + 1 + 1 + 1 + 1 + 1 + 1
          + |m.content.shortMessage|)
  }

  /** Appends the fields from esm_class to the TLVs. */
  method AppendContent(start: seq<byte>, c: Content) returns (buffer: seq<byte>)
    ensures buffer == start + ContentThen(c, [])
  {
    hide CString, Flags3, Flags5, Tlvs.Images;
    var tlvs := Tlvs.EncodeTlvs(c.tlvs);
    ghost var e := c.shortMessage + (tlvs + []);
    ghost var d := Flags5(c) + e;
    ghost var b := CString(c.validityPeriod) + d;
    ghost var a := CString(c.scheduleDeliveryTime) + b;
    Assoc(start, Flags3(c), a);
    buffer := start + Flags3(c);
    Assoc(buffer, CString(c.scheduleDeliveryTime), b);
    buffer := buffer + CString(c.scheduleDeliveryTime);
    Assoc(buffer, CString(c.validityPeriod), d);
    buffer := buffer + CString(c.validityPeriod);
    Assoc(buffer, Flags5(c), e);
    buffer := buffer + Flags5(c);
    Assoc(buffer, c.shortMessage, tlvs + []);
    buffer := buffer + c.shortMessage;
    assert tlvs + [] == tlvs;
    buffer := buffer + tlvs;
  }

  /** The computed length is the number of octets the encoder emits, in 32 bits. */
  lemma ShortMessageLength(m: ShortMessage)
    ensures Low32(MessageCommandLength(m) + Low32(|Tlvs.Images(m.content.tlvs)|)) == Low32(HEADER_LEN + |m.Body()|)
  {
    hide Low32, Tlvs.Images;
    Low32Sum(HEADER_LEN + |m.Body()| - |Tlvs.Images(m.content.tlvs)|, |Tlvs.Images(m.content.tlvs)|);
  }

  method EncodeShortMessage(m: ShortMessage) returns (buffer: seq<byte>)
    ensures buffer == Framed(m.header, m.Body())
  {
    hide CString, AddressImage, ContentThen, HeaderImage, Low32, MessageCommandLength, Tlvs.Images;
    var baseLen := MessageCommandLength(m);
    var tlvsLen := Tlvs.TlvsEncodedLen(m.content.tlvs);
    var totalLen := Low32(baseLen + Low32(tlvsLen));
    ShortMessageLength(m);
    ghost var b := AddressImage(m.dest) + ContentThen(m.content, []);
    ghost var a := AddressImage(m.source) + b;
    buffer := EncodeHeader(m.header.(commandLength := totalLen));
    Assoc(buffer, CString(m.serviceType), a);
    buffer := buffer + CString(m.serviceType);
    Assoc(buffer, AddressImage(m.source), b);
    buffer := buffer + AddressImage(m.source);
    Assoc(buffer, AddressImage(m.dest), ContentThen(m.content, []));
    buffer := buffer + AddressImage(m.dest);
    buffer := AppendContent(buffer, m.content);
  }

  /** Encoding then decoding is the identity on exactly the well-formed messages. */
  lemma ShortMessageRoundTripIff(m: ShortMessage, header: CommandHeader)
    ensures DecodeShortMessage(header, Framed(m.header, m.Body())) == Ok(m.(header := header)) <==> m.WellFormed()
  {
    hide ParseShortMessage, Framed, DecodeHeader;
    FramedDecodesIff(m.header, m.Body());
    var decoded := ParseShortMessage(header, m.Body());
    if decoded.Done? {
      ParseShortMessageIff(header, m.Body(), decoded.value, decoded.rest);
    }
    ParseShortMessageIff(header, m.Body(), m.(header := header), []);
  }

  /**
   * Whatever decodes is a normal form: re-encoding it yields the received body
   * without its unparsable TLV tail, and decodes to the same message again.
   */
  lemma ShortMessageNormalises(header: CommandHeader, pdu: seq<byte>) returns (tail: seq<byte>)
    requires DecodeShortMessage(header, pdu).Ok?
    ensures var m := DecodeShortMessage(header, pdu).value;
            && pdu[16..] == Framed(m.header, m.Body())[16..] + tail
            && Tlvs.Stuck(tail)
            && DecodeShortMessage(header, Framed(m.header, m.Body())) == Ok(m)
  {
    hide ParseShortMessage, Framed, DecodeHeader, ContentThen, CString, AddressImage;
    var parsed := ParseShortMessage(header, pdu[16..]);
    var m := parsed.value;
    tail := parsed.rest;
    ParseShortMessageIff(header, pdu[16..], m, tail);
    ShortMessageRoundTripIff(m, header);
    FramedDecodesIff(m.header, m.Body());
    ContentTail(m.content, tail);
    Assoc(AddressImage(m.dest), ContentThen(m.content, []), tail);
    Assoc(AddressImage(m.source), AddressImage(m.dest) + ContentThen(m.content, []), tail);
    Assoc(CString(m.serviceType), AddressImage(m.source) + (AddressImage(m.dest) + ContentThen(m.content, [])), tail);
  }

  // ---- data_sm -------------------------------------------------------------

  datatype DataSm = DataSm(
    header: CommandHeader,
    serviceType: seq<byte>,
    source: Address,
    dest: Address,
    esmClass: byte, registeredDelivery: byte, dataCoding: byte,
    tlvs: seq<Tlvs.Tlv>)
  {
    predicate WellFormed() {
      NulFree(serviceType) && NulFree(source.addr) && NulFree(dest.addr) && Tlvs.AllFit(tlvs)
    }

    function Flags(): seq<byte> { [esmClass, registeredDelivery, dataCoding] }

    function BodyThen(tail: seq<byte>): seq<byte> {
      CString(serviceType) + (AddressImage(source) + (AddressImage(dest) + (Flags() + (Tlvs.Images(tlvs) + tail))))
    }

    function Body(): seq<byte> { BodyThen([]) }
  }

  function ParseDataSm(header: CommandHeader, input: seq<byte>): Parsed<DataSm> {
    var (serviceType, input) :- ParseCString(input);
    var (source, input) :- ParseAddress(input);
    var (dest, input) :- ParseAddress(input);
    var (f, input) :- Take(3, input);
    var (tlvs, tail) := Tlvs.ParseTlvs(input);
    Done(DataSm(header, serviceType, source, dest, f[0], f[1], f[2], tlvs), tail)
  }

  lemma ParseDataSmIff(header: CommandHeader, input: seq<byte>, m: DataSm, tail: seq<byte>)
    ensures ParseDataSm(header, input) == Done(m, tail)
            <==> m.header == header && m.WellFormed() && Tlvs.Stuck(tail) && input == m.BodyThen(tail)
  {
    hide ParseCString, ParseAddress, Tlvs.ParseTlvs, Tlvs.Images, Tlvs.AllFit, Tlvs.Stuck, AddressImage, CString,
      NulFree;
    var i4 := Tlvs.Images(m.tlvs) + tail;
    var i3 := m.Flags() + i4;
    var i2 := AddressImage(m.dest) + i3;
    var i1 := AddressImage(m.source) + i2;
    ParseCStringIff(input, m.serviceType, i1);
    ParseAddressIff(i1, m.source, i2);
    ParseAddressIff(i2, m.dest, i3);
    TakeIff(3, i3, m.Flags(), i4);
    Tlvs.GreedyParseIff(i4, m.tlvs, tail);
    if ParseDataSm(header, input) == Done(m, tail) {
      var (_, j1) := ParseCString(input).Extract();
      var (_, j2) := ParseAddress(j1).Extract();
      var (_, j3) := ParseAddress(j2).Extract();
      var (f, j4) := Take(3, j3).Extract();
      ParseCStringIff(input, m.serviceType, j1);
      ParseAddressIff(j1, m.source, j2);
      ParseAddressIff(j2, m.dest, j3);
      TakeIff(3, j3, f, j4);
      assert f == m.Flags();
      Tlvs.GreedyParseIff(j4, m.tlvs, tail);
    }
  }

  function DecodeDataSm(header: CommandHeader, pdu: seq<byte>): Result<DataSm> {
    if |pdu| < 16 then Err(ESME_RINVCMDLEN)
    else match ParseDataSm(header, pdu[16..])
      case Fail => Err(ESME_RINVPARLEN)
      case Done(m, _) => Ok(m)
  }

  function BaseCommandLength(m: DataSm): u32 {
    Low32(16 + |m.serviceType| + 1 + 2 + |m.source.addr| + 1 + 2 + |m.dest.addr| + 1 + 3)
  }

  lemma DataSmLength(m: DataSm)
    ensures Low32(BaseCommandLength(m) + Low32(|Tlvs.Images(m.tlvs)|)) == Low32(HEADER_LEN + |m.Body()|)
  {
    hide Low32, Tlvs.Images;
    Low32Sum(HEADER_LEN + |m.Body()| - |Tlvs.Images(m.tlvs)|, |Tlvs.Images(m.tlvs)|);
  }

  method EncodeDataSm(m: DataSm) returns (buffer: seq<byte>)
    ensures buffer == Framed(m.header, m.Body())
  {
    hide CString, AddressImage, HeaderImage, Low32, BaseCommandLength, Tlvs.Images;
    var tlvsLen := Tlvs.TlvsEncodedLen(m.tlvs);
    var totalLen := Low32(BaseCommandLength(m) + Low32(tlvsLen));
    DataSmLength(m);
    var tlvs := Tlvs.EncodeTlvs(m.tlvs);
    ghost var c := m.Flags() + (tlvs + []);
    ghost var b := AddressImage(m.dest) + c;
    ghost var a := AddressImage(m.source) + b;
    buffer := EncodeHeader(m.header.(commandLength := totalLen));
    Assoc(buffer, CString(m.serviceType), a);
    buffer := buffer + CString(m.serviceType);
    Assoc(buffer, AddressImage(m.source), b);
    buffer := buffer + AddressImage(m.source);
    Assoc(buffer, AddressImage(m.dest), c);
    buffer := buffer + AddressImage(m.dest);
    Assoc(buffer, m.Flags(), tlvs + []);
    buffer := buffer + m.Flags();
    assert tlvs + [] == tlvs;
    buffer := buffer + tlvs;
  }

  lemma DataSmRoundTripIff(m: DataSm, header: CommandHeader)
    ensures DecodeDataSm(header, Framed(m.header, m.Body())) == Ok(m.(header := header)) <==> m.WellFormed()
  {
    hide ParseDataSm, Framed, DecodeHeader;
    FramedDecodesIff(m.header, m.Body());
    var decoded := ParseDataSm(header, m.Body());
    if decoded.Done? {
      ParseDataSmIff(header, m.Body(), decoded.value, decoded.rest);
    }
    ParseDataSmIff(header, m.Body(), m.(header := header), []);
  }

  lemma DataSmNormalises(header: CommandHeader, pdu: seq<byte>) returns (tail: seq<byte>)
    requires DecodeDataSm(header, pdu).Ok?
    ensures var m := DecodeDataSm(header, pdu).value;
            && pdu[16..] == Framed(m.header, m.Body())[16..] + tail
            && Tlvs.Stuck(tail)
            && DecodeDataSm(header, Framed(m.header, m.Body())) == Ok(m)
  {
    hide ParseDataSm, Framed, DecodeHeader, CString, AddressImage, Tlvs.Images;
    var parsed := ParseDataSm(header, pdu[16..]);
    var m := parsed.value;
    tail := parsed.rest;
    ParseDataSmIff(header, pdu[16..], m, tail);
    DataSmRoundTripIff(m, header);
    FramedDecodesIff(m.header, m.Body());
    var tlvs := Tlvs.Images(m.tlvs);
    assert tlvs + [] == tlvs;
    Assoc(m.Flags(), tlvs, tail);
    Assoc(AddressImage(m.dest), m.Flags() + tlvs, tail);
    Assoc(AddressImage(m.source), AddressImage(m.dest) + (m.Flags() + tlvs), tail);
    Assoc(CString(m.serviceType), AddressImage(m.source) + (AddressImage(m.dest) + (m.Flags() + tlvs)), tail);
  }
}

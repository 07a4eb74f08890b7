// Which octet of a PDU means what, by offset, as sections 3.2 and 4 of the SMPP v3.4
// specification lay it out. Nothing here is said through the printers or parsers: for
// each kind of PDU the encoder's octets stand at these offsets, and the decoder, on any
// octets at all, returns exactly what stands there.

module Layout {
  import opened Bytes
  import opened Headers
  import opened Messages
  import opened SubmitMulti
  import opened Responses
  import Framing
  import Tlvs

  // ---- pieces --------------------------------------------------------------

  /** The octets p stand at offset o. */
  predicate HasAt(w: seq<byte>, o: nat, p: seq<byte>) { o + |p| <= |w| && w[o..o + |p|] == p }

  function Pair(a: int, b: int): int { a * 0x100 + b }

  function Quad(a: int, b: int, c: int, d: int): int { a * 0x100_0000 + b * 0x1_0000 + c * 0x100 + d }

  predicate U32Octets(w: seq<byte>, o: nat, n: u32) {
    o + 4 <= |w| && Quad(w[o], w[o + 1], w[o + 2], w[o + 3]) == n
  }

  predicate HeaderAt(w: seq<byte>, h: CommandHeader) {
    && U32Octets(w, 0, h.commandLength) && U32Octets(w, 4, h.commandId)
    && U32Octets(w, 8, h.commandStatus) && U32Octets(w, 12, h.sequenceNumber)
  }

  predicate OctetAt(w: seq<byte>, o: nat, b: byte) { o < |w| && w[o] == b }

  /** A C-Octet-String: the octets, then a zero octet. */
  predicate TextAt(w: seq<byte>, o: nat, s: seq<byte>) {
    o + |s| + 1 <= |w| && w[o..o + |s|] == s && w[o + |s|] == 0
  }

  /** Type of number, numbering plan, address. */
  predicate AddressAt(w: seq<byte>, o: nat, a: Address) {
    o + 2 <= |w| && w[o] == a.ton && w[o + 1] == a.npi && TextAt(w, o + 2, a.addr)
  }

  /** Two octets of tag, two of length modulo 2^16, the value. */
  predicate TlvAt(w: seq<byte>, o: nat, t: Tlvs.Tlv) {
    && o + 4 + |t.value| <= |w|
    && Pair(w[o], w[o + 1]) == t.tag && Pair(w[o + 2], w[o + 3]) == |t.value| % 0x1_0000
    && w[o + 4..o + 4 + |t.value|] == t.value
  }

  predicate TlvsAt(w: seq<byte>, o: nat, ts: seq<Tlvs.Tlv>)
    decreases |ts|
  {
    ts == [] || (TlvAt(w, o, ts[0]) && TlvsAt(w, o + 4 + |ts[0].value|, ts[1..]))
  }

  function TlvsSize(ts: seq<Tlvs.Tlv>): nat {
    if ts == [] then 0 else 4 + |ts[0].value| + TlvsSize(ts[1..])
  }

  /** No TLV begins at `o`: too few octets are left, for its four or for its length. */
  predicate StuckAt(w: seq<byte>, o: nat) {
    |w| < o + 4 || |w| < o + 4 + Pair(w[o + 2], w[o + 3])
  }

  predicate ClassAt(w: seq<byte>, o: nat, c: Content) {
    o + 3 <= |w| && w[o] == c.esmClass && w[o + 1] == c.protocolId && w[o + 2] == c.priorityFlag
  }

  predicate FlagsAt(w: seq<byte>, o: nat, c: Content) {
    && o + 5 <= |w| && w[o] == c.registeredDelivery && w[o + 1] == c.replaceIfPresentFlag
    && w[o + 2] == c.dataCoding && w[o + 3] == c.smDefaultMsgId && w[o + 4] == c.smLength
  }

  predicate ContentAt(w: seq<byte>, o: nat, c: Content) {
    var v := o + 3 + |c.scheduleDeliveryTime| + 1;
    var f := v + |c.validityPeriod| + 1;
    var m := f + 5;
    && ClassAt(w, o, c) && TextAt(w, o + 3, c.scheduleDeliveryTime) && TextAt(w, v, c.validityPeriod)
    && FlagsAt(w, f, c) && HasAt(w, m, c.shortMessage)
    && TlvsAt(w, m + |c.shortMessage|, c.tlvs)
  }

  function ContentSize(c: Content): nat {
    3 + |c.scheduleDeliveryTime| + 1 + |c.validityPeriod| + 1 + 5 + |c.shortMessage| + TlvsSize(c.tlvs)
  }

  // ---- pieces and printers -------------------------------------------------

  lemma HasBoth(w: seq<byte>, o: nat, p: seq<byte>, q: seq<byte>)
    ensures HasAt(w, o, p + q) <==> HasAt(w, o, p) && HasAt(w, o + |p|, q)
  {
    if o + |p| + |q| <= |w| {
      assert w[o..o + |p| + |q|] == w[o..o + |p|] + w[o + |p|..o + |p| + |q|];
      assert (p + q)[..|p|] == p && (p + q)[|p|..] == q;
    }
  }

  lemma HasAll(w: seq<byte>, o: nat, body: seq<byte>, tail: seq<byte>)
    requires o <= |w|
    ensures w[o..] == body + tail <==> HasAt(w, o, body) && tail == w[o + |body|..]
  {
    if w[o..] == body + tail {
      assert w[o..][..|body|] == body && w[o..][|body|..] == tail;
    } else if HasAt(w, o, body) {
      assert w[o..] == w[o..o + |body|] + w[o + |body|..];
    }
  }

  lemma U32Iff(w: seq<byte>, o: nat, n: u32)
    ensures U32Octets(w, o, n) <==> HasAt(w, o, Be32(n))
  {
    hide Be32;
    Be32Inverse(n);
    if o + 4 <= |w| {
      FromBe32Inverse(w[o], w[o + 1], w[o + 2], w[o + 3]);
      assert w[o..o + 4] == [w[o], w[o + 1], w[o + 2], w[o + 3]];
    }
  }

  lemma HeaderAtIff(w: seq<byte>, h: CommandHeader)
    ensures HeaderAt(w, h) <==> HasAt(w, 0, HeaderImage(h))
  {
    hide U32Octets, HasAt, Be32;
    var l, i, s, n := Be32(h.commandLength), Be32(h.commandId), Be32(h.commandStatus), Be32(h.sequenceNumber);
    U32Iff(w, 0, h.commandLength);
    U32Iff(w, 4, h.commandId);
    U32Iff(w, 8, h.commandStatus);
    U32Iff(w, 12, h.sequenceNumber);
    HasBoth(w, 0, l, i);
    HasBoth(w, 0, l + i, s);
    HasBoth(w, 0, l + i + s, n);
  }

  lemma OctetIff(w: seq<byte>, o: nat, b: byte)
    ensures OctetAt(w, o, b) <==> HasAt(w, o, [b])
  {
    if o < |w| {
      assert w[o..o + 1] == [w[o]];
    }
  }

  lemma TextIff(w: seq<byte>, o: nat, s: seq<byte>)
    ensures TextAt(w, o, s) <==> HasAt(w, o, CString(s))
  {
    HasBoth(w, o, s, [0]);
    if o + |s| + 1 <= |w| {
      assert w[o + |s|..o + |s| + 1] == [w[o + |s|]];
    }
  }

  lemma AddressIff(w: seq<byte>, o: nat, a: Address)
    ensures AddressAt(w, o, a) <==> HasAt(w, o, AddressImage(a))
  {
    hide TextAt, CString;
    HasBoth(w, o, [a.ton, a.npi], CString(a.addr));
    TextIff(w, o + 2, a.addr);
    if o + 2 <= |w| {
      assert w[o..o + 2] == [w[o], w[o + 1]];
    }
  }

  lemma U16Iff(w: seq<byte>, o: nat, n: u16)
    ensures o + 2 <= |w| && Pair(w[o], w[o + 1]) == n <==> HasAt(w, o, Be16(n))
  {
    hide Be16;
    Be16Inverse(n);
    if o + 2 <= |w| {
      FromBe16Inverse(w[o], w[o + 1]);
      assert w[o..o + 2] == [w[o], w[o + 1]];
    }
  }

  lemma TlvIff(w: seq<byte>, o: nat, t: Tlvs.Tlv)
    ensures TlvAt(w, o, t) <==> HasAt(w, o, Tlvs.Image(t))
  {
    hide Be16;
    var n := Low16(|t.value|);
    U16Iff(w, o, t.tag);
    U16Iff(w, o + 2, n);
    HasBoth(w, o, Be16(t.tag), Be16(n) + t.value);
    HasBoth(w, o + 2, Be16(n), t.value);
  }

  lemma {:induction false} TlvsIff(w: seq<byte>, o: nat, ts: seq<Tlvs.Tlv>)
    requires o <= |w|
    ensures TlvsAt(w, o, ts) <==> HasAt(w, o, Tlvs.Images(ts))
    ensures |Tlvs.Images(ts)| == TlvsSize(ts)
    decreases |ts|
  {
    hide TlvAt, Tlvs.Image;
    if ts != [] {
      TlvIff(w, o, ts[0]);
      HasBoth(w, o, Tlvs.Image(ts[0]), Tlvs.Images(ts[1..]));
      var next := o + 4 + |ts[0].value|;
      if next <= |w| {
        TlvsIff(w, next, ts[1..]);
      } else {
        TlvsIff(w, |w|, ts[1..]);
      }
    }
  }

  lemma StuckIff(w: seq<byte>, o: nat)
    requires o <= |w|
    ensures StuckAt(w, o) <==> Tlvs.Stuck(w[o..])
  {}

  lemma ContentIff(w: seq<byte>, o: nat, c: Content)
    ensures ContentAt(w, o, c) <==> HasAt(w, o, ContentThen(c, []))
    ensures |ContentThen(c, [])| == ContentSize(c)
  {
    ContentSizes(c);
    hide TextAt, TlvsAt, ClassAt, FlagsAt, HasAt, CString, Flags3, Flags5, Tlvs.Images;
    var v := o + 3 + |c.scheduleDeliveryTime| + 1;
    var f := v + |c.validityPeriod| + 1;
    var m := f + 5;
    var i4 := c.shortMessage + (Tlvs.Images(c.tlvs) + []);
    var i3 := Flags5(c) + i4;
    var i2 := CString(c.validityPeriod) + i3;
    var i1 := CString(c.scheduleDeliveryTime) + i2;
    assert Tlvs.Images(c.tlvs) + [] == Tlvs.Images(c.tlvs);
    HasBoth(w, o, Flags3(c), i1);
    HasBoth(w, o + 3, CString(c.scheduleDeliveryTime), i2);
    HasBoth(w, v, CString(c.validityPeriod), i3);
    HasBoth(w, f, Flags5(c), i4);
    HasBoth(w, m, c.shortMessage, Tlvs.Images(c.tlvs));
    TextIff(w, o + 3, c.scheduleDeliveryTime);
    TextIff(w, v, c.validityPeriod);
    FlagsIff(w, o, f, c);
    TlvsStand(w, m, c.shortMessage, c.tlvs);
  }

  /** The TLVs behind p. */
  lemma TlvsStand(w: seq<byte>, o: nat, p: seq<byte>, ts: seq<Tlvs.Tlv>)
    ensures HasAt(w, o, p) ==> (TlvsAt(w, o + |p|, ts) <==> HasAt(w, o + |p|, Tlvs.Images(ts)))
  {
    if o + |p| <= |w| {
      TlvsIff(w, o + |p|, ts);
    }
  }

  lemma ContentSizes(c: Content)
    ensures |Flags3(c)| == 3 && |Flags5(c)| == 5 && |Tlvs.Images(c.tlvs)| == TlvsSize(c.tlvs)
  {
    TlvsIff([], 0, c.tlvs);
  }

  lemma FlagsIff(w: seq<byte>, o: nat, f: nat, c: Content)
    ensures HasAt(w, o, Flags3(c)) <==> ClassAt(w, o, c)
    ensures HasAt(w, f, Flags5(c)) <==> FlagsAt(w, f, c)
  {
    if o + 3 <= |w| {
      assert w[o..o + 3] == [w[o], w[o + 1], w[o + 2]];
    }
    if f + 5 <= |w| {
      assert w[f..f + 5] == [w[f], w[f + 1], w[f + 2], w[f + 3], w[f + 4]];
    }
  }

  // ---- the header ----------------------------------------------------------

  /** A header decodes to what stands in the first 16 octets, if its length is the PDU's. */
  lemma DecodeHeaderIff(pdu: seq<byte>, h: CommandHeader)
    ensures DecodeHeader(pdu) == Ok(h) <==> HeaderAt(pdu, h) && |pdu| == h.commandLength
    ensures DecodeHeader(pdu).Err? ==>
              DecodeHeader(pdu).error == if |pdu| < 16 then ESME_RINVCMDLEN else ESME_RINVMSGLEN
  {
    hide HeaderAt, HeaderImage, U32At;
    HeaderAtIff(pdu, h);
    DecodedHeaderIsPrefix(pdu);
    if HasAt(pdu, 0, HeaderImage(h)) {
      assert pdu == HeaderImage(h) + pdu[16..];
      HeaderRoundTripIff(h, pdu[16..]);
    }
    if DecodeHeader(pdu) == Ok(h) {
      assert pdu[0..16] == pdu[..16];
    }
  }

  /** What command_length an encoder writes. */
  lemma FramedHeader(header: CommandHeader, body: seq<byte>)
    ensures var w := Framed(header, body);
            && |w| == 16 + |body| && HasAt(w, 16, body)
            && HeaderAt(w, header.(commandLength := |w| % 0x1_0000_0000))
  {
    hide HeaderAt, HeaderImage;
    var w := Framed(header, body);
    var h := header.(commandLength := |w| % 0x1_0000_0000);
    HeaderAtIff(w, h);
    assert w == HeaderImage(h) + body;
    assert w[16..16 + |body|] == body && w[0..16] == HeaderImage(h);
  }

  /** The decision about a buffer's front, by its octets. */
  lemma FrameFirstIff(b: seq<byte>)
    ensures var d := Framing.FrameFirst(b);
            if |b| < 16 then d.Incomplete?
            else
              var length := Quad(b[0], b[1], b[2], b[3]);
              if length < 16 || length > 1048576 then d == Framing.Invalid(length)
              else if |b| < length then d.Incomplete?
              else d == Framing.Complete(length)
  {}

  // ---- submit_sm and deliver_sm --------------------------------------------

  predicate ShortMessageAt(w: seq<byte>, m: ShortMessage) {
    var a := 16 + |m.serviceType| + 1;
    var b := a + 2 + |m.source.addr| + 1;
    var c := b + 2 + |m.dest.addr| + 1;
    && TextAt(w, 16, m.serviceType) && AddressAt(w, a, m.source) && AddressAt(w, b, m.dest)
    && ContentAt(w, c, m.content)
  }

  function ShortMessageSize(m: ShortMessage): nat {
    16 + |m.serviceType| + 1 + 2 + |m.source.addr| + 1 + 2 + |m.dest.addr| + 1 + ContentSize(m.content)
  }

  lemma ShortMessageIff(w: seq<byte>, m: ShortMessage)
    ensures ShortMessageAt(w, m) <==> HasAt(w, 16, m.Body())
    ensures 16 + |m.Body()| == ShortMessageSize(m)
  {
    hide TextAt, AddressAt, ContentAt, ContentSize, CString, AddressImage, ContentThen, HasAt;
    var a := 16 + |m.serviceType| + 1;
    var b := a + 2 + |m.source.addr| + 1;
    var c := b + 2 + |m.dest.addr| + 1;
    var i2 := AddressImage(m.dest) + ContentThen(m.content, []);
    HasBoth(w, 16, CString(m.serviceType), AddressImage(m.source) + i2);
    HasBoth(w, a, AddressImage(m.source), i2);
    HasBoth(w, b, AddressImage(m.dest), ContentThen(m.content, []));
    TextIff(w, 16, m.serviceType);
    AddressIff(w, a, m.source);
    AddressIff(w, b, m.dest);
    ContentIff(w, c, m.content);
  }

  lemma ShortMessageTail(m: ShortMessage, tail: seq<byte>)
    ensures m.BodyThen(tail) == m.Body() + tail
  {
    hide CString, AddressImage, ContentThen;
    var c := ContentThen(m.content, []);
    ContentTail(m.content, tail);
    Assoc(AddressImage(m.dest), c, tail);
    Assoc(AddressImage(m.source), AddressImage(m.dest) + c, tail);
    Assoc(CString(m.serviceType), AddressImage(m.source) + (AddressImage(m.dest) + c), tail);
  }

  /** On any octets: the decoder returns m exactly when m's fields stand at their offsets. */
  lemma DecodeShortMessageIff(h: CommandHeader, pdu: seq<byte>, m: ShortMessage)
    ensures DecodeShortMessage(h, pdu) == Ok(m) <==>
            && |pdu| >= 16 && m.header == h && m.WellFormed()
            && ShortMessageAt(pdu, m) && StuckAt(pdu, ShortMessageSize(m))
    ensures DecodeShortMessage(h, pdu).Err? ==>
              DecodeShortMessage(h, pdu).error == if |pdu| < 16 then ESME_RINVCMDLEN else ESME_RINVPARLEN
  {
    hide ParseShortMessage, ShortMessageAt, ShortMessageSize, StuckAt, HasAt, Tlvs.Stuck;
    if |pdu| >= 16 {
      ShortMessageIff(pdu, m);
      var r := ParseShortMessage(h, pdu[16..]);
      if r.Done? && r.value == m {
        ParseShortMessageIff(h, pdu[16..], m, r.rest);
        ShortMessageTail(m, r.rest);
        HasAll(pdu, 16, m.Body(), r.rest);
        HasRoomFor(pdu, 16, m.Body());
        StuckIff(pdu, ShortMessageSize(m));
      }
      if HasAt(pdu, 16, m.Body()) {
        HasRoomFor(pdu, 16, m.Body());
        var tail := pdu[ShortMessageSize(m)..];
        HasAll(pdu, 16, m.Body(), tail);
        ShortMessageTail(m, tail);
        ParseShortMessageIff(h, pdu[16..], m, tail);
        StuckIff(pdu, ShortMessageSize(m));
      }
    }
  }

  lemma HasRoomFor(w: seq<byte>, o: nat, p: seq<byte>)
    requires HasAt(w, o, p)
    ensures o + |p| <= |w|
  {}

  /** What the encoder emits, by offset, and nothing behind it. */
  lemma ShortMessageOctets(m: ShortMessage)
    ensures var w := Framed(m.header, m.Body());
            && |w| == ShortMessageSize(m) && ShortMessageAt(w, m)
            && HeaderAt(w, m.header.(commandLength := |w| % 0x1_0000_0000))
  {
    hide ShortMessageAt, ShortMessageSize, Framed, HeaderAt, HasAt;
    FramedHeader(m.header, m.Body());
    ShortMessageIff(Framed(m.header, m.Body()), m);
  }

  // ---- data_sm -------------------------------------------------------------

  predicate DataFlagsAt(w: seq<byte>, o: nat, m: DataSm) {
    o + 3 <= |w| && w[o] == m.esmClass && w[o + 1] == m.registeredDelivery && w[o + 2] == m.dataCoding
  }

  lemma DataFlagsIff(w: seq<byte>, o: nat, m: DataSm)
    ensures HasAt(w, o, m.Flags()) <==> DataFlagsAt(w, o, m)
  {
    if o + 3 <= |w| {
      assert w[o..o + 3] == [w[o], w[o + 1], w[o + 2]];
    }
  }

  predicate DataSmAt(w: seq<byte>, m: DataSm) {
    var a := 16 + |m.serviceType| + 1;
    var b := a + 2 + |m.source.addr| + 1;
    var c := b + 2 + |m.dest.addr| + 1;
    && TextAt(w, 16, m.serviceType) && AddressAt(w, a, m.source) && AddressAt(w, b, m.dest)
    && DataFlagsAt(w, c, m)
    && TlvsAt(w, c + 3, m.tlvs)
  }

  function DataSmSize(m: DataSm): nat {
    16 + |m.serviceType| + 1 + 2 + |m.source.addr| + 1 + 2 + |m.dest.addr| + 1 + 3 + TlvsSize(m.tlvs)
  }

  lemma DataSmIff(w: seq<byte>, m: DataSm)
    ensures DataSmAt(w, m) <==> HasAt(w, 16, m.Body())
  {
    hide TextAt, AddressAt, TlvsAt, DataFlagsAt, HasAt, CString, AddressImage, Tlvs.Images;
    var a := 16 + |m.serviceType| + 1;
    var b := a + 2 + |m.source.addr| + 1;
    var c := b + 2 + |m.dest.addr| + 1;
    var tlvs := Tlvs.Images(m.tlvs);
    assert tlvs + [] == tlvs;
    var flags := m.Flags();
    assert |flags| == 3;
    var i3 := flags + tlvs;
    var i2 := AddressImage(m.dest) + i3;
    var i1 := AddressImage(m.source) + i2;
    HasBoth(w, 16, CString(m.serviceType), i1);
    HasBoth(w, a, AddressImage(m.source), i2);
    HasBoth(w, b, AddressImage(m.dest), i3);
    HasBoth(w, c, flags, tlvs);
    TextIff(w, 16, m.serviceType);
    AddressIff(w, a, m.source);
    AddressIff(w, b, m.dest);
    DataFlagsIff(w, c, m);
    TlvsStand(w, c, m.Flags(), m.tlvs);
  }

  lemma DataSmSizes(m: DataSm)
    ensures 16 + |m.Body()| == DataSmSize(m)
  {
    TlvsIff([], 0, m.tlvs);
    hide CString, AddressImage, Tlvs.Images;
  }

  lemma DataSmTail(m: DataSm, tail: seq<byte>)
    ensures m.BodyThen(tail) == m.Body() + tail
  {
    hide CString, AddressImage, Tlvs.Images;
    var tlvs := Tlvs.Images(m.tlvs);
    assert tlvs + [] == tlvs;
    Assoc(m.Flags(), tlvs, tail);
    Assoc(AddressImage(m.dest), m.Flags() + tlvs, tail);
    Assoc(AddressImage(m.source), AddressImage(m.dest) + (m.Flags() + tlvs), tail);
    Assoc(CString(m.serviceType), AddressImage(m.source) + (AddressImage(m.dest) + (m.Flags() + tlvs)), tail);
  }

  lemma DecodeDataSmIff(h: CommandHeader, pdu: seq<byte>, m: DataSm)
    ensures DecodeDataSm(h, pdu) == Ok(m) <==>
            && |pdu| >= 16 && m.header == h && m.WellFormed()
            && DataSmAt(pdu, m) && StuckAt(pdu, DataSmSize(m))
    ensures DecodeDataSm(h, pdu).Err? ==>
              DecodeDataSm(h, pdu).error == if |pdu| < 16 then ESME_RINVCMDLEN else ESME_RINVPARLEN
  {
    hide ParseDataSm, DataSmAt, DataSmSize, StuckAt, HasAt, Tlvs.Stuck;
    if |pdu| >= 16 {
      DataSmIff(pdu, m);
      DataSmSizes(m);
      var r := ParseDataSm(h, pdu[16..]);
      if r.Done? && r.value == m {
        ParseDataSmIff(h, pdu[16..], m, r.rest);
        DataSmTail(m, r.rest);
        HasAll(pdu, 16, m.Body(), r.rest);
        HasRoomFor(pdu, 16, m.Body());
        StuckIff(pdu, DataSmSize(m));
      }
      if HasAt(pdu, 16, m.Body()) {
        HasRoomFor(pdu, 16, m.Body());
        var tail := pdu[DataSmSize(m)..];
        HasAll(pdu, 16, m.Body(), tail);
        DataSmTail(m, tail);
        ParseDataSmIff(h, pdu[16..], m, tail);
        StuckIff(pdu, DataSmSize(m));
      }
    }
  }

  lemma DataSmOctets(m: DataSm)
    ensures var w := Framed(m.header, m.Body());
            && |w| == DataSmSize(m) && DataSmAt(w, m)
            && HeaderAt(w, m.header.(commandLength := |w| % 0x1_0000_0000))
  {
    hide DataSmAt, DataSmSize, Framed, HeaderAt, HasAt;
    FramedHeader(m.header, m.Body());
    DataSmIff(Framed(m.header, m.Body()), m);
    DataSmSizes(m);
  }

  // ---- submit_multi --------------------------------------------------------

  /** A reader takes dest_flag 2 for a distribution list, and any other for an SME address. */
  predicate DestAt(w: seq<byte>, o: nat, d: DestAddress) {
    o < |w| &&
    match d
    case Sme(address) => w[o] != 2 && AddressAt(w, o + 1, address)
    case DistributionList(name) => w[o] == 2 && TextAt(w, o + 1, name)
  }

  function DestSize(d: DestAddress): nat {
    match d
    case Sme(address) => 1 + 2 + |address.addr| + 1
    case DistributionList(name) => 1 + |name| + 1
  }

  predicate DestsAt(w: seq<byte>, o: nat, ds: seq<DestAddress>)
    decreases |ds|
  {
    ds == [] || (DestAt(w, o, ds[0]) && DestsAt(w, o + DestSize(ds[0]), ds[1..]))
  }

  function DestsSize(ds: seq<DestAddress>): nat {
    if ds == [] then 0 else DestSize(ds[0]) + DestsSize(ds[1..])
  }

  /** An encoder writes 1 and 2. */
  predicate StandardAt(w: seq<byte>, o: nat, ds: seq<DestAddress>)
    decreases |ds|
  {
    ds == [] || (o < |w| && w[o] == (if ds[0].Sme? then 1 else 2) && StandardAt(w, o + DestSize(ds[0]), ds[1..]))
  }

  lemma DestIff(w: seq<byte>, o: nat, flag: byte, d: DestAddress)
    ensures HasAt(w, o, DestImage(flag, d)) && Announces(flag, d) <==> DestAt(w, o, d) && w[o] == flag
    ensures |DestImage(flag, d)| == DestSize(d)
  {
    hide TextAt, AddressAt, CString, AddressImage;
    var body := if d.Sme? then AddressImage(d.address) else CString(d.name);
    HasBoth(w, o, [flag], body);
    if o < |w| {
      assert w[o..o + 1] == [w[o]];
    }
    if d.Sme? {
      AddressIff(w, o + 1, d.address);
    } else {
      TextIff(w, o + 1, d.name);
    }
  }

  lemma {:induction false} DestsSizes(flags: seq<byte>, ds: seq<DestAddress>)
    requires |flags| == |ds|
    ensures |DestsImage(flags, ds)| == DestsSize(ds)
  {
    hide DestImage;
    if ds != [] {
      DestIff([], 0, flags[0], ds[0]);
      DestsSizes(flags[1..], ds[1..]);
    }
  }

  lemma {:induction false} DestsStand(w: seq<byte>, o: nat, flags: seq<byte>, ds: seq<DestAddress>)
    requires AnnouncesAll(flags, ds) && HasAt(w, o, DestsImage(flags, ds))
    ensures DestsAt(w, o, ds)
    ensures flags == StandardFlags(ds) ==> StandardAt(w, o, ds)
    decreases |ds|
  {
    hide DestImage, DestAt, Announces, HasAt;
    if ds != [] {
      HasBoth(w, o, DestImage(flags[0], ds[0]), DestsImage(flags[1..], ds[1..]));
      DestIff(w, o, flags[0], ds[0]);
      DestsStand(w, o + DestSize(ds[0]), flags[1..], ds[1..]);
      DestIsInside(w, o, ds[0]);
    }
  }

  lemma DestIsInside(w: seq<byte>, o: nat, d: DestAddress)
    requires DestAt(w, o, d)
    ensures o < |w| && o + DestSize(d) <= |w|
  {}

  lemma {:induction false} DestsPrint(w: seq<byte>, o: nat, ds: seq<DestAddress>) returns (flags: seq<byte>)
    requires DestsAt(w, o, ds) && o <= |w|
    ensures AnnouncesAll(flags, ds) && HasAt(w, o, DestsImage(flags, ds))
    decreases |ds|
  {
    hide DestImage, DestAt, Announces;
    if ds == [] {
      flags := [];
    } else {
      DestIsInside(w, o, ds[0]);
      DestIff(w, o, w[o], ds[0]);
      var more := DestsPrint(w, o + DestSize(ds[0]), ds[1..]);
      flags := [w[o]] + more;
      assert flags[1..] == more;
      HasBoth(w, o, DestImage(w[o], ds[0]), DestsImage(more, ds[1..]));
    }
  }

  predicate MultiAt(w: seq<byte>, m: Multi) {
    var a := 16 + |m.serviceType| + 1;
    var n := a + 2 + |m.source.addr| + 1;
    && TextAt(w, 16, m.serviceType) && AddressAt(w, a, m.source)
    && OctetAt(w, n, m.numberOfDests) && DestsAt(w, n + 1, m.destAddresses)
    && ContentAt(w, n + 1 + DestsSize(m.destAddresses), m.content)
  }

  /** Where the destinations begin. */
  function DestsOffset(m: Multi): nat { 16 + |m.serviceType| + 1 + 2 + |m.source.addr| + 1 + 1 }

  function MultiSize(m: Multi): nat { DestsOffset(m) + DestsSize(m.destAddresses) + ContentSize(m.content) }

  lemma FrontIff(w: seq<byte>, m: Multi, rest: seq<byte>)
    ensures HasAt(w, 16, CString(m.serviceType) + (AddressImage(m.source) + ([m.numberOfDests] + rest))) <==>
            && TextAt(w, 16, m.serviceType) && AddressAt(w, 16 + |m.serviceType| + 1, m.source)
            && OctetAt(w, DestsOffset(m) - 1, m.numberOfDests) && HasAt(w, DestsOffset(m), rest)
  {
    hide TextAt, AddressAt, CString, AddressImage, HasAt, OctetAt;
    var a := 16 + |m.serviceType| + 1;
    var n := a + 2 + |m.source.addr| + 1;
    var i2 := [m.numberOfDests] + rest;
    var i1 := AddressImage(m.source) + i2;
    HasBoth(w, 16, CString(m.serviceType), i1);
    HasBoth(w, a, AddressImage(m.source), i2);
    HasBoth(w, n, [m.numberOfDests], rest);
    TextIff(w, 16, m.serviceType);
    AddressIff(w, a, m.source);
    OctetIff(w, n, m.numberOfDests);
  }

  /** The fields around the destination list. */
  lemma MultiPieces(w: seq<byte>, m: Multi, flags: seq<byte>)
    requires |flags| == |m.destAddresses|
    ensures HasAt(w, 16, m.BodyThen(flags, [])) <==>
            && TextAt(w, 16, m.serviceType) && AddressAt(w, 16 + |m.serviceType| + 1, m.source)
            && OctetAt(w, DestsOffset(m) - 1, m.numberOfDests)
            && HasAt(w, DestsOffset(m), DestsImage(flags, m.destAddresses))
            && ContentAt(w, DestsOffset(m) + DestsSize(m.destAddresses), m.content)
  {
    hide TextAt, AddressAt, ContentAt, CString, AddressImage, ContentThen, DestsImage, HasAt, OctetAt;
    var dests := DestsImage(flags, m.destAddresses);
    var c := ContentThen(m.content, []);
    FrontIff(w, m, dests + c);
    HasBoth(w, DestsOffset(m), dests, c);
    DestsSizes(flags, m.destAddresses);
    ContentIff(w, DestsOffset(m) + |dests|, m.content);
  }

  lemma MultiSizes(m: Multi, flags: seq<byte>)
    requires |flags| == |m.destAddresses|
    ensures 16 + |m.BodyThen(flags, [])| == MultiSize(m)
  {
    DestsSizes(flags, m.destAddresses);
    ContentIff([], 0, m.content);
    hide CString, AddressImage, ContentThen, DestsImage, DestsSize, ContentSize;
  }

  lemma MultiTail(m: Multi, flags: seq<byte>, tail: seq<byte>)
    requires |flags| == |m.destAddresses|
    ensures m.BodyThen(flags, tail) == m.BodyThen(flags, []) + tail
  {
    hide CString, AddressImage, ContentThen, DestsImage;
    var c := ContentThen(m.content, []);
    var dests := DestsImage(flags, m.destAddresses);
    ContentTail(m.content, tail);
    Assoc(dests, c, tail);
    Assoc([m.numberOfDests], dests + c, tail);
    Assoc(AddressImage(m.source), [m.numberOfDests] + (dests + c), tail);
    Assoc(CString(m.serviceType), AddressImage(m.source) + ([m.numberOfDests] + (dests + c)), tail);
  }

  lemma DecodeMultiIff(h: CommandHeader, pdu: seq<byte>, m: Multi)
    requires |pdu| >= 16
    ensures DecodeMulti(h, pdu) == Ok(m) <==>
            m.header == h && m.WellFormed() && MultiAt(pdu, m) && StuckAt(pdu, MultiSize(m))
    ensures DecodeMulti(h, pdu).Err? ==> DecodeMulti(h, pdu).error == ESME_RINVPARLEN
  {
    hide ParseMulti, StuckAt, HasAt, Tlvs.Stuck, TextAt, AddressAt, ContentAt, ContentSize, DestsImage, ContentThen,
      AnnouncesAll, DestsAt;
    var r := ParseMulti(h, pdu[16..]);
    if r.Done? && r.value == m {
      var flags := ParsedMultiIsPrefix(h, pdu[16..]);
      AnnouncedLength(flags, m.destAddresses);
      var body := m.BodyThen(flags, []);
      MultiTail(m, flags, r.rest);
      HasAll(pdu, 16, body, r.rest);
      HasRoomFor(pdu, 16, body);
      MultiPieces(pdu, m, flags);
      MultiSizes(m, flags);
      DestsStand(pdu, DestsOffset(m), flags, m.destAddresses);
      StuckIff(pdu, MultiSize(m));
    }
    if m.header == h && m.WellFormed() && MultiAt(pdu, m) && StuckAt(pdu, MultiSize(m)) {
      var flags := DestsPrint(pdu, DestsOffset(m), m.destAddresses);
      AnnouncedLength(flags, m.destAddresses);
      var body := m.BodyThen(flags, []);
      MultiPieces(pdu, m, flags);
      MultiSizes(m, flags);
      HasRoomFor(pdu, 16, body);
      var tail := pdu[MultiSize(m)..];
      HasAll(pdu, 16, body, tail);
      MultiTail(m, flags, tail);
      StuckIff(pdu, MultiSize(m));
      MultiParses(m, flags, tail);
    }
  }

  lemma MultiOctets(m: Multi)
    ensures var w := Framed(m.header, m.Body());
            && |w| == MultiSize(m) && MultiAt(w, m) && StandardAt(w, DestsOffset(m), m.destAddresses)
            && HeaderAt(w, m.header.(commandLength := |w| % 0x1_0000_0000))
  {
    hide Framed, HeaderAt, HasAt, TextAt, AddressAt, ContentAt, ContentSize, DestsImage, ContentThen, AnnouncesAll,
      DestsAt, StandardAt;
    var w, flags := Framed(m.header, m.Body()), StandardFlags(m.destAddresses);
    FramedHeader(m.header, m.Body());
    MultiPieces(w, m, flags);
    MultiSizes(m, flags);
    StandardFlagsAnnounce(m.destAddresses);
    DestsStand(w, DestsOffset(m), flags, m.destAddresses);
  }
}

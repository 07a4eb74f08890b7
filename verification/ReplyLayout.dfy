// Which octet of a response means what: as Layout, for the responses that have a body.

module ReplyLayout {
  import opened Bytes
  import opened Headers
  import opened Messages
  import opened Responses
  import opened Layout
  import Tlvs

  /** The parser of a C-Octet-String at the front of what follows the header. */
  lemma ParsesTextAt(pdu: seq<byte>, o: nat, s: seq<byte>, rest: seq<byte>)
    requires o <= |pdu|
    ensures ParseCString(pdu[o..]) == Done(s, rest) <==>
            NulFree(s) && TextAt(pdu, o, s) && rest == pdu[o + |s| + 1..]
  {
    hide CString, TextAt, NulFree;
    ParseCStringIff(pdu[o..], s, rest);
    TextIff(pdu, o, s);
    HasAll(pdu, o, CString(s), rest);
  }

  /** The greedy TLV parse of the octets from `o`. */
  lemma ParsesTlvsAt(pdu: seq<byte>, o: nat, ts: seq<Tlvs.Tlv>)
    requires o <= |pdu|
    ensures Tlvs.ParseTlvs(pdu[o..]).0 == ts <==>
            Tlvs.AllFit(ts) && TlvsAt(pdu, o, ts) && StuckAt(pdu, o + TlvsSize(ts))
  {
    hide Tlvs.ParseTlvs, Tlvs.Images, Tlvs.AllFit, Tlvs.Stuck, TlvsAt, StuckAt;
    TlvsIff(pdu, o, ts);
    var image := Tlvs.Images(ts);
    var (parsed, tail) := Tlvs.ParseTlvs(pdu[o..]);
    Tlvs.GreedyParseIff(pdu[o..], parsed, tail);
    if parsed == ts {
      HasAll(pdu, o, image, tail);
    }
    if HasAt(pdu, o, image) {
      var after := pdu[o + |image|..];
      HasAll(pdu, o, image, after);
      Tlvs.GreedyParseIff(pdu[o..], ts, after);
      StuckIff(pdu, o + |image|);
    }
  }

  // ---- submit_sm_resp ------------------------------------------------------

  /** A message_id, where there is one. */
  predicate IdAt(w: seq<byte>, id: Option<seq<byte>>) { id.Some? ==> TextAt(w, 16, id.value) }

  function IdSize(id: Option<seq<byte>>): nat { if id.Some? then |id.value| + 1 else 0 }

  lemma SubmitRespOctets(r: SubmitResp)
    ensures var w := r.Image(); |w| == 16 + IdSize(r.messageId) && HeaderAt(w, r.header) && IdAt(w, r.messageId)
  {
    hide HeaderImage, HeaderAt, TextAt, CString;
    ImageOctets(r.header, IdImage(r.messageId));
    if r.messageId.Some? {
      TextIff(r.Image(), 16, r.messageId.value);
    }
  }

  lemma ImageOctets(h: CommandHeader, body: seq<byte>)
    ensures HeaderAt(HeaderImage(h) + body, h) && HasAt(HeaderImage(h) + body, 16, body)
  {
    hide HeaderImage, HeaderAt;
    var w := HeaderImage(h) + body;
    HeaderAtIff(w, h);
    assert w[0..16] == HeaderImage(h) && w[16..16 + |body|] == body;
  }

  /** A failed response's body is not looked at; a successful one's must be a message_id. */
  lemma DecodeSubmitRespIff(h: CommandHeader, pdu: seq<byte>, r: SubmitResp)
    requires |pdu| >= 16
    ensures DecodeSubmitResp(h, pdu) == Ok(r) <==>
            && r.header == h
            && if h.commandStatus != 0 then r.messageId.None?
               else r.messageId.Some? && NulFree(r.messageId.value) && TextAt(pdu, 16, r.messageId.value)
    ensures DecodeSubmitResp(h, pdu).Err? ==> DecodeSubmitResp(h, pdu).error == ESME_RINVPARLEN
  {
    hide ParseCString, TextAt, NulFree;
    var parsed := ParseCString(pdu[16..]);
    if parsed.Done? {
      ParsesTextAt(pdu, 16, parsed.value, parsed.rest);
    }
    if r.messageId.Some? && TextAt(pdu, 16, r.messageId.value) {
      TextFits(pdu, 16, r.messageId.value);
      ParsesTextAt(pdu, 16, r.messageId.value, pdu[16 + |r.messageId.value| + 1..]);
    }
  }

  lemma TextFits(w: seq<byte>, o: nat, s: seq<byte>)
    requires TextAt(w, o, s)
    ensures o + |s| + 1 <= |w|
  {}

  // ---- data_sm_resp --------------------------------------------------------

  predicate DataRespAt(w: seq<byte>, r: DataResp) {
    IdAt(w, r.messageId) && TlvsAt(w, 16 + IdSize(r.messageId), r.tlvs)
  }

  lemma DataRespOctets(r: DataResp)
    ensures var w := Framed(r.header, r.Body());
            && |w| == 16 + IdSize(r.messageId) + TlvsSize(r.tlvs) && DataRespAt(w, r)
            && HeaderAt(w, r.header.(commandLength := |w| % 0x1_0000_0000))
  {
    hide Framed, HeaderAt, TextAt, TlvsAt, CString, Tlvs.Images, HasAt;
    var w := Framed(r.header, r.Body());
    var tlvs := Tlvs.Images(r.tlvs);
    FramedHeader(r.header, r.Body());
    HasBoth(w, 16, IdImage(r.messageId), tlvs);
    TlvsIff(w, 16, r.tlvs);
    TlvsStand(w, 16, IdImage(r.messageId), r.tlvs);
    if r.messageId.Some? {
      TextIff(w, 16, r.messageId.value);
    }
  }

  lemma DecodeDataRespIff(h: CommandHeader, pdu: seq<byte>, r: DataResp)
    ensures DecodeDataResp(h, pdu) == Ok(r) <==>
            && r.header == h
            && if |pdu| <= 16 && (h.commandStatus == 0 || |pdu| < 16) then r.messageId.None? && r.tlvs == []
               else
                 && (r.messageId.Some? <==> h.commandStatus == 0)
                 && (r.messageId.Some? ==> NulFree(r.messageId.value))
                 && DataRespAt(pdu, r) && Tlvs.AllFit(r.tlvs)
                 && StuckAt(pdu, 16 + IdSize(r.messageId) + TlvsSize(r.tlvs))
    ensures DecodeDataResp(h, pdu).Err? ==> DecodeDataResp(h, pdu).error == ESME_RINVPARLEN
  {
    hide ParseCString, TextAt, TlvsAt, NulFree, StuckAt, Tlvs.AllFit;
    if |pdu| >= 16 && h.commandStatus != 0 {
      hide Tlvs.ParseTlvs;
      ParsesTlvsAt(pdu, 16, r.tlvs);
    } else if |pdu| > 16 {
      hide Tlvs.ParseTlvs;
      var parsed := ParseCString(pdu[16..]);
      if parsed.Done? {
        ParsesTextAt(pdu, 16, parsed.value, parsed.rest);
        TextFits(pdu, 16, parsed.value);
        ParsesTlvsAt(pdu, 16 + |parsed.value| + 1, r.tlvs);
      }
      if r.messageId.Some? && TextAt(pdu, 16, r.messageId.value) {
        TextFits(pdu, 16, r.messageId.value);
        ParsesTextAt(pdu, 16, r.messageId.value, pdu[16 + |r.messageId.value| + 1..]);
      }
    } else {
      assert Tlvs.ParseTlvs([]).0 == [];
    }
  }

  // ---- deliver_sm_resp -----------------------------------------------------

  lemma DeliverRespOctets(r: DeliverResp)
    ensures var w := r.Image(); |w| == 16 + |r.messageId| + 1 && HeaderAt(w, r.header) && TextAt(w, 16, r.messageId)
  {
    hide HeaderImage, HeaderAt, TextAt, CString;
    ImageOctets(r.header, CString(r.messageId));
    TextIff(r.Image(), 16, r.messageId);
  }

  /** The 17 octets of an accepted delivery and of a rejected one; the latter declare 16. */
  lemma BuiltDeliverRespOctets(number: u32, status: u32)
    ensures var w := AcceptDelivery(number).Image();
            |w| == 17 && w[16] == 0 && HeaderAt(w, CommandHeader(17, 0x8000_0005, 0, number))
    ensures var w := RejectDelivery(number, status).Image();
            |w| == 17 && w[16] == 0 && HeaderAt(w, CommandHeader(16, 0x8000_0005, status, number))
  {
    hide HeaderAt;
    DeliverRespOctets(AcceptDelivery(number));
    DeliverRespOctets(RejectDelivery(number, status));
  }

  /** A body that is not there is an empty message_id, for the specification's unused field. */
  lemma DecodeDeliverRespIff(h: CommandHeader, pdu: seq<byte>, r: DeliverResp)
    ensures DecodeDeliverResp(h, pdu) == Ok(r) <==>
            && r.header == h
            && if h.commandStatus != 0 || |pdu| <= 16 then r.messageId == []
               else NulFree(r.messageId) && TextAt(pdu, 16, r.messageId)
    ensures DecodeDeliverResp(h, pdu).Err? ==> DecodeDeliverResp(h, pdu).error == ESME_RINVPARLEN
  {
    hide ParseCString, TextAt, NulFree;
    if |pdu| > 16 {
      var parsed := ParseCString(pdu[16..]);
      if parsed.Done? {
        ParsesTextAt(pdu, 16, parsed.value, parsed.rest);
      }
      if TextAt(pdu, 16, r.messageId) {
        TextFits(pdu, 16, r.messageId);
        ParsesTextAt(pdu, 16, r.messageId, pdu[16 + |r.messageId| + 1..]);
      }
    }
  }

  // ---- submit_multi_resp ---------------------------------------------------

  /** An address and four octets of error code. */
  predicate UnsuccessAt(w: seq<byte>, o: nat, u: UnsuccessSme) {
    AddressAt(w, o, u.address) && U32Octets(w, o + 2 + |u.address.addr| + 1, u.errorStatusCode)
  }

  function UnsuccessSize(u: UnsuccessSme): nat { 2 + |u.address.addr| + 1 + 4 }

  predicate UnsuccessesAt(w: seq<byte>, o: nat, us: seq<UnsuccessSme>)
    decreases |us|
  {
    us == [] || (UnsuccessAt(w, o, us[0]) && UnsuccessesAt(w, o + UnsuccessSize(us[0]), us[1..]))
  }

  function UnsuccessesSize(us: seq<UnsuccessSme>): nat {
    if us == [] then 0 else UnsuccessSize(us[0]) + UnsuccessesSize(us[1..])
  }

  lemma UnsuccessIff(w: seq<byte>, o: nat, u: UnsuccessSme)
    ensures UnsuccessAt(w, o, u) <==> HasAt(w, o, UnsuccessImage(u))
  {
    hide AddressAt, U32Octets, AddressImage, Be32, HasAt;
    HasBoth(w, o, AddressImage(u.address), Be32(u.errorStatusCode));
    AddressIff(w, o, u.address);
    U32Iff(w, o + 3 + |u.address.addr|, u.errorStatusCode);
  }

  lemma {:induction false} UnsuccessesIff(w: seq<byte>, o: nat, us: seq<UnsuccessSme>)
    requires o <= |w|
    ensures UnsuccessesAt(w, o, us) <==> HasAt(w, o, UnsuccessImages(us))
    ensures |UnsuccessImages(us)| == UnsuccessesSize(us)
    decreases |us|
  {
    hide UnsuccessAt, UnsuccessImage;
    if us != [] {
      UnsuccessIff(w, o, us[0]);
      HasBoth(w, o, UnsuccessImage(us[0]), UnsuccessImages(us[1..]));
      var next := o + UnsuccessSize(us[0]);
      UnsuccessesIff(w, if next <= |w| then next else |w|, us[1..]);
    }
  }

  /** message_id, the count in one octet, the entries. */
  predicate MultiRespAt(w: seq<byte>, id: seq<byte>, n: byte, us: seq<UnsuccessSme>) {
    var o := 16 + |id| + 1;
    TextAt(w, 16, id) && OctetAt(w, o, n) && UnsuccessesAt(w, o + 1, us)
  }

  lemma MultiRespOctets(r: MultiResp)
    ensures var w := r.Image();
            && HeaderAt(w, r.header)
            && if r.header.commandStatus != 0 then |w| == 16
               else
                 var id := if r.messageId.Some? then r.messageId.value else [];
                 && |w| == 16 + |id| + 1 + 1 + UnsuccessesSize(r.unsuccessSme)
                 && MultiRespAt(w, id, r.noUnsuccess, r.unsuccessSme)
  {
    var w := r.Image();
    var body := w[16..];
    assert w == HeaderImage(r.header) + body;
    hide HeaderImage, HeaderAt, TextAt, OctetAt, UnsuccessesAt, CString, UnsuccessImages, HasAt;
    ImageOctets(r.header, body);
    if r.header.commandStatus == 0 {
      var id := if r.messageId.Some? then r.messageId.value else [];
      var list := UnsuccessImages(r.unsuccessSme);
      var o := 16 + |id| + 1;
      assert body == CString(id) + ([r.noUnsuccess] + list);
      HasBoth(w, 16, CString(id), [r.noUnsuccess] + list);
      HasBoth(w, o, [r.noUnsuccess], list);
      TextIff(w, 16, id);
      OctetIff(w, o, r.noUnsuccess);
      UnsuccessesIff(w, o + 1, r.unsuccessSme);
    }
  }

  lemma DecodeMultiRespIff(h: CommandHeader, pdu: seq<byte>, r: MultiResp)
    requires |pdu| >= 16
    ensures DecodeMultiResp(h, pdu) == Ok(r) <==>
            && r.header == h
            && if h.commandStatus != 0 then r.messageId.None? && r.noUnsuccess == 0 && r.unsuccessSme == []
               else
                 && r.messageId.Some? && NulFree(r.messageId.value) && UnsuccessNulFree(r.unsuccessSme)
                 && r.noUnsuccess == |r.unsuccessSme|
                 && MultiRespAt(pdu, r.messageId.value, r.noUnsuccess, r.unsuccessSme)
    ensures DecodeMultiResp(h, pdu).Err? ==> DecodeMultiResp(h, pdu).error == ESME_RINVPARLEN
  {
    hide ParseMultiRespBody, MultiRespAt, NulFree, UnsuccessNulFree;
    var parsed := ParseMultiRespBody(pdu[16..]);
    if h.commandStatus == 0 {
      if parsed.Done? {
        MultiRespParsed(pdu);
      }
      if r.messageId.Some? && MultiRespAt(pdu, r.messageId.value, r.noUnsuccess, r.unsuccessSme)
        && NulFree(r.messageId.value) && UnsuccessNulFree(r.unsuccessSme) && r.noUnsuccess == |r.unsuccessSme| {
        MultiRespParses(pdu, r.messageId.value, r.unsuccessSme);
      }
    }
  }

  lemma MultiRespParsed(pdu: seq<byte>)
    requires |pdu| >= 16 && ParseMultiRespBody(pdu[16..]).Done?
    ensures var (id, n, us) := ParseMultiRespBody(pdu[16..]).value;
            NulFree(id) && UnsuccessNulFree(us) && n == |us| && MultiRespAt(pdu, id, n, us)
  {
    hide TextAt, ParseCString, ParseUnsuccesses, UnsuccessesAt, UnsuccessImages, NulFree, UnsuccessNulFree, HasAt;
    var (id, i1) := ParseCString(pdu[16..]).Extract();
    var (n, i2) := ParseU8(i1).Extract();
    var (us, rest) := ParseUnsuccesses(n, i2).Extract();
    var o := 16 + |id| + 1;
    ParsesTextAt(pdu, 16, id, i1);
    TextFits(pdu, 16, id);
    assert i2 == pdu[o + 1..] && OctetAt(pdu, o, n);
    ParseUnsuccessesIff(n, i2, us, rest);
    HasAll(pdu, o + 1, UnsuccessImages(us), rest);
    UnsuccessesIff(pdu, o + 1, us);
  }

  lemma MultiRespParses(pdu: seq<byte>, id: seq<byte>, us: seq<UnsuccessSme>)
    requires |us| < 256 && NulFree(id) && UnsuccessNulFree(us) && MultiRespAt(pdu, id, |us|, us)
    ensures |pdu| >= 16 && ParseMultiRespBody(pdu[16..]).Done? && ParseMultiRespBody(pdu[16..]).value == (id, |us|, us)
  {
    hide TextAt, ParseCString, ParseUnsuccesses, UnsuccessesAt, UnsuccessImages, NulFree, UnsuccessNulFree;
    var o := 16 + |id| + 1;
    TextFits(pdu, 16, id);
    var i1 := pdu[o..];
    ParsesTextAt(pdu, 16, id, i1);
    assert i1[1..] == pdu[o + 1..];
    UnsuccessesIff(pdu, o + 1, us);
    var rest := pdu[o + 1 + |UnsuccessImages(us)|..];
    HasAll(pdu, o + 1, UnsuccessImages(us), rest);
    ParseUnsuccessesIff(|us|, pdu[o + 1..], us, rest);
  }
}

// submit_multi (section 4.5 of the SMPP v3.4 specification): a message to a
// counted list of destinations, each an SME address or a distribution list.

module SubmitMulti {
  import opened Bytes
  import opened Headers
  import opened Messages
  import Tlvs

  const SME_ADDRESS: byte := 1
  const DISTRIBUTION_LIST: byte := 2

  datatype DestAddress = Sme(address: Address) | DistributionList(name: seq<byte>)

  predicate DestWellFormed(d: DestAddress) {
    NulFree(if d.Sme? then d.address.addr else d.name)
  }

  /** The dest_flag written for `d`. */
  function FlagOf(d: DestAddress): byte { if d.Sme? then SME_ADDRESS else DISTRIBUTION_LIST }

  /** The dest_flags a reader accepts for `d`: anything but 2 announces an SME address. */
  predicate Announces(flag: byte, d: DestAddress) { flag == DISTRIBUTION_LIST <==> d.DistributionList? }

  function DestImage(flag: byte, d: DestAddress): seq<byte> {
    [flag] + (if d.Sme? then AddressImage(d.address) else CString(d.name))
  }

  function ParseDest(input: seq<byte>): Parsed<DestAddress> {
    var (flag, input) :- ParseU8(input);
    if flag == DISTRIBUTION_LIST then
      var (name, input) :- ParseCString(input);
      Done(DistributionList(name), input)
    else
      var (address, input) :- ParseAddress(input);
      Done(Sme(address), input)
  }

  lemma ParseDestIff(input: seq<byte>, d: DestAddress, rest: seq<byte>)
    ensures ParseDest(input) == Done(d, rest)
            <==> && input != [] && Announces(input[0], d) && DestWellFormed(d)
                 && input == DestImage(input[0], d) + rest
  {
    hide AddressImage, CString, NulFree, ParseCString, ParseAddress;
    if input != [] {
      var body := if d.Sme? then AddressImage(d.address) else CString(d.name);
      Assoc([input[0]], body, rest);
      assert input == [input[0]] + input[1..];
      assert ([input[0]] + (body + rest))[1..] == body + rest;
      if d.Sme? {
        ParseAddressIff(input[1..], d.address, rest);
      } else {
        ParseCStringIff(input[1..], d.name, rest);
      }
    }
  }

  predicate DestsWellFormed(ds: seq<DestAddress>) { forall d | d in ds :: DestWellFormed(d) }

  /** The destination list printed with the dest_flags given. */
  function DestsImage(flags: seq<byte>, ds: seq<DestAddress>): seq<byte>
    requires |flags| == |ds|
  {
    if ds == [] then [] else DestImage(flags[0], ds[0]) + DestsImage(flags[1..], ds[1..])
  }

  /** The dest_flags the encoder writes. */
  function StandardFlags(ds: seq<DestAddress>): (flags: seq<byte>)
    ensures |flags| == |ds|
  {
    if ds == [] then [] else [FlagOf(ds[0])] + StandardFlags(ds[1..])
  }

  predicate AnnouncesAll(flags: seq<byte>, ds: seq<DestAddress>) {
    |flags| == |ds| && forall i | 0 <= i < |ds| :: Announces(flags[i], ds[i])
  }

  function ParseDests(n: nat, input: seq<byte>): Parsed<seq<DestAddress>> {
    if n == 0 then Done([], input)
    else
      var (d, input) :- ParseDest(input);
      var (more, input) :- ParseDests(n - 1, input);
      Done([d] + more, input)
  }

  /** The list parser returns as many destinations as it was asked for, with the flags it saw. */
  lemma {:induction false} ParsedDestsIsPrefix(n: nat, input: seq<byte>) returns (flags: seq<byte>)
    requires ParseDests(n, input).Done?
    ensures var r := ParseDests(n, input);
            && |r.value| == n && DestsWellFormed(r.value) && AnnouncesAll(flags, r.value)
            && input == DestsImage(flags, r.value) + r.rest
  {
    hide ParseDest, DestImage, DestWellFormed, Announces;
    if n == 0 {
      flags := [];
      assert input == [] + input;
    } else {
      var (d, after) := ParseDest(input).Extract();
      var (more, rest) := ParseDests(n - 1, after).Extract();
      ParseDestIff(input, d, after);
      var moreFlags := ParsedDestsIsPrefix(n - 1, after);
      flags := [input[0]] + moreFlags;
      assert flags[1..] == moreFlags && ([d] + more)[1..] == more;
      Assoc(DestImage(input[0], d), DestsImage(moreFlags, more), rest);
    }
  }

  lemma {:induction false} DestsParse(flags: seq<byte>, ds: seq<DestAddress>, rest: seq<byte>)
    requires AnnouncesAll(flags, ds) && DestsWellFormed(ds)
    ensures ParseDests(|ds|, DestsImage(flags, ds) + rest) == Done(ds, rest)
  {
    hide ParseDest, DestWellFormed, Announces;
    if ds == [] {
      assert DestsImage(flags, ds) + rest == rest;
    } else {
      var after := DestsImage(flags[1..], ds[1..]) + rest;
      var image := DestImage(flags[0], ds[0]);
      assert image[0] == flags[0];
      hide DestImage;
      Assoc(image, DestsImage(flags[1..], ds[1..]), rest);
      assert (image + after)[0] == image[0];
      ParseDestIff(image + after, ds[0], after);
      DestsParse(flags[1..], ds[1..], rest);
      assert [ds[0]] + ds[1..] == ds;
    }
  }

  lemma {:induction false} StandardFlagsAnnounce(ds: seq<DestAddress>)
    ensures AnnouncesAll(StandardFlags(ds), ds)
  {
    if ds != [] {
      StandardFlagsAnnounce(ds[1..]);
      forall i | 0 <= i < |ds| ensures Announces(StandardFlags(ds)[i], ds[i]) {
        if i > 0 {
          assert Announces(StandardFlags(ds[1..])[i - 1], ds[1..][i - 1]);
        }
      }
    }
  }

  // ---- submit_multi --------------------------------------------------------

  datatype Multi = Multi(
    header: CommandHeader,
    serviceType: seq<byte>,
    source: Address,
    numberOfDests: byte,
    destAddresses: seq<DestAddress>,
    content: Content)
  {
    predicate WellFormed() {
      && NulFree(serviceType) && NulFree(source.addr)
      && numberOfDests == |destAddresses| && DestsWellFormed(destAddresses)
      && ContentWellFormed(content)
    }

    function BodyThen(flags: seq<byte>, tail: seq<byte>): seq<byte>
      requires |flags| == |destAddresses|
    {
      CString(serviceType) + (AddressImage(source) + ([numberOfDests]
        + (DestsImage(flags, destAddresses) + ContentThen(content, tail))))
    }

    function Body(): seq<byte> { BodyThen(StandardFlags(destAddresses), []) }
  }

  function ParseMulti(header: CommandHeader, input: seq<byte>): Parsed<Multi> {
    var (serviceType, input) :- ParseCString(input);
    var (source, input) :- ParseAddress(input);
    var (n, input) :- ParseU8(input);
    var (dests, input) :- ParseDests(n, input);
    var (content, tail) :- ParseContent(input);
    Done(Multi(header, serviceType, source, n, dests, content), tail)
  }

  lemma ParsedMultiIsPrefix(header: CommandHeader, input: seq<byte>) returns (flags: seq<byte>)
    requires ParseMulti(header, input).Done?
    ensures var r := ParseMulti(header, input);
            && r.value.header == header && r.value.WellFormed() && Tlvs.Stuck(r.rest)
            && AnnouncesAll(flags, r.value.destAddresses) && input == r.value.BodyThen(flags, r.rest)
  {
    hide ParseCString, ParseAddress, ParseDests, ParseContent, ContentThen, DestsImage, AddressImage, CString,
      NulFree, DestsWellFormed, ContentWellFormed, Tlvs.Stuck, AnnouncesAll;
    var (serviceType, j1) := ParseCString(input).Extract();
    var (source, j2) := ParseAddress(j1).Extract();
    var (n, j3) := ParseU8(j2).Extract();
    var (dests, j4) := ParseDests(n, j3).Extract();
    var (content, tail) := ParseContent(j4).Extract();
    ParseCStringIff(input, serviceType, j1);
    ParseAddressIff(j1, source, j2);
    ParseU8Iff(j2, n, j3);
    flags := ParsedDestsIsPrefix(n, j3);
    AnnouncedLength(flags, dests);
    ParseContentIff(j4, content, tail);
  }

  lemma AnnouncedLength(flags: seq<byte>, ds: seq<DestAddress>)
    requires AnnouncesAll(flags, ds)
    ensures |flags| == |ds|
  {}

  lemma MultiParses(m: Multi, flags: seq<byte>, tail: seq<byte>)
    requires m.WellFormed() && AnnouncesAll(flags, m.destAddresses) && Tlvs.Stuck(tail)
    ensures ParseMulti(m.header, m.BodyThen(flags, tail)) == Done(m, tail)
  {
    AnnouncedLength(flags, m.destAddresses);
    hide ParseCString, ParseAddress, ParseDests, ParseContent, ContentThen, DestsImage, AddressImage, CString,
      NulFree, DestsWellFormed, ContentWellFormed, Tlvs.Stuck, AnnouncesAll;
    var i4 := ContentThen(m.content, tail);
    var i3 := DestsImage(flags, m.destAddresses) + i4;
    var i2 := [m.numberOfDests] + i3;
    var i1 := AddressImage(m.source) + i2;
    ParseCStringIff(CString(m.serviceType) + i1, m.serviceType, i1);
    ParseAddressIff(i1, m.source, i2);
    ParseU8Iff(i2, m.numberOfDests, i3);
    DestsParse(flags, m.destAddresses, i4);
    ParseContentIff(i4, m.content, tail);
  }

  /** The source slices `pdu[16..]` without a length check: the caller passes a framed PDU. */
  function DecodeMulti(header: CommandHeader, pdu: seq<byte>): Result<Multi>
    requires |pdu| >= 16
  {
    match ParseMulti(header, pdu[16..])
    case Fail => Err(ESME_RINVPARLEN)
    case Done(m, _) => Ok(m)
  }

  lemma MultiRoundTripIff(m: Multi, header: CommandHeader)
    ensures |Framed(m.header, m.Body())| >= 16
    ensures DecodeMulti(header, Framed(m.header, m.Body())) == Ok(m.(header := header)) <==> m.WellFormed()
  {
    hide ParseMulti, Framed, DecodeHeader, AnnouncesAll;
    FramedDecodesIff(m.header, m.Body());
    if ParseMulti(header, m.Body()).Done? {
      var _ := ParsedMultiIsPrefix(header, m.Body());
    }
    if m.WellFormed() {
      StandardFlagsAnnounce(m.destAddresses);
      MultiParses(m.(header := header), StandardFlags(m.destAddresses), []);
    }
  }

  /**
   * Re-encoding a decoded submit_multi changes the unparsable TLV tail and the
   * dest_flags that were neither 1 nor 2, and nothing else; it decodes to itself.
   */
  lemma MultiNormalises(header: CommandHeader, pdu: seq<byte>) returns (flags: seq<byte>, tail: seq<byte>)
    requires |pdu| >= 16 && DecodeMulti(header, pdu).Ok?
    ensures var m := DecodeMulti(header, pdu).value;
            && AnnouncesAll(flags, m.destAddresses) && Tlvs.Stuck(tail)
            && pdu[16..] == m.BodyThen(flags, []) + tail
            && |Framed(m.header, m.Body())| >= 16
            && Framed(m.header, m.Body())[16..] == m.BodyThen(StandardFlags(m.destAddresses), [])
            && DecodeMulti(header, Framed(m.header, m.Body())) == Ok(m)
  {
    hide ParseMulti, Framed, DecodeHeader, ContentThen, DestsImage, CString, AddressImage, Tlvs.Stuck;
    flags := ParsedMultiIsPrefix(header, pdu[16..]);
    var m := ParseMulti(header, pdu[16..]).value;
    tail := ParseMulti(header, pdu[16..]).rest;
    MultiRoundTripIff(m, header);
    FramedDecodesIff(m.header, m.Body());
    ContentTail(m.content, tail);
    var dests := DestsImage(flags, m.destAddresses) + ContentThen(m.content, []);
    Assoc(DestsImage(flags, m.destAddresses), ContentThen(m.content, []), tail);
    Assoc([m.numberOfDests], dests, tail);
    Assoc(AddressImage(m.source), [m.numberOfDests] + dests, tail);
    Assoc(CString(m.serviceType), AddressImage(m.source) + ([m.numberOfDests] + dests), tail);
  }

  // ---- the loops -----------------------------------------------------------

  method DecodeDests(n: byte, start: seq<byte>) returns (parsed: Parsed<seq<DestAddress>>)
    ensures parsed == ParseDests(n, start)
  {
    var input := start;
    var dests: seq<DestAddress> := [];
    if ParseDests(n, start).Done? {
      assert dests + ParseDests(n, start).value == ParseDests(n, start).value;
    }
    for i := 0 to n
      invariant ParseDests(n - i, input).Fail? ==> ParseDests(n, start).Fail?
      invariant ParseDests(n - i, input).Done? ==>
                  ParseDests(n, start) == Done(dests + ParseDests(n - i, input).value, ParseDests(n - i, input).rest)
    {
      match ParseDest(input) {
        case Fail =>
          return Fail;
        case Done(d, rest) =>
          ghost var more := ParseDests(n - i - 1, rest);
          if more.Done? {
            assert dests + ([d] + more.value) == (dests + [d]) + more.value;
          }
          dests := dests + [d];
          input := rest;
      }
    }
    assert dests + [] == dests;
    parsed := Done(dests, input);
  }

  function DestEncodedLen(d: DestAddress): nat {
    match d
    case Sme(address) => 1 + 1 + 1 + |address.addr| + 1
    case DistributionList(name) => 1 + |name| + 1
  }

  lemma {:induction false} DestsImageAppend(a: seq<DestAddress>, d: DestAddress)
    ensures DestsImage(StandardFlags(a + [d]), a + [d])
            == DestsImage(StandardFlags(a), a) + DestImage(FlagOf(d), d)
  {
    hide DestImage;
    if a == [] {
      assert a + [d] == [d];
    } else {
      assert (a + [d])[1..] == a[1..] + [d];
      DestsImageAppend(a[1..], d);
    }
  }

  /** Sums the destinations' lengths and appends their images; the two agree. */
  method EncodeDests(ds: seq<DestAddress>) returns (length: nat, buffer: seq<byte>)
    ensures buffer == DestsImage(StandardFlags(ds), ds) && length == |buffer|
  {
    length, buffer := 0, [];
    for i := 0 to |ds|
      invariant buffer == DestsImage(StandardFlags(ds[..i]), ds[..i]) && length == |buffer|
    {
      assert ds[..i + 1] == ds[..i] + [ds[i]];
      DestsImageAppend(ds[..i], ds[i]);
      length := length + DestEncodedLen(ds[i]);
      buffer := buffer + DestImage(FlagOf(ds[i]), ds[i]);
    }
    assert ds[..|ds|] == ds;
  }

  function MultiBaseLength(m: Multi, destsLen: nat): u32 {
    Low32(16 + |m.serviceType| + 1 + 1 + 1 + |m.source.addr| + 1 + 1 + destsLen + 1 + 1 + 1
          + |m.content.scheduleDeliveryTime| + 1 + |m.content.validityPeriod| + 1
          + 1 + 1 + 1 + 1 + 1 + |m.content.shortMessage|)
  }

  lemma MultiLength(m: Multi, dests: seq<byte>)
    requires dests == DestsImage(StandardFlags(m.destAddresses), m.destAddresses)
    ensures Low32(MultiBaseLength(m, |dests|) + Low32(|Tlvs.Images(m.content.tlvs)|)) == Low32(HEADER_LEN + |m.Body()|)
  {
    hide Low32, Tlvs.Images, DestsImage;
    Low32Sum(HEADER_LEN + |m.Body()| - |Tlvs.Images(m.content.tlvs)|, |Tlvs.Images(m.content.tlvs)|);
  }

  method EncodeMulti(m: Multi) returns (buffer: seq<byte>)
    ensures buffer == Framed(m.header, m.Body())
  {
    hide CString, AddressImage, ContentThen, DestsImage, HeaderImage, Low32, MultiBaseLength, Tlvs.Images;
    var destsLen, dests := EncodeDests(m.destAddresses);
    var tlvsLen := Tlvs.TlvsEncodedLen(m.content.tlvs);
    var totalLen := Low32(MultiBaseLength(m, destsLen) + Low32(tlvsLen));
    MultiLength(m, dests);
    ghost var c := dests + ContentThen(m.content, []);
    ghost var b := [m.numberOfDests] + c;
    ghost var a := AddressImage(m.source) + b;
    buffer := EncodeHeader(m.header.(commandLength := totalLen));
    Assoc(buffer, CString(m.serviceType), a);
    buffer := buffer + CString(m.serviceType);
    Assoc(buffer, AddressImage(m.source), b);
    buffer := buffer + AddressImage(m.source);
    Assoc(buffer, [m.numberOfDests], c);
    buffer := buffer + [m.numberOfDests];
    Assoc(buffer, dests, ContentThen(m.content, []));
    buffer := buffer + dests;
    buffer := AppendContent(buffer, m.content);
  }
}

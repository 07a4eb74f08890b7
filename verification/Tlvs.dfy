// Optional parameters (section 3.2.4.1 of the SMPP v3.4 specification): a u16
// tag, a u16 length and that many octets, repeated to the end of the PDU.

module Tlvs {
  import opened Bytes

  datatype Tlv = Tlv(tag: u16, value: seq<byte>)

  /** The length field has 16 bits; only a value shorter than that is described by it. */
  predicate Fits(t: Tlv) { |t.value| < 0x1_0000 }

  predicate AllFit(ts: seq<Tlv>) { forall t | t in ts :: Fits(t) }

  function EncodedLen(t: Tlv): nat { 4 + |t.value| }

  function Image(t: Tlv): (b: seq<byte>)
    ensures |b| == EncodedLen(t)
  {
    Be16(t.tag) + (Be16(Low16(|t.value|)) + t.value)
  }

  function Images(ts: seq<Tlv>): seq<byte> {
    if ts == [] then [] else Image(ts[0]) + Images(ts[1..])
  }

  function ParseTlv(input: seq<byte>): Parsed<Tlv> {
    var (tag, input) :- ParseU16(input);
    var (length, input) :- ParseU16(input);
    var (value, input) :- Take(length, input);
    Done(Tlv(tag, value), input)
  }

  /** No TLV can be read here: fewer than four octets, or a length that overruns. */
  predicate Stuck(input: seq<byte>) {
    |input| < 4 || 4 + FromBe16(input[2], input[3]) > |input|
  }

  /** The greedy parse of a whole tail: the TLVs read, and the octets it stopped at. */
  function ParseTlvs(input: seq<byte>): (r: (seq<Tlv>, seq<byte>))
    decreases |input|
  {
    match ParseTlv(input)
    case Fail => ([], input)
    case Done(tlv, remaining) =>
      var (more, tail) := ParseTlvs(remaining);
      ([tlv] + more, tail)
  }

  lemma ParseTlvFailsIff(input: seq<byte>)
    ensures ParseTlv(input).Fail? <==> Stuck(input)
  {}

  /** A TLV is read back exactly when its length survives the u16 cast. */
  lemma ParseTlvIff(input: seq<byte>, t: Tlv, rest: seq<byte>)
    ensures ParseTlv(input) == Done(t, rest) <==> Fits(t) && input == Image(t) + rest
  {
    hide Be16, ParseU16, Take;
    var length := Low16(|t.value|);
    ParseU16Iff(input, t.tag, Be16(length) + (t.value + rest));
    ParseU16Iff(Be16(length) + (t.value + rest), length, t.value + rest);
    TakeIff(length, t.value + rest, t.value, rest);
    assert Image(t) + rest == Be16(t.tag) + (Be16(length) + (t.value + rest));
    match ParseU16(input)
    case Fail =>
    case Done(tag, afterTag) =>
      ParseU16Iff(input, tag, afterTag);
      match ParseU16(afterTag)
      case Fail =>
      case Done(n, afterLength) =>
        ParseU16Iff(afterTag, n, afterLength);
        TakeIff(n, afterLength, t.value, rest);
  }

  lemma ParseTlvsStep(t: Tlv, after: seq<byte>)
    requires Fits(t)
    ensures ParseTlvs(Image(t) + after) == ([t] + ParseTlvs(after).0, ParseTlvs(after).1)
  {
    hide Be16, FromBe16, ParseTlv;
    ParseTlvIff(Image(t) + after, t, after);
  }

  lemma {:induction false} ImagesParse(ts: seq<Tlv>, rest: seq<byte>)
    requires AllFit(ts)
    ensures ParseTlvs(Images(ts) + rest) == (ts + ParseTlvs(rest).0, ParseTlvs(rest).1)
  {
    hide Image, ParseTlv;
    if ts == [] {
      assert Images(ts) + rest == rest;
      assert ts + ParseTlvs(rest).0 == ParseTlvs(rest).0;
    } else {
      var after := Images(ts[1..]) + rest;
      assert Images(ts) + rest == Image(ts[0]) + after;
      ParseTlvsStep(ts[0], after);
      ImagesParse(ts[1..], rest);
      assert ts + ParseTlvs(rest).0 == [ts[0]] + (ts[1..] + ParseTlvs(rest).0);
    }
  }

  lemma {:induction false} ParseIsPrefix(input: seq<byte>)
    ensures input == Images(ParseTlvs(input).0) + ParseTlvs(input).1
    ensures AllFit(ParseTlvs(input).0) && ParseTlv(ParseTlvs(input).1).Fail?
    decreases |input|
  {
    match ParseTlv(input)
    case Fail =>
      assert input == [] + input;
    case Done(tlv, remaining) =>
      var (more, tail) := ParseTlvs(remaining);
      hide Image;
      ParseTlvIff(input, tlv, remaining);
      ParseIsPrefix(remaining);
      assert ([tlv] + more)[1..] == more;
      Assoc(Image(tlv), Images(more), tail);
  }

  /**
   * The greedy parse is the only way to split `input` into printable TLVs and a
   * tail on which no further TLV can be read.
   */
  lemma GreedyParseIff(input: seq<byte>, ts: seq<Tlv>, tail: seq<byte>)
    ensures ParseTlvs(input) == (ts, tail) <==> input == Images(ts) + tail && AllFit(ts) && Stuck(tail)
  {
    hide Stuck, ParseTlv, Images;
    ParseIsPrefix(input);
    ParseTlvFailsIff(tail);
    if input == Images(ts) + tail && AllFit(ts) && Stuck(tail) {
      ImagesParse(ts, tail);
      assert ts + [] == ts;
    }
  }

  lemma {:induction false} ImagesAppend(a: seq<Tlv>, b: seq<Tlv>)
    ensures Images(a + b) == Images(a) + Images(b)
  {
    hide Image;
    if a == [] {
      assert a + b == b;
    } else {
      assert (a + b)[1..] == a[1..] + b;
      ImagesAppend(a[1..], b);
    }
  }

  // ---- the loops -----------------------------------------------------------

  method DecodeTlvs(bytes: seq<byte>) returns (tlvs: seq<Tlv>)
    ensures tlvs == ParseTlvs(bytes).0
  {
    var input := bytes;
    tlvs := [];
    while |input| >= 4
      invariant tlvs + ParseTlvs(input).0 == ParseTlvs(bytes).0
      decreases |input|
    {
      match ParseTlv(input) {
        case Done(tlv, remaining) =>
          ghost var more := ParseTlvs(remaining).0;
          assert tlvs + ([tlv] + more) == (tlvs + [tlv]) + more;
          tlvs := tlvs + [tlv];
          input := remaining;
        case Fail =>
          return;
      }
    }
  }

  method EncodeTlvs(tlvs: seq<Tlv>) returns (buf: seq<byte>)
    ensures buf == Images(tlvs)
  {
    buf := [];
    for i := 0 to |tlvs|
      invariant buf == Images(tlvs[..i])
    {
      assert tlvs[..i + 1] == tlvs[..i] + [tlvs[i]];
      ImagesAppend(tlvs[..i], [tlvs[i]]);
      buf := buf + Image(tlvs[i]);
    }
    assert tlvs[..|tlvs|] == tlvs;
  }

  /** The length is summed without encoding; it is the number of octets encoding emits. */
  method TlvsEncodedLen(tlvs: seq<Tlv>) returns (length: nat)
    ensures length == |Images(tlvs)|
  {
    length := 0;
    for i := 0 to |tlvs|
      invariant length == |Images(tlvs[..i])|
    {
      assert tlvs[..i + 1] == tlvs[..i] + [tlvs[i]];
      ImagesAppend(tlvs[..i], [tlvs[i]]);
      length := length + EncodedLen(tlvs[i]);
    }
    assert tlvs[..|tlvs|] == tlvs;
  }
}

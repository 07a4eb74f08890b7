// Cutting a TCP byte stream into PDUs: the pure decision about the front of a
// buffer, the session's accumulating read loop, and the bind handshake that takes
// one PDU and hands the rest over. The specification is a recursive cut of the
// whole stream, which knows nothing about reads.

module Framing {
  import opened Bytes
  import opened Headers

  const MAX_PDU_LEN: nat := 1024 * 1024

  datatype Decision = Incomplete | Complete(length: nat) | Invalid(commandLength: u32)

  function FrameFirst(buffer: seq<byte>): (d: Decision)
    ensures d.Complete? ==> 16 <= d.length <= |buffer| && d.length <= MAX_PDU_LEN
  {
    if |buffer| < 16 then Incomplete
    else
      var length := U32At(buffer, 0);
      if length < 16 || length > MAX_PDU_LEN then Invalid(length)
      else if |buffer| < length then Incomplete
      else Complete(length)
  }

  /** Once decided, more bytes behind the front change nothing. */
  lemma DecisionIsStable(a: seq<byte>, b: seq<byte>)
    ensures !FrameFirst(a).Incomplete? ==> FrameFirst(a + b) == FrameFirst(a)
    ensures FrameFirst(a).Complete? ==> (a + b)[..FrameFirst(a).length] == a[..FrameFirst(a).length]
                                        && (a + b)[FrameFirst(a).length..] == a[FrameFirst(a).length..] + b
  {
    if |a| >= 4 {
      U32AtExtends(a, b, 0);
    }
  }

  // ---- the specification ---------------------------------------------------

  /** Whether dispatching the n-th frame makes the loop leave (an unbind, a dead writer). */
  type Ends = (nat, seq<byte>) -> bool

  datatype Stop = NeedMore | BadLength(commandLength: u32) | Ended(frame: seq<byte>)

  /** The frames consumed, the bytes not consumed, and why cutting stopped there. */
  datatype Cut = Cut(frames: seq<seq<byte>>, rest: seq<byte>, stop: Stop) {
    function After(earlier: seq<seq<byte>>): Cut { this.(frames := earlier + frames) }

    /** Every frame that was dispatched; the frame that ended the loop stays unconsumed. */
    function Dispatched(): seq<seq<byte>> {
      frames + if stop.Ended? then [stop.frame] else []
    }
  }

  function CutStream(ends: Ends, n: nat, stream: seq<byte>): Cut
    decreases |stream|
  {
    match FrameFirst(stream)
    case Incomplete => Cut([], stream, NeedMore)
    case Invalid(length) => Cut([], stream, BadLength(length))
    case Complete(length) =>
      var frame := stream[..length];
      if ends(n, frame) then Cut([], stream, Ended(frame))
      else CutStream(ends, n + 1, stream[length..]).After([frame])
  }

  function Flatten(chunks: seq<seq<byte>>): seq<byte> {
    if chunks == [] then [] else chunks[0] + Flatten(chunks[1..])
  }

  predicate IsFrame(f: seq<byte>) { FrameFirst(f) == Complete(|f|) }

  lemma CutUnfolds(ends: Ends, n: nat, stream: seq<byte>)
    ensures CutStream(ends, n, stream) == (
              match FrameFirst(stream)
              case Incomplete => Cut([], stream, NeedMore)
              case Invalid(length) => Cut([], stream, BadLength(length))
              case Complete(length) =>
                if ends(n, stream[..length]) then Cut([], stream, Ended(stream[..length]))
                else CutStream(ends, n + 1, stream[length..]).After([stream[..length]]))
  {
    hide FrameFirst;
  }

  /** Bytes that arrive later continue the cut where it stopped, or lie untouched behind it. */
  lemma {:induction false} CutExtends(ends: Ends, n: nat, a: seq<byte>, b: seq<byte>)
    ensures var r := CutStream(ends, n, a);
            CutStream(ends, n, a + b) ==
            if r.stop.NeedMore? then CutStream(ends, n + |r.frames|, r.rest + b).After(r.frames)
            else r.(rest := r.rest + b)
    decreases |a|
  {
    hide FrameFirst, CutStream;
    DecisionIsStable(a, b);
    CutUnfolds(ends, n, a);
    CutUnfolds(ends, n, a + b);
    match FrameFirst(a)
    case Incomplete =>
      AfterNothing(CutStream(ends, n, a + b));
    case Invalid(_) =>
    case Complete(length) =>
      var frame := a[..length];
      if !ends(n, frame) {
        CutExtends(ends, n + 1, a[length..], b);
        var r := CutStream(ends, n + 1, a[length..]);
        AfterAfter(CutStream(ends, n + 1 + |r.frames|, r.rest + b), [frame], r.frames);
      }
  }

  lemma AfterAfter(c: Cut, a: seq<seq<byte>>, b: seq<seq<byte>>)
    ensures c.After(b).After(a) == c.After(a + b)
  {
    assert a + (b + c.frames) == (a + b) + c.frames;
  }

  lemma AfterNothing(c: Cut)
    ensures c.After([]) == c
  {
    assert [] + c.frames == c.frames;
  }

  /**
   * Nothing is lost, duplicated or reordered; every frame is between 16 octets and
   * 1 MiB and frames itself; a cut that waits for more keeps less than 1 MiB. It ends
   * at the first frame that ends the loop, and at no other.
   */
  lemma {:induction false} CutIsLossless(ends: Ends, n: nat, stream: seq<byte>)
    ensures var r := CutStream(ends, n, stream);
            && Flatten(r.frames) + r.rest == stream
            && (forall f | f in r.Dispatched() :: IsFrame(f))
            && (r.stop.NeedMore? ==> FrameFirst(r.rest).Incomplete? && |r.rest| < MAX_PDU_LEN)
            && (r.stop.BadLength? ==> FrameFirst(r.rest) == Invalid(r.stop.commandLength))
            && (r.stop.Ended? ==> r.stop.frame <= r.rest && ends(n + |r.frames|, r.stop.frame))
            && (forall i | 0 <= i < |r.frames| :: !ends(n + i, r.frames[i]))
    decreases |stream|
  {
    hide FrameFirst, IsFrame, CutStream;
    CutUnfolds(ends, n, stream);
    DecisionFacts(stream);
    match FrameFirst(stream)
    case Incomplete =>
    case Invalid(_) =>
    case Complete(length) =>
      var frame := stream[..length];
      PrefixIsFrame(stream);
      if !ends(n, frame) {
        var more := CutStream(ends, n + 1, stream[length..]);
        CutIsLossless(ends, n + 1, stream[length..]);
        assert ([frame] + more.frames)[1..] == more.frames;
        Assoc(frame, Flatten(more.frames), more.rest);
        assert more.After([frame]).Dispatched() == [frame] + more.Dispatched();
        forall i | 0 <= i < |more.frames| + 1 ensures !ends(n + i, ([frame] + more.frames)[i]) {
          assert i > 0 ==> !ends(n + 1 + (i - 1), more.frames[i - 1]);
        }
      }
  }

  lemma DecisionFacts(stream: seq<byte>)
    ensures FrameFirst(stream).Incomplete? ==> |stream| < MAX_PDU_LEN
  {}

  lemma PrefixIsFrame(stream: seq<byte>)
    requires FrameFirst(stream).Complete?
    ensures IsFrame(stream[..FrameFirst(stream).length])
  {
    var length := FrameFirst(stream).length;
    assert stream == stream[..length] + stream[length..];
    U32AtExtends(stream[..length], stream[length..], 0);
  }

  /**
   * The header of a frame always decodes, so the loop's header-error arm is dead and
   * the number read for a nack is the header's own.
   */
  lemma FrameDecodes(f: seq<byte>)
    requires IsFrame(f)
    ensures DecodeHeader(f).Ok? && DecodeHeader(f).value.commandLength == |f|
    ensures DecodeHeader(f).value.sequenceNumber == U32At(f, 12)
  {
    hide U32At;
  }

  /** A frame is exactly what decodes with a length the session accepts. */
  lemma FrameIffDecodes(f: seq<byte>)
    ensures IsFrame(f) <==> DecodeHeader(f).Ok? && |f| <= MAX_PDU_LEN
  {
    hide U32At;
  }

  /** Where the loop's tests at `cursor` leave it: the pure decision about the unread part. */
  function DecideAt(buffer: seq<byte>, cursor: nat): Decision {
    var length := U32At(buffer, cursor);
    if |buffer| - cursor < 16 then Incomplete
    else if length < 16 || length > MAX_PDU_LEN then Invalid(length)
    else if |buffer| - cursor < length then Incomplete
    else Complete(length)
  }

  lemma DecisionInPlace(buffer: seq<byte>, cursor: nat)
    requires cursor <= |buffer|
    ensures FrameFirst(buffer[cursor..]) == DecideAt(buffer, cursor)
  {
    if cursor + 4 <= |buffer| {
      assert U32At(buffer[cursor..], 0) == U32At(buffer, cursor);
    }
  }

  /** One turn of the loop is one unfolding of the specification. */
  lemma CutStep(ends: Ends, n: nat, buffer: seq<byte>, cursor: nat, frames: seq<seq<byte>>)
    requires cursor <= |buffer|
    ensures var here := CutStream(ends, n, buffer[cursor..]);
            match DecideAt(buffer, cursor)
            case Incomplete => here == Cut([], buffer[cursor..], NeedMore)
            case Invalid(length) => here == Cut([], buffer[cursor..], BadLength(length))
            case Complete(length) =>
              var pdu := buffer[cursor..cursor + length];
              if ends(n, pdu) then here == Cut([], buffer[cursor..], Ended(pdu))
              else here.After(frames) == CutStream(ends, n + 1, buffer[cursor + length..]).After(frames + [pdu])
  {
    hide FrameFirst, U32At, CutStream;
    DecisionInPlace(buffer, cursor);
    CutUnfolds(ends, n, buffer[cursor..]);
    match DecideAt(buffer, cursor)
    case Incomplete =>
    case Invalid(_) =>
    case Complete(length) =>
      var unread := buffer[cursor..];
      var pdu := buffer[cursor..cursor + length];
      assert unread[..length] == pdu && unread[length..] == buffer[cursor + length..];
      AfterAfter(CutStream(ends, n + 1, unread[length..]), frames, [pdu]);
  }

  // ---- the session's read loop ---------------------------------------------

  /** What a socket delivers: reads that returned data, up to the first empty one (EOF). */
  function Stream(chunks: seq<seq<byte>>): seq<byte> {
    if chunks == [] || chunks[0] == [] then [] else chunks[0] + Stream(chunks[1..])
  }

  lemma StreamStep(chunks: seq<seq<byte>>, used: nat)
    requires used <= |chunks|
    ensures Stream(chunks[used..]) ==
            if used == |chunks| || chunks[used] == [] then [] else chunks[used] + Stream(chunks[used + 1..])
  {
    if used < |chunks| {
      assert chunks[used..][1..] == chunks[used + 1..];
    }
  }

  lemma EmptyIsIncomplete()
    ensures FrameFirst([]).Incomplete?
  {}

  lemma WaitingCut(ends: Ends, n: nat, buffer: seq<byte>)
    requires FrameFirst(buffer).Incomplete?
    ensures CutStream(ends, n, buffer) == Cut([], buffer, NeedMore)
  {}

  class FrameReader {
    var buffer: seq<byte>
    var count: nat

    constructor (start: nat)
      ensures buffer == [] && count == start
    {
      buffer, count := [], start;
    }

    /** One pass of the loop: take every complete PDU off the front, keep the tail. */
    method Drain(ends: Ends) returns (frames: seq<seq<byte>>, stop: Stop)
      modifies this
      ensures Cut(frames, buffer, stop) == CutStream(ends, old(count), old(buffer))
      ensures count == old(count) + |frames|
    {
      hide CutStream, U32At;
      var cursor := 0;
      frames, stop := [], NeedMore;
      ghost var all, start := buffer, count;
      AfterNothing(CutStream(ends, start, all));
      assert all[0..] == all;
      while |buffer| - cursor >= 16
        invariant 0 <= cursor <= |all| && buffer == all
        invariant count == start + |frames| && stop.NeedMore?
        invariant CutStream(ends, start, all) == CutStream(ends, count, all[cursor..]).After(frames)
        decreases |all| - cursor
      {
        CutStep(ends, count, all, cursor, frames);
        var length := U32At(buffer, cursor);
        if length < 16 || length > MAX_PDU_LEN {
          stop := BadLength(length);
          break;
        }
        if |buffer| - cursor < length {
          break;
        }
        var pdu := buffer[cursor..cursor + length];
        if ends(count, pdu) {
          stop := Ended(pdu);
          break;
        }
        frames := frames + [pdu];
        cursor := cursor + length;
        count := count + 1;
      }
      CutStep(ends, count, all, cursor, frames);
      assert frames + [] == frames;
      buffer := buffer[cursor..];
    }

    /**
     * The outer loop over any sequence of reads. Frames, stopping point and
     * unconsumed bytes are those of cutting the whole stream once.
     */
    method ReadLoop(ends: Ends, chunks: seq<seq<byte>>)
      returns (frames: seq<seq<byte>>, stop: Stop, used: nat)
      requires buffer == []
      modifies this
      ensures used <= |chunks|
      ensures CutStream(ends, old(count), Stream(chunks)) == Cut(frames, buffer + Stream(chunks[used..]), stop)
      ensures stop.NeedMore? ==> Stream(chunks[used..]) == [] && |buffer| < MAX_PDU_LEN
    {
      hide FrameFirst, CutStream, Stream;
      frames, stop, used := [], NeedMore, 0;
      EmptyIsIncomplete();
      assert chunks[0..] == chunks;
      assert buffer + Stream(chunks) == Stream(chunks);
      AfterNothing(CutStream(ends, count, Stream(chunks)));
      while used < |chunks| && chunks[used] != []
        invariant used <= |chunks| && stop.NeedMore?
        invariant FrameFirst(buffer).Incomplete? && |buffer| < MAX_PDU_LEN
        invariant CutStream(ends, count, buffer + Stream(chunks[used..])).After(frames)
                  == CutStream(ends, old(count), Stream(chunks))
      {
        ghost var later := Stream(chunks[used + 1..]);
        ghost var n := count;
        StreamStep(chunks, used);
        Assoc(buffer, chunks[used], later);
        buffer := buffer + chunks[used];
        CutExtends(ends, n, buffer, later);
        CutIsLossless(ends, n, buffer);
        used := used + 1;
        var more;
        more, stop := Drain(ends);
        ghost var onward := CutStream(ends, count, buffer + later);
        AfterAfter(onward, frames, more);
        frames := frames + more;
        if !stop.NeedMore? {
          return;
        }
      }
      StreamStep(chunks, used);
      WaitingCut(ends, count, buffer);
      assert buffer + [] == buffer;
      assert frames + [] == frames;
    }
  }

  // ---- the bind handshake --------------------------------------------------

  /**
   * Reads until the first PDU is framed and splits it off; an invalid length or an
   * end of file leaves no PDU at all.
   */
  method TakeBindPdu(chunks: seq<seq<byte>>) returns (pdu: seq<byte>, leftover: seq<byte>, used: nat)
    ensures used <= |chunks|
    ensures pdu != [] <==> FrameFirst(Stream(chunks)).Complete?
    ensures pdu != [] ==> |pdu| == FrameFirst(Stream(chunks)).length
                          && pdu + (leftover + Stream(chunks[used..])) == Stream(chunks)
  {
    hide FrameFirst, Stream;
    var buffer: seq<byte> := [];
    used := 0;
    assert chunks[0..] == chunks;
    assert buffer + Stream(chunks) == Stream(chunks);
    while true
      invariant used <= |chunks| && buffer + Stream(chunks[used..]) == Stream(chunks)
      decreases |chunks| - used
    {
      DecisionIsStable(buffer, Stream(chunks[used..]));
      StreamStep(chunks, used);
      match FrameFirst(buffer) {
        case Complete(length) =>
          pdu, leftover := buffer[..length], buffer[length..];
          Assoc(pdu, leftover, Stream(chunks[used..]));
          return;
        case Invalid(_) =>
          return [], buffer, used;
        case Incomplete =>
          if used == |chunks| || chunks[used] == [] {
            assert buffer + [] == buffer;
            return [], buffer, used;
          }
          Assoc(buffer, chunks[used], Stream(chunks[used + 1..]));
          buffer := buffer + chunks[used];
          used := used + 1;
      }
    }
  }

  /** The reads a cursor over `leftover` serves: pieces of any positive size. */
  method Replay(leftover: seq<byte>) returns (pieces: seq<seq<byte>>)
    ensures Flatten(pieces) == leftover && forall p | p in pieces :: p != []
  {
    pieces := [];
    var rest := leftover;
    while rest != []
      invariant Flatten(pieces) + rest == leftover && forall p | p in pieces :: p != []
      decreases |rest|
    {
      var n :| 1 <= n <= |rest|;
      FlattenAppend(pieces, rest[..n]);
      Assoc(Flatten(pieces), rest[..n], rest[n..]);
      assert rest == rest[..n] + rest[n..];
      pieces := pieces + [rest[..n]];
      rest := rest[n..];
    }
  }

  /**
   * The handoff: the bind PDU followed by the session's frames is the cut of the
   * whole stream, however the bytes were split into reads and replayed.
   */
  method HandshakeThenSession(ends: Ends, chunks: seq<seq<byte>>)
    returns (pdu: seq<byte>, frames: seq<seq<byte>>, buffered: seq<byte>, stop: Stop, ghost unread: seq<byte>)
    ensures pdu != [] <==> FrameFirst(Stream(chunks)).Complete?
    ensures pdu != [] && !ends(0, pdu) ==>
              CutStream(ends, 0, Stream(chunks)) == Cut([pdu] + frames, buffered + unread, stop)
    ensures pdu != [] && stop.NeedMore? ==> unread == []
  {
    var leftover, used;
    pdu, leftover, used := TakeBindPdu(chunks);
    frames, stop, buffered, unread := [], NeedMore, leftover, Stream(chunks[used..]);
    if pdu != [] {
      var replay := Replay(leftover);
      var reader := new FrameReader(1);
      Replayed(replay, chunks[used..]);
      assert Stream(chunks)[|pdu|..] == leftover + Stream(chunks[used..]);
      var socket := replay + chunks[used..];
      frames, stop, used := reader.ReadLoop(ends, socket);
      buffered, unread := reader.buffer, Stream(socket[used..]);
    }
  }

  lemma {:induction false} FlattenAppend(a: seq<seq<byte>>, b: seq<byte>)
    ensures Flatten(a + [b]) == Flatten(a) + b
  {
    if a == [] {
      assert a + [b] == [b];
    } else {
      assert (a + [b])[1..] == a[1..] + [b];
      FlattenAppend(a[1..], b);
    }
  }

  lemma {:induction false} Replayed(replay: seq<seq<byte>>, chunks: seq<seq<byte>>)
    requires forall p | p in replay :: p != []
    ensures Stream(replay + chunks) == Flatten(replay) + Stream(chunks)
  {
    if replay == [] {
      assert replay + chunks == chunks;
    } else {
      assert (replay + chunks)[1..] == replay[1..] + chunks;
      assert replay[0] in replay && forall p | p in replay[1..] :: p in replay;
      Replayed(replay[1..], chunks);
      Assoc(replay[0], Flatten(replay[1..]), Stream(chunks));
    }
  }

  /** A socket is read up to its end of file: an empty read, behind which nothing counts. */
  lemma StreamIsReads(chunks: seq<seq<byte>>, more: seq<seq<byte>>)
    requires forall chunk | chunk in chunks :: chunk != []
    ensures Stream(chunks) == Stream(chunks + [[]] + more) == Flatten(chunks)
  {
    Replayed(chunks, []);
    Replayed(chunks, [[]] + more);
    assert chunks + [] == chunks && Flatten(chunks) + [] == Flatten(chunks);
    assert chunks + [[]] + more == chunks + ([[]] + more);
  }
}

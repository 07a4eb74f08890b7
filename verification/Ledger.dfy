// What the trail of events says about calls, replies, the ticker and the session's
// lifecycle, and that every step keeps it true.

module Ledger {
  import opened Bytes
  import opened Headers
  import opened Dispatch
  import opened Pending
  import opened Session
  import opened Bookkeeping

  // ---- calls and the events that ended them --------------------------------

  /** How often the read loop resolved call k. */
  function Resolutions(t: Trail, k: nat): nat {
    match t
    case Start => 0
    case Then(before, e) => Resolutions(before, k) + if e.Resolved? && e.call == k then 1 else 0
  }

  /** The outcomes the read loop decides; the rest are the writer's. */
  predicate ByReader(o: Outcome) { !o.Overwritten? && !o.WriteFailed? && !o.Discarded? }

  /** on_timeout is for an entry older than the timer, a completion for one that is not. */
  predicate TimerRespected(c: Config, outcome: Outcome, number: u32, age: int) {
    match outcome
    case Delivered(pdu) => age <= c.responseTimer && pdu.number == number
    case Late => age > c.responseTimer
    case Swept => age > c.responseTimer
    case _ => ByReader(outcome) && age <= c.responseTimer
  }

  /** A response is handed over right after it was read. */
  predicate HasArrived(before: Trail, outcome: Outcome) {
    outcome.Delivered? ==> before.Then? && before.event == Received(outcome.pdu, false, None)
  }

  predicate Justified(c: Config, calls: seq<Call>, t: Trail) {
    match t
    case Start => true
    case Then(before, e) =>
      && Justified(c, calls, before)
      && (e.Resolved? ==>
            && e.call < |calls| && calls[e.call].place == Finished(e.outcome)
            && e.number == Number(c, e.call) && TimerRespected(c, e.outcome, e.number, e.age)
            && HasArrived(before, e.outcome))
  }

  /** Each call the reader ended was ended once, in the way its events say. */
  ghost predicate LedgerAgrees(c: Config, calls: seq<Call>, t: Trail) {
    && Justified(c, calls, t)
    && forall k: nat ::
         Resolutions(t, k) ==
         if k < |calls| && calls[k].place.Finished? && ByReader(calls[k].place.outcome) then 1 else 0
  }

  lemma {:induction false} JustifiedGrows(c: Config, calls: seq<Call>, calls': seq<Call>, t: Trail)
    requires Justified(c, calls, t) && |calls| <= |calls'|
    requires forall k | 0 <= k < |calls| && calls[k].place.Finished? :: calls'[k].place == calls[k].place
    ensures Justified(c, calls', t)
  {
    hide Number, TimerRespected;
    if t.Then? {
      JustifiedGrows(c, calls, calls', t.before);
    }
  }

  lemma LedgerMoves(c: Config, calls: seq<Call>, calls': seq<Call>, t: Trail, k: nat, place: Place)
    requires LedgerAgrees(c, calls, t) && Moves(calls, calls', k, place)
    requires !calls[k].place.Finished? && (place.Finished? ==> !ByReader(place.outcome))
    ensures LedgerAgrees(c, calls', t)
  {
    JustifiedGrows(c, calls, calls', t);
    hide Justified;
  }

  lemma LedgerGrows(c: Config, calls: seq<Call>, calls': seq<Call>, t: Trail)
    requires LedgerAgrees(c, calls, t)
    requires |calls| <= |calls'| && forall k | 0 <= k < |calls| :: calls'[k].place == calls[k].place
    requires forall k | |calls| <= k < |calls'| :: !calls'[k].place.Finished?
    ensures LedgerAgrees(c, calls', t)
  {
    JustifiedGrows(c, calls, calls', t);
    hide Justified;
  }

  lemma LedgerNotes(c: Config, calls: seq<Call>, t: Trail, e: Event)
    requires LedgerAgrees(c, calls, t) && !e.Resolved?
    ensures LedgerAgrees(c, calls, Then(t, e))
  {
    hide Number, TimerRespected;
  }

  lemma LedgerResolves(c: Config, calls: seq<Call>, calls': seq<Call>, t: Trail, k: nat, o: Outcome, age: int)
    requires LedgerAgrees(c, calls, t) && Moves(calls, calls', k, Finished(o)) && calls[k].place.Registered?
    requires ByReader(o) && TimerRespected(c, o, Number(c, k), age) && HasArrived(t, o)
    ensures LedgerAgrees(c, calls', Then(t, Resolved(k, Number(c, k), o, age)))
  {
    hide Number, TimerRespected;
    JustifiedGrows(c, calls, calls', t);
    var t' := Then(t, Resolved(k, Number(c, k), o, age));
    assert Justified(c, calls', t');
    forall j: nat
      ensures Resolutions(t', j) ==
              if j < |calls'| && calls'[j].place.Finished? && ByReader(calls'[j].place.outcome) then 1 else 0
    {
      assert Resolutions(t', j) == Resolutions(t, j) + if j == k then 1 else 0;
    }
  }

  /** A caller has only ever returned the response its own number was answered with. */
  predicate CallersAgree(c: Config, calls: seq<Call>) {
    forall k | 0 <= k < |calls| ::
      && (calls[k].place.Finished? && calls[k].place.outcome.Delivered? ==>
            calls[k].place.outcome.pdu.number == Number(c, k))
      && (calls[k].caller.Got? ==>
            && calls[k].place == Finished(Delivered(calls[k].caller.pdu))
            && calls[k].caller.pdu.id == RespId(calls[k].id))
  }

  lemma CallersMove(c: Config, calls: seq<Call>, calls': seq<Call>, k: nat, place: Place)
    requires CallersAgree(c, calls) && Moves(calls, calls', k, place) && !calls[k].place.Finished?
    requires place.Finished? && place.outcome.Delivered? ==> place.outcome.pdu.number == Number(c, k)
    ensures CallersAgree(c, calls')
  {
    hide Number, RespId;
  }

  // ---- replies -------------------------------------------------------------

  /** The replies the dispatcher has committed to. */
  function Owed(t: Trail): multiset<Pdu> {
    match t
    case Start => multiset{}
    case Then(before, e) => Owed(before) + if e.Received? && e.owed.Some? then multiset{e.owed.value} else multiset{}
  }

  function Upcoming(reader: Reader): multiset<Pdu> {
    if reader.Pushing? then multiset{reader.reply} else multiset{}
  }

  function InWriter(writer: Writer): multiset<Pdu> {
    if writer.Holding? && writer.frame.Reply? then multiset{writer.frame.pdu} else multiset{}
  }

  function Count(frames: seq<Frame>, p: Pdu): nat { multiset(frames)[Reply(p)] }

  /**
   * Reply p, as often as it is owed, is with a handler, the reader, the FIFO or the
   * writer, or is written, or lost.
   */
  predicate ReplyAgrees(
    t: Trail, handlers: multiset<Pdu>, reader: Reader, fifo: seq<Frame>, writer: Writer, written: seq<Frame>,
    lost: multiset<Pdu>, p: Pdu)
  {
    Owed(t)[p] == handlers[p] + Upcoming(reader)[p] + Count(fifo, p) + InWriter(writer)[p] + Count(written, p) + lost[p]
  }

  lemma AppendedFrame(frames: seq<Frame>, f: Frame, p: Pdu)
    ensures Count(frames + [f], p) == Count(frames, p) + if f == Reply(p) then 1 else 0
  {}

  lemma PoppedFrame(fifo: seq<Frame>, p: Pdu)
    requires fifo != []
    ensures Count(fifo, p) == Count(fifo[1..], p) + if fifo[0] == Reply(p) then 1 else 0
  {
    assert fifo == [fifo[0]] + fifo[1..];
    assert multiset(fifo) == multiset{fifo[0]} + multiset(fifo[1..]);
  }

  // ---- the ticker ----------------------------------------------------------

  /**
   * The numbers put into the channel are those the ticker read and those it has not
   * read; while it lives it has heard exactly the numbers it asked with, in order,
   * but for the one enquire_link it is waiting for.
   */
  predicate TickerAgrees(
    c: Config, ticker: Ticker, asked: seq<u32>, heard: seq<u32>, channel: seq<u32>, forwarded: seq<u32>)
  {
    && heard + channel == forwarded
    && (ticker.Asleep? || ticker.Numbered? ==> asked == heard)
    && (ticker.Listening? ==> asked == heard + [Number(c, ticker.call)])
  }

  lemma HearKeepsTicker(c: Config, s: State)
    requires TickerAgrees(c, s.ticker, s.asked, s.heard, s.channel, s.forwarded) && CanTick(c, s, Hear)
    ensures var s' := DoTick(c, s, Hear);
            TickerAgrees(c, s'.ticker, s'.asked, s'.heard, s'.channel, s'.forwarded)
  {
    hide Number;
    assert s.channel == [s.channel[0]] + s.channel[1..];
    assert s.heard + s.channel == (s.heard + [s.channel[0]]) + s.channel[1..];
  }

  // ---- the lifecycle -------------------------------------------------------

  datatype Stage = Unopened | Admitted | Rejected | Serving(bind: Bind) | Departing(bind: Bind) | Over(bind: Bind) | Bad

  /**
   * What dispatching one PDU under a bind type may do: call the listener only where
   * the table says so, and owe at most one reply, to the PDU's own number and of a
   * kind its arm can send; a request is always owed one, and a handler's reply is
   * the response to what it handled.
   */
  predicate Permits(side: Side, bind: Bind, pdu: Pdu, handled: bool, owed: Option<Pdu>) {
    var arm := Route(side, bind, pdu.id);
    && (handled ==> CallsListener(arm))
    && (arm.Handle? || arm.Echo? || arm.Leave? || arm.Refuse? ==> owed.Some?)
    && (owed.Some? ==>
          && owed.value.number == pdu.number && CanSendBack(arm, owed.value.id)
          && (handled ==> owed.value.id == RespId(pdu.id)))
  }

  /** The order of events a session may show, as an automaton. */
  function StageAfter(side: Side, stage: Stage, e: Event): Stage {
    match (stage, e)
    case (Unopened, BindAnswered(success)) => if success then Admitted else Rejected
    case (Admitted, Bound(bind)) => Serving(bind)
    case (Serving(bind), Received(pdu, handled, owed)) =>
      if !Permits(side, bind, pdu, handled, owed) then Bad
      else if pdu.id == UNBIND then Departing(bind)
      else stage
    case (Serving(bind), Resolved(_, _, _, _)) => stage
    case (Serving(bind), Unmatched(_)) => stage
    case (Serving(bind), Unbinding) => Over(bind)
    case (Departing(bind), Unbinding) => Over(bind)
    case _ => Bad
  }

  function StageOf(side: Side, t: Trail): Stage {
    match t
    case Start => Unopened
    case Then(before, e) => StageAfter(side, StageOf(side, before), e)
  }

  predicate StageFits(bind: Bind, reader: Reader, stage: Stage) {
    match reader
    case Unbound => stage == Unopened
    case Refused => stage == Rejected
    case Accepted => stage == Admitted
    case AtRead => stage == Serving(bind)
    case InPass => stage == Serving(bind)
    case Checking => stage == Serving(bind)
    case Pushing(_, last) => stage == if last then Departing(bind) else Serving(bind)
    case Leaving => stage == Serving(bind) || stage == Departing(bind)
    case Settling(_) => stage == Serving(bind)
    case Told => stage == Over(bind)
    case Closed => stage == Over(bind)
    case Aborted => stage == Serving(bind) || stage == Departing(bind) || stage == Over(bind)
  }

  /** How often the listener was told the session is bound, or unbound. */
  function Bounds(t: Trail): nat {
    match t
    case Start => 0
    case Then(before, e) => Bounds(before) + if e.Bound? then 1 else 0
  }

  function Unbounds(t: Trail): nat {
    match t
    case Start => 0
    case Then(before, e) => Unbounds(before) + if e.Unbinding? then 1 else 0
  }

  predicate WasBound(stage: Stage) { stage.Serving? || stage.Departing? }

  /** A trail the automaton accepts binds at most once and unbinds at most once, afterwards. */
  lemma {:induction false} StageCounts(side: Side, t: Trail)
    requires !StageOf(side, t).Bad?
    ensures !WasBound(StageOf(side, t)) && !StageOf(side, t).Over? ==> Bounds(t) == Unbounds(t) == 0
    ensures WasBound(StageOf(side, t)) ==> Bounds(t) == 1 && Unbounds(t) == 0
    ensures StageOf(side, t).Over? ==> Bounds(t) == Unbounds(t) == 1
  {
    if t.Then? {
      StageCounts(side, t.before);
    }
  }
}

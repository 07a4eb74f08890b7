// The session's steps over the objects the tasks really share. Each method is the
// critical section of one task; it changes the table or the counter in place exactly
// as the corresponding step of the session changes its state.

module Sections {
  import opened Bytes
  import opened Headers
  import opened Dispatch
  import opened Pending
  import opened Session
  import opened Bookkeeping
  import opened Ledger
  import opened Preservation
  import opened Safety

  /** The shared objects are in the state `s` of the session. */
  ghost predicate Mirrors(table: PendingRequests, counter: SequenceCounter, c: Config, s: State)
    reads table, counter
  {
    table.entries == s.pending && counter.next == Number(c, |s.calls|)
  }

  lemma NextNumber(c: Config, n: nat)
    ensures Low32(Number(c, n) + 1) == Number(c, n + 1)
  {
    Low32Sum(1, FirstNumber(c.side) + n);
  }

  /** A caller, or the ticker, is handed the number of the session's next allocation. */
  method AllocateNumber(table: PendingRequests, counter: SequenceCounter, ghost c: Config, ghost s: State,
      ghost id: u32)
    returns (number: u32)
    requires Mirrors(table, counter, c, s)
    modifies counter
    ensures number == Number(c, |s.calls|)
    ensures Mirrors(table, counter, c, Allocate(s, id))
  {
    hide Number, Low32;
    NextNumber(c, |s.calls|);
    number := counter.FetchAdd();
  }

  /** The writer, before the write: the entry it drops, if any, is the one that loses its number. */
  method RegisterFrame(
    table: PendingRequests, counter: SequenceCounter, number: u32, now: nat, call: nat, ghost c: Config, ghost s: State)
    returns (dropped: Option<Entry>)
    requires Mirrors(table, counter, c, s) && Books(c, s)
    requires s.writer == Holding(Ask(call)) && number == Number(c, call) && now == s.now
    modifies table
    ensures Mirrors(table, counter, c, DoWrite(c, s, Insert))
    ensures forall j: nat | j < |s.calls| && j != call ::
              DoWrite(c, s, Insert).calls[j].place ==
              if dropped.Some? && dropped.value.call == j then Finished(Overwritten(call)) else s.calls[j].place
  {
    forall j: nat | j < |s.calls| && j != call
      ensures DoWrite(c, s, Insert).calls[j].place ==
              if number in s.pending && s.pending[number].call == j then Finished(Overwritten(call))
              else s.calls[j].place
    {
      InsertEvicts(c, s, j);
    }
    RegisterShape(c, s, call);
    hide Number, DoWrite, Books;
    dropped := table.Insert(number, now, call);
  }

  lemma RegisterShape(c: Config, s: State, k: nat)
    ensures Register(c, s, k).pending == s.pending[Number(c, k) := Entry(s.now, k)]
    ensures |Register(c, s, k).calls| == |s.calls|
  {
    hide Number;
  }

  /** The writer, after a failed write. */
  method UnregisterFrame(
    table: PendingRequests, counter: SequenceCounter, number: u32, ghost c: Config, ghost s: State)
    requires Mirrors(table, counter, c, s) && s.writer.Failing? && number == Number(c, s.writer.call)
    modifies table
    ensures Mirrors(table, counter, c, DoWrite(c, s, Remove))
  {
    hide Number;
    var _ := table.Remove(number);
  }

  datatype Verdict = NoEntry | TooLate(call: nat) | InTime(call: nat)

  /** The last event is what the verdict says. */
  predicate Says(verdict: Verdict, t: Trail, number: u32) {
    t.Then? &&
    match verdict
    case NoEntry => t.event == Unmatched(number)
    case TooLate(k) => t.event.Resolved? && t.event.call == k && t.event.outcome == Late
    case InTime(k) => t.event.Resolved? && t.event.call == k && t.event.outcome != Late
  }

  /** The reader, on a response: take the entry out, then look at its age. */
  method TakeResponse(
    table: PendingRequests, counter: SequenceCounter, number: u32, now: nat, timer: nat,
    ghost c: Config, ghost s: State, ghost pdu: Pdu, ghost decodes: bool)
    returns (verdict: Verdict)
    requires Mirrors(table, counter, c, s)
    requires LooksUp(Route(c.side, s.bind, pdu.id))
    requires number == pdu.number && now == s.now && timer == c.responseTimer
    modifies table
    ensures Mirrors(table, counter, c, DispatchPdu(c, s, pdu, decodes))
    ensures Says(verdict, DispatchPdu(c, s, pdu, decodes).trail, number)
  {
    hide Number, Route, DispatchPdu;
    LookupShape(c, s, pdu, decodes);
    var removed := table.Remove(number);
    match removed {
      case None => verdict := NoEntry;
      case Some(e) => verdict := if IsLate(e, now, timer) then TooLate(e.call) else InTime(e.call);
    }
  }

  /** What a looked-up response does to the table, and what the reader notes last. */
  ghost predicate LookedUp(c: Config, s: State, s': State, n: u32) {
    && s'.pending == s.pending - {n} && |s'.calls| == |s.calls| && s'.trail.Then?
    && if n !in s.pending then s'.trail.event == Unmatched(n)
       else
         && s'.trail.event.Resolved? && s'.trail.event.call == s.pending[n].call
         && (s'.trail.event.outcome == Late <==> IsLate(s.pending[n], s.now, c.responseTimer))
  }

  lemma ResolveNotes(s: State, n: u32, o: Outcome)
    requires n in s.pending
    ensures var s' := Resolve(s, n, o);
            && s'.pending == s.pending - {n} && |s'.calls| == |s.calls|
            && s'.trail == Then(s.trail, Resolved(s.pending[n].call, n, o, s.now - s.pending[n].since))
  {}

  lemma MatchShape(c: Config, s: State, pdu: Pdu, decodes: bool, bad: Option<u32>, closes: bool)
    ensures LookedUp(c, s, Match(c, s, pdu, decodes, bad, closes), pdu.number)
  {
    hide IsLate, IsAwaited, Resolve;
    var n := pdu.number;
    var s1 := Log(s, Received(pdu, false, None));
    if n in s.pending {
      if IsLate(s.pending[n], s.now, c.responseTimer) {
        ResolveNotes(s1, n, Late);
      } else if decodes {
        ResolveNotes(s1, n, if IsAwaited(s, s.pending[n].call) then Delivered(pdu) else Answered);
      } else {
        ResolveNotes(s1, n, Undecodable);
        if bad.Some? {
          ResolveNotes(Log(s, Received(pdu, false, Some(Pdu(bad.value, n)))), n, Undecodable);
        }
      }
    } else {
      assert s.pending - {n} == s.pending;
    }
  }

  lemma SettleLooksUp(c: Config, s: State, n: u32)
    ensures LookedUp(c, s, SettleBeat(c, s, n), n)
  {
    hide IsLate, Resolve;
    if n in s.pending {
      ResolveNotes(s, n, if IsLate(s.pending[n], s.now, c.responseTimer) then Late else Answered);
    } else {
      assert s.pending - {n} == s.pending;
    }
  }

  /** The reader, on an enquire_link_resp it has passed on: the same two statements. */
  method TakeHeartbeat(
    table: PendingRequests, counter: SequenceCounter, number: u32, now: nat, timer: nat,
    ghost c: Config, ghost s: State)
    returns (verdict: Verdict)
    requires Mirrors(table, counter, c, s) && s.reader == Settling(number)
    requires now == s.now && timer == c.responseTimer
    modifies table
    ensures Mirrors(table, counter, c, DoRead(c, s, Settle))
    ensures Says(verdict, DoRead(c, s, Settle).trail, number)
  {
    hide Number, SettleBeat;
    SettleLooksUp(c, s, number);
    var removed := table.Remove(number);
    match removed {
      case None => verdict := NoEntry;
      case Some(e) => verdict := if IsLate(e, now, timer) then TooLate(e.call) else InTime(e.call);
    }
  }

  lemma LookupShape(c: Config, s: State, pdu: Pdu, decodes: bool)
    requires LooksUp(Route(c.side, s.bind, pdu.id))
    ensures LookedUp(c, s, DispatchPdu(c, s, pdu, decodes), pdu.number)
  {
    hide Route, Match, LookedUp;
    match Route(c.side, s.bind, pdu.id)
    case Correlate(bad, closes) => MatchShape(c, s, pdu, decodes, Some(bad), closes);
    case CorrelateNack => MatchShape(c, s, pdu, decodes, None, false);
    case _ =>
  }

  /** The reader, behind every pass: what it reports is an order the session's sweep may take. */
  method SweepExpired(
    table: PendingRequests, counter: SequenceCounter, now: nat, timer: nat, ghost c: Config, ghost s: State)
    returns (timedOut: seq<u32>)
    requires Mirrors(table, counter, c, s) && Core(c, s) && s.reader.InPass?
    requires now == s.now && timer == c.responseTimer
    modifies table
    ensures CanRead(c, s, EndPass(timedOut))
    ensures Mirrors(table, counter, c, DoRead(c, s, EndPass(timedOut)))
  {
    hide Number, Core, SweepAll, Owed, StageOf, Expired, Enumerates;
    timedOut := table.Sweep(now, timer);
    EndPassIsExact(c, s, timedOut);
    SweepCounts(c, s, timedOut);
  }

  lemma SweepCounts(c: Config, s: State, order: seq<u32>)
    requires Core(c, s) && Enumerates(order, Expired(s.pending, s.now, c.responseTimer))
    ensures |DoRead(c, s, EndPass(order)).calls| == |s.calls|
  {
    hide Core, SweepAll;
    SweepLength(s.(lastRead := s.now), order);
  }

  lemma {:induction false} SweepLength(s: State, order: seq<u32>)
    ensures |SweepAll(s, order).calls| == |s.calls|
    decreases |order|
  {
    if order != [] {
      SweepLength(if order[0] in s.pending then Resolve(s, order[0], Swept) else s, order[1..]);
    }
  }
}

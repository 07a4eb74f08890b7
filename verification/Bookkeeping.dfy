// The inductive invariant of the correlation protocol: where each allocated
// request is, and what the FIFO, the writer, the table and the wire say about it.
// Each part names the components it reads, so a step leaves the others alone.

module Bookkeeping {
  import opened Bytes
  import opened Headers
  import opened Dispatch
  import opened Pending
  import opened Session

  /** The frames in the FIFO are the queued calls, each once. */
  predicate QueueAgrees(calls: seq<Call>, fifo: seq<Frame>) {
    && (forall k | 0 <= k < |calls| :: multiset(fifo)[Ask(k)] == if calls[k].place.Queued? then 1 else 0)
    && (forall f | f in fifo && f.Ask? :: f.call < |calls|)
  }

  /** The table holds exactly the registered calls, each under its own number. */
  predicate TableAgrees(c: Config, calls: seq<Call>, pending: Table) {
    && (forall n | n in pending ::
          && pending[n].call < |calls| && Number(c, pending[n].call) == n
          && calls[pending[n].call].place.Registered?)
    && (forall k | 0 <= k < |calls| && calls[k].place.Registered? ::
          Number(c, k) in pending && pending[Number(c, k)].call == k)
  }

  /** A place a request can have once the peer may have seen it. */
  predicate OnWire(p: Place) {
    p.Registered? || (p.Finished? && !p.outcome.WriteFailed? && !p.outcome.Discarded?)
  }

  predicate HeldAgrees(calls: seq<Call>, writer: Writer) {
    && (forall k | 0 <= k < |calls| :: calls[k].place.Held? <==> writer == Holding(Ask(k)))
    && (writer.Holding? && writer.frame.Ask? ==> writer.frame.call < |calls|)
  }

  /**
   * The strengthening that register-before-write maintains: between insert and write
   * the writer's call is on record, unwritten, and has no rival under its number.
   */
  predicate InsertedAgrees(c: Config, calls: seq<Call>, writer: Writer, pending: Table, written: seq<Frame>) {
    writer.Inserted? || writer.Failing? ==>
      && writer.call < |calls| && OnWire(calls[writer.call].place)
      && Ask(writer.call) !in written
      && (Number(c, writer.call) in pending ==> pending[Number(c, writer.call)].call == writer.call)
  }

  predicate WireAgrees(calls: seq<Call>, written: seq<Frame>) {
    && (forall k | 0 <= k < |calls| :: multiset(written)[Ask(k)] <= 1)
    && (forall f | f in written && f.Ask? :: f.call < |calls| && OnWire(calls[f.call].place))
  }

  predicate RivalsShareNumber(c: Config, calls: seq<Call>) {
    forall k | 0 <= k < |calls| && calls[k].place.Finished? && calls[k].place.outcome.Overwritten? ::
      var r := calls[k].place.outcome.rival;
      r < |calls| && r != k && Number(c, r) == Number(c, k)
  }

  predicate TickerHolds(calls: seq<Call>, ticker: Ticker) {
    ticker.Numbered? ==>
      ticker.call < |calls| && calls[ticker.call].place.InHand? && calls[ticker.call].id == ENQUIRE_LINK
  }

  predicate Books(c: Config, s: State) {
    && QueueAgrees(s.calls, s.fifo)
    && TableAgrees(c, s.calls, s.pending)
    && HeldAgrees(s.calls, s.writer)
    && InsertedAgrees(c, s.calls, s.writer, s.pending, s.written)
    && WireAgrees(s.calls, s.written)
    && RivalsShareNumber(c, s.calls)
    && TickerHolds(s.calls, s.ticker)
  }

  // ---- components ----------------------------------------------------------

  /** Only call k changes, and only its place. */
  predicate Moves(calls: seq<Call>, calls': seq<Call>, k: nat, place: Place) {
    k < |calls| && calls' == calls[k := calls[k].(place := place)]
  }

  lemma QueueMoves(calls: seq<Call>, calls': seq<Call>, fifo: seq<Frame>, k: nat, place: Place)
    requires QueueAgrees(calls, fifo) && Moves(calls, calls', k, place)
    requires !calls[k].place.Queued? && !place.Queued?
    ensures QueueAgrees(calls', fifo)
  {}

  lemma QueuePush(calls: seq<Call>, calls': seq<Call>, fifo: seq<Frame>, k: nat)
    requires QueueAgrees(calls, fifo) && Moves(calls, calls', k, Queued) && !calls[k].place.Queued?
    ensures QueueAgrees(calls', fifo + [Ask(k)])
  {}

  lemma QueuePushReply(calls: seq<Call>, fifo: seq<Frame>, p: Pdu)
    requires QueueAgrees(calls, fifo)
    ensures QueueAgrees(calls, fifo + [Reply(p)])
  {}

  lemma QueuePop(calls: seq<Call>, fifo: seq<Frame>)
    requires QueueAgrees(calls, fifo) && fifo != []
    ensures fifo[0].Ask? ==> fifo[0].call < |calls| && calls[fifo[0].call].place.Queued?
                             && QueueAgrees(calls[fifo[0].call := calls[fifo[0].call].(place := Held)], fifo[1..])
    ensures fifo[0].Reply? ==> QueueAgrees(calls, fifo[1..])
  {
    var f := fifo[0];
    assert fifo == [f] + fifo[1..];
    assert multiset(fifo) == multiset{f} + multiset(fifo[1..]);
    assert f in fifo && forall g | g in fifo[1..] :: g in fifo;
  }

  lemma TableMoves(c: Config, calls: seq<Call>, calls': seq<Call>, pending: Table, k: nat, place: Place)
    requires TableAgrees(c, calls, pending) && Moves(calls, calls', k, place)
    requires !calls[k].place.Registered? && !place.Registered?
    ensures TableAgrees(c, calls', pending)
  {
    hide Number;
  }

  lemma TableRemove(c: Config, calls: seq<Call>, calls': seq<Call>, pending: Table, n: u32, outcome: Outcome)
    requires TableAgrees(c, calls, pending) && n in pending
    requires Moves(calls, calls', pending[n].call, Finished(outcome))
    ensures TableAgrees(c, calls', pending - {n})
  {
    hide Number;
  }

  lemma TableInsert(c: Config, calls: seq<Call>, calls': seq<Call>, pending: Table, k: nat, now: nat)
    requires TableAgrees(c, calls, pending) && Moves(calls, calls', k, Registered)
    requires Number(c, k) !in pending
    ensures TableAgrees(c, calls', pending[Number(c, k) := Entry(now, k)])
  {
    hide Number;
  }

  lemma HeldMoves(calls: seq<Call>, calls': seq<Call>, writer: Writer, k: nat, place: Place)
    requires HeldAgrees(calls, writer) && Moves(calls, calls', k, place)
    requires !calls[k].place.Held? && !place.Held?
    ensures HeldAgrees(calls', writer)
  {}

  lemma HeldTaken(calls: seq<Call>, calls': seq<Call>, writer: Writer, k: nat)
    requires HeldAgrees(calls, writer) && !writer.Holding? && Moves(calls, calls', k, Held)
    ensures HeldAgrees(calls', Holding(Ask(k)))
  {}

  lemma HeldReleased(calls: seq<Call>, calls': seq<Call>, k: nat, place: Place, writer': Writer)
    requires HeldAgrees(calls, Holding(Ask(k))) && Moves(calls, calls', k, place)
    requires !place.Held? && !writer'.Holding?
    ensures HeldAgrees(calls', writer')
  {}

  lemma WireMoves(calls: seq<Call>, calls': seq<Call>, written: seq<Frame>, k: nat, place: Place)
    requires WireAgrees(calls, written) && Moves(calls, calls', k, place)
    requires Ask(k) in written ==> OnWire(place)
    ensures WireAgrees(calls', written)
  {}

  lemma WireSent(calls: seq<Call>, written: seq<Frame>, k: nat)
    requires WireAgrees(calls, written) && k < |calls| && OnWire(calls[k].place) && Ask(k) !in written
    ensures WireAgrees(calls, written + [Ask(k)])
  {}

  lemma WireSentReply(c: Config, calls: seq<Call>, written: seq<Frame>, p: Pdu)
    requires WireAgrees(calls, written)
    ensures WireAgrees(calls, written + [Reply(p)])
  {}

  lemma RivalsMove(c: Config, calls: seq<Call>, calls': seq<Call>, k: nat, place: Place)
    requires RivalsShareNumber(c, calls) && Moves(calls, calls', k, place)
    requires place.Finished? && place.outcome.Overwritten? ==>
               place.outcome.rival < |calls| && place.outcome.rival != k
               && Number(c, place.outcome.rival) == Number(c, k)
    ensures RivalsShareNumber(c, calls')
  {
    hide Number;
  }

  lemma InsertedMoves(c: Config, calls: seq<Call>, calls': seq<Call>, writer: Writer, pending: Table,
      pending': Table, written: seq<Frame>, k: nat, place: Place)
    requires InsertedAgrees(c, calls, writer, pending, written) && Moves(calls, calls', k, place)
    requires OnWire(calls[k].place) ==> OnWire(place)
    requires forall n | n in pending' :: n in pending && pending'[n] == pending[n]
    ensures InsertedAgrees(c, calls', writer, pending', written)
  {
    hide Number;
  }

  // ---- steps ---------------------------------------------------------------

  lemma AllocateKeepsBooks(c: Config, s: State, id: u32)
    requires Books(c, s)
    ensures Books(c, Allocate(s, id))
  {
    hide Number;
    var calls' := s.calls + [Call(id, InHand, Waiting)];
    assert QueueAgrees(calls', s.fifo) by { hide TableAgrees, WireAgrees, HeldAgrees, RivalsShareNumber; }
    assert TableAgrees(c, calls', s.pending) by { hide QueueAgrees, WireAgrees, HeldAgrees, RivalsShareNumber; }
    assert WireAgrees(calls', s.written) by { hide QueueAgrees, TableAgrees, HeldAgrees, RivalsShareNumber; }
    assert HeldAgrees(calls', s.writer) by { hide QueueAgrees, TableAgrees, WireAgrees, RivalsShareNumber; }
    assert RivalsShareNumber(c, calls') by { hide QueueAgrees, TableAgrees, HeldAgrees, WireAgrees; }
    hide QueueAgrees, TableAgrees, HeldAgrees, WireAgrees, RivalsShareNumber;
  }

  lemma PushKeepsBooks(c: Config, s: State, k: nat)
    requires Books(c, s) && k < |s.calls| && s.calls[k].place.InHand? && s.ticker != Numbered(k)
    ensures Books(c, Enqueue(SetPlace(s, k, Queued), Ask(k)))
  {
    hide Number, QueueAgrees, TableAgrees, HeldAgrees, WireAgrees, RivalsShareNumber, InsertedAgrees;
    var calls' := SetPlace(s, k, Queued).calls;
    QueuePush(s.calls, calls', s.fifo, k);
    TableMoves(c, s.calls, calls', s.pending, k, Queued);
    HeldMoves(s.calls, calls', s.writer, k, Queued);
    InsertedMoves(c, s.calls, calls', s.writer, s.pending, s.pending, s.written, k, Queued);
    WrittenIsOnWire(s.calls, s.written, k);
    WireMoves(s.calls, calls', s.written, k, Queued);
    RivalsMove(c, s.calls, calls', k, Queued);
  }

  lemma WrittenIsOnWire(calls: seq<Call>, written: seq<Frame>, k: nat)
    requires WireAgrees(calls, written) && k < |calls|
    ensures Ask(k) in written ==> OnWire(calls[k].place)
  {}

  lemma DiscardKeepsBooks(c: Config, s: State, k: nat)
    requires Books(c, s) && k < |s.calls| && s.calls[k].place.InHand? && s.ticker != Numbered(k)
    ensures Books(c, SetPlace(s, k, Finished(Discarded)))
  {
    hide Number, QueueAgrees, TableAgrees, HeldAgrees, WireAgrees, RivalsShareNumber, InsertedAgrees;
    var calls', place := SetPlace(s, k, Finished(Discarded)).calls, Finished(Discarded);
    QueueMoves(s.calls, calls', s.fifo, k, place);
    TableMoves(c, s.calls, calls', s.pending, k, place);
    HeldMoves(s.calls, calls', s.writer, k, place);
    InsertedMoves(c, s.calls, calls', s.writer, s.pending, s.pending, s.written, k, place);
    WrittenIsOnWire(s.calls, s.written, k);
    WireMoves(s.calls, calls', s.written, k, place);
    RivalsMove(c, s.calls, calls', k, place);
  }

  lemma ReplyKeepsBooks(c: Config, s: State, p: Pdu)
    requires Books(c, s)
    ensures Books(c, Enqueue(s, Reply(p)))
  {
    hide Number, QueueAgrees, TableAgrees, HeldAgrees, WireAgrees, RivalsShareNumber, InsertedAgrees;
    QueuePushReply(s.calls, s.fifo, p);
  }

  lemma CallerKeepsBooks(c: Config, s: State, k: nat, caller: Caller)
    requires Books(c, s) && k < |s.calls|
    ensures Books(c, SetCaller(s, k, caller))
  {
    hide Number;
    var calls' := SetCaller(s, k, caller).calls;
    assert QueueAgrees(calls', s.fifo) by { hide TableAgrees, WireAgrees, HeldAgrees, RivalsShareNumber; }
    assert TableAgrees(c, calls', s.pending) by { hide QueueAgrees, WireAgrees, HeldAgrees, RivalsShareNumber; }
    assert WireAgrees(calls', s.written) by { hide QueueAgrees, TableAgrees, HeldAgrees, RivalsShareNumber; }
    assert HeldAgrees(calls', s.writer) by { hide QueueAgrees, TableAgrees, WireAgrees, RivalsShareNumber; }
    assert RivalsShareNumber(c, calls') by { hide QueueAgrees, TableAgrees, HeldAgrees, WireAgrees; }
    hide QueueAgrees, TableAgrees, HeldAgrees, WireAgrees, RivalsShareNumber;
  }

  lemma DequeueKeepsBooks(c: Config, s: State)
    requires Books(c, s) && CanWrite(s, Dequeue)
    ensures Books(c, DoWrite(c, s, Dequeue))
  {
    hide Number, QueueAgrees, TableAgrees, WireAgrees, RivalsShareNumber;
    QueuePop(s.calls, s.fifo);
    if s.fifo[0].Ask? {
      hide HeldAgrees;
      var k := s.fifo[0].call;
      var calls' := SetPlace(s, k, Held).calls;
      TableMoves(c, s.calls, calls', s.pending, k, Held);
      HeldTaken(s.calls, calls', s.writer, k);
      WrittenIsOnWire(s.calls, s.written, k);
      WireMoves(s.calls, calls', s.written, k, Held);
      RivalsMove(c, s.calls, calls', k, Held);
    }
  }

  /** Drops the entry that a new registration replaces. */
  lemma EvictKeepsBooks(c: Config, s: State, n: u32, rival: nat)
    requires Books(c, s) && n in s.pending && rival != s.pending[n].call
    requires rival < |s.calls| && Number(c, rival) == n
    ensures Books(c, SetPlace(s, s.pending[n].call, Finished(Overwritten(rival))).(pending := s.pending - {n}))
  {
    hide Number;
    RemoveEntryKeepsBooks(c, s, n, Overwritten(rival));
  }

  lemma RemoveEntryKeepsBooks(c: Config, s: State, n: u32, outcome: Outcome)
    requires Books(c, s) && n in s.pending
    requires outcome.Overwritten? ==>
               outcome.rival < |s.calls| && outcome.rival != s.pending[n].call && Number(c, outcome.rival) == n
    requires outcome.WriteFailed? ==> s.writer == Failing(s.pending[n].call)
    requires !outcome.Discarded?
    ensures outcome.WriteFailed? ||
            Books(c, SetPlace(s, s.pending[n].call, Finished(outcome)).(pending := s.pending - {n}))
    ensures outcome.WriteFailed? ==>
              Books(c, SetPlace(s, s.pending[n].call, Finished(outcome)).(pending := s.pending - {n}, writer := Idle))
  {
    var k, place := s.pending[n].call, Finished(outcome);
    hide Number, QueueAgrees, HeldAgrees, WireAgrees, RivalsShareNumber;
    assert k < |s.calls| && s.calls[k].place.Registered? && Number(c, k) == n;
    hide TableAgrees;
    var calls' := SetPlace(s, k, place).calls;
    QueueMoves(s.calls, calls', s.fifo, k, place);
    TableRemove(c, s.calls, calls', s.pending, n, outcome);
    HeldMoves(s.calls, calls', s.writer, k, place);
    WireMoves(s.calls, calls', s.written, k, place);
    RivalsMove(c, s.calls, calls', k, place);
    if outcome.WriteFailed? {
      HeldIdle(calls', s.writer);
    }
  }

  lemma HeldIdle(calls: seq<Call>, writer: Writer)
    requires HeldAgrees(calls, writer) && !writer.Holding?
    ensures forall writer': Writer | !writer'.Holding? :: HeldAgrees(calls, writer')
  {}

  lemma InsertFreshKeepsBooks(c: Config, s: State, k: nat)
    requires Books(c, s) && s.writer == Holding(Ask(k)) && Number(c, k) !in s.pending
    ensures Books(c, SetPlace(s, k, Registered).(pending := s.pending[Number(c, k) := Entry(s.now, k)],
        writer := Inserted(k)))
  {
    hide Number, QueueAgrees, TableAgrees, WireAgrees, RivalsShareNumber;
    assert k < |s.calls| && s.calls[k].place.Held?;
    hide HeldAgrees;
    var calls' := SetPlace(s, k, Registered).calls;
    QueueMoves(s.calls, calls', s.fifo, k, Registered);
    TableInsert(c, s.calls, calls', s.pending, k, s.now);
    HeldReleased(s.calls, calls', k, Registered, Inserted(k));
    WrittenIsOnWire(s.calls, s.written, k);
    WireMoves(s.calls, calls', s.written, k, Registered);
    RivalsMove(c, s.calls, calls', k, Registered);
  }

  lemma InsertKeepsBooks(c: Config, s: State)
    requires Books(c, s) && CanWrite(s, Insert)
    ensures Books(c, DoWrite(c, s, Insert))
  {
    var k := s.writer.frame.call;
    var n := Number(c, k);
    hide Number;
    assert k < |s.calls| && s.calls[k].place.Held?;
    if n in s.pending {
      assert s.calls[s.pending[n].call].place.Registered?;
      ReplaceKeepsBooks(c, s, k);
    } else {
      hide QueueAgrees, TableAgrees, HeldAgrees, WireAgrees, RivalsShareNumber, InsertedAgrees;
      InsertFreshKeepsBooks(c, s, k);
    }
  }

  /** Registering over an entry is evicting it first. */
  lemma ReplaceKeepsBooks(c: Config, s: State, k: nat)
    requires Books(c, s) && s.writer == Holding(Ask(k)) && Number(c, k) in s.pending
    requires s.pending[Number(c, k)].call != k && k < |s.calls|
    ensures Books(c, Register(c, s, k))
  {
    hide Number, QueueAgrees, TableAgrees, HeldAgrees, WireAgrees, RivalsShareNumber, InsertedAgrees, TickerHolds;
    var n := Number(c, k);
    var s1 := SetPlace(s, s.pending[n].call, Finished(Overwritten(k))).(pending := s.pending - {n});
    EvictKeepsBooks(c, s, n, k);
    InsertFreshKeepsBooks(c, s1, k);
    assert s1.pending[n := Entry(s.now, k)] == s.pending[n := Entry(s.now, k)];
  }

  lemma WriteKeepsBooks(c: Config, s: State, ok: bool)
    requires Books(c, s) && CanWrite(s, Write(ok))
    ensures Books(c, DoWrite(c, s, Write(ok)))
  {
    hide Number, QueueAgrees, TableAgrees, WireAgrees, RivalsShareNumber;
    if s.writer.Inserted? {
      HeldIdle(s.calls, s.writer);
      WireSent(s.calls, s.written, s.writer.call);
    } else {
      WireSentReply(c, s.calls, s.written, s.writer.frame.pdu);
    }
  }

  lemma RemoveKeepsBooks(c: Config, s: State)
    requires Books(c, s) && CanWrite(s, Remove)
    ensures Books(c, DoWrite(c, s, Remove))
  {
    hide Number, QueueAgrees, TableAgrees, WireAgrees, RivalsShareNumber;
    var n := Number(c, s.writer.call);
    HeldIdle(s.calls, s.writer);
    if n in s.pending {
      RemoveEntryKeepsBooks(c, s, n, WriteFailed);
    } else {
      assert s.pending - {n} == s.pending;
    }
  }

  lemma StopKeepsBooks(c: Config, s: State)
    requires Books(c, s) && CanWrite(s, Halt)
    ensures Books(c, DoWrite(c, s, Halt))
  {
    hide Number, QueueAgrees, TableAgrees, WireAgrees, RivalsShareNumber;
    if s.writer.Holding? && s.writer.frame.Ask? {
      var k, place := s.writer.frame.call, Finished(Discarded);
      assert k < |s.calls| && s.calls[k].place.Held?;
      hide HeldAgrees;
      var calls' := SetPlace(s, k, place).calls;
      QueueMoves(s.calls, calls', s.fifo, k, place);
      TableMoves(c, s.calls, calls', s.pending, k, place);
      HeldReleased(s.calls, calls', k, place, Stopped);
      WrittenIsOnWire(s.calls, s.written, k);
      WireMoves(s.calls, calls', s.written, k, place);
      RivalsMove(c, s.calls, calls', k, place);
    }
  }

  lemma ResolveKeepsBooks(c: Config, s: State, n: u32, o: Outcome)
    requires Books(c, s) && n in s.pending && !o.Overwritten? && !o.WriteFailed? && !o.Discarded?
    ensures Books(c, Resolve(s, n, o))
  {
    hide Number, QueueAgrees, TableAgrees, HeldAgrees, WireAgrees, RivalsShareNumber, InsertedAgrees;
    RemoveEntryKeepsBooks(c, s, n, o);
  }
}

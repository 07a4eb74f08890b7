// What no step takes back: which request a number was allocated for, how a request
// ended, and what its caller was told.

module Growth {
  import opened Bytes
  import opened Headers
  import opened Dispatch
  import opened Pending
  import opened Session
  import opened Bookkeeping
  import opened Ledger
  import opened Preservation

  predicate CallGrows(a: Call, b: Call) {
    && b.id == a.id
    && (a.place.Finished? ==> b.place == a.place)
    && (!a.caller.Waiting? ==> b.caller == a.caller)
  }

  predicate Grows(calls: seq<Call>, calls': seq<Call>) {
    |calls| <= |calls'| && forall k | 0 <= k < |calls| :: CallGrows(calls[k], calls'[k])
  }

  lemma GrowsAgain(a: seq<Call>, b: seq<Call>, c: seq<Call>)
    requires Grows(a, b) && Grows(b, c)
    ensures Grows(a, c)
  {
    forall k | 0 <= k < |a| ensures CallGrows(a[k], c[k]) {
      assert CallGrows(a[k], b[k]) && CallGrows(b[k], c[k]);
    }
  }

  lemma ResolveGrows(c: Config, s: State, n: u32, o: Outcome)
    requires Books(c, s) && n in s.pending
    ensures Grows(s.calls, Resolve(s, n, o).calls)
  {
    hide Number, QueueAgrees, HeldAgrees, WireAgrees, RivalsShareNumber, InsertedAgrees;
  }

  lemma MatchGrows(c: Config, s: State, pdu: Pdu, decodes: bool, bad: Option<u32>, closes: bool)
    requires Books(c, s)
    ensures Grows(s.calls, Match(c, s, pdu, decodes, bad, closes).calls)
  {
    hide Books, Resolve, IsAwaited, IsLate;
    var n := pdu.number;
    var owed := if !decodes && bad.Some? then Some(Pdu(bad.value, n)) else None;
    var s1, s2 := Log(s, Received(pdu, false, owed)), Log(s, Received(pdu, false, None));
    if n in s.pending {
      BooksIgnoreLog(c, s);
      ResolveGrows(c, s2, n, Late);
      ResolveGrows(c, s1, n, Undecodable);
      ResolveGrows(c, s2, n, if IsAwaited(s, s.pending[n].call) then Delivered(pdu) else Answered);
    }
  }

  lemma BooksIgnoreLog(c: Config, s: State)
    requires Books(c, s)
    ensures forall e: Event {:trigger Log(s, e)} :: Books(c, Log(s, e))
  {
    hide QueueAgrees, TableAgrees, HeldAgrees, WireAgrees, RivalsShareNumber, InsertedAgrees;
  }

  lemma SettleGrows(c: Config, s: State, n: u32)
    requires Books(c, s)
    ensures Grows(s.calls, SettleBeat(c, s, n).calls)
  {
    hide Books, Resolve, IsLate, Grows;
    GrowsItself(s.calls);
    if n in s.pending {
      ResolveGrows(c, s, n, if IsLate(s.pending[n], s.now, c.responseTimer) then Late else Answered);
    }
  }

  lemma DispatchGrows(c: Config, s: State, pdu: Pdu, decodes: bool)
    requires Books(c, s)
    ensures Grows(s.calls, DispatchPdu(c, s, pdu, decodes).calls)
  {
    hide Books, Match, Route;
    match Route(c.side, s.bind, pdu.id)
    case Correlate(bad, closes) => MatchGrows(c, s, pdu, decodes, Some(bad), closes);
    case CorrelateNack => MatchGrows(c, s, pdu, decodes, None, false);
    case _ =>
  }

  lemma {:induction false} SweepGrows(c: Config, s: State, order: seq<u32>)
    requires Core(c, s) && AllLate(c, s, order)
    ensures Grows(s.calls, SweepAll(s, order).calls)
    decreases |order|
  {
    hide Books, Grows, LedgerAgrees, CallersAgree, Resolve;
    if order == [] {
      GrowsItself(s.calls);
    } else {
      var s1 := Resolve(s, order[0], Swept);
      ResolveKeepsCore(c, s, order[0], Swept);
      ResolveShape(c, s, order[0], Swept);
      ResolveGrows(c, s, order[0], Swept);
      SweepGrows(c, s1, order[1..]);
      GrowsAgain(s.calls, s1.calls, SweepAll(s1, order[1..]).calls);
    }
  }

  lemma GrowsItself(calls: seq<Call>)
    ensures Grows(calls, calls)
  {}

  /** A request that has not ended may move. */
  lemma PlaceGrows(s: State, k: nat, place: Place)
    requires k < |s.calls| ==> !s.calls[k].place.Finished?
    ensures Grows(s.calls, SetPlace(s, k, place).calls)
  {}

  lemma InsertGrows(c: Config, s: State)
    requires Books(c, s) && CanWrite(s, Insert)
    ensures Grows(s.calls, DoWrite(c, s, Insert).calls)
  {
    hide Number, QueueAgrees, WireAgrees, RivalsShareNumber, InsertedAgrees, SetPlace, Grows;
    var k := s.writer.frame.call;
    var n := Number(c, k);
    PlaceGrows(s, k, Registered);
    if n in s.pending {
      var j := s.pending[n].call;
      assert s.calls[j].place.Registered? && s.calls[k].place.Held?;
      var s1 := SetPlace(s, j, Finished(Overwritten(k)));
      PlaceGrows(s, j, Finished(Overwritten(k)));
      assert s1.calls[k].place.Held? by { PlaceIsLocal(s, j, k, Finished(Overwritten(k))); }
      PlaceGrows(s1, k, Registered);
      GrowsAgain(s.calls, s1.calls, SetPlace(s1, k, Registered).calls);
    }
  }

  lemma PlaceIsLocal(s: State, j: nat, k: nat, place: Place)
    requires j < |s.calls| && k < |s.calls| && j != k
    ensures var s' := SetPlace(s, j, place); |s'.calls| == |s.calls| && s'.calls[k] == s.calls[k]
  {}

  lemma WriteGrows(c: Config, s: State, w: WriteStep)
    requires Books(c, s) && CanWrite(s, w)
    ensures Grows(s.calls, DoWrite(c, s, w).calls)
  {
    hide Number, TableAgrees, QueueAgrees, WireAgrees, RivalsShareNumber, SetPlace, Grows;
    GrowsItself(s.calls);
    match w
    case Dequeue =>
      QueuePop(s.calls, s.fifo);
      if s.fifo[0].Ask? {
        PlaceGrows(s.(fifo := s.fifo[1..], writer := Holding(s.fifo[0])), s.fifo[0].call, Held);
      }
    case Insert => InsertGrows(c, s);
    case Write(_) =>
    case Remove => RemoveGrows(c, s);
    case Halt =>
      if s.writer.Holding? && s.writer.frame.Ask? {
        PlaceGrows(s, s.writer.frame.call, Finished(Discarded));
      }
  }

  lemma RemoveGrows(c: Config, s: State)
    requires Books(c, s) && CanWrite(s, Remove)
    ensures Grows(s.calls, DoWrite(c, s, Remove).calls)
  {
    hide Number, QueueAgrees, WireAgrees, RivalsShareNumber, HeldAgrees, SetPlace, Grows;
    GrowsItself(s.calls);
    if Number(c, s.writer.call) in s.pending {
      PlaceGrows(s, s.writer.call, Finished(WriteFailed));
    }
  }

  lemma CallGrowsCalls(s: State, k: nat, act: CallAct)
    requires CanCall(s, k, act)
    ensures Grows(s.calls, DoCall(s, k, act).calls)
  {
    hide RespId, HasRoom;
  }

  lemma TickGrows(c: Config, s: State, t: TickStep)
    requires Books(c, s) && CanTick(c, s, t)
    ensures Grows(s.calls, DoTick(c, s, t).calls)
  {
    hide QueueAgrees, TableAgrees, HeldAgrees, WireAgrees, RivalsShareNumber, InsertedAgrees, HasRoom, Number,
      SetPlace, Allocate, Grows;
    GrowsItself(s.calls);
    match t
    case Wake => AllocateGrows(s, ENQUIRE_LINK);
    case Send =>
      PlaceGrows(s, s.ticker.call, Queued);
      PlaceGrows(s, s.ticker.call, Finished(Discarded));
    case _ =>
  }

  lemma ReadGrows(c: Config, s: State, r: ReadStep)
    requires Core(c, s) && CanRead(c, s, r)
    ensures Grows(s.calls, DoRead(c, s, r).calls)
  {
    hide LedgerAgrees, CallersAgree, Books, DispatchPdu, SweepAll, HasRoom, Grows;
    GrowsItself(s.calls);
    match r
    case Receive(pdu, decodes) => DispatchGrows(c, s, pdu, decodes);
    case Settle => SettleGrows(c, s, s.reader.number);
    case EndPass(order) =>
      EndPassIsLate(c, s, order);
      CoreIgnoresLastRead(c, s);
      SweepGrows(c, s.(lastRead := s.now), order);
    case _ =>
  }

  lemma AllocateGrows(s: State, id: u32)
    ensures Grows(s.calls, Allocate(s, id).calls)
  {}

  lemma StepGrows(c: Config, s: State, step: Step)
    requires Core(c, s) && Enabled(c, s, step)
    ensures Grows(s.calls, Apply(c, s, step).calls)
  {
    hide LedgerAgrees, CallersAgree, Books, DoWrite, DoTick, DoRead, DoCall, Allocate, CanWrite, CanTick, CanRead,
      CanCall, CanAsk,
      HasRoom, Established, Grows;
    GrowsItself(s.calls);
    match step
    case Writing(w) => WriteGrows(c, s, w);
    case Reading(r) => ReadGrows(c, s, r);
    case Ticking(t) => TickGrows(c, s, t);
    case Calling(k, act) => CallGrowsCalls(s, k, act);
    case Asking(id) => AllocateGrows(s, id);
    case _ =>
  }

  /**
   * Over any continuation of a run: a request keeps its command, an ended request
   * stays ended in the same way, and a caller that returned is not called again.
   */
  lemma {:induction false} RunGrows(c: Config, s: State, steps: seq<Step>)
    requires Inv(c, s) && CanRun(c, s, steps)
    ensures Grows(s.calls, Run(c, s, steps).calls)
    decreases |steps|
  {
    hide Core, RepliesAt, TickerFits, Staged, Apply, Grows;
    if steps == [] {
      GrowsItself(s.calls);
    } else {
      var s1 := Apply(c, s, steps[0]);
      StepKeepsInv(c, s, steps[0]);
      StepGrows(c, s, steps[0]);
      RunGrows(c, s1, steps[1..]);
      GrowsAgain(s.calls, s1.calls, Run(c, s1, steps[1..]).calls);
    }
  }

  // ---- the ticker's requests -----------------------------------------------

  /** Every number the ticker asked with was allocated for an enquire_link. */
  ghost predicate AskedByTicker(c: Config, s: State) {
    forall n | n in s.asked ::
      exists k | 0 <= k < |s.calls| :: s.calls[k].id == ENQUIRE_LINK && Number(c, k) == n
  }

  /** The numbers asked with only change when the ticker sends. */
  lemma AskedShape(c: Config, s: State, step: Step)
    requires Core(c, s) && Staged(c, s) && Enabled(c, s, step)
    ensures Apply(c, s, step).asked ==
            if step == Ticking(Send) && !s.writer.Stopped? then s.asked + [Number(c, s.ticker.call)] else s.asked
  {
    hide Core, Staged, HasRoom, MaySend, Number, DoWrite, DoRead, DoCall, DoTick, Open, CanWrite, CanRead, CanCall,
      CanTick, CanOpen;
    match step
    case Opening(o) => OpenShape(c, s, o);
    case Writing(w) => WriteShape(c, s, w);
    case Calling(k, act) => CallShape(s, k, act);
    case Ticking(t) => TickShape(c, s, t);
    case Reading(r) => ReadAsksNothing(c, s, r);
    case _ =>
  }

  lemma ReadAsksNothing(c: Config, s: State, r: ReadStep)
    requires Core(c, s) && Staged(c, s) && CanRead(c, s, r)
    ensures DoRead(c, s, r).asked == s.asked
  {
    hide Core, Staged, DispatchPdu, SweepAll, SettleBeat, SetPlace, HasRoom, Owes;
    match r
    case Receive(pdu, decodes) => DispatchIsSound(c, s, pdu, decodes);
    case Settle => SettleShape(c, s, s.reader.number);
    case EndPass(order) =>
      EndPassIsLate(c, s, order);
      CoreIgnoresLastRead(c, s);
      SweepKeeps(c, s.(lastRead := s.now), order);
    case _ => SetPlaceShape();
  }

  lemma StepKeepsAsked(c: Config, s: State, step: Step)
    requires Inv(c, s) && AskedByTicker(c, s) && Enabled(c, s, step)
    ensures AskedByTicker(c, Apply(c, s, step))
  {
    hide QueueAgrees, TableAgrees, HeldAgrees, WireAgrees, RivalsShareNumber, InsertedAgrees, LedgerAgrees,
      CallersAgree,
      RepliesAt, TickerFits, Staged, Apply, Number;
    var s' := Apply(c, s, step);
    AskedShape(c, s, step);
    StepGrows(c, s, step);
    forall n | n in s'.asked
      ensures exists k | 0 <= k < |s'.calls| :: s'.calls[k].id == ENQUIRE_LINK && Number(c, k) == n
    {
      if n in s.asked {
        var k :| 0 <= k < |s.calls| && s.calls[k].id == ENQUIRE_LINK && Number(c, k) == n;
        assert CallGrows(s.calls[k], s'.calls[k]);
      } else {
        var k := s.ticker.call;
        assert CallGrows(s.calls[k], s'.calls[k]);
        assert n == Number(c, k);
      }
    }
  }

  lemma {:induction false} RunKeepsAsked(c: Config, s: State, steps: seq<Step>)
    requires Inv(c, s) && AskedByTicker(c, s) && CanRun(c, s, steps)
    ensures AskedByTicker(c, Run(c, s, steps))
    decreases |steps|
  {
    hide Inv, AskedByTicker, Apply;
    if steps != [] {
      StepKeepsInv(c, s, steps[0]);
      StepKeepsAsked(c, s, steps[0]);
      RunKeepsAsked(c, Apply(c, s, steps[0]), steps[1..]);
    }
  }
}

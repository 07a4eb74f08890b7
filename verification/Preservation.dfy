// Every step of the session keeps the whole invariant, and so does every run.

module Preservation {
  import opened Bytes
  import opened Headers
  import opened Dispatch
  import opened Pending
  import opened Session
  import opened Bookkeeping
  import opened Ledger

  /** The part about our own requests. */
  ghost predicate Core(c: Config, s: State) {
    Books(c, s) && LedgerAgrees(c, s.calls, s.trail) && CallersAgree(c, s.calls)
  }

  predicate RepliesAt(s: State, p: Pdu) {
    ReplyAgrees(s.trail, s.handlers, s.reader, s.fifo, s.writer, s.written, s.lost, p)
  }

  ghost predicate Replies(s: State) { forall p: Pdu :: RepliesAt(s, p) }

  predicate TickerFits(c: Config, s: State) {
    TickerAgrees(c, s.ticker, s.asked, s.heard, s.channel, s.forwarded)
  }

  predicate Staged(c: Config, s: State) { StageFits(s.bind, s.reader, StageOf(c.side, s.trail)) }

  ghost predicate Inv(c: Config, s: State) { Core(c, s) && Replies(s) && TickerFits(c, s) && Staged(c, s) }

  // ---- our own requests ----------------------------------------------------

  lemma NoteKeepsCore(c: Config, s: State, e: Event)
    requires Core(c, s) && !e.Resolved?
    ensures Core(c, Log(s, e))
  {
    hide LedgerAgrees, CallersAgree, QueueAgrees, TableAgrees, HeldAgrees, WireAgrees, RivalsShareNumber,
      InsertedAgrees;
    LedgerNotes(c, s.calls, s.trail, e);
  }

  lemma ResolveKeepsCore(c: Config, s: State, n: u32, o: Outcome)
    requires Core(c, s) && n in s.pending
    requires ByReader(o) && TimerRespected(c, o, n, s.now - s.pending[n].since) && HasArrived(s.trail, o)
    ensures Core(c, Resolve(s, n, o))
  {
    hide LedgerAgrees, CallersAgree, QueueAgrees, HeldAgrees, WireAgrees, RivalsShareNumber, InsertedAgrees, Number;
    var k := s.pending[n].call;
    assert k < |s.calls| && Number(c, k) == n && s.calls[k].place.Registered?;
    hide TableAgrees;
    ResolveKeepsBooks(c, s, n, o);
    LedgerResolves(c, s.calls, Resolve(s, n, o).calls, s.trail, k, o, s.now - s.pending[n].since);
    CallersMove(c, s.calls, Resolve(s, n, o).calls, k, Finished(o));
  }

  lemma MatchKeepsCore(c: Config, s: State, pdu: Pdu, decodes: bool, bad: Option<u32>, closes: bool)
    requires Core(c, s)
    ensures Core(c, Match(c, s, pdu, decodes, bad, closes))
  {
    hide Books, LedgerAgrees, CallersAgree, IsAwaited;
    var n := pdu.number;
    NoteKeepsCore(c, s, Received(pdu, false, None));
    var s1 := Log(s, Received(pdu, false, None));
    if n !in s.pending {
      NoteKeepsCore(c, s1, Unmatched(n));
    } else if IsLate(s.pending[n], s.now, c.responseTimer) {
      ResolveKeepsCore(c, s1, n, Late);
    } else if decodes {
      ResolveKeepsCore(c, s1, n, if IsAwaited(s, s.pending[n].call) then Delivered(pdu) else Answered);
      CoreIgnoresReader(c, Resolve(s1, n, if IsAwaited(s, s.pending[n].call) then Delivered(pdu) else Answered));
    } else {
      match bad
      case None => ResolveKeepsCore(c, s1, n, Undecodable);
      case Some(id) =>
        NoteKeepsCore(c, s, Received(pdu, false, Some(Pdu(id, n))));
        var s2 := Log(s, Received(pdu, false, Some(Pdu(id, n))));
        ResolveKeepsCore(c, s2, n, Undecodable);
        CoreIgnoresReader(c, Resolve(s2, n, Undecodable));
    }
  }

  lemma CoreIgnoresReader(c: Config, s: State)
    requires Core(c, s)
    ensures forall r: Reader :: Core(c, s.(reader := r))
    ensures forall r: Reader :: Core(c, s.(reader := r, aborted := true))
    ensures Core(c, s.(ticker := Ticker.Dead))
  {
    hide LedgerAgrees, CallersAgree, QueueAgrees, TableAgrees, HeldAgrees, WireAgrees, RivalsShareNumber,
      InsertedAgrees;
  }

  lemma BeatKeepsCore(c: Config, s: State, pdu: Pdu)
    requires Core(c, s)
    ensures Core(c, Beat(s, pdu))
  {
    hide LedgerAgrees, CallersAgree, QueueAgrees, TableAgrees, HeldAgrees, WireAgrees, RivalsShareNumber,
      InsertedAgrees;
    var n := pdu.number;
    var s1 := if s.ticker.Dead? then s else s.(channel := s.channel + [n], forwarded := s.forwarded + [n]);
    assert Core(c, s1);
    NoteKeepsCore(c, s1, Received(pdu, false, None));
    CoreIgnoresReader(c, Log(s1, Received(pdu, false, None)));
  }

  lemma SettleKeepsCore(c: Config, s: State, n: u32)
    requires Core(c, s)
    ensures Core(c, SettleBeat(c, s, n))
  {
    hide Core, IsLate, Resolve;
    if n !in s.pending {
      NoteKeepsCore(c, s, Unmatched(n));
      CoreIgnoresReader(c, Log(s, Unmatched(n)));
    } else {
      var outcome := if IsLate(s.pending[n], s.now, c.responseTimer) then Late else Answered;
      AgeDecides(c, s.pending[n], s.now, n);
      ResolveKeepsCore(c, s, n, outcome);
      CoreIgnoresReader(c, Resolve(s, n, outcome));
    }
  }

  lemma AgeDecides(c: Config, e: Entry, now: nat, n: u32)
    ensures TimerRespected(c, if IsLate(e, now, c.responseTimer) then Late else Answered, n, now - e.since)
  {}

  lemma DispatchKeepsCore(c: Config, s: State, pdu: Pdu, decodes: bool)
    requires Core(c, s)
    ensures Core(c, DispatchPdu(c, s, pdu, decodes))
  {
    hide LedgerAgrees, CallersAgree, QueueAgrees, TableAgrees, HeldAgrees, WireAgrees, RivalsShareNumber,
      InsertedAgrees, Route;
    var n := pdu.number;
    match Route(c.side, s.bind, pdu.id)
    case Handle(ok, bad) =>
      NoteKeepsCore(c, s, Received(pdu, decodes, Some(Pdu(if decodes then ok else bad, n))));
    case Echo(ok, bad) =>
      NoteKeepsCore(c, s, Received(pdu, false, Some(Pdu(if decodes then ok else bad, n))));
    case Inform(bad) =>
      NoteKeepsCore(c, s, Received(pdu, decodes, if decodes then None else Some(Pdu(bad, n))));
    case Heartbeat => BeatKeepsCore(c, s, pdu);
    case Leave(ok, bad) =>
      NoteKeepsCore(c, s, Received(pdu, decodes, Some(Pdu(if decodes then ok else bad, n))));
    case Correlate(bad, closes) => MatchKeepsCore(c, s, pdu, decodes, Some(bad), closes);
    case CorrelateNack => MatchKeepsCore(c, s, pdu, decodes, None, false);
    case Refuse =>
      NoteKeepsCore(c, s, Received(pdu, false, Some(Pdu(GENERIC_NACK, n))));
  }

  ghost predicate AllLate(c: Config, s: State, order: seq<u32>) {
    && (forall n | n in order :: n in s.pending && IsLate(s.pending[n], s.now, c.responseTimer))
    && (forall i, j | 0 <= i < j < |order| :: order[i] != order[j])
  }

  lemma ResolveShape(c: Config, s: State, n: u32, o: Outcome)
    requires n in s.pending
    ensures var s' := Resolve(s, n, o);
            && Owed(s'.trail) == Owed(s.trail)
            && (StageOf(c.side, s.trail).Serving? ==> StageOf(c.side, s'.trail) == StageOf(c.side, s.trail))
            && s' == s.(calls := s'.calls, pending := s.pending - {n}, trail := s'.trail)
  {
    hide Route;
  }

  function OwedBy(e: Event): multiset<Pdu> {
    if e.Received? && e.owed.Some? then multiset{e.owed.value} else multiset{}
  }

  lemma LogShape(c: Config, s: State, e: Event)
    ensures Owed(Log(s, e).trail) == Owed(s.trail) + OwedBy(e)
    ensures StageOf(c.side, Log(s, e).trail) == StageAfter(c.side, StageOf(c.side, s.trail), e)
    ensures Log(s, e) == s.(trail := Log(s, e).trail)
  {
    hide StageAfter;
  }

  // ---- what each task's steps leave alone ----------------------------------

  lemma SetPlaceShape()
    ensures forall s: State, k: nat, p: Place {:trigger SetPlace(s, k, p)} ::
              SetPlace(s, k, p) == s.(calls := SetPlace(s, k, p).calls)
  {}

  lemma LoseShape(s: State, f: Frame)
    ensures Lose(s, f) == s.(calls := Lose(s, f).calls, lost := Lose(s, f).lost)
    ensures Lose(s, f).lost == if f.Reply? then s.lost + multiset{f.pdu} else s.lost
  {
    hide SetPlace;
    SetPlaceShape();
  }

  lemma InsertShape(c: Config, s: State, k: nat)
    ensures var s' := Register(c, s, k); s' == s.(calls := s'.calls, pending := s'.pending, writer := Inserted(k))
  {
    hide SetPlace, Number;
    SetPlaceShape();
  }

  lemma WriteShape(c: Config, s: State, w: WriteStep)
    requires CanWrite(s, w)
    ensures var s' := DoWrite(c, s, w);
            s' == s.(calls := s'.calls, fifo := s'.fifo, writer := s'.writer, pending := s'.pending,
                     written := s'.written, lost := s'.lost)
  {
    hide SetPlace, Lose, Register, Number;
    match w
    case Insert => InsertShape(c, s, s.writer.frame.call);
    case Write(_) =>
      if s.writer.Holding? {
        LoseShape(s, s.writer.frame);
      }
    case Halt =>
      if s.writer.Holding? {
        LoseShape(s, s.writer.frame);
      }
    case _ => SetPlaceShape();
  }

  lemma CallShape(s: State, k: nat, act: CallAct)
    requires CanCall(s, k, act)
    ensures var s' := DoCall(s, k, act);
            s' == s.(calls := s'.calls, fifo := s'.fifo) && (s'.fifo == s.fifo || s'.fifo == s.fifo + [Ask(k)])
  {
    hide SetPlace, RespId, HasRoom;
    SetPlaceShape();
  }

  lemma TickShape(c: Config, s: State, t: TickStep)
    requires CanTick(c, s, t)
    ensures var s' := DoTick(c, s, t);
            && s' == s.(calls := s'.calls, fifo := s'.fifo, ticker := s'.ticker, channel := s'.channel,
                        asked := s'.asked, heard := s'.heard)
            && (s'.fifo == s.fifo || (s.ticker.Numbered? && s'.fifo == s.fifo + [Ask(s.ticker.call)]))
            && s'.asked == if t.Send? && !s.writer.Stopped? then s.asked + [Number(c, s.ticker.call)] else s.asked
  {
    hide SetPlace, Number, HasRoom;
    SetPlaceShape();
  }

  lemma OpenShape(c: Config, s: State, o: OpenStep)
    requires CanOpen(c, s, o)
    ensures var s' := Open(s, o);
            && s' == s.(bind := s'.bind, reader := s'.reader, lastRead := s'.lastRead, trail := s'.trail)
            && Owed(s'.trail) == Owed(s.trail) && !s'.reader.Pushing? && !s.reader.Pushing?
  {
    hide Owed, StageOf, Log, Established;
    LogShape(c, s, BindAnswered(true));
    LogShape(c, s, BindAnswered(false));
    LogShape(c, s, Bound(s.bind));
  }

  // ---- the sweep -----------------------------------------------------------

  /** The sweep is a row of resolutions; besides the calls it touches the table and the trail only. */
  lemma {:induction false} SweepKeeps(c: Config, s: State, order: seq<u32>)
    requires Core(c, s) && AllLate(c, s, order)
    ensures var s' := SweepAll(s, order);
            && Core(c, s') && Owed(s'.trail) == Owed(s.trail)
            && (StageOf(c.side, s.trail).Serving? ==> StageOf(c.side, s'.trail) == StageOf(c.side, s.trail))
            && s' == s.(calls := s'.calls, pending := s'.pending, trail := s'.trail)
            && s'.pending == s.pending - (set n | n in order)
    decreases |order|
  {
    hide Core, StageOf, Owed;
    if order == [] {
      assert s.pending - (set n | n in order) == s.pending;
    } else {
      var n := order[0];
      ResolveKeepsCore(c, s, n, Swept);
      ResolveShape(c, s, n, Swept);
      hide Resolve;
      var s1 := Resolve(s, n, Swept);
      assert AllLate(c, s1, order[1..]);
      SweepKeeps(c, s1, order[1..]);
      assert (set m | m in order) == {n} + (set m | m in order[1..]);
      assert s1.pending - (set m | m in order[1..]) == s.pending - (set m | m in order);
    }
  }

  lemma EndPassIsLate(c: Config, s: State, order: seq<u32>)
    requires Enumerates(order, Expired(s.pending, s.now, c.responseTimer))
    ensures AllLate(c, s.(lastRead := s.now), order)
    ensures (set n | n in order) == Expired(s.pending, s.now, c.responseTimer)
  {}

  lemma ReadKeepsCore(c: Config, s: State, r: ReadStep)
    requires Core(c, s) && CanRead(c, s, r)
    ensures Core(c, DoRead(c, s, r))
  {
    hide LedgerAgrees, CallersAgree, QueueAgrees, TableAgrees, HeldAgrees, WireAgrees, RivalsShareNumber,
      InsertedAgrees, DispatchPdu;
    match r
    case Receive(pdu, decodes) => DispatchKeepsCore(c, s, pdu, decodes);
    case PushReply => ReplyKeepsBooks(c, s, s.reader.reply);
    case Settle =>
      SettleKeepsCore(c, s, s.reader.number);
    case EndPass(order) =>
      EndPassIsLate(c, s, order);
      SweepKeeps(c, s.(lastRead := s.now), order);
    case Close => NoteKeepsCore(c, s, Unbinding);
    case _ =>
  }

  lemma WriteKeepsCore(c: Config, s: State, w: WriteStep)
    requires Core(c, s) && CanWrite(s, w)
    ensures Core(c, DoWrite(c, s, w))
  {
    match w
    case Dequeue =>
      DequeueKeepsBooks(c, s);
      QueuePop(s.calls, s.fifo);
      hide LedgerAgrees, CallersAgree, QueueAgrees, TableAgrees, HeldAgrees, WireAgrees, RivalsShareNumber,
        InsertedAgrees;
      if s.fifo[0].Ask? {
        PlaceKeepsLedger(c, s, s.fifo[0].call, Held);
      }
    case Insert => InsertKeepsCore(c, s);
    case Write(ok) =>
      WriteKeepsBooks(c, s, ok);
    case Remove => RemoveKeepsCore(c, s);
    case Halt =>
      StopKeepsBooks(c, s);
      hide LedgerAgrees, CallersAgree, QueueAgrees, TableAgrees, WireAgrees, RivalsShareNumber, InsertedAgrees;
      if s.writer.Holding? && s.writer.frame.Ask? {
        assert s.calls[s.writer.frame.call].place.Held?;
        PlaceKeepsLedger(c, s, s.writer.frame.call, Finished(Discarded));
      }
  }

  /** A move the writer or a caller makes leaves the ledger and the callers alone. */
  lemma PlaceKeepsLedger(c: Config, s: State, k: nat, place: Place)
    requires LedgerAgrees(c, s.calls, s.trail) && CallersAgree(c, s.calls)
    requires k < |s.calls| && !s.calls[k].place.Finished? && (place.Finished? ==> !ByReader(place.outcome))
    ensures var s' := SetPlace(s, k, place); LedgerAgrees(c, s'.calls, s.trail) && CallersAgree(c, s'.calls)
  {
    hide LedgerAgrees, CallersAgree;
    LedgerMoves(c, s.calls, SetPlace(s, k, place).calls, s.trail, k, place);
    CallersMove(c, s.calls, SetPlace(s, k, place).calls, k, place);
  }

  lemma InsertKeepsCore(c: Config, s: State)
    requires Core(c, s) && CanWrite(s, Insert)
    ensures Core(c, DoWrite(c, s, Insert))
  {
    InsertKeepsBooks(c, s);
    var k := s.writer.frame.call;
    var n := Number(c, k);
    hide Number, LedgerAgrees, CallersAgree, QueueAgrees, WireAgrees, RivalsShareNumber, InsertedAgrees;
    assert k < |s.calls| && s.calls[k].place.Held?;
    if n in s.pending {
      var j := s.pending[n].call;
      assert s.calls[j].place.Registered?;
      PlaceKeepsLedger(c, s, j, Finished(Overwritten(k)));
      PlaceKeepsLedger(c, SetPlace(s, j, Finished(Overwritten(k))), k, Registered);
    } else {
      PlaceKeepsLedger(c, s, k, Registered);
    }
  }

  lemma RemoveKeepsCore(c: Config, s: State)
    requires Core(c, s) && CanWrite(s, Remove)
    ensures Core(c, DoWrite(c, s, Remove))
  {
    RemoveKeepsBooks(c, s);
    var n := Number(c, s.writer.call);
    hide Number, LedgerAgrees, CallersAgree, QueueAgrees, HeldAgrees, WireAgrees, RivalsShareNumber;
    if n in s.pending {
      assert s.calls[s.writer.call].place.Registered?;
      PlaceKeepsLedger(c, s, s.writer.call, Finished(WriteFailed));
    }
  }

  lemma PushKeepsCore(c: Config, s: State, k: nat)
    requires Core(c, s) && k < |s.calls| && s.calls[k].place.InHand? && s.ticker != Numbered(k)
    ensures Core(c, Enqueue(SetPlace(s, k, Queued), Ask(k)))
    ensures Core(c, SetPlace(s, k, Finished(Discarded)))
  {
    hide Books, LedgerAgrees, CallersAgree;
    PushKeepsBooks(c, s, k);
    DiscardKeepsBooks(c, s, k);
    PlaceKeepsLedger(c, s, k, Queued);
    PlaceKeepsLedger(c, s, k, Finished(Discarded));
  }

  lemma CallerKeepsCore(c: Config, s: State, k: nat, caller: Caller)
    requires Core(c, s) && k < |s.calls| && s.calls[k].caller.Waiting?
    requires caller.Got? ==>
               s.calls[k].place == Finished(Delivered(caller.pdu)) && caller.pdu.id == RespId(s.calls[k].id)
    ensures Core(c, SetCaller(s, k, caller))
  {
    hide Books, LedgerAgrees, Number, RespId;
    CallerKeepsBooks(c, s, k, caller);
    LedgerGrows(c, s.calls, SetCaller(s, k, caller).calls, s.trail);
  }

  lemma CallKeepsCore(c: Config, s: State, k: nat, act: CallAct)
    requires Core(c, s) && CanCall(s, k, act)
    ensures Core(c, DoCall(s, k, act))
  {
    hide LedgerAgrees, CallersAgree, QueueAgrees, TableAgrees, HeldAgrees, WireAgrees, RivalsShareNumber,
      InsertedAgrees;
    match act
    case Push =>
      assert s.ticker != Numbered(k);
      hide Books;
      PushKeepsCore(c, s, k);
    case Return =>
      var pdu := s.calls[k].place.outcome.pdu;
      hide Books;
      CallerKeepsCore(c, s, k, if pdu.id == RespId(s.calls[k].id) then Got(pdu) else Caller.GaveUp);
    case GiveUp =>
      hide Books;
      CallerKeepsCore(c, s, k, Caller.GaveUp);
  }

  lemma AllocateKeepsCore(c: Config, s: State, id: u32)
    requires Core(c, s)
    ensures Core(c, Allocate(s, id))
  {
    hide Books, LedgerAgrees, Number, RespId;
    AllocateKeepsBooks(c, s, id);
    LedgerGrows(c, s.calls, Allocate(s, id).calls, s.trail);
  }

  lemma TickKeepsCore(c: Config, s: State, t: TickStep)
    requires Core(c, s) && CanTick(c, s, t)
    ensures Core(c, DoTick(c, s, t))
  {
    hide LedgerAgrees, CallersAgree, QueueAgrees, TableAgrees, HeldAgrees, WireAgrees, RivalsShareNumber,
      InsertedAgrees, Number;
    match t
    case Wake => AllocateKeepsCore(c, s, ENQUIRE_LINK);
    case Send =>
      var s1 := s.(ticker := Ticker.Dead);
      PushKeepsCore(c, s1, s.ticker.call);
    case Hear =>
    case Expire =>
    case Die =>
  }

  lemma StepKeepsCore(c: Config, s: State, step: Step)
    requires Core(c, s) && Enabled(c, s, step)
    ensures Core(c, Apply(c, s, step))
  {
    match step
    case Elapse(_) =>
      hide LedgerAgrees, CallersAgree, QueueAgrees, TableAgrees, HeldAgrees, WireAgrees, RivalsShareNumber,
        InsertedAgrees;
    case Stopping => hide LedgerAgrees, CallersAgree, QueueAgrees, TableAgrees, HeldAgrees, WireAgrees,
    RivalsShareNumber, InsertedAgrees;
    case Opening(o) => OpenKeepsCore(c, s, o);
    case Asking(id) => AllocateKeepsCore(c, s, id);
    case Calling(k, act) => CallKeepsCore(c, s, k, act);
    case Writing(w) => WriteKeepsCore(c, s, w);
    case Ticking(t) => TickKeepsCore(c, s, t);
    case Reading(r) => ReadKeepsCore(c, s, r);
    case Handling(reply) =>
      hide LedgerAgrees, CallersAgree, QueueAgrees, TableAgrees, HeldAgrees, WireAgrees, RivalsShareNumber,
        InsertedAgrees;
      ReplyKeepsBooks(c, s, reply);
  }

  lemma OpenKeepsCore(c: Config, s: State, o: OpenStep)
    requires Core(c, s)
    ensures Core(c, Open(s, o))
  {
    hide LedgerAgrees, CallersAgree, QueueAgrees, TableAgrees, HeldAgrees, WireAgrees, RivalsShareNumber,
      InsertedAgrees, Established;
    NoteKeepsCore(c, s, Bound(s.bind));
    NoteKeepsCore(c, s, BindAnswered(true));
    NoteKeepsCore(c, s, BindAnswered(false));
  }

  // ---- replies -------------------------------------------------------------

  /** From s to s' exactly the replies s' adds to a handler or to the reader became owed. */
  ghost predicate Owes(s: State, s': State) {
    && Owed(s'.trail) + s.handlers == Owed(s.trail) + s'.handlers + Upcoming(s'.reader)
    && s'.fifo == s.fifo && s'.writer == s.writer && s'.written == s.written && s'.lost == s.lost
  }

  /** What dispatch must do to replies and lifecycle, from the draining loop. */
  ghost predicate Sound(c: Config, s: State, s': State) {
    && Owes(s, s') && Staged(c, s') && s'.bind == s.bind && s'.alive == s.alive
    && s'.asked == s.asked && s'.heard == s.heard
    && s'.ticker == s.ticker
    && exists more: seq<u32> :: s'.channel == s.channel + more && s'.forwarded == s.forwarded + more
  }

  lemma NothingForwarded(s: State, s': State)
    requires s'.channel == s.channel && s'.forwarded == s.forwarded
    ensures exists more: seq<u32> :: s'.channel == s.channel + more && s'.forwarded == s.forwarded + more
  {
    assert s'.channel == s.channel + [] && s'.forwarded == s.forwarded + [];
  }

  /** The reader noted a PDU and owes nothing for it, up to what it forwarded. */
  lemma NoteIsSound(c: Config, s: State, s1: State, pdu: Pdu)
    requires Staged(c, s) && s.reader.InPass? && pdu.id != UNBIND
    requires Permits(c.side, s.bind, pdu, false, None)
    requires s1 == s || (exists n :: s1 == s.(channel := s.channel + [n], forwarded := s.forwarded + [n]))
    ensures Sound(c, s, Log(s1, Received(pdu, false, None)))
  {
    hide Owed, StageOf, Log, Route, Permits;
    LogShape(c, s1, Received(pdu, false, None));
    if s1 == s {
      NothingForwarded(s, Log(s1, Received(pdu, false, None)));
    }
  }

  /** Resolving an entry, or finding none, leaves that so. */
  lemma LookupIsSound(c: Config, s: State, s2: State, n: u32, o: Outcome)
    requires Sound(c, s, s2) && s2.reader.InPass?
    ensures n in s2.pending ==> Sound(c, s, Resolve(s2, n, o))
    ensures Sound(c, s, Log(s2, Unmatched(n)))
  {
    hide Owed, StageOf, Log, Route, Resolve;
    LogShape(c, s2, Unmatched(n));
    if n in s2.pending {
      ResolveShape(c, s2, n, o);
    }
  }

  /** So does leaving the loop. */
  lemma LeavingIsSound(c: Config, s: State, s2: State)
    requires Sound(c, s, s2) && s2.reader.InPass?
    ensures Sound(c, s, s2.(reader := Leaving)) && Sound(c, s, s2.(reader := InPass))
    ensures forall n :: Sound(c, s, s2.(reader := Settling(n)))
  {
    hide Owed, StageOf;
  }

  /** An undecodable response is resolved, and the reader answers it. */
  lemma ComplaintIsSound(c: Config, s: State, pdu: Pdu, id: u32)
    requires Staged(c, s) && s.reader.InPass? && pdu.id != UNBIND && pdu.number in s.pending
    requires Permits(c.side, s.bind, pdu, false, Some(Pdu(id, pdu.number)))
    ensures var reply := Pdu(id, pdu.number);
            var s1 := Log(s, Received(pdu, false, Some(reply)));
            Sound(c, s, SendBack(Resolve(s1, pdu.number, Undecodable), reply, false))
  {
    hide Owed, StageOf, Log, Route, Permits, Resolve;
    var reply := Pdu(id, pdu.number);
    var s1 := Log(s, Received(pdu, false, Some(reply)));
    LogShape(c, s, Received(pdu, false, Some(reply)));
    ResolveShape(c, s1, pdu.number, Undecodable);
    NothingForwarded(s, SendBack(Resolve(s1, pdu.number, Undecodable), reply, false));
  }

  lemma MatchIsSound(c: Config, s: State, pdu: Pdu, decodes: bool, bad: Option<u32>, closes: bool)
    requires Staged(c, s) && s.reader.InPass? && pdu.id != UNBIND
    requires Permits(c.side, s.bind, pdu, false, None)
    requires bad.Some? ==> Permits(c.side, s.bind, pdu, false, Some(Pdu(bad.value, pdu.number)))
    ensures Sound(c, s, Match(c, s, pdu, decodes, bad, closes))
  {
    hide IsAwaited, IsLate, Resolve, Sound, Staged, Permits, SendBack;
    var n := pdu.number;
    var s1 := Log(s, Received(pdu, false, None));
    NoteIsSound(c, s, s, pdu);
    if n !in s.pending || IsLate(s.pending[n], s.now, c.responseTimer) {
      LookupIsSound(c, s, s1, n, Late);
    } else if decodes {
      var outcome := if IsAwaited(s, s.pending[n].call) then Delivered(pdu) else Answered;
      LookupIsSound(c, s, s1, n, outcome);
      ResolveKeepsReader(s1, n, outcome);
      LeavingIsSound(c, s, Resolve(s1, n, outcome));
    } else if bad.None? {
      LookupIsSound(c, s, s1, n, Undecodable);
    } else {
      ComplaintIsSound(c, s, pdu, bad.value);
    }
  }

  lemma ResolveKeepsReader(s: State, n: u32, o: Outcome)
    requires n in s.pending
    ensures Resolve(s, n, o).reader == s.reader
  {}

  lemma BeatIsSound(c: Config, s: State, pdu: Pdu)
    requires Staged(c, s) && s.reader.InPass? && pdu.id != UNBIND
    requires Permits(c.side, s.bind, pdu, false, None)
    ensures Sound(c, s, Beat(s, pdu))
  {
    hide Sound, Staged, Permits;
    var n := pdu.number;
    var s1 := if s.ticker.Dead? then s else s.(channel := s.channel + [n], forwarded := s.forwarded + [n]);
    NoteIsSound(c, s, s1, pdu);
    LeavingIsSound(c, s, Log(s1, Received(pdu, false, None)));
  }

  lemma LeavesOnUnbind(side: Side, bind: Bind, id: u32)
    ensures Route(side, bind, id).Leave? <==> id == UNBIND
  {}

  lemma DispatchIsSound(c: Config, s: State, pdu: Pdu, decodes: bool)
    requires Staged(c, s) && s.reader.InPass?
    ensures Sound(c, s, DispatchPdu(c, s, pdu, decodes))
  {
    hide Match, Staged, Sound, Route;
    LeavesOnUnbind(c.side, s.bind, pdu.id);
    match Route(c.side, s.bind, pdu.id)
    case Heartbeat => BeatIsSound(c, s, pdu);
    case Correlate(bad, closes) => MatchIsSound(c, s, pdu, decodes, Some(bad), closes);
    case CorrelateNack => MatchIsSound(c, s, pdu, decodes, None, false);
    case Handle(ok, bad) => ReplyIsSound(c, s, pdu, decodes, decodes, if decodes then ok else bad);
    case Echo(ok, bad) => ReplyIsSound(c, s, pdu, decodes, false, if decodes then ok else bad);
    case Inform(bad) => InformIsSound(c, s, pdu, decodes);
    case Leave(ok, bad) => ReplyIsSound(c, s, pdu, decodes, decodes, if decodes then ok else bad);
    case Refuse => ReplyIsSound(c, s, pdu, decodes, false, GENERIC_NACK);
  }

  lemma InformIsSound(c: Config, s: State, pdu: Pdu, decodes: bool)
    requires Staged(c, s) && s.reader.InPass? && Route(c.side, s.bind, pdu.id).Inform?
    ensures Sound(c, s, DispatchPdu(c, s, pdu, decodes))
  {
    hide Match, Owed, StageOf, Log, Route;
    LeavesOnUnbind(c.side, s.bind, pdu.id);
    var bad := Route(c.side, s.bind, pdu.id).bad;
    LogShape(c, s, Received(pdu, true, None));
    LogShape(c, s, Received(pdu, false, Some(Pdu(bad, pdu.number))));
    NothingForwarded(s, DispatchPdu(c, s, pdu, decodes));
  }

  lemma ReplyIsSound(c: Config, s: State, pdu: Pdu, decodes: bool, handled: bool, id: u32)
    requires Staged(c, s) && s.reader.InPass?
    requires handled ==> CallsListener(Route(c.side, s.bind, pdu.id))
    requires var arm := Route(c.side, s.bind, pdu.id);
             match arm
             case Handle(ok, bad) => handled == decodes && id == (if decodes then ok else bad)
             case Echo(ok, bad) => !handled && id == (if decodes then ok else bad)
             case Leave(ok, bad) => handled == decodes && id == (if decodes then ok else bad)
             case Refuse => !handled && id == GENERIC_NACK
             case _ => false
    ensures Sound(c, s, DispatchPdu(c, s, pdu, decodes))
  {
    hide Sound, Staged, Log, SendBack, Permits, Route;
    var reply := Pdu(id, pdu.number);
    ReplyIsPermitted(c.side, s.bind, pdu, handled, id);
    LeavesOnUnbind(c.side, s.bind, pdu.id);
    if Route(c.side, s.bind, pdu.id).Handle? && decodes {
      HandlerIsSound(c, s, pdu, reply);
    } else {
      AnswerIsSound(c, s, pdu, handled, reply);
    }
  }

  lemma ReplyIsPermitted(side: Side, bind: Bind, pdu: Pdu, handled: bool, id: u32)
    requires var arm := Route(side, bind, pdu.id);
             && (handled ==> CallsListener(arm) && !arm.Inform? && id == arm.ok)
             && CanSendBack(arm, id)
    ensures Permits(side, bind, pdu, handled, Some(Pdu(id, pdu.number)))
  {
    HandlersAreGated(side, bind, pdu.id);
    hide Route;
  }

  /** The listener was handed the PDU; the reply is its task's. */
  lemma HandlerIsSound(c: Config, s: State, pdu: Pdu, reply: Pdu)
    requires Staged(c, s) && s.reader.InPass? && pdu.id != UNBIND
    requires Permits(c.side, s.bind, pdu, true, Some(reply))
    ensures Sound(c, s, Log(s, Received(pdu, true, Some(reply))).(handlers := s.handlers + multiset{reply}))
  {
    hide Owed, StageOf, Log, Permits;
    LogShape(c, s, Received(pdu, true, Some(reply)));
    NothingForwarded(s, Log(s, Received(pdu, true, Some(reply))));
  }

  /** The reader itself sends the reply; after an unbind it is the last. */
  lemma AnswerIsSound(c: Config, s: State, pdu: Pdu, handled: bool, reply: Pdu)
    requires Staged(c, s) && s.reader.InPass? && Permits(c.side, s.bind, pdu, handled, Some(reply))
    ensures var s' := SendBack(Log(s, Received(pdu, handled, Some(reply))), reply, pdu.id == UNBIND);
            Sound(c, s, s') && Sound(c, s, s'.(aborted := true))
  {
    hide Owed, StageOf, Log, Permits;
    LogShape(c, s, Received(pdu, handled, Some(reply)));
    NothingForwarded(s, Log(s, Received(pdu, handled, Some(reply))));
  }

  lemma CoreIgnoresLastRead(c: Config, s: State)
    requires Core(c, s)
    ensures Core(c, s.(lastRead := s.now))
  {
    hide LedgerAgrees, CallersAgree, QueueAgrees, TableAgrees, HeldAgrees, WireAgrees, RivalsShareNumber,
      InsertedAgrees;
  }

  lemma OwesKeepsReplies(s: State, s': State, p: Pdu)
    requires RepliesAt(s, p) && !s.reader.Pushing? && Owes(s, s')
    ensures RepliesAt(s', p)
  {
    hide Owed, Count, InWriter;
    assert (Owed(s'.trail) + s.handlers)[p] == (Owed(s.trail) + s'.handlers + Upcoming(s'.reader))[p];
  }

  lemma OneMore(m: multiset<Pdu>, reply: Pdu, p: Pdu)
    ensures (m + multiset{reply})[p] == m[p] + if reply == p then 1 else 0
    ensures reply in m ==> (m - multiset{reply})[p] == m[p] - if reply == p then 1 else 0
  {}

  lemma UpcomingAt(reader: Reader, p: Pdu)
    ensures Upcoming(reader)[p] == if reader.Pushing? && reader.reply == p then 1 else 0
  {}

  lemma InWriterAt(writer: Writer, p: Pdu)
    ensures InWriter(writer)[p] == if writer == Holding(Reply(p)) then 1 else 0
  {}

  /** The reader's reply goes to the FIFO, or is lost with a stopped writer. */
  lemma PushKeepsReplies(s: State, reader: Reader, p: Pdu)
    requires RepliesAt(s, p) && s.reader.Pushing? && !reader.Pushing?
    ensures RepliesAt(Enqueue(s, Reply(s.reader.reply)).(reader := reader), p)
    ensures RepliesAt(Lose(s, Reply(s.reader.reply)).(reader := reader), p)
  {
    hide Owed, Count, InWriter, Upcoming, Lose;
    LoseShape(s, Reply(s.reader.reply));
    AppendedFrame(s.fifo, Reply(s.reader.reply), p);
    UpcomingAt(s.reader, p);
    UpcomingAt(reader, p);
    OneMore(s.lost, s.reader.reply, p);
  }

  lemma SameReplies(s: State, s': State, p: Pdu)
    requires RepliesAt(s, p) && Owed(s'.trail) == Owed(s.trail)
    requires !s.reader.Pushing? && !s'.reader.Pushing?
    requires s'.handlers == s.handlers && s'.fifo == s.fifo && s'.writer == s.writer
    requires s'.written == s.written && s'.lost == s.lost
    ensures RepliesAt(s', p)
  {
    hide Owed, Count, InWriter;
  }

  /** Taking a heartbeat's entry out owes nothing and leaves the session serving. */
  lemma SettleShape(c: Config, s: State, n: u32)
    ensures var s' := SettleBeat(c, s, n);
            && Owed(s'.trail) == Owed(s.trail)
            && (StageOf(c.side, s.trail).Serving? ==> StageOf(c.side, s'.trail) == StageOf(c.side, s.trail))
            && s' == s.(calls := s'.calls, pending := s'.pending, trail := s'.trail, reader := InPass)
  {
    hide Owed, StageOf, Log, Route, Resolve;
    LogShape(c, s, Unmatched(n));
    if n in s.pending {
      ResolveShape(c, s, n, Late);
      ResolveShape(c, s, n, Answered);
    }
  }

  lemma ReadKeepsReplies(c: Config, s: State, r: ReadStep, p: Pdu)
    requires Core(c, s) && RepliesAt(s, p) && Staged(c, s) && CanRead(c, s, r)
    ensures RepliesAt(DoRead(c, s, r), p)
  {
    hide Core, Owed, DispatchPdu, SweepAll, Owes, RepliesAt, StageOf, HasRoom, Log;
    match r
    case Receive(pdu, decodes) =>
      DispatchIsSound(c, s, pdu, decodes);
      OwesKeepsReplies(s, DispatchPdu(c, s, pdu, decodes), p);
    case EndPass(order) =>
      EndPassIsLate(c, s, order);
      CoreIgnoresLastRead(c, s);
      SweepKeeps(c, s.(lastRead := s.now), order);
      SameReplies(s, DoRead(c, s, r), p);
    case PushReply =>
      PushKeepsReplies(s, DoRead(c, s, r).reader, p);
    case Settle =>
      SettleShape(c, s, s.reader.number);
      SameReplies(s, DoRead(c, s, r), p);
    case Close =>
      LogShape(c, s, Unbinding);
      SameReplies(s, DoRead(c, s, r), p);
    case Abort =>
      if s.reader.Pushing? {
        PushKeepsReplies(s, Aborted, p);
      } else {
        SameReplies(s, DoRead(c, s, r), p);
      }
    case _ =>
      SameReplies(s, DoRead(c, s, r), p);
  }

  /** The writer puts its frame on the wire, or gives its reply up. */
  lemma SendKeepsReplies(s: State, ok: bool, p: Pdu)
    requires RepliesAt(s, p) && CanWrite(s, Write(ok))
    ensures s.writer.Inserted? ==>
              RepliesAt(if ok then s.(written := s.written + [Ask(s.writer.call)], writer := Idle)
                        else s.(writer := Failing(s.writer.call)), p)
    ensures s.writer.Holding? ==>
              RepliesAt(if ok then s.(written := s.written + [s.writer.frame], writer := Idle)
                        else Lose(s, s.writer.frame).(writer := Idle), p)
  {
    hide SetPlace, Owed, Upcoming, Count, InWriter;
    SetPlaceShape();
    InWriterAt(s.writer, p);
    InWriterAt(Idle, p);
    AppendedFrame(s.written, if s.writer.Inserted? then Ask(s.writer.call) else s.writer.frame, p);
    if s.writer.Inserted? {
      InWriterAt(Failing(s.writer.call), p);
    } else {
      OneMore(s.lost, s.writer.frame.pdu, p);
    }
  }

  /** What moves no reply keeps every reply. */
  lemma StillReplies(s: State, s': State, p: Pdu)
    requires RepliesAt(s, p) && s'.trail == s.trail && s'.handlers == s.handlers && s'.reader == s.reader
    requires s'.fifo == s.fifo && s'.written == s.written && s'.lost == s.lost
    requires InWriter(s'.writer) == InWriter(s.writer)
    ensures RepliesAt(s', p)
  {
    hide Owed, Count, Upcoming, InWriter;
  }

  lemma DequeueKeepsReplies(c: Config, s: State, p: Pdu)
    requires RepliesAt(s, p) && CanWrite(s, Dequeue)
    ensures RepliesAt(DoWrite(c, s, Dequeue), p)
  {
    hide SetPlace, Owed, Upcoming, Count, InWriter;
    SetPlaceShape();
    InWriterAt(s.writer, p);
    InWriterAt(Holding(s.fifo[0]), p);
    PoppedFrame(s.fifo, p);
  }

  lemma HaltKeepsReplies(c: Config, s: State, p: Pdu)
    requires RepliesAt(s, p) && CanWrite(s, Halt)
    ensures RepliesAt(DoWrite(c, s, Halt), p)
  {
    hide Lose, Owed, Upcoming, Count, InWriter;
    InWriterAt(s.writer, p);
    InWriterAt(Writer.Stopped, p);
    if s.writer.Holding? {
      LoseShape(s, s.writer.frame);
      if s.writer.frame.Reply? {
        OneMore(s.lost, s.writer.frame.pdu, p);
      }
    }
  }

  lemma WriteKeepsReplies(c: Config, s: State, w: WriteStep, p: Pdu)
    requires RepliesAt(s, p) && CanWrite(s, w)
    ensures RepliesAt(DoWrite(c, s, w), p)
  {
    hide RepliesAt, Number, SetPlace, Register, Lose;
    match w
    case Dequeue => DequeueKeepsReplies(c, s, p);
    case Insert =>
      InsertShape(c, s, s.writer.frame.call);
      StillReplies(s, DoWrite(c, s, w), p);
    case Write(ok) => SendKeepsReplies(s, ok, p);
    case Remove =>
      SetPlaceShape();
      StillReplies(s, DoWrite(c, s, w), p);
    case Halt => HaltKeepsReplies(c, s, p);
  }

  lemma OpenKeepsReplies(c: Config, s: State, o: OpenStep, p: Pdu)
    requires RepliesAt(s, p) && CanOpen(c, s, o)
    ensures RepliesAt(Open(s, o), p)
  {
    hide RepliesAt, Owed, Open;
    OpenShape(c, s, o);
    SameReplies(s, Open(s, o), p);
  }

  lemma HandlerKeepsReplies(c: Config, s: State, reply: Pdu, p: Pdu)
    requires RepliesAt(s, p) && Enabled(c, s, Handling(reply))
    ensures RepliesAt(Apply(c, s, Handling(reply)), p)
  {
    hide Owed, Count, Upcoming, InWriter;
    AppendedFrame(s.fifo, Reply(reply), p);
    OneMore(s.handlers, reply, p);
    OneMore(s.lost, reply, p);
  }

  lemma AskKeepsReplies(s: State, s': State, k: nat, p: Pdu)
    requires RepliesAt(s, p)
    requires s'.fifo == s.fifo || s'.fifo == s.fifo + [Ask(k)]
    requires s'.trail == s.trail && s'.handlers == s.handlers && s'.reader == s.reader
    requires s'.writer == s.writer && s'.written == s.written && s'.lost == s.lost
    ensures RepliesAt(s', p)
  {
    hide Owed, Count, Upcoming, InWriter;
    AppendedFrame(s.fifo, Ask(k), p);
  }

  lemma StepKeepsReplies(c: Config, s: State, step: Step, p: Pdu)
    requires Core(c, s) && RepliesAt(s, p) && Staged(c, s) && Enabled(c, s, step)
    ensures RepliesAt(Apply(c, s, step), p)
  {
    hide Core, RepliesAt, Staged, DoWrite, DoRead, DoCall, DoTick, Open, CanWrite, CanRead, CanCall, CanTick, CanOpen,
      HasRoom, MaySend;
    match step
    case Opening(o) => OpenKeepsReplies(c, s, o, p);
    case Writing(w) => WriteKeepsReplies(c, s, w, p);
    case Reading(r) => ReadKeepsReplies(c, s, r, p);
    case Handling(reply) => HandlerKeepsReplies(c, s, reply, p);
    case Calling(k, act) =>
      CallShape(s, k, act);
      AskKeepsReplies(s, DoCall(s, k, act), k, p);
    case Ticking(t) =>
      TickShape(c, s, t);
      AskKeepsReplies(s, DoTick(c, s, t), if s.ticker.Numbered? then s.ticker.call else 0, p);
    case _ => AskKeepsReplies(s, Apply(c, s, step), 0, p);
  }

  // ---- the ticker and the lifecycle ----------------------------------------

  lemma ForwardKeepsTicker(c: Config, s: State, s': State)
    requires Sound(c, s, s') && TickerFits(c, s)
    ensures TickerFits(c, s')
  {
    hide Number, Owes, Staged;
    var more :| s'.channel == s.channel + more && s'.forwarded == s.forwarded + more;
    assert s.heard + (s.channel + more) == (s.heard + s.channel) + more;
  }

  lemma DispatchKeepsTickerAndStage(c: Config, s: State, pdu: Pdu, decodes: bool)
    requires TickerFits(c, s) && Staged(c, s) && s.reader.InPass?
    ensures var s' := DispatchPdu(c, s, pdu, decodes); TickerFits(c, s') && Staged(c, s')
  {
    hide DispatchPdu, TickerFits, Staged;
    DispatchIsSound(c, s, pdu, decodes);
    ForwardKeepsTicker(c, s, DispatchPdu(c, s, pdu, decodes));
    assert Staged(c, DispatchPdu(c, s, pdu, decodes));
  }

  lemma EndPassKeepsTickerAndStage(c: Config, s: State, order: seq<u32>)
    requires Core(c, s) && TickerFits(c, s) && Staged(c, s) && CanRead(c, s, EndPass(order))
    ensures var s' := DoRead(c, s, EndPass(order)); TickerFits(c, s') && Staged(c, s')
  {
    hide Number, Route, Core, SweepAll, StageOf, Owed;
    EndPassIsLate(c, s, order);
    CoreIgnoresLastRead(c, s);
    SweepKeeps(c, s.(lastRead := s.now), order);
  }

  lemma CloseKeepsTickerAndStage(c: Config, s: State)
    requires TickerFits(c, s) && Staged(c, s) && s.reader.Leaving?
    ensures var s' := DoRead(c, s, Close); TickerFits(c, s') && Staged(c, s')
  {
    hide Number, Route, StageOf, Owed, Log;
    LogShape(c, s, Unbinding);
  }

  lemma SettleKeepsTickerAndStage(c: Config, s: State)
    requires TickerFits(c, s) && Staged(c, s) && s.reader.Settling?
    ensures var s' := DoRead(c, s, Settle); TickerFits(c, s') && Staged(c, s')
  {
    hide Number, StageOf, Owed, SettleBeat;
    SettleShape(c, s, s.reader.number);
  }

  /** Where the reader may move without an event. */
  predicate Strolls(r: Reader, r': Reader) {
    || (r.AtRead? && (r'.InPass? || r'.Leaving? || r'.Checking?))
    || (r.InPass? && r'.Leaving?)
    || (r.Checking? && (r'.Leaving? || r'.AtRead?))
    || (r.Pushing? && (r'.Leaving? || (r'.InPass? && !r.last)))
    || (r.Told? && r'.Closed?)
    || (r'.Aborted? && !r.Unbound? && !r.Refused? && !r.Accepted? && !r.Closed?)
  }

  lemma StrollFits(bind: Bind, r: Reader, r': Reader, stage: Stage)
    requires StageFits(bind, r, stage) && Strolls(r, r')
    ensures StageFits(bind, r', stage)
  {}

  lemma PushShape(c: Config, s: State, r: ReadStep)
    requires CanRead(c, s, r) && s.reader.Pushing?
    ensures var s' := DoRead(c, s, r);
            && s' == s.(calls := s'.calls, fifo := s'.fifo, lost := s'.lost, reader := s'.reader)
            && Strolls(s.reader, s'.reader)
  {
    hide Lose, HasRoom;
    LoseShape(s, Reply(s.reader.reply));
  }

  /** The steps that move the reader and nothing else the ticker or the stage looks at. */
  lemma MoveShape(c: Config, s: State, r: ReadStep)
    requires CanRead(c, s, r) && !r.Receive? && !r.EndPass? && !r.Close? && !r.Settle?
    ensures var s' := DoRead(c, s, r);
            && s' == s.(calls := s'.calls, fifo := s'.fifo, lost := s'.lost, reader := s'.reader,
                        alive := s'.alive, aborted := s'.aborted)
            && Strolls(s.reader, s'.reader)
  {
    hide Lose, HasRoom;
    if s.reader.Pushing? {
      PushShape(c, s, r);
    }
  }

  lemma MoveKeepsTickerAndStage(c: Config, s: State, r: ReadStep)
    requires TickerFits(c, s) && Staged(c, s) && CanRead(c, s, r)
    requires !r.Receive? && !r.EndPass? && !r.Close? && !r.Settle?
    ensures TickerFits(c, DoRead(c, s, r)) && Staged(c, DoRead(c, s, r))
  {
    hide TickerFits, StageOf, DoRead, CanRead, StageFits, Strolls;
    MoveShape(c, s, r);
    SameTicker(c, s, DoRead(c, s, r));
    StrollFits(s.bind, s.reader, DoRead(c, s, r).reader, StageOf(c.side, s.trail));
  }

  lemma ReadKeepsTickerAndStage(c: Config, s: State, r: ReadStep)
    requires Core(c, s) && TickerFits(c, s) && Staged(c, s) && CanRead(c, s, r)
    ensures TickerFits(c, DoRead(c, s, r)) && Staged(c, DoRead(c, s, r))
  {
    match r
    case Receive(pdu, decodes) =>
      hide Core, TickerFits, Staged, DispatchPdu;
      DispatchKeepsTickerAndStage(c, s, pdu, decodes);
    case EndPass(order) =>
      hide Core, TickerFits, Staged, DoRead;
      EndPassKeepsTickerAndStage(c, s, order);
    case Close =>
      hide Core, TickerFits, Staged, DoRead;
      CloseKeepsTickerAndStage(c, s);
    case Settle =>
      hide Core, TickerFits, Staged, DoRead;
      SettleKeepsTickerAndStage(c, s);
    case _ =>
      hide Core, TickerFits, Staged, DoRead;
      MoveKeepsTickerAndStage(c, s, r);
  }

  lemma TickKeepsTicker(c: Config, s: State, t: TickStep)
    requires TickerFits(c, s) && CanTick(c, s, t) && !t.Hear?
    ensures TickerFits(c, DoTick(c, s, t))
  {
    hide Number, SetPlace, HasRoom;
    SetPlaceShape();
  }

  lemma SameStage(c: Config, s: State, s': State)
    requires Staged(c, s) && s'.bind == s.bind && s'.reader == s.reader && s'.trail == s.trail
    ensures Staged(c, s')
  {
    hide StageOf;
  }

  lemma TickKeepsTickerAndStage(c: Config, s: State, t: TickStep)
    requires TickerFits(c, s) && Staged(c, s) && CanTick(c, s, t)
    ensures TickerFits(c, DoTick(c, s, t)) && Staged(c, DoTick(c, s, t))
  {
    hide Number, DoTick, CanTick, Staged;
    TickShape(c, s, t);
    SameStage(c, s, DoTick(c, s, t));
    if t.Hear? {
      HearKeepsTicker(c, s);
    } else {
      TickKeepsTicker(c, s, t);
    }
  }

  lemma OpenKeepsStage(c: Config, s: State, o: OpenStep)
    requires TickerFits(c, s) && Staged(c, s) && CanOpen(c, s, o)
    ensures TickerFits(c, Open(s, o)) && Staged(c, Open(s, o))
  {
    hide TickerFits, Open;
    OpenShape(c, s, o);
    SameTicker(c, s, Open(s, o));
    OpenedStage(c, s, o);
  }

  lemma SameTicker(c: Config, s: State, s': State)
    requires TickerFits(c, s) && s'.ticker == s.ticker && s'.asked == s.asked && s'.heard == s.heard
    requires s'.channel == s.channel && s'.forwarded == s.forwarded
    ensures TickerFits(c, s')
  {
    hide Number;
  }

  lemma OpenedStage(c: Config, s: State, o: OpenStep)
    requires Staged(c, s) && CanOpen(c, s, o)
    ensures Staged(c, Open(s, o))
  {
    hide Established, StageOf, StageAfter, Log;
    OpeningStages(c.side, s.bind);
    LogShape(c, s, BindAnswered(true));
    LogShape(c, s, BindAnswered(false));
    LogShape(c, s, Bound(s.bind));
  }

  lemma OpeningStages(side: Side, bind: Bind)
    ensures StageAfter(side, Unopened, BindAnswered(true)) == Admitted
    ensures StageAfter(side, Unopened, BindAnswered(false)) == Rejected
    ensures StageAfter(side, Admitted, Bound(bind)) == Serving(bind)
  {}

  lemma SameTickerAndStage(c: Config, s: State, s': State)
    requires TickerFits(c, s) && Staged(c, s)
    requires s'.ticker == s.ticker && s'.asked == s.asked && s'.heard == s.heard
    requires s'.channel == s.channel && s'.forwarded == s.forwarded
    requires s'.bind == s.bind && s'.reader == s.reader && s'.trail == s.trail
    ensures TickerFits(c, s') && Staged(c, s')
  {
    hide TickerFits, Staged;
    SameTicker(c, s, s');
    SameStage(c, s, s');
  }

  lemma WriteKeepsTickerAndStage(c: Config, s: State, w: WriteStep)
    requires TickerFits(c, s) && Staged(c, s) && CanWrite(s, w)
    ensures TickerFits(c, DoWrite(c, s, w)) && Staged(c, DoWrite(c, s, w))
  {
    hide TickerFits, Staged, DoWrite, CanWrite;
    WriteShape(c, s, w);
    SameTickerAndStage(c, s, DoWrite(c, s, w));
  }

  lemma CallKeepsTickerAndStage(c: Config, s: State, k: nat, act: CallAct)
    requires TickerFits(c, s) && Staged(c, s) && CanCall(s, k, act)
    ensures TickerFits(c, DoCall(s, k, act)) && Staged(c, DoCall(s, k, act))
  {
    hide TickerFits, Staged, DoCall, CanCall;
    CallShape(s, k, act);
    SameTickerAndStage(c, s, DoCall(s, k, act));
  }

  lemma StepKeepsTickerAndStage(c: Config, s: State, step: Step)
    requires Core(c, s) && TickerFits(c, s) && Staged(c, s) && Enabled(c, s, step)
    ensures TickerFits(c, Apply(c, s, step)) && Staged(c, Apply(c, s, step))
  {
    hide Core, TickerFits, Staged, HasRoom, MaySend, CanWrite, CanCall, CanTick, CanRead, DoWrite, DoCall, DoTick,
      DoRead, Open;
    match step
    case Opening(o) => OpenKeepsStage(c, s, o);
    case Ticking(t) => TickKeepsTickerAndStage(c, s, t);
    case Reading(r) => ReadKeepsTickerAndStage(c, s, r);
    case Writing(w) => WriteKeepsTickerAndStage(c, s, w);
    case Calling(k, act) => CallKeepsTickerAndStage(c, s, k, act);
    case _ => SameTickerAndStage(c, s, Apply(c, s, step));
  }

  // ---- runs ----------------------------------------------------------------

  lemma InitialIsFine(c: Config)
    ensures Inv(c, Initial())
  {}

  lemma StepKeepsInv(c: Config, s: State, step: Step)
    requires Inv(c, s) && Enabled(c, s, step)
    ensures Inv(c, Apply(c, s, step))
  {
    hide Core, RepliesAt, TickerFits, Staged, Apply;
    StepKeepsCore(c, s, step);
    forall p: Pdu
      ensures RepliesAt(Apply(c, s, step), p)
    {
      StepKeepsReplies(c, s, step, p);
    }
    StepKeepsTickerAndStage(c, s, step);
  }

  lemma {:induction false} RunKeepsInv(c: Config, s: State, steps: seq<Step>)
    requires Inv(c, s) && CanRun(c, s, steps)
    ensures Inv(c, Run(c, s, steps))
    decreases |steps|
  {
    hide Inv, Apply;
    if steps != [] {
      StepKeepsInv(c, s, steps[0]);
      RunKeepsInv(c, Apply(c, s, steps[0]), steps[1..]);
    }
  }
}

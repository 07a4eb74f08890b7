// What each step of the session must do, and not only may: exact effects, with the
// command identifiers written out as the numbers of section 5.1.2.1 of the SMPP v3.4
// specification.

module Effects {
  import opened Bytes
  import opened Headers
  import opened Dispatch
  import opened Pending
  import opened Session
  import opened Bookkeeping
  import opened Ledger
  import opened Preservation
  import opened Runs
  import opened Safety
  import opened Opening

  // ---- requests ------------------------------------------------------------

  /** The message requests a session serves, by bind type. */
  predicate MessageRequest(side: Side, bind: Bind, id: u32) {
    || id == 0x0000_0103
    || (side.Server? && bind != RX
        && (id == 0x0000_0004 || id == 0x0000_0021 || id == 0x0000_0008 || id == 0x0000_0003 || id == 0x0000_0007))
    || (side.Client? && bind != TX && id == 0x0000_0005)
  }

  /** The reply to a message request that does not decode; cancel_sm and deliver_sm get submit_sm's. */
  function Complaint(id: u32): u32 {
    if id == 0x0000_0008 || id == 0x0000_0005 then 0x8000_0004
    else if id < 0x8000_0000 then id + 0x8000_0000
    else id
  }

  /** The trail once the PDU was read. */
  function Noted(s: State, pdu: Pdu, handled: bool, owed: Option<Pdu>): Trail {
    Then(s.trail, Received(pdu, handled, owed))
  }

  lemma MessageArm(side: Side, bind: Bind, id: u32)
    requires MessageRequest(side, bind, id)
    ensures id < 0x8000_0000 && Route(side, bind, id) == Handle(id + 0x8000_0000, Complaint(id))
  {}

  /**
   * A message request that decodes goes to the listener, in a task that owes exactly the
   * request's own response, and the reader goes on; one that does not goes to nobody,
   * and the reader sends the complaint.
   */
  lemma RequestIsHandled(c: Config, s: State, pdu: Pdu)
    requires s.reader.InPass? && MessageRequest(c.side, s.bind, pdu.id)
    ensures pdu.id < 0x8000_0000
    ensures var response := Pdu(pdu.id + 0x8000_0000, pdu.number);
            && CanRead(c, s, Receive(pdu, true))
            && DoRead(c, s, Receive(pdu, true)) ==
               s.(trail := Noted(s, pdu, true, Some(response)), handlers := s.handlers + multiset{response})
    ensures var complaint := Pdu(Complaint(pdu.id), pdu.number);
            && CanRead(c, s, Receive(pdu, false))
            && DoRead(c, s, Receive(pdu, false)) ==
               s.(trail := Noted(s, pdu, false, Some(complaint)), reader := Pushing(complaint, false))
  {
    MessageArm(c.side, s.bind, pdu.id);
    hide Route, Complaint, MessageRequest;
  }

  /** enquire_link is answered by the reader itself. */
  lemma EnquireLinkIsAnswered(c: Config, s: State, pdu: Pdu, decodes: bool)
    requires s.reader.InPass? && pdu.id == 0x0000_0015
    ensures var reply := Pdu(if decodes then 0x8000_0015 else 0x8000_0004, pdu.number);
            && CanRead(c, s, Receive(pdu, decodes))
            && DoRead(c, s, Receive(pdu, decodes)) ==
               s.(trail := Noted(s, pdu, false, Some(reply)), reader := Pushing(reply, false))
  {
    assert Route(c.side, s.bind, pdu.id) == Echo(0x8000_0015, 0x8000_0004);
    hide Route;
  }

  /** unbind stops the ticker and is the last PDU; the listener hears of it if it decodes. */
  lemma UnbindIsAnswered(c: Config, s: State, pdu: Pdu, decodes: bool)
    requires s.reader.InPass? && pdu.id == 0x0000_0006
    ensures var reply := Pdu(0x8000_0006, pdu.number);
            && CanRead(c, s, Receive(pdu, decodes))
            && DoRead(c, s, Receive(pdu, decodes)) ==
               s.(trail := Noted(s, pdu, decodes, Some(reply)), reader := Pushing(reply, true), aborted := true)
  {
    assert Route(c.side, s.bind, pdu.id) == Leave(0x8000_0006, 0x8000_0006);
    hide Route;
  }

  /** A client's listener is told of an alert_notification, which is not answered. */
  lemma AlertIsTold(c: Config, s: State, pdu: Pdu)
    requires s.reader.InPass? && c.side.Client? && pdu.id == 0x0000_0102
    ensures CanRead(c, s, Receive(pdu, true)) && CanRead(c, s, Receive(pdu, false))
    ensures DoRead(c, s, Receive(pdu, true)) == s.(trail := Noted(s, pdu, true, None))
    ensures var nack := Pdu(0x8000_0000, pdu.number);
            DoRead(c, s, Receive(pdu, false)) ==
            s.(trail := Noted(s, pdu, false, Some(nack)), reader := Pushing(nack, false))
  {
    assert Route(c.side, s.bind, pdu.id) == Inform(0x8000_0000);
    hide Route;
  }

  /** An enquire_link_resp's number goes to the ticker, unless that is finished. */
  lemma HeartbeatIsForwarded(c: Config, s: State, pdu: Pdu, decodes: bool)
    requires s.reader.InPass? && pdu.id == 0x8000_0015
    ensures CanRead(c, s, Receive(pdu, decodes)) <==> s.ticker.Dead? || |s.channel| < 100
    ensures var more := if s.ticker.Dead? then [] else [pdu.number];
            DoRead(c, s, Receive(pdu, decodes)) ==
            s.(trail := Noted(s, pdu, false, None), reader := Settling(pdu.number),
               channel := s.channel + more, forwarded := s.forwarded + more)
  {
    assert Route(c.side, s.bind, pdu.id) == Heartbeat;
    hide Route;
    assert s.channel + [] == s.channel && s.forwarded + [] == s.forwarded;
  }

  // ---- responses -----------------------------------------------------------

  /** The responses that are looked up in the table; 0x80000000 is generic_nack. */
  predicate Correlated(side: Side, bind: Bind, id: u32) {
    || id == 0x8000_0000
    || (side.Server? && (id == 0x8000_0103 || (bind != RX && id == 0x8000_0005)))
    || (side.Client?
        && (id == 0x8000_0008 || id == 0x8000_0003 || id == 0x8000_0007 || id == 0x8000_0006
            || (bind != RX && (id == 0x8000_0004 || id == 0x8000_0021 || id == 0x8000_0103))))
  }

  lemma LookupIff(side: Side, bind: Bind, id: u32)
    ensures Correlated(side, bind, id) <==> LooksUp(Route(side, bind, id))
    ensures Correlated(side, bind, id) ==>
              var arm := Route(side, bind, id);
              if id == 0x8000_0000 then arm == CorrelateNack
              else arm == Correlate(if side.Server? then 0x8000_0004 else 0x8000_0000, id == 0x8000_0006)
  {}

  /** What is owed for a response that does not decode; nothing, for a generic_nack. */
  function Objection(side: Side, pdu: Pdu): Option<Pdu> {
    if pdu.id == 0x8000_0000 then None
    else Some(Pdu(if side.Server? then 0x8000_0004 else 0x8000_0000, pdu.number))
  }

  /** The caller of call k is still waiting; nobody waits for a keep-alive or an alert. */
  predicate Waits(s: State, k: nat) {
    && k < |s.calls| && s.calls[k].caller.Waiting?
    && s.calls[k].id != 0x0000_0015 && s.calls[k].id != 0x0000_0102
  }

  /** Ends call k, whose entry is under n. */
  function Resolving(s: State, t: Trail, n: u32, outcome: Outcome): State
    requires n in s.pending && s.pending[n].call < |s.calls|
  {
    var k := s.pending[n].call;
    s.(calls := s.calls[k := s.calls[k].(place := Finished(outcome))], pending := s.pending - {n},
       trail := Then(t, Resolved(k, n, outcome, s.now - s.pending[n].since)))
  }

  lemma ResolveIs(s: State, e: Event, n: u32, outcome: Outcome)
    requires n in s.pending && s.pending[n].call < |s.calls|
    ensures Resolve(Log(s, e), n, outcome) == Resolving(s, Then(s.trail, e), n, outcome)
  {}

  /** A response without an entry changes nothing; one that is late ends its request so. */
  lemma LateResponse(c: Config, s: State, pdu: Pdu, decodes: bool)
    requires s.reader.InPass? && Correlated(c.side, s.bind, pdu.id)
    requires pdu.number in s.pending ==> s.pending[pdu.number].call < |s.calls|
    ensures CanRead(c, s, Receive(pdu, decodes))
    ensures pdu.number !in s.pending ==>
              DoRead(c, s, Receive(pdu, decodes)) ==
              s.(trail := Then(Noted(s, pdu, false, None), Unmatched(pdu.number)))
    ensures pdu.number in s.pending && s.now - s.pending[pdu.number].since > c.responseTimer ==>
              DoRead(c, s, Receive(pdu, decodes)) == Resolving(s, Noted(s, pdu, false, None), pdu.number, Late)
  {
    LookupIff(c.side, s.bind, pdu.id);
    hide Route, Correlated, Resolve;
    if pdu.number in s.pending {
      ResolveIs(s, Received(pdu, false, None), pdu.number, Late);
    }
  }

  /**
   * A response in time that decodes completes the caller that waits, and only a client's
   * unbind_resp ends the loop.
   */
  lemma TimelyResponse(c: Config, s: State, pdu: Pdu)
    requires s.reader.InPass? && Correlated(c.side, s.bind, pdu.id)
    requires pdu.number in s.pending && s.pending[pdu.number].call < |s.calls|
    requires s.now - s.pending[pdu.number].since <= c.responseTimer
    ensures var outcome := if Waits(s, s.pending[pdu.number].call) then Delivered(pdu) else Answered;
            DoRead(c, s, Receive(pdu, true)) ==
            Resolving(s, Noted(s, pdu, false, None), pdu.number, outcome)
              .(reader := if pdu.id == 0x8000_0006 then Leaving else InPass)
  {
    LookupIff(c.side, s.bind, pdu.id);
    hide Route, Correlated, Resolve;
    ResolveIs(s, Received(pdu, false, None), pdu.number,
              if Waits(s, s.pending[pdu.number].call) then Delivered(pdu) else Answered);
  }

  /** One in time that does not decode ends the request too, and is objected to. */
  lemma GarbledResponse(c: Config, s: State, pdu: Pdu)
    requires s.reader.InPass? && Correlated(c.side, s.bind, pdu.id)
    requires pdu.number in s.pending && s.pending[pdu.number].call < |s.calls|
    requires s.now - s.pending[pdu.number].since <= c.responseTimer
    ensures var objection := Objection(c.side, pdu);
            DoRead(c, s, Receive(pdu, false)) ==
            Resolving(s, Noted(s, pdu, false, objection), pdu.number, Undecodable)
              .(reader := if objection.Some? then Pushing(objection.value, false) else InPass)
  {
    LookupIff(c.side, s.bind, pdu.id);
    hide Route, Correlated, Resolve;
    ResolveIs(s, Received(pdu, false, Objection(c.side, pdu)), pdu.number, Undecodable);
  }

  /** After passing a heartbeat on, the reader takes the entry out, late or not, and reads on. */
  lemma HeartbeatIsSettled(c: Config, s: State, n: u32)
    requires s.reader == Settling(n) && (n in s.pending ==> s.pending[n].call < |s.calls|)
    ensures CanRead(c, s, Settle)
    ensures DoRead(c, s, Settle) ==
            if n !in s.pending then s.(trail := Then(s.trail, Unmatched(n)), reader := InPass)
            else
              var late := s.now - s.pending[n].since > c.responseTimer;
              Resolving(s, s.trail, n, if late then Late else Answered).(reader := InPass)
  {}

  /**
   * What a PDU makes this side owe is what the dispatch tables say it sends back; only a
   * response without an entry, or too late, is not objected to.
   */
  lemma OwesWhatTablesSay(c: Config, s: State, pdu: Pdu, decodes: bool)
    requires s.reader.InPass?
    requires pdu.number in s.pending ==> s.pending[pdu.number].call < |s.calls|
    ensures var reply := ReplyOf(Route(c.side, s.bind, pdu.id), decodes);
            var dropped := Correlated(c.side, s.bind, pdu.id) &&
              (pdu.number !in s.pending || s.now - s.pending[pdu.number].since > c.responseTimer);
            Owed(DoRead(c, s, Receive(pdu, decodes)).trail) ==
            Owed(s.trail) + if reply.Some? && !dropped then multiset{Pdu(reply.value, pdu.number)} else multiset{}
  {
    hide DoRead, Owed, Route, Correlated, MessageRequest, Complaint;
    LookupIff(c.side, s.bind, pdu.id);
    if Correlated(c.side, s.bind, pdu.id) {
      LateResponse(c, s, pdu, decodes);
      if pdu.number in s.pending && s.now - s.pending[pdu.number].since <= c.responseTimer {
        TimelyResponse(c, s, pdu);
        GarbledResponse(c, s, pdu);
      }
      OwesForResponse(c, s, pdu, decodes);
    } else {
      OwesForRequest(c, s, pdu, decodes);
    }
  }

  lemma OwedGrows(t: Trail, e: Event)
    ensures Owed(Then(t, e)) ==
            Owed(t) + if e.Received? && e.owed.Some? then multiset{e.owed.value} else multiset{}
  {}

  lemma OwesForResponse(c: Config, s: State, pdu: Pdu, decodes: bool)
    requires s.reader.InPass? && Correlated(c.side, s.bind, pdu.id)
    requires pdu.number in s.pending ==> s.pending[pdu.number].call < |s.calls|
    ensures var dropped := pdu.number !in s.pending || s.now - s.pending[pdu.number].since > c.responseTimer;
            var reply := if decodes || dropped then None else Objection(c.side, pdu);
            Owed(DoRead(c, s, Receive(pdu, decodes)).trail) ==
            Owed(s.trail) + if reply.Some? then multiset{reply.value} else multiset{}
  {
    hide DoRead, Owed, Correlated;
    LateResponse(c, s, pdu, decodes);
    OwedGrows(s.trail, Received(pdu, false, None));
    OwedGrows(s.trail, Received(pdu, false, Objection(c.side, pdu)));
    var t := DoRead(c, s, Receive(pdu, decodes)).trail;
    if pdu.number in s.pending && s.now - s.pending[pdu.number].since <= c.responseTimer {
      TimelyResponse(c, s, pdu);
      GarbledResponse(c, s, pdu);
    }
    OwedGrows(t.before, t.event);
  }

  lemma OwesForRequest(c: Config, s: State, pdu: Pdu, decodes: bool)
    requires s.reader.InPass? && !Correlated(c.side, s.bind, pdu.id)
    ensures var reply := ReplyOf(Route(c.side, s.bind, pdu.id), decodes);
            Owed(DoRead(c, s, Receive(pdu, decodes)).trail) ==
            Owed(s.trail) + if reply.Some? then multiset{Pdu(reply.value, pdu.number)} else multiset{}
  {
    hide DoRead, Route, ReplyOf, Owed, Correlated;
    RequestEvent(c, s, pdu, decodes);
    var t := DoRead(c, s, Receive(pdu, decodes)).trail;
    OwedGrows(t.before, t.event);
  }

  lemma RequestEvent(c: Config, s: State, pdu: Pdu, decodes: bool)
    requires !Correlated(c.side, s.bind, pdu.id)
    ensures var t := DoRead(c, s, Receive(pdu, decodes)).trail;
            var reply := ReplyOf(Route(c.side, s.bind, pdu.id), decodes);
            && t.Then? && t.before == s.trail && t.event.Received?
            && t.event.owed == if reply.Some? then Some(Pdu(reply.value, pdu.number)) else None
  {
    hide Route, Match, Correlated, Log, SendBack, CanSendBack;
    LookupIff(c.side, s.bind, pdu.id);
    LogTrail();
  }

  lemma LogTrail()
    ensures forall s: State, e: Event {:trigger Log(s, e)} :: Log(s, e).trail == Then(s.trail, e)
    ensures forall s: State, r: Pdu, last: bool {:trigger SendBack(s, r, last)} :: SendBack(s, r, last).trail == s.trail
  {}

  /** Everything else is refused with a generic_nack. */
  lemma OthersAreRefused(c: Config, s: State, pdu: Pdu, decodes: bool)
    requires s.reader.InPass?
    requires !MessageRequest(c.side, s.bind, pdu.id) && !Correlated(c.side, s.bind, pdu.id)
    requires pdu.id != 0x0000_0015 && pdu.id != 0x0000_0006 && pdu.id != 0x8000_0015
    requires c.side.Client? ==> pdu.id != 0x0000_0102
    ensures var nack := Pdu(0x8000_0000, pdu.number);
            && CanRead(c, s, Receive(pdu, decodes))
            && DoRead(c, s, Receive(pdu, decodes)) ==
               s.(trail := Noted(s, pdu, false, Some(nack)), reader := Pushing(nack, false))
  {
    assert Route(c.side, s.bind, pdu.id) == Refuse;
    hide Route, MessageRequest, Correlated;
  }

  // ---- the caller's return -------------------------------------------------

  /**
   * A caller gets its response. In any reachable state, if its request is on the wire,
   * open and in time, any response under its number that decodes is handed over, and
   * the caller can return at once: with the response if it is the one to its request,
   * and with an error if it is some other.
   */
  lemma CallerReturns(c: Config, steps: seq<Step>, s: State, k: nat, pdu: Pdu)
    requires Reaches(c, steps, s) && s.reader.InPass? && Correlated(c.side, s.bind, pdu.id)
    requires Ask(k) in s.written && k < |s.calls| && !s.calls[k].place.Finished? && Waits(s, k)
    requires pdu.number == Number(c, k)
    requires pdu.number in s.pending ==> s.now - s.pending[pdu.number].since <= c.responseTimer
    ensures var run := [Reading(Receive(pdu, true)), Calling(k, Return)];
            && CanRun(c, s, run) && k < |Run(c, s, run).calls|
            && Run(c, s, run).calls[k] ==
               Call(s.calls[k].id, Finished(Delivered(pdu)),
                    if pdu.id == s.calls[k].id + 0x8000_0000 then Got(pdu) else Caller.GaveUp)
  {
    hide Reaches, Number, Correlated, DoRead, CanRead, RespId;
    WrittenIsRegistered(c, steps, s, k);
    LateResponse(c, s, pdu, true);
    TimelyResponse(c, s, pdu);
    RequestsAreAllowed(c, steps, s);
    AllowedIsRequest(c, s, k);
    var s1 := DoRead(c, s, Receive(pdu, true));
    assert s1.calls[k] == s.calls[k].(place := Finished(Delivered(pdu)));
    ReturnIs(s1, k, pdu);
    ReturnRun(c, s, k, pdu);
  }

  lemma AllowedIsRequest(c: Config, s: State, k: nat)
    requires AllAllowed(c, s) && k < |s.calls|
    ensures s.calls[k].id < 0x8000_0000 && RespId(s.calls[k].id) == s.calls[k].id + 0x8000_0000
  {}

  lemma ReturnIs(s: State, k: nat, pdu: Pdu)
    requires Waits(s, k) && s.calls[k].place == Finished(Delivered(pdu))
    ensures CanCall(s, k, Return)
    ensures DoCall(s, k, Return) ==
            var result := if pdu.id == RespId(s.calls[k].id) then Got(pdu) else Caller.GaveUp;
            s.(calls := s.calls[k := s.calls[k].(caller := result)])
  {
    hide RespId;
  }

  lemma ReturnRun(c: Config, s: State, k: nat, pdu: Pdu)
    requires CanRead(c, s, Receive(pdu, true)) && CanCall(DoRead(c, s, Receive(pdu, true)), k, Return)
    ensures var run := [Reading(Receive(pdu, true)), Calling(k, Return)];
            && CanRun(c, s, run)
            && Run(c, s, run) == DoCall(DoRead(c, s, Receive(pdu, true)), k, Return)
  {
    hide DoRead, CanRead, DoCall, CanCall;
    var run := [Reading(Receive(pdu, true)), Calling(k, Return)];
    assert run[1..] == [Calling(k, Return)] && run[1..][1..] == [];
    var s1 := Apply(c, s, run[0]);
    assert CanRun(c, s1, run[1..]);
    var s2 := Apply(c, s1, run[1..][0]);
    assert Run(c, s1, run[1..]) == Run(c, s2, []) == s2;
  }

  /** A request in its caller's hand goes to the back of the FIFO, or nowhere once the writer stopped. */
  lemma RequestIsQueued(c: Config, s: State, k: nat)
    requires k < |s.calls| && s.calls[k].place.InHand? && s.calls[k].id != 0x0000_0015
    ensures CanCall(s, k, Push) <==> s.writer.Stopped? || |s.fifo| < 100
    ensures CanCall(s, k, Push) ==>
              DoCall(s, k, Push) ==
              if s.writer.Stopped? then s.(calls := s.calls[k := s.calls[k].(place := Finished(Discarded))])
              else s.(calls := s.calls[k := s.calls[k].(place := Queued)], fifo := s.fifo + [Ask(k)])
  {}

  /** A caller may give up once its request is queued, but not when its response is there. */
  lemma GivingUpIff(c: Config, s: State, k: nat)
    requires k < |s.calls|
    ensures CanCall(s, k, GiveUp) <==>
            Waits(s, k) && !s.calls[k].place.InHand?
            && !(s.calls[k].place.Finished? && s.calls[k].place.outcome.Delivered?)
    ensures CanCall(s, k, GiveUp) ==>
              DoCall(s, k, GiveUp) == s.(calls := s.calls[k := s.calls[k].(caller := Caller.GaveUp)])
  {}

  // ---- the writer ----------------------------------------------------------

  /** The idle writer takes the frame at the front. */
  lemma FrameIsTaken(c: Config, s: State)
    requires s.writer.Idle? && s.fifo != []
    ensures CanWrite(s, Dequeue)
    ensures var s' := DoWrite(c, s, Dequeue);
            && s'.writer == Holding(s.fifo[0]) && s'.fifo == s.fifo[1..] && s'.pending == s.pending
            && s'.written == s.written && s'.lost == s.lost
            && s'.calls == match s.fifo[0]
                           case Ask(k) => if k < |s.calls| then s.calls[k := s.calls[k].(place := Held)] else s.calls
                           case Reply(_) => s.calls
  {}

  /** The writer stops only with the session, and then gives up what it holds. */
  lemma WriterHaltsIff(c: Config, s: State)
    ensures CanWrite(s, Halt) <==> !s.alive
    ensures !s.alive ==>
              DoWrite(c, s, Halt) ==
              match s.writer
              case Holding(Ask(k)) =>
                if k < |s.calls|
                then s.(calls := s.calls[k := s.calls[k].(place := Finished(Discarded))], writer := Writer.Stopped)
                else s.(writer := Writer.Stopped)
              case Holding(Reply(reply)) => s.(lost := s.lost + multiset{reply}, writer := Writer.Stopped)
              case _ => s.(writer := Writer.Stopped)
  {}

  /** A request in the writer's hand is registered now, then written; both can always happen. */
  lemma RequestIsWritten(c: Config, s: State, k: nat)
    requires s.writer == Holding(Ask(k)) && k < |s.calls|
    ensures CanWrite(s, Insert)
    ensures var s1 := DoWrite(c, s, Insert);
            && s1.writer == Inserted(k) && s1.written == s.written && s1.fifo == s.fifo
            && s1.pending == s.pending[Number(c, k) := Entry(s.now, k)]
            && k < |s1.calls| && s1.calls[k] == s.calls[k].(place := Registered)
            && CanWrite(s1, Write(true)) && CanWrite(s1, Write(false))
            && DoWrite(c, s1, Write(true)) == s1.(written := s.written + [Ask(k)], writer := Idle)
            && DoWrite(c, s1, Write(false)) == s1.(writer := Failing(k))
  {
    hide Number;
  }

  /**
   * After a failed write the entry goes at once: the caller fails now instead of
   * waiting out its timer, and nothing was put on the wire.
   */
  lemma FailureIsUndone(c: Config, steps: seq<Step>, s: State, k: nat)
    requires Reaches(c, steps, s) && s.writer == Failing(k)
    ensures k < |s.calls| && Ask(k) !in s.written && CanWrite(s, Remove)
    ensures var s' := DoWrite(c, s, Remove);
            && s'.writer.Idle? && Number(c, k) !in s'.pending && s'.pending == s.pending - {Number(c, k)}
            && s'.calls == (if Number(c, k) in s.pending
                            then s.calls[k := s.calls[k].(place := Finished(WriteFailed))] else s.calls)
            && s'.calls[k].place.Finished?
            && (Waits(s, k) ==> CanCall(s', k, GiveUp) || s'.calls[k].place.outcome.Delivered?)
  {
    ReachableIsFine(c, steps, s);
    hide Reaches, LedgerAgrees, CallersAgree, WireAgrees, RivalsShareNumber, QueueAgrees, HeldAgrees, Number,
      RepliesAt, TickerFits, Staged;
    assert Core(c, s);
  }

  /** A reply is written, or given up, in one step. */
  lemma ReplyIsWritten(c: Config, s: State, reply: Pdu)
    requires s.writer == Holding(Reply(reply))
    ensures CanWrite(s, Write(true)) && CanWrite(s, Write(false))
    ensures DoWrite(c, s, Write(true)) == s.(written := s.written + [Reply(reply)], writer := Idle)
    ensures DoWrite(c, s, Write(false)) == s.(lost := s.lost + multiset{reply}, writer := Idle)
  {}

  /** A task ends: its reply goes to the back of the FIFO, as soon as there is room for it. */
  lemma HandlerAnswers(c: Config, s: State, reply: Pdu)
    requires reply in s.handlers && !s.writer.Stopped? && |s.fifo| < 100
    ensures Enabled(c, s, Handling(reply))
    ensures Apply(c, s, Handling(reply)) ==
            s.(handlers := s.handlers - multiset{reply}, fifo := s.fifo + [Reply(reply)])
  {}

  /** The FIFO and the ticker's channel hold at most 100. */
  lemma {:induction false} QueuesAreBounded(c: Config, steps: seq<Step>, s: State)
    requires Reaches(c, steps, s)
    ensures |s.fifo| <= 100 && |s.channel| <= 100
    decreases |steps|
  {
    hide Inv, Apply, Enabled;
    if steps == [] {
    } else {
      var n := |steps| - 1;
      var s0 := LastStep(c, steps, s);
      QueuesAreBounded(c, steps[..n], s0);
      ReachableIsFine(c, steps[..n], s0);
      StepKeepsBounds(c, s0, steps[n]);
    }
  }

  lemma StepKeepsBounds(c: Config, s: State, step: Step)
    requires Inv(c, s) && Enabled(c, s, step) && |s.fifo| <= 100 && |s.channel| <= 100
    ensures |Apply(c, s, step).fifo| <= 100 && |Apply(c, s, step).channel| <= 100
  {
    hide Core, RepliesAt, TickerFits, Staged, DoRead, DoWrite, CanRead, CanWrite, MaySend, Established, SetPlace,
      Number, RespId;
    match step
    case Writing(w) =>
      WriteShape(c, s, w);
      WriteShrinks(c, s, w);
    case Reading(r) => ReadKeepsBounds(c, s, r);
    case _ => SetPlaceShape();
  }

  lemma WriteShrinks(c: Config, s: State, w: WriteStep)
    requires CanWrite(s, w)
    ensures |DoWrite(c, s, w).fifo| <= |s.fifo|
  {
    hide SetPlace, Number;
    SetPlaceShape();
  }

  lemma ReadKeepsBounds(c: Config, s: State, r: ReadStep)
    requires Inv(c, s) && CanRead(c, s, r) && |s.fifo| <= 100 && |s.channel| <= 100
    ensures |DoRead(c, s, r).fifo| <= 100 && |DoRead(c, s, r).channel| <= 100
  {
    hide Core, RepliesAt, TickerFits, Staged, DispatchPdu, SweepAll, SettleBeat, Lose, Route;
    match r
    case Receive(pdu, decodes) =>
      DispatchIsSound(c, s, pdu, decodes);
      DispatchForwards(c, s, pdu, decodes);
    case EndPass(order) =>
      EndPassIsLate(c, s, order);
      CoreIgnoresLastRead(c, s);
      SweepKeeps(c, s.(lastRead := s.now), order);
    case Settle => SettleShape(c, s, s.reader.number);
    case PushReply => LoseShape(s, Reply(s.reader.reply));
    case Abort =>
      if s.reader.Pushing? {
        LoseShape(s, Reply(s.reader.reply));
      }
    case _ =>
  }

  lemma MatchForwards(c: Config, s: State, pdu: Pdu, decodes: bool, bad: Option<u32>, closes: bool)
    ensures Match(c, s, pdu, decodes, bad, closes).channel == s.channel
  {
    hide IsLate, IsAwaited, SetPlace;
    SetPlaceShape();
  }

  lemma DispatchForwards(c: Config, s: State, pdu: Pdu, decodes: bool)
    ensures DispatchPdu(c, s, pdu, decodes).channel ==
            s.channel +
            if Route(c.side, s.bind, pdu.id).Heartbeat? && !s.ticker.Dead? then [pdu.number] else []
  {
    hide Route, Match;
    match Route(c.side, s.bind, pdu.id)
    case Correlate(bad, closes) => MatchForwards(c, s, pdu, decodes, Some(bad), closes);
    case CorrelateNack => MatchForwards(c, s, pdu, decodes, None, false);
    case _ =>
  }

  // ---- the ticker ----------------------------------------------------------

  /** One round of the ticker, from its interval to its enquire_link in the FIFO. */
  lemma TickerAsks(c: Config, s: State)
    requires s.ticker.Asleep? && s.alive && PhaseOf(s.reader) == During && !s.writer.Stopped? && |s.fifo| < 100
    ensures var k := |s.calls|;
            var run := [Ticking(Wake), Ticking(Send)];
            && CanRun(c, s, run)
            && Run(c, s, run) ==
               s.(calls := s.calls + [Call(0x0000_0015, Queued, Waiting)], fifo := s.fifo + [Ask(k)],
                  ticker := Ticker.Listening(k, s.now), asked := s.asked + [Number(c, k)])
  {
    hide Number;
    var run := [Ticking(Wake), Ticking(Send)];
    assert run[1..] == [Ticking(Send)] && run[1..][1..] == [];
    var s1 := Apply(c, s, run[0]);
    assert s1 == Allocate(s, 0x0000_0015).(ticker := Numbered(|s.calls|));
    assert CanRun(c, s1, run[1..]);
    assert s1.calls[|s.calls| := Call(0x0000_0015, Queued, Waiting)] == s.calls + [Call(0x0000_0015, Queued, Waiting)];
  }

  /** Hearing its own number lets the ticker sleep until the next interval; any other ends it. */
  lemma HearingIff(c: Config, s: State, k: nat, since: nat)
    requires s.ticker == Ticker.Listening(k, since) && s.channel != []
    ensures CanTick(c, s, Hear)
    ensures var s' := DoTick(c, s, Hear);
            && s'.channel == s.channel[1..] && s'.heard == s.heard + [s.channel[0]]
            && s'.ticker == if s.channel[0] == Number(c, k) then Ticker.Asleep else Ticker.Dead
  {
    hide Number;
  }

  /**
   * The ticker ends exactly when it was told to stop, got no answer within the timer,
   * heard a number that is not its own, found the writer stopped, or found the session
   * ended; in no other step of any task.
   */
  lemma TickerDiesIff(c: Config, steps: seq<Step>, s: State, step: Step)
    requires Reaches(c, steps, s) && Enabled(c, s, step) && !s.ticker.Dead?
    ensures Apply(c, s, step).ticker.Dead? <==>
            || (step == Ticking(Die) && s.aborted)
            || (step == Ticking(Expire) && s.ticker.Listening? && s.channel == []
                && s.now >= s.ticker.since + c.responseTimer)
            || (step == Ticking(Hear) && s.ticker.Listening? && s.channel != []
                && s.channel[0] != Number(c, s.ticker.call))
            || (step == Ticking(Send) && s.writer.Stopped?)
            || (step == Ticking(Wake) && !s.alive)
  {
    ReachableIsFine(c, steps, s);
    hide Reaches, Core, RepliesAt, TickerFits, Staged, DoWrite, DoRead, DoCall, DoTick, CanWrite, CanRead, CanCall,
      CanTick, MaySend, Number, Established, Open;
    match step
    case Opening(o) => OpenShape(c, s, o);
    case Writing(w) => WriteShape(c, s, w);
    case Calling(k, act) => CallShape(s, k, act);
    case Reading(r) => ReadLeavesTicker(c, s, r);
    case Ticking(t) => TickDiesIff(c, s, t);
    case _ =>
  }

  lemma TickDiesIff(c: Config, s: State, t: TickStep)
    requires CanTick(c, s, t) && !s.ticker.Dead?
    ensures DoTick(c, s, t).ticker.Dead? <==>
            || (t.Die? && s.aborted)
            || (t.Expire? && s.ticker.Listening? && s.channel == [] && s.now >= s.ticker.since + c.responseTimer)
            || (t.Hear? && s.ticker.Listening? && s.channel != [] && s.channel[0] != Number(c, s.ticker.call))
            || (t.Send? && s.writer.Stopped?)
            || (t.Wake? && !s.alive)
  {
    hide SetPlace, Number;
    SetPlaceShape();
  }

  lemma ReadLeavesTicker(c: Config, s: State, r: ReadStep)
    requires Inv(c, s) && CanRead(c, s, r)
    ensures DoRead(c, s, r).ticker == s.ticker
  {
    hide Core, RepliesAt, TickerFits, Staged, DispatchPdu, SweepAll, SettleBeat, Lose, Owes;
    match r
    case Receive(pdu, decodes) => DispatchIsSound(c, s, pdu, decodes);
    case EndPass(order) =>
      EndPassIsLate(c, s, order);
      CoreIgnoresLastRead(c, s);
      SweepKeeps(c, s.(lastRead := s.now), order);
    case Settle => SettleShape(c, s, s.reader.number);
    case PushReply => LoseShape(s, Reply(s.reader.reply));
    case Abort =>
      if s.reader.Pushing? {
        LoseShape(s, Reply(s.reader.reply));
      }
    case _ =>
  }

  // ---- the loop ------------------------------------------------------------

  /** Why the read loop ends in a step. */
  predicate EndsLoop(c: Config, s: State, step: Step) {
    match step
    case Opening(Tell) => !s.alive
    case Reading(Eof) => true
    case Reading(BadLength) => true
    case Reading(PushReply) => s.writer.Stopped? || (s.reader.Pushing? && s.reader.last)
    case Reading(Check) => s.ticker.Dead? || s.now > s.lastRead + c.inactivityTimer || !s.alive
    case Reading(Receive(pdu, decodes)) =>
      && c.side.Client? && pdu.id == 0x8000_0006 && decodes && pdu.number in s.pending
      && s.now - s.pending[pdu.number].since <= c.responseTimer
    case _ => false
  }

  /**
   * The loop ends exactly for end of file or a bad length, a stopped writer, an unbind
   * answered, a client's unbind answered in time, a finished ticker, inactivity beyond
   * its timer, or being told to stop.
   */
  lemma LoopEndsIff(c: Config, steps: seq<Step>, s: State, step: Step)
    requires Reaches(c, steps, s) && Enabled(c, s, step) && !s.reader.Leaving?
    ensures Apply(c, s, step).reader.Leaving? <==> EndsLoop(c, s, step)
  {
    ReachableIsFine(c, steps, s);
    hide Reaches, Core, RepliesAt, TickerFits, Staged, DoWrite, DoRead, DoCall, DoTick, CanWrite, CanRead, CanCall,
      CanTick, MaySend, Established;
    match step
    case Writing(w) => WriteShape(c, s, w);
    case Calling(k, act) => CallShape(s, k, act);
    case Ticking(t) => TickShape(c, s, t);
    case Reading(r) => ReadEndsIff(c, s, r);
    case _ =>
  }

  lemma ReadEndsIff(c: Config, s: State, r: ReadStep)
    requires Inv(c, s) && CanRead(c, s, r) && !s.reader.Leaving?
    ensures DoRead(c, s, r).reader.Leaving? <==> EndsLoop(c, s, Reading(r))
  {
    hide Core, RepliesAt, TickerFits, Staged, DispatchPdu, SweepAll, SettleBeat, Lose;
    match r
    case Receive(pdu, decodes) => DispatchEndsIff(c, s, pdu, decodes);
    case EndPass(order) =>
      EndPassIsLate(c, s, order);
      CoreIgnoresLastRead(c, s);
      SweepKeeps(c, s.(lastRead := s.now), order);
    case Settle => SettleShape(c, s, s.reader.number);
    case PushReply => LoseShape(s, Reply(s.reader.reply));
    case _ =>
  }

  lemma MatchEndsIff(c: Config, s: State, pdu: Pdu, decodes: bool, bad: Option<u32>, closes: bool)
    requires s.reader.InPass?
    ensures Match(c, s, pdu, decodes, bad, closes).reader.Leaving? <==>
            closes && decodes && pdu.number in s.pending && s.now - s.pending[pdu.number].since <= c.responseTimer
  {
    hide IsAwaited, SetPlace;
    SetPlaceShape();
  }

  lemma DispatchEndsIff(c: Config, s: State, pdu: Pdu, decodes: bool)
    requires s.reader.InPass?
    ensures DispatchPdu(c, s, pdu, decodes).reader.Leaving? <==> EndsLoop(c, s, Reading(Receive(pdu, decodes)))
  {
    LookupIff(c.side, s.bind, pdu.id);
    UnbindRespIsLookedUp(c.side, s.bind);
    hide Route, Match, Correlated;
    match Route(c.side, s.bind, pdu.id)
    case Correlate(bad, closes) => MatchEndsIff(c, s, pdu, decodes, Some(bad), closes);
    case CorrelateNack => MatchEndsIff(c, s, pdu, decodes, None, false);
    case _ =>
  }

  lemma UnbindRespIsLookedUp(side: Side, bind: Bind)
    ensures Correlated(side, bind, 0x8000_0006) <==> side.Client?
  {}

  /** Each turn of the loop, outside dispatch. */
  lemma LoopTurns(c: Config, s: State)
    ensures s.reader.AtRead? ==>
              && CanRead(c, s, Data) && DoRead(c, s, Data) == s.(reader := InPass)
              && CanRead(c, s, Eof) && DoRead(c, s, Eof) == s.(reader := Leaving)
              && CanRead(c, s, Timeout) && DoRead(c, s, Timeout) == s.(reader := Checking)
    ensures s.reader.Checking? ==>
              && CanRead(c, s, Check)
              && DoRead(c, s, Check) == s.(reader := if EndsLoop(c, s, Reading(Check)) then Leaving else AtRead)
    ensures s.reader.Pushing? && !s.writer.Stopped? && |s.fifo| < 100 ==>
              && CanRead(c, s, PushReply)
              && DoRead(c, s, PushReply) ==
                 s.(fifo := s.fifo + [Reply(s.reader.reply)], reader := if s.reader.last then Leaving else InPass)
    ensures s.reader.Leaving? ==>
              && CanRead(c, s, Close) && DoRead(c, s, Close) == s.(reader := Told, trail := Then(s.trail, Unbinding))
              && CanRead(c, DoRead(c, s, Close), Retire)
              && DoRead(c, DoRead(c, s, Close), Retire) ==
                 s.(reader := Closed, trail := Then(s.trail, Unbinding), aborted := true, alive := false)
  {}

  /** A pass ends with the tests; only a client that was told to stop is cut off. */
  lemma PassEnds(c: Config, s: State, order: seq<u32>)
    requires Core(c, s) && CanRead(c, s, EndPass(order))
    ensures var s' := DoRead(c, s, EndPass(order)); s'.reader.Checking? && s'.lastRead == s.now
    ensures CanRead(c, s, BadLength) && DoRead(c, s, BadLength) == s.(reader := Leaving)
  {
    hide Core, SweepAll;
    EndPassIsLate(c, s, order);
    CoreIgnoresLastRead(c, s);
    SweepKeeps(c, s.(lastRead := s.now), order);
  }

  lemma StoppingIff(c: Config, s: State)
    ensures Enabled(c, s, Stopping) <==> c.side.Client?
    ensures c.side.Client? ==> Apply(c, s, Stopping) == s.(alive := false)
    ensures CanRead(c, s, Abort) <==>
            c.side.Client? && !s.alive && PhaseOf(s.reader) == During && !s.reader.Closed?
    ensures CanRead(c, s, Abort) ==>
              DoRead(c, s, Abort) ==
              s.(reader := Aborted,
                 lost := s.lost + if s.reader.Pushing? then multiset{s.reader.reply} else multiset{})
  {
    assert s.lost + multiset{} == s.lost;
  }

  /** The time of the last read is when the bind succeeded, and after that when a pass ended. */
  lemma LastReadIff(c: Config, steps: seq<Step>, s: State, step: Step)
    requires Reaches(c, steps, s) && Enabled(c, s, step)
    ensures Apply(c, s, step).lastRead ==
            if (step.Reading? && step.read.EndPass?)
               || (step.Opening? && exists b :: Succeeds(c.side, step.open, b)) then s.now
            else s.lastRead
  {
    ReachableIsFine(c, steps, s);
    hide Reaches, Core, RepliesAt, TickerFits, Staged, DoWrite, DoRead, DoCall, DoTick, CanWrite, CanRead, CanCall,
      CanTick, MaySend, Established, Succeeds;
    match step
    case Opening(o) => OpenReads(c, s, o);
    case Writing(w) => WriteShape(c, s, w);
    case Calling(k, act) => CallShape(s, k, act);
    case Ticking(t) => TickShape(c, s, t);
    case Reading(r) => ReadReads(c, s, r);
    case _ =>
  }

  lemma OpenReads(c: Config, s: State, o: OpenStep)
    requires CanOpen(c, s, o)
    ensures Open(s, o).lastRead == if exists b :: Succeeds(c.side, o, b) then s.now else s.lastRead
  {
    hide Established, Succeeds;
    forall b: Bind ensures Established(o) == Some(b) <==> Succeeds(c.side, o, b) {
      SucceedsIff(c, s, o, b);
    }
    if o.Tell? {
      TellSucceedsNot(c, o);
    }
  }

  lemma TellSucceedsNot(c: Config, o: OpenStep)
    requires o.Tell?
    ensures forall b :: !Succeeds(c.side, o, b)
  {}

  lemma ReadReads(c: Config, s: State, r: ReadStep)
    requires Inv(c, s) && CanRead(c, s, r)
    ensures DoRead(c, s, r).lastRead == if r.EndPass? then s.now else s.lastRead
  {
    hide Core, RepliesAt, TickerFits, Staged, DispatchPdu, SweepAll, SettleBeat, Lose;
    match r
    case Receive(pdu, decodes) => DispatchReads(c, s, pdu, decodes);
    case EndPass(order) =>
      EndPassIsLate(c, s, order);
      CoreIgnoresLastRead(c, s);
      SweepKeeps(c, s.(lastRead := s.now), order);
    case Settle => SettleShape(c, s, s.reader.number);
    case PushReply => LoseShape(s, Reply(s.reader.reply));
    case Abort =>
      if s.reader.Pushing? {
        LoseShape(s, Reply(s.reader.reply));
      }
    case _ =>
  }

  lemma MatchReads(c: Config, s: State, pdu: Pdu, decodes: bool, bad: Option<u32>, closes: bool)
    ensures Match(c, s, pdu, decodes, bad, closes).lastRead == s.lastRead
  {
    hide IsLate, IsAwaited, SetPlace;
    SetPlaceShape();
  }

  lemma DispatchReads(c: Config, s: State, pdu: Pdu, decodes: bool)
    ensures DispatchPdu(c, s, pdu, decodes).lastRead == s.lastRead
  {
    hide Route, Match;
    match Route(c.side, s.bind, pdu.id)
    case Correlate(bad, closes) => MatchReads(c, s, pdu, decodes, Some(bad), closes);
    case CorrelateNack => MatchReads(c, s, pdu, decodes, None, false);
    case _ =>
  }
}

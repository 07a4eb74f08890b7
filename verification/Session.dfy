// One SMPP session endpoint as a step system. Application callers, the writer
// task, the enquire_link ticker, the read loop and the handler tasks it spawns
// share a sequence counter, a bounded FIFO of frames, the pending-request table
// and a clock; each step is one atomic section of one task. The peer is the
// choice of PDUs received.

module Session {
  import opened Bytes
  import opened Headers
  import opened Dispatch
  import opened Pending

  const CHANNEL_CAPACITY: nat := 100

  datatype Config = Config(side: Side, responseTimer: nat, inactivityTimer: nat)

  /** The first number a session hands out: the client's bind request has used 1. */
  function FirstNumber(side: Side): u32 { if side.Server? then 1 else 2 }

  /** The number of the k-th allocation, counted from 0, with the counter's wrap-around. */
  function Number(c: Config, k: nat): u32 { Low32(FirstNumber(c.side) + k) }

  datatype Pdu = Pdu(id: u32, number: u32)

  /** A queued WriteFrame: a request of ours, by allocation index, or a reply. */
  datatype Frame = Ask(call: nat) | Reply(pdu: Pdu)

  /** How a request of ours ended. */
  datatype Outcome =
    | Delivered(pdu: Pdu)      // a response completed the caller's oneshot
    | Answered                 // a response removed the entry, and nobody was waiting
    | Undecodable              // a malformed response removed the entry
    | Late                     // a response after the timer: on_timeout
    | Swept                    // no response before the timer: on_timeout
    | Overwritten(rival: nat)  // another call with the same number was registered
    | WriteFailed              // the write failed and the entry was taken back
    | Discarded                // the session closed before it was registered

  datatype Place = InHand | Queued | Held | Registered | Finished(outcome: Outcome)

  datatype Caller = Waiting | Got(pdu: Pdu) | GaveUp

  datatype Call = Call(id: u32, place: Place, caller: Caller)

  /** enquire_link and alert_notification are registered without a oneshot. */
  predicate HasOneshot(call: Call) { call.id != ENQUIRE_LINK && call.id != ALERT_NOTIFICATION }

  datatype Writer = Idle | Holding(frame: Frame) | Inserted(call: nat) | Failing(call: nat) | Stopped

  datatype Ticker = Asleep | Numbered(call: nat) | Listening(call: nat, since: nat) | Dead

  datatype Reader =
    | Unbound                          // OPEN: no bind yet
    | Refused                          // the bind failed
    | Accepted                         // the bind succeeded; the listener is not told yet
    | AtRead                           // waiting for the socket
    | InPass                           // draining the buffer of complete PDUs
    | Pushing(reply: Pdu, last: bool)  // waiting for room in the FIFO
    | Settling(number: u32)            // an enquire_link_resp is passed on, its entry not yet removed
    | Checking                         // the tests behind every read or read timeout
    | Leaving                          // out of the loop
    | Told                             // on_esme_unbound, on_smsc_unbound was called
    | Closed                           // CLOSED
    | Aborted                          // the client's stop() cut the loop off

  /** What the listener saw and the loop decided, oldest first. */
  datatype Event =
    | BindAnswered(success: bool)
    | Bound(bind: Bind)
    | Received(pdu: Pdu, handled: bool, owed: Option<Pdu>)
    | Resolved(call: nat, number: u32, outcome: Outcome, age: int)
    | Unmatched(number: u32)
    | Unbinding

  datatype Trail = Start | Then(before: Trail, event: Event)

  datatype State = State(
    bind: Bind,
    now: nat,
    lastRead: nat,
    alive: bool,                 // false once the loop has ended, or the client was told to stop
    calls: seq<Call>,            // by allocation index; |calls| is the counter
    fifo: seq<Frame>,
    writer: Writer,
    pending: Table,
    ticker: Ticker,
    aborted: bool,               // the ticker was told to stop; it does so at its next await
    channel: seq<u32>,           // enquire_link_resp numbers on their way to the ticker
    reader: Reader,
    handlers: multiset<Pdu>,     // the replies of handler tasks still running
    written: seq<Frame>,         // everything put on the wire
    lost: multiset<Pdu>,         // replies that never reached it
    asked: seq<u32>,             // numbers of the enquire_links the ticker sent
    heard: seq<u32>,             // numbers the ticker read from its channel
    forwarded: seq<u32>,         // numbers put into its channel
    trail: Trail)

  function Initial(): State {
    State(RX, 0, 0, true, [], [], Idle, map[], Asleep, false, [], Unbound,
          multiset{}, [], multiset{}, [], [], [], Start)
  }

  predicate IsOpen(s: State) { !s.reader.Unbound? && !s.reader.Refused? && !s.reader.Accepted? }

  predicate HasRoom(s: State) { |s.fifo| < CHANNEL_CAPACITY && !s.writer.Stopped? }

  /** The receiving end of the call's oneshot is still there. */
  predicate IsAwaited(s: State, k: nat) {
    k < |s.calls| && HasOneshot(s.calls[k]) && s.calls[k].caller.Waiting?
  }

  function Log(s: State, e: Event): State { s.(trail := Then(s.trail, e)) }

  function SetPlace(s: State, k: nat, place: Place): State {
    if k < |s.calls| then s.(calls := s.calls[k := s.calls[k].(place := place)]) else s
  }

  function SetCaller(s: State, k: nat, caller: Caller): State
    requires k < |s.calls|
  {
    s.(calls := s.calls[k := s.calls[k].(caller := caller)])
  }

  /** Hands out the next number; the call is in its caller's hand. */
  function Allocate(s: State, id: u32): State {
    s.(calls := s.calls + [Call(id, InHand, Waiting)])
  }

  function Enqueue(s: State, f: Frame): State { s.(fifo := s.fifo + [f]) }

  function Lose(s: State, f: Frame): State {
    match f
    case Ask(k) => SetPlace(s, k, Finished(Discarded))
    case Reply(pdu) => s.(lost := s.lost + multiset{pdu})
  }

  // ---- steps ---------------------------------------------------------------

  datatype Step =
    | Elapse(ms: nat)
    | Stopping                   // the client's stop()
    | Opening(open: OpenStep)
    | Calling(k: nat, act: CallAct)
    | Asking(id: u32)
    | Writing(write: WriteStep)
    | Ticking(tick: TickStep)
    | Reading(read: ReadStep)
    | Handling(reply: Pdu)       // a handler task ends: its reply is queued, or lost

  datatype OpenStep =
    | ServerBind(id: u32, decodes: bool, accepted: bool, written: bool)
    | ClientBind(wanted: Bind, id: u32, status: u32, number: u32)
    | Tell                       // on_esme_bound, on_smsc_bound

  datatype CallAct = Push | Return | GiveUp

  datatype WriteStep = Dequeue | Insert | Write(ok: bool) | Remove | Halt

  datatype TickStep = Wake | Send | Hear | Expire | Die

  datatype ReadStep =
    | Data | Eof | Timeout
    | Receive(pdu: Pdu, decodes: bool)
    | BadLength
    | PushReply
    | Settle
    | EndPass(order: seq<u32>)
    | Check
    | Close
    | Retire
    | Abort

  // ---- opening -------------------------------------------------------------

  function BindOf(id: u32): Option<Bind> {
    if id == BIND_RECEIVER then Some(RX)
    else if id == BIND_TRANSMITTER then Some(TX)
    else if id == BIND_TRANSCEIVER then Some(TRX)
    else None
  }

  predicate CanOpen(c: Config, s: State, o: OpenStep) {
    match o
    case ServerBind(_, _, _, _) => s.reader.Unbound? && c.side.Server?
    case ClientBind(_, _, _, _) => s.reader.Unbound? && c.side.Client?
    case Tell => s.reader.Accepted?
  }

  /** The bind the step establishes, when it does. */
  function Established(o: OpenStep): Option<Bind> {
    match o
    case ServerBind(id, decodes, accepted, written) =>
      if decodes && accepted && written then BindOf(id) else None
    case ClientBind(wanted, id, status, number) =>
      if number == 1 && status == ESME_ROK && id >= 0x8000_0000 && BindOf(id - 0x8000_0000) == Some(wanted)
      then Some(wanted) else None
    case Tell => None
  }

  function Open(s: State, o: OpenStep): State {
    if o.Tell? then Log(s, Bound(s.bind)).(reader := if s.alive then AtRead else Leaving)
    else match Established(o)
      case Some(bind) => Log(s, BindAnswered(true)).(bind := bind, reader := Accepted, lastRead := s.now)
      case None => Log(s, BindAnswered(false)).(reader := Refused)
  }

  // ---- callers -------------------------------------------------------------

  predicate CanAsk(c: Config, s: State, id: u32) {
    IsOpen(s) && id != ENQUIRE_LINK && MaySend(c.side, s.bind, id)
  }

  predicate CanCall(s: State, k: nat, act: CallAct) {
    && k < |s.calls| && s.calls[k].id != ENQUIRE_LINK
    && var call := s.calls[k];
       match act
       case Push => call.place.InHand? && (HasRoom(s) || s.writer.Stopped?)
       case Return => HasOneshot(call) && call.caller.Waiting? && call.place.Finished? && call.place.outcome.Delivered?
       case GiveUp => HasOneshot(call) && call.caller.Waiting? && !call.place.InHand?
                      && !(call.place.Finished? && call.place.outcome.Delivered?)
  }

  /**
   * A caller whose oneshot was completed returns the response if it is of the type
   * it asked for. GiveUp covers its timer and the oneshot being dropped.
   */
  function DoCall(s: State, k: nat, act: CallAct): State
    requires CanCall(s, k, act)
  {
    match act
    case Push =>
      if s.writer.Stopped? then Lose(s, Ask(k)) else Enqueue(SetPlace(s, k, Queued), Ask(k))
    case Return =>
      var pdu := s.calls[k].place.outcome.pdu;
      SetCaller(s, k, if pdu.id == RespId(s.calls[k].id) then Got(pdu) else GaveUp)
    case GiveUp => SetCaller(s, k, GaveUp)
  }

  // ---- the writer task -----------------------------------------------------

  predicate CanWrite(s: State, w: WriteStep) {
    match w
    case Dequeue => s.writer.Idle? && s.fifo != []
    case Insert => s.writer.Holding? && s.writer.frame.Ask?
    case Write(_) => s.writer.Inserted? || (s.writer.Holding? && s.writer.frame.Reply?)
    case Remove => s.writer.Failing?
    case Halt => !s.alive
  }

  /** Registers call k; an entry under the same number is replaced and its oneshot dropped. */
  function Register(c: Config, s: State, k: nat): State {
    var n := Number(c, k);
    var s1 := if n in s.pending then SetPlace(s, s.pending[n].call, Finished(Overwritten(k))) else s;
    SetPlace(s1, k, Registered).(pending := s.pending[n := Entry(s.now, k)], writer := Inserted(k))
  }

  function DoWrite(c: Config, s: State, w: WriteStep): State
    requires CanWrite(s, w)
  {
    match w
    case Dequeue =>
      var f := s.fifo[0];
      var s' := s.(fifo := s.fifo[1..], writer := Holding(f));
      if f.Ask? then SetPlace(s', f.call, Held) else s'
    case Insert => Register(c, s, s.writer.frame.call)
    case Write(ok) =>
      if s.writer.Inserted? then
        if ok then s.(written := s.written + [Ask(s.writer.call)], writer := Idle)
        else s.(writer := Failing(s.writer.call))
      else if ok then s.(written := s.written + [s.writer.frame], writer := Idle)
      else Lose(s, s.writer.frame).(writer := Idle)
    case Remove =>
      var k := s.writer.call;
      var n := Number(c, k);
      var s' := if n in s.pending then SetPlace(s, k, Finished(WriteFailed)) else s;
      s'.(pending := s.pending - {n}, writer := Idle)
    case Halt =>
      (if s.writer.Holding? then Lose(s, s.writer.frame) else s).(writer := Stopped)
  }

  // ---- the enquire_link ticker ---------------------------------------------

  predicate CanTick(c: Config, s: State, t: TickStep) {
    match t
    case Wake => s.ticker.Asleep? && (IsOpen(s) || s.reader.Accepted?)
    case Send => s.ticker.Numbered? && (HasRoom(s) || s.writer.Stopped?)
    case Hear => s.ticker.Listening? && s.channel != []
    case Expire => s.ticker.Listening? && s.channel == [] && s.now - s.ticker.since >= c.responseTimer
    case Die => s.aborted
  }

  function DoTick(c: Config, s: State, t: TickStep): State
    requires CanTick(c, s, t)
  {
    match t
    case Wake =>
      if !s.alive then s.(ticker := Dead)
      else Allocate(s, ENQUIRE_LINK).(ticker := Numbered(|s.calls|))
    case Send =>
      var k := s.ticker.call;
      if s.writer.Stopped? then Lose(s, Ask(k)).(ticker := Dead)
      else Enqueue(SetPlace(s, k, Queued), Ask(k)).(ticker := Listening(k, s.now), asked := s.asked + [Number(c, k)])
    case Hear =>
      var n := s.channel[0];
      s.(channel := s.channel[1..], heard := s.heard + [n],
         ticker := if n == Number(c, s.ticker.call) then Asleep else Dead)
    case Expire => s.(ticker := Dead)
    case Die => s.(ticker := Dead)
  }

  // ---- the read loop -------------------------------------------------------

  /** Takes the entry under `n` out of the table, for good. */
  function Resolve(s: State, n: u32, outcome: Outcome): State
    requires n in s.pending
  {
    var e := s.pending[n];
    Log(SetPlace(s, e.call, Finished(outcome)).(pending := s.pending - {n}),
        Resolved(e.call, n, outcome, s.now - e.since))
  }

  function SendBack(s: State, reply: Pdu, last: bool): State { s.(reader := Pushing(reply, last)) }

  /** A response arrived: match it against the table. `bad` answers one that does not decode. */
  function Match(c: Config, s: State, pdu: Pdu, decodes: bool, bad: Option<u32>, closes: bool): State {
    var n := pdu.number;
    if n !in s.pending then
      Log(Log(s, Received(pdu, false, None)), Unmatched(n))
    else if IsLate(s.pending[n], s.now, c.responseTimer) then
      Resolve(Log(s, Received(pdu, false, None)), n, Late)
    else if decodes then
      var outcome := if IsAwaited(s, s.pending[n].call) then Delivered(pdu) else Answered;
      Resolve(Log(s, Received(pdu, false, None)), n, outcome).(reader := if closes then Leaving else InPass)
    else match bad
      case None => Resolve(Log(s, Received(pdu, false, None)), n, Undecodable)
      case Some(id) =>
        SendBack(Resolve(Log(s, Received(pdu, false, Some(Pdu(id, n)))), n, Undecodable), Pdu(id, n), false)
  }

  /** An enquire_link_resp arrived: pass its number on, if the ticker is there. */
  function Beat(s: State, pdu: Pdu): State {
    var n := pdu.number;
    var s1 := if s.ticker.Dead? then s else s.(channel := s.channel + [n], forwarded := s.forwarded + [n]);
    Log(s1, Received(pdu, false, None)).(reader := Settling(n))
  }

  /** And after that take its entry out. */
  function SettleBeat(c: Config, s: State, n: u32): State {
    if n !in s.pending then Log(s, Unmatched(n)).(reader := InPass)
    else
      var outcome := if IsLate(s.pending[n], s.now, c.responseTimer) then Late else Answered;
      Resolve(s, n, outcome).(reader := InPass)
  }

  function DispatchPdu(c: Config, s: State, pdu: Pdu, decodes: bool): State {
    var n := pdu.number;
    match Route(c.side, s.bind, pdu.id)
    case Handle(ok, bad) =>
      if decodes then
        Log(s, Received(pdu, true, Some(Pdu(ok, n)))).(handlers := s.handlers + multiset{Pdu(ok, n)})
      else SendBack(Log(s, Received(pdu, false, Some(Pdu(bad, n)))), Pdu(bad, n), false)
    case Echo(ok, bad) =>
      var reply := Pdu(if decodes then ok else bad, n);
      SendBack(Log(s, Received(pdu, false, Some(reply))), reply, false)
    case Inform(bad) =>
      if decodes then Log(s, Received(pdu, true, None))
      else SendBack(Log(s, Received(pdu, false, Some(Pdu(bad, n)))), Pdu(bad, n), false)
    case Heartbeat => Beat(s, pdu)
    case Leave(ok, bad) =>
      var reply := Pdu(if decodes then ok else bad, n);
      SendBack(Log(s, Received(pdu, decodes, Some(reply))), reply, true).(aborted := true)
    case Correlate(bad, closes) => Match(c, s, pdu, decodes, Some(bad), closes)
    case CorrelateNack => Match(c, s, pdu, decodes, None, false)
    case Refuse => SendBack(Log(s, Received(pdu, false, Some(Pdu(GENERIC_NACK, n)))), Pdu(GENERIC_NACK, n), false)
  }

  /** Removes the entries in `order` one after the other, notifying each. */
  function SweepAll(s: State, order: seq<u32>): State
    decreases |order|
  {
    if order == [] then s
    else
      var n := order[0];
      SweepAll(if n in s.pending then Resolve(s, n, Swept) else s, order[1..])
  }

  ghost predicate CanRead(c: Config, s: State, r: ReadStep) {
    match r
    case Data => s.reader.AtRead?
    case Eof => s.reader.AtRead?
    case Timeout => s.reader.AtRead?
    case Receive(pdu, _) =>
      s.reader.InPass?
      && (Route(c.side, s.bind, pdu.id).Heartbeat? ==> s.ticker.Dead? || |s.channel| < CHANNEL_CAPACITY)
    case BadLength => s.reader.InPass?
    case PushReply => s.reader.Pushing? && (HasRoom(s) || s.writer.Stopped?)
    case Settle => s.reader.Settling?
    case EndPass(order) => s.reader.InPass? && Enumerates(order, Expired(s.pending, s.now, c.responseTimer))
    case Check => s.reader.Checking?
    case Close => s.reader.Leaving?
    case Retire => s.reader.Told?
    case Abort => c.side.Client? && !s.alive && IsOpen(s) && !s.reader.Closed?
  }

  function DoRead(c: Config, s: State, r: ReadStep): State {
    match r
    case Data => s.(reader := InPass)
    case Eof => s.(reader := Leaving)
    case Timeout => s.(reader := Checking)
    case Receive(pdu, decodes) => DispatchPdu(c, s, pdu, decodes)
    case BadLength => s.(reader := Leaving)
    case PushReply =>
      if !s.reader.Pushing? then s
      else
        var s' := if s.writer.Stopped? then Lose(s, Reply(s.reader.reply)) else Enqueue(s, Reply(s.reader.reply));
        s'.(reader := if s.reader.last || s.writer.Stopped? then Leaving else InPass)
    case Settle => if s.reader.Settling? then SettleBeat(c, s, s.reader.number) else s
    case EndPass(order) => SweepAll(s.(lastRead := s.now), order).(reader := Checking)
    case Check =>
      s.(reader := if s.ticker.Dead? || s.now - s.lastRead > c.inactivityTimer || !s.alive then Leaving else AtRead)
    case Close => Log(s, Unbinding).(reader := Told)
    case Retire => s.(reader := Closed, aborted := true, alive := false)
    case Abort =>
      (if s.reader.Pushing? then Lose(s, Reply(s.reader.reply)) else s).(reader := Aborted)
  }

  // ---- runs ----------------------------------------------------------------

  ghost predicate Enabled(c: Config, s: State, step: Step) {
    match step
    case Elapse(_) => true
    case Stopping => c.side.Client?
    case Opening(o) => CanOpen(c, s, o)
    case Asking(id) => CanAsk(c, s, id)
    case Calling(k, act) => CanCall(s, k, act)
    case Writing(w) => CanWrite(s, w)
    case Ticking(t) => CanTick(c, s, t)
    case Reading(r) => CanRead(c, s, r)
    case Handling(reply) => reply in s.handlers && (HasRoom(s) || s.writer.Stopped?)
  }

  ghost function Apply(c: Config, s: State, step: Step): State
    requires Enabled(c, s, step)
  {
    match step
    case Elapse(ms) => s.(now := s.now + ms)
    case Stopping => s.(alive := false)
    case Opening(o) => Open(s, o)
    case Asking(id) => Allocate(s, id)
    case Calling(k, act) => DoCall(s, k, act)
    case Writing(w) => DoWrite(c, s, w)
    case Ticking(t) => DoTick(c, s, t)
    case Reading(r) => DoRead(c, s, r)
    case Handling(reply) =>
      var s' := s.(handlers := s.handlers - multiset{reply});
      if s.writer.Stopped? then Lose(s', Reply(reply)) else Enqueue(s', Reply(reply))
  }

  ghost predicate CanRun(c: Config, s: State, steps: seq<Step>)
    decreases |steps|
  {
    steps == [] || (Enabled(c, s, steps[0]) && CanRun(c, Apply(c, s, steps[0]), steps[1..]))
  }

  ghost function Run(c: Config, s: State, steps: seq<Step>): State
    requires CanRun(c, s, steps)
    decreases |steps|
  {
    if steps == [] then s else Run(c, Apply(c, s, steps[0]), steps[1..])
  }
}

// Runs that show three results are about something: numbers do wrap onto a live entry,
// a writer that wrote before registering would lose a response, and a live session
// does lose a reply.

module Witnesses {
  import opened Bytes
  import opened Headers
  import opened Dispatch
  import opened Pending
  import opened Session
  import opened Bookkeeping
  import opened Ledger
  import opened Losses
  import opened Runs
  import opened Safety

  /** The state just after a transceiver bind, on either side. */
  function JustBound(): State {
    var trail := Then(Then(Start, BindAnswered(true)), Bound(TRX));
    Initial().(bind := TRX, reader := AtRead, trail := trail)
  }

  lemma Binding(c: Config) returns (steps: seq<Step>)
    ensures Reaches(c, steps, JustBound())
  {
    var bind := if c.side.Server? then ServerBind(BIND_TRANSCEIVER, true, true, true)
                else ClientBind(TRX, RespId(BIND_TRANSCEIVER), ESME_ROK, 1);
    ReachesNext(c, [], Initial(), Opening(bind));
    var s1 := Apply(c, Initial(), Opening(bind));
    ReachesNext(c, [] + [Opening(bind)], s1, Opening(Tell));
    steps := [] + [Opening(bind)] + [Opening(Tell)];
  }

  /** n requests in their callers' hands. */
  function Fresh(n: nat): seq<Call> { seq(n, _ => Call(DATA_SM, InHand, Waiting)) }

  lemma {:induction false} AskMany(c: Config, s: State, n: nat) returns (steps: seq<Step>)
    requires IsOpen(s)
    requires MaySend(c.side, s.bind, DATA_SM)
    ensures CanRun(c, s, steps) && Run(c, s, steps) == s.(calls := s.calls + Fresh(n))
    decreases n
  {
    if n == 0 {
      steps := [];
      assert s.calls + Fresh(0) == s.calls;
    } else {
      var s1 := Apply(c, s, Asking(DATA_SM));
      var more := AskMany(c, s1, n - 1);
      steps := [Asking(DATA_SM)] + more;
      assert steps[1..] == more;
      assert s1.calls + Fresh(n - 1) == s.calls + Fresh(n);
    }
  }

  lemma Asked(c: Config, n: nat) returns (steps: seq<Step>)
    ensures Reaches(c, steps, JustBound().(calls := Fresh(n)))
  {
    hide Run, CanRun, Apply, Enabled;
    var bound := Binding(c);
    var more := AskMany(c, JustBound(), n);
    RunThen(c, Initial(), bound, more);
    steps := bound + more;
    assert [] + Fresh(n) == Fresh(n);
  }

  /** A request in its caller's hand comes into the idle writer's. */
  lemma PushedAndTaken(c: Config, steps: seq<Step>, s: State, k: nat) returns (more: seq<Step>, s': State)
    requires Reaches(c, steps, s) && s.writer.Idle? && s.fifo == []
    requires k < |s.calls| && s.calls[k].id == DATA_SM && s.calls[k].place.InHand?
    ensures Reaches(c, more, s')
    ensures s' == s.(calls := s.calls[k := s.calls[k].(place := Held)], writer := Holding(Ask(k)))
  {
    hide Reaches, Number;
    ReachesNext(c, steps, s, Calling(k, Push));
    var s1 := Apply(c, s, Calling(k, Push));
    more := steps + [Calling(k, Push)];
    assert s1.fifo == [Ask(k)];
    ReachesNext(c, more, s1, Writing(Dequeue));
    s' := Apply(c, s1, Writing(Dequeue));
    more := more + [Writing(Dequeue)];
    assert s'.calls == s.calls[k := s.calls[k].(place := Held)];
  }

  /** And from the writer's hand, with no entry under its number, onto the wire. */
  lemma Sent(c: Config, steps: seq<Step>, s: State, k: nat) returns (more: seq<Step>, s': State)
    requires Reaches(c, steps, s) && s.writer == Holding(Ask(k)) && k < |s.calls| && s.pending == map[]
    ensures Reaches(c, more, s')
    ensures s' == s.(calls := s.calls[k := s.calls[k].(place := Registered)], writer := Idle,
                     pending := map[Number(c, k) := Entry(s.now, k)], written := s.written + [Ask(k)])
  {
    hide Reaches, Number;
    ReachesNext(c, steps, s, Writing(Insert));
    var s1 := Apply(c, s, Writing(Insert));
    more := steps + [Writing(Insert)];
    ReachesNext(c, more, s1, Writing(Write(true)));
    s' := Apply(c, s1, Writing(Write(true)));
    more := more + [Writing(Write(true))];
  }

  /**
   * Wrapping onto a live entry happens: on either side a run of 2^32 + 1 requests gets
   * the writer to register one whose number another request on the wire still has,
   * and that one is ended by it.
   */
  lemma OverwritingHappens(c: Config) returns (steps: seq<Step>, s: State)
    ensures Reaches(c, steps, s) && CanWrite(s, Insert)
    ensures s.writer.frame.call == 0x1_0000_0000 && Ask(0) in s.written && IsRival(s, 0, 0x1_0000_0000)
    ensures |s.calls| > 0 && DoWrite(c, s, Insert).calls[0].place == Finished(Overwritten(0x1_0000_0000))
  {
    hide Reaches, Number, DoWrite, SetPlace;
    var wrap: nat := 0x1_0000_0000;
    steps := Asked(c, wrap + 1);
    var s0 := JustBound().(calls := Fresh(wrap + 1));
    var s1;
    steps, s1 := PushedAndTaken(c, steps, s0, 0);
    var s2;
    steps, s2 := Sent(c, steps, s1, 0);
    steps, s := PushedAndTaken(c, steps, s2, wrap);
    assert s.written == [] + [Ask(0)];
    InsertOverwritesIff(c, steps, s);
  }

  /**
   * Why the order matters. In a reachable state, were the writer to put its request on
   * the wire first, as in `early`, the response could be read before the entry exists
   * and be dropped, and the entry would then wait for a response that has come already.
   */
  lemma WritingFirstLosesResponse(c: Config) returns (steps: seq<Step>, s: State, response: Pdu)
    ensures Reaches(c, steps, s) && s.writer == Holding(Ask(0)) && |s.calls| > 0
    ensures response == Pdu(RespId(s.calls[0].id), Number(c, 0))
    ensures var early := s.(written := s.written + [Ask(0)]);
            && CanRead(c, early, Receive(response, true))
            && var read := DoRead(c, early, Receive(response, true));
               && read.trail == Then(Then(s.trail, Received(response, false, None)), Unmatched(response.number))
               && CanWrite(read, Insert)
               && response.number in DoWrite(c, read, Insert).pending
  {
    hide Reaches, Number;
    steps := Asked(c, 1);
    var s0 := JustBound().(calls := Fresh(1));
    var s1;
    steps, s1 := PushedAndTaken(c, steps, s0, 0);
    ReachesNext(c, steps, s1, Reading(Data));
    steps, s := steps + [Reading(Data)], Apply(c, s1, Reading(Data));
    response := Pdu(RespId(DATA_SM), Number(c, 0));
  }

  lemma Next(c: Config, steps: seq<Step>, s: State, step: Step) returns (more: seq<Step>, s': State)
    requires Reaches(c, steps, s) && Enabled(c, s, step)
    ensures s' == Apply(c, s, step) && Reaches(c, more, s')
  {
    hide Reaches, Apply, Enabled;
    ReachesNext(c, steps, s, step);
    more, s' := steps + [step], Apply(c, s, step);
  }

  /** A session that was sent an enquire_link and has queued its response. */
  function Echoing(reply: Pdu): State {
    var s := JustBound();
    s.(reader := InPass, fifo := [Reply(reply)],
       trail := Then(s.trail, Received(Pdu(ENQUIRE_LINK, reply.number), false, Some(reply))))
  }

  lemma EchoQueued(c: Config, number: u32) returns (steps: seq<Step>)
    ensures Reaches(c, steps, Echoing(Pdu(RespId(ENQUIRE_LINK), number)))
  {
    hide Reaches;
    steps := Binding(c);
    var s;
    steps, s := Next(c, steps, JustBound(), Reading(Data));
    steps, s := Next(c, steps, s, Reading(Receive(Pdu(ENQUIRE_LINK, number), true)));
    steps, s := Next(c, steps, s, Reading(PushReply));
    assert s.fifo == [Reply(Pdu(RespId(ENQUIRE_LINK), number))];
    assert s == Echoing(Pdu(RespId(ENQUIRE_LINK), number));
  }

  lemma WriteFails(c: Config, steps: seq<Step>, s: State, reply: Pdu) returns (more: seq<Step>, s': State)
    requires Reaches(c, steps, s) && s.writer.Idle? && s.fifo == [Reply(reply)]
    ensures Reaches(c, more, s') && s' == s.(fifo := [], lost := s.lost + multiset{reply})
  {
    hide Reaches, SetPlace, Number;
    more, s' := Next(c, steps, s, Writing(Dequeue));
    assert s'.fifo == [];
    more, s' := Next(c, more, s', Writing(Write(false)));
  }

  /** A reply is lost in a live session: an enquire_link_resp whose write fails. */
  lemma RepliesGetLost(c: Config, number: u32) returns (steps: seq<Step>, s: State, reply: Pdu)
    ensures Reaches(c, steps, s) && s.alive && s.reader.InPass?
    ensures reply == Pdu(RespId(ENQUIRE_LINK), number)
    ensures Owed(s.trail) == s.lost == FailedReplies(c, Initial(), steps) == multiset{reply}
    ensures s.written == [] && s.fifo == [] && s.writer.Idle? && s.handlers == multiset{}
  {
    hide Reaches, FailedReplies;
    reply := Pdu(RespId(ENQUIRE_LINK), number);
    steps := EchoQueued(c, number);
    steps, s := WriteFails(c, steps, Echoing(reply), reply);
    LiveRepliesAreKept(c, steps, s, reply);
  }
}

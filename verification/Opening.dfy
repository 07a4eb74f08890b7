// How a session comes to be bound, and what follows from its bind type: the listener
// is told it is bound exactly after a bind step that succeeded for that type, and only
// the requests the type allows are ever allocated.

module Opening {
  import opened Bytes
  import opened Headers
  import opened Dispatch
  import opened Pending
  import opened Session
  import opened Bookkeeping
  import opened Ledger
  import opened Preservation
  import opened Growth
  import opened Runs
  import opened Safety

  // ---- bind steps ----------------------------------------------------------

  function BindId(b: Bind): u32 {
    match b
    case RX => 0x0000_0001
    case TX => 0x0000_0002
    case TRX => 0x0000_0009
  }

  /**
   * A server's bind succeeds when the request decodes, the listener accepts it and the
   * answer is written; a client's when the answer to number 1 is the response to the
   * bind it wanted, with status zero.
   */
  predicate Succeeds(side: Side, o: OpenStep, b: Bind) {
    match o
    case ServerBind(id, decodes, accepted, written) =>
      side.Server? && id == BindId(b) && decodes && accepted && written
    case ClientBind(wanted, id, status, number) =>
      side.Client? && wanted == b && id == 0x8000_0000 + BindId(b) && status == 0 && number == 1
    case Tell => false
  }

  lemma SucceedsIff(c: Config, s: State, o: OpenStep, b: Bind)
    requires CanOpen(c, s, o)
    ensures Established(o) == Some(b) <==> Succeeds(c.side, o, b)
  {}

  /** The bind steps of a run, oldest first. */
  function BindSteps(steps: seq<Step>): seq<OpenStep>
    decreases |steps|
  {
    if steps == [] then []
    else
      var n := |steps| - 1;
      BindSteps(steps[..n]) + if steps[n].Opening? && !steps[n].open.Tell? then [steps[n].open] else []
  }

  /** The listener was told after a bind step. */
  predicate ToldAfterBind(steps: seq<Step>)
    decreases |steps|
  {
    steps != [] &&
    var n := |steps| - 1;
    ToldAfterBind(steps[..n]) || (steps[n] == Opening(Tell) && BindSteps(steps[..n]) != [])
  }

  datatype Phase = Before | Turned | Answering | During

  function PhaseOf(r: Reader): Phase {
    match r
    case Unbound => Before
    case Refused => Turned
    case Accepted => Answering
    case _ => During
  }

  // ---- what a step does to the phase ---------------------------------------

  lemma MatchReader(c: Config, s: State, pdu: Pdu, decodes: bool, bad: Option<u32>, closes: bool)
    requires s.reader.InPass?
    ensures var s' := Match(c, s, pdu, decodes, bad, closes);
            s'.bind == s.bind && (s'.reader.InPass? || s'.reader.Pushing? || s'.reader.Leaving?)
  {
    hide IsLate, IsAwaited, SetPlace;
    SetPlaceShape();
  }

  lemma DispatchPhase(c: Config, s: State, pdu: Pdu, decodes: bool)
    requires s.reader.InPass?
    ensures var s' := DispatchPdu(c, s, pdu, decodes); s'.bind == s.bind && PhaseOf(s'.reader) == During
  {
    hide Match, Route;
    match Route(c.side, s.bind, pdu.id)
    case Correlate(bad, closes) => MatchReader(c, s, pdu, decodes, Some(bad), closes);
    case CorrelateNack => MatchReader(c, s, pdu, decodes, None, false);
    case _ =>
  }

  lemma ReadPhase(c: Config, s: State, r: ReadStep)
    requires Core(c, s) && CanRead(c, s, r)
    ensures var s' := DoRead(c, s, r);
            s'.bind == s.bind && PhaseOf(s.reader) == PhaseOf(s'.reader) == During
  {
    match r
    case Receive(pdu, decodes) =>
      hide Core, DispatchPdu;
      DispatchPhase(c, s, pdu, decodes);
    case EndPass(order) =>
      hide Core, SweepAll;
      EndPassIsLate(c, s, order);
      CoreIgnoresLastRead(c, s);
      SweepKeeps(c, s.(lastRead := s.now), order);
    case Settle =>
      hide Core, SettleBeat;
      SettleShape(c, s, s.reader.number);
    case Close =>
      hide Core;
    case _ =>
      hide Core, DoRead, CanRead;
      MoveShape(c, s, r);
  }

  /** Only a bind, or telling the listener, moves the session into or through its opening. */
  lemma StepKeepsPhase(c: Config, s: State, step: Step)
    requires Core(c, s) && Enabled(c, s, step) && !step.Opening?
    ensures var s' := Apply(c, s, step); s'.bind == s.bind && PhaseOf(s'.reader) == PhaseOf(s.reader)
  {
    hide Core, PhaseOf, DoWrite, DoRead, DoCall, DoTick, CanWrite, CanRead, CanCall, CanTick, HasRoom, MaySend;
    match step
    case Writing(w) => WriteShape(c, s, w);
    case Calling(k, act) => CallShape(s, k, act);
    case Ticking(t) => TickShape(c, s, t);
    case Reading(r) => ReadPhase(c, s, r);
    case _ =>
  }

  /** Where a run stands, by its bind step. */
  predicate Stands(c: Config, s: State, binds: seq<OpenStep>, told: bool) {
    match PhaseOf(s.reader)
    case Before => binds == [] && !told
    case Turned => |binds| == 1 && !told && forall b :: !Succeeds(c.side, binds[0], b)
    case Answering => |binds| == 1 && !told && Succeeds(c.side, binds[0], s.bind)
    case During => |binds| == 1 && told && Succeeds(c.side, binds[0], s.bind)
  }

  lemma OpenStands(c: Config, s: State, o: OpenStep, binds: seq<OpenStep>, told: bool)
    requires CanOpen(c, s, o) && Stands(c, s, binds, told)
    ensures Stands(c, Open(s, o), binds + (if o.Tell? then [] else [o]), told || (o.Tell? && binds != []))
  {
    hide Succeeds, Established;
    forall b: Bind ensures !o.Tell? ==> (Established(o) == Some(b) <==> Succeeds(c.side, o, b)) {
      SucceedsIff(c, s, o, b);
    }
  }

  lemma {:induction false} RunStands(c: Config, steps: seq<Step>, s: State)
    requires Reaches(c, steps, s)
    ensures Stands(c, s, BindSteps(steps), ToldAfterBind(steps))
    decreases |steps|
  {
    hide Inv, Apply, Enabled, Stands;
    if steps == [] {
      InitiallyBefore(c);
    } else {
      var n := |steps| - 1;
      var s0 := LastStep(c, steps, s);
      RunStands(c, steps[..n], s0);
      ReachableIsFine(c, steps[..n], s0);
      StepStands(c, s0, steps[n], BindSteps(steps[..n]), ToldAfterBind(steps[..n]));
    }
  }

  lemma InitiallyBefore(c: Config)
    ensures Stands(c, Initial(), [], false)
  {}

  lemma StepStands(c: Config, s: State, step: Step, binds: seq<OpenStep>, told: bool)
    requires Inv(c, s) && Enabled(c, s, step) && Stands(c, s, binds, told)
    ensures Stands(c, Apply(c, s, step),
                   binds + (if step.Opening? && !step.open.Tell? then [step.open] else []),
                   told || (step == Opening(Tell) && binds != []))
  {
    hide Core, RepliesAt, TickerFits, Staged, Succeeds;
    if step.Opening? {
      OpenStands(c, s, step.open, binds, told);
    } else {
      StepKeepsPhase(c, s, step);
      assert binds + [] == binds;
    }
  }

  // ---- the bind law --------------------------------------------------------

  lemma {:induction false} BoundInTrail(side: Side, t: Trail, b: Bind)
    requires !StageOf(side, t).Bad?
    ensures Occurs(t, Bound(b)) <==>
            (WasBound(StageOf(side, t)) || StageOf(side, t).Over?) && StageOf(side, t).bind == b
  {
    hide Permits;
    if t.Then? {
      BoundInTrail(side, t.before, b);
    }
  }

  /**
   * The listener is told the session is bound as b if and only if, in the run, the one
   * bind step succeeded for b and telling it came after. There is never a second bind.
   */
  lemma BoundIff(c: Config, steps: seq<Step>, s: State, b: Bind)
    requires Reaches(c, steps, s)
    ensures |BindSteps(steps)| <= 1
    ensures Occurs(s.trail, Bound(b)) <==>
            |BindSteps(steps)| == 1 && Succeeds(c.side, BindSteps(steps)[0], b) && ToldAfterBind(steps)
  {
    hide Inv, Apply, Enabled, Stands, Succeeds, BindSteps, ToldAfterBind, StageOf;
    ReachableIsFine(c, steps, s);
    RunStands(c, steps, s);
    StandsBound(c, s, BindSteps(steps), ToldAfterBind(steps), b);
    BoundWhen(c, s, b);
  }

  /** The trail says bound as b exactly while and after the session served as b. */
  lemma BoundWhen(c: Config, s: State, b: Bind)
    requires Inv(c, s)
    ensures Occurs(s.trail, Bound(b)) <==> PhaseOf(s.reader) == During && s.bind == b
  {
    hide Core, RepliesAt, TickerFits, StageOf;
    assert Staged(c, s);
    BoundInTrail(c.side, s.trail, b);
  }

  lemma StandsBound(c: Config, s: State, binds: seq<OpenStep>, told: bool, b: Bind)
    requires Stands(c, s, binds, told)
    ensures |binds| <= 1
    ensures PhaseOf(s.reader) == During && s.bind == b <==> |binds| == 1 && Succeeds(c.side, binds[0], b) && told
  {
    OneBindType(c.side, binds);
    hide Succeeds;
  }

  lemma OneBindType(side: Side, binds: seq<OpenStep>)
    ensures |binds| == 1 ==> forall a, b :: Succeeds(side, binds[0], a) && Succeeds(side, binds[0], b) ==> a == b
  {}

  // ---- what may be sent ----------------------------------------------------

  /**
   * The requests a session may originate, by bind type. Besides the keep-alive and
   * unbind: a server data_sm on any bind, deliver_sm and alert_notification towards a
   * receiver; a client its message operations, if it is not a mere receiver.
   */
  predicate MayOriginate(side: Side, bind: Bind, id: u32) {
    || id == 0x0000_0015 || id == 0x0000_0006
    || (side.Server? && id == 0x0000_0103)
    || (side.Server? && bind != TX && (id == 0x0000_0005 || id == 0x0000_0102))
    || (side.Client? && bind != RX
        && (id == 0x0000_0004 || id == 0x0000_0021 || id == 0x0000_0103
            || id == 0x0000_0008 || id == 0x0000_0003 || id == 0x0000_0007))
  }

  lemma GatesIff(side: Side, bind: Bind, id: u32)
    ensures MaySend(side, bind, id) <==> MayOriginate(side, bind, id)
  {}

  /** A caller gets a number in an open session, for what its bind type allows. */
  lemma AskingIff(c: Config, s: State, id: u32)
    ensures Enabled(c, s, Asking(id)) <==>
            PhaseOf(s.reader) == During && id != 0x0000_0015 && MayOriginate(c.side, s.bind, id)
  {
    GatesIff(c.side, s.bind, id);
    hide MaySend, MayOriginate;
  }

  /** Every request allocated is one the session's bind type allows, or a keep-alive. */
  predicate AllAllowed(c: Config, s: State) {
    forall k | 0 <= k < |s.calls| ::
      s.calls[k].id == 0x0000_0015 || (PhaseOf(s.reader) == During && MayOriginate(c.side, s.bind, s.calls[k].id))
  }

  lemma {:induction false} SweepCalls(s: State, order: seq<u32>)
    ensures |SweepAll(s, order).calls| == |s.calls|
    decreases |order|
  {
    if order != [] {
      SweepCalls(if order[0] in s.pending then Resolve(s, order[0], Swept) else s, order[1..]);
    }
  }

  lemma ResolveCalls(s: State, n: u32, o: Outcome)
    requires n in s.pending
    ensures |Resolve(s, n, o).calls| == |s.calls|
  {}

  lemma MatchCalls(c: Config, s: State, pdu: Pdu, decodes: bool, bad: Option<u32>, closes: bool)
    ensures |Match(c, s, pdu, decodes, bad, closes).calls| == |s.calls|
  {
    hide IsLate, IsAwaited, Resolve;
    var n := pdu.number;
    var owed := if !decodes && bad.Some? then Some(Pdu(bad.value, n)) else None;
    if n in s.pending {
      ResolveCalls(Log(s, Received(pdu, false, owed)), n, Undecodable);
      ResolveCalls(Log(s, Received(pdu, false, None)), n, Late);
      var outcome := if IsAwaited(s, s.pending[n].call) then Delivered(pdu) else Answered;
      ResolveCalls(Log(s, Received(pdu, false, None)), n, outcome);
    }
  }

  lemma DispatchCalls(c: Config, s: State, pdu: Pdu, decodes: bool)
    ensures |DispatchPdu(c, s, pdu, decodes).calls| == |s.calls|
  {
    hide Route, Match;
    match Route(c.side, s.bind, pdu.id)
    case Correlate(bad, closes) => MatchCalls(c, s, pdu, decodes, Some(bad), closes);
    case CorrelateNack => MatchCalls(c, s, pdu, decodes, None, false);
    case _ =>
  }

  lemma WriteCalls(c: Config, s: State, w: WriteStep)
    requires CanWrite(s, w)
    ensures |DoWrite(c, s, w).calls| == |s.calls|
  {
    hide Number, SetPlace, Lose;
    PlacesOnly();
  }

  lemma PlacesOnly()
    ensures forall s: State, k: nat, p: Place {:trigger SetPlace(s, k, p)} :: |SetPlace(s, k, p).calls| == |s.calls|
    ensures forall s: State, f: Frame {:trigger Lose(s, f)} :: |Lose(s, f).calls| == |s.calls|
  {}

  lemma CallCalls(s: State, k: nat, act: CallAct)
    requires CanCall(s, k, act)
    ensures |DoCall(s, k, act).calls| == |s.calls|
  {
    hide SetPlace, Lose, RespId, HasRoom;
    PlacesOnly();
  }

  lemma TickCalls(c: Config, s: State, t: TickStep)
    requires CanTick(c, s, t)
    ensures var s' := DoTick(c, s, t);
            if t.Wake? && s.alive then s'.calls == s.calls + [Call(0x0000_0015, InHand, Waiting)]
            else |s'.calls| == |s.calls|
  {
    hide SetPlace, Lose, Number, HasRoom;
    PlacesOnly();
  }

  lemma ReadCalls(c: Config, s: State, r: ReadStep)
    requires CanRead(c, s, r)
    ensures |DoRead(c, s, r).calls| == |s.calls|
  {
    hide SetPlace, Lose, DispatchPdu, SweepAll, HasRoom, Resolve;
    PlacesOnly();
    match r
    case Receive(pdu, decodes) => DispatchCalls(c, s, pdu, decodes);
    case EndPass(order) => SweepCalls(s.(lastRead := s.now), order);
    case Settle =>
      if s.reader.number in s.pending {
        ResolveCalls(s, s.reader.number, Late);
        ResolveCalls(s, s.reader.number, Answered);
      }
    case _ =>
  }

  /** Only a caller or the ticker allocates, and the new request is theirs. */
  lemma StepAllocates(c: Config, s: State, step: Step)
    requires Enabled(c, s, step)
    ensures var s' := Apply(c, s, step);
            if step.Asking? then s'.calls == s.calls + [Call(step.id, InHand, Waiting)]
            else if step == Ticking(Wake) && s.alive then s'.calls == s.calls + [Call(0x0000_0015, InHand, Waiting)]
            else |s'.calls| == |s.calls|
  {
    hide DoWrite, CanWrite, DoRead, CanRead, DoCall, CanCall, DoTick, CanTick, HasRoom, MaySend, Established;
    match step
    case Writing(w) => WriteCalls(c, s, w);
    case Reading(r) => ReadCalls(c, s, r);
    case Calling(k, act) => CallCalls(s, k, act);
    case Ticking(t) => TickCalls(c, s, t);
    case _ =>
  }

  lemma StepKeepsAllowed(c: Config, s: State, step: Step)
    requires Inv(c, s) && Enabled(c, s, step) && AllAllowed(c, s)
    ensures AllAllowed(c, Apply(c, s, step))
  {
    StepGrows(c, s, step);
    StepAllocates(c, s, step);
    if step.Asking? {
      AskingIff(c, s, step.id);
    }
    if !step.Opening? {
      StepKeepsPhase(c, s, step);
    }
    hide Core, RepliesAt, TickerFits, Staged, Apply, Enabled, MayOriginate;
    var s' := Apply(c, s, step);
    forall k | 0 <= k < |s'.calls|
      ensures s'.calls[k].id == 0x0000_0015 ||
              (PhaseOf(s'.reader) == During && MayOriginate(c.side, s'.bind, s'.calls[k].id))
    {
      if k < |s.calls| {
        assert CallGrows(s.calls[k], s'.calls[k]);
        if step.Opening? {
          OpeningAllows(c, s, step.open);
        }
      }
    }
  }

  lemma OpeningAllows(c: Config, s: State, o: OpenStep)
    requires Enabled(c, s, Opening(o))
    ensures PhaseOf(s.reader) != During
  {}

  lemma {:induction false} RequestsAreAllowed(c: Config, steps: seq<Step>, s: State)
    requires Reaches(c, steps, s)
    ensures AllAllowed(c, s)
    decreases |steps|
  {
    hide Inv, Apply, Enabled, AllAllowed;
    if steps == [] {
      assert AllAllowed(c, s) by { NothingAsked(c); }
    } else {
      var n := |steps| - 1;
      var s0 := LastStep(c, steps, s);
      RequestsAreAllowed(c, steps[..n], s0);
      ReachableIsFine(c, steps[..n], s0);
      StepKeepsAllowed(c, s0, steps[n]);
    }
  }

  lemma NothingAsked(c: Config)
    ensures AllAllowed(c, Initial())
  {}
}

// When a reply that is owed does not reach the wire: which step gives it up, and that
// in a live session only a failed write does.

module Losses {
  import opened Bytes
  import opened Headers
  import opened Dispatch
  import opened Pending
  import opened Session
  import opened Bookkeeping
  import opened Ledger
  import opened Preservation

  /**
   * The replies a step gives up: the one whose write fails, the one the writer holds
   * when it stops, and what a handler or the reader has for a writer that stopped or
   * a session cut off.
   */
  function LostBy(s: State, step: Step): multiset<Pdu> {
    match step
    case Writing(Write(ok)) => if ok then multiset{} else InWriter(s.writer)
    case Writing(Halt) => InWriter(s.writer)
    case Handling(reply) => if s.writer.Stopped? then multiset{reply} else multiset{}
    case Reading(PushReply) => if s.writer.Stopped? then Upcoming(s.reader) else multiset{}
    case Reading(Abort) => Upcoming(s.reader)
    case _ => multiset{}
  }

  lemma WriteLoses(c: Config, s: State, w: WriteStep)
    requires CanWrite(s, w)
    ensures DoWrite(c, s, w).lost == s.lost + LostBy(s, Writing(w))
    ensures DoWrite(c, s, w).alive == s.alive
    ensures DoWrite(c, s, w).writer.Stopped? ==> s.writer.Stopped? || !s.alive
  {
    hide SetPlace, Number;
    SetPlaceShape();
  }

  lemma DispatchLoses(c: Config, s: State, pdu: Pdu, decodes: bool)
    requires Staged(c, s) && s.reader.InPass?
    ensures var s' := DispatchPdu(c, s, pdu, decodes);
            s'.lost == s.lost && s'.writer == s.writer && s'.alive == s.alive
  {
    hide DispatchPdu, Staged, Owed;
    DispatchIsSound(c, s, pdu, decodes);
  }

  lemma ReadLoses(c: Config, s: State, r: ReadStep)
    requires Core(c, s) && Staged(c, s) && CanRead(c, s, r)
    ensures var s' := DoRead(c, s, r);
            && s'.lost == s.lost + LostBy(s, Reading(r))
            && s'.writer == s.writer && (s'.alive ==> s.alive)
  {
    hide Core, Staged, DispatchPdu, SweepAll, SetPlace, HasRoom;
    match r
    case Receive(pdu, decodes) => DispatchLoses(c, s, pdu, decodes);
    case EndPass(order) =>
      EndPassIsLate(c, s, order);
      CoreIgnoresLastRead(c, s);
      SweepKeeps(c, s.(lastRead := s.now), order);
    case _ => SetPlaceShape();
  }

  /** Each step gives up exactly those; and a session that ended is never alive again. */
  lemma StepLoses(c: Config, s: State, step: Step)
    requires Core(c, s) && Staged(c, s) && Enabled(c, s, step)
    ensures var s' := Apply(c, s, step);
            && s'.lost == s.lost + LostBy(s, step)
            && (s'.alive ==> s.alive)
            && (s'.writer.Stopped? ==> s.writer.Stopped? || !s.alive)
  {
    hide Core, Staged, DoRead, DoWrite, DoTick, DoCall, CanRead, CanWrite, CanTick, CanCall, HasRoom, Established;
    match step
    case Writing(w) => WriteLoses(c, s, w);
    case Reading(r) => ReadLoses(c, s, r);
    case Calling(k, act) => CallShape(s, k, act);
    case Ticking(t) => TickShape(c, s, t);
    case _ =>
  }

  /** The replies whose write failed in the course of a run. */
  ghost function FailedReplies(c: Config, s: State, steps: seq<Step>): multiset<Pdu>
    requires CanRun(c, s, steps)
    decreases |steps|
  {
    if steps == [] then multiset{}
    else
      (if steps[0] == Writing(Write(false)) then InWriter(s.writer) else multiset{})
      + FailedReplies(c, Apply(c, s, steps[0]), steps[1..])
  }

  lemma LiveStepLoses(s: State, step: Step)
    requires s.alive && !s.writer.Stopped? && step != Writing(Halt) && step != Reading(Abort)
    ensures LostBy(s, step) == if step == Writing(Write(false)) then InWriter(s.writer) else multiset{}
  {}

  lemma HaltingIsDead(c: Config, s: State, step: Step)
    requires Enabled(c, s, step) && (step == Writing(Halt) || step == Reading(Abort))
    ensures !s.alive
  {}

  /** As long as the session is alive, a reply is given up only by its own failed write. */
  lemma {:induction false} LiveRunLoses(c: Config, s: State, steps: seq<Step>)
    requires Inv(c, s) && CanRun(c, s, steps) && (s.writer.Stopped? ==> !s.alive)
    ensures var s' := Run(c, s, steps);
            (s'.alive ==> s.alive && s'.lost == s.lost + FailedReplies(c, s, steps))
    decreases |steps|
  {
    hide Core, RepliesAt, TickerFits, Staged, Apply, Enabled, LostBy;
    if steps != [] {
      var s1 := Apply(c, s, steps[0]);
      StepKeepsInv(c, s, steps[0]);
      StepLoses(c, s, steps[0]);
      LiveRunLoses(c, s1, steps[1..]);
      if s1.alive {
        if steps[0] == Writing(Halt) || steps[0] == Reading(Abort) {
          HaltingIsDead(c, s, steps[0]);
        } else {
          LiveStepLoses(s, steps[0]);
        }
      }
    }
  }

  lemma {:induction false} NothingFails(c: Config, s: State, steps: seq<Step>)
    requires CanRun(c, s, steps) && Writing(Write(false)) !in steps
    ensures FailedReplies(c, s, steps) == multiset{}
    decreases |steps|
  {
    hide Apply, Enabled;
    if steps != [] {
      assert steps[0] in steps && forall step | step in steps[1..] :: step in steps;
      NothingFails(c, Apply(c, s, steps[0]), steps[1..]);
    }
  }
}

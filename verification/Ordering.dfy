// Frames reach the wire in the order in which they were queued.

module Ordering {
  import opened Bytes
  import opened Headers
  import opened Dispatch
  import opened Pending
  import opened Session
  import opened Bookkeeping
  import opened Ledger
  import opened Preservation
  import opened Runs
  import opened Safety

  /** The frame a step queues: a caller's, the ticker's, a handler's or the reader's. */
  function QueuedBy(s: State, step: Step): seq<Frame> {
    if s.writer.Stopped? then []
    else match step
      case Calling(k, Push) => [Ask(k)]
      case Ticking(Send) => if s.ticker.Numbered? then [Ask(s.ticker.call)] else []
      case Handling(reply) => [Reply(reply)]
      case Reading(PushReply) => if s.reader.Pushing? then [Reply(s.reader.reply)] else []
      case _ => []
  }

  function TakenBy(s: State, step: Step): seq<Frame> {
    if step == Writing(Dequeue) && s.fifo != [] then [s.fifo[0]] else []
  }

  /** The frame the writer has taken and not yet put on the wire. */
  function Hand(w: Writer): seq<Frame> {
    match w
    case Holding(f) => [f]
    case Inserted(k) => [Ask(k)]
    case _ => []
  }

  /** The FIFO is a queue of at most 100 frames; only a stopped writer refuses one. */
  lemma CallQueues(s: State, k: nat, act: CallAct)
    requires CanCall(s, k, act)
    ensures DoCall(s, k, act).fifo == s.fifo + QueuedBy(s, Calling(k, act))
  {
    hide SetPlace, RespId;
    SetPlaceShape();
  }

  lemma TickQueues(c: Config, s: State, t: TickStep)
    requires CanTick(c, s, t)
    ensures DoTick(c, s, t).fifo == s.fifo + QueuedBy(s, Ticking(t))
  {
    hide SetPlace, Number;
    SetPlaceShape();
  }

  lemma DispatchQueues(c: Config, s: State, pdu: Pdu, decodes: bool)
    requires Staged(c, s) && s.reader.InPass?
    ensures var s' := DispatchPdu(c, s, pdu, decodes);
            s'.fifo == s.fifo && s'.writer == s.writer && s'.written == s.written
  {
    hide DispatchPdu, Staged, Owed;
    DispatchIsSound(c, s, pdu, decodes);
  }

  lemma ReadQueues(c: Config, s: State, r: ReadStep)
    requires Core(c, s) && Staged(c, s) && CanRead(c, s, r)
    ensures var s' := DoRead(c, s, r);
            && s'.fifo == s.fifo + QueuedBy(s, Reading(r))
            && s'.writer == s.writer && s'.written == s.written
  {
    hide Core, Staged, DispatchPdu, SweepAll, SettleBeat, Lose;
    match r
    case Receive(pdu, decodes) => DispatchQueues(c, s, pdu, decodes);
    case EndPass(order) =>
      EndPassIsLate(c, s, order);
      CoreIgnoresLastRead(c, s);
      SweepKeeps(c, s.(lastRead := s.now), order);
    case Settle => SettleShape(c, s, s.reader.number);
    case PushReply => LoseShape(s, Reply(s.reader.reply));
    case Abort =>
      if s.reader.Pushing? {
        LoseShape(s, Reply(s.reader.reply));
      }
    case _ =>
  }

  lemma DequeueQueues(c: Config, s: State)
    requires CanWrite(s, Dequeue)
    ensures var s' := DoWrite(c, s, Dequeue);
            && s.fifo == TakenBy(s, Writing(Dequeue)) + s'.fifo && s'.written == s.written
            && Hand(s'.writer) == TakenBy(s, Writing(Dequeue))
  {
    hide SetPlace;
    SetPlaceShape();
  }

  lemma SendQueues(c: Config, s: State, ok: bool)
    requires CanWrite(s, Write(ok))
    ensures var s' := DoWrite(c, s, Write(ok));
            && s'.fifo == s.fifo && s'.written == s.written + (if ok then Hand(s.writer) else [])
            && Hand(s'.writer) == []
  {
    hide Lose;
    if s.writer.Holding? {
      LoseShape(s, s.writer.frame);
    }
    assert s.written + [] == s.written;
  }

  /** Inserting keeps the frame in hand; removing and halting drop it. */
  lemma OtherwiseQueues(c: Config, s: State, w: WriteStep)
    requires CanWrite(s, w) && !w.Dequeue? && !w.Write?
    ensures var s' := DoWrite(c, s, w);
            && s'.fifo == s.fifo && s'.written == s.written
            && Hand(s'.writer) == if w.Insert? then Hand(s.writer) else []
  {
    hide SetPlace, Lose, Register, Number;
    SetPlaceShape();
    if w.Insert? {
      InsertShape(c, s, s.writer.frame.call);
    } else if w.Halt? && s.writer.Holding? {
      LoseShape(s, s.writer.frame);
    }
  }

  lemma WriteQueues(c: Config, s: State, w: WriteStep)
    requires CanWrite(s, w)
    ensures var s' := DoWrite(c, s, w);
            && s.fifo == TakenBy(s, Writing(w)) + s'.fifo
            && s'.written == s.written + (if w == Write(true) then Hand(s.writer) else [])
            && Hand(s'.writer) ==
               if w.Dequeue? then TakenBy(s, Writing(w)) else if w.Insert? then Hand(s.writer) else []
  {
    hide DoWrite, CanWrite, Hand;
    assert s.written + [] == s.written && [] + s.fifo == s.fifo;
    match w
    case Dequeue => DequeueQueues(c, s);
    case Write(ok) => SendQueues(c, s, ok);
    case _ => OtherwiseQueues(c, s, w);
  }

  lemma HandlerQueues(c: Config, s: State, reply: Pdu)
    requires Enabled(c, s, Handling(reply))
    ensures var s' := Apply(c, s, Handling(reply));
            s'.fifo == s.fifo + QueuedBy(s, Handling(reply)) && s'.written == s.written && s'.writer == s.writer
  {}

  /** A step queues at the back, takes from the front, and writes what the writer holds. */
  lemma StepQueues(c: Config, s: State, step: Step)
    requires Core(c, s) && Staged(c, s) && Enabled(c, s, step)
    ensures var s' := Apply(c, s, step);
            && s.fifo + QueuedBy(s, step) == TakenBy(s, step) + s'.fifo
            && s'.written == s.written + (if step == Writing(Write(true)) then Hand(s.writer) else [])
            && Hand(s'.writer) ==
               if step.Writing? then
                 if step.write.Dequeue? then TakenBy(s, step) else if step.write.Insert? then Hand(s.writer) else []
               else Hand(s.writer)
  {
    hide Core, Staged, DoRead, DoWrite, DoTick, DoCall, CanRead, CanWrite, CanTick, CanCall, MaySend, Open, Hand,
      HasRoom;
    assert s.written + [] == s.written && s.fifo + [] == s.fifo;
    match step
    case Opening(o) => OpenShape(c, s, o);
    case Writing(w) => WriteQueues(c, s, w);
    case Reading(r) => ReadQueues(c, s, r);
    case Calling(k, act) =>
      CallShape(s, k, act);
      CallQueues(s, k, act);
    case Ticking(t) =>
      TickShape(c, s, t);
      TickQueues(c, s, t);
    case Handling(reply) => HandlerQueues(c, s, reply);
    case _ =>
  }

  // ---- over a run ----------------------------------------------------------

  ghost function Queued(c: Config, s: State, steps: seq<Step>): seq<Frame>
    requires CanRun(c, s, steps)
    decreases |steps|
  {
    if steps == [] then []
    else QueuedBy(s, steps[0]) + Queued(c, Apply(c, s, steps[0]), steps[1..])
  }

  ghost function Taken(c: Config, s: State, steps: seq<Step>): seq<Frame>
    requires CanRun(c, s, steps)
    decreases |steps|
  {
    if steps == [] then []
    else TakenBy(s, steps[0]) + Taken(c, Apply(c, s, steps[0]), steps[1..])
  }

  /** What was taken is the front of what was queued, and the FIFO is the rest. */
  lemma {:induction false} RunQueues(c: Config, s: State, steps: seq<Step>)
    requires Inv(c, s) && CanRun(c, s, steps)
    ensures s.fifo + Queued(c, s, steps) == Taken(c, s, steps) + Run(c, s, steps).fifo
    decreases |steps|
  {
    hide Core, RepliesAt, TickerFits, Staged, Apply, Enabled, QueuedBy, TakenBy;
    if steps != [] {
      var step := steps[0];
      var s1 := Apply(c, s, step);
      var end := Run(c, s, steps).fifo;
      var more, rest := Queued(c, s1, steps[1..]), Taken(c, s1, steps[1..]);
      StepKeepsInv(c, s, step);
      StepQueues(c, s, step);
      RunQueues(c, s1, steps[1..]);
      assert s.fifo + (QueuedBy(s, step) + more) == (s.fifo + QueuedBy(s, step)) + more;
      assert TakenBy(s, step) + (s1.fifo + more) == (TakenBy(s, step) + s1.fifo) + more;
      assert TakenBy(s, step) + (rest + end) == (TakenBy(s, step) + rest) + end;
    }
  }

  /** `part` is `all` with some elements left out. */
  predicate Within(part: seq<Frame>, all: seq<Frame>)
    decreases |all|
  {
    if part == [] then true
    else if all == [] then false
    else
      var p, a := |part| - 1, |all| - 1;
      (part[p] == all[a] && Within(part[..p], all[..a])) || Within(part, all[..a])
  }

  lemma WithinBoth(part: seq<Frame>, all: seq<Frame>, more: seq<Frame>)
    requires Within(part, all) && |more| <= 1
    ensures Within(part + more, all + more)
  {
    if more == [] {
      assert part + more == part && all + more == all;
    } else {
      assert (part + more)[..|part|] == part && (all + more)[..|all|] == all;
    }
  }

  lemma {:induction false} WithinLess(part: seq<Frame>, hand: seq<Frame>, all: seq<Frame>)
    requires Within(part + hand, all) && |hand| <= 1
    ensures Within(part, all)
    decreases |all|
  {
    if hand == [] {
      assert part + hand == part;
    } else if all != [] && part != [] {
      var a := all[..|all| - 1];
      assert (part + hand)[..|part|] == part;
      if Within(part + hand, a) {
        WithinLess(part, hand, a);
      }
      assert Within(part, a);
    }
  }

  lemma StepIsOrdered(c: Config, s: State, step: Step, taken: seq<Frame>)
    requires Core(c, s) && Staged(c, s) && Enabled(c, s, step) && Within(s.written + Hand(s.writer), taken)
    ensures var s' := Apply(c, s, step);
            Within(s'.written + Hand(s'.writer), taken + TakenBy(s, step))
  {
    hide Core, Staged, Apply, Enabled, Within, Hand;
    StepQueues(c, s, step);
    var s' := Apply(c, s, step);
    OneInHand(s.writer);
    assert s.written + [] == s.written;
    HandMoves(s.written, Hand(s.writer), s'.written, Hand(s'.writer), taken, TakenBy(s, step));
  }

  lemma OneInHand(w: Writer)
    ensures |Hand(w)| <= 1
  {}

  lemma HandMoves(w: seq<Frame>, h: seq<Frame>, w': seq<Frame>, h': seq<Frame>, all: seq<Frame>, more: seq<Frame>)
    requires Within(w + h, all) && |h| <= 1 && |more| <= 1
    requires || (w' == w && h' == h && more == []) || (w' == w + h && h' == [] && more == [])
             || (w' == w && h' == more)
    ensures Within(w' + h', all + more)
  {
    hide Within;
    WithinLess(w, h, all);
    assert all + [] == all && w' + [] == w';
    WithinBoth(w, all, more);
  }

  lemma {:induction false} RunIsOrdered(c: Config, s: State, steps: seq<Step>, taken: seq<Frame>)
    requires Inv(c, s) && CanRun(c, s, steps) && Within(s.written + Hand(s.writer), taken)
    ensures var s' := Run(c, s, steps); Within(s'.written + Hand(s'.writer), taken + Taken(c, s, steps))
    decreases |steps|
  {
    hide Core, RepliesAt, TickerFits, Staged, Apply, Enabled, TakenBy, Hand, Within;
    if steps == [] {
      assert taken + [] == taken;
    } else {
      var s1 := Apply(c, s, steps[0]);
      StepKeepsInv(c, s, steps[0]);
      StepIsOrdered(c, s, steps[0], taken);
      RunIsOrdered(c, s1, steps[1..], taken + TakenBy(s, steps[0]));
      var rest := Taken(c, s1, steps[1..]);
      assert taken + (TakenBy(s, steps[0]) + rest) == (taken + TakenBy(s, steps[0])) + rest;
    }
  }

  /**
   * Over any run: the writer took the front of what was queued, in that order, and the
   * rest is in the FIFO; what is on the wire stands there in the same order, with only
   * frames whose write failed, or that the writer gave up, left out.
   */
  lemma WireIsOrdered(c: Config, steps: seq<Step>, s: State)
    requires Reaches(c, steps, s)
    ensures Queued(c, Initial(), steps) == Taken(c, Initial(), steps) + s.fifo
    ensures Within(s.written, Taken(c, Initial(), steps))
  {
    hide Inv, Apply, Enabled, Queued, Taken, Within;
    InitialIsFine(c);
    RunQueues(c, Initial(), steps);
    var taken := Taken(c, Initial(), steps);
    assert [] + Queued(c, Initial(), steps) == Queued(c, Initial(), steps) && [] + taken == taken;
    assert Within([] + Hand(Initial().writer), []) by { NothingWithin(); }
    RunIsOrdered(c, Initial(), steps, []);
    WithinLess(s.written, Hand(s.writer), taken);
  }

  lemma NothingWithin()
    ensures Within([] + Hand(Idle), [])
  {}
}

// What holds in every state a session can reach, whatever its callers, its tasks'
// interleaving, its clock and its peer do.

module Safety {
  import opened Bytes
  import opened Headers
  import opened Dispatch
  import opened Pending
  import opened Session
  import opened Bookkeeping
  import opened Ledger
  import opened Preservation
  import opened Growth
  import opened Losses
  import opened Runs

  lemma ReachableIsFine(c: Config, steps: seq<Step>, s: State)
    requires Reaches(c, steps, s)
    ensures Inv(c, s)
  {
    hide Inv, Apply;
    InitialIsFine(c);
    RunKeepsInv(c, Initial(), steps);
  }

  // ---- no lost response ----------------------------------------------------

  /**
   * A request on the wire is in the table under its own number, or was ended by its
   * response, the timeout, or a rival under the same number.
   */
  lemma WrittenIsRegistered(c: Config, steps: seq<Step>, s: State, k: nat)
    requires Reaches(c, steps, s) && Ask(k) in s.written
    ensures k < |s.calls|
    ensures s.calls[k].place.Finished? || (Number(c, k) in s.pending && s.pending[Number(c, k)].call == k)
    ensures s.calls[k].place.Finished? ==>
              ByReader(s.calls[k].place.outcome) || s.calls[k].place.outcome.Overwritten?
  {
    ReachableIsFine(c, steps, s);
    hide Reaches, LedgerAgrees, CallersAgree, QueueAgrees, HeldAgrees, RivalsShareNumber, InsertedAgrees, Number,
      RepliesAt, TickerFits, Staged;
    assert Core(c, s);
  }

  /** The arms that look a response up in the table at once. */
  predicate LooksUp(arm: Arm) { arm.Correlate? || arm.CorrelateNack? }

  /** How the first response to call k ends it. */
  function EndsAs(c: Config, s: State, k: nat, pdu: Pdu, decodes: bool): Outcome
    requires Number(c, k) in s.pending
  {
    if IsLate(s.pending[Number(c, k)], s.now, c.responseTimer) then Late
    else if !decodes then Undecodable
    else if IsAwaited(s, k) then Delivered(pdu)
    else Answered
  }

  /** From s to s' call k and nothing else ended, as the last event says. */
  predicate EndsCall(s: State, s': State, k: nat, number: u32, outcome: Outcome) {
    && number in s.pending && s'.pending == s.pending - {number}
    && k < |s.calls| && s'.calls == s.calls[k := s.calls[k].(place := Finished(outcome))]
    && s'.trail.Then? && s'.trail.event == Resolved(k, number, outcome, s.now - s.pending[number].since)
  }

  /** The last but one event of s' is that the PDU was read, and is the first after s. */
  predicate JustRead(s: State, s': State, pdu: Pdu) {
    && s'.trail.Then? && s'.trail.before.Then? && s'.trail.before.before == s.trail
    && s'.trail.before.event.Received? && s'.trail.before.event.pdu == pdu
  }

  lemma MatchEnds(c: Config, s: State, k: nat, pdu: Pdu, decodes: bool, bad: Option<u32>, closes: bool)
    requires pdu.number == Number(c, k)
    requires pdu.number in s.pending && s.pending[pdu.number].call == k && k < |s.calls|
    ensures var s' := Match(c, s, pdu, decodes, bad, closes);
            EndsCall(s, s', k, pdu.number, EndsAs(c, s, k, pdu, decodes)) && JustRead(s, s', pdu)
  {
    hide IsLate, IsAwaited, Number, Resolve;
    var n := pdu.number;
    var owed := if !decodes && bad.Some? then Some(Pdu(bad.value, n)) else None;
    var noted, silent := Log(s, Received(pdu, false, owed)), Log(s, Received(pdu, false, None));
    ResolveEnds(noted, n, Undecodable);
    ResolveEnds(silent, n, EndsAs(c, s, k, pdu, decodes));
  }

  lemma ResolveEnds(s: State, n: u32, outcome: Outcome)
    requires n in s.pending && s.pending[n].call < |s.calls|
    ensures var s' := Resolve(s, n, outcome);
            && EndsCall(s, s', s.pending[n].call, n, outcome) && s'.trail.before == s.trail
  {}

  /**
   * No lost response. The first response to a request the peer has really seen finds
   * its entry, whatever the interleaving: it never lands in the "No pending request"
   * arm. It ends that request, and no other.
   */
  lemma FirstResponseMatches(c: Config, steps: seq<Step>, s: State, k: nat, pdu: Pdu, decodes: bool)
    requires Reaches(c, steps, s) && Ask(k) in s.written
    requires k < |s.calls| ==> !s.calls[k].place.Finished?
    requires pdu.number == Number(c, k) && LooksUp(Route(c.side, s.bind, pdu.id))
    requires CanRead(c, s, Receive(pdu, decodes))
    ensures Number(c, k) in s.pending
    ensures var s' := DoRead(c, s, Receive(pdu, decodes));
            EndsCall(s, s', k, Number(c, k), EndsAs(c, s, k, pdu, decodes)) && JustRead(s, s', pdu)
  {
    hide Reaches, Number, Route, DoRead, EndsCall, JustRead, CanRead, EndsAs;
    WrittenIsRegistered(c, steps, s, k);
    LookupEnds(c, s, k, pdu, decodes);
  }

  lemma LookupEnds(c: Config, s: State, k: nat, pdu: Pdu, decodes: bool)
    requires k < |s.calls| && pdu.number == Number(c, k)
    requires pdu.number in s.pending && s.pending[pdu.number].call == k
    requires LooksUp(Route(c.side, s.bind, pdu.id))
    ensures var s' := DoRead(c, s, Receive(pdu, decodes));
            EndsCall(s, s', k, Number(c, k), EndsAs(c, s, k, pdu, decodes)) && JustRead(s, s', pdu)
  {
    hide Number, Route, Match, EndsCall, JustRead, EndsAs;
    match Route(c.side, s.bind, pdu.id)
    case Correlate(bad, closes) => MatchEnds(c, s, k, pdu, decodes, Some(bad), closes);
    case CorrelateNack => MatchEnds(c, s, k, pdu, decodes, None, false);
    case _ =>
  }

  /**
   * The same for an enquire_link_resp, which is first passed on to the ticker: when the
   * reader gets to the table, the entry of an enquire_link on the wire is still there.
   */
  lemma FirstHeartbeatMatches(c: Config, steps: seq<Step>, s: State, k: nat)
    requires Reaches(c, steps, s) && Ask(k) in s.written
    requires k < |s.calls| ==> !s.calls[k].place.Finished?
    requires s.reader == Settling(Number(c, k))
    ensures Number(c, k) in s.pending
    ensures var s' := DoRead(c, s, Settle);
            && EndsCall(s, s', k, Number(c, k),
                        if IsLate(s.pending[Number(c, k)], s.now, c.responseTimer) then Late else Answered)
            && s'.trail.before == s.trail && s'.reader.InPass?
  {
    WrittenIsRegistered(c, steps, s, k);
    hide Reaches, Number, IsLate;
  }

  /**
   * The converse: a response that finds no entry belongs to no request on the wire,
   * or to requests that are all ended already.
   */
  lemma UnmatchedIsOver(c: Config, steps: seq<Step>, s: State, pdu: Pdu, k: nat)
    requires Reaches(c, steps, s) && pdu.number !in s.pending
    requires Ask(k) in s.written && Number(c, k) == pdu.number
    ensures k < |s.calls| && s.calls[k].place.Finished?
  {
    WrittenIsRegistered(c, steps, s, k);
  }

  // ---- conservation of requests --------------------------------------------

  function InQueue(s: State, k: nat): nat { multiset(s.fifo)[Ask(k)] }

  function InWriterHand(s: State, k: nat): nat { if s.writer == Holding(Ask(k)) then 1 else 0 }

  function InTable(c: Config, s: State, k: nat): nat {
    var n := Number(c, k);
    if n in s.pending && s.pending[n].call == k then 1 else 0
  }

  function InCallersHand(s: State, k: nat): nat { if k < |s.calls| && s.calls[k].place.InHand? then 1 else 0 }

  function Ended(s: State, k: nat): nat { if k < |s.calls| && s.calls[k].place.Finished? then 1 else 0 }

  /**
   * Every allocated request is in exactly one place: its caller's hand, the FIFO, the
   * writer's hand, the table, or ended. One not allocated is nowhere.
   */
  lemma RequestsAreConserved(c: Config, steps: seq<Step>, s: State, k: nat)
    requires Reaches(c, steps, s)
    ensures InCallersHand(s, k) + InQueue(s, k) + InWriterHand(s, k) + InTable(c, s, k) + Ended(s, k)
            == if k < |s.calls| then 1 else 0
  {
    ReachableIsFine(c, steps, s);
    hide Reaches, LedgerAgrees, CallersAgree, WireAgrees, RivalsShareNumber, InsertedAgrees, Number, RepliesAt,
      TickerFits, Staged;
    assert Core(c, s);
    if k >= |s.calls| {
      assert Ask(k) !in s.fifo;
    }
  }

  // ---- sequence numbers ----------------------------------------------------

  /** Two allocations get the same number exactly when a multiple of 2^32 lies between them. */
  lemma SameNumberIff(c: Config, j: nat, k: nat)
    ensures Number(c, j) == Number(c, k) <==> (k - j) % 0x1_0000_0000 == 0
  {
    var a, b := FirstNumber(c.side) + j, FirstNumber(c.side) + k;
    var m := 0x1_0000_0000;
    var q := b / m - a / m;
    assert k - j == q * m + (b % m - a % m);
    assert (k - j) % m == (b % m - a % m) % m;
  }

  /**
   * Numbers count up from 1 on the server and from 2 on the client, whose bind had 1.
   * Below the wrap they are in the range of section 5.1.4 exactly up to 2^31 - 1.
   */
  lemma LegalRangeIff(c: Config, k: nat)
    ensures var n := k + if c.side.Server? then 1 else 2;
            && Number(c, k) == n % 0x1_0000_0000
            && (n < 0x1_0000_0000 ==> (1 <= Number(c, k) <= 0x7FFF_FFFF <==> n <= 0x7FFF_FFFF))
  {}

  /** Call j stands in the table under k's number and is not k. */
  predicate IsRival(s: State, j: nat, k: nat) {
    j < |s.calls| && s.calls[j].place.Registered? && j != k && (k - j) % 0x1_0000_0000 == 0
  }

  lemma RivalIff(c: Config, s: State, j: nat)
    requires TableAgrees(c, s.calls, s.pending) && HeldAgrees(s.calls, s.writer) && CanWrite(s, Insert)
    ensures var k := s.writer.frame.call;
            IsRival(s, j, k) <==> Number(c, k) in s.pending && s.pending[Number(c, k)].call == j
  {
    SameNumberIff(c, j, s.writer.frame.call);
    hide Number;
  }

  lemma InsertEvicts(c: Config, s: State, j: nat)
    requires HeldAgrees(s.calls, s.writer) && CanWrite(s, Insert)
    requires j < |s.calls| && j != s.writer.frame.call
    ensures var n := Number(c, s.writer.frame.call);
            DoWrite(c, s, Insert).calls[j].place ==
            if n in s.pending && s.pending[n].call == j then Finished(Overwritten(s.writer.frame.call))
            else s.calls[j].place
  {
    hide Number;
  }

  /**
   * Registering a request replaces an entry exactly when another request, a multiple
   * of 2^32 allocations away, is registered; that one and no other is ended by it.
   */
  lemma InsertOverwritesIff(c: Config, steps: seq<Step>, s: State)
    requires Reaches(c, steps, s) && CanWrite(s, Insert)
    ensures var k := s.writer.frame.call;
            && (Number(c, k) in s.pending <==> exists j: nat :: IsRival(s, j, k))
            && forall j: nat | j < |s.calls| && j != k ::
                 DoWrite(c, s, Insert).calls[j].place ==
                 if IsRival(s, j, k) then Finished(Overwritten(k)) else s.calls[j].place
  {
    ReachableIsFine(c, steps, s);
    hide Reaches, LedgerAgrees, CallersAgree, WireAgrees, RivalsShareNumber, InsertedAgrees, QueueAgrees, Number,
      RepliesAt, TickerFits, Staged, TableAgrees, HeldAgrees, IsRival, DoWrite, CanWrite;
    assert Core(c, s);
    forall j: nat
      ensures IsRival(s, j, s.writer.frame.call) <==>
              Number(c, s.writer.frame.call) in s.pending && s.pending[Number(c, s.writer.frame.call)].call == j
    {
      RivalIff(c, s, j);
    }
    forall j: nat | j < |s.calls| && j != s.writer.frame.call
      ensures DoWrite(c, s, Insert).calls[j].place ==
              if IsRival(s, j, s.writer.frame.call) then Finished(Overwritten(s.writer.frame.call))
              else s.calls[j].place
    {
      InsertEvicts(c, s, j);
    }
  }

  /**
   * Registering never replaces a live entry while fewer than 2^32 numbers have been
   * allocated since the oldest request that is registered or held by the writer.
   */
  lemma WindowPreventsOverwriting(c: Config, steps: seq<Step>, s: State)
    requires Reaches(c, steps, s) && CanWrite(s, Insert)
    requires |s.calls| - s.writer.frame.call <= 0x1_0000_0000
    requires forall n | n in s.pending :: |s.calls| - s.pending[n].call <= 0x1_0000_0000
    ensures Number(c, s.writer.frame.call) !in s.pending
  {
    ReachableIsFine(c, steps, s);
    hide Reaches, LedgerAgrees, CallersAgree, WireAgrees, RivalsShareNumber, InsertedAgrees, QueueAgrees, Number,
      RepliesAt, TickerFits, Staged, TableAgrees;
    assert Core(c, s);
    var n := Number(c, s.writer.frame.call);
    if n in s.pending {
      RivalIff(c, s, s.pending[n].call);
    }
  }

  /** In particular nothing is ever overwritten in a session of up to 2^32 requests. */
  lemma NoOverwriteBeforeWrap(c: Config, steps: seq<Step>, s: State, k: nat)
    requires Reaches(c, steps, s) && |s.calls| <= 0x1_0000_0000
    requires k < |s.calls| && s.calls[k].place.Finished?
    ensures !s.calls[k].place.outcome.Overwritten?
  {
    ReachableIsFine(c, steps, s);
    hide Reaches, LedgerAgrees, CallersAgree, WireAgrees, HeldAgrees, TableAgrees, InsertedAgrees, QueueAgrees, Number,
      RepliesAt, TickerFits, Staged;
    assert Core(c, s);
    if s.calls[k].place.outcome.Overwritten? {
      SameNumberIff(c, k, s.calls[k].place.outcome.rival);
    }
  }

  // ---- correlation ---------------------------------------------------------

  /**
   * A call returns Ok(r) only for an r of the response type it asked for, carrying
   * its own number, that ended this very request.
   */
  lemma CallersGetTheirOwn(c: Config, steps: seq<Step>, s: State, k: nat)
    requires Reaches(c, steps, s) && k < |s.calls| && s.calls[k].caller.Got?
    ensures s.calls[k].caller.pdu.id == RespId(s.calls[k].id)
    ensures s.calls[k].caller.pdu.number == Number(c, k)
    ensures s.calls[k].place == Finished(Delivered(s.calls[k].caller.pdu))
  {
    ReachableIsFine(c, steps, s);
    hide Reaches, LedgerAgrees, Books, Number, RespId, RepliesAt, TickerFits, Staged;
    assert Core(c, s);
  }

  function Length(t: Trail): nat { if t.Start? then 0 else Length(t.before) + 1 }

  /** The i-th event, the oldest being the 0-th. */
  function At(t: Trail, i: nat): Event
    requires i < Length(t)
  {
    if i == Length(t) - 1 then t.event else At(t.before, i)
  }

  /** The reader read `pdu` as the i-th event and with the next one ended call k by it. */
  predicate HandsOver(t: Trail, i: nat, k: nat, pdu: Pdu) {
    && i + 1 < Length(t) && At(t, i) == Received(pdu, false, None)
    && At(t, i + 1).Resolved? && At(t, i + 1).call == k && At(t, i + 1).outcome == Delivered(pdu)
  }

  lemma {:induction false} DeliveredIsHandedOver(c: Config, calls: seq<Call>, t: Trail, k: nat) returns (i: nat)
    requires Justified(c, calls, t) && Resolutions(t, k) > 0
    requires k < |calls| && calls[k].place.Finished? && calls[k].place.outcome.Delivered?
    ensures HandsOver(t, i, k, calls[k].place.outcome.pdu)
  {
    hide Number, TimerRespected;
    if t.event.Resolved? && t.event.call == k {
      assert HasArrived(t.before, calls[k].place.outcome);
      i := Length(t.before) - 1;
      assert At(t, i) == At(t.before, i) == t.before.event;
    } else {
      i := DeliveredIsHandedOver(c, calls, t.before, k);
    }
  }

  /** What a caller returned is what one particular read handed over to its call. */
  lemma ResponseWasRead(c: Config, steps: seq<Step>, s: State, k: nat) returns (i: nat)
    requires Reaches(c, steps, s) && k < |s.calls| && s.calls[k].caller.Got?
    ensures HandsOver(s.trail, i, k, s.calls[k].caller.pdu)
  {
    ReachableIsFine(c, steps, s);
    EndedAtMostOnce(c, steps, s, k);
    CallersGetTheirOwn(c, steps, s, k);
    hide Reaches, Books, CallersAgree, RepliesAt, TickerFits, Staged, HandsOver, Justified, Resolutions;
    assert Core(c, s);
    i := DeliveredIsHandedOver(c, s.calls, s.trail, k);
  }

  /**
   * No two calls swap or share a response, in a session of any length: each was handed
   * its own read of the socket. Up to 2^32 requests the responses' numbers differ too.
   */
  lemma RepliesAreNotSwapped(c: Config, steps: seq<Step>, s: State, j: nat, k: nat) returns (a: nat, b: nat)
    requires Reaches(c, steps, s) && j < k < |s.calls|
    requires s.calls[j].caller.Got? && s.calls[k].caller.Got?
    ensures HandsOver(s.trail, a, j, s.calls[j].caller.pdu)
    ensures HandsOver(s.trail, b, k, s.calls[k].caller.pdu)
    ensures a != b
    ensures |s.calls| <= 0x1_0000_0000 ==> s.calls[j].caller.pdu.number != s.calls[k].caller.pdu.number
  {
    hide Reaches, Number, At, Length;
    a := ResponseWasRead(c, steps, s, j);
    b := ResponseWasRead(c, steps, s, k);
    CallersGetTheirOwn(c, steps, s, j);
    CallersGetTheirOwn(c, steps, s, k);
    SameNumberIff(c, j, k);
  }

  /** No request is ended twice by the reader: no oneshot is completed a second time. */
  lemma EndedAtMostOnce(c: Config, steps: seq<Step>, s: State, k: nat)
    requires Reaches(c, steps, s)
    ensures Resolutions(s.trail, k) <= 1
    ensures Resolutions(s.trail, k) == 1 <==>
            k < |s.calls| && s.calls[k].place.Finished? && ByReader(s.calls[k].place.outcome)
  {
    ReachableIsFine(c, steps, s);
    hide Reaches, Justified, Books, CallersAgree, RepliesAt, TickerFits, Staged;
    assert Core(c, s);
  }

  /** How a request ended, and what its caller returned, is never revised later. */
  lemma OutcomesAreFinal(c: Config, steps: seq<Step>, s: State, later: seq<Step>, k: nat)
    requires Reaches(c, steps, s) && CanRun(c, s, later) && k < |s.calls|
    ensures var s' := Run(c, s, later);
            && k < |s'.calls| && s'.calls[k].id == s.calls[k].id
            && (s.calls[k].place.Finished? ==> s'.calls[k].place == s.calls[k].place)
            && (!s.calls[k].caller.Waiting? ==> s'.calls[k].caller == s.calls[k].caller)
  {
    ReachableIsFine(c, steps, s);
    hide Reaches, Inv, Apply;
    RunGrows(c, s, later);
    assert CallGrows(s.calls[k], Run(c, s, later).calls[k]);
  }

  // ---- timeouts ------------------------------------------------------------

  predicate Occurs(t: Trail, e: Event) {
    t.Then? && (t.event == e || Occurs(t.before, e))
  }

  predicate TimedOut(o: Outcome) { o.Late? || o.Swept? }

  /** How often on_timeout was called for the number. */
  function Timeouts(t: Trail, number: u32): nat {
    match t
    case Start => 0
    case Then(before, e) =>
      Timeouts(before, number) + if e.Resolved? && e.number == number && TimedOut(e.outcome) then 1 else 0
  }

  /** How often a response was handed to a waiting caller of the number. */
  function Deliveries(t: Trail, number: u32): nat {
    match t
    case Start => 0
    case Then(before, e) =>
      Deliveries(before, number) + if e.Resolved? && e.number == number && e.outcome.Delivered? then 1 else 0
  }

  /**
   * on_timeout is called for a request only when it is older than the timer, and only
   * a request that is not is ever completed.
   */
  lemma {:induction false} TimeoutsAreDue(c: Config, calls: seq<Call>, t: Trail, k: nat, n: u32, o: Outcome, age: int)
    requires Justified(c, calls, t) && Occurs(t, Resolved(k, n, o, age))
    ensures k < |calls| && calls[k].place == Finished(o) && n == Number(c, k)
    ensures TimedOut(o) <==> age > c.responseTimer
  {
    hide Number;
    if t.event != Resolved(k, n, o, age) {
      TimeoutsAreDue(c, calls, t.before, k, n, o, age);
    }
  }

  lemma TimeoutDiscipline(c: Config, steps: seq<Step>, s: State, k: nat, n: u32, o: Outcome, age: int)
    requires Reaches(c, steps, s) && Occurs(s.trail, Resolved(k, n, o, age))
    ensures k < |s.calls| && s.calls[k].place == Finished(o) && n == Number(c, k)
    ensures TimedOut(o) <==> age > c.responseTimer
  {
    ReachableIsFine(c, steps, s);
    hide Reaches, Books, CallersAgree, Number, RepliesAt, TickerFits, Staged;
    assert Core(c, s);
    TimeoutsAreDue(c, s.calls, s.trail, k, n, o, age);
  }

  /** How many of the first m allocations were given the number n. */
  function Uses(c: Config, m: nat, n: u32): nat {
    if m == 0 then 0 else Uses(c, m - 1, n) + if Number(c, m - 1) == n then 1 else 0
  }

  /** How often the reader ended one of those. */
  function ResolutionsOf(c: Config, t: Trail, m: nat, n: u32): nat {
    if m == 0 then 0
    else ResolutionsOf(c, t, m - 1, n) + if Number(c, m - 1) == n then Resolutions(t, m - 1) else 0
  }

  lemma {:induction false} OneMoreResolution(c: Config, t: Trail, m: nat, n: u32)
    requires t.Then?
    ensures ResolutionsOf(c, t, m, n) ==
            ResolutionsOf(c, t.before, m, n)
            + if t.event.Resolved? && t.event.call < m && Number(c, t.event.call) == n then 1 else 0
  {
    hide Number;
    if m > 0 {
      OneMoreResolution(c, t, m - 1, n);
    }
  }

  lemma {:induction false} NumberCountsAsCalls(c: Config, calls: seq<Call>, t: Trail, n: u32)
    requires Justified(c, calls, t)
    ensures Timeouts(t, n) + Deliveries(t, n) <= ResolutionsOf(c, t, |calls|, n)
  {
    hide Number, TimerRespected, HasArrived, ResolutionsOf;
    if t.Then? {
      NumberCountsAsCalls(c, calls, t.before, n);
      OneMoreResolution(c, t, |calls|, n);
    }
  }

  lemma {:induction false} ResolutionsWithinUses(c: Config, t: Trail, m: nat, n: u32)
    requires forall k: nat | k < m :: Resolutions(t, k) <= 1
    ensures ResolutionsOf(c, t, m, n) <= Uses(c, m, n)
  {
    hide Number, Resolutions;
    if m > 0 {
      ResolutionsWithinUses(c, t, m - 1, n);
    }
  }

  /** Below the wrap a number is given out once. */
  lemma {:induction false} UsedOnceBeforeWrap(c: Config, m: nat, n: u32)
    requires m <= 0x1_0000_0000
    ensures Uses(c, m, n) <= 1
    ensures Uses(c, m, n) == 1 ==> exists k: nat :: k < m && Number(c, k) == n
  {
    hide Number;
    if m > 0 {
      UsedOnceBeforeWrap(c, m - 1, n);
      if Uses(c, m - 1, n) == 1 && Number(c, m - 1) == n {
        var k: nat :| k < m - 1 && Number(c, k) == n;
        SameNumberIff(c, k, m - 1);
      }
    }
  }

  /**
   * Per allocation of a sequence number, on_timeout fires at most once, and never when
   * the response was delivered. Up to 2^32 requests that is: at most once per number.
   */
  lemma TimeoutsAtMostOnce(c: Config, steps: seq<Step>, s: State, n: u32)
    requires Reaches(c, steps, s)
    ensures Timeouts(s.trail, n) + Deliveries(s.trail, n) <= Uses(c, |s.calls|, n)
    ensures |s.calls| <= 0x1_0000_0000 ==> Timeouts(s.trail, n) + Deliveries(s.trail, n) <= 1
  {
    forall k: nat ensures Resolutions(s.trail, k) <= 1 {
      EndedAtMostOnce(c, steps, s, k);
    }
    ReachableIsFine(c, steps, s);
    hide Reaches, Books, CallersAgree, Number, RepliesAt, TickerFits, Staged, Justified, Uses, ResolutionsOf,
      Timeouts, Deliveries, Resolutions;
    assert Core(c, s);
    NumberCountsAsCalls(c, s.calls, s.trail, n);
    ResolutionsWithinUses(c, s.trail, |s.calls|, n);
    if |s.calls| <= 0x1_0000_0000 {
      UsedOnceBeforeWrap(c, |s.calls|, n);
    }
  }

  /** The trail with a notice for each entry of `order`, in that order. */
  function Notified(s: State, order: seq<u32>): Trail
    requires forall n | n in order :: n in s.pending
    decreases |order|
  {
    if order == [] then s.trail
    else
      var last := order[|order| - 1];
      var e := s.pending[last];
      Then(Notified(s, order[..|order| - 1]), Resolved(e.call, last, Swept, s.now - e.since))
  }

  lemma {:induction false} NotifiedLater(s: State, s1: State, n: u32, order: seq<u32>)
    requires n in s.pending && s1.pending == s.pending - {n} && s1.now == s.now
    requires s1.trail == Then(s.trail, Resolved(s.pending[n].call, n, Swept, s.now - s.pending[n].since))
    requires forall m | m in order :: m in s1.pending
    ensures Notified(s1, order) == Notified(s, [n] + order)
    decreases |order|
  {
    if order == [] {
      assert [n] + order == [n];
    } else {
      var butLast := order[..|order| - 1];
      assert ([n] + order)[..|order|] == [n] + butLast;
      NotifiedLater(s, s1, n, butLast);
    }
  }

  lemma {:induction false} SweepNotifies(c: Config, s: State, order: seq<u32>)
    requires AllLate(c, s, order)
    ensures SweepAll(s, order).trail == Notified(s, order)
    decreases |order|
  {
    if order != [] {
      var s1 := Resolve(s, order[0], Swept);
      assert AllLate(c, s1, order[1..]);
      SweepNotifies(c, s1, order[1..]);
      NotifiedLater(s, s1, order[0], order[1..]);
      assert [order[0]] + order[1..] == order;
    }
  }

  lemma {:induction false} NoticesCount(s: State, order: seq<u32>, n: u32)
    requires forall m | m in order :: m in s.pending
    requires forall i, j | 0 <= i < j < |order| :: order[i] != order[j]
    ensures Timeouts(Notified(s, order), n) == Timeouts(s.trail, n) + if n in order then 1 else 0
    decreases |order|
  {
    if order != [] {
      var butLast := order[..|order| - 1];
      assert order == butLast + [order[|order| - 1]];
      NoticesCount(s, butLast, n);
    }
  }

  /**
   * The sweep behind every pass removes exactly the expired entries, notifies each
   * of them once and in turn, and notifies nothing else.
   */
  lemma SweepIsExact(c: Config, steps: seq<Step>, s: State, order: seq<u32>)
    requires Reaches(c, steps, s) && CanRead(c, s, EndPass(order))
    ensures var s' := DoRead(c, s, EndPass(order));
            && s'.pending == s.pending - Expired(s.pending, s.now, c.responseTimer)
            && s'.trail == Notified(s, order)
            && forall n: u32 :: Timeouts(s'.trail, n) ==
                 Timeouts(s.trail, n) + if n in Expired(s.pending, s.now, c.responseTimer) then 1 else 0
  {
    forall n: u32
      ensures Timeouts(Notified(s, order), n) ==
              Timeouts(s.trail, n) + if n in Expired(s.pending, s.now, c.responseTimer) then 1 else 0
    {
      NoticesCount(s, order, n);
    }
    hide Timeouts, Reaches, Core, RepliesAt, TickerFits, Staged, DoRead, Notified;
    ReachableIsFine(c, steps, s);
    EndPassIsExact(c, s, order);
  }

  lemma EndPassIsExact(c: Config, s: State, order: seq<u32>)
    requires Core(c, s) && Enumerates(order, Expired(s.pending, s.now, c.responseTimer))
    ensures var s' := DoRead(c, s, EndPass(order));
            && s'.pending == s.pending - Expired(s.pending, s.now, c.responseTimer)
            && s'.trail == Notified(s, order)
  {
    hide Core, SweepAll, Notified, Owed, StageOf, IsLate;
    var s1 := s.(lastRead := s.now);
    EndPassIsLate(c, s, order);
    CoreIgnoresLastRead(c, s);
    SweepKeeps(c, s1, order);
    SweepNotifies(c, s1, order);
    NotifiedIgnoresLastRead(s, order);
  }

  lemma {:induction false} NotifiedIgnoresLastRead(s: State, order: seq<u32>)
    requires forall n | n in order :: n in s.pending
    ensures Notified(s.(lastRead := s.now), order) == Notified(s, order)
    decreases |order|
  {
    if order != [] {
      NotifiedIgnoresLastRead(s, order[..|order| - 1]);
    }
  }

  // ---- replies -------------------------------------------------------------

  /**
   * Replies are conserved: as often as the dispatcher became bound to send reply p,
   * so often p is with a running handler or the reader, in the FIFO or the writer,
   * on the wire, or given up with the session.
   */
  lemma RepliesAreConserved(c: Config, steps: seq<Step>, s: State, p: Pdu)
    requires Reaches(c, steps, s)
    ensures Owed(s.trail)[p] ==
            s.handlers[p] + (if s.reader.Pushing? && s.reader.reply == p then 1 else 0)
            + multiset(s.fifo)[Reply(p)] + (if s.writer == Holding(Reply(p)) then 1 else 0)
            + multiset(s.written)[Reply(p)] + s.lost[p]
  {
    ReachableIsFine(c, steps, s);
    hide Reaches, Core, TickerFits, Staged, Owed;
    assert RepliesAt(s, p);
    UpcomingAt(s.reader, p);
    InWriterAt(s.writer, p);
  }

  /**
   * In a live session none is given up but by its own failed write. Without failed
   * writes every reply owed is on its way or on the wire, exactly as often as owed.
   */
  lemma LiveRepliesAreKept(c: Config, steps: seq<Step>, s: State, p: Pdu)
    requires Reaches(c, steps, s) && s.alive
    ensures s.lost == FailedReplies(c, Initial(), steps)
    ensures Writing(Write(false)) !in steps ==>
              Owed(s.trail)[p] ==
              s.handlers[p] + (if s.reader.Pushing? && s.reader.reply == p then 1 else 0)
              + multiset(s.fifo)[Reply(p)] + (if s.writer == Holding(Reply(p)) then 1 else 0)
              + multiset(s.written)[Reply(p)]
  {
    hide Inv, Apply, Owed;
    InitialIsFine(c);
    LiveRunLoses(c, Initial(), steps);
    RepliesAreConserved(c, steps, s, p);
    if Writing(Write(false)) !in steps {
      NothingFails(c, Initial(), steps);
    }
  }

  // ---- the keep-alive ticker -----------------------------------------------

  /**
   * While the ticker lives it has sent the numbers it read back, in the order in
   * which the reader forwarded them, and at most one more: at most one of its
   * enquire_links is unanswered at any time.
   */
  lemma KeepAliveIsInStep(c: Config, steps: seq<Step>, s: State)
    requires Reaches(c, steps, s) && !s.ticker.Dead?
    ensures s.heard <= s.forwarded
    ensures s.asked == if s.ticker.Listening? then s.heard + [Number(c, s.ticker.call)] else s.heard
  {
    ReachableIsFine(c, steps, s);
    hide Reaches, Core, RepliesAt, Staged, Number;
    assert TickerFits(c, s);
  }

  /**
   * The ticker's numbers are its own: an application request can share one only with
   * an enquire_link a multiple of 2^32 allocations away, so with none up to the wrap.
   */
  lemma KeepAliveNumbersAreItsOwn(c: Config, steps: seq<Step>, s: State, k: nat)
    requires Reaches(c, steps, s) && k < |s.calls| && s.calls[k].id != ENQUIRE_LINK
    ensures Number(c, k) in s.asked ==>
              exists j: nat :: j < |s.calls| && j != k && s.calls[j].id == ENQUIRE_LINK && (k - j) % 0x1_0000_0000 == 0
    ensures |s.calls| <= 0x1_0000_0000 ==> Number(c, k) !in s.asked
  {
    hide Inv, Apply, Number;
    InitialIsFine(c);
    RunKeepsAsked(c, Initial(), steps);
    if Number(c, k) in s.asked {
      var j :| 0 <= j < |s.calls| && s.calls[j].id == ENQUIRE_LINK && Number(c, j) == Number(c, k);
      SameNumberIff(c, j, k);
    }
  }

  /** How often the loop went to the socket. */
  function SocketReads(steps: seq<Step>): nat {
    if steps == [] then 0
    else
      (if steps[0] == Reading(Data) || steps[0] == Reading(Eof) || steps[0] == Reading(Timeout) then 1 else 0)
      + SocketReads(steps[1..])
  }

  function ReadsLeft(r: Reader): nat { if r.AtRead? || r.Unbound? || r.Accepted? then 1 else 0 }

  lemma DeadTickerStep(c: Config, s: State, step: Step)
    requires Core(c, s) && Staged(c, s) && s.ticker.Dead? && Enabled(c, s, step)
    ensures var s' := Apply(c, s, step);
            s'.ticker.Dead? && SocketReads([step]) + ReadsLeft(s'.reader) <= ReadsLeft(s.reader)
  {
    hide Core, Staged, DoRead, DoWrite, DoTick, DoCall, SocketReads, ReadsLeft, CanRead, CanWrite, HasRoom, MaySend,
      Open;
    match step
    case Reading(r) => DeadTickerRead(c, s, r);
    case Writing(w) =>
      WriteShape(c, s, w);
      NoSocketRead(step);
    case Calling(k, act) =>
      CallShape(s, k, act);
      NoSocketRead(step);
    case Ticking(t) =>
      DeadTickerTick(c, s, t);
      NoSocketRead(step);
    case Opening(o) => DeadTickerOpen(c, s, o);
    case _ => NoSocketRead(step);
  }

  lemma NoSocketRead(step: Step)
    requires !step.Reading?
    ensures SocketReads([step]) == 0
  {
    assert SocketReads([step][1..]) == 0;
  }

  lemma DeadTickerTick(c: Config, s: State, t: TickStep)
    requires s.ticker.Dead? && CanTick(c, s, t)
    ensures DoTick(c, s, t) == s
  {}

  lemma DeadTickerOpen(c: Config, s: State, o: OpenStep)
    requires CanOpen(c, s, o)
    ensures Open(s, o).ticker == s.ticker
    ensures SocketReads([Opening(o)]) + ReadsLeft(Open(s, o).reader) <= ReadsLeft(s.reader)
  {
    hide Established;
    NoSocketRead(Opening(o));
  }

  lemma DeadTickerRead(c: Config, s: State, r: ReadStep)
    requires Core(c, s) && Staged(c, s) && s.ticker.Dead? && CanRead(c, s, r)
    ensures var s' := DoRead(c, s, r);
            s'.ticker.Dead? && SocketReads([Reading(r)]) + ReadsLeft(s'.reader) <= ReadsLeft(s.reader)
  {
    hide Core, Staged, DispatchPdu, SweepAll, HasRoom, SetPlace, Sound;
    assert SocketReads([Reading(r)][1..]) == 0;
    match r
    case Receive(pdu, decodes) => DeadTickerDispatch(c, s, pdu, decodes);
    case EndPass(order) =>
      EndPassIsLate(c, s, order);
      CoreIgnoresLastRead(c, s);
      SweepKeeps(c, s.(lastRead := s.now), order);
    case _ => SetPlaceShape();
  }

  lemma DeadTickerDispatch(c: Config, s: State, pdu: Pdu, decodes: bool)
    requires Staged(c, s) && s.ticker.Dead? && s.reader.InPass?
    ensures DispatchPdu(c, s, pdu, decodes).ticker.Dead?
    ensures ReadsLeft(DispatchPdu(c, s, pdu, decodes).reader) == 0
  {
    hide Staged, DispatchPdu, Owes;
    DispatchIsSound(c, s, pdu, decodes);
    DispatchReadsNothing(c, s, pdu, decodes);
  }

  lemma MatchStays(c: Config, s: State, pdu: Pdu, decodes: bool, bad: Option<u32>, closes: bool)
    requires s.reader.InPass?
    ensures ReadsLeft(Match(c, s, pdu, decodes, bad, closes).reader) == 0
  {
    hide IsLate, IsAwaited, SetPlace;
    SetPlaceShape();
  }

  lemma DispatchReadsNothing(c: Config, s: State, pdu: Pdu, decodes: bool)
    requires s.reader.InPass?
    ensures ReadsLeft(DispatchPdu(c, s, pdu, decodes).reader) == 0
  {
    hide Match, Route;
    match Route(c.side, s.bind, pdu.id)
    case Correlate(bad, closes) => MatchStays(c, s, pdu, decodes, Some(bad), closes);
    case CorrelateNack => MatchStays(c, s, pdu, decodes, None, false);
    case _ =>
  }

  /**
   * A finished ticker ends the session: from then on the loop reads from the socket
   * at most once more, and the ticker is never restarted.
   */
  lemma {:induction false} DeadTickerEndsSession(c: Config, s: State, steps: seq<Step>)
    requires Inv(c, s) && s.ticker.Dead? && CanRun(c, s, steps)
    ensures Run(c, s, steps).ticker.Dead?
    ensures SocketReads(steps) + ReadsLeft(Run(c, s, steps).reader) <= ReadsLeft(s.reader) <= 1
    decreases |steps|
  {
    hide Core, RepliesAt, TickerFits, Staged, Apply, ReadsLeft;
    if steps != [] {
      var s1 := Apply(c, s, steps[0]);
      DeadTickerStep(c, s, steps[0]);
      StepKeepsInv(c, s, steps[0]);
      DeadTickerEndsSession(c, s1, steps[1..]);
      assert [steps[0]][1..] == [];
      assert SocketReads([steps[0]]) + SocketReads(steps[1..]) == SocketReads(steps);
    }
    assert ReadsLeft(s.reader) <= 1 by { AtMostOneRead(s.reader); }
  }

  lemma AtMostOneRead(r: Reader)
    ensures ReadsLeft(r) <= 1
  {}

  // ---- the lifecycle -------------------------------------------------------

  /**
   * on_esme_bound is called at most once and on_esme_unbound only after it, at most
   * once; a session that closed was told both, exactly once, and a refused one neither.
   */
  lemma LifecycleIsPaired(c: Config, steps: seq<Step>, s: State)
    requires Reaches(c, steps, s)
    ensures Unbounds(s.trail) <= Bounds(s.trail) <= 1
    ensures s.reader.Unbound? || s.reader.Refused? || s.reader.Accepted? <==> Bounds(s.trail) == 0
    ensures s.reader.Told? || s.reader.Closed? ==> Unbounds(s.trail) == 1
    ensures Unbounds(s.trail) == 1 ==> s.reader.Told? || s.reader.Closed? || s.reader.Aborted?
  {
    ReachableIsFine(c, steps, s);
    hide Reaches, Core, RepliesAt, TickerFits, StageOf, Bounds, Unbounds;
    assert Staged(c, s);
    StageCounts(c.side, s.trail);
  }

  /** The bind type the listener was told, if it was. */
  function BoundAs(t: Trail): Option<Bind> {
    match t
    case Start => None
    case Then(before, e) => if e.Bound? then Some(e.bind) else BoundAs(before)
  }

  /** What an accepted trail says of each event in it. */
  predicate Gated(side: Side, t: Trail, e: Event) {
    match e
    case Bound(_) => Occurs(t, BindAnswered(true))
    case Received(pdu, handled, owed) =>
      BoundAs(t).Some? && Permits(side, BoundAs(t).value, pdu, handled, owed)
    case _ => true
  }

  lemma {:induction false} AcceptedIsGated(side: Side, t: Trail, e: Event)
    requires !StageOf(side, t).Bad?
    ensures StageOf(side, t).Unopened? || StageOf(side, t).Admitted? ==> BoundAs(t).None?
    ensures StageOf(side, t).Admitted? ==> Occurs(t, BindAnswered(true))
    ensures WasBound(StageOf(side, t)) || StageOf(side, t).Over? ==> BoundAs(t) == Some(StageOf(side, t).bind)
    ensures StageOf(side, t).Rejected? ==> BoundAs(t).None?
    ensures Occurs(t, e) ==> Gated(side, t, e)
  {
    hide Permits;
    if t.Then? {
      AcceptedIsGated(side, t.before, e);
    }
  }

  /**
   * Gating: the bind answer was written before on_esme_bound; every PDU was dispatched
   * under the bind type so established, called the listener only where that type
   * allows, and owes its reply to its own number.
   */
  lemma DispatchIsGated(c: Config, steps: seq<Step>, s: State, e: Event)
    requires Reaches(c, steps, s) && Occurs(s.trail, e)
    ensures Gated(c.side, s.trail, e)
  {
    ReachableIsFine(c, steps, s);
    hide Reaches, Core, RepliesAt, TickerFits, StageOf, Gated;
    assert Staged(c, s);
    AcceptedIsGated(c.side, s.trail, e);
  }

  /** The PDUs dispatched, oldest first. */
  function Dispatches(t: Trail): seq<Pdu> {
    match t
    case Start => []
    case Then(before, e) => Dispatches(before) + if e.Received? then [e.pdu] else []
  }

  lemma {:induction false} UnbindIsLast(side: Side, t: Trail)
    requires !StageOf(side, t).Bad?
    ensures StageOf(side, t).Serving? ==> forall p | p in Dispatches(t) :: p.id != UNBIND
    ensures StageOf(side, t).Unopened? || StageOf(side, t).Admitted? ==> Dispatches(t) == []
    ensures forall i | 0 <= i < |Dispatches(t)| - 1 :: Dispatches(t)[i].id != UNBIND
  {
    hide Permits;
    if t.Then? {
      UnbindIsLast(side, t.before);
    }
  }

  /** No frame is dispatched after an unbind, and none before the bind. */
  lemma NothingFollowsUnbind(c: Config, steps: seq<Step>, s: State)
    requires Reaches(c, steps, s)
    ensures forall i | 0 <= i < |Dispatches(s.trail)| - 1 :: Dispatches(s.trail)[i].id != UNBIND
    ensures Bounds(s.trail) == 0 ==> Dispatches(s.trail) == []
  {
    ReachableIsFine(c, steps, s);
    hide Reaches, Core, RepliesAt, TickerFits, StageOf, Bounds, Unbounds, Dispatches;
    assert Staged(c, s);
    UnbindIsLast(c.side, s.trail);
    StageCounts(c.side, s.trail);
  }
}

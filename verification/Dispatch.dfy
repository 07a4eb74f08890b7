// The dispatch tables of the two session loops: which arm a PDU takes, by side of
// the session and bind type, and what may be sent back from that arm.

module Dispatch {
  import opened Bytes
  import opened Headers

  datatype Side = Server | Client

  datatype Bind = RX | TX | TRX

  /** `ok` is the reply to a PDU that decodes, `bad` the one to a PDU that does not. */
  datatype Arm =
    | Handle(ok: u32, bad: u32)           // a spawned task calls the listener and replies
    | Echo(ok: u32, bad: u32)             // the loop itself replies
    | Inform(bad: u32)                    // the listener is told, nothing is replied
    | Heartbeat                           // enquire_link_resp, passed on to the ticker
    | Leave(ok: u32, bad: u32)            // unbind: reply and stop
    | Correlate(bad: u32, closes: bool)   // a response, matched against the pending requests
    | CorrelateNack                       // generic_nack, which is never answered
    | Refuse                              // anything else: generic_nack

  function Route(side: Side, bind: Bind, id: u32): Arm {
    if side.Server? then RouteServer(bind, id) else RouteClient(bind, id)
  }

  function RouteServer(bind: Bind, id: u32): Arm {
    var sends := bind == TX || bind == TRX;
    if id == SUBMIT_SM && sends then Handle(RespId(SUBMIT_SM), RespId(SUBMIT_SM))
    else if id == SUBMIT_MULTI && sends then Handle(RespId(SUBMIT_MULTI), RespId(SUBMIT_MULTI))
    else if id == DATA_SM then Handle(RespId(DATA_SM), RespId(DATA_SM))
    else if id == CANCEL_SM && sends then Handle(RespId(CANCEL_SM), RespId(SUBMIT_SM))
    else if id == QUERY_SM && sends then Handle(RespId(QUERY_SM), RespId(QUERY_SM))
    else if id == REPLACE_SM && sends then Handle(RespId(REPLACE_SM), RespId(REPLACE_SM))
    else if id == ENQUIRE_LINK then Echo(RespId(ENQUIRE_LINK), RespId(SUBMIT_SM))
    else if id == RespId(ENQUIRE_LINK) then Heartbeat
    else if id == UNBIND then Leave(RespId(UNBIND), RespId(UNBIND))
    else if id == RespId(DELIVER_SM) && sends then Correlate(RespId(SUBMIT_SM), false)
    else if id == RespId(DATA_SM) then Correlate(RespId(SUBMIT_SM), false)
    else if id == GENERIC_NACK then CorrelateNack
    else Refuse
  }

  function RouteClient(bind: Bind, id: u32): Arm {
    var sends := bind == TX || bind == TRX;
    var receives := bind == RX || bind == TRX;
    if id == DELIVER_SM && receives then Handle(RespId(DELIVER_SM), RespId(SUBMIT_SM))
    else if id == DATA_SM then Handle(RespId(DATA_SM), RespId(DATA_SM))
    else if id == RespId(SUBMIT_SM) && sends then Correlate(GENERIC_NACK, false)
    else if id == RespId(SUBMIT_MULTI) && sends then Correlate(GENERIC_NACK, false)
    else if id == RespId(DATA_SM) && sends then Correlate(GENERIC_NACK, false)
    else if id == RespId(CANCEL_SM) then Correlate(GENERIC_NACK, false)
    else if id == RespId(QUERY_SM) then Correlate(GENERIC_NACK, false)
    else if id == RespId(REPLACE_SM) then Correlate(GENERIC_NACK, false)
    else if id == ALERT_NOTIFICATION then Inform(GENERIC_NACK)
    else if id == ENQUIRE_LINK then Echo(RespId(ENQUIRE_LINK), RespId(SUBMIT_SM))
    else if id == RespId(ENQUIRE_LINK) then Heartbeat
    else if id == UNBIND then Leave(RespId(UNBIND), RespId(UNBIND))
    else if id == RespId(UNBIND) then Correlate(GENERIC_NACK, true)
    else if id == GENERIC_NACK then CorrelateNack
    else Refuse
  }

  /** The listener is called for this PDU, if it decodes. */
  predicate CallsListener(arm: Arm) { arm.Handle? || arm.Inform? || arm.Leave? }

  /**
   * What an arm sends back by itself: to a PDU that decodes, or to one that does not.
   * A response is answered only when it does not decode.
   */
  function ReplyOf(arm: Arm, decodes: bool): Option<u32> {
    match arm
    case Handle(ok, bad) => Some(if decodes then ok else bad)
    case Echo(ok, bad) => Some(if decodes then ok else bad)
    case Inform(bad) => if decodes then None else Some(bad)
    case Heartbeat => None
    case Leave(ok, bad) => Some(if decodes then ok else bad)
    case Correlate(bad, _) => if decodes then None else Some(bad)
    case CorrelateNack => None
    case Refuse => Some(GENERIC_NACK)
  }

  predicate CanSendBack(arm: Arm, id: u32) { ReplyOf(arm, true) == Some(id) || ReplyOf(arm, false) == Some(id) }

  /** The requests an endpoint originates: the send_* gates and the keep-alive ticker. */
  predicate MaySend(side: Side, bind: Bind, id: u32) {
    if id == ENQUIRE_LINK || id == UNBIND then true
    else if side.Server? then id == DATA_SM || (bind != TX && id in {DELIVER_SM, ALERT_NOTIFICATION})
    else bind != RX && id in {SUBMIT_SM, SUBMIT_MULTI, DATA_SM, CANCEL_SM, QUERY_SM, REPLACE_SM}
  }

  /** A response to `id` reaches the pending-request table rather than being refused. */
  predicate Settles(side: Side, bind: Bind, id: u32) {
    var arm := Route(side, bind, RespId(id));
    arm.Correlate? || arm.Heartbeat?
  }

  // ---- what the tables promise ---------------------------------------------

  function Other(side: Side): Side { if side.Server? then Client else Server }

  /**
   * The two tables against the two sets of send gates: one side hands exactly those
   * message operations to a listener that the other side may send under the same bind
   * type, and the server a data_sm on a receiver bind besides; it answers any request
   * with that request's own response.
   */
  lemma HandlersAreGated(side: Side, bind: Bind, id: u32)
    ensures Route(side, bind, id).Handle? <==>
            || (MaySend(Other(side), bind, id) && id !in {ENQUIRE_LINK, UNBIND, ALERT_NOTIFICATION})
            || (side.Server? && bind == RX && id == DATA_SM)
    ensures var arm := Route(side, bind, id);
            arm.Handle? || arm.Leave? || arm.Echo? ==> arm.ok == RespId(id)
  {}

  /** Whatever one side may send, the other serves rather than refuses. */
  lemma SentIsServed(side: Side, bind: Bind, id: u32)
    requires MaySend(side, bind, id)
    ensures var arm := Route(Other(side), bind, id);
            arm.Handle? || arm.Leave? || arm.Echo? || (arm.Inform? && id == ALERT_NOTIFICATION)
  {}

  /**
   * The reply to a request this side may send is correlated, except for a
   * deliver_sm sent on a receiver bind and an unbind sent by the server, whose
   * responses the server refuses; alert_notification has no response.
   */
  lemma SettlesIff(side: Side, bind: Bind, id: u32)
    requires MaySend(side, bind, id)
    ensures Settles(side, bind, id) <==>
            !(id == ALERT_NOTIFICATION
              || (side.Server? && (id == UNBIND || (id == DELIVER_SM && bind == RX))))
  {}

  // ---- no reply storm ------------------------------------------------------

  /**
   * A PDU on its way to one side of a closed system of one client and one server, and
   * whether its body decodes there.
   */
  datatype Packet = Packet(dest: Side, id: u32, decodes: bool)

  predicate IsRequest(id: u32) {
    id in {SUBMIT_SM, SUBMIT_MULTI, DATA_SM, CANCEL_SM, QUERY_SM, REPLACE_SM, DELIVER_SM, ENQUIRE_LINK, UNBIND}
  }

  /**
   * The rank a reply falls in. By id: requests, then the two responses the server
   * answers when they do not decode, then the rest, then generic_nack. Where every
   * reply is known to decode (`clean`) two of these levels are one.
   */
  function Rank(clean: bool, p: Packet): nat {
    if p.id == GENERIC_NACK then 0
    else if clean then (if !p.decodes || IsRequest(p.id) then 2 else 1)
    else if IsRequest(p.id) then 3
    else if p.id in {RespId(DELIVER_SM), RespId(DATA_SM)} then 2
    else 1
  }

  function ReplyTo(bind: Bind, p: Packet): Option<u32> { ReplyOf(Route(p.dest, bind, p.id), p.decodes) }

  /** generic_nack is not answered, and no reply is a request. */
  lemma RepliesAreNoRequests(side: Side, bind: Bind, id: u32, decodes: bool)
    ensures var reply := ReplyOf(Route(side, bind, id), decodes);
            reply.Some? ==> id != GENERIC_NACK && !IsRequest(reply.value)
  {}

  /** What is no request is answered, if it decodes, with generic_nack at most. */
  lemma ResponsesAreNacked(side: Side, bind: Bind, id: u32)
    requires !IsRequest(id)
    ensures ReplyOf(Route(side, bind, id), true) in {None, Some(GENERIC_NACK)}
  {}

  /** What is no request is answered, if it does not decode, with something of lower rank. */
  lemma ComplaintsDrop(side: Side, bind: Bind, id: u32)
    requires !IsRequest(id)
    ensures var reply := ReplyOf(Route(side, bind, id), false);
            reply.Some? && reply.value != GENERIC_NACK ==>
              id in {RespId(DELIVER_SM), RespId(DATA_SM)} && reply.value == RespId(SUBMIT_SM)
  {}

  /** Every automatic reply has smaller rank than what it answers, whether or not it will decode. */
  lemma ReplyRankDrops(clean: bool, bind: Bind, p: Packet, reply: u32, decodes: bool)
    requires ReplyTo(bind, p) == Some(reply) && (clean ==> decodes)
    ensures Rank(clean, Packet(Other(p.dest), reply, decodes)) < Rank(clean, p)
  {
    hide Route, ReplyOf, IsRequest;
    RepliesAreNoRequests(p.dest, bind, p.id, p.decodes);
    if !IsRequest(p.id) {
      ResponsesAreNacked(p.dest, bind, p.id);
      ComplaintsDrop(p.dest, bind, p.id);
    }
  }

  /**
   * Delivery of the i-th packet in flight, with the reply it causes, if one is sent,
   * and whether that reply will decode where it arrives.
   */
  datatype Delivery = Delivery(i: nat, reply: Option<u32>, decodes: bool)

  predicate Possible(bind: Bind, flight: seq<Packet>, d: Delivery) {
    d.i < |flight| && (d.reply.Some? ==> d.reply == ReplyTo(bind, flight[d.i]))
  }

  function Deliver(bind: Bind, flight: seq<Packet>, d: Delivery): seq<Packet>
    requires Possible(bind, flight, d)
  {
    flight[..d.i] + flight[d.i + 1..]
    + if d.reply.Some? then [Packet(Other(flight[d.i].dest), d.reply.value, d.decodes)] else []
  }

  /** Every reply sent in the run decodes. */
  predicate Clean(run: seq<Delivery>) { forall d | d in run :: d.decodes }

  predicate PossibleRun(bind: Bind, flight: seq<Packet>, run: seq<Delivery>)
    decreases |run|
  {
    run == [] || (Possible(bind, flight, run[0]) && PossibleRun(bind, Deliver(bind, flight, run[0]), run[1..]))
  }

  /** The most deliveries the packets in flight can still cause. */
  function Potential(clean: bool, flight: seq<Packet>): nat {
    if flight == [] then 0 else Rank(clean, flight[0]) + 1 + Potential(clean, flight[1..])
  }

  lemma {:induction false} PotentialAppend(clean: bool, a: seq<Packet>, b: seq<Packet>)
    ensures Potential(clean, a + b) == Potential(clean, a) + Potential(clean, b)
  {
    hide Rank;
    if a == [] {
      assert a + b == b;
    } else {
      assert (a + b)[1..] == a[1..] + b;
      PotentialAppend(clean, a[1..], b);
    }
  }

  lemma DeliverySpendsPotential(clean: bool, bind: Bind, flight: seq<Packet>, d: Delivery)
    requires Possible(bind, flight, d) && (clean ==> d.decodes)
    ensures Potential(clean, Deliver(bind, flight, d)) < Potential(clean, flight)
  {
    hide Rank, ReplyTo;
    var taken, before, behind := flight[d.i], flight[..d.i], flight[d.i + 1..];
    assert flight == before + ([taken] + behind);
    PotentialAppend(clean, before, [taken] + behind);
    PotentialAppend(clean, [taken], behind);
    PotentialAppend(clean, before, behind);
    if d.reply.Some? {
      PotentialAppend(clean, before + behind, [Packet(Other(taken.dest), d.reply.value, d.decodes)]);
      ReplyRankDrops(clean, bind, taken, d.reply.value, d.decodes);
    } else {
      assert before + behind + [] == before + behind;
    }
  }

  lemma {:induction false} PotentialBound(clean: bool, flight: seq<Packet>)
    ensures Potential(clean, flight) <= (if clean then 3 else 4) * |flight|
  {
    if flight != [] {
      PotentialBound(clean, flight[1..]);
    }
  }

  lemma {:induction false} RunSpendsPotential(clean: bool, bind: Bind, flight: seq<Packet>, run: seq<Delivery>)
    requires PossibleRun(bind, flight, run) && (clean ==> Clean(run))
    ensures |run| <= Potential(clean, flight)
    decreases |run|
  {
    if run != [] {
      assert run[0] in run && forall d | d in run[1..] :: d in run;
      DeliverySpendsPotential(clean, bind, flight, run[0]);
      RunSpendsPotential(clean, bind, Deliver(bind, flight, run[0]), run[1..]);
    }
  }

  /**
   * Left to itself the system falls silent. Whatever is in flight, whichever replies
   * are sent in whatever order, and whether or not they decode, at most four deliveries
   * follow per PDU, three of them of automatic replies; if all replies decode, three.
   */
  lemma NoReplyStorm(bind: Bind, flight: seq<Packet>, run: seq<Delivery>)
    requires PossibleRun(bind, flight, run)
    ensures |run| <= 4 * |flight|
    ensures Clean(run) ==> |run| <= 3 * |flight|
  {
    hide Clean;
    RunSpendsPotential(false, bind, flight, run);
    PotentialBound(false, flight);
    if Clean(run) {
      RunSpendsPotential(true, bind, flight, run);
      PotentialBound(true, flight);
    }
  }

  /**
   * The bound of four is met: a data_sm the server may send on a receiver bind is
   * answered with a data_sm_resp that does not decode, the server complains with a
   * submit_sm_resp, the client refuses that, and the server drops the nack.
   */
  lemma FourDeliveriesHappen() returns (run: seq<Delivery>)
    ensures MaySend(Server, RX, DATA_SM)
    ensures |run| == 4 && PossibleRun(RX, [Packet(Client, DATA_SM, true)], run)
    ensures forall i | 0 <= i < 4 :: run[i].decodes <==> i != 0
  {
    run := [Delivery(0, Some(RespId(DATA_SM)), false), Delivery(0, Some(RespId(SUBMIT_SM)), true),
            Delivery(0, Some(GENERIC_NACK), true), Delivery(0, None, true)];
    var f0 := [Packet(Client, DATA_SM, true)];
    var f1 := Deliver(RX, f0, run[0]);
    assert f1 == [Packet(Server, RespId(DATA_SM), false)];
    var f2 := Deliver(RX, f1, run[1]);
    assert f2 == [Packet(Client, RespId(SUBMIT_SM), true)];
    var f3 := Deliver(RX, f2, run[2]);
    assert f3 == [Packet(Server, GENERIC_NACK, true)];
    assert run[1..][1..][1..] == [run[3]];
    assert PossibleRun(RX, f3, [run[3]]);
    assert PossibleRun(RX, f2, run[1..][1..]);
    assert PossibleRun(RX, f1, run[1..]);
  }

  /**
   * The bound of three is met by replies that all decode: a deliver_sm the server
   * may send on a receiver bind is answered, the server refuses the answer, and the client drops the nack.
   */
  lemma ThreeDeliveriesHappen() returns (run: seq<Delivery>)
    ensures MaySend(Server, RX, DELIVER_SM)
    ensures |run| == 3 && Clean(run) && PossibleRun(RX, [Packet(Client, DELIVER_SM, true)], run)
  {
    run := [Delivery(0, Some(RespId(DELIVER_SM)), true), Delivery(0, Some(GENERIC_NACK), true),
            Delivery(0, None, true)];
    var f0 := [Packet(Client, DELIVER_SM, true)];
    var f1 := Deliver(RX, f0, run[0]);
    assert f1 == [Packet(Server, RespId(DELIVER_SM), true)];
    var f2 := Deliver(RX, f1, run[1]);
    assert f2 == [Packet(Client, GENERIC_NACK, true)];
    assert run[1..][1..] == [run[2]];
    assert PossibleRun(RX, f2, [run[2]]);
    assert PossibleRun(RX, f1, run[1..]);
  }
}

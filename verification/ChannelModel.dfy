/** Two endpoints of the transaction layer over a channel that loses, duplicates and reorders.

    Both endpoints run the full layer of XactModel, with their own requests, answers, timers and any
    amount of traffic with other peers.  A packet stays in the channel for ever and may be delivered
    any number of times (or never) inside its delay window. */
module ChannelModel {
  import opened Options
  import opened GtpMessage
  import opened XactModel
  import XI = XactInvariants

  /** One-way delays lie in [delay, delay + spread]; a timer event is served when its expiry time has
      passed and at most `late` milliseconds after it. */
  datatype Link = Link(delay: nat, spread: nat, late: nat)

  datatype Side = Left | Right

  function Other(side: Side): Side {
    if side.Left? then Right else Left
  }

  /** The number under which each endpoint knows the other one. */
  const PEER: Node := 0

  // Records of what happened, referred to by their position.

  /** What an application asked to be said. */
  datatype Message = Message(kind: Octet, teid: bv32, body: seq<Octet>)

  datatype Request = Request(side: Side, time: nat, xid: bv32, pkt: Packet, entry: Index, said: Message)
  datatype Delivery = Delivery(side: Side, time: nat, request: nat, entry: Index, got: Packet)
  datatype Reply = Reply(side: Side, time: nat, delivery: nat, pkt: Packet, said: Message)
  datatype Acceptance = Acceptance(side: Side, time: nat, request: nat, reply: nat, got: Packet)

  datatype Hist = Hist(requests: seq<Request>, deliveries: seq<Delivery>,
                       replies: seq<Reply>, acceptances: seq<Acceptance>)

  datatype Source = FromRequest(n: nat) | FromReply(n: nat)
  datatype Flight = Flight(side: Side, sent: nat, pkt: Packet, source: Source)

  /** A layer, with the record each of its transactions with the peer belongs to: the request a local
      one was created for, the delivery that started a remote one, the reply that answered it. */
  datatype End = End(layer: Layer, birth: map<Index, nat>, cause: map<Index, nat>, answer: map<Index, nat>)

  function Get(m: map<Index, nat>, i: Index): nat {
    if i in m then m[i] else 0
  }

  datatype Sys = Sys(now: nat, left: End, right: End, flights: set<Flight>, hist: Hist)

  function EndOf(s: Sys, side: Side): End {
    if side.Left? then s.left else s.right
  }

  function WithEnd(s: Sys, side: Side, e: End): Sys {
    if side.Left? then s.(left := e) else s.(right := e)
  }

  function Launch(s: Sys, side: Side, sent: Option<Packet>, source: Source): Sys {
    if sent.Some? then s.(flights := s.flights + {Flight(side, s.now, sent.value, source)}) else s
  }

  function InitialSys(): Sys {
    var e := End(InitialLayer(Config(true, true)), map[], map[], map[]);
    Sys(0, e, e, {}, Hist([], [], [], []))
  }

  /** A transaction with the other endpoint. */
  predicate Live(s: Layer, i: Index) {
    i in s.pool && s.pool[i].gnode == PEER
  }

  datatype Step =
    | Tick(dt: nat)
    | Ask(side: Side, kind: Octet, teid: bv32, body: seq<Octet>, sendOk: bool)
    | Deliver(side: Side, flight: Flight, sendOk: bool)
    | Answer(side: Side, i: Index, kind: Octet, teid: bv32, body: seq<Octet>, sendOk: bool)
    | Conclude(side: Side, i: Index)
    | Expire(side: Side, i: Index, timer: TimerEvent, sendOk: bool)
    | Elsewhere(side: Side, event: XI.Event)

  /** Traffic that involves other peers only. */
  predicate OtherPeers(s: Layer, e: XI.Event) {
    XI.Enabled(s, e) &&
    match e
    case LocalCreateEv(node, _, _, _) => node != PEER
    case ReceiveEv(node, _, _, _) => node != PEER
    case UpdateTxEv(i, _, _, _) => !Live(s, i)
    case CommitEv(i, _) => !Live(s, i)
    case TimeoutEv(i, _, _) => !Live(s, i)
    case AssociateEv(_, _) => true
    case DeassociateEv(_, _) => true
    case DropAllEv(node) => node != PEER
  }

  predicate Due(t: Timer, now: nat) {
    t.Running? && t.expire < now
  }

  /** The clock may advance to `now` without leaving a timer of this transaction unserved. */
  predicate OnTime(link: Link, x: Xact, now: nat) {
    && (x.tmResponse.Running? ==> now <= x.tmResponse.expire + link.late)
    && (x.tmHolding.Running? ==> now <= x.tmHolding.expire + link.late)
  }

  ghost predicate Possible(link: Link, s: Sys, step: Step) {
    match step
    case Tick(dt) =>
      forall side, i | Live(EndOf(s, side).layer, i) :: OnTime(link, EndOf(s, side).layer.pool[i], s.now + dt)
    case Ask(side, kind, teid, body, sendOk) => true
    case Deliver(side, f, sendOk) =>
      f in s.flights && f.side == Other(side) && f.sent + link.delay <= s.now <= f.sent + link.delay + link.spread
    case Answer(side, i, kind, teid, body, sendOk) =>
      var layer := EndOf(s, side).layer;
      Live(layer, i) && layer.pool[i].org.Remote? && StageOf(kind, layer.pool[i].xid) == Final
    case Conclude(side, i) =>
      var layer := EndOf(s, side).layer;
      Live(layer, i) && 2 <= layer.pool[i].step <= 3 && !XI.TxPosition(layer.pool[i].org, layer.pool[i].step - 1)
    case Expire(side, i, timer, sendOk) =>
      var layer := EndOf(s, side).layer;
      && Live(layer, i) && 1 <= layer.pool[i].step <= 3
      && Due(if timer.ResponseTimeout? then layer.pool[i].tmResponse else layer.pool[i].tmHolding, s.now)
    case Elsewhere(side, e) => OtherPeers(EndOf(s, side).layer, e)
  }

  ghost function After(link: Link, s: Sys, step: Step): Sys
    requires Possible(link, s, step)
  {
    match step
    case Tick(dt) => s.(now := s.now + dt)
    case Ask(side, kind, teid, body, sendOk) => AfterAsk(s, side, kind, teid, body, sendOk)
    case Deliver(side, f, sendOk) => AfterDeliver(s, side, f, sendOk)
    case Answer(side, i, kind, teid, body, sendOk) => AfterAnswer(s, side, i, kind, teid, body, sendOk)
    case Conclude(side, i) =>
      var e := EndOf(s, side);
      WithEnd(s, side, e.(layer := Apply(e.layer, i, Commit(e.layer.pool[i], s.now, true))))
    case Expire(side, i, timer, sendOk) => AfterExpire(s, side, i, timer, sendOk)
    case Elsewhere(side, event) =>
      var e := EndOf(s, side);
      WithEnd(s, side, e.(layer := XI.Next(e.layer, event, s.now)))
  }

  /** An application request: create, then commit, as every caller does. */
  function AfterAsk(s: Sys, side: Side, kind: Octet, teid: bv32, body: seq<Octet>, sendOk: bool): Sys {
    var e := EndOf(s, side);
    var created := LocalCreate(e.layer, PEER, kind, teid, body);
    if created.xact.None? then WithEnd(s, side, e.(layer := created.layer))
    else
      var i, n := created.xact.value, |s.hist.requests|;
      var x := created.layer.pool[i];
      var v := Commit(x, s.now, sendOk);
      var pkt := BuildPacket(x.xid, kind, teid, body);
      var t := WithEnd(s, side, e.(layer := Apply(created.layer, i, v), birth := e.birth[i := n]));
      var u := t.(hist := s.hist.(requests := s.hist.requests + [Request(side, s.now, x.xid, pkt, i, Message(kind, teid, body))]));
      if v.Keep? then Launch(u, side, v.sent, FromRequest(n)) else u
  }

  /** A packet arrives.  What it leads to depends on what the layer makes of it: a request handed to the
      application, an answer accepted for a local transaction, or the stored answer sent again. */
  function AfterDeliver(s: Sys, side: Side, f: Flight, sendOk: bool): Sys {
    var e := EndOf(s, side);
    var found := FindByXid(e.layer, PEER, f.pkt.kind, SqnToXid(f.pkt.sqn));
    var r := Receive(e.layer, PEER, f.pkt.kind, f.pkt.sqn, s.now, sendOk);
    var t := WithEnd(s, side, e.(layer := r.layer));
    if r.status == Ok && f.source.FromRequest? then
      var k := |s.hist.deliveries|;
      WithEnd(s, side, e.(layer := r.layer, cause := e.cause[r.xact.value := k]))
        .(hist := s.hist.(deliveries := s.hist.deliveries + [Delivery(side, s.now, f.source.n, r.xact.value, f.pkt)]))
    else if r.status == Ok && r.layer.pool[r.xact.value].org.Local? then
      t.(hist := s.hist.(acceptances := s.hist.acceptances +
           [Acceptance(side, s.now, Get(e.birth, r.xact.value), f.source.n, f.pkt)]))
    else if found.Some? then Launch(t, side, r.sent, FromReply(Get(e.answer, found.value)))
    else t
  }

  /** The application answers a request: update_tx and, if that succeeds, commit. */
  function AfterAnswer(s: Sys, side: Side, i: Index, kind: Octet, teid: bv32, body: seq<Octet>, sendOk: bool): Sys
    requires i in EndOf(s, side).layer.pool
  {
    var e := EndOf(s, side);
    var (status, x) := UpdateTx(e.layer.pool[i], kind, teid, body);
    if status != Ok then s
    else
      var m := |s.hist.replies|;
      var v := Commit(x, s.now, sendOk);
      var pkt := BuildPacket(x.xid, kind, teid, body);
      var t := WithEnd(s, side, e.(layer := Apply(Put(e.layer, i, x), i, v), answer := e.answer[i := m]));
      var u := t.(hist := s.hist.(replies := s.hist.replies + [Reply(side, s.now, Get(e.cause, i), pkt, Message(kind, teid, body))]));
      if v.Keep? then Launch(u, side, v.sent, FromReply(m)) else u
  }

  function AfterExpire(s: Sys, side: Side, i: Index, timer: TimerEvent, sendOk: bool): Sys
    requires i in EndOf(s, side).layer.pool && 1 <= EndOf(s, side).layer.pool[i].step <= 3
  {
    var e := EndOf(s, side);
    var v := Timeout(e.layer.pool[i], timer, s.now, sendOk);
    var t := WithEnd(s, side, e.(layer := Apply(e.layer, i, v)));
    if v.Delete? then t
    else if e.layer.pool[i].org.Local? then Launch(t, side, v.sent, FromRequest(Get(e.birth, i)))
    else Launch(t, side, v.sent, FromReply(Get(e.answer, i)))
  }

  ghost predicate IsRun(link: Link, states: seq<Sys>, steps: seq<Step>) {
    && |states| == |steps| + 1 && states[0] == InitialSys()
    && forall k | 0 <= k < |steps| :: Possible(link, states[k], steps[k]) && states[k + 1] == After(link, states[k], steps[k])
  }

  /** No request with this identifier is handed to the responder's application twice. */
  ghost predicate OnceOnly(h: Hist, xid: bv32) {
    forall i, j | 0 <= i < j < |h.deliveries| && h.deliveries[i].request < |h.requests|
                  && h.requests[h.deliveries[i].request].xid == xid ::
      h.deliveries[i].request != h.deliveries[j].request
  }
}

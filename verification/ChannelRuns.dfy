/** Runs of the two-endpoint system that hand a request to the application twice, for every identifier a
    request can have. */
module ChannelRuns {
  import opened Options
  import opened GtpMessage
  import opened XactModel
  import opened ChannelModel
  import opened ChannelInvariants
  import opened ChannelSteps
  import opened XactReach
  import XI = XactInvariants

  /** A run as far as it got. */
  datatype Run = Run(states: seq<Sys>, steps: seq<Step>)

  ghost predicate Goes(link: Link, r: Run) {
    |r.states| == |r.steps| + 1 && IsRun(link, r.states, r.steps)
  }

  function Last(r: Run): Sys
    requires |r.states| > 0
  {
    r.states[|r.states| - 1]
  }

  ghost function Then(link: Link, r: Run, step: Step): Run
    requires Goes(link, r) && Possible(link, Last(r), step)
  {
    Run(r.states + [After(link, Last(r), step)], r.steps + [step])
  }

  lemma ThenGoes(link: Link, r: Run, step: Step)
    requires Goes(link, r) && Possible(link, Last(r), step)
    ensures Goes(link, Then(link, r, step)) && Last(Then(link, r, step)) == After(link, Last(r), step)
  {
    hide Possible, After;
  }

  lemma EndInv(link: Link, r: Run, side: Side)
    requires Goes(link, r)
    ensures XI.Inv(EndOf(Last(r), side).layer) && EndOf(Last(r), side).layer.cfg == Config(true, true)
  {
    hide IsRun, XI.Inv, RecordsOk, Apart, HeldAll, FlightOk;
    RunOk(link, r.states, r.steps, |r.steps|);
    assert EndOk(link, Last(r).hist, Last(r).now, side, EndOf(Last(r), side));
  }

  // ---------------------------------------------------------------- choosing the identifiers

  /** Nothing has happened between the endpoints yet. */
  ghost predicate Quiet(s: Sys, left: bv32, right: bv32) {
    && s.now == 0 && s.flights == {} && s.hist == Hist([], [], [], [])
    && s.left.layer.pool == map[] && s.right.layer.pool == map[]
    && s.left.layer.free != [] && s.right.layer.free != []
    && s.left.layer.xactId == left && s.right.layer.xactId == right
    && s.left.birth == map[] && s.right.birth == map[]
  }

  lemma StartQuiet(link: Link)
    ensures Goes(link, Run([InitialSys()], [])) && Quiet(InitialSys(), 0, 0)
  {
  }

  /** A request to another peer and its deletion move one counter and nothing else. */
  lemma RoundRun(link: Link, r: Run, side: Side, left: bv32, right: bv32) returns (r1: Run)
    requires Goes(link, r) && Quiet(Last(r), left, right)
    ensures Goes(link, r1)
    ensures Quiet(Last(r1), if side.Left? then NextId(left) else left, if side.Left? then right else NextId(right))
  {
    hide IsRun, XI.Inv, LocalCreate, DropAll, NextId;
    EndInv(link, r, side);
    var s := Last(r);
    var layer := EndOf(s, side).layer;
    Round(layer);
    var a, b := Elsewhere(side, XI.LocalCreateEv(ASIDE, 32, 0, [])), Elsewhere(side, XI.DropAllEv(ASIDE));
    assert Possible(link, s, a);
    ThenGoes(link, r, a);
    var t := Last(Then(link, r, a));
    assert EndOf(t, side).layer == Asked(layer);
    assert Possible(link, t, b);
    ThenGoes(link, Then(link, r, a), b);
    r1 := Then(link, Then(link, r, a), b);
    assert EndOf(Last(r1), side).layer == DropAll(Asked(layer), ASIDE);
  }

  lemma {:induction false} Choose(link: Link, r: Run, side: Side, left: bv32, right: bv32, target: bv32) returns (r1: Run)
    requires Goes(link, r) && Quiet(Last(r), left, right) && (if side.Left? then left else right) == 0
    requires target <= MAX_XACT_ID
    ensures Goes(link, r1)
    ensures Quiet(Last(r1), if side.Left? then target else left, if side.Left? then right else target)
    decreases target
  {
    hide Goes, Quiet;
    r1 := r;
    if target != 0 {
      Before(target);
      r1 := Choose(link, r, side, left, right, target - 1);
      r1 := RoundRun(link, r1, side, if side.Left? then target - 1 else left, if side.Left? then right else target - 1);
    }
  }

  // ---------------------------------------------------------------- what the steps of an exchange do

  /** A Create Session Request and its answer. */
  function TheRequest(xid: bv32): Packet {
    BuildPacket(xid, 32, 0, [])
  }

  function TheAnswer(xid: bv32): Packet {
    BuildPacket(xid, 33, 0, [])
  }

  function Asking(xid: bv32, rcount: Octet, expire: nat): Xact {
    Xact(Local, xid, PEER, 1, [Slot(32, Some(TheRequest(xid))), Slot(0, None), Slot(0, None)],
         Running(expire), rcount, Idle, 1, None)
  }

  function Holding(xid: bv32, expire: nat): Xact {
    Xact(Remote, xid, PEER, 1, [Slot(32, None), Slot(0, None), Slot(0, None)],
         Idle, 3, Running(expire), 1, None)
  }

  function Answered(xid: bv32, expire: nat): Xact {
    Xact(Remote, xid, PEER, 2, [Slot(32, None), Slot(33, Some(TheAnswer(xid))), Slot(0, None)],
         Idle, 3, Running(expire), 1, None)
  }

  function Ended(xid: bv32, expire: nat): Xact {
    Xact(Remote, xid, PEER, 3, [Slot(32, None), Slot(33, Some(TheAnswer(xid))), Slot(33, None)],
         Idle, 3, Running(expire), 1, None)
  }

  lemma AskIs(s: Sys, side: Side)
    requires var layer := EndOf(s, side).layer;
             XI.Inv(layer) && layer.cfg == Config(true, true) && layer.free != []
    ensures var t, e := AfterAsk(s, side, 32, 0, [], true), EndOf(s, side);
            var i, xid, n := e.layer.free[0], NextId(e.layer.xactId), |s.hist.requests|;
            && i !in e.layer.pool && t.now == s.now && EndOf(t, Other(side)) == EndOf(s, Other(side))
            && EndOf(t, side).layer.pool == e.layer.pool[i := Asking(xid, 3, s.now + RESPONSE_DURATION)]
            && EndOf(t, side).layer.free == e.layer.free[1..] && EndOf(t, side).birth == e.birth[i := n]
            && t.flights == s.flights + {Flight(side, s.now, TheRequest(xid), FromRequest(n))}
            && t.hist == s.hist.(requests := s.hist.requests + [Request(side, s.now, xid, TheRequest(xid), i, Message(32, 0, []))])
  {
    var e := EndOf(s, side);
    AskedLayer(e.layer, s.now);
    hide XI.Inv, NextId, LocalCreate, Commit, BuildPacket, Asking;
  }

  lemma AskedLayer(layer: Layer, now: nat)
    requires XI.Inv(layer) && layer.cfg == Config(true, true) && layer.free != []
    ensures var r, i, xid := LocalCreate(layer, PEER, 32, 0, []), layer.free[0], NextId(layer.xactId);
            && i !in layer.pool && r.xact == Some(i) && r.layer.free == layer.free[1..]
            && i in r.layer.pool && r.layer.pool[i].xid == xid && r.layer.pool[i].step == 1
            && r.layer.pool[i := Asking(xid, 3, now + RESPONSE_DURATION)] == layer.pool[i := Asking(xid, 3, now + RESPONSE_DURATION)]
            && Commit(r.layer.pool[i], now, true) == Keep(Ok, Asking(xid, 3, now + RESPONSE_DURATION), Some(TheRequest(xid)))
  {
    var i, xid := layer.free[0], NextId(layer.xactId);
    assert i in layer.free;
    FreshAsking(xid, now);
    hide XI.Inv, NextId, UpdateTx, Commit, Asking, NewXact;
    var x := NewXact(layer.cfg, Local, xid, PEER);
    assert LocalCreate(layer, PEER, 32, 0, []).layer.pool == layer.pool[i := x][i := UpdateTx(x, 32, 0, []).1];
  }

  ghost predicate NoRemote(layer: Layer) {
    forall i | i in layer.pool :: layer.pool[i].org.Local?
  }

  lemma NoneFound(layer: Layer, xid: bv32)
    requires XI.ListsOk(layer) && NoRemote(layer)
    ensures FirstWith(layer.pool, ListOf(layer, ListKey(PEER, Remote)), xid) == None
  {
    var r := FirstWith(layer.pool, ListOf(layer, ListKey(PEER, Remote)), xid);
    assert r.Some? ==> KeyOf(layer.pool[r.value]).org.Remote?;
  }

  lemma DeliverIs(s: Sys, side: Side, f: Flight, xid: bv32)
    requires var layer := EndOf(s, side).layer;
             XI.Inv(layer) && layer.cfg == Config(true, true) && layer.free != [] && NoRemote(layer)
    requires f.pkt == TheRequest(xid) && f.source.FromRequest? && xid < 0x100_0000
    ensures var t, e := AfterDeliver(s, side, f, true), EndOf(s, side);
            var i := e.layer.free[0];
            && i !in e.layer.pool && t.now == s.now && EndOf(t, Other(side)) == EndOf(s, Other(side)) && t.flights == s.flights
            && EndOf(t, side).layer.pool == e.layer.pool[i := Holding(xid, s.now + HOLDING_DURATION)]
            && EndOf(t, side).layer.free == e.layer.free[1..] && EndOf(t, side).birth == e.birth
            && EndOf(t, side).layer.xactId == e.layer.xactId
            && t.hist == s.hist.(deliveries := s.hist.deliveries + [Delivery(side, s.now, f.source.n, i, f.pkt)])
  {
    DeliveredLayer(EndOf(s, side).layer, xid, s.now);
    hide XI.Inv, Receive, Holding, NoRemote, FindByXid;
  }

  lemma DeliveredLayer(layer: Layer, xid: bv32, now: nat)
    requires XI.Inv(layer) && layer.cfg == Config(true, true) && layer.free != [] && NoRemote(layer) && xid < 0x100_0000
    ensures var r, i := Receive(layer, PEER, 32, TheRequest(xid).sqn, now, true), layer.free[0];
            && i !in layer.pool && r.status == Ok && r.xact == Some(i) && r.sent == None
            && r.layer.pool == layer.pool[i := Holding(xid, now + HOLDING_DURATION)]
            && r.layer.free == layer.free[1..] && r.layer.xactId == layer.xactId
  {
    XidRoundTrip(xid);
    NoneFound(layer, xid);
    var i := layer.free[0];
    assert i in layer.free;
    FreshHolding(xid, now);
    hide XI.Inv, XidToSqn, SqnToXid, UpdateRx, Holding, NewXact;
    var x, y := NewXact(layer.cfg, Remote, xid, PEER), Holding(xid, now + HOLDING_DURATION);
    assert Put(Create(layer, Remote, xid, PEER), i, y).pool == layer.pool[i := x][i := y];
  }

  lemma FreshHolding(xid: bv32, now: nat)
    ensures var x := NewXact(Config(true, true), Remote, xid, PEER);
            && UpdateRx(x, 32, now, true) == RxResult(Ok, Holding(xid, now + HOLDING_DURATION), None)
            && KeyOf(x) == ListKey(PEER, Remote)
  {
    var r := UpdateRx(NewXact(Config(true, true), Remote, xid, PEER), 32, now, true);
    assert r.xact.hist == Holding(xid, now + HOLDING_DURATION).hist;
  }

  lemma FreshAsking(xid: bv32, now: nat)
    ensures var x := NewXact(Config(true, true), Local, xid, PEER);
            var y := UpdateTx(x, 32, 0, []);
            && y.0 == Ok && y.1.xid == xid && y.1.step == 1 && KeyOf(x) == ListKey(PEER, Local)
            && Commit(y.1, now, true) == Keep(Ok, Asking(xid, 3, now + RESPONSE_DURATION), Some(TheRequest(xid)))
  {
    hide BuildPacket;
    var y := UpdateTx(NewXact(Config(true, true), Local, xid, PEER), 32, 0, []).1;
    assert y.hist == [Slot(32, Some(TheRequest(xid))), Slot(0, None), Slot(0, None)];
  }

  lemma AnswerIs(s: Sys, side: Side, j: Index, xid: bv32, expire: nat)
    requires j in EndOf(s, side).layer.pool && EndOf(s, side).layer.pool[j] == Holding(xid, expire)
    ensures var t, e := AfterAnswer(s, side, j, 33, 0, [], true), EndOf(s, side);
            && t.now == s.now && EndOf(t, Other(side)) == EndOf(s, Other(side))
            && EndOf(t, side).layer == Put(e.layer, j, Answered(xid, expire)) && EndOf(t, side).birth == e.birth
            && t.flights == s.flights + {Flight(side, s.now, TheAnswer(xid), FromReply(|s.hist.replies|))}
            && t.hist == s.hist.(replies := t.hist.replies)
  {
    hide BuildPacket;
    var (status, y) := UpdateTx(Holding(xid, expire), 33, 0, []);
    assert y.hist == Answered(xid, expire).hist;
    assert y == Answered(xid, expire) && status == Ok;
    assert Commit(y, s.now, true) == Keep(Ok, y, Some(TheAnswer(xid)));
  }

  /** An answer with bit 23 set ends the remote transaction that itself answered with that identifier. */
  lemma EndedIs(s: Sys, side: Side, f: Flight, j: Index, expire: nat)
    requires XI.Inv(EndOf(s, side).layer) && f.pkt == TheAnswer(MAX_XACT_ID) && f.source.FromReply?
    requires j in EndOf(s, side).layer.pool && EndOf(s, side).layer.pool[j] == Answered(MAX_XACT_ID, expire)
    ensures var t, e := AfterDeliver(s, side, f, true), EndOf(s, side);
            && t.now == s.now && EndOf(t, Other(side)) == EndOf(s, Other(side)) && t.flights == s.flights && t.hist == s.hist
            && EndOf(t, side).layer == Put(e.layer, j, Ended(MAX_XACT_ID, expire)) && EndOf(t, side).birth == e.birth
  {
    XidRoundTrip(MAX_XACT_ID);
    var layer := EndOf(s, side).layer;
    var x := layer.pool[j];
    assert FirstWith(layer.pool, ListOf(layer, KeyOf(x)), x.xid) == Some(j);
    assert Bit23(MAX_XACT_ID);
    assert FindByXid(layer, PEER, 33, MAX_XACT_ID) == Some(j);
    hide XI.Inv, XidToSqn, SqnToXid, FindByXid;
    var r := UpdateRx(x, 33, s.now, true);
    assert r.xact.hist == Ended(MAX_XACT_ID, expire).hist;
    assert r == RxResult(Ok, Ended(MAX_XACT_ID, expire), None);
    assert Receive(layer, PEER, 33, f.pkt.sqn, s.now, true) == ReceiveResult(Put(layer, j, r.xact), Ok, Some(j), None);
  }

  lemma ConcludeIs(layer: Layer, j: Index, expire: nat, now: nat)
    requires j in layer.pool && layer.pool[j] == Ended(MAX_XACT_ID, expire)
    ensures var t := Apply(layer, j, Commit(layer.pool[j], now, true));
            t.pool == layer.pool - {j} && t.free == layer.free + [j] && t.cfg == layer.cfg
  {
    assert Commit(layer.pool[j], now, true) == Delete(Ok);
  }

  lemma ResendIs(s: Sys, i: Index, xid: bv32, rcount: Octet, expire: nat)
    requires s.left.layer.pool == map[i := Asking(xid, rcount, expire)] && s.left.birth == map[i := 0] && 2 <= rcount <= 3
    ensures var t := AfterExpire(s, Left, i, ResponseTimeout, true);
            && t.right == s.right && t.now == s.now && t.hist == s.hist && t.left.birth == s.left.birth
            && t.left.layer.pool == map[i := Asking(xid, rcount - 1, s.now + RESPONSE_DURATION)]
            && t.flights == s.flights + {Flight(Left, s.now, TheRequest(xid), FromRequest(0))}
  {
    hide BuildPacket;
    assert Timeout(Asking(xid, rcount, expire), ResponseTimeout, s.now, true)
        == Keep(Ok, Asking(xid, rcount - 1, s.now + RESPONSE_DURATION), Some(TheRequest(xid)));
  }

  lemma HoldingOver(s: Sys, j: Index, xid: bv32, expire: nat)
    requires s.right.layer.pool == map[j := Holding(xid, expire)]
    ensures var t := AfterExpire(s, Right, j, HoldingTimeout, true);
            && t.left == s.left && t.now == s.now && t.hist == s.hist && t.flights == s.flights
            && t.right.layer.pool == map[] && t.right.layer.free != []
  {
    assert Timeout(Holding(xid, expire), HoldingTimeout, s.now, true) == Delete(Ok);
    assert Drop(s.right.layer, j).pool == map[];
  }

  // ---------------------------------------------------------------- a copy outlives the holding time

  /** One endpoint still asks, the other holds the request since time 0. */
  ghost predicate BothBusy(s: Sys, xid: bv32, i: Index, j: Index, now: nat, rcount: Octet, expire: nat) {
    && s.now == now && s.left.layer.pool == map[i := Asking(xid, rcount, expire)] && s.left.birth == map[i := 0]
    && s.right.layer.pool == map[j := Holding(xid, HOLDING_DURATION)]
    && s.hist == Hist([Request(Left, 0, xid, TheRequest(xid), i, Message(32, 0, []))], [Delivery(Right, 0, 0, j, TheRequest(xid))], [], [])
  }

  /** Whatever the identifier, Left asks and Right receives. */
  lemma AskAndDeliver(link: Link, r: Run, xid: bv32, right: bv32) returns (r1: Run, i: Index, j: Index)
    requires link.delay == 0 && MIN_XACT_ID <= xid <= MAX_XACT_ID && Goes(link, r) && Quiet(Last(r), xid - 1, right)
    ensures Goes(link, r1) && BothBusy(Last(r1), xid, i, j, 0, 3, RESPONSE_DURATION)
    ensures Last(r1).right.layer.xactId == right
    ensures Flight(Left, 0, TheRequest(xid), FromRequest(0)) in Last(r1).flights
  {
    hide IsRun, XI.Inv, AfterAsk, AfterDeliver, NextId, BuildPacket;
    Before(xid);
    var s := Last(r);
    EndInv(link, r, Left);
    AskIs(s, Left);
    i := s.left.layer.free[0];
    ThenGoes(link, r, Ask(Left, 32, 0, [], true));
    r1 := Then(link, r, Ask(Left, 32, 0, [], true));
    EndInv(link, r1, Right);
    var t := Last(r1);
    var f := Flight(Left, 0, TheRequest(xid), FromRequest(0));
    DeliverIs(t, Right, f, xid);
    j := t.right.layer.free[0];
    ThenGoes(link, r1, Deliver(Right, f, true));
    r1 := Then(link, r1, Deliver(Right, f, true));
  }

  /** Wait for the response timer to be served, and resend. */
  lemma Resend(link: Link, r: Run, xid: bv32, i: Index, j: Index, now: nat, rcount: Octet, wait: nat) returns (r1: Run)
    requires Goes(link, r) && BothBusy(Last(r), xid, i, j, now, rcount, now + RESPONSE_DURATION)
    requires 2 <= rcount <= 3 && RESPONSE_DURATION < wait <= RESPONSE_DURATION + link.late
    requires now + wait <= HOLDING_DURATION + link.late
    ensures Goes(link, r1)
    ensures BothBusy(Last(r1), xid, i, j, now + wait, rcount - 1, now + wait + RESPONSE_DURATION)
    ensures Flight(Left, now + wait, TheRequest(xid), FromRequest(0)) in Last(r1).flights
  {
    hide IsRun, AfterExpire;
    assert Possible(link, Last(r), Tick(wait));
    ThenGoes(link, r, Tick(wait));
    r1 := Then(link, r, Tick(wait));
    ResendIs(Last(r1), i, xid, rcount, now + RESPONSE_DURATION);
    ThenGoes(link, r1, Expire(Left, i, ResponseTimeout, true));
    r1 := Then(link, r1, Expire(Left, i, ResponseTimeout, true));
  }

  /** The holding time runs out, and then a copy that is still in the channel arrives. */
  lemma LateCopy(link: Link, r: Run, xid: bv32, i: Index, j: Index, now: nat, rest: nat) returns (r1: Run)
    requires Goes(link, r) && BothBusy(Last(r), xid, i, j, now, 1, now + RESPONSE_DURATION) && xid <= MAX_XACT_ID
    requires Flight(Left, now, TheRequest(xid), FromRequest(0)) in Last(r).flights
    requires HOLDING_DURATION < now + rest <= HOLDING_DURATION + link.late
    requires link.delay == 0 && rest <= link.spread && rest <= RESPONSE_DURATION
    ensures Goes(link, r1) && !OnceOnly(Last(r1).hist, xid)
  {
    hide IsRun, XI.Inv, AfterDeliver, AfterExpire;
    var f := Flight(Left, now, TheRequest(xid), FromRequest(0));
    assert Possible(link, Last(r), Tick(rest));
    ThenGoes(link, r, Tick(rest));
    r1 := Then(link, r, Tick(rest));
    HoldingOver(Last(r1), j, xid, HOLDING_DURATION);
    ThenGoes(link, r1, Expire(Right, j, HoldingTimeout, true));
    r1 := Then(link, r1, Expire(Right, j, HoldingTimeout, true));
    EndInv(link, r1, Right);
    DeliverIs(Last(r1), Right, f, xid);
    ThenGoes(link, r1, Deliver(Right, f, true));
    r1 := Then(link, r1, Deliver(Right, f, true));
    var h := Last(r1).hist;
    assert h.deliveries[0].request == h.deliveries[1].request == 0 && h.requests[0].xid == xid;
  }

  /** With a larger spread or later timers there is, for every identifier, a run that delivers a request
      with it twice: the third copy arrives after the holding time that the first one started. */
  lemma TwiceDelivered(spread: nat, late: nat, xid: bv32) returns (r: Run)
    requires late >= 1 && spread + 2 * late > RESPONSE_DURATION && MIN_XACT_ID <= xid <= MAX_XACT_ID
    ensures Goes(Link(0, spread, late), r) && !OnceOnly(Last(r).hist, xid)
  {
    hide Goes, BothBusy, OnceOnly, Quiet;
    var link := Link(0, spread, late);
    var wait := RESPONSE_DURATION + if late <= 1501 then late else 1501;
    var rest := if 2 * wait > HOLDING_DURATION then 0 else HOLDING_DURATION + 1 - 2 * wait;
    var i, j;
    StartQuiet(link);
    Before(xid);
    r := Choose(link, Run([InitialSys()], []), Left, 0, 0, xid - 1);
    r, i, j := AskAndDeliver(link, r, xid, 0);
    r := Resend(link, r, xid, i, j, 0, 3, wait);
    r := Resend(link, r, xid, i, j, wait, 2, wait);
    r := LateCopy(link, r, xid, i, j, 2 * wait, rest);
  }

  // ---------------------------------------------------------------- identifier 0x800000

  const MAX := MAX_XACT_ID

  lemma FreeLeft(layer: Layer, a: Index, b: Index)
    requires XI.Inv(layer) && layer.pool.Keys <= {a, b}
    ensures layer.free != []
  {
    var k: Index := if a != 1 && b != 1 then 1 else if a != 2 && b != 2 then 2 else 3;
    assert k !in layer.pool;
    assert k in layer.free;
  }

  /** Right has answered Left's request; both counters stand before 0x800000 for Right, at it for Left. */
  ghost predicate RightAnswered(s: Sys, i: Index, j: Index) {
    && s.now == 0
    && s.left.layer.pool == map[i := Asking(MAX, 3, RESPONSE_DURATION)]
    && s.right.layer.pool == map[j := Answered(MAX, HOLDING_DURATION)] && s.right.layer.xactId == MAX - 1
    && |s.hist.requests| == 1 && s.hist.requests[0].xid == MAX
    && |s.hist.deliveries| == 1 && s.hist.deliveries[0].request == 0
    && Flight(Left, 0, TheRequest(MAX), FromRequest(0)) in s.flights
  }

  lemma FirstExchange(link: Link) returns (r: Run, i: Index, j: Index)
    requires link.delay == 0
    ensures Goes(link, r) && RightAnswered(Last(r), i, j)
  {
    hide IsRun, AfterAnswer, NextId, BuildPacket, Quiet;
    StartQuiet(link);
    Before(MAX);
    r := Choose(link, Run([InitialSys()], []), Left, 0, 0, MAX - 1);
    r := Choose(link, r, Right, MAX - 1, 0, MAX - 1);
    r, i, j := AskAndDeliver(link, r, MAX, MAX - 1);
    AnswerIs(Last(r), Right, j, MAX, HOLDING_DURATION);
    ThenGoes(link, r, Answer(Right, j, 33, 0, [], true));
    r := Then(link, r, Answer(Right, j, 33, 0, [], true));
  }

  /** Left has answered a request of Right's with the same identifier. */
  ghost predicate BothAnswered(s: Sys, j: Index, k: Index) {
    && s.now == 0 && j != k
    && s.right.layer.pool == map[j := Answered(MAX, HOLDING_DURATION), k := Asking(MAX, 3, RESPONSE_DURATION)]
    && |s.hist.requests| == 2 && s.hist.requests[0].xid == MAX
    && |s.hist.deliveries| == 2 && s.hist.deliveries[0].request == 0
    && Flight(Left, 0, TheRequest(MAX), FromRequest(0)) in s.flights
    && (exists n :: Flight(Left, 0, TheAnswer(MAX), FromReply(n)) in s.flights)
  }

  /** Right, having answered, asks with the same identifier. */
  ghost predicate RightAsks(s: Sys, i: Index, j: Index, k: Index) {
    && s.now == 0 && j != k
    && s.left.layer.pool == map[i := Asking(MAX, 3, RESPONSE_DURATION)]
    && s.right.layer.pool == map[j := Answered(MAX, HOLDING_DURATION), k := Asking(MAX, 3, RESPONSE_DURATION)]
    && |s.hist.requests| == 2 && s.hist.requests[0].xid == MAX
    && |s.hist.deliveries| == 1 && s.hist.deliveries[0].request == 0
    && Flight(Left, 0, TheRequest(MAX), FromRequest(0)) in s.flights
    && Flight(Right, 0, TheRequest(MAX), FromRequest(1)) in s.flights
  }

  lemma SecondRequest(link: Link, r: Run, i: Index, j: Index) returns (r1: Run, k: Index)
    requires Goes(link, r) && RightAnswered(Last(r), i, j)
    ensures Goes(link, r1) && RightAsks(Last(r1), i, j, k)
  {
    hide IsRun, XI.Inv, AfterAsk, NextId, BuildPacket;
    Before(MAX);
    EndInv(link, r, Right);
    FreeLeft(Last(r).right.layer, j, j);
    AskIs(Last(r), Right);
    k := Last(r).right.layer.free[0];
    ThenGoes(link, r, Ask(Right, 32, 0, [], true));
    r1 := Then(link, r, Ask(Right, 32, 0, [], true));
  }

  lemma SecondExchange(link: Link, r: Run, i: Index, j: Index, k: Index) returns (r1: Run)
    requires link.delay == 0 && Goes(link, r) && RightAsks(Last(r), i, j, k)
    ensures Goes(link, r1) && BothAnswered(Last(r1), j, k)
  {
    hide IsRun, XI.Inv, AfterDeliver, AfterAnswer, BuildPacket;
    var f := Flight(Right, 0, TheRequest(MAX), FromRequest(1));
    EndInv(link, r, Left);
    FreeLeft(Last(r).left.layer, i, i);
    DeliverIs(Last(r), Left, f, MAX);
    var l := Last(r).left.layer.free[0];
    ThenGoes(link, r, Deliver(Left, f, true));
    r1 := Then(link, r, Deliver(Left, f, true));
    AnswerIs(Last(r1), Left, l, MAX, HOLDING_DURATION);
    ThenGoes(link, r1, Answer(Left, l, 33, 0, [], true));
    r1 := Then(link, r1, Answer(Left, l, 33, 0, [], true));
  }

  lemma ThirdDelivery(link: Link, r: Run, j: Index, k: Index) returns (r1: Run)
    requires link.delay == 0 && Goes(link, r) && BothAnswered(Last(r), j, k)
    ensures Goes(link, r1) && !OnceOnly(Last(r1).hist, MAX)
  {
    hide IsRun, XI.Inv, AfterDeliver, Commit;
    var n :| Flight(Left, 0, TheAnswer(MAX), FromReply(n)) in Last(r).flights;
    var g := Flight(Left, 0, TheAnswer(MAX), FromReply(n));
    EndInv(link, r, Right);
    EndedIs(Last(r), Right, g, j, HOLDING_DURATION);
    ThenGoes(link, r, Deliver(Right, g, true));
    r1 := Then(link, r, Deliver(Right, g, true));
    ConcludeIs(Last(r1).right.layer, j, HOLDING_DURATION, 0);
    ThenGoes(link, r1, Conclude(Right, j));
    r1 := Then(link, r1, Conclude(Right, j));
    EndInv(link, r1, Right);
    var f := Flight(Left, 0, TheRequest(MAX), FromRequest(0));
    DeliverIs(Last(r1), Right, f, MAX);
    ThenGoes(link, r1, Deliver(Right, f, true));
    r1 := Then(link, r1, Deliver(Right, f, true));
    var h := Last(r1).hist;
    assert h.deliveries[0].request == h.deliveries[2].request == 0 && h.requests[0].xid == MAX;
  }

  /** With identifier 0x800000 a request is delivered twice on a channel without any delay: the answer to
      the other endpoint's request with that identifier ends the transaction that remembers it. */
  lemma MaxTwiceDelivered(link: Link) returns (r: Run)
    requires link.delay == 0
    ensures Goes(link, r) && !OnceOnly(Last(r).hist, MAX_XACT_ID)
  {
    hide Goes, RightAnswered, RightAsks, BothAnswered, OnceOnly;
    var i, j, k;
    r, i, j := FirstExchange(link);
    r, k := SecondRequest(link, r, i, j);
    r := SecondExchange(link, r, i, j, k);
    r := ThirdDelivery(link, r, j, k);
  }
}

/** An accepted answer belongs to the very request it is accepted for, provided identifiers are not
    reused too soon. */
module ChannelAnswers {
  import opened Options
  import opened GtpMessage
  import opened XactModel
  import opened ChannelModel
  import opened ChannelInvariants
  import opened ChannelSteps
  import XI = XactInvariants

  /** How long traces of a request can stay in the system: its copies, the holding time after the last
      of them, and the answers sent until then. */
  function Lifetime(link: Link): nat {
    2 * (RESPONSE_DURATION + link.late) + HOLDING_DURATION + link.late + 2 * (link.delay + link.spread)
  }

  /** An endpoint does not reuse an identifier within the lifetime of a request. */
  ghost predicate Spaced(link: Link, h: Hist) {
    forall i, j | 0 <= i < j < |h.requests| && h.requests[i].side == h.requests[j].side
                  && h.requests[i].xid == h.requests[j].xid && !Bit23(h.requests[i].xid) ::
      h.requests[j].time > h.requests[i].time + Lifetime(link)
  }

  /** The holding timer of a remote transaction never outlives the holding time of the last copy of its
      request. */
  ghost predicate HoldBounded(link: Link, h: Hist, e: End, i: Index)
    requires i in e.layer.pool
  {
    var x, k := e.layer.pool[i], Get(e.cause, i);
    x.org.Remote? && x.step >= 1 && !Bit23(x.xid) ==>
      && k < |h.deliveries| && h.deliveries[k].request < |h.requests| && x.tmHolding.Running?
      && x.tmHolding.expire <= LastArrival(link, DeliveredRequest(h, k)) + HOLDING_DURATION
  }

  ghost predicate HoldsBounded(link: Link, h: Hist, e: End) {
    forall i | Live(e.layer, i) :: HoldBounded(link, h, e, i)
  }

  ghost predicate AnswerFlightOk(link: Link, h: Hist, f: Flight) {
    f.source.FromReply? ==>
      && f.source.n < |h.replies| && h.replies[f.source.n].delivery < |h.deliveries|
      && h.deliveries[h.replies[f.source.n].delivery].request < |h.requests|
      && var r := DeliveredRequest(h, h.replies[f.source.n].delivery);
         !Bit23(r.xid) ==> f.sent <= LastArrival(link, r) + HOLDING_DURATION + link.late
  }

  /** The accepted answer replies to a delivery of the request it was accepted for. */
  predicate RightAnswer(h: Hist, a: nat)
    requires a < |h.acceptances|
  {
    var c := h.acceptances[a];
    && c.reply < |h.replies| && h.replies[c.reply].delivery < |h.deliveries|
    && h.deliveries[h.replies[c.reply].delivery].request == c.request
  }

  ghost predicate AnswersOk(link: Link, s: Sys) {
    && (forall side :: HoldsBounded(link, s.hist, EndOf(s, side)))
    && (forall f | f in s.flights :: AnswerFlightOk(link, s.hist, f))
    && (forall a | 0 <= a < |s.hist.acceptances| :: RightAnswer(s.hist, a))
  }

  lemma BoundGrows(link: Link, h: Hist, g: Hist, e: End, f: End, i: Index)
    requires Grows(h, g) && SamePeer(e.layer, f.layer, i) && SameTags(e, f, i) && HoldsBounded(link, h, e)
    requires Live(f.layer, i) ==> HoldBounded(link, g, f, i)
    ensures HoldsBounded(link, g, f)
  {
    hide Bit23;
    forall j | Live(f.layer, j)
      ensures HoldBounded(link, g, f, j)
    {
      if j != i {
        assert Live(e.layer, j) && HoldBounded(link, h, e, j);
        CoreFields(e.layer.pool[j], f.layer.pool[j]);
      }
    }
  }

  /** A step at one endpoint that changes one transaction. */
  lemma AnswersOneSided(link: Link, s: Sys, t: Sys, side: Side, i: Index)
    requires AnswersOk(link, s) && EndOf(t, Other(side)) == EndOf(s, Other(side)) && Grows(s.hist, t.hist)
    requires SamePeer(EndOf(s, side).layer, EndOf(t, side).layer, i) && SameTags(EndOf(s, side), EndOf(t, side), i)
    requires Live(EndOf(t, side).layer, i) ==> HoldBounded(link, t.hist, EndOf(t, side), i)
    requires forall f | f in t.flights :: f in s.flights || AnswerFlightOk(link, t.hist, f)
    requires forall a | |s.hist.acceptances| <= a < |t.hist.acceptances| :: RightAnswer(t.hist, a)
    requires !Live(EndOf(s, Other(side)).layer, 0)
    ensures AnswersOk(link, t)
  {
    hide HoldBounded, HoldsBounded, SamePeer, Bit23;
    BoundGrows(link, s.hist, t.hist, EndOf(s, side), EndOf(t, side), i);
    assert SamePeer(EndOf(s, Other(side)).layer, EndOf(s, Other(side)).layer, 0) by {
      PutFrame0(EndOf(s, Other(side)).layer);
    }
    BoundGrows(link, s.hist, t.hist, EndOf(s, Other(side)), EndOf(t, Other(side)), 0);
    forall any: Side
      ensures HoldsBounded(link, t.hist, EndOf(t, any))
    {
      assert any == side || any == Other(side);
    }
    forall f | f in t.flights
      ensures AnswerFlightOk(link, t.hist, f)
    {
      if f in s.flights {
        assert AnswerFlightOk(link, s.hist, f);
      }
    }
    forall a | 0 <= a < |t.hist.acceptances|
      ensures RightAnswer(t.hist, a)
    {
      if a < |s.hist.acceptances| {
        assert RightAnswer(s.hist, a);
      }
    }
  }

  lemma PutFrame0(s: Layer)
    ensures SamePeer(s, s, 0)
  {
  }

  // ---------------------------------------------------------------- time arguments

  /** A copy that finds the transaction of an earlier delivery still held is a copy of the same
      request. */
  lemma SameRequest(link: Link, h: Hist, now: nat, e: End, i: Index, f: Flight)
    requires RecordsOk(link, h, now) && Spaced(link, h)
    requires FlightOk(h, link, now, f) && f.source.FromRequest? && f.sent + link.delay <= now <= f.sent + link.delay + link.spread
    requires Live(e.layer, i) && HoldBounded(link, h, e, i) && OnTime(link, e.layer.pool[i], now)
    requires var x := e.layer.pool[i];
             x.org.Remote? && x.step >= 1 && !Bit23(x.xid) && x.xid == h.requests[f.source.n].xid
             && DeliveredRequest(h, Get(e.cause, i)).xid == x.xid
             && DeliveredRequest(h, Get(e.cause, i)).side == f.side
    ensures h.deliveries[Get(e.cause, i)].request == f.source.n
  {
    var k := Get(e.cause, i);
    assert DeliveryOk(link, h, now, k);
  }

  /** An answer accepted by a waiting transaction replies to that transaction's request. */
  lemma SameExchange(link: Link, h: Hist, now: nat, side: Side, i: Index, x: Xact, n: nat, f: Flight)
    requires RecordsOk(link, h, now) && Spaced(link, h) && LocalOk(link, h, side, i, x, n)
    requires x.step == 1 && OnTime(link, x, now) && !Bit23(x.xid)
    requires FlightOk(h, link, now, f) && f.source.FromReply? && f.side == Other(side) && AnswerFlightOk(link, h, f)
    requires f.sent + link.delay <= now <= f.sent + link.delay + link.spread
    requires DeliveredRequest(h, h.replies[f.source.n].delivery).xid == x.xid
    ensures h.deliveries[h.replies[f.source.n].delivery].request == n
  {
    var k := h.replies[f.source.n].delivery;
    assert RequestOk(h, now, n) && ReplyOk(link, h, now, f.source.n) && DeliveryOk(link, h, now, k);
  }

  // ---------------------------------------------------------------- steps

  lemma AskAnswers(link: Link, s: Sys, side: Side, kind: Octet, teid: bv32, body: seq<Octet>, sendOk: bool)
    requires SysOk(link, s) && AnswersOk(link, s)
    ensures AnswersOk(link, AfterAsk(s, side, kind, teid, body, sendOk))
  {
    hide XI.Inv, Apart, RecordsOk, Receive, FindByXid, UpdateRx, LocalCreate, Commit, UpdateTx, Timeout, StageOf, Bit23, SqnToXid, XidToSqn;
    var e, t := EndOf(s, side), AfterAsk(s, side, kind, teid, body, sendOk);
    OtherZero(link, s, side);
    assert EndOk(link, s.hist, s.now, side, e);
    if LocalCreate(e.layer, PEER, kind, teid, body).xact.None? {
      var i := FailedAsk(e.layer, kind, teid, body);
      AnswersOneSided(link, s, t, side, i);
    } else {
      AskEffect(e.layer, kind, teid, body, s.now, sendOk);
      AskLayer(e.layer, kind, teid, body, s.now, sendOk);
      AnswersOneSided(link, s, t, side, LocalCreate(e.layer, PEER, kind, teid, body).xact.value);
    }
  }

  lemma OtherZero(link: Link, s: Sys, side: Side)
    requires SysOk(link, s)
    ensures !Live(EndOf(s, Other(side)).layer, 0)
  {
    hide XI.Inv;
    assert EndOk(link, s.hist, s.now, Other(side), EndOf(s, Other(side)));
    NoIndexZero(EndOf(s, Other(side)).layer);
  }

  lemma RequestAnswers(link: Link, s: Sys, side: Side, f: Flight, sendOk: bool)
    requires SysOk(link, s) && AnswersOk(link, s) && Possible(link, s, Deliver(side, f, sendOk)) && f.source.FromRequest?
    requires Receive(EndOf(s, side).layer, PEER, f.pkt.kind, f.pkt.sqn, s.now, sendOk).status == Ok
    ensures AnswersOk(link, AfterDeliver(s, side, f, sendOk))
  {
    hide XI.Inv, Apart, RecordsOk, Receive, FindByXid, UpdateRx, LocalCreate, Commit, UpdateTx, Timeout, StageOf, Bit23, SqnToXid, XidToSqn;
    var e, t := EndOf(s, side), AfterDeliver(s, side, f, sendOk);
    OtherZero(link, s, side);
    assert EndOk(link, s.hist, s.now, side, e) && FlightOk(s.hist, link, s.now, f);
    FlightStage(link, s.hist, s.now, f);
    var i := AcceptedEffect(e.layer, f.pkt.kind, f.pkt.sqn, s.now, sendOk);
    AnswersOneSided(link, s, t, side, i);
  }

  /** A repeated request may restart the holding timer, but only a copy of the request that started it. */
  lemma RefusedBound(link: Link, s: Sys, side: Side, f: Flight, sendOk: bool) returns (i: Index)
    requires SysOk(link, s) && AnswersOk(link, s) && Spaced(link, s.hist) && Possible(link, s, Deliver(side, f, sendOk))
    requires Receive(EndOf(s, side).layer, PEER, f.pkt.kind, f.pkt.sqn, s.now, sendOk).status != Ok
    ensures var e := EndOf(s, side);
            var r := Receive(e.layer, PEER, f.pkt.kind, f.pkt.sqn, s.now, sendOk);
            var found := FindByXid(e.layer, PEER, f.pkt.kind, SqnToXid(f.pkt.sqn));
            var next := e.(layer := r.layer);
            && SamePeer(e.layer, r.layer, i) && (Live(r.layer, i) ==> HoldBounded(link, s.hist, next, i))
            && (r.sent.Some? && found.Some? ==>
                  AnswerFlightOk(link, s.hist, Flight(side, s.now, r.sent.value, FromReply(Get(e.answer, found.value)))))
  {
    hide XI.Inv, Apart, RecordsOk, Receive, FindByXid, UpdateRx, LocalCreate, Commit, UpdateTx, Timeout, StageOf, Bit23, SqnToXid, XidToSqn;
    var e := EndOf(s, side);
    assert EndOk(link, s.hist, s.now, side, e) && FlightOk(s.hist, link, s.now, f) && HoldsBounded(link, s.hist, e);
    FlightStage(link, s.hist, s.now, f);
    i := RefusedEffect(e.layer, f.pkt.kind, f.pkt.sqn, s.now, sendOk);
    if Live(e.layer, i) {
      assert TransactionOk(link, s.hist, side, e, i) && OnTime(link, e.layer.pool[i], s.now) && HoldBounded(link, s.hist, e, i);
      var x := e.layer.pool[i];
      if x.org.Remote? && x.step >= 1 && !Bit23(x.xid) && FindByXid(e.layer, PEER, f.pkt.kind, SqnToXid(f.pkt.sqn)).Some? {
        SearchedRemote(f.pkt.kind, x.xid);
        DeliverySide(link, s.hist, s.now, Get(e.cause, i));
        SameRequest(link, s.hist, s.now, e, i, f);
      }
    }
  }

  /** Without bit 23 only requests are looked up among the remote transactions. */
  lemma SearchedRemote(kind: Octet, xid: bv32)
    ensures SearchedList(kind, xid) == Some(Remote) && !Bit23(xid) ==> StageOf(kind, xid) == Initial
  {
  }

  lemma DeliverySide(link: Link, h: Hist, now: nat, k: nat)
    requires RecordsOk(link, h, now) && k < |h.deliveries|
    ensures h.deliveries[k].request < |h.requests| && DeliveredRequest(h, k).side == Other(h.deliveries[k].side)
  {
    assert DeliveryOk(link, h, now, k);
  }

  lemma RefusedAnswers(link: Link, s: Sys, side: Side, f: Flight, sendOk: bool)
    requires SysOk(link, s) && AnswersOk(link, s) && Spaced(link, s.hist) && Possible(link, s, Deliver(side, f, sendOk))
    requires Receive(EndOf(s, side).layer, PEER, f.pkt.kind, f.pkt.sqn, s.now, sendOk).status != Ok
    ensures AnswersOk(link, AfterDeliver(s, side, f, sendOk))
  {
    hide SysOk, HoldBounded, HoldsBounded, SamePeer, Live, XI.Inv, Apart, RecordsOk, Receive, FindByXid, UpdateRx, LocalCreate, Commit, UpdateTx, Timeout, StageOf, Bit23, SqnToXid, XidToSqn;
    OtherZero(link, s, side);
    var i := RefusedBound(link, s, side, f, sendOk);
    AnswersOneSided(link, s, AfterDeliver(s, side, f, sendOk), side, i);
  }

  lemma AcceptedAnswers(link: Link, s: Sys, side: Side, f: Flight, sendOk: bool)
    requires SysOk(link, s) && AnswersOk(link, s) && Spaced(link, s.hist) && Possible(link, s, Deliver(side, f, sendOk))
    requires f.source.FromReply?
    requires Receive(EndOf(s, side).layer, PEER, f.pkt.kind, f.pkt.sqn, s.now, sendOk).status == Ok
    ensures AnswersOk(link, AfterDeliver(s, side, f, sendOk))
  {
    hide XI.Inv, Apart, RecordsOk, Receive, FindByXid, UpdateRx, LocalCreate, Commit, UpdateTx, Timeout, StageOf, Bit23, SqnToXid, XidToSqn;
    var e, t := EndOf(s, side), AfterDeliver(s, side, f, sendOk);
    OtherZero(link, s, side);
    assert EndOk(link, s.hist, s.now, side, e) && FlightOk(s.hist, link, s.now, f) && AnswerFlightOk(link, s.hist, f);
    FlightStage(link, s.hist, s.now, f);
    var i := AnsweredEffect(e.layer, f.pkt.kind, f.pkt.sqn, s.now, sendOk);
    var x := e.layer.pool[i];
    assert TransactionOk(link, s.hist, side, e, i) && OnTime(link, x, s.now);
    if x.org.Local? {
      SameExchange(link, s.hist, s.now, side, i, x, Get(e.birth, i), f);
    }
    AnswersOneSided(link, s, t, side, i);
  }

  lemma ReplyAnswers(link: Link, s: Sys, side: Side, i: Index, kind: Octet, teid: bv32, body: seq<Octet>, sendOk: bool)
    requires SysOk(link, s) && AnswersOk(link, s) && Possible(link, s, Answer(side, i, kind, teid, body, sendOk))
    ensures AnswersOk(link, AfterAnswer(s, side, i, kind, teid, body, sendOk))
  {
    hide XI.Inv, Apart, RecordsOk, Receive, FindByXid, UpdateRx, LocalCreate, Commit, UpdateTx, Timeout, StageOf, Bit23, SqnToXid, XidToSqn;
    var e, t := EndOf(s, side), AfterAnswer(s, side, i, kind, teid, body, sendOk);
    OtherZero(link, s, side);
    assert EndOk(link, s.hist, s.now, side, e) && HoldsBounded(link, s.hist, e);
    assert TransactionOk(link, s.hist, side, e, i) && OnTime(link, e.layer.pool[i], s.now) && HoldBounded(link, s.hist, e, i);
    if UpdateTx(e.layer.pool[i], kind, teid, body).0 == Ok {
      AnswerEffect(e.layer, i, kind, teid, body, s.now, sendOk);
      AnswersOneSided(link, s, t, side, i);
    }
  }

  lemma ConcludeAnswers(link: Link, s: Sys, side: Side, i: Index)
    requires SysOk(link, s) && AnswersOk(link, s) && Possible(link, s, Conclude(side, i))
    ensures AnswersOk(link, After(link, s, Conclude(side, i)))
  {
    hide XI.Inv, Apart, RecordsOk, Receive, FindByXid, UpdateRx, LocalCreate, Commit, UpdateTx, Timeout, StageOf, Bit23, SqnToXid, XidToSqn;
    var e, t := EndOf(s, side), After(link, s, Conclude(side, i));
    OtherZero(link, s, side);
    assert EndOk(link, s.hist, s.now, side, e) && HoldsBounded(link, s.hist, e);
    ConcludeEffect(e.layer, i, s.now);
    AnswersOneSided(link, s, t, side, i);
  }

  lemma ExpireAnswers(link: Link, s: Sys, side: Side, i: Index, timer: TimerEvent, sendOk: bool)
    requires SysOk(link, s) && AnswersOk(link, s) && Possible(link, s, Expire(side, i, timer, sendOk))
    ensures AnswersOk(link, AfterExpire(s, side, i, timer, sendOk))
  {
    hide XI.Inv, Apart, RecordsOk, Receive, FindByXid, UpdateRx, LocalCreate, Commit, UpdateTx, Timeout, StageOf, Bit23, SqnToXid, XidToSqn;
    var e, t := EndOf(s, side), AfterExpire(s, side, i, timer, sendOk);
    OtherZero(link, s, side);
    assert EndOk(link, s.hist, s.now, side, e) && HoldsBounded(link, s.hist, e);
    ExpireEffect(e.layer, i, timer, s.now, sendOk);
    ExpireEnd(link, s.hist, s.now, side, e, i, timer, sendOk);
    AnswersOneSided(link, s, t, side, i);
  }

  lemma ElsewhereAnswers(link: Link, s: Sys, side: Side, event: XI.Event)
    requires SysOk(link, s) && AnswersOk(link, s) && Possible(link, s, Elsewhere(side, event))
    ensures AnswersOk(link, After(link, s, Elsewhere(side, event)))
  {
    hide XI.Next, XI.Inv, Apart, RecordsOk, Receive, FindByXid, UpdateRx, LocalCreate, Commit, UpdateTx, Timeout, StageOf, Bit23, SqnToXid, XidToSqn;
    var e, t := EndOf(s, side), After(link, s, Elsewhere(side, event));
    OtherZero(link, s, side);
    assert EndOk(link, s.hist, s.now, side, e);
    ElsewhereFrame(e.layer, event, s.now);
    XI.NextInv(e.layer, event, s.now);
    NoIndexZero(EndOf(t, side).layer);
    AnswersOneSided(link, s, t, side, 0);
  }

  lemma StepAnswers(link: Link, s: Sys, step: Step)
    requires SysOk(link, s) && AnswersOk(link, s) && Possible(link, s, step) && Spaced(link, s.hist)
    ensures AnswersOk(link, After(link, s, step))
  {
    hide SysOk, AfterAsk, AfterDeliver, AfterAnswer, AfterExpire, Receive, Spaced;
    match step
    case Tick(dt) => assert forall side :: EndOf(After(link, s, step), side) == EndOf(s, side);
    case Ask(side, kind, teid, body, sendOk) => AskAnswers(link, s, side, kind, teid, body, sendOk);
    case Deliver(side, f, sendOk) =>
      if Receive(EndOf(s, side).layer, PEER, f.pkt.kind, f.pkt.sqn, s.now, sendOk).status != Ok {
        RefusedAnswers(link, s, side, f, sendOk);
      } else if f.source.FromRequest? {
        RequestAnswers(link, s, side, f, sendOk);
      } else {
        AcceptedAnswers(link, s, side, f, sendOk);
      }
    case Answer(side, i, kind, teid, body, sendOk) => ReplyAnswers(link, s, side, i, kind, teid, body, sendOk);
    case Conclude(side, i) => ConcludeAnswers(link, s, side, i);
    case Expire(side, i, timer, sendOk) => ExpireAnswers(link, s, side, i, timer, sendOk);
    case Elsewhere(side, event) => ElsewhereAnswers(link, s, side, event);
  }

  // ---------------------------------------------------------------- runs

  /** Requests are only ever added. */
  lemma RequestsGrow(link: Link, s: Sys, step: Step)
    requires Possible(link, s, step)
    ensures s.hist.requests <= After(link, s, step).hist.requests
  {
    hide Receive, FindByXid, UpdateRx, LocalCreate, Commit, UpdateTx, Timeout, XI.Next, Apply;
  }

  lemma {:induction false} AnswersRun(link: Link, states: seq<Sys>, steps: seq<Step>, k: nat)
    requires IsRun(link, states, steps) && k < |states| && Spaced(link, states[k].hist)
    ensures AnswersOk(link, states[k])
  {
    hide AnswersOk, After, Possible, SysOk;
    if k == 0 {
      NothingYet(link);
    } else {
      RequestsGrow(link, states[k - 1], steps[k - 1]);
      AnswersRun(link, states, steps, k - 1);
      RunOk(link, states, steps, k - 1);
      StepAnswers(link, states[k - 1], steps[k - 1]);
    }
  }

  lemma NothingYet(link: Link)
    ensures AnswersOk(link, InitialSys())
  {
  }

  /** If an endpoint never reuses an identifier within the lifetime of a request, every answer it accepts
      was built for a delivery of exactly the request it is accepted for. */
  lemma RightAnswers(link: Link, states: seq<Sys>, steps: seq<Step>, k: nat)
    requires IsRun(link, states, steps) && k < |states| && Spaced(link, states[k].hist)
    ensures forall a | 0 <= a < |states[k].hist.acceptances| :: RightAnswer(states[k].hist, a)
  {
    hide IsRun, Spaced;
    AnswersRun(link, states, steps, k);
  }
}

/** Every step of the two-endpoint system keeps its invariant. */
module ChannelSteps {
  import opened Options
  import opened GtpMessage
  import opened XactModel
  import opened ChannelModel
  import opened ChannelInvariants
  import XI = XactInvariants

  lemma RecordsLater(link: Link, h: Hist, now: nat, later: nat)
    requires RecordsOk(link, h, now) && now <= later
    ensures RecordsOk(link, h, later)
  {
    forall n | 0 <= n < |h.requests| ensures RequestOk(h, later, n) {
      assert RequestOk(h, now, n);
    }
    forall k | 0 <= k < |h.deliveries| ensures DeliveryOk(link, h, later, k) {
      assert DeliveryOk(link, h, now, k);
    }
    forall m | 0 <= m < |h.replies| ensures ReplyOk(link, h, later, m) {
      assert ReplyOk(link, h, now, m);
    }
    forall a | 0 <= a < |h.acceptances| ensures AcceptanceOk(h, later, a) {
      assert AcceptanceOk(h, now, a);
    }
  }

  lemma TickOk(link: Link, s: Sys, dt: nat)
    requires SysOk(link, s) && Possible(link, s, Tick(dt))
    ensures SysOk(link, After(link, s, Tick(dt)))
  {
    hide XI.Inv;
    var t := After(link, s, Tick(dt));
    RecordsLater(link, s.hist, s.now, t.now);
    forall f | f in t.flights
      ensures FlightOk(t.hist, link, t.now, f)
    {
      assert FlightOk(s.hist, link, s.now, f);
    }
    forall side: Side
      ensures EndOk(link, t.hist, t.now, side, EndOf(t, side)) && HeldAll(EndOf(t, side).layer, t.hist, t.now, side)
    {
      assert EndOk(link, s.hist, s.now, side, EndOf(s, side)) && HeldAll(EndOf(s, side).layer, s.hist, s.now, side);
      forall k | 0 <= k < |t.hist.deliveries| && t.hist.deliveries[k].side == side
        ensures Held(EndOf(t, side).layer, t.hist, t.now, k)
      {
        assert Held(EndOf(s, side).layer, s.hist, s.now, k);
      }
    }
  }

  lemma ElsewhereOk(link: Link, s: Sys, side: Side, event: XI.Event)
    requires SysOk(link, s) && Possible(link, s, Elsewhere(side, event))
    ensures SysOk(link, After(link, s, Elsewhere(side, event)))
  {
    hide XI.Inv, RecordsOk, Apart, XI.Next;
    var e, t := EndOf(s, side), After(link, s, Elsewhere(side, event));
    var f := EndOf(t, side);
    assert EndOk(link, s.hist, s.now, side, e) && HeldAll(e.layer, s.hist, s.now, side);
    ElsewhereFrame(e.layer, event, s.now);
    XI.NextInv(e.layer, event, s.now);
    XI.NextConfig(e.layer, event, s.now);
    NoIndexZero(f.layer);
    NoIndexZero(e.layer);
    OneSided(link, s, t, side, 0);
  }

  // ---------------------------------------------------------------- requests

  /** What the create-and-commit pair leaves behind. */
  lemma AskEffect(s: Layer, kind: Octet, teid: bv32, body: seq<Octet>, now: nat, sendOk: bool)
    requires XI.Inv(s) && s.cfg == Config(true, true)
    requires LocalCreate(s, PEER, kind, teid, body).xact.Some?
    ensures var created := LocalCreate(s, PEER, kind, teid, body);
            var i := created.xact.value;
            i in created.layer.pool &&
            var x := created.layer.pool[i];
            x.step == 1 &&
            var v := Commit(x, now, sendOk);
            && s.free != [] && i == s.free[0] && i !in s.pool
            && v.Keep? && (v.sent.Some? ==> v.sent.value == BuildPacket(x.xid, kind, teid, body))
            && var y := v.xact;
               && y.org.Local? && y.gnode == PEER && y.xid == x.xid && y.xid <= MAX_XACT_ID && y.step == 1
               && StageOf(kind, y.xid) == Initial
               && y.hist[0].pkbuf == Some(BuildPacket(x.xid, kind, teid, body))
               && y.tmResponse == Running(now + RESPONSE_DURATION) && y.responseRcount == 3 && y.tmHolding == Idle
  {
    assert s.free[0] in s.free;
  }

  lemma AskLayer(s: Layer, kind: Octet, teid: bv32, body: seq<Octet>, now: nat, sendOk: bool)
    requires XI.Inv(s) && s.cfg == Config(true, true)
    requires LocalCreate(s, PEER, kind, teid, body).xact.Some?
    ensures var created := LocalCreate(s, PEER, kind, teid, body);
            var i := created.xact.value;
            var t := Apply(created.layer, i, Commit(created.layer.pool[i], now, sendOk));
            XI.Inv(t) && t.cfg == s.cfg && SamePeer(s, t, i) && Live(t, i)
            && t.pool[i] == Commit(created.layer.pool[i], now, sendOk).xact
  {
    hide XI.XactOk, XI.BitOk, XI.PoolOk, XI.ListsOk, XI.AssocOk, XI.FirstOk, XI.IdsOk, Commit;
    var created := LocalCreate(s, PEER, kind, teid, body);
    var i := created.xact.value;
    AskEffect(s, kind, teid, body, now, sendOk);
    XI.LocalCreateInv(s, PEER, kind, teid, body);
    LocalCreateFrame(s, PEER, kind, teid, body);
    XI.CommitInv(created.layer, i, now, sendOk);
  }

  lemma AskSent(link: Link, s: Sys, side: Side, kind: Octet, teid: bv32, body: seq<Octet>, sendOk: bool)
    requires SysOk(link, s) && LocalCreate(EndOf(s, side).layer, PEER, kind, teid, body).xact.Some?
    ensures SysOk(link, AfterAsk(s, side, kind, teid, body, sendOk))
  {
    hide XI.Inv, Apart, LocalCreate, Commit, RequestOk, DeliveryOk, ReplyOk, StageOf, Bit23, XidToSqn;
    var e, t := EndOf(s, side), AfterAsk(s, side, kind, teid, body, sendOk);
    assert EndOk(link, s.hist, s.now, side, e);
    var created := LocalCreate(e.layer, PEER, kind, teid, body);
    AskEffect(e.layer, kind, teid, body, s.now, sendOk);
    AskLayer(e.layer, kind, teid, body, s.now, sendOk);
    var i := created.xact.value;
    var x := created.layer.pool[i];
    AppendRequest(link, s.hist, s.now, Request(side, s.now, x.xid, BuildPacket(x.xid, kind, teid, body), i, Message(kind, teid, body)));
    forall a | 0 <= a < |s.hist.acceptances|
      ensures s.hist.acceptances[a].request < |s.hist.requests|
    {
      assert AcceptanceOk(s.hist, s.now, a);
    }
    assert LocalOk(link, t.hist, side, i, EndOf(t, side).layer.pool[i], |s.hist.requests|);
    OneSided(link, s, t, side, i);
  }

  lemma AskOk(link: Link, s: Sys, side: Side, kind: Octet, teid: bv32, body: seq<Octet>, sendOk: bool)
    requires SysOk(link, s)
    ensures SysOk(link, AfterAsk(s, side, kind, teid, body, sendOk))
  {
    hide XI.Inv, Apart, LocalCreate, Commit, RecordsOk;
    if LocalCreate(EndOf(s, side).layer, PEER, kind, teid, body).xact.None? {
      assert EndOk(link, s.hist, s.now, side, EndOf(s, side));
      var i := FailedAsk(EndOf(s, side).layer, kind, teid, body);
      OneSided(link, s, AfterAsk(s, side, kind, teid, body, sendOk), side, i);
    } else {
      AskSent(link, s, side, kind, teid, body, sendOk);
    }
  }

  /** A refused request changes nothing, or leaves an unused transaction that no timer will visit. */
  lemma FailedAsk(s: Layer, kind: Octet, teid: bv32, body: seq<Octet>) returns (i: Index)
    requires XI.Inv(s)
    requires LocalCreate(s, PEER, kind, teid, body).xact.None?
    ensures var t := LocalCreate(s, PEER, kind, teid, body).layer;
            && XI.Inv(t) && t.cfg == s.cfg && SamePeer(s, t, i) && !Live(s, i)
            && (Live(t, i) ==> t.pool[i].step == 0 && !t.pool[i].tmResponse.Running? && !t.pool[i].tmHolding.Running?)
  {
    XI.LocalCreateInv(s, PEER, kind, teid, body);
    LocalCreateFrame(s, PEER, kind, teid, body);
    i := if s.free != [] then s.free[0] else 0;
  }

  // ---------------------------------------------------------------- deliveries

  lemma ReceiveConfig(s: Layer, node: Node, kind: Octet, sqn: bv32, now: nat, sendOk: bool)
    ensures Receive(s, node, kind, sqn, now, sendOk).layer.cfg == s.cfg
  {
    hide UpdateRx, FindByXid;
  }

  /** What an arriving message does to the transaction it finds. */
  lemma FoundEffect(s: Layer, kind: Octet, sqn: bv32, now: nat, sendOk: bool)
    requires XI.Inv(s) && FindByXid(s, PEER, kind, SqnToXid(sqn)).Some?
    ensures var i := FindByXid(s, PEER, kind, SqnToXid(sqn)).value;
            var x := s.pool[i];
            var r := Receive(s, PEER, kind, sqn, now, sendOk);
            && Live(s, i) && x.xid == SqnToXid(sqn) && SearchedList(kind, x.xid) == Some(x.org)
            && Touched(s, PEER, kind, sqn) == i && Live(r.layer, i)
            && r.layer.pool[i] == UpdateRx(x, kind, now, sendOk).xact
            && r.status == UpdateRx(x, kind, now, sendOk).status && r.sent == UpdateRx(x, kind, now, sendOk).sent
            && r.xact == if r.status == Ok then Some(i) else None
  {
    hide UpdateRx, StageOf, XI.PoolOk, XI.AssocOk, XI.FirstOk, XI.IdsOk, XI.XactOk, XI.BitOk;
    XI.LookupHandled(s, PEER, kind, SqnToXid(sqn));
    UpdateRxIdentity(s.pool[FindByXid(s, PEER, kind, SqnToXid(sqn)).value], kind, now, sendOk);
  }

  /** What an unmatched message leaves behind: a request starts a transaction, anything else an unused
      entry. */
  lemma FreshEffect(s: Layer, kind: Octet, sqn: bv32, now: nat, sendOk: bool)
    requires XI.Inv(s) && s.cfg == Config(true, true) && FindByXid(s, PEER, kind, SqnToXid(sqn)).None? && s.free != []
    ensures var i := s.free[0];
            var r := Receive(s, PEER, kind, sqn, now, sendOk);
            && i !in s.pool && Touched(s, PEER, kind, sqn) == i && Live(r.layer, i) && r.sent.None?
            && r.xact == (if r.status == Ok then Some(i) else None)
            && var y := r.layer.pool[i];
               && y.org.Remote? && y.xid == SqnToXid(sqn) && y.tmResponse == Idle
               && if StageOf(kind, y.xid) == Initial
                  then r.status == Ok && y.step == 1 && y.tmHolding == Running(now + HOLDING_DURATION) && y.hist[0].kind == kind
                  else r.status == Error && y.step == 0 && y.tmHolding == Idle
  {
    hide FindByXid, XI.ListsOk, XI.AssocOk, XI.FirstOk, XI.IdsOk, XI.XactOk, XI.BitOk;
    assert s.free[0] in s.free;
  }

  /** A request is never handed to the application within the holding time of an earlier delivery of
      the same identifier: lookup finds the transaction that is still held. */
  lemma HeldBlocks(layer: Layer, h: Hist, now: nat, k: nat, kind: Octet, xid: bv32)
    requires XI.FirstOk(layer) && k < |h.deliveries| && h.deliveries[k].request < |h.requests|
    requires Held(layer, h, now, k) && !Bit23(xid) && DeliveredRequest(h, k).xid == xid
    requires StageOf(kind, xid) == Initial && now <= h.deliveries[k].time + HOLDING_DURATION
    ensures var found := FindByXid(layer, PEER, kind, xid);
            found.Some? && layer.pool[found.value].step >= 1
  {
    assert FirstWith(layer.pool, ListOf(layer, KeyOf(layer.pool[h.deliveries[k].entry])), xid) == Some(h.deliveries[k].entry);
  }

  /** The request reaches the application. */
  lemma RequestAccepted(link: Link, s: Sys, side: Side, f: Flight, sendOk: bool)
    requires SysOk(link, s) && Possible(link, s, Deliver(side, f, sendOk)) && f.source.FromRequest?
    requires Receive(EndOf(s, side).layer, PEER, f.pkt.kind, f.pkt.sqn, s.now, sendOk).status == Ok
    ensures SysOk(link, AfterDeliver(s, side, f, sendOk))
  {
    hide XI.Inv, Apart, Receive, FindByXid, UpdateRx, RecordsOk, StageOf, Bit23, SqnToXid, XidToSqn;
    var e, t := EndOf(s, side), AfterDeliver(s, side, f, sendOk);
    var n := f.source.n;
    assert EndOk(link, s.hist, s.now, side, e) && HeldAll(e.layer, s.hist, s.now, side) && FlightOk(s.hist, link, s.now, f);
    var xid := s.hist.requests[n].xid;
    var r := Receive(e.layer, PEER, f.pkt.kind, f.pkt.sqn, s.now, sendOk);
    RequestXid(link, s.hist, s.now, n);
    var i := AcceptedEffect(e.layer, f.pkt.kind, f.pkt.sqn, s.now, sendOk);
    ReceiveConfig(e.layer, PEER, f.pkt.kind, f.pkt.sqn, s.now, sendOk);
    if !Bit23(xid) {
      forall k | 0 <= k < |s.hist.deliveries| && s.hist.deliveries[k].side == side
                 && s.hist.deliveries[k].request < |s.hist.requests| && DeliveredRequest(s.hist, k).xid == xid
        ensures s.now > s.hist.deliveries[k].time + HOLDING_DURATION
      {
        if s.now <= s.hist.deliveries[k].time + HOLDING_DURATION {
          NotWhileHeld(e.layer, s.hist, s.now, k, f.pkt.kind, f.pkt.sqn, sendOk);
        }
      }
    }
    AppendDelivery(link, s.hist, s.now, Delivery(side, s.now, n, i, f.pkt));
    assert RemoteOk(t.hist, side, i, EndOf(t, side).layer.pool[i], |s.hist.deliveries|, 0);
    OneSided(link, s, t, side, i);
  }

  lemma RequestXid(link: Link, h: Hist, now: nat, n: nat)
    requires RecordsOk(link, h, now) && n < |h.requests|
    ensures var r := h.requests[n];
            SqnToXid(r.pkt.sqn) == SqnToXid(XidToSqn(r.xid)) == r.xid && StageOf(r.pkt.kind, r.xid) == Initial && r.time <= now
  {
    hide SqnToXid, XidToSqn, StageOf;
    assert RequestOk(h, now, n);
    XidRoundTrip(h.requests[n].xid);
  }

  lemma NotWhileHeld(layer: Layer, h: Hist, now: nat, k: nat, kind: Octet, sqn: bv32, sendOk: bool)
    requires XI.Inv(layer) && k < |h.deliveries| && h.deliveries[k].request < |h.requests|
    requires Held(layer, h, now, k) && !Bit23(SqnToXid(sqn)) && DeliveredRequest(h, k).xid == SqnToXid(sqn)
    requires StageOf(kind, SqnToXid(sqn)) == Initial && now <= h.deliveries[k].time + HOLDING_DURATION
    ensures Receive(layer, PEER, kind, sqn, now, sendOk).status != Ok
  {
    hide XI.PoolOk, XI.ListsOk, XI.AssocOk, XI.IdsOk, XI.BitOk, Receive, FindByXid;
    HeldBlocks(layer, h, now, k, kind, SqnToXid(sqn));
    FoundEffect(layer, kind, sqn, now, sendOk);
    var x := layer.pool[FindByXid(layer, PEER, kind, SqnToXid(sqn)).value];
    assert XI.XactOk(layer.cfg, x);
    XI.UpdateRxCases(x, kind, now, sendOk);
  }

  /** The transaction an accepted request is recorded in is at step 1, newly held. */
  lemma AcceptedEffect(s: Layer, kind: Octet, sqn: bv32, now: nat, sendOk: bool) returns (i: Index)
    requires XI.Inv(s) && s.cfg == Config(true, true) && StageOf(kind, SqnToXid(sqn)) == Initial
    requires Receive(s, PEER, kind, sqn, now, sendOk).status == Ok
    ensures var r := Receive(s, PEER, kind, sqn, now, sendOk);
            && XI.Inv(r.layer) && SamePeer(s, r.layer, i) && Live(r.layer, i) && r.xact == Some(i)
            && (Live(s, i) ==> s.pool[i].step == 0)
            && var y := r.layer.pool[i];
               y.org.Remote? && y.xid == SqnToXid(sqn) && y.step == 1 && y.tmHolding == Running(now + HOLDING_DURATION)
               && !y.tmResponse.Running? && y.hist[0].kind == kind
  {
    hide XI.PoolOk, XI.ListsOk, XI.AssocOk, XI.IdsOk, XI.BitOk, XI.FirstOk, FindByXid;
    XI.ReceiveInv(s, PEER, kind, sqn, now, sendOk);
    ReceiveFrame(s, PEER, kind, sqn, now, sendOk);
    i := Touched(s, PEER, kind, sqn);
    if FindByXid(s, PEER, kind, SqnToXid(sqn)).Some? {
      FoundEffect(s, kind, sqn, now, sendOk);
      assert XI.XactOk(s.cfg, s.pool[i]);
      XI.UpdateRxCases(s.pool[i], kind, now, sendOk);
    } else if s.free != [] {
      FreshEffect(s, kind, sqn, now, sendOk);
    }
  }

  /** A message that is not accepted at most restarts the holding timer of what it finds, or leaves an
      unused entry. */
  lemma RefusedEffect(s: Layer, kind: Octet, sqn: bv32, now: nat, sendOk: bool) returns (i: Index)
    requires XI.Inv(s) && s.cfg == Config(true, true)
    requires Receive(s, PEER, kind, sqn, now, sendOk).status != Ok
    ensures var r := Receive(s, PEER, kind, sqn, now, sendOk);
            var found := FindByXid(s, PEER, kind, SqnToXid(sqn));
            && XI.Inv(r.layer) && SamePeer(s, r.layer, i)
            && (found.Some? ==> i == found.value && Live(s, i) && s.pool[i].xid == SqnToXid(sqn)
                                && SearchedList(kind, SqnToXid(sqn)) == Some(s.pool[i].org))
            && (found.None? ==> i !in s.pool && r.sent.None?)
            && (Live(s, i) ==> Live(r.layer, i) && (r.layer.pool[i] == s.pool[i]
                                                    || (s.pool[i].step >= 1 && r.layer.pool[i] == Hold(s.pool[i], now))))
            && (i !in s.pool && Live(r.layer, i) ==>
                  var y := r.layer.pool[i]; y.step == 0 && y.tmResponse == Idle && y.tmHolding == Idle)
            && (r.sent.Some? ==> found.Some? && s.pool[i].step >= 2 && StageOf(kind, SqnToXid(sqn)) != Final
                                 && r.sent == s.pool[i].hist[if s.pool[i].org.Local? then 2 else 1].pkbuf)
  {
    hide XI.PoolOk, XI.ListsOk, XI.AssocOk, XI.IdsOk, XI.BitOk, XI.FirstOk, FindByXid;
    XI.ReceiveInv(s, PEER, kind, sqn, now, sendOk);
    ReceiveFrame(s, PEER, kind, sqn, now, sendOk);
    i := Touched(s, PEER, kind, sqn);
    if FindByXid(s, PEER, kind, SqnToXid(sqn)).Some? {
      FoundEffect(s, kind, sqn, now, sendOk);
      assert XI.XactOk(s.cfg, s.pool[i]);
      XI.UpdateRxCases(s.pool[i], kind, now, sendOk);
    } else if s.free != [] {
      FreshEffect(s, kind, sqn, now, sendOk);
    } else {
      NoIndexZero(s);
    }
  }

  lemma RefusedEnd(link: Link, h: Hist, now: nat, side: Side, e: End, f: Flight, sendOk: bool) returns (i: Index)
    requires RecordsOk(link, h, now) && EndOk(link, h, now, side, e) && FlightOk(h, link, now, f)
    requires Receive(e.layer, PEER, f.pkt.kind, f.pkt.sqn, now, sendOk).status != Ok
    ensures var r := Receive(e.layer, PEER, f.pkt.kind, f.pkt.sqn, now, sendOk);
            var found := FindByXid(e.layer, PEER, f.pkt.kind, SqnToXid(f.pkt.sqn));
            var next := e.(layer := r.layer);
            && XI.Inv(r.layer) && r.layer.cfg == e.layer.cfg && SamePeer(e.layer, r.layer, i)
            && HoldKept(e.layer, r.layer, i, now)
            && (Live(r.layer, i) ==> TransactionOk(link, h, side, next, i) && OnTime(link, r.layer.pool[i], now))
            && (r.sent.Some? ==>
                  && found.Some?
                  && FlightOk(h, link, now, Flight(side, now, r.sent.value, FromReply(Get(e.answer, found.value)))))
  {
    hide XI.Inv, Receive, FindByXid, UpdateRx, RecordsOk, StageOf, Bit23, SqnToXid, XidToSqn;
    i := RefusedEffect(e.layer, f.pkt.kind, f.pkt.sqn, now, sendOk);
    ReceiveConfig(e.layer, PEER, f.pkt.kind, f.pkt.sqn, now, sendOk);
    FlightStage(link, h, now, f);
    assert Live(e.layer, i) ==> TransactionOk(link, h, side, e, i) && OnTime(link, e.layer.pool[i], now);
  }

  lemma DeliveryRefused(link: Link, s: Sys, side: Side, f: Flight, sendOk: bool)
    requires SysOk(link, s) && Possible(link, s, Deliver(side, f, sendOk))
    requires Receive(EndOf(s, side).layer, PEER, f.pkt.kind, f.pkt.sqn, s.now, sendOk).status != Ok
    ensures SysOk(link, AfterDeliver(s, side, f, sendOk))
  {
    hide XI.Inv, Apart, RecordsOk, TransactionOk, OnTime, HoldKept, HeldAll, Held, SamePeer, Live, StageOf, Bit23, SqnToXid, XidToSqn, Receive, FindByXid, EndOk, FlightOk;
    assert EndOk(link, s.hist, s.now, side, EndOf(s, side)) && FlightOk(s.hist, link, s.now, f);
    var i := RefusedEnd(link, s.hist, s.now, side, EndOf(s, side), f, sendOk);
    OneSided(link, s, AfterDeliver(s, side, f, sendOk), side, i);
  }

  /** Packets in the channel are requests or final answers, under the identifier they were built for. */
  lemma FlightStage(link: Link, h: Hist, now: nat, f: Flight)
    requires RecordsOk(link, h, now) && FlightOk(h, link, now, f)
    ensures var xid := SqnToXid(f.pkt.sqn);
            if f.source.FromRequest? then xid == h.requests[f.source.n].xid && StageOf(f.pkt.kind, xid) == Initial
            else
              && h.replies[f.source.n].delivery < |h.deliveries|
              && h.deliveries[h.replies[f.source.n].delivery].request < |h.requests|
              && xid == DeliveredRequest(h, h.replies[f.source.n].delivery).xid && StageOf(f.pkt.kind, xid) == Final
  {
    hide SqnToXid, XidToSqn, StageOf;
    if f.source.FromRequest? {
      RequestXid(link, h, now, f.source.n);
    } else {
      assert ReplyOk(link, h, now, f.source.n);
      RequestXid(link, h, now, h.deliveries[h.replies[f.source.n].delivery].request);
    }
  }

  /** An accepted answer advances the transaction it finds by one step. */
  lemma AnsweredEffect(s: Layer, kind: Octet, sqn: bv32, now: nat, sendOk: bool) returns (i: Index)
    requires XI.Inv(s) && s.cfg == Config(true, true) && StageOf(kind, SqnToXid(sqn)) == Final
    requires Receive(s, PEER, kind, sqn, now, sendOk).status == Ok
    ensures var r := Receive(s, PEER, kind, sqn, now, sendOk);
            && XI.Inv(r.layer) && SamePeer(s, r.layer, i) && Live(r.layer, i) && Live(s, i) && r.xact == Some(i)
            && r.sent.None?
            && var x := s.pool[i];
               && x.xid == SqnToXid(sqn) && (x.org.Local? <==> !Bit23(x.xid)) && x.step == (if x.org.Local? then 1 else 2)
               && r.layer.pool[i] == Advance(x, kind).xact
  {
    hide XI.PoolOk, XI.ListsOk, XI.AssocOk, XI.IdsOk, XI.BitOk, XI.FirstOk, FindByXid;
    XI.ReceiveInv(s, PEER, kind, sqn, now, sendOk);
    ReceiveFrame(s, PEER, kind, sqn, now, sendOk);
    i := Touched(s, PEER, kind, sqn);
    if FindByXid(s, PEER, kind, SqnToXid(sqn)).Some? {
      FoundEffect(s, kind, sqn, now, sendOk);
      assert XI.XactOk(s.cfg, s.pool[i]);
      XI.UpdateRxCases(s.pool[i], kind, now, sendOk);
    } else if s.free != [] {
      FreshEffect(s, kind, sqn, now, sendOk);
    }
  }

  lemma AnswerAcceptedEnd(link: Link, h: Hist, now: nat, side: Side, e: End, f: Flight, sendOk: bool) returns (i: Index)
    requires RecordsOk(link, h, now) && Apart(h) && EndOk(link, h, now, side, e)
    requires FlightOk(h, link, now, f) && f.source.FromReply? && f.side == Other(side)
    requires Receive(e.layer, PEER, f.pkt.kind, f.pkt.sqn, now, sendOk).status == Ok
    ensures var r := Receive(e.layer, PEER, f.pkt.kind, f.pkt.sqn, now, sendOk);
            var next := e.(layer := r.layer);
            && r.xact == Some(i) && r.sent.None? && i in r.layer.pool
            && XI.Inv(r.layer) && r.layer.cfg == e.layer.cfg && SamePeer(e.layer, r.layer, i)
            && HoldKept(e.layer, r.layer, i, now)
            && var g := if r.layer.pool[i].org.Remote? then h
                        else h.(acceptances := h.acceptances + [Acceptance(side, now, Get(e.birth, i), f.source.n, f.pkt)]);
               && Grows(h, g) && RecordsOk(link, g, now) && Apart(g)
               && NoNewAcceptance(h, g, side, i) && NoNewAcceptance(h, g, Other(side), 0)
               && TransactionOk(link, g, side, next, i) && OnTime(link, r.layer.pool[i], now)
  {
    hide XI.Inv, Apart, Receive, FindByXid, UpdateRx, RecordsOk, StageOf, Bit23, SqnToXid, XidToSqn;
    FlightStage(link, h, now, f);
    i := AnsweredEffect(e.layer, f.pkt.kind, f.pkt.sqn, now, sendOk);
    ReceiveConfig(e.layer, PEER, f.pkt.kind, f.pkt.sqn, now, sendOk);
    var x, n := e.layer.pool[i], Get(e.birth, i);
    assert TransactionOk(link, h, side, e, i) && OnTime(link, x, now);
    if x.org.Local? {
      AppendAcceptance(link, h, now, Acceptance(side, now, n, f.source.n, f.pkt));
    }
  }

  lemma AnswerAccepted(link: Link, s: Sys, side: Side, f: Flight, sendOk: bool)
    requires SysOk(link, s) && Possible(link, s, Deliver(side, f, sendOk)) && f.source.FromReply?
    requires Receive(EndOf(s, side).layer, PEER, f.pkt.kind, f.pkt.sqn, s.now, sendOk).status == Ok
    ensures SysOk(link, AfterDeliver(s, side, f, sendOk))
  {
    hide XI.Inv, Apart, RecordsOk, TransactionOk, OnTime, HoldKept, HeldAll, Held, SamePeer, Live, StageOf, Bit23, SqnToXid, XidToSqn, Receive, FindByXid, EndOk, FlightOk, NoNewAcceptance;
    assert EndOk(link, s.hist, s.now, side, EndOf(s, side)) && FlightOk(s.hist, link, s.now, f);
    var i := AnswerAcceptedEnd(link, s.hist, s.now, side, EndOf(s, side), f, sendOk);
    OneSided(link, s, AfterDeliver(s, side, f, sendOk), side, i);
  }

  lemma DeliverOk(link: Link, s: Sys, side: Side, f: Flight, sendOk: bool)
    requires SysOk(link, s) && Possible(link, s, Deliver(side, f, sendOk))
    ensures SysOk(link, AfterDeliver(s, side, f, sendOk))
  {
    hide SysOk, Possible, AfterDeliver, Receive;
    if Receive(EndOf(s, side).layer, PEER, f.pkt.kind, f.pkt.sqn, s.now, sendOk).status != Ok {
      DeliveryRefused(link, s, side, f, sendOk);
    } else if f.source.FromRequest? {
      RequestAccepted(link, s, side, f, sendOk);
    } else {
      AnswerAccepted(link, s, side, f, sendOk);
    }
  }

  // ---------------------------------------------------------------- answers, conclusions, timers

  lemma AnswerEnd(link: Link, h: Hist, now: nat, side: Side, e: End, i: Index, kind: Octet, teid: bv32, body: seq<Octet>, sendOk: bool)
    requires RecordsOk(link, h, now) && Apart(h) && EndOk(link, h, now, side, e)
    requires Live(e.layer, i) && e.layer.pool[i].org.Remote? && StageOf(kind, e.layer.pool[i].xid) == Final
    requires UpdateTx(e.layer.pool[i], kind, teid, body).0 == Ok
    ensures var x := UpdateTx(e.layer.pool[i], kind, teid, body).1;
            x.step == 2 &&
            var v := Commit(x, now, sendOk);
            var t := Apply(Put(e.layer, i, x), i, v);
            var next := e.(layer := t, answer := e.answer[i := |h.replies|]);
            var g := h.(replies := h.replies + [Reply(side, now, Get(e.cause, i), BuildPacket(x.xid, kind, teid, body), Message(kind, teid, body))]);
            && v.Keep? && XI.Inv(t) && t.cfg == e.layer.cfg && SamePeer(e.layer, t, i) && HoldKept(e.layer, t, i, now)
            && Grows(h, g) && RecordsOk(link, g, now) && Apart(g)
            && Live(t, i) && TransactionOk(link, g, side, next, i) && OnTime(link, t.pool[i], now)
            && (v.sent.Some? ==> FlightOk(g, link, now, Flight(side, now, v.sent.value, FromReply(|h.replies|))))
  {
    hide XI.Inv, Apart, RecordsOk, Commit, UpdateTx, StageOf, Bit23, SqnToXid, XidToSqn;
    var x := e.layer.pool[i];
    AnswerEffect(e.layer, i, kind, teid, body, now, sendOk);
    assert TransactionOk(link, h, side, e, i) && OnTime(link, x, now);
    AppendReply(link, h, now, Reply(side, now, Get(e.cause, i), BuildPacket(x.xid, kind, teid, body), Message(kind, teid, body)));
  }

  lemma AnswerOk(link: Link, s: Sys, side: Side, i: Index, kind: Octet, teid: bv32, body: seq<Octet>, sendOk: bool)
    requires SysOk(link, s) && Possible(link, s, Answer(side, i, kind, teid, body, sendOk))
    ensures SysOk(link, AfterAnswer(s, side, i, kind, teid, body, sendOk))
  {
    hide XI.Inv, Apart, RecordsOk, TransactionOk, OnTime, HoldKept, HeldAll, Held, SamePeer, StageOf, Bit23, SqnToXid, XidToSqn, UpdateTx, Commit, EndOk, FlightOk;
    var e := EndOf(s, side);
    assert EndOk(link, s.hist, s.now, side, e);
    if UpdateTx(e.layer.pool[i], kind, teid, body).0 == Ok {
      AnswerEnd(link, s.hist, s.now, side, e, i, kind, teid, body, sendOk);
      OneSided(link, s, AfterAnswer(s, side, i, kind, teid, body, sendOk), side, i);
    }
  }

  /** Answering records the packet at position 1 and commits it; no timer changes. */
  lemma AnswerEffect(s: Layer, i: Index, kind: Octet, teid: bv32, body: seq<Octet>, now: nat, sendOk: bool)
    requires XI.Inv(s) && Live(s, i) && s.pool[i].org.Remote? && StageOf(kind, s.pool[i].xid) == Final
    requires UpdateTx(s.pool[i], kind, teid, body).0 == Ok
    ensures var x, y := s.pool[i], UpdateTx(s.pool[i], kind, teid, body).1;
            && x.step == 1 && y.step == 2
            && var v := Commit(y, now, sendOk);
               var t := Apply(Put(s, i, y), i, v);
               && v == Keep(v.status, y, v.sent) && (v.sent.Some? ==> v.sent == y.hist[1].pkbuf)
               && XI.Inv(t) && t.cfg == s.cfg && SamePeer(s, t, i) && Live(t, i) && t.pool[i] == y
               && y == x.(hist := y.hist, step := 2) && y.hist[0] == x.hist[0]
               && y.hist[1] == Slot(kind, Some(BuildPacket(x.xid, kind, teid, body)))
  {
    hide XI.PoolOk, XI.ListsOk, XI.AssocOk, XI.IdsOk, XI.BitOk, XI.FirstOk;
    var y := UpdateTx(s.pool[i], kind, teid, body).1;
    XI.UpdateTxInv(s, i, kind, teid, body);
    XI.CommitInv(Put(s, i, y), i, now, sendOk);
    XI.CommitCases(y, now, sendOk);
  }

  lemma ConcludeOk(link: Link, s: Sys, side: Side, i: Index)
    requires SysOk(link, s) && Possible(link, s, Conclude(side, i))
    ensures SysOk(link, After(link, s, Conclude(side, i)))
  {
    hide XI.Inv, Apart, RecordsOk, Commit, StageOf, Bit23;
    var e, t := EndOf(s, side), After(link, s, Conclude(side, i));
    assert EndOk(link, s.hist, s.now, side, e);
    var x := e.layer.pool[i];
    ConcludeEffect(e.layer, i, s.now);
    OneSided(link, s, t, side, i);
  }

  lemma ConcludeEffect(s: Layer, i: Index, now: nat)
    requires XI.Inv(s) && Live(s, i) && 2 <= s.pool[i].step <= 3 && !XI.TxPosition(s.pool[i].org, s.pool[i].step - 1)
    ensures var t := Apply(s, i, Commit(s.pool[i], now, true));
            && XI.Inv(t) && t.cfg == s.cfg && SamePeer(s, t, i) && (Live(t, i) ==> t.pool[i] == s.pool[i])
            && (s.pool[i].org.Remote? ==> Bit23(s.pool[i].xid))
  {
    hide XI.PoolOk, XI.ListsOk, XI.AssocOk, XI.IdsOk, XI.FirstOk;
    var x := s.pool[i];
    assert XI.XactOk(s.cfg, x) && XI.BitOk(x);
    XI.CommitInv(s, i, now, true);
    XI.CommitCases(x, now, true);
    VerdictFrame(s, i, Commit(x, now, true));
    if Commit(x, now, true).Delete? {
      DropFrame(s, i);
    }
  }

  lemma ExpireEffect(s: Layer, i: Index, timer: TimerEvent, now: nat, sendOk: bool)
    requires XI.Inv(s) && s.cfg == Config(true, true) && Live(s, i) && 1 <= s.pool[i].step <= 3
    requires if timer.ResponseTimeout? then s.pool[i].tmResponse.Running? else s.pool[i].tmHolding.Running?
    ensures var x, v := s.pool[i], Timeout(s.pool[i], timer, now, sendOk);
            var t := Apply(s, i, v);
            && XI.Inv(t) && t.cfg == s.cfg && SamePeer(s, t, i) && (Live(t, i) ==> v.Keep? && t.pool[i] == v.xact)
            && (v.Keep? ==>
                  && timer.ResponseTimeout? && XI.AwaitsAnswer(x) && 2 <= x.responseRcount <= 3
                  && v.xact == x.(responseRcount := x.responseRcount - 1, tmResponse := Running(now + RESPONSE_DURATION))
                  && v.sent.Some? && v.sent == x.hist[x.step - 1].pkbuf)
            && (timer.ResponseTimeout? ==> XI.AwaitsAnswer(x))
  {
    hide XI.PoolOk, XI.ListsOk, XI.AssocOk, XI.IdsOk, XI.FirstOk;
    var x := s.pool[i];
    assert XI.XactOk(s.cfg, x);
    XI.RunningIsSafe(s.cfg, x, timer, sendOk);
    XI.TimeoutExact(s, i, timer, now, sendOk);
    XI.TimeoutOk(s.cfg, x, timer, now, sendOk);
    VerdictFrame(s, i, Timeout(x, timer, now, sendOk));
    if Timeout(x, timer, now, sendOk).Delete? {
      DropFrame(s, i);
    }
  }

  lemma ExpireEnd(link: Link, h: Hist, now: nat, side: Side, e: End, i: Index, timer: TimerEvent, sendOk: bool)
    requires RecordsOk(link, h, now) && EndOk(link, h, now, side, e)
    requires Live(e.layer, i) && 1 <= e.layer.pool[i].step <= 3
    requires Due(if timer.ResponseTimeout? then e.layer.pool[i].tmResponse else e.layer.pool[i].tmHolding, now)
    ensures var x := e.layer.pool[i];
            var v := Timeout(x, timer, now, sendOk);
            var t := Apply(e.layer, i, v);
            var next := e.(layer := t);
            && XI.Inv(t) && t.cfg == e.layer.cfg && SamePeer(e.layer, t, i) && HoldKept(e.layer, t, i, now)
            && (Live(t, i) ==> TransactionOk(link, h, side, next, i) && OnTime(link, t.pool[i], now))
            && (v.Keep? ==> x.org.Local? && v.sent.Some?
                            && FlightOk(h, link, now, Flight(side, now, v.sent.value, FromRequest(Get(e.birth, i)))))
  {
    hide XI.Inv, RecordsOk, Timeout, StageOf, Bit23;
    var x := e.layer.pool[i];
    ExpireEffect(e.layer, i, timer, now, sendOk);
    assert TransactionOk(link, h, side, e, i) && OnTime(link, x, now);
    if timer.ResponseTimeout? && x.org.Local? {
      RequestXid(link, h, now, Get(e.birth, i));
    }
  }

  lemma ExpireOk(link: Link, s: Sys, side: Side, i: Index, timer: TimerEvent, sendOk: bool)
    requires SysOk(link, s) && Possible(link, s, Expire(side, i, timer, sendOk))
    ensures SysOk(link, AfterExpire(s, side, i, timer, sendOk))
  {
    hide XI.Inv, Apart, RecordsOk, TransactionOk, OnTime, HoldKept, HeldAll, Held, SamePeer, StageOf, Bit23, SqnToXid, XidToSqn, Timeout, EndOk, FlightOk;
    assert EndOk(link, s.hist, s.now, side, EndOf(s, side));
    ExpireEnd(link, s.hist, s.now, side, EndOf(s, side), i, timer, sendOk);
    OneSided(link, s, AfterExpire(s, side, i, timer, sendOk), side, i);
  }

  // ---------------------------------------------------------------- runs

  lemma StepOk(link: Link, s: Sys, step: Step)
    requires SysOk(link, s) && Possible(link, s, step)
    ensures SysOk(link, After(link, s, step))
  {
    hide SysOk, AfterAsk, AfterDeliver, AfterAnswer, AfterExpire;
    match step
    case Tick(dt) => TickOk(link, s, dt);
    case Ask(side, kind, teid, body, sendOk) => AskOk(link, s, side, kind, teid, body, sendOk);
    case Deliver(side, f, sendOk) => DeliverOk(link, s, side, f, sendOk);
    case Answer(side, i, kind, teid, body, sendOk) => AnswerOk(link, s, side, i, kind, teid, body, sendOk);
    case Conclude(side, i) => ConcludeOk(link, s, side, i);
    case Expire(side, i, timer, sendOk) => ExpireOk(link, s, side, i, timer, sendOk);
    case Elsewhere(side, event) => ElsewhereOk(link, s, side, event);
  }

  lemma InitialOk(link: Link)
    ensures SysOk(link, InitialSys())
  {
    XI.InitialInv(Config(true, true));
  }

  lemma {:induction false} RunOk(link: Link, states: seq<Sys>, steps: seq<Step>, k: nat)
    requires IsRun(link, states, steps) && k < |states|
    ensures SysOk(link, states[k])
  {
    hide SysOk, After, Possible;
    if k == 0 {
      InitialOk(link);
    } else {
      RunOk(link, states, steps, k - 1);
      StepOk(link, states[k - 1], steps[k - 1]);
    }
  }
}

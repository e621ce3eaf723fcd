/** What every reachable state of the two-endpoint system satisfies. */
module ChannelInvariants {
  import opened Options
  import opened GtpMessage
  import opened XactModel
  import opened ChannelModel
  import XI = XactInvariants

  // ---------------------------------------------------------------- frames

  /** A transaction without its association, which plays no role in the exchange. */
  function Core(x: Xact): Xact {
    x.(assoc := None)
  }

  lemma CoreFields(x: Xact, y: Xact)
    requires Core(x) == Core(y)
    ensures y == x.(assoc := y.assoc)
  {
    assert y == Core(y).(assoc := y.assoc);
  }

  /** The two layers agree on all transactions with the peer, except possibly at index i. */
  ghost predicate SamePeer(s: Layer, t: Layer, i: Index) {
    forall j | j != i :: (Live(s, j) <==> Live(t, j)) && (Live(s, j) ==> Core(s.pool[j]) == Core(t.pool[j]))
  }

  lemma DropFrame(s: Layer, i: Index)
    requires i in s.pool
    ensures SamePeer(s, Drop(s, i), i) && i !in Drop(s, i).pool
    ensures forall j | j in Drop(s, i).pool :: j in s.pool && Drop(s, i).pool[j].gnode == s.pool[j].gnode
  {
  }

  lemma {:induction false} DropEachFrame(s: Layer, l: seq<Index>)
    requires forall i | i in l :: !Live(s, i)
    ensures SamePeer(s, DropEach(s, l), 0) && (Live(s, 0) <==> Live(DropEach(s, l), 0))
    decreases l
  {
    if l != [] {
      if l[0] in s.pool {
        DropFrame(s, l[0]);
        DropEachFrame(Drop(s, l[0]), l[1..]);
      } else {
        DropEachFrame(s, l[1..]);
      }
    }
  }

  /** The one transaction a received message can touch: the one found, or else a fresh one. */
  function Touched(s: Layer, node: Node, kind: Octet, sqn: bv32): Index {
    var found := FindByXid(s, node, kind, SqnToXid(sqn));
    if found.Some? then found.value else if s.free != [] then s.free[0] else 0
  }

  lemma UpdateRxIdentity(x: Xact, kind: Octet, now: nat, sendOk: bool)
    ensures XI.SameIdentity(x, UpdateRx(x, kind, now, sendOk).xact)
    ensures UpdateRx(x, kind, now, sendOk).xact.assoc == x.assoc
  {
  }

  lemma ReceiveFrame(s: Layer, node: Node, kind: Octet, sqn: bv32, now: nat, sendOk: bool)
    requires XI.PoolOk(s) && XI.ListsOk(s)
    ensures var t, i := Receive(s, node, kind, sqn, now, sendOk).layer, Touched(s, node, kind, sqn);
            && SamePeer(s, t, i)
            && (i in s.pool ==> s.pool[i].gnode == node) && (i in t.pool ==> t.pool[i].gnode == node)
  {
    hide UpdateRx;
    var xid := SqnToXid(sqn);
    var found := FindByXid(s, node, kind, xid);
    XI.LookupHandled(s, node, kind, xid);
    if found.Some? {
      UpdateRxIdentity(s.pool[found.value], kind, now, sendOk);
    } else if s.free != [] {
      assert s.free[0] in s.free;
      UpdateRxIdentity(NewXact(s.cfg, Remote, xid, node), kind, now, sendOk);
    }
  }

  lemma VerdictFrame(s: Layer, i: Index, v: Verdict)
    requires i in s.pool
    ensures SamePeer(s, Apply(s, i, v), i)
    ensures Live(Apply(s, i, v), i) ==> v.Keep? && v.xact.gnode == PEER
  {
    if v.Delete? {
      DropFrame(s, i);
    }
  }

  lemma ElsewhereFrame(s: Layer, e: XI.Event, now: nat)
    requires XI.Inv(s) && OtherPeers(s, e)
    ensures SamePeer(s, XI.Next(s, e, now), 0)
  {
    hide XI.XactOk, XI.BitOk, XI.AssocOk, XI.FirstOk, XI.IdsOk, Receive, UpdateTx, Commit, Timeout, Drop, StageOf,
         Associate, Deassociate;
    match e
    case LocalCreateEv(node, kind, teid, body) =>
      LocalCreateFrame(s, node, kind, teid, body);
    case ReceiveEv(node, kind, sqn, sendOk) =>
      ReceiveFrame(s, node, kind, sqn, now, sendOk);
    case UpdateTxEv(i, kind, teid, body) =>
      UpdateTxIdentity(s.pool[i], kind, teid, body);
    case CommitEv(i, sendOk) =>
      CommitIdentity(s.pool[i], now, sendOk);
      VerdictFrame(s, i, Commit(s.pool[i], now, sendOk));
    case TimeoutEv(i, timer, sendOk) =>
      TimeoutIdentity(s.pool[i], timer, now, sendOk);
      VerdictFrame(s, i, Timeout(s.pool[i], timer, now, sendOk));
    case AssociateEv(i, j) => AssociateFrame(s, i, j);
    case DeassociateEv(i, j) => AssociateFrame(s, i, j);
    case DropAllEv(node) => DropAllFrame(s, node);
  }

  lemma AssociateFrame(s: Layer, i: Index, j: Index)
    requires i in s.pool && j in s.pool
    ensures SamePeer(s, Associate(s, i, j), 0) && SamePeer(s, Deassociate(s, i, j), 0)
  {
  }

  lemma UpdateTxIdentity(x: Xact, kind: Octet, teid: bv32, body: seq<Octet>)
    ensures XI.SameIdentity(x, UpdateTx(x, kind, teid, body).1)
  {
  }

  lemma CommitIdentity(x: Xact, now: nat, sendOk: bool)
    requires 1 <= x.step <= 3
    ensures var v := Commit(x, now, sendOk); v.Keep? ==> XI.SameIdentity(x, v.xact)
  {
  }

  lemma TimeoutIdentity(x: Xact, timer: TimerEvent, now: nat, sendOk: bool)
    requires 1 <= x.step <= 3
    ensures var v := Timeout(x, timer, now, sendOk); v.Keep? ==> XI.SameIdentity(x, v.xact)
  {
  }

  lemma LocalCreateFrame(s: Layer, node: Node, kind: Octet, teid: bv32, body: seq<Octet>)
    requires XI.PoolOk(s)
    ensures var t := LocalCreate(s, node, kind, teid, body).layer;
            SamePeer(s, t, if s.free != [] then s.free[0] else 0)
            && (s.free != [] ==> s.free[0] !in s.pool && s.free[0] in t.pool && t.pool[s.free[0]].gnode == node)
  {
    if s.free != [] {
      assert s.free[0] in s.free;
    }
  }

  lemma DropAllFrame(s: Layer, node: Node)
    requires XI.Inv(s) && node != PEER
    ensures SamePeer(s, DropAll(s, node), 0)
  {
    hide XI.XactOk, XI.BitOk, XI.AssocOk, XI.FirstOk, XI.IdsOk, Drop;
    var t := DropEach(s, ListOf(s, ListKey(node, Local)));
    DropEachFrame(s, ListOf(s, ListKey(node, Local)));
    XI.DropEachInv(s, ListOf(s, ListKey(node, Local)));
    DropEachFrame(t, ListOf(t, ListKey(node, Remote)));
  }

  // ---------------------------------------------------------------- records

  ghost predicate Grows(h: Hist, g: Hist) {
    && h.requests <= g.requests && h.deliveries <= g.deliveries
    && h.replies <= g.replies && h.acceptances <= g.acceptances
  }

  /** The last moment at which a copy of a request can arrive. */
  function LastArrival(link: Link, r: Request): nat {
    r.time + 2 * (RESPONSE_DURATION + link.late) + link.delay + link.spread
  }

  /** The request a delivery delivered, and the one a reply replies to. */
  function DeliveredRequest(h: Hist, k: nat): Request
    requires k < |h.deliveries| && h.deliveries[k].request < |h.requests|
  {
    h.requests[h.deliveries[k].request]
  }

  ghost predicate RequestOk(h: Hist, now: nat, n: nat)
    requires n < |h.requests|
  {
    var r := h.requests[n];
    r.time <= now && r.pkt.sqn == XidToSqn(r.xid) && r.xid <= MAX_XACT_ID && StageOf(r.pkt.kind, r.xid) == Initial
  }

  ghost predicate DeliveryOk(link: Link, h: Hist, now: nat, k: nat)
    requires k < |h.deliveries|
  {
    var d := h.deliveries[k];
    && d.request < |h.requests|
    && var r := h.requests[d.request];
       r.side == Other(d.side) && r.time + link.delay <= d.time <= LastArrival(link, r) && d.time <= now
  }

  ghost predicate ReplyOk(link: Link, h: Hist, now: nat, m: nat)
    requires m < |h.replies|
  {
    var p := h.replies[m];
    && p.delivery < |h.deliveries| && h.deliveries[p.delivery].request < |h.requests|
    && h.deliveries[p.delivery].side == p.side && h.deliveries[p.delivery].time <= p.time <= now
    && var xid := DeliveredRequest(h, p.delivery).xid;
       p.pkt.sqn == XidToSqn(xid) && StageOf(p.pkt.kind, xid) == Final
  }

  /** An accepted answer was built by the peer for a delivered request with the same identifier. */
  ghost predicate AcceptanceOk(h: Hist, now: nat, a: nat)
    requires a < |h.acceptances|
  {
    var c := h.acceptances[a];
    && c.request < |h.requests| && h.requests[c.request].side == c.side && !Bit23(h.requests[c.request].xid)
    && c.reply < |h.replies| && h.replies[c.reply].side == Other(c.side)
    && h.replies[c.reply].delivery < |h.deliveries|
    && h.deliveries[h.replies[c.reply].delivery].request < |h.requests|
    && DeliveredRequest(h, h.replies[c.reply].delivery).xid == h.requests[c.request].xid
    && h.requests[c.request].time <= c.time <= now
  }

  ghost predicate RecordsOk(link: Link, h: Hist, now: nat) {
    && (forall n | 0 <= n < |h.requests| :: RequestOk(h, now, n))
    && (forall k | 0 <= k < |h.deliveries| :: DeliveryOk(link, h, now, k))
    && (forall m | 0 <= m < |h.replies| :: ReplyOk(link, h, now, m))
    && (forall a | 0 <= a < |h.acceptances| :: AcceptanceOk(h, now, a))
    && (forall a, b | 0 <= a < b < |h.acceptances| :: h.acceptances[a].request != h.acceptances[b].request)
  }

  /** Deliveries of one identifier at one endpoint lie more than the holding time apart. */
  ghost predicate Apart(h: Hist) {
    forall i, j | 0 <= i < j < |h.deliveries| && ApartApplies(h, i, j) ::
      h.deliveries[j].time > h.deliveries[i].time + HOLDING_DURATION
  }

  predicate ApartApplies(h: Hist, i: nat, j: nat)
    requires i < |h.deliveries| && j < |h.deliveries|
  {
    && h.deliveries[i].side == h.deliveries[j].side
    && h.deliveries[i].request < |h.requests| && h.deliveries[j].request < |h.requests|
    && DeliveredRequest(h, i).xid == DeliveredRequest(h, j).xid && !Bit23(DeliveredRequest(h, i).xid)
  }

  ghost predicate FlightOk(h: Hist, link: Link, now: nat, f: Flight) {
    && f.sent <= now
    && match f.source
       case FromRequest(n) =>
         && n < |h.requests| && h.requests[n].side == f.side && f.pkt == h.requests[n].pkt
         && h.requests[n].time <= f.sent <= h.requests[n].time + 2 * (RESPONSE_DURATION + link.late)
       case FromReply(m) =>
         m < |h.replies| && h.replies[m].side == f.side && f.pkt == h.replies[m].pkt
  }

  // ---------------------------------------------------------------- one endpoint

  /** When a local transaction with this many tries left must have had its timer expire, counted from
      its request. */
  function Deadline(link: Link, rcount: nat): nat {
    if rcount >= 3 then RESPONSE_DURATION
    else if rcount == 2 then 2 * RESPONSE_DURATION + link.late
    else 3 * RESPONSE_DURATION + 2 * link.late
  }

  ghost predicate LocalOk(link: Link, h: Hist, side: Side, i: Index, x: Xact, n: nat) {
    && n < |h.requests|
    && var r := h.requests[n];
       && r.side == side && r.entry == i && r.xid == x.xid && x.hist[0].pkbuf == Some(r.pkt)
       && (x.step == 1 ==>
             && x.tmResponse.Running? && x.tmResponse.expire <= r.time + Deadline(link, x.responseRcount)
             && forall a | 0 <= a < |h.acceptances| :: h.acceptances[a].request != n)
  }

  ghost predicate RemoteOk(h: Hist, side: Side, i: Index, x: Xact, k: nat, m: nat) {
    && k < |h.deliveries| && h.deliveries[k].side == side && h.deliveries[k].entry == i
    && h.deliveries[k].request < |h.requests| && DeliveredRequest(h, k).xid == x.xid
    && x.hist[0].kind == DeliveredRequest(h, k).pkt.kind
    && (!Bit23(x.xid) ==> x.tmHolding.Running?)
    && (x.step >= 2 ==>
          && m < |h.replies| && h.replies[m].side == side && h.replies[m].delivery == k
          && x.hist[1].pkbuf == Some(h.replies[m].pkt) && StageOf(x.hist[1].kind, x.xid) == Final)
  }

  ghost predicate TransactionOk(link: Link, h: Hist, side: Side, e: End, i: Index)
    requires i in e.layer.pool
  {
    var x := e.layer.pool[i];
    x.step >= 1 ==>
      if x.org.Local? then LocalOk(link, h, side, i, x, Get(e.birth, i))
      else RemoteOk(h, side, i, x, Get(e.cause, i), Get(e.answer, i))
  }

  ghost predicate EndOk(link: Link, h: Hist, now: nat, side: Side, e: End) {
    && XI.Inv(e.layer) && e.layer.cfg == Config(true, true)
    && forall i | Live(e.layer, i) :: TransactionOk(link, h, side, e, i) && OnTime(link, e.layer.pool[i], now)
  }

  /** Within the holding time of a delivery, the transaction that took it is still there. */
  ghost predicate Held(layer: Layer, h: Hist, now: nat, k: nat)
    requires k < |h.deliveries| && h.deliveries[k].request < |h.requests|
  {
    var d, xid := h.deliveries[k], DeliveredRequest(h, k).xid;
    !Bit23(xid) && now <= d.time + HOLDING_DURATION ==>
      && Live(layer, d.entry)
      && var x := layer.pool[d.entry];
         && x.org.Remote? && x.xid == xid && x.step >= 1
         && x.tmHolding.Running? && x.tmHolding.expire >= d.time + HOLDING_DURATION
  }

  ghost predicate HeldAll(layer: Layer, h: Hist, now: nat, side: Side) {
    forall k | 0 <= k < |h.deliveries| && h.deliveries[k].side == side ::
      h.deliveries[k].request < |h.requests| && Held(layer, h, now, k)
  }

  ghost predicate SysOk(link: Link, s: Sys) {
    && RecordsOk(link, s.hist, s.now) && Apart(s.hist)
    && (forall f | f in s.flights :: FlightOk(s.hist, link, s.now, f))
    && (forall side :: EndOk(link, s.hist, s.now, side, EndOf(s, side)))
    && (forall side :: HeldAll(EndOf(s, side).layer, s.hist, s.now, side))
  }

  // ---------------------------------------------------------------- changes at one endpoint

  ghost predicate SameTags(e: End, f: End, i: Index) {
    forall j | j != i :: Get(e.birth, j) == Get(f.birth, j) && Get(e.cause, j) == Get(f.cause, j) && Get(e.answer, j) == Get(f.answer, j)
  }

  /** The records grew; no new acceptance concerns the local transactions that still wait. */
  ghost predicate NoNewAcceptance(h: Hist, g: Hist, side: Side, i: Index) {
    forall a | |h.acceptances| <= a < |g.acceptances| ::
      var n := g.acceptances[a].request;
      n < |h.requests| && (h.requests[n].side != side || h.requests[n].entry == i)
  }

  lemma TransactionGrows(link: Link, h: Hist, g: Hist, side: Side, e: End, f: End, i: Index, j: Index)
    requires Grows(h, g) && NoNewAcceptance(h, g, side, i) && j != i
    requires j in e.layer.pool && j in f.layer.pool && Core(e.layer.pool[j]) == Core(f.layer.pool[j]) && SameTags(e, f, i)
    requires TransactionOk(link, h, side, e, j)
    ensures TransactionOk(link, g, side, f, j)
  {
    var x, y := e.layer.pool[j], f.layer.pool[j];
    CoreFields(x, y);
  }

  /** An endpoint stays well formed when only its transaction i changed, and properly. */
  lemma EndTouched(link: Link, h: Hist, g: Hist, now: nat, side: Side, e: End, f: End, i: Index)
    requires EndOk(link, h, now, side, e) && Grows(h, g) && NoNewAcceptance(h, g, side, i)
    requires XI.Inv(f.layer) && f.layer.cfg == e.layer.cfg
    requires SamePeer(e.layer, f.layer, i) && SameTags(e, f, i)
    requires Live(f.layer, i) ==> TransactionOk(link, g, side, f, i) && OnTime(link, f.layer.pool[i], now)
    ensures EndOk(link, g, now, side, f)
  {
    hide XI.Inv;
    forall j | Live(f.layer, j)
      ensures TransactionOk(link, g, side, f, j) && OnTime(link, f.layer.pool[j], now)
    {
      if j != i {
        assert Live(e.layer, j);
        TransactionGrows(link, h, g, side, e, f, i, j);
        CoreFields(e.layer.pool[j], f.layer.pool[j]);
      }
    }
  }

  /** A remote transaction whose holding time is not over stays, and its holding timer is at most
      restarted. */
  ghost predicate HoldKept(layer: Layer, next: Layer, i: Index, now: nat) {
    Live(layer, i) && layer.pool[i].org.Remote? && layer.pool[i].step >= 1 && !Bit23(layer.pool[i].xid)
    && layer.pool[i].tmHolding.Running? && now <= layer.pool[i].tmHolding.expire ==>
      && Live(next, i)
      && var x, y := layer.pool[i], next.pool[i];
         && y.org.Remote? && y.xid == x.xid && y.step >= 1 && y.tmHolding.Running?
         && (y.tmHolding.expire >= x.tmHolding.expire || y.tmHolding.expire >= now + HOLDING_DURATION)
  }

  lemma HeldTouched(layer: Layer, next: Layer, h: Hist, g: Hist, now: nat, i: Index, k: nat)
    requires k < |h.deliveries| && h.deliveries[k].request < |h.requests| && Held(layer, h, now, k)
    requires h.deliveries[k].time <= now
    requires Grows(h, g) && SamePeer(layer, next, i) && HoldKept(layer, next, i, now)
    ensures Held(next, g, now, k)
  {
    var d := h.deliveries[k];
    if d.entry != i && Live(layer, d.entry) {
      CoreFields(layer.pool[d.entry], next.pool[d.entry]);
    }
  }

  // ---------------------------------------------------------------- growing records

  /** Records already made stay in order when more are added. */
  lemma RecordsGrow(link: Link, h: Hist, g: Hist, now: nat)
    requires RecordsOk(link, h, now) && Apart(h) && Grows(h, g)
    ensures forall n | 0 <= n < |h.requests| :: RequestOk(g, now, n)
    ensures forall k | 0 <= k < |h.deliveries| :: DeliveryOk(link, g, now, k)
    ensures forall m | 0 <= m < |h.replies| :: ReplyOk(link, g, now, m)
    ensures forall a | 0 <= a < |h.acceptances| :: AcceptanceOk(g, now, a)
    ensures g.deliveries == h.deliveries ==> Apart(g)
  {
    forall n | 0 <= n < |h.requests| ensures RequestOk(g, now, n) {
      assert RequestOk(h, now, n);
    }
    forall k | 0 <= k < |h.deliveries| ensures DeliveryOk(link, g, now, k) && DeliveryOk(link, h, now, k) {
      assert DeliveryOk(link, h, now, k);
    }
    forall m | 0 <= m < |h.replies| ensures ReplyOk(link, g, now, m) {
      assert ReplyOk(link, h, now, m);
    }
    forall a | 0 <= a < |h.acceptances| ensures AcceptanceOk(g, now, a) {
      assert AcceptanceOk(h, now, a);
    }
    forall i, j | 0 <= i < j < |h.deliveries| && ApartApplies(g, i, j)
      ensures g.deliveries[j].time > g.deliveries[i].time + HOLDING_DURATION
    {
      assert DeliveryOk(link, h, now, i) && DeliveryOk(link, h, now, j);
      assert ApartApplies(h, i, j);
    }
  }

  lemma AppendRequest(link: Link, h: Hist, now: nat, r: Request)
    requires RecordsOk(link, h, now) && Apart(h)
    requires r.time <= now && r.pkt.sqn == XidToSqn(r.xid) && r.xid <= MAX_XACT_ID && StageOf(r.pkt.kind, r.xid) == Initial
    ensures var g := h.(requests := h.requests + [r]); RecordsOk(link, g, now) && Apart(g) && Grows(h, g)
  {
    hide Apart;
    RecordsGrow(link, h, h.(requests := h.requests + [r]), now);
  }

  lemma AppendDelivery(link: Link, h: Hist, now: nat, d: Delivery)
    requires RecordsOk(link, h, now) && Apart(h)
    requires d.request < |h.requests| && d.time == now
    requires var r := h.requests[d.request]; r.side == Other(d.side) && r.time + link.delay <= d.time <= LastArrival(link, r)
    requires var xid := h.requests[d.request].xid;
             !Bit23(xid) ==> forall k | 0 <= k < |h.deliveries| && h.deliveries[k].side == d.side
                                        && h.deliveries[k].request < |h.requests| && DeliveredRequest(h, k).xid == xid ::
                               d.time > h.deliveries[k].time + HOLDING_DURATION
    ensures var g := h.(deliveries := h.deliveries + [d]); RecordsOk(link, g, now) && Apart(g) && Grows(h, g)
  {
    var g := h.(deliveries := h.deliveries + [d]);
    RecordsGrow(link, h, g, now);
    forall i, j | 0 <= i < j < |g.deliveries| && ApartApplies(g, i, j)
      ensures g.deliveries[j].time > g.deliveries[i].time + HOLDING_DURATION
    {
      if j < |h.deliveries| {
        assert ApartApplies(h, i, j);
      } else {
        assert DeliveredRequest(h, i).xid == DeliveredRequest(g, i).xid;
      }
    }
  }

  lemma AppendReply(link: Link, h: Hist, now: nat, p: Reply)
    requires RecordsOk(link, h, now) && Apart(h)
    requires p.delivery < |h.deliveries| && h.deliveries[p.delivery].request < |h.requests|
    requires h.deliveries[p.delivery].side == p.side && p.time == now
    requires var xid := DeliveredRequest(h, p.delivery).xid; p.pkt.sqn == XidToSqn(xid) && StageOf(p.pkt.kind, xid) == Final
    ensures var g := h.(replies := h.replies + [p]); RecordsOk(link, g, now) && Apart(g) && Grows(h, g)
  {
    hide Apart;
    assert DeliveryOk(link, h, now, p.delivery);
    RecordsGrow(link, h, h.(replies := h.replies + [p]), now);
  }

  lemma AppendAcceptance(link: Link, h: Hist, now: nat, c: Acceptance)
    requires RecordsOk(link, h, now) && Apart(h)
    requires c.request < |h.requests| && h.requests[c.request].side == c.side && !Bit23(h.requests[c.request].xid)
    requires c.reply < |h.replies| && h.replies[c.reply].side == Other(c.side) && c.time == now
    requires h.replies[c.reply].delivery < |h.deliveries| && h.deliveries[h.replies[c.reply].delivery].request < |h.requests|
    requires DeliveredRequest(h, h.replies[c.reply].delivery).xid == h.requests[c.request].xid
    requires forall a | 0 <= a < |h.acceptances| :: h.acceptances[a].request != c.request
    ensures var g := h.(acceptances := h.acceptances + [c]); RecordsOk(link, g, now) && Apart(g) && Grows(h, g)
  {
    hide Apart;
    assert RequestOk(h, now, c.request);
    RecordsGrow(link, h, h.(acceptances := h.acceptances + [c]), now);
  }

  lemma FlightGrows(link: Link, h: Hist, g: Hist, now: nat, f: Flight)
    requires FlightOk(h, link, now, f) && Grows(h, g)
    ensures FlightOk(g, link, now, f)
  {
  }

  /** The endpoint that does not act is only affected by the new records. */
  lemma OtherEnd(link: Link, s: Sys, h: Hist, side: Side)
    requires SysOk(link, s) && Grows(s.hist, h)
    requires forall k | |s.hist.deliveries| <= k < |h.deliveries| :: h.deliveries[k].side != side
    requires NoNewAcceptance(s.hist, h, side, 0)
    ensures EndOk(link, h, s.now, side, EndOf(s, side))
    ensures HeldAll(EndOf(s, side).layer, h, s.now, side)
  {
    hide XI.Inv, Apart;
    var e := EndOf(s, side);
    assert EndOk(link, s.hist, s.now, side, e) && HeldAll(e.layer, s.hist, s.now, side);
    NoIndexZero(e.layer);
    EndTouched(link, s.hist, h, s.now, side, e, e, 0);
    forall k | 0 <= k < |h.deliveries| && h.deliveries[k].side == side
      ensures h.deliveries[k].request < |h.requests| && Held(e.layer, h, s.now, k)
    {
      assert h.deliveries[k] == s.hist.deliveries[k];
      assert DeliveryOk(link, s.hist, s.now, k);
      HeldTouched(e.layer, e.layer, s.hist, h, s.now, 0, k);
    }
  }

  /** A step at one endpoint that changes one transaction: what is left to show is about that
      transaction and the new records. */
  lemma OneSided(link: Link, s: Sys, t: Sys, side: Side, i: Index)
    requires SysOk(link, s) && t.now == s.now && EndOf(t, Other(side)) == EndOf(s, Other(side))
    requires Grows(s.hist, t.hist) && RecordsOk(link, t.hist, t.now) && Apart(t.hist)
    requires forall f | f in t.flights :: f in s.flights || FlightOk(t.hist, link, t.now, f)
    requires forall k | |s.hist.deliveries| <= k < |t.hist.deliveries| ::
               t.hist.deliveries[k].side == side && t.hist.deliveries[k].request < |t.hist.requests|
               && Held(EndOf(t, side).layer, t.hist, t.now, k)
    requires NoNewAcceptance(s.hist, t.hist, side, i) && NoNewAcceptance(s.hist, t.hist, Other(side), 0)
    requires XI.Inv(EndOf(t, side).layer) && EndOf(t, side).layer.cfg == EndOf(s, side).layer.cfg
    requires SamePeer(EndOf(s, side).layer, EndOf(t, side).layer, i) && SameTags(EndOf(s, side), EndOf(t, side), i)
    requires HoldKept(EndOf(s, side).layer, EndOf(t, side).layer, i, s.now)
    requires Live(EndOf(t, side).layer, i) ==>
               TransactionOk(link, t.hist, side, EndOf(t, side), i) && OnTime(link, EndOf(t, side).layer.pool[i], t.now)
    ensures SysOk(link, t)
  {
    hide XI.Inv, Apart;
    OtherEnd(link, s, t.hist, Other(side));
    var e, f := EndOf(s, side), EndOf(t, side);
    assert EndOk(link, s.hist, s.now, side, e) && HeldAll(e.layer, s.hist, s.now, side);
    EndTouched(link, s.hist, t.hist, s.now, side, e, f, i);
    assert HeldAll(f.layer, t.hist, t.now, side) by {
      forall k | 0 <= k < |t.hist.deliveries| && t.hist.deliveries[k].side == side
        ensures t.hist.deliveries[k].request < |t.hist.requests| && Held(f.layer, t.hist, t.now, k)
      {
        if k < |s.hist.deliveries| {
          assert t.hist.deliveries[k] == s.hist.deliveries[k];
          assert DeliveryOk(link, s.hist, s.now, k);
          HeldTouched(e.layer, f.layer, s.hist, t.hist, s.now, i, k);
        }
      }
    }
    forall fl | fl in t.flights
      ensures FlightOk(t.hist, link, t.now, fl)
    {
      if fl in s.flights {
        FlightGrows(link, s.hist, t.hist, s.now, fl);
      }
    }
    forall any: Side
      ensures EndOk(link, t.hist, t.now, any, EndOf(t, any)) && HeldAll(EndOf(t, any).layer, t.hist, t.now, any)
    {
      assert any == side || any == Other(side);
    }
  }

  lemma NoIndexZero(s: Layer)
    requires XI.Inv(s)
    ensures 0 !in s.pool
  {
  }
}

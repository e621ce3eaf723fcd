/** lib/gtp/gtp_xact.c as it is written: transaction records that are updated in place, a pool of them
    and the lists of each peer.  Every method is proved against the step functions of XactModel. */
module XactLayer {
  import opened Options
  import opened GtpMessage
  import M = XactModel
  import I = XactInvariants

  /** One record of the pool (gtp_xact_t). */
  class GtpXact {
    const index: nat
    var org: M.Org
    var xid: bv32
    var gnode: M.Node
    var step: nat
    var hist: M.History
    var tmResponse: M.Timer
    var responseRcount: Octet
    var tmHolding: M.Timer
    var holdingRcount: Octet
    var assoc: GtpXact?

    constructor (index: nat)
      ensures this.index == index && assoc == null
    {
      this.index := index;
      org, xid, gnode, step, hist := M.Local, 0, 0, 0, [M.Slot(0, None), M.Slot(0, None), M.Slot(0, None)];
      tmResponse, responseRcount, tmHolding, holdingRcount, assoc := M.Absent, 0, M.Absent, 0, null;
    }

    ghost function Partner(): Option<M.Index>
      reads this
    {
      if assoc == null then None else Some(assoc.index)
    }

    ghost function View(): M.Xact
      reads this
    {
      M.Xact(org, xid, gnode, step, hist, tmResponse, responseRcount, tmHolding, holdingRcount, Partner())
    }

    method SetAssoc(partner: GtpXact?)
      modifies this
      ensures assoc == partner
      ensures View() == old(View()).(assoc := if partner == null then None else Some(partner.index))
    {
      assoc := partner;
    }

    /** The part of both create functions that fills in a zeroed record. */
    method Init(cfg: M.Config, org: M.Org, xid: bv32, node: M.Node)
      modifies this
      ensures View() == M.NewXact(cfg, org, xid, node) && assoc == null
    {
      step, hist, assoc := 0, [M.Slot(0, None), M.Slot(0, None), M.Slot(0, None)], null;
      this.org, this.xid, gnode := org, xid, node;
      tmResponse, responseRcount, tmHolding, holdingRcount := M.Absent, 0, M.Absent, 0;
      if cfg.response {
        tmResponse, responseRcount := M.Idle, M.RESPONSE_RETRY_COUNT;
      }
      if cfg.holding {
        tmHolding, holdingRcount := M.Idle, M.HOLDING_RETRY_COUNT;
      }
    }

    method StartResponse(now: nat)
      modifies this`tmResponse
      ensures tmResponse == M.Start(old(tmResponse), now, M.RESPONSE_DURATION)
    {
      if !tmResponse.Absent? {
        tmResponse := M.Running(now + M.RESPONSE_DURATION);
      }
    }

    method StartHolding(now: nat)
      modifies this`tmHolding
      ensures tmHolding == M.Start(old(tmHolding), now, M.HOLDING_DURATION)
    {
      if !tmHolding.Absent? {
        tmHolding := M.Running(now + M.HOLDING_DURATION);
      }
    }

    method UpdateTx(kind: Octet, teid: bv32, body: seq<Octet>) returns (status: M.Status)
      modifies this
      ensures (status, View()) == M.UpdateTx(old(View()), kind, teid, body)
      ensures assoc == old(assoc)
    {
      var stage := StageOf(kind, xid);
      if org.Local? {
        match stage
        case Initial => if step != 0 { return M.Error; }
        case Final => if step != 2 { return M.Error; }
        case _ => return M.Error;
      } else {
        match stage
        case Intermediate => if step != 1 { return M.Error; }
        case Final => if step != 1 { return M.Error; }
        case _ => return M.Error;
      }
      var pkbuf := M.BuildPacket(xid, kind, teid, body);
      hist := hist[step := M.Slot(kind, Some(pkbuf))];
      step := step + 1;
      return M.Ok;
    }

    /** The branch of gtp_xact_update_rx for a repeated request. */
    method Repeat(answer: nat, now: nat, sendOk: bool) returns (status: M.Status, sent: Option<M.Packet>)
      requires answer < 3
      modifies this`tmHolding
      ensures M.RxResult(status, View(), sent) == M.Repeat(old(View()), answer, now, sendOk)
    {
      var pkbuf := hist[answer].pkbuf;
      if pkbuf.Some? {
        StartHolding(now);
        if !sendOk {
          return M.Error, None;
        }
        return M.Again, pkbuf;
      }
      return M.Again, None;
    }

    method UpdateRx(kind: Octet, now: nat, sendOk: bool) returns (status: M.Status, sent: Option<M.Packet>)
      modifies this
      ensures M.RxResult(status, View(), sent) == M.UpdateRx(old(View()), kind, now, sendOk)
      ensures assoc == old(assoc)
    {
      var stage := StageOf(kind, xid);
      if org.Local? {
        match stage
        case Intermediate =>
          if hist[1].kind == kind {
            if step != 2 && step != 3 {
              return M.Error, None;
            }
            status, sent := Repeat(2, now, sendOk);
            return;
          }
          if step != 1 {
            return M.Error, None;
          }
          StartHolding(now);
        case Final =>
          if step != 1 {
            return M.Error, None;
          }
        case _ =>
          return M.Error, None;
      } else {
        match stage
        case Initial =>
          if hist[0].kind == kind {
            if step != 1 && step != 2 {
              return M.Error, None;
            }
            status, sent := Repeat(1, now, sendOk);
            return;
          }
          if step != 0 {
            return M.Error, None;
          }
          StartHolding(now);
        case Final =>
          if step != 2 {
            return M.Error, None;
          }
        case _ =>
          return M.Error, None;
      }
      if !tmResponse.Absent? {
        tmResponse := M.Idle;
      }
      hist := hist[step := M.Slot(kind, hist[step].pkbuf)];
      step := step + 1;
      return M.Ok, None;
    }

    /** gtp_xact_commit up to the point where it deletes the transaction, which `done` reports. */
    method Commit(now: nat, sendOk: bool) returns (done: bool, status: M.Status, sent: Option<M.Packet>)
      requires 1 <= step <= 3
      modifies this`tmResponse
      ensures var v := M.Commit(old(View()), now, sendOk);
              if done then v == M.Delete(status) && sent.None? && View() == old(View())
              else v == M.Keep(status, View(), sent)
    {
      var kind := hist[step - 1].kind;
      var stage := StageOf(kind, xid);
      if org.Local? {
        match stage
        case Initial =>
          if step != 1 {
            return false, M.Error, None;
          }
          StartResponse(now);
        case Final =>
          if step != 2 && step != 3 {
            return false, M.Error, None;
          }
          if step == 2 {
            return true, M.Ok, None;
          }
        case _ =>
          return false, M.Error, None;
      } else {
        match stage
        case Intermediate =>
          if step != 2 {
            return false, M.Error, None;
          }
          StartResponse(now);
        case Final =>
          if step != 2 && step != 3 {
            return false, M.Error, None;
          }
          if step == 3 {
            return true, M.Ok, None;
          }
        case _ =>
          return false, M.Error, None;
      }
      var pkbuf := hist[step - 1].pkbuf;
      if pkbuf.None? || !sendOk {
        return false, M.Error, None;
      }
      return false, M.Ok, pkbuf;
    }

    /** gtp_xact_timeout up to the point where it deletes the transaction, which `done` reports. */
    method Timeout(event: M.TimerEvent, now: nat, sendOk: bool)
      returns (done: bool, status: M.Status, sent: Option<M.Packet>)
      requires 1 <= step <= 3
      modifies this
      ensures var v := M.Timeout(old(View()), event, now, sendOk);
              if done then v == M.Delete(status) && sent.None? else v == M.Keep(status, View(), sent)
      ensures assoc == old(assoc) && View() == old(View()).(tmResponse := tmResponse, responseRcount := responseRcount,
                                                            tmHolding := tmHolding, holdingRcount := holdingRcount)
    {
      if event.ResponseTimeout? {
        responseRcount := M.Decrement(responseRcount);
        if !tmResponse.Absent? {
          tmResponse := M.Idle;
        }
        if responseRcount > 0 {
          StartResponse(now);
          var pkbuf := hist[step - 1].pkbuf;
          if pkbuf.None? {
            return false, M.Error, None;
          }
          if !sendOk {
            return true, M.Error, None;
          }
          return false, M.Ok, pkbuf;
        }
        return true, M.Ok, None;
      } else {
        holdingRcount := M.Decrement(holdingRcount);
        if !tmHolding.Absent? {
          tmHolding := M.Idle;
        }
        if holdingRcount > 0 {
          StartHolding(now);
          return false, M.Ok, None;
        }
        return true, M.Ok, None;
      }
    }
  }

  lemma {:induction false} UnlinkAt(l: seq<M.Index>, i: M.Index, k: nat)
    requires k < |l| && l[k] == i && i !in l[..k]
    ensures M.Unlink(l, i) == l[..k] + l[k + 1..]
  {
    if k > 0 {
      assert l[0] in l[..k] && l[1..][..k - 1] == l[..k][1..];
      UnlinkAt(l[1..], i, k - 1);
      assert [l[0]] + (l[1..][..k - 1] + l[1..][k..]) == l[..k] + l[k + 1..];
    }
  }

  /** One round of the search loop. */
  lemma FirstWithAt(pool: map<M.Index, M.Xact>, l: seq<M.Index>, k: nat, xid: bv32)
    requires k < |l|
    ensures M.FirstWith(pool, l[k..], xid)
         == if l[k] in pool && pool[l[k]].xid == xid then Some(l[k]) else M.FirstWith(pool, l[k + 1..], xid)
  {
    assert l[k..][0] == l[k] && l[k..][1..] == l[k + 1..];
  }

  lemma DropEachAt(s: M.Layer, l: seq<M.Index>, k: nat)
    requires k < |l| && l[k] in s.pool
    ensures M.DropEach(s, l[k..]) == M.DropEach(M.Drop(s, l[k]), l[k + 1..])
    ensures M.Drop(s, l[k]).pool.Keys == s.pool.Keys - {l[k]}
  {
    assert l[k..][0] == l[k] && l[k..][1..] == l[k + 1..];
  }

  lemma DropEachEmpty(s: M.Layer)
    ensures M.DropEach(s, []) == s
  {
  }

  /** Deletion spelled out: the partner is freed, the index returns to the end of the free queue. */
  lemma DropCases(s: M.Layer, i: M.Index)
    requires i in s.pool && (s.pool[i].assoc.Some? ==>
               s.pool[i].assoc.value in s.pool && s.pool[s.pool[i].assoc.value].assoc.Some?)
    ensures var t, x := M.Drop(s, i), s.pool[i];
            && t.cfg == s.cfg && t.xactId == s.xactId && t.free == s.free + [i]
            && t.lists == s.lists[M.KeyOf(x) := M.Unlink(M.ListOf(s, M.KeyOf(x)), i)]
            && t.pool == (if x.assoc.None? then s.pool
                          else var j := x.assoc.value; s.pool[j := s.pool[j].(assoc := None)]) - {i}
  {
    hide M.Unlink;
    var x := s.pool[i];
    if x.assoc.Some? {
      DeassociatePool(s, i, x.assoc.value);
      hide M.Deassociate;
    }
  }

  lemma DeassociatePool(s: M.Layer, i: M.Index, j: M.Index)
    requires i in s.pool && j in s.pool && s.pool[i].assoc.Some? && s.pool[j].assoc.Some?
    ensures var t := M.Deassociate(s, i, j);
            && t == s.(pool := t.pool)
            && t.pool - {i} == s.pool[j := s.pool[j].(assoc := None)] - {i}
  {
  }

  lemma Erased(p: map<M.Index, M.Xact>, i: M.Index, a: M.Xact, b: M.Xact, j: M.Index, c: M.Xact)
    ensures p[i := a][i := b][j := c] - {i} == p[j := c] - {i}
    ensures p[i := a] - {i} == p - {i}
    ensures i == j ==> p[j := c] - {i} == p - {i}
  {
  }

  // What the methods need to know of the invariant.

  lemma FirstFree(s: M.Layer)
    requires I.Inv(s) && s.free != []
    ensures s.free[0] !in s.pool && 1 <= s.free[0] <= M.POOL_SIZE && s.xactId <= MAX_XACT_ID
  {
    assert s.free[0] in s.free;
  }

  lemma Listed(s: M.Layer, key: M.ListKey)
    requires I.Inv(s)
    ensures forall i | i in M.ListOf(s, key) :: i in s.pool
    ensures I.NoDup(M.ListOf(s, key))
  {
  }

  lemma InItsList(s: M.Layer, i: M.Index)
    requires I.Inv(s) && i in s.pool
    ensures i in M.ListOf(s, M.KeyOf(s.pool[i]))
    ensures s.pool[i].assoc.Some? ==>
              var j := s.pool[i].assoc.value; j in s.pool && s.pool[j].assoc == Some(i)
  {
  }

  /** The transaction pool with the lists of all peers. */
  class GtpXactLayer {
    const cfg: M.Config
    const nodes: seq<GtpXact>
    ghost const repr: set<GtpXact>
    var xactId: bv32
    var free: seq<M.Index>
    var live: set<M.Index>
    var lists: map<M.ListKey, seq<M.Index>>

    ghost predicate Shape()
      reads this, repr
    {
      && |nodes| == M.POOL_SIZE
      && (forall k | 0 <= k < |nodes| :: nodes[k] in repr && nodes[k].index == k + 1)
      && (forall i | i in live :: 1 <= i <= M.POOL_SIZE)
      && (forall k | 0 <= k < |nodes| :: PartnerOk(nodes[k]))
    }

    ghost function Pool(): map<M.Index, M.Xact>
      requires Shape()
      reads this, repr
    {
      map i | i in live :: nodes[i - 1].View()
    }

    ghost function At(i: M.Index): M.Xact
      requires Shape() && i in live
      reads this, repr
    {
      nodes[i - 1].View()
    }

    ghost function View(): M.Layer
      requires Shape()
      reads this, repr
    {
      M.Layer(cfg, xactId, free, Pool(), lists)
    }

    ghost predicate Valid()
      reads this, repr
    {
      Shape() && I.Inv(View())
    }

    /** A proper partner: none, or a record of this pool. */
    ghost predicate PartnerOk(x: GtpXact)
      reads this, x
    {
      x.assoc != null ==>
        1 <= x.assoc.index <= |nodes| && nodes[x.assoc.index - 1] == x.assoc
    }

    /** The effect of changing one record, or of taking one into use. */
    twostate lemma OneChanged(i: M.Index)
      requires old(Shape()) && 1 <= i <= M.POOL_SIZE && live == old(live) + {i}
      requires forall x | x in repr && x != nodes[i - 1] :: unchanged(x)
      requires PartnerOk(nodes[i - 1])
      ensures Shape() && Pool() == old(Pool())[i := nodes[i - 1].View()]
    {
      ShapeKept(i);
      forall k | k in live && k != i
        ensures nodes[k - 1].View() == old(nodes[k - 1].View())
      {
        assert nodes[k - 1].index == k && nodes[i - 1].index == i;
        assert unchanged(nodes[k - 1]);
      }
    }

    twostate lemma ShapeKept(i: M.Index)
      requires old(Shape()) && 1 <= i <= M.POOL_SIZE && live == old(live) + {i}
      requires forall x | x in repr && x != nodes[i - 1] :: unchanged(x)
      requires PartnerOk(nodes[i - 1])
      ensures Shape()
    {
      forall k | 0 <= k < |nodes|
        ensures PartnerOk(nodes[k])
      {
        if nodes[k] != nodes[i - 1] {
          assert unchanged(nodes[k]);
          assert old(PartnerOk(nodes[k]));
        }
      }
    }

    /** gtp_xact_init. */
    constructor (cfg: M.Config)
      ensures Valid() && View() == M.InitialLayer(cfg) && fresh(repr)
    {
      hide I.Inv;
      this.cfg := cfg;
      var pool: seq<GtpXact> := [];
      for k := 0 to M.POOL_SIZE
        invariant |pool| == k && fresh(pool)
        invariant forall j | 0 <= j < k :: pool[j].index == j + 1 && pool[j].assoc == null
      {
        var x := new GtpXact(k + 1);
        pool := pool + [x];
      }
      nodes := pool;
      repr := set x | x in pool;
      xactId, free, live, lists := 0, seq(M.POOL_SIZE, i => i + 1), {}, map[];
      new;
      I.InitialInv(cfg);
      assert View().free == M.InitialLayer(cfg).free;
    }

    /** gtp_xact_find_by_xid. */
    method FindByXid(node: M.Node, kind: Octet, xid: bv32) returns (found: Option<M.Index>)
      requires Valid()
      ensures found == M.FindByXid(View(), node, kind, xid)
    {
      hide I.Inv, M.FirstWith;
      var list: seq<M.Index>;
      match StageOf(kind, xid) {
        case Initial => list := ListOf(M.ListKey(node, M.Remote));
        case Intermediate => list := ListOf(M.ListKey(node, M.Local));
        case Final => list := ListOf(M.ListKey(node, if Bit23(xid) then M.Remote else M.Local));
        case Unknown => return None;
      }
      found := Search(list, xid);
    }

    /** The first transaction of a list with the given identifier. */
    method Search(list: seq<M.Index>, xid: bv32) returns (found: Option<M.Index>)
      requires Shape() && forall i | i in list :: i in live
      ensures found == M.FirstWith(Pool(), list, xid)
    {
      hide M.FirstWith;
      ghost var pool := Pool();
      var k := 0;
      assert list[0..] == list;
      while k < |list|
        invariant 0 <= k <= |list|
        invariant M.FirstWith(pool, list, xid) == M.FirstWith(pool, list[k..], xid)
      {
        FirstWithAt(pool, list, k, xid);
        assert list[k] in list;
        if nodes[list[k] - 1].xid == xid {
          return Some(list[k]);
        }
        k := k + 1;
      }
      return None;
    }

    method ListOf(key: M.ListKey) returns (list: seq<M.Index>)
      requires Valid()
      ensures list == M.ListOf(View(), key)
      ensures forall i | i in list :: i in live
    {
      hide I.Inv;
      list := if key in lists then lists[key] else [];
      Listed(View(), key);
      assert forall i | i in list :: i in View().pool;
    }

    /** index_alloc, initialisation and list_append. */
    method Create(org: M.Org, xid: bv32, node: M.Node) returns (i: M.Index)
      requires Valid() && free != []
      requires xid < 0x100_0000 && (org.Local? ==> MIN_XACT_ID <= xid <= MAX_XACT_ID)
      modifies this, repr
      ensures Valid() && View() == M.Create(old(View()), org, xid, node) && i == old(free[0]) && i in live
    {
      hide I.Inv;
      I.CreateInv(View(), org, xid, node);
      FirstFree(View());
      i := free[0];
      free := free[1..];
      live := live + {i};
      nodes[i - 1].Init(cfg, org, xid, node);
      var key := M.ListKey(node, org);
      lists := lists[key := (if key in lists then lists[key] else []) + [i]];
      OneChanged(i);
    }

    method SetCounter(id: bv32)
      requires Valid() && MIN_XACT_ID <= id <= MAX_XACT_ID
      modifies this
      ensures Valid() && View() == old(View()).(xactId := id) && live == old(live)
    {
      hide I.Inv;
      I.CounterInv(View(), id);
      xactId := id;
      assert Pool() == old(Pool());
    }

    /** gtp_xact_local_create. */
    method LocalCreate(node: M.Node, kind: Octet, teid: bv32, body: seq<Octet>) returns (xact: Option<M.Index>)
      requires Valid()
      modifies this, repr
      ensures Valid() && M.CreateResult(View(), xact) == M.LocalCreate(old(View()), node, kind, teid, body)
    {
      hide I.Inv, M.UpdateTx, M.Create;
      ghost var before := View();
      if free == [] {
        return None;
      }
      FirstFree(before);
      var id := NextId(xactId);
      hide NextId;
      var i := Create(M.Local, id, node);
      SetCounter(id);
      var status := UpdateTx(i, kind, teid, body);
      return if status == M.Ok then Some(i) else None;
    }

    /** gtp_xact_receive: on success the transaction, and the packet sent again if there was one. */
    method Receive(node: M.Node, kind: Octet, sqn: bv32, now: nat, sendOk: bool)
      returns (status: M.Status, xact: Option<M.Index>, sent: Option<M.Packet>)
      requires Valid()
      modifies this, repr
      ensures Valid()
      ensures M.ReceiveResult(View(), status, xact, sent) == M.Receive(old(View()), node, kind, sqn, now, sendOk)
    {
      hide I.Inv, M.UpdateRx, M.Create, M.FindByXid, SqnToXid;
      I.ReceiveInv(View(), node, kind, sqn, now, sendOk);
      var xid := SqnToXid(sqn);
      SqnRoundTrip(sqn);
      var found := FindByXid(node, kind, xid);
      var i;
      if found.Some? {
        i := found.value;
      } else {
        if free == [] {
          return M.Error, None, None;
        }
        i := Create(M.Remote, xid, node);
      }
      status, sent := Examine(i, kind, now, sendOk);
      xact := if status == M.Ok then Some(i) else None;
    }

    /** gtp_xact_update_rx on a transaction of the pool. */
    method Examine(i: M.Index, kind: Octet, now: nat, sendOk: bool) returns (status: M.Status, sent: Option<M.Packet>)
      requires Shape() && i in live
      modifies repr
      ensures Shape() && live == old(live)
      ensures M.RxResult(status, At(i), sent) == M.UpdateRx(old(At(i)), kind, now, sendOk)
      ensures View() == M.Put(old(View()), i, At(i))
    {
      hide M.UpdateRx;
      status, sent := nodes[i - 1].UpdateRx(kind, now, sendOk);
      OneChanged(i);
    }

    /** gtp_xact_update_tx on a transaction of the pool. */
    method UpdateTx(i: M.Index, kind: Octet, teid: bv32, body: seq<Octet>) returns (status: M.Status)
      requires Valid() && i in live
      modifies repr
      ensures Valid() && status == M.UpdateTx(old(At(i)), kind, teid, body).0
      ensures View() == M.Put(old(View()), i, M.UpdateTx(old(At(i)), kind, teid, body).1)
    {
      hide I.Inv, M.UpdateTx;
      I.UpdateTxInv(View(), i, kind, teid, body);
      status := nodes[i - 1].UpdateTx(kind, teid, body);
      OneChanged(i);
    }

    /** gtp_xact_commit. */
    method Commit(i: M.Index, now: nat, sendOk: bool) returns (status: M.Status, sent: Option<M.Packet>)
      requires Valid() && i in live && 1 <= At(i).step <= 3
      modifies this, repr
      ensures Valid()
      ensures var v := M.Commit(old(At(i)), now, sendOk);
              View() == M.Apply(old(View()), i, v) && status == v.status && sent == if v.Keep? then v.sent else None
    {
      hide I.Inv, M.Commit;
      ghost var before := View();
      I.CommitInv(before, i, now, sendOk);
      var done;
      done, status, sent := nodes[i - 1].Commit(now, sendOk);
      OneChanged(i);
      if done {
        Discard(i, before);
      }
    }

    /** gtp_xact_timeout for a live transaction, on time or overtaken. */
    method Timeout(i: M.Index, event: M.TimerEvent, now: nat, sendOk: bool)
      returns (status: M.Status, sent: Option<M.Packet>)
      requires Valid() && i in live && 1 <= At(i).step <= 3 && I.Configured(cfg, event)
      modifies this, repr
      ensures Shape() && (Valid() <==> I.TimeoutSafe(old(At(i)), event, sendOk))
      ensures var v := M.Timeout(old(At(i)), event, now, sendOk);
              View() == M.Apply(old(View()), i, v) && status == v.status && sent == if v.Keep? then v.sent else None
    {
      hide I.Inv, M.Timeout;
      ghost var before := View();
      I.TimeoutExact(before, i, event, now, sendOk);
      var done;
      done, status, sent := nodes[i - 1].Timeout(event, now, sendOk);
      OneChanged(i);
      if done {
        Discard(i, before);
      }
    }

    method SetPartner(i: M.Index, partner: GtpXact?)
      requires Shape() && i in live
      requires partner != null ==> 1 <= partner.index <= |nodes| && nodes[partner.index - 1] == partner
      modifies repr
      ensures Shape() && live == old(live)
      ensures View() == old(View()).(pool := M.SetAssoc(old(Pool()), i, if partner == null then None else Some(partner.index)))
    {
      nodes[i - 1].SetAssoc(partner);
      OneChanged(i);
    }

    method Associate(i: M.Index, j: M.Index)
      requires Valid() && i in live && j in live
      modifies repr
      ensures Valid() && View() == M.Associate(old(View()), i, j)
    {
      hide I.Inv;
      I.AssociateInv(View(), i, j);
      var a, b := nodes[i - 1], nodes[j - 1];
      if a.assoc != null || b.assoc != null {
        return;
      }
      hide M.SetAssoc;
      SetPartner(i, b);
      SetPartner(j, a);
    }

    method Deassociate(i: M.Index, j: M.Index)
      requires Valid() && i in live && j in live
      modifies repr
      ensures Shape() && View() == M.Deassociate(old(View()), i, j)
      ensures Valid() <==> I.Separable(old(View()), i, j)
    {
      hide I.Inv;
      I.DeassociateInv(View(), i, j);
      var a, b := nodes[i - 1], nodes[j - 1];
      if a.assoc == null || b.assoc == null {
        return;
      }
      hide M.SetAssoc;
      SetPartner(i, null);
      SetPartner(j, null);
    }

    /** gtp_xact_delete. */
    method Delete(i: M.Index)
      requires Valid() && i in live
      modifies this, repr
      ensures Valid() && View() == M.Drop(old(View()), i)
    {
      hide I.Inv;
      Discard(i, View());
    }

    /** Deletes a transaction whose timers and counters, which no longer matter, may have moved on. */
    method Discard(i: M.Index, ghost before: M.Layer)
      requires Shape() && i in live && I.Inv(before) && i in before.pool
      requires View() == before.(pool := before.pool[i := At(i)])
      requires M.KeyOf(At(i)) == M.KeyOf(before.pool[i]) && At(i).assoc == before.pool[i].assoc
      modifies this, repr
      ensures Valid() && View() == M.Drop(before, i)
    {
      hide I.Inv, M.Drop, M.Unlink, Shape, Pool, At;
      I.DropInv(before, i);
      InItsList(before, i);
      DropCases(before, i);
      Separate(i, before);
      Unlist(i);
      Release(i);
    }

    method Separate(i: M.Index, ghost before: M.Layer)
      requires Shape() && i in live && I.Inv(before) && i in before.pool
      requires View() == before.(pool := before.pool[i := At(i)])
      requires M.KeyOf(At(i)) == M.KeyOf(before.pool[i]) && At(i).assoc == before.pool[i].assoc
      modifies repr
      ensures Shape() && Pool() - {i} == M.Drop(before, i).pool && M.KeyOf(At(i)) == M.KeyOf(before.pool[i])
    {
      hide I.Inv, M.Drop, M.Unlink;
      InItsList(before, i);
      DropCases(before, i);
      ghost var own := At(i);
      if nodes[i - 1].assoc != null {
        ghost var j := own.assoc.value;
        assert j in View().pool && View().pool[j] == At(j);
        ghost var partner := At(j).(assoc := None);
        Unpair(i);
        Erased(before.pool, i, own, own.(assoc := None), j, partner);
        assert partner == before.pool[j].(assoc := None) || j == i;
      } else {
        Erased(before.pool, i, own, own, i, own);
      }
    }

    /** index_free. */
    method Release(i: M.Index)
      requires Shape() && i in live
      modifies this`live, this`free
      ensures Shape() && Pool() == old(Pool()) - {i} && free == old(free) + [i]
    {
      live := live - {i};
      free := free + [i];
    }

    /** The deassociation inside gtp_xact_delete. */
    method Unpair(i: M.Index)
      requires Shape() && i in live && nodes[i - 1].assoc != null
      requires At(i).assoc.value in live && At(At(i).assoc.value).assoc == Some(i)
      modifies repr
      ensures Shape() && At(i).org == old(At(i).org) && At(i).gnode == old(At(i).gnode)
      ensures var j := old(At(i).assoc.value);
              Pool() == old(Pool())[i := old(At(i)).(assoc := None)][j := old(At(j)).(assoc := None)]
    {
      var x, y := nodes[i - 1], nodes[i - 1].assoc;
      assert PartnerOk(x);
      var j := y.index;
      assert y == nodes[j - 1] && y.View() == At(j);
      x.assoc := null;
      OneChanged(i);
      label Half:
      y.assoc := null;
      OneChanged@Half(j);
    }

    /** list_remove. */
    method Unlist(i: M.Index)
      requires Shape() && i in live && i in M.ListOf(View(), M.KeyOf(At(i)))
      modifies this`lists
      ensures Shape() && Pool() == old(Pool())
      ensures lists == old(lists)[old(M.KeyOf(At(i))) := M.Unlink(old(M.ListOf(View(), M.KeyOf(At(i)))), i)]
    {
      hide M.Unlink;
      var key := M.ListKey(nodes[i - 1].gnode, nodes[i - 1].org);
      var list := if key in lists then lists[key] else [];
      list := Unlinked(list, i);
      lists := lists[key := list];
    }

    static method Unlinked(list: seq<M.Index>, i: M.Index) returns (rest: seq<M.Index>)
      requires i in list
      ensures rest == M.Unlink(list, i)
    {
      var k := 0;
      while list[k] != i
        invariant 0 <= k < |list| && i !in list[..k] && i in list[k..]
        decreases |list| - k
      {
        assert list[k..] == [list[k]] + list[k + 1..] && list[..k + 1] == list[..k] + [list[k]];
        k := k + 1;
      }
      UnlinkAt(list, i, k);
      rest := list[..k] + list[k + 1..];
    }

    /** gtp_xact_delete_all on one list: the successor of a node is read after the node was freed,
        and a freed node keeps its link. */
    method DeleteEach(list: seq<M.Index>)
      requires Valid() && (forall i | i in list :: i in live) && I.NoDup(list)
      modifies this, repr
      ensures Valid() && View() == M.DropEach(old(View()), list)
    {
      hide I.Inv, M.Drop, M.DropEach;
      var k := 0;
      assert list[0..] == list;
      while k < |list|
        invariant 0 <= k <= |list| && Valid()
        invariant forall j | k <= j < |list| :: list[j] in live
        invariant M.DropEach(View(), list[k..]) == M.DropEach(old(View()), list)
      {
        ghost var v := View();
        assert list[k] in v.pool;
        DropEachAt(v, list, k);
        Delete(list[k]);
        assert View().pool.Keys == live && v.pool.Keys - {list[k]} == live;
        k := k + 1;
      }
      DropEachEmpty(View());
      assert list[k..] == [];
    }

    method DeleteAll(node: M.Node)
      requires Valid()
      modifies this, repr
      ensures Valid() && View() == M.DropAll(old(View()), node)
    {
      hide I.Inv, M.DropEach, M.Drop;
      var list := ListOf(M.ListKey(node, M.Local));
      Listed(View(), M.ListKey(node, M.Local));
      DeleteEach(list);
      list := ListOf(M.ListKey(node, M.Remote));
      Listed(View(), M.ListKey(node, M.Remote));
      DeleteEach(list);
    }
  }
}

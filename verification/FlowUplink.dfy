/** The tunnel index. A node stays on the chain it was first threaded on, so an update that moves its
    tunnel id to another bucket hides it; this module says exactly when lookup is complete. */
module FlowUplink {
  import opened Bytes
  import opened HashIndex
  import opened Options
  import opened FlowModel
  import opened FlowTheorems

  ghost predicate Reached(t: Table, h: U32 -> nat, dst: U32, tid: U32, id: nat)
    requires Shape(t)
  {
    HasTunnel(t, dst, tid, id) && t.store[id].slot == Bucket(h, tid, |t.tid|)
  }

  ghost predicate HasTunnel(t: Table, dst: U32, tid: U32, id: nat) {
    id in t.store && t.store[id].flow.localIp == dst && t.store[id].flow.localTeid == tid
  }

  /** Every node is on the chain its present tunnel id hashes to. */
  ghost predicate InPlace(t: Table, h: U32 -> nat)
    requires Shape(t)
  {
    forall id | id in t.store :: t.store[id].slot == Bucket(h, t.store[id].flow.localTeid, |t.tid|)
  }

  /** Every tunnel that some flow has is found. */
  ghost predicate Complete(t: Table, h: U32 -> nat)
    requires Shape(t)
  {
    forall dst: U32, tid: U32, id | HasTunnel(t, dst, tid, id) :: Find(t, h, ByUplink(dst, tid)).Some?
  }

  ghost predicate TunnelsUnique(t: Table) {
    forall a, b | a in t.store && b in t.store && t.store[a].flow.localTeid == t.store[b].flow.localTeid
                  && t.store[a].flow.localIp == t.store[b].flow.localIp :: a == b
  }

  /** What uplink lookup finds: sound always, and it reaches exactly the nodes on the right chain. */
  lemma UplinkExact(t: Table, h: U32 -> nat, dst: U32, tid: U32)
    requires Inv(t, h)
    ensures Shape(t)
    ensures var r := Find(t, h, ByUplink(dst, tid));
            && (r.Some? ==> Reached(t, h, dst, tid, r.value))
            && (r.None? ==> forall id :: !Reached(t, h, dst, tid, id))
  {
    InvShape(t, h);
    var b := Bucket(h, tid, |t.tid|);
    var place := TidPlace(t.store);
    assert ChainOk(t.tid[b], place, b);
    var r := Find(t, h, ByUplink(dst, tid));
    if r.Some? {
      var k :| 0 <= k < |t.tid[b]| && t.tid[b][k] == r.value;
      assert place[t.tid[b][k]] == b;
    }
    forall id | id in t.store && t.store[id].slot == b
      ensures id in t.tid[b]
    {
      assert id in place && place[id] == b;
    }
  }

  /** With one flow a tunnel, lookup is complete if and only if every node is in place. */
  lemma CompleteExactly(t: Table, h: U32 -> nat)
    requires Inv(t, h)
    ensures Shape(t)
    ensures InPlace(t, h) ==> Complete(t, h)
    ensures Complete(t, h) && TunnelsUnique(t) ==> InPlace(t, h)
  {
    InvShape(t, h);
    hide Find, Inv, Shape;
    if InPlace(t, h) {
      forall dst: U32, tid: U32, id | HasTunnel(t, dst, tid, id)
        ensures Find(t, h, ByUplink(dst, tid)).Some?
      {
        UplinkExact(t, h, dst, tid);
        assert Reached(t, h, dst, tid, id);
      }
    }
    if Complete(t, h) && TunnelsUnique(t) {
      forall id | id in t.store
        ensures t.store[id].slot == Bucket(h, t.store[id].flow.localTeid, |t.tid|)
      {
        var f := t.store[id].flow;
        UplinkExact(t, h, f.localIp, f.localTeid);
        assert HasTunnel(t, f.localIp, f.localTeid, id);
      }
    }
  }

  /** An update stays in its bucket. */
  ghost predicate KeepsBucket(t: Table, h: U32 -> nat, f: Flow)
    requires Shape(t)
  {
    forall id | HolderOf(t.store, f.innerIp, id) ::
      Bucket(h, t.store[id].flow.localTeid, |t.tid|) == Bucket(h, f.localTeid, |t.tid|)
  }

  /** Adding keeps every node in place exactly when an update stays in its bucket. */
  lemma AddInPlace(t: Table, h: U32 -> nat, f: Flow, mem: Option<nat>)
    requires Inv(t, h) && Shape(t) && InPlace(t, h) && Legal(t, AddFlow(f, mem))
    ensures var t1 := Add(t, h, f, mem).0; Shape(t1) && (InPlace(t1, h) <==> KeepsBucket(t, h, f))
  {
    var t1 := Add(t, h, f, mem).0;
    AddShape(t, h, f, mem);
    var r := Find(t, h, ByInner(f.innerIp));
    FindsHolder(t, h, f.innerIp);
    hide Find, Inv, Shape;
    if r.Some? {
      assert HolderOf(t.store, f.innerIp, r.value);
      assert t1 == Overwrite(t, r.value, f);
      if KeepsBucket(t, h, f) {
        assert forall id | id in t1.store :: id in t.store;
      }
    } else {
      assert KeepsBucket(t, h, f);
    }
  }

  lemma FindsHolder(t: Table, h: U32 -> nat, ip: U32)
    requires Inv(t, h) && Shape(t)
    ensures var r := Find(t, h, ByInner(ip));
            forall id: nat | HolderOf(t.store, ip, id) :: r == Some(id)
  {
    var r := Find(t, h, ByInner(ip));
    forall id: nat | HolderOf(t.store, ip, id)
      ensures r == Some(id)
    {
      var place := AddrPlace(t.store, h, |t.addr|);
      assert id in place && place[id] == Bucket(h, ip, |t.addr|);
      assert id in t.addr[place[id]];
    }
  }

  lemma AddShape(t: Table, h: U32 -> nat, f: Flow, mem: Option<nat>)
    requires Inv(t, h) && Shape(t) && Legal(t, AddFlow(f, mem))
    ensures Shape(Add(t, h, f, mem).0) && |Add(t, h, f, mem).0.tid| == |t.tid|
  {
    var r := Find(t, h, ByInner(f.innerIp));
    if r.Some? {
      OverwriteInv(t, h, r.value, f);
    } else if mem.Some? {
      forall id | id in t.store
        ensures t.store[id].flow.innerIp != f.innerIp
      {
        FindsHolder(t, h, f.innerIp);
        assert !HolderOf(t.store, f.innerIp, id);
      }
      InsertInv(t, h, mem.value, f);
    }
    InvShape(Add(t, h, f, mem).0, h);
  }

  lemma OverwriteInPlace(t: Table, h: U32 -> nat, id: nat, f: Flow)
    requires Shape(t) && InPlace(t, h) && id in t.store && f.localTeid == t.store[id].flow.localTeid
    ensures Shape(Overwrite(t, id, f)) && InPlace(Overwrite(t, id, f), h)
  {
  }

  lemma DelInPlace(t: Table, h: U32 -> nat, ip: U32)
    requires Shape(t) && InPlace(t, h) && Shape(Del(t, h, ip).0)
    ensures InPlace(Del(t, h, ip).0, h)
  {
    hide Shape, Find;
    var t1 := Del(t, h, ip).0;
    assert |t1.tid| == |t.tid| && forall id | id in t1.store :: id in t.store && t1.store[id] == t.store[id];
  }

  lemma NextInPlace(t: Table, h: U32 -> nat, e: Event)
    requires Inv(t, h) && Shape(t) && InPlace(t, h) && Legal(t, e) && Inv(Next(t, h, e), h)
    requires e.AddFlow? ==> KeepsBucket(t, h, e.f)
    ensures Shape(Next(t, h, e)) && InPlace(Next(t, h, e), h)
  {
    hide Find, Inv, Shape, InPlace, Overwrite, Del, Add, Scan;
    InvShape(Next(t, h, e), h);
    match e
    case AddFlow(f, mem) => AddInPlace(t, h, f, mem);
    case DelFlow(ip) => DelInPlace(t, h, ip);
    case Up(dst, tid, bytes) =>
      var r := Find(t, h, ByUplink(dst, tid));
      if r.Some? {
        OverwriteInPlace(t, h, r.value, CountedUp(t.store[r.value].flow, bytes));
      }
    case Down(ip, bytes) =>
      var r := Find(t, h, ByInner(ip));
      if r.Some? {
        OverwriteInPlace(t, h, r.value, CountedDown(t.store[r.value].flow, bytes));
      }
  }

  lemma {:induction false} InPlaceAt(h: U32 -> nat, ts: seq<Table>, es: seq<Event>, i: nat)
    requires IsRun(h, ts, es) && i < |ts|
    requires forall j | 0 <= j < |ts| :: Inv(ts[j], h)
    requires forall j | 0 <= j < |es| :: es[j].AddFlow? ==> Shape(ts[j]) && KeepsBucket(ts[j], h, es[j].f)
    ensures Shape(ts[i]) && InPlace(ts[i], h)
  {
    hide Inv, Shape, InPlace, Next, Legal, KeepsBucket;
    if i == 0 {
      EmptyInPlace(h, |ts[0].addr|);
    } else {
      InPlaceAt(h, ts, es, i - 1);
      assert ts[i - 1 + 1] == Next(ts[i - 1], h, es[i - 1]);
      NextInPlace(ts[i - 1], h, es[i - 1]);
    }
  }

  /** In every run whose updates stay in their buckets (keeping the local tunnel id is enough), uplink
      lookup finds every tunnel, at every moment. */
  lemma RunComplete(h: U32 -> nat, ts: seq<Table>, es: seq<Event>, i: nat)
    requires IsRun(h, ts, es) && i < |ts|
    requires forall j | 0 <= j < |es| :: es[j].AddFlow? ==> Shape(ts[j]) && KeepsBucket(ts[j], h, es[j].f)
    ensures Shape(ts[i]) && InPlace(ts[i], h) && Complete(ts[i], h)
  {
    hide Inv, Shape, InPlace, Complete, Next, Legal, KeepsBucket, Agrees, IsRun, IsMapRun;
    var ms := RunAgrees(h, ts, es);
    InPlaceAt(h, ts, es, i);
    CompleteExactly(ts[i], h);
  }

  lemma EmptyInPlace(h: U32 -> nat, n: nat)
    requires n > 0
    ensures Shape(Empty(n)) && InPlace(Empty(n), h)
  {
  }

  lemma SameTeidKeepsBucket(t: Table, h: U32 -> nat, m: map<U32, Flow>, f: Flow)
    requires Inv(t, h) && Shape(t) && Agrees(t, m)
    requires f.innerIp in m ==> m[f.innerIp].localTeid == f.localTeid
    ensures KeepsBucket(t, h, f)
  {
  }

  /** When only node `id` has the tunnel, lookup finds it exactly on the right chain. */
  lemma OnlyHolder(t: Table, h: U32 -> nat, dst: U32, tid: U32, id: nat)
    requires Inv(t, h) && Shape(t) && HasTunnel(t, dst, tid, id)
    requires forall x: nat | HasTunnel(t, dst, tid, x) :: x == id
    ensures Find(t, h, ByUplink(dst, tid)).Some? <==> t.store[id].slot == Bucket(h, tid, |t.tid|)
  {
    hide Find, Inv, Shape;
    UplinkExact(t, h, dst, tid);
    var r := Find(t, h, ByUplink(dst, tid));
    if r.Some? {
      assert HasTunnel(t, dst, tid, r.value);
    } else {
      assert !Reached(t, h, dst, tid, id);
    }
  }

  /** No other subscriber has the tunnel. */
  ghost predicate TunnelFree(t: Table, f: Flow) {
    forall id | HasTunnel(t, f.localIp, f.localTeid, id) :: t.store[id].flow.innerIp == f.innerIp
  }

  lemma SoleTunnel(t: Table, t1: Table, f: Flow, id: nat)
    requires TunnelFree(t, f) && id in t1.store && t1.store == t.store[id := t1.store[id]]
    requires t1.store[id].flow.localIp == f.localIp && t1.store[id].flow.localTeid == f.localTeid
    requires forall x: nat | HolderOf(t.store, f.innerIp, x) :: x == id
    ensures HasTunnel(t1, f.localIp, f.localTeid, id)
    ensures forall x: nat | HasTunnel(t1, f.localIp, f.localTeid, x) :: x == id
  {
    forall x: nat | x != id
      ensures !HasTunnel(t1, f.localIp, f.localTeid, x)
    {
      assert !HolderOf(t.store, f.innerIp, x);
      assert HasTunnel(t1, f.localIp, f.localTeid, x) == HasTunnel(t, f.localIp, f.localTeid, x);
    }
  }

  /** The other half: after an addition that took effect, the flow is found by its own tunnel id if and
      only if the update stayed in its bucket. */
  lemma AddedIsFound(t: Table, h: U32 -> nat, f: Flow, mem: Option<nat>)
    requires Inv(t, h) && Shape(t) && InPlace(t, h) && Legal(t, AddFlow(f, mem)) && TunnelFree(t, f)
    requires Add(t, h, f, mem).1 == 0
    ensures var t1 := Add(t, h, f, mem).0;
            Shape(t1) && (Find(t1, h, ByUplink(f.localIp, f.localTeid)).Some? <==> KeepsBucket(t, h, f))
  {
    AddShape(t, h, f, mem);
    AddStays(t, h, f, mem);
    FindsHolder(t, h, f.innerIp);
    var r := Find(t, h, ByInner(f.innerIp));
    var t1 := Add(t, h, f, mem).0;
    var id := if r.Some? then r.value else mem.value;
    hide Find, Inv, Shape, Bucket;
    assert r.Some? ==> HolderOf(t.store, f.innerIp, id);
    SoleTunnel(t, t1, f, id);
    OnlyHolder(t1, h, f.localIp, f.localTeid, id);
  }

  lemma AddStays(t: Table, h: U32 -> nat, f: Flow, mem: Option<nat>)
    requires Inv(t, h) && Shape(t) && Legal(t, AddFlow(f, mem))
    ensures Inv(Add(t, h, f, mem).0, h)
  {
    var r := Find(t, h, ByInner(f.innerIp));
    FindsHolder(t, h, f.innerIp);
    if r.Some? {
      OverwriteInv(t, h, r.value, f);
    } else if mem.Some? {
      assert forall id | id in t.store :: !HolderOf(t.store, f.innerIp, id);
      InsertInv(t, h, mem.value, f);
    }
  }

  const HASH_SIZE: nat := 512

  /** Adding a flow and adding it again with a tunnel id of another bucket. */
  function TwoAdds(h: U32 -> nat, f: Flow, g: Flow): Table {
    var t := Insert(Empty(HASH_SIZE), h, 0, f);
    Overwrite(t, 0, g)
  }

  lemma TunnelLost(h: U32 -> nat, f: Flow, g: Flow)
    requires f.innerIp == g.innerIp
    requires Bucket(h, f.localTeid, HASH_SIZE) != Bucket(h, g.localTeid, HASH_SIZE)
    ensures IsRun(h, [Empty(HASH_SIZE), Insert(Empty(HASH_SIZE), h, 0, f), TwoAdds(h, f, g)],
                  [AddFlow(f, Some(0)), AddFlow(g, None)])
    ensures Shape(TwoAdds(h, f, g)) && TwoAdds(h, f, g).store[0].flow == g
    ensures Find(TwoAdds(h, f, g), h, ByUplink(g.localIp, g.localTeid)) == None
  {
  }

  lemma TunnelLostExample()
    ensures
      var h, f := (x: U32) => x as nat, Flow(0x2D2D0002, 7, 1, 0x0A000001, 2152, 2152, 0x0A000002, 0, 0, 0);
      var g := f.(localTeid := 2);
      && Shape(TwoAdds(h, f, g))
      && TwoAdds(h, f, g).store[0].flow == g
      && Find(TwoAdds(h, f, g), h, ByUplink(g.localIp, g.localTeid)) == None
  {
    var h, f := (x: U32) => x as nat, Flow(0x2D2D0002, 7, 1, 0x0A000001, 2152, 2152, 0x0A000002, 0, 0, 0);
    TunnelLost(h, f, f.(localTeid := 2));
  }
}

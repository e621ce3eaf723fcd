/** The flow table over whole runs: it always agrees with a plain map from subscriber address to flow,
    and exactly when its tunnel index finds every flow. */
module FlowTheorems {
  import opened Bytes
  import opened HashIndex
  import opened Options
  import opened FlowModel

  // ---------------------------------------------------------------- the plain map

  ghost predicate HolderOf(store: map<nat, Node>, ip: U32, id: nat) {
    id in store && store[id].flow.innerIp == ip
  }

  ghost predicate Agrees(t: Table, m: map<U32, Flow>) {
    && (forall id | id in t.store :: t.store[id].flow.innerIp in m && m[t.store[id].flow.innerIp] == t.store[id].flow)
    && (forall ip | ip in m :: exists id :: HolderOf(t.store, ip, id))
  }

  datatype Event =
    | AddFlow(f: Flow, mem: Option<nat>)
    | DelFlow(ip: U32)
    | Up(dst: U32, tid: U32, bytes: nat)
    | Down(ip: U32, bytes: nat)

  function Next(t: Table, h: U32 -> nat, e: Event): Table
    requires Shape(t)
  {
    match e
    case AddFlow(f, mem) => Add(t, h, f, mem).0
    case DelFlow(ip) => Del(t, h, ip).0
    case Up(dst, tid, bytes) => CountUp(t, h, dst, tid, bytes)
    case Down(ip, bytes) => CountDown(t, h, ip, bytes)
  }

  /** The allocator hands out memory that is not in use. */
  ghost predicate Legal(t: Table, e: Event) {
    e.AddFlow? && e.mem.Some? ==> e.mem.value !in t.store
  }

  /** The same events on a map. `hit` is the subscriber an uplink packet is accounted to. */
  function MapNext(m: map<U32, Flow>, e: Event, hit: Option<U32>): map<U32, Flow> {
    match e
    case AddFlow(f, mem) =>
      if f.innerIp in m then m[f.innerIp := f]
      else if mem.None? then m
      else m[f.innerIp := Flow(f.innerIp, f.remoteTeid, f.localTeid, f.localIp, f.localPort, f.remotePort, f.remoteIp, 0, 0, 0)]
    case DelFlow(ip) => m - {ip}
    case Up(_, _, bytes) =>
      if hit.Some? && hit.value in m
      then m[hit.value := m[hit.value].(decapBytes := (m[hit.value].decapBytes + bytes) % 0x1_0000_0000)] else m
    case Down(ip, bytes) =>
      if ip in m then m[ip := m[ip].(encapBytes := (m[ip].encapBytes + bytes) % 0x1_0000_0000)] else m
  }

  ghost predicate HitOk(m: map<U32, Flow>, e: Event, hit: Option<U32>) {
    hit.Some? ==> e.Up? && hit.value in m && m[hit.value].localIp == e.dst && m[hit.value].localTeid == e.tid
  }

  /** The address index answers as the map does. */
  lemma LookupIsMap(t: Table, h: U32 -> nat, m: map<U32, Flow>, ip: U32)
    requires Inv(t, h) && Agrees(t, m)
    ensures Shape(t)
    ensures var r := Find(t, h, ByInner(ip));
            (r.Some? <==> ip in m) && (r.Some? ==> t.store[r.value].flow == m[ip] && HolderOf(t.store, ip, r.value))
  {
    InvShape(t, h);
    var r := Find(t, h, ByInner(ip));
    if ip in m {
      var id :| HolderOf(t.store, ip, id);
      var place := AddrPlace(t.store, h, |t.addr|);
      assert id in place && place[id] == Bucket(h, ip, |t.addr|);
      assert id in t.addr[place[id]];
      assert r.Some?;
    }
  }

  lemma OverwriteAgrees(t: Table, m: map<U32, Flow>, id: nat, f: Flow)
    requires Agrees(t, m) && KeysUnique(t.store) && HolderOf(t.store, f.innerIp, id)
    ensures Agrees(Overwrite(t, id, f), m[f.innerIp := f])
  {
    var t1, m1 := Overwrite(t, id, f), m[f.innerIp := f];
    forall ip | ip in m1
      ensures exists x :: HolderOf(t1.store, ip, x)
    {
      if ip == f.innerIp {
        assert HolderOf(t1.store, ip, id);
      } else {
        var x :| HolderOf(t.store, ip, x);
        assert HolderOf(t1.store, ip, x);
      }
    }
  }

  lemma InsertAgrees(t: Table, h: U32 -> nat, m: map<U32, Flow>, id: nat, f: Flow)
    requires Agrees(t, m) && 0 < |t.addr| == |t.tid| && id !in t.store && f.innerIp !in m
    ensures Agrees(Insert(t, h, id, f), m[f.innerIp := Zeroed(f)])
  {
    var t1, m1 := Insert(t, h, id, f), m[f.innerIp := Zeroed(f)];
    forall ip | ip in m1
      ensures exists x :: HolderOf(t1.store, ip, x)
    {
      if ip == f.innerIp {
        assert HolderOf(t1.store, ip, id);
      } else {
        var x :| HolderOf(t.store, ip, x);
        assert HolderOf(t1.store, ip, x);
      }
    }
  }

  lemma RemoveAgrees(t: Table, h: U32 -> nat, m: map<U32, Flow>, id: nat)
    requires Agrees(t, m) && 0 < |t.addr| == |t.tid| && id in t.store && t.store[id].slot < |t.tid| && KeysUnique(t.store)
    ensures Agrees(Remove(t, h, id), m - {t.store[id].flow.innerIp})
  {
    var t1, m1 := Remove(t, h, id), m - {t.store[id].flow.innerIp};
    forall ip | ip in m1
      ensures exists x :: HolderOf(t1.store, ip, x)
    {
      var x :| HolderOf(t.store, ip, x);
      assert HolderOf(t1.store, ip, x);
    }
  }

  /** One step: the invariant and the agreement are kept, and the return codes are the map's. */
  lemma StepAgrees(t: Table, h: U32 -> nat, m: map<U32, Flow>, e: Event) returns (hit: Option<U32>)
    requires Inv(t, h) && Agrees(t, m) && Legal(t, e)
    ensures Shape(t) && Inv(Next(t, h, e), h)
    ensures HitOk(m, e, hit) && Agrees(Next(t, h, e), MapNext(m, e, hit))
    ensures e.AddFlow? ==> (Add(t, h, e.f, e.mem).1 == 0 <==> e.f.innerIp in m || e.mem.Some?)
    ensures e.DelFlow? ==> (Del(t, h, e.ip).1 == 0 <==> e.ip in m)
    ensures e.Up? ==> (hit.Some? <==> Find(t, h, ByUplink(e.dst, e.tid)).Some?)
  {
    InvShape(t, h);
    hit := None;
    hide Scan, IndexOk, Agrees, Overwrite, Insert, Remove;
    match e
    case AddFlow(f, mem) => AddAgrees(t, h, m, f, mem);
    case DelFlow(ip) => DelAgrees(t, h, m, ip);
    case Up(dst, tid, bytes) => hit := UpAgrees(t, h, m, dst, tid, bytes);
    case Down(ip, bytes) => DownAgrees(t, h, m, ip, bytes);
  }

  lemma AddAgrees(t: Table, h: U32 -> nat, m: map<U32, Flow>, f: Flow, mem: Option<nat>)
    requires Inv(t, h) && Shape(t) && Agrees(t, m) && Legal(t, AddFlow(f, mem))
    ensures var r := Add(t, h, f, mem);
            && Inv(r.0, h) && Agrees(r.0, MapNext(m, AddFlow(f, mem), None))
            && (r.1 == 0 <==> f.innerIp in m || mem.Some?)
  {
    LookupIsMap(t, h, m, f.innerIp);
    var r := Find(t, h, ByInner(f.innerIp));
    if r.Some? {
      OverwriteInv(t, h, r.value, f);
      OverwriteAgrees(t, m, r.value, f);
    } else if mem.Some? {
      InsertInv(t, h, mem.value, f);
      InsertAgrees(t, h, m, mem.value, f);
    }
  }

  /** After an addition that took effect, lookup finds the flow as given: all of it for a known subscriber, and
      with its counters and flags cleared for a new one; every other subscriber's flow is found as before. */
  lemma AddedRecord(t: Table, h: U32 -> nat, m: map<U32, Flow>, f: Flow, mem: Option<nat>, ip: U32)
    requires Inv(t, h) && Shape(t) && Agrees(t, m) && Legal(t, AddFlow(f, mem)) && Add(t, h, f, mem).1 == 0
    ensures var t1 := Add(t, h, f, mem).0;
            && Shape(t1) && Find(t1, h, ByInner(f.innerIp)).Some?
            && var g := t1.store[Find(t1, h, ByInner(f.innerIp)).value].flow;
               && g.innerIp == f.innerIp && g.remoteTeid == f.remoteTeid && g.localTeid == f.localTeid && g.localIp == f.localIp
               && g.localPort == f.localPort && g.remotePort == f.remotePort && g.remoteIp == f.remoteIp
               && (if f.innerIp in m then g == f else g.encapBytes == 0 && g.decapBytes == 0 && g.flags == 0)
    ensures var t1 := Add(t, h, f, mem).0;
            ip != f.innerIp ==>
              && (Find(t1, h, ByInner(ip)).Some? <==> ip in m)
              && (ip in m ==> t1.store[Find(t1, h, ByInner(ip)).value].flow == m[ip])
  {
    AddAgrees(t, h, m, f, mem);
    var t1, m1 := Add(t, h, f, mem).0, MapNext(m, AddFlow(f, mem), None);
    MapAdded(m, f, mem);
    hide Add, Inv, Agrees, Find, MapNext, Shape;
    LookupIsMap(t1, h, m1, f.innerIp);
    LookupIsMap(t1, h, m1, ip);
  }

  lemma MapAdded(m: map<U32, Flow>, f: Flow, mem: Option<nat>)
    ensures var m1 := MapNext(m, AddFlow(f, mem), None);
            && (forall ip | ip != f.innerIp :: (ip in m1 <==> ip in m) && (ip in m ==> m1[ip] == m[ip]))
            && (f.innerIp in m || mem.Some? ==>
                  && f.innerIp in m1
                  && m1[f.innerIp] == if f.innerIp in m then f
                                      else Flow(f.innerIp, f.remoteTeid, f.localTeid, f.localIp, f.localPort, f.remotePort,
                                                f.remoteIp, 0, 0, 0))
  {
  }

  lemma DelAgrees(t: Table, h: U32 -> nat, m: map<U32, Flow>, ip: U32)
    requires Inv(t, h) && Shape(t) && Agrees(t, m)
    ensures var r := Del(t, h, ip);
            Inv(r.0, h) && Agrees(r.0, m - {ip}) && (r.1 == 0 <==> ip in m)
  {
    LookupIsMap(t, h, m, ip);
    var r := Find(t, h, ByInner(ip));
    if r.Some? {
      RemoveInv(t, h, r.value);
      RemoveAgrees(t, h, m, r.value);
    } else {
      assert m - {ip} == m;
    }
  }

  lemma CountAgrees(t: Table, h: U32 -> nat, m: map<U32, Flow>, id: nat, f: Flow)
    requires Inv(t, h) && Agrees(t, m) && HolderOf(t.store, f.innerIp, id)
    ensures f.innerIp in m && m[f.innerIp] == t.store[id].flow
    ensures Inv(Overwrite(t, id, f), h) && Agrees(Overwrite(t, id, f), m[f.innerIp := f])
  {
    OverwriteInv(t, h, id, f);
    OverwriteAgrees(t, m, id, f);
  }

  lemma UpAgrees(t: Table, h: U32 -> nat, m: map<U32, Flow>, dst: U32, tid: U32, bytes: nat) returns (hit: Option<U32>)
    requires Inv(t, h) && Shape(t) && Agrees(t, m)
    ensures var t1 := CountUp(t, h, dst, tid, bytes);
            Inv(t1, h) && HitOk(m, Up(dst, tid, bytes), hit) && Agrees(t1, MapNext(m, Up(dst, tid, bytes), hit))
    ensures hit.Some? <==> Find(t, h, ByUplink(dst, tid)).Some?
  {
    hide Scan, Inv, Agrees, Overwrite, Find;
    hit := None;
    var r := Find(t, h, ByUplink(dst, tid));
    if r.Some? {
      var f := t.store[r.value].flow;
      hit := Some(f.innerIp);
      CountAgrees(t, h, m, r.value, CountedUp(f, bytes));
    }
  }

  lemma DownAgrees(t: Table, h: U32 -> nat, m: map<U32, Flow>, ip: U32, bytes: nat)
    requires Inv(t, h) && Shape(t) && Agrees(t, m)
    ensures var t1 := CountDown(t, h, ip, bytes);
            Inv(t1, h) && Agrees(t1, MapNext(m, Down(ip, bytes), None))
  {
    LookupIsMap(t, h, m, ip);
    CountedIs(m, ip, bytes);
    hide Scan, Inv, Agrees, Overwrite, Find, MapNext, CountedDown;
    var r := Find(t, h, ByInner(ip));
    if r.Some? {
      var f := CountedDown(t.store[r.value].flow, bytes);
      assert f.innerIp == ip by {
        CountedIs(m, ip, bytes);
      }
      CountAgrees(t, h, m, r.value, f);
    }
  }

  lemma CountedIs(m: map<U32, Flow>, ip: U32, bytes: nat)
    ensures MapNext(m, Down(ip, bytes), None) == if ip in m then m[ip := CountedDown(m[ip], bytes)] else m
    ensures ip in m ==> CountedDown(m[ip], bytes).innerIp == m[ip].innerIp
  {
  }

  // ---------------------------------------------------------------- runs

  function Empty(n: nat): Table {
    Table(map[], seq(n, _ => []), seq(n, _ => []))
  }

  /** A run: the states it goes through, one event between each two. */
  ghost predicate IsRun(h: U32 -> nat, ts: seq<Table>, es: seq<Event>) {
    && |ts| == |es| + 1
    && |ts[0].addr| > 0 && ts[0] == Empty(|ts[0].addr|)
    && forall i | 0 <= i < |es| :: Shape(ts[i]) && Legal(ts[i], es[i]) && ts[i + 1] == Next(ts[i], h, es[i])
  }

  ghost predicate MapStep(m: map<U32, Flow>, e: Event, m1: map<U32, Flow>) {
    exists hit :: HitOk(m, e, hit) && m1 == MapNext(m, e, hit)
  }

  ghost predicate IsMapRun(ms: seq<map<U32, Flow>>, es: seq<Event>) {
    && |ms| == |es| + 1 && ms[0] == map[]
    && forall i | 0 <= i < |es| :: MapStep(ms[i], es[i], ms[i + 1])
  }

  lemma EmptyInv(h: U32 -> nat, n: nat)
    requires n > 0
    ensures Inv(Empty(n), h) && Agrees(Empty(n), map[])
  {
  }

  /** Every run of the table is a run of the map: after every event the address index is that map, with
      one node a key, and both indexes hold the same nodes. */
  lemma {:induction false} RunAgrees(h: U32 -> nat, ts: seq<Table>, es: seq<Event>) returns (ms: seq<map<U32, Flow>>)
    requires IsRun(h, ts, es)
    ensures IsMapRun(ms, es)
    ensures forall i | 0 <= i < |ts| :: Inv(ts[i], h) && Agrees(ts[i], ms[i])
    decreases |es|
  {
    hide Inv, Agrees, Next, MapNext, HitOk, Shape, Legal;
    if es == [] {
      ms := [map[]];
      EmptyInv(h, |ts[0].addr|);
    } else {
      var n := |es| - 1;
      var before := RunAgrees(h, ts[..n + 1], es[..n]);
      assert ts[..n + 1][n] == ts[n];
      var hit := StepAgrees(ts[n], h, before[n], es[n]);
      ms := before + [MapNext(before[n], es[n], hit)];
      assert MapStep(before[n], es[n], ms[n + 1]);
      forall i | 0 <= i < |es|
        ensures MapStep(ms[i], es[i], ms[i + 1])
      {
        if i < n {
          assert es[..n][i] == es[i] && MapStep(before[i], es[..n][i], before[i + 1]);
        }
      }
    }
  }
}

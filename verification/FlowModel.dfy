/** The flow table of kmod/gtp_fw.c on values: nodes threaded through two hash indexes, one by the
    subscriber's address and one by the local tunnel id. */
module FlowModel {
  import opened Bytes
  import opened HashIndex
  import opened Options

  datatype Flow = Flow(innerIp: U32, remoteTeid: U32, localTeid: U32, localIp: U32, localPort: U16,
                       remotePort: U16, remoteIp: U32, encapBytes: U32, decapBytes: U32, flags: U32)

  /** A node and the tunnel-id chain it is threaded on; memory addresses name the nodes. */
  datatype Node = Node(flow: Flow, slot: nat)

  datatype Table = Table(store: map<nat, Node>, addr: seq<seq<nat>>, tid: seq<seq<nat>>)

  /** What a lookup asks for: the subscriber's address, or the tunnel's end. */
  datatype Want = ByInner(ip: U32) | ByUplink(dst: U32, tid: U32)

  predicate Matches(f: Flow, w: Want) {
    match w
    case ByInner(ip) => f.innerIp == ip
    case ByUplink(dst, tid) => f.localTeid == tid && f.localIp == dst
  }

  function Bucket(h: U32 -> nat, x: U32, n: nat): (i: nat)
    requires n > 0
    ensures i < n
  {
    h(x) % n
  }

  /** The first node of a chain that matches. */
  function Scan(store: map<nat, Node>, chain: seq<nat>, w: Want): (r: Option<nat>)
    requires forall k | 0 <= k < |chain| :: chain[k] in store
    ensures r.Some? ==> r.value in chain && r.value in store && Matches(store[r.value].flow, w)
    ensures r.None? ==> forall k | 0 <= k < |chain| :: !Matches(store[chain[k]].flow, w)
  {
    if chain == [] then None
    else if Matches(store[chain[0]].flow, w) then Some(chain[0])
    else Scan(store, chain[1..], w)
  }

  // ---------------------------------------------------------------- the invariant

  ghost function AddrPlace(store: map<nat, Node>, h: U32 -> nat, n: nat): map<nat, nat>
    requires n > 0
  {
    map id | id in store :: Bucket(h, store[id].flow.innerIp, n)
  }

  ghost function TidPlace(store: map<nat, Node>): map<nat, nat> {
    map id | id in store :: store[id].slot
  }

  ghost predicate KeysUnique(store: map<nat, Node>) {
    forall a, b | a in store && b in store && store[a].flow.innerIp == store[b].flow.innerIp :: a == b
  }

  /** Both indexes hold exactly the live nodes, and no two nodes share a subscriber's address. */
  ghost predicate Inv(t: Table, h: U32 -> nat) {
    && 0 < |t.addr| == |t.tid|
    && IndexOk(t.addr, AddrPlace(t.store, h, |t.addr|))
    && IndexOk(t.tid, TidPlace(t.store))
    && KeysUnique(t.store)
  }

  /** Chains lead only to live nodes; enough to follow them. */
  ghost predicate Shape(t: Table) {
    && 0 < |t.addr| == |t.tid|
    && (forall i, k | 0 <= i < |t.addr| && 0 <= k < |t.addr[i]| :: t.addr[i][k] in t.store)
    && (forall i, k | 0 <= i < |t.tid| && 0 <= k < |t.tid[i]| :: t.tid[i][k] in t.store)
    && (forall id | id in t.store :: t.store[id].slot < |t.tid|)
  }

  lemma InvShape(t: Table, h: U32 -> nat)
    requires Inv(t, h)
    ensures Shape(t)
  {
    assert forall i | 0 <= i < |t.addr| :: ChainOk(t.addr[i], AddrPlace(t.store, h, |t.addr|), i);
    assert forall i | 0 <= i < |t.tid| :: ChainOk(t.tid[i], TidPlace(t.store), i);
    assert forall id | id in t.store :: id in TidPlace(t.store) && TidPlace(t.store)[id] == t.store[id].slot;
  }

  // ---------------------------------------------------------------- the operations

  function Find(t: Table, h: U32 -> nat, w: Want): (r: Option<nat>)
    requires Shape(t)
    ensures r.Some? ==> r.value in t.store && Matches(t.store[r.value].flow, w)
  {
    match w
    case ByInner(ip) => Scan(t.store, t.addr[Bucket(h, ip, |t.addr|)], w)
    case ByUplink(_, tid) => Scan(t.store, t.tid[Bucket(h, tid, |t.tid|)], w)
  }

  function Zeroed(f: Flow): Flow {
    f.(encapBytes := 0, decapBytes := 0, flags := 0)
  }

  function Overwrite(t: Table, id: nat, f: Flow): Table
    requires id in t.store
  {
    t.(store := t.store[id := Node(f, t.store[id].slot)])
  }

  function Insert(t: Table, h: U32 -> nat, id: nat, f: Flow): Table
    requires 0 < |t.addr| == |t.tid|
  {
    var a, s := Bucket(h, f.innerIp, |t.addr|), Bucket(h, f.localTeid, |t.tid|);
    Table(t.store[id := Node(Zeroed(f), s)], t.addr[a := [id] + t.addr[a]], t.tid[s := [id] + t.tid[s]])
  }

  function Remove(t: Table, h: U32 -> nat, id: nat): Table
    requires 0 < |t.addr| == |t.tid| && id in t.store && t.store[id].slot < |t.tid|
  {
    var a, s := Bucket(h, t.store[id].flow.innerIp, |t.addr|), t.store[id].slot;
    Table(t.store - {id}, t.addr[a := Without(t.addr[a], id)], t.tid[s := Without(t.tid[s], id)])
  }

  const ENOMEM := -12

  /** ipv4_flow_add; `mem` is what the allocator offers. */
  function Add(t: Table, h: U32 -> nat, f: Flow, mem: Option<nat>): (Table, int)
    requires Shape(t)
  {
    match Find(t, h, ByInner(f.innerIp))
    case Some(id) => (Overwrite(t, id, f), 0)
    case None => if mem.None? then (t, ENOMEM) else (Insert(t, h, mem.value, f), 0)
  }

  /** gtp_del_flow, which goes by the subscriber's address alone. */
  function Del(t: Table, h: U32 -> nat, ip: U32): (Table, int)
    requires Shape(t)
  {
    match Find(t, h, ByInner(ip))
    case Some(id) => (Remove(t, h, id), 0)
    case None => (t, -1)
  }

  /** The counters, 32 bits wide: inner bytes taken out going up, outer bytes put in going down. */
  function CountedUp(f: Flow, bytes: nat): Flow {
    f.(decapBytes := (f.decapBytes + bytes) % TWO32)
  }

  function CountedDown(f: Flow, bytes: nat): Flow {
    f.(encapBytes := (f.encapBytes + bytes) % TWO32)
  }

  function CountUp(t: Table, h: U32 -> nat, dst: U32, tid: U32, bytes: nat): Table
    requires Shape(t)
  {
    match Find(t, h, ByUplink(dst, tid))
    case Some(id) =>
      var f := t.store[id].flow;
      Overwrite(t, id, CountedUp(f, bytes))
    case None => t
  }

  function CountDown(t: Table, h: U32 -> nat, ip: U32, bytes: nat): Table
    requires Shape(t)
  {
    match Find(t, h, ByInner(ip))
    case Some(id) =>
      var f := t.store[id].flow;
      Overwrite(t, id, CountedDown(f, bytes))
    case None => t
  }

  // ---------------------------------------------------------------- what one change keeps

  lemma OverwriteInv(t: Table, h: U32 -> nat, id: nat, f: Flow)
    requires Inv(t, h) && id in t.store && t.store[id].flow.innerIp == f.innerIp
    ensures Inv(Overwrite(t, id, f), h)
  {
    hide IndexOk;
    var t1 := Overwrite(t, id, f);
    assert AddrPlace(t1.store, h, |t.addr|) == AddrPlace(t.store, h, |t.addr|);
    assert TidPlace(t1.store) == TidPlace(t.store);
  }

  lemma InsertInv(t: Table, h: U32 -> nat, id: nat, f: Flow)
    requires Inv(t, h) && id !in t.store
    requires forall x | x in t.store :: t.store[x].flow.innerIp != f.innerIp
    ensures Inv(Insert(t, h, id, f), h)
  {
    hide IndexOk;
    var t1 := Insert(t, h, id, f);
    var a, s := Bucket(h, f.innerIp, |t.addr|), Bucket(h, f.localTeid, |t.tid|);
    IndexAdd(t.addr, AddrPlace(t.store, h, |t.addr|), id, a);
    IndexAdd(t.tid, TidPlace(t.store), id, s);
    assert AddrPlace(t1.store, h, |t.addr|) == AddrPlace(t.store, h, |t.addr|)[id := a];
    assert TidPlace(t1.store) == TidPlace(t.store)[id := s];
  }

  lemma RemoveInv(t: Table, h: U32 -> nat, id: nat)
    requires Inv(t, h) && id in t.store && t.store[id].slot < |t.tid|
    ensures Inv(Remove(t, h, id), h)
  {
    hide IndexOk;
    var t1 := Remove(t, h, id);
    IndexRemove(t.addr, AddrPlace(t.store, h, |t.addr|), id);
    IndexRemove(t.tid, TidPlace(t.store), id);
    assert AddrPlace(t1.store, h, |t.addr|) == AddrPlace(t.store, h, |t.addr|) - {id};
    assert TidPlace(t1.store) == TidPlace(t.store) - {id};
  }
}

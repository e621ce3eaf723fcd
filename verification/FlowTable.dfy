/** The flow table of kmod/gtp_fw.c as it is: two arrays of chains and nodes changed in place. */
module FlowTable {
  import opened Bytes
  import opened HashIndex
  import opened Options
  import opened FlowModel
  import opened FlowTheorems

  lemma AddFacts(t: Table, h: U32 -> nat, m: map<U32, Flow>, f: Flow, mem: Option<nat>)
    requires Inv(t, h) && Shape(t) && Agrees(t, m) && Legal(t, Event.AddFlow(f, mem))
    ensures var t1 := Add(t, h, f, mem).0;
            Inv(t1, h) && Shape(t1) && Agrees(t1, MapNext(m, Event.AddFlow(f, mem), None))
  {
    AddAgrees(t, h, m, f, mem);
    InvShape(Add(t, h, f, mem).0, h);
  }

  class GtpContext {
    const hash: U32 -> nat
    const addrHash: array<seq<nat>>
    const tidHash: array<seq<nat>>
    var store: map<nat, Node>

    ghost function View(): Table
      reads this, addrHash, tidHash
    {
      Table(store, addrHash[..], tidHash[..])
    }

    ghost predicate Valid()
      reads this, addrHash, tidHash
    {
      addrHash != tidHash && Inv(View(), hash) && Shape(View())
    }

    constructor (hash: U32 -> nat, size: nat)
      requires size > 0
      ensures Valid() && View() == Empty(size) && fresh(addrHash) && fresh(tidHash)
      ensures this.hash == hash
    {
      this.hash := hash;
      addrHash := new seq<nat>[size](_ => []);
      tidHash := new seq<nat>[size](_ => []);
      store := map[];
      new;
      assert View() == Empty(size);
      EmptyInv(hash, size);
      InvShape(Empty(size), hash);
    }

    method FindByInnerIp(ip: U32) returns (node: Option<nat>)
      requires Valid()
      ensures node == Find(View(), hash, ByInner(ip))
    {
      var chain := addrHash[Bucket(hash, ip, addrHash.Length)];
      var i := 0;
      while i < |chain|
        invariant i <= |chain|
        invariant Scan(store, chain, ByInner(ip)) == Scan(store, chain[i..], ByInner(ip))
      {
        if store[chain[i]].flow.innerIp == ip {
          return Some(chain[i]);
        }
        i := i + 1;
      }
      node := None;
    }

    method FindByUlInfo(dst: U32, tid: U32) returns (node: Option<nat>)
      requires Valid()
      ensures node == Find(View(), hash, ByUplink(dst, tid))
    {
      var chain := tidHash[Bucket(hash, tid, tidHash.Length)];
      var i := 0;
      while i < |chain|
        invariant i <= |chain|
        invariant Scan(store, chain, ByUplink(dst, tid)) == Scan(store, chain[i..], ByUplink(dst, tid))
      {
        var flow := store[chain[i]].flow;
        if flow.localTeid == tid && flow.localIp == dst {
          return Some(chain[i]);
        }
        i := i + 1;
      }
      node := None;
    }

    /** Writes over the record of a node that stays where it is. */
    method SetFlow(node: nat, flow: Flow)
      requires Valid() && node in store
      modifies this
      ensures View() == Overwrite(old(View()), node, flow)
    {
      store := store[node := store[node].(flow := flow)];
    }

    /** The tail of ipv4_flow_add: a node with cleared counters goes to the head of both chains. */
    method ThreadNode(node: nat, flow: Flow)
      requires Valid() && node !in store
      modifies this, addrHash, tidHash
      ensures View() == Insert(old(View()), hash, node, flow)
    {
      hide Inv;
      var hashTid := Bucket(hash, flow.localTeid, tidHash.Length);
      var hashMs := Bucket(hash, flow.innerIp, addrHash.Length);
      store := store[node := Node(flow.(encapBytes := 0, decapBytes := 0, flags := 0), hashTid)];
      addrHash[hashMs] := [node] + addrHash[hashMs];
      tidHash[hashTid] := [node] + tidHash[hashTid];
      assert addrHash[..] == old(addrHash[..])[hashMs := [node] + old(addrHash[hashMs])];
      assert tidHash[..] == old(tidHash[..])[hashTid := [node] + old(tidHash[hashTid])];
    }

    /** ipv4_flow_add; `mem` is what kmalloc returns. The map `m` is the table's meaning before. */
    method AddFlow(flow: Flow, mem: Option<nat>, ghost m: map<U32, Flow>) returns (ret: int)
      requires Valid() && Agrees(View(), m)
      requires mem.Some? ==> mem.value !in store
      modifies this, addrHash, tidHash
      ensures Valid()
      ensures (View(), ret) == Add(old(View()), hash, flow, mem)
      ensures Agrees(View(), MapNext(m, Event.AddFlow(flow, mem), None))
    {
      ghost var t := View();
      AddFacts(t, hash, m, flow, mem);
      hide Find, Scan, Inv, Agrees, Shape, Insert, MapNext, Overwrite, Bucket, View;
      var found := FindByInnerIp(flow.innerIp);
      if found.Some? {
        SetFlow(found.value, flow);
        ret := 0;
      } else if mem.None? {
        ret := ENOMEM;
      } else {
        ThreadNode(mem.value, flow);
        ret := 0;
      }
    }

    /** gtp_fl_node_delete: both chains let go of the node, and it is freed. */
    method DeleteNode(node: nat)
      requires Valid() && node in store
      modifies this, addrHash, tidHash
      ensures Valid() && View() == Remove(old(View()), hash, node)
    {
      RemoveInv(View(), hash, node);
      hide IndexOk;
      var slot, ms := store[node].slot, Bucket(hash, store[node].flow.innerIp, addrHash.Length);
      tidHash[slot] := Without(tidHash[slot], node);
      addrHash[ms] := Without(addrHash[ms], node);
      store := store - {node};
      assert View() == Remove(old(View()), hash, node);
      InvShape(View(), hash);
    }

    /** gtp_del_flow. */
    method DelFlow(flow: Flow, ghost m: map<U32, Flow>) returns (ret: int)
      requires Valid() && Agrees(View(), m)
      modifies this, addrHash, tidHash
      ensures Valid()
      ensures (View(), ret) == Del(old(View()), hash, flow.innerIp)
      ensures Agrees(View(), m - {flow.innerIp})
    {
      DelAgrees(View(), hash, m, flow.innerIp);
      var found := FindByInnerIp(flow.innerIp);
      if found.None? {
        return -1;
      }
      DeleteNode(found.value);
      ret := 0;
    }
  }
}

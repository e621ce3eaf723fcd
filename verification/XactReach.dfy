/** Runs that lead to particular states of the transaction layer: the identifier counter can be driven
    anywhere, a request can wait where no answer reaches it, and transactions can be left behind. */
module XactReach {
  import opened Options
  import opened GtpMessage
  import opened XactModel
  import opened XactInvariants

  // ---------------------------------------------------------------- driving the counter

  /** A peer that takes no part in anything else. */
  const ASIDE: Node := 1

  ghost predicate Uninvolved(s: Layer, node: Node) {
    forall i | i in s.pool :: s.pool[i].gnode != node
  }

  /** The two layers differ in the counter and in the order of unused indexes at most. */
  ghost predicate SameTransactions(s: Layer, t: Layer) {
    t.cfg == s.cfg && t.pool == s.pool && (forall key :: ListOf(t, key) == ListOf(s, key)) && (s.free != [] ==> t.free != [])
  }

  lemma NoList(s: Layer, node: Node, org: Org)
    requires ListsOk(s) && Uninvolved(s, node)
    ensures ListOf(s, ListKey(node, org)) == []
  {
    var key := ListKey(node, org);
    var l := ListOf(s, key);
    assert l == [] || l[0] in l;
    forall i: Index
      ensures i !in l
    {
      assert i in ListOf(s, key) <==> i in s.pool && KeyOf(s.pool[i]) == key;
    }
  }

  function Asked(s: Layer): Layer {
    LocalCreate(s, ASIDE, 32, 0, []).layer
  }

  lemma AskedIs(s: Layer)
    requires PoolOk(s) && ListsOk(s) && Uninvolved(s, ASIDE) && s.free != []
    ensures var t, n := Asked(s), s.free[0];
            && n !in s.pool && n in t.pool && t.pool - {n} == s.pool && t.pool[n].assoc.None?
            && KeyOf(t.pool[n]) == ListKey(ASIDE, Local)
            && t.cfg == s.cfg && t.xactId == NextId(s.xactId) && t.free == s.free[1..]
            && t.lists == s.lists[ListKey(ASIDE, Local) := [n]]
  {
    hide UpdateTx;
    NoList(s, ASIDE, Local);
    assert s.free[0] in s.free;
    var x := NewXact(s.cfg, Local, NextId(s.xactId), ASIDE);
    UpdateTxKeeps(x);
    assert ListOf(s, ListKey(ASIDE, Local)) + [s.free[0]] == [s.free[0]];
  }

  lemma UpdateTxKeeps(x: Xact)
    ensures var y := UpdateTx(x, 32, 0, []).1; y.assoc == x.assoc && SameIdentity(x, y)
  {
  }

  lemma DropOnly(t: Layer, n: Index, key: ListKey)
    requires n in t.pool && t.pool[n].assoc.None? && KeyOf(t.pool[n]) == key && ListOf(t, key) == [n]
    ensures var u := DropEach(t, ListOf(t, key));
            u == Layer(t.cfg, t.xactId, t.free + [n], t.pool - {n}, t.lists[key := []])
  {
    assert [n][1..] == [];
    assert Unlink([n], n) == [];
  }

  /** A request to the uninvolved peer, and all its transactions deleted again: only the counter moved. */
  lemma RoundIs(s: Layer)
    requires PoolOk(s) && ListsOk(s) && Uninvolved(s, ASIDE) && s.free != []
    ensures SameTransactions(s, DropAll(Asked(s), ASIDE)) && DropAll(Asked(s), ASIDE).xactId == NextId(s.xactId)
  {
    AskedIs(s);
    NoList(s, ASIDE, Local);
    NoList(s, ASIDE, Remote);
    hide PoolOk, ListsOk, Asked, NextId;
    var t, n := Asked(s), s.free[0];
    DropOnly(t, n, ListKey(ASIDE, Local));
    var u := DropEach(t, ListOf(t, ListKey(ASIDE, Local)));
    hide DropEach;
    assert ListOf(u, ListKey(ASIDE, Remote)) == ListOf(s, ListKey(ASIDE, Remote)) == [];
    DropNone(u);
  }

  lemma DropNone(u: Layer)
    ensures DropEach(u, []) == u
  {
  }

  lemma Round(s: Layer)
    requires Inv(s) && Uninvolved(s, ASIDE) && s.free != []
    ensures Inv(Asked(s)) && Inv(DropAll(Asked(s), ASIDE))
    ensures SameTransactions(s, DropAll(Asked(s), ASIDE)) && DropAll(Asked(s), ASIDE).xactId == NextId(s.xactId)
  {
    RoundIs(s);
    hide Inv, SameTransactions;
    LocalCreateInv(s, ASIDE, 32, 0, []);
    NextInv(Asked(s), DropAllEv(ASIDE), 0);
  }

  // ---------------------------------------------------------------- runs of one layer

  lemma Extend(cfg: Config, states: seq<Layer>, events: seq<Timed>, e: Event, now: nat)
    requires IsRun(cfg, states, events) && Enabled(states[|events|], e)
    ensures |states| == |events| + 1
    ensures IsRun(cfg, states + [Next(states[|events|], e, now)], events + [Timed(e, now)])
  {
    hide Enabled, Next;
  }

  /** One round as two steps of a run. */
  lemma RoundRun(cfg: Config, states: seq<Layer>, events: seq<Timed>) returns (states1: seq<Layer>, events1: seq<Timed>)
    requires |states| == |events| + 1
    requires IsRun(cfg, states, events) && Uninvolved(states[|events|], ASIDE) && states[|events|].free != []
    ensures IsRun(cfg, states1, events1) && |states1| == |events1| + 1
    ensures var s, t := states[|events|], states1[|events1|];
            SameTransactions(s, t) && t.xactId == NextId(s.xactId)
  {
    hide Inv, LocalCreate, DropAll, SameTransactions, IsRun, NextId;
    var s := states[|events|];
    RunInv(cfg, states, events, |events|);
    Round(s);
    var a, b := LocalCreateEv(ASIDE, 32, 0, []), DropAllEv(ASIDE);
    Extend(cfg, states, events, a, 0);
    Extend(cfg, states + [Asked(s)], events + [Timed(a, 0)], b, 0);
    states1, events1 := states + [Asked(s)] + [DropAll(Asked(s), ASIDE)], events + [Timed(a, 0)] + [Timed(b, 0)];
  }

  /** Rounds can bring a counter that has hardly been used to any identifier. */
  lemma {:induction false} DriveTo(cfg: Config, states: seq<Layer>, events: seq<Timed>, target: bv32)
    returns (states1: seq<Layer>, events1: seq<Timed>)
    requires |states| == |events| + 1
    requires IsRun(cfg, states, events) && Uninvolved(states[|events|], ASIDE) && states[|events|].free != []
    requires states[|events|].xactId == 0 || (states[|events|].xactId == 1 && 1 <= target)
    requires target <= MAX_XACT_ID
    ensures |states1| == |events1| + 1 && IsRun(cfg, states1, events1)
    ensures SameTransactions(states[|events|], states1[|events1|]) && states1[|events1|].xactId == target
    decreases target
  {
    hide IsRun;
    states1, events1 := states, events;
    if states[|events|].xactId != target {
      Before(target);
      states1, events1 := DriveTo(cfg, states, events, target - 1);
      states1, events1 := RoundRun(cfg, states1, events1);
    }
  }

  lemma Before(id: bv32)
    requires 0 < id <= MAX_XACT_ID
    ensures id - 1 < id && id - 1 <= MAX_XACT_ID && NextId(id - 1) == id && (id != 1 ==> 1 <= id - 1)
  {
  }

  // ---------------------------------------------------------------- requests no answer reaches

  /** A request (kind 32), or an answer (kind 33) that a create refuses, on any state with a free index. */
  lemma CreatedIs(s: Layer, node: Node, kind: Octet)
    requires Inv(s) && s.free != [] && (kind == 32 || kind == 33)
    ensures var r, n := LocalCreate(s, node, kind, 0, []), s.free[0];
            && n !in s.pool && r.layer.pool.Keys == s.pool.Keys + {n} && r.layer.pool - {n} == s.pool
            && r.xact == (if kind == 32 then Some(n) else None)
            && r.layer.xactId == NextId(s.xactId) && r.layer.free == s.free[1..]
            && ListOf(r.layer, ListKey(node, Local)) == ListOf(s, ListKey(node, Local)) + [n]
            && var x := r.layer.pool[n];
               x.org.Local? && x.gnode == node && x.xid == NextId(s.xactId) && x.step == (if kind == 32 then 1 else 0)
  {
    hide XactOk, BitOk, AssocOk, FirstOk, IdsOk, ListsOk, NextId;
    assert s.free[0] in s.free;
  }

  lemma Starts(cfg: Config)
    ensures IsRun(cfg, [InitialLayer(cfg)], [])
    ensures Uninvolved(InitialLayer(cfg), ASIDE) && InitialLayer(cfg).free != [] && InitialLayer(cfg).xactId == 0
  {
  }

  /** A run that leaves a request with identifier 0x800000 waiting. */
  lemma WaitingWithMax(cfg: Config) returns (states: seq<Layer>, events: seq<Timed>, i: Index)
    ensures IsRun(cfg, states, events) && |states| == |events| + 1
    ensures var s := states[|events|];
            i in s.pool && s.pool[i].org.Local? && s.pool[i].step == 1 && s.pool[i].xid == MAX_XACT_ID
  {
    hide IsRun, Inv, LocalCreate;
    Starts(cfg);
    states, events := DriveTo(cfg, [InitialLayer(cfg)], [], MAX_XACT_ID - 1);
    var s := states[|events|];
    RunInv(cfg, states, events, |events|);
    CreatedIs(s, 0, 32);
    Extend(cfg, states, events, LocalCreateEv(0, 32, 0, []), 0);
    i := s.free[0];
    states, events := states + [LocalCreate(s, 0, 32, 0, []).layer], events + [Timed(LocalCreateEv(0, 32, 0, []), 0)];
  }

  /** A run that leaves a request waiting behind one that was refused with the same identifier, once
      round the counter earlier. */
  lemma WaitingBehindRefused(cfg: Config) returns (states: seq<Layer>, events: seq<Timed>, i: Index)
    ensures IsRun(cfg, states, events) && |states| == |events| + 1
    ensures var s := states[|events|];
            && i in s.pool && s.pool[i].org.Local? && s.pool[i].step == 1 && s.pool[i].xid != MAX_XACT_ID
            && FirstWith(s.pool, ListOf(s, KeyOf(s.pool[i])), s.pool[i].xid) != Some(i)
  {
    hide IsRun, Inv, LocalCreate;
    var refused, ask := LocalCreateEv(0, 33, 0, []), LocalCreateEv(0, 32, 0, []);
    Starts(cfg);
    InitialInv(cfg);
    var s0 := InitialLayer(cfg);
    var n := s0.free[0];
    CreatedIs(s0, 0, 33);
    Extend(cfg, [s0], [], refused, 0);
    var s1 := LocalCreate(s0, 0, 33, 0, []).layer;
    assert [s0] + [s1] == [s0, s1] && [] + [Timed(refused, 0)] == [Timed(refused, 0)];
    assert s1.free == s0.free[1..] != [];
    states, events := DriveTo(cfg, [s0, s1], [Timed(refused, 0)], MAX_XACT_ID);
    var s2 := states[|events|];
    RunInv(cfg, states, events, |events|);
    CreatedIs(s2, 0, 32);
    Extend(cfg, states, events, ask, 0);
    var s3 := LocalCreate(s2, 0, 32, 0, []).layer;
    i := s2.free[0];
    assert s3.pool[n] == s1.pool[n] && n != i;
    states, events := states + [s3], events + [Timed(ask, 0)];
    var l := ListOf(s3, ListKey(0, Local));
    assert l == ListOf(s1, ListKey(0, Local)) + [i] && l[0] == n;
  }

  // ---------------------------------------------------------------- transactions left behind

  /** Events that can take transaction i out of step 0: its peer's transactions are deleted, a message is
      built for it, or an initial message with its identifier arrives from its peer. */
  predicate Wakes(s: Layer, e: Event, i: Index)
    requires i in s.pool
  {
    var x := s.pool[i];
    || (e.DropAllEv? && e.node == x.gnode)
    || (e.UpdateTxEv? && e.i == i)
    || (e.ReceiveEv? && x.org.Remote? && e.node == x.gnode && SqnToXid(e.sqn) == x.xid && StageOf(e.kind, x.xid) == Initial)
  }

  lemma ReceiveLeaves(s: Layer, node: Node, kind: Octet, sqn: bv32, now: nat, sendOk: bool, i: Index)
    requires Inv(s) && i in s.pool && s.pool[i].step == 0 && !Wakes(s, ReceiveEv(node, kind, sqn, sendOk), i)
    ensures var t := Receive(s, node, kind, sqn, now, sendOk).layer; i in t.pool && t.pool[i] == s.pool[i]
  {
    FreeNotUsed(s, i);
    var xid := SqnToXid(sqn);
    LookupHandled(s, node, kind, xid);
    assert XactOk(s.cfg, s.pool[i]);
    hide Inv, XactOk, UpdateRx, SqnToXid, FindByXid, StageOf, Handles;
    var found := FindByXid(s, node, kind, xid);
    if found == Some(i) {
      SleepsOn(s.cfg, s.pool[i], kind, now, sendOk);
    }
  }

  lemma FreeNotUsed(s: Layer, i: Index)
    requires PoolOk(s) && i in s.pool
    ensures s.free != [] ==> s.free[0] != i
  {
    assert s.free != [] ==> s.free[0] in s.free;
  }

  lemma SleepsOn(cfg: Config, x: Xact, kind: Octet, now: nat, sendOk: bool)
    requires XactOk(cfg, x) && x.step == 0 && Handles(x.org, StageOf(kind, x.xid))
    requires x.org.Remote? ==> StageOf(kind, x.xid) != Initial
    ensures UpdateRx(x, kind, now, sendOk).xact == x
  {
  }

  lemma {:induction false} DropEachLeaves(s: Layer, l: seq<Index>, i: Index)
    requires i in s.pool && i !in l
    ensures var t := DropEach(s, l);
            && i in t.pool && t.pool[i] == s.pool[i].(assoc := t.pool[i].assoc)
            && forall j | j in t.pool :: j in s.pool && KeyOf(t.pool[j]) == KeyOf(s.pool[j])
    decreases l
  {
    if l != [] {
      if l[0] in s.pool {
        DropLeaves(s, l[0], i);
        DropEachLeaves(Drop(s, l[0]), l[1..], i);
      } else {
        DropEachLeaves(s, l[1..], i);
      }
    }
  }

  lemma DropLeaves(s: Layer, k: Index, i: Index)
    requires i in s.pool && k in s.pool && i != k
    ensures var t := Drop(s, k);
            && i in t.pool && t.pool[i] == s.pool[i].(assoc := t.pool[i].assoc)
            && forall j | j in t.pool :: j in s.pool && KeyOf(t.pool[j]) == KeyOf(s.pool[j])
  {
  }

  lemma DropAllLeaves(s: Layer, node: Node, i: Index)
    requires ListsOk(s) && i in s.pool && s.pool[i].gnode != node && Inv(s)
    ensures var t := DropAll(s, node); i in t.pool && t.pool[i] == s.pool[i].(assoc := t.pool[i].assoc)
  {
    var t := DropEach(s, ListOf(s, ListKey(node, Local)));
    NotListed(s, i, ListKey(node, Local));
    DropEachLeaves(s, ListOf(s, ListKey(node, Local)), i);
    DropEachInv(s, ListOf(s, ListKey(node, Local)));
    NotListed(t, i, ListKey(node, Remote));
    hide Inv, ListsOk, DropEach;
    DropEachLeaves(t, ListOf(t, ListKey(node, Remote)), i);
  }

  lemma NotListed(s: Layer, i: Index, key: ListKey)
    requires ListsOk(s) && i in s.pool && s.pool[i].gnode != key.node
    ensures i !in ListOf(s, key)
  {
    assert i in ListOf(s, key) <==> i in s.pool && KeyOf(s.pool[i]) == key;
  }

  /** A transaction at step 0 stays as it is through every event that does not wake it: no timer runs for
      it and there is nothing to commit. */
  lemma NextLeaves(s: Layer, e: Event, now: nat, i: Index)
    requires Inv(s) && Enabled(s, e) && i in s.pool && s.pool[i].step == 0 && !Wakes(s, e, i)
    ensures var t := Next(s, e, now); i in t.pool && t.pool[i] == s.pool[i].(assoc := t.pool[i].assoc)
  {
    FreeNotUsed(s, i);
    hide Inv, LocalCreate, Receive, UpdateTx, Commit, Timeout, Apply, DropAll, StageOf, SqnToXid, Associate, Deassociate;
    match e
    case LocalCreateEv(node, kind, teid, body) => LocalCreateLeaves(s, node, kind, teid, body, i);
    case ReceiveEv(node, kind, sqn, sendOk) => ReceiveLeaves(s, node, kind, sqn, now, sendOk, i);
    case UpdateTxEv(j, _, _, _) =>
    case CommitEv(j, sendOk) => ApplyLeaves(s, j, Commit(s.pool[j], now, sendOk), i);
    case TimeoutEv(j, timer, sendOk) => ApplyLeaves(s, j, Timeout(s.pool[j], timer, now, sendOk), i);
    case AssociateEv(j, k) => PairingLeaves(s, j, k, i);
    case DeassociateEv(j, k) => PairingLeaves(s, j, k, i);
    case DropAllEv(node) => DropAllLeaves(s, node, i);
  }

  lemma LocalCreateLeaves(s: Layer, node: Node, kind: Octet, teid: bv32, body: seq<Octet>, i: Index)
    requires i in s.pool && (s.free != [] ==> s.free[0] != i)
    ensures var t := LocalCreate(s, node, kind, teid, body).layer; i in t.pool && t.pool[i] == s.pool[i]
  {
    hide UpdateTx;
  }

  lemma ApplyLeaves(s: Layer, j: Index, v: Verdict, i: Index)
    requires i in s.pool && j in s.pool && i != j
    ensures var t := Apply(s, j, v); i in t.pool && t.pool[i] == s.pool[i].(assoc := t.pool[i].assoc)
  {
    DropLeaves(s, j, i);
    hide Drop;
  }

  lemma SetAssocLeaves(p: map<Index, Xact>, j: Index, partner: Option<Index>, i: Index)
    requires i in p
    ensures var q := SetAssoc(p, j, partner); i in q && q[i] == p[i].(assoc := q[i].assoc)
  {
  }

  lemma PairingLeaves(s: Layer, j: Index, k: Index, i: Index)
    requires i in s.pool && j in s.pool && k in s.pool
    ensures var t := Associate(s, j, k); i in t.pool && t.pool[i] == s.pool[i].(assoc := t.pool[i].assoc)
    ensures var t := Deassociate(s, j, k); i in t.pool && t.pool[i] == s.pool[i].(assoc := t.pool[i].assoc)
  {
    SetAssocLeaves(s.pool, j, Some(k), i);
    SetAssocLeaves(SetAssoc(s.pool, j, Some(k)), k, Some(j), i);
    SetAssocLeaves(s.pool, j, None, i);
    SetAssocLeaves(SetAssoc(s.pool, j, None), k, None, i);
    hide SetAssoc;
  }

  /** So over any stretch of any run without such an event it is left behind, for good. */
  lemma {:induction false} LeftBehind(cfg: Config, states: seq<Layer>, events: seq<Timed>, a: nat, b: nat, i: Index)
    requires IsRun(cfg, states, events) && a <= b < |states|
    requires i in states[a].pool && states[a].pool[i].step == 0
    requires forall k | a <= k < b && i in states[k].pool :: !Wakes(states[k], events[k].event, i)
    ensures i in states[b].pool && states[b].pool[i] == states[a].pool[i].(assoc := states[b].pool[i].assoc)
    decreases b - a
  {
    hide Inv, Next, Enabled, Wakes;
    if a < b {
      LeftBehind(cfg, states, events, a, b - 1, i);
      RunInv(cfg, states, events, b - 1);
      assert states[b - 1 + 1] == Next(states[b - 1], events[b - 1].event, events[b - 1].now);
      NextLeaves(states[b - 1], events[b - 1].event, events[b - 1].now, i);
    }
  }

  /** An answer that matches no request: a transaction at step 0 more, an index less. */
  function Unmatched(): Event {
    ReceiveEv(0, 33, XidToSqn(1), true)
  }

  lemma UnmatchedIs(s: Layer)
    requires PoolOk(s) && s.free != [] && ListOf(s, ListKey(0, Local)) == []
    ensures var t := Next(s, Unmatched(), 0);
            && t.free == s.free[1..] && ListOf(t, ListKey(0, Local)) == []
            && t.pool == s.pool[s.free[0] := NewXact(s.cfg, Remote, 1, 0)]
  {
    XidRoundTrip(1);
    hide XidToSqn, SqnToXid;
    assert Bit23(1) == false;
    var x := NewXact(s.cfg, Remote, 1, 0);
    assert UpdateRx(x, 33, 0, true) == RxResult(Error, x, None);
  }

  /** Unmatched answers use the pool up: each costs an index, and from then on no request can be made. */
  lemma {:induction false} UsedUp(cfg: Config, states: seq<Layer>, events: seq<Timed>)
    returns (states1: seq<Layer>, events1: seq<Timed>)
    requires IsRun(cfg, states, events) && |states| == |events| + 1
    requires ListOf(states[|events|], ListKey(0, Local)) == []
    ensures IsRun(cfg, states1, events1) && |states1| == |events1| + 1
    ensures |events1| == |events| + |states[|events|].free| && states1[|events1|].free == []
    ensures forall node, kind, teid, body :: LocalCreate(states1[|events1|], node, kind, teid, body).xact == None
    decreases |states[|events|].free|
  {
    hide IsRun, Inv;
    var s := states[|events|];
    states1, events1 := states, events;
    if s.free != [] {
      RunInv(cfg, states, events, |events|);
      assert PoolOk(s) by {
        PoolOf(s);
      }
      hide Next, PoolOk;
      UnmatchedIs(s);
      Extend(cfg, states, events, Unmatched(), 0);
      states1, events1 := UsedUp(cfg, states + [Next(s, Unmatched(), 0)], events + [Timed(Unmatched(), 0)]);
    }
  }

  lemma PoolOf(s: Layer)
    requires Inv(s)
    ensures PoolOk(s)
  {
  }
}

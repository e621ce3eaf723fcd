/** What each operation of the transaction layer does, field by field: the records before and after are
    compared directly, and every outcome has its exact condition. */
module XactExact {
  import opened Options
  import opened GtpMessage
  import opened XactModel
  import opened XactInvariants

  // ---------------------------------------------------------------- sending

  /** The packet says what the application asked to be said, under the transaction's own identifier, and
      its length counts the body and the eight octets of the header behind the length field. */
  predicate Carries(p: Packet, xid: bv32, kind: Octet, teid: bv32, body: seq<Octet>) {
    p.kind == kind && p.teid == teid && p.body == body && p.length == (|body| + 8) % 0x1_0000 && SqnToXid(p.sqn) == xid
  }

  /** A message is built exactly at a position to send at whose stage it fits; then it is stored there with
      its tunnel id and body, and nothing else changes. */
  lemma UpdateTxExact(x: Xact, kind: Octet, teid: bv32, body: seq<Octet>)
    requires HistoryOk(x) && x.xid < 0x100_0000
    ensures var (status, y) := UpdateTx(x, kind, teid, body);
            var fits := x.step < 3 && TxPosition(x.org, x.step) && StageFits(x.org, x.step, StageOf(kind, x.xid));
            && status == (if fits then Ok else Error)
            && y == x.(step := y.step, hist := y.hist)
            && (!fits ==> y == x)
            && (fits ==>
                  && y.step == x.step + 1
                  && (forall k | 0 <= k < 3 && k != x.step :: y.hist[k] == x.hist[k])
                  && y.hist[x.step].kind == kind && y.hist[x.step].pkbuf.Some?
                  && Carries(y.hist[x.step].pkbuf.value, x.xid, kind, teid, body))
  {
    XidRoundTrip(x.xid);
    hide XidToSqn, SqnToXid, Bit23;
  }

  // ---------------------------------------------------------------- receiving

  /** The last message but one came again after its answer was stored. */
  predicate AnsweredBefore(x: Xact, kind: Octet) {
    || (x.org.Remote? && x.step == 2 && StageOf(kind, x.xid) == Initial && kind == x.hist[0].kind)
    || (x.org.Local? && x.step == 3 && StageOf(kind, x.xid) == Intermediate && kind == x.hist[1].kind)
  }

  /** The last message came again before there was an answer. */
  predicate StillUnanswered(x: Xact, kind: Octet) {
    || (x.org.Remote? && x.step == 1 && StageOf(kind, x.xid) == Initial && kind == x.hist[0].kind)
    || (x.org.Local? && x.step == 2 && StageOf(kind, x.xid) == Intermediate && kind == x.hist[1].kind)
  }

  predicate Acceptable(x: Xact, kind: Octet) {
    x.step < 3 && !TxPosition(x.org, x.step) && StageFits(x.org, x.step, StageOf(kind, x.xid))
  }

  function HeldUntil(t: Timer, expire: nat): Timer {
    if t.Absent? then Absent else Running(expire)
  }

  /** A message that fits the next position is accepted; one that was answered before has its answer sent
      again, and holding starts anew; one still unanswered is only recognised; anything else is an error. */
  lemma UpdateRxExact(x: Xact, kind: Octet, now: nat, sendOk: bool)
    requires HistoryOk(x)
    ensures var r := UpdateRx(x, kind, now, sendOk);
            && r.status == (if Acceptable(x, kind) then Ok
                            else if StillUnanswered(x, kind) || (AnsweredBefore(x, kind) && sendOk) then Again else Error)
            && (r.sent.Some? <==> AnsweredBefore(x, kind) && sendOk)
            && (r.sent.Some? ==> r.sent == x.hist[if x.org.Remote? then 1 else 2].pkbuf)
  {
  }

  /** The record after it. */
  lemma UpdateRxRecord(x: Xact, kind: Octet, now: nat, sendOk: bool)
    requires HistoryOk(x)
    ensures var y := UpdateRx(x, kind, now, sendOk).xact;
            if Acceptable(x, kind) then
              && y == x.(step := x.step + 1, hist := y.hist, tmResponse := if x.tmResponse.Absent? then Absent else Idle,
                         tmHolding := if StageOf(kind, x.xid) == Final then x.tmHolding else HeldUntil(x.tmHolding, now + 9000))
              && (forall k | 0 <= k < 3 && k != x.step :: y.hist[k] == x.hist[k]) && y.hist[x.step] == Slot(kind, None)
            else if AnsweredBefore(x, kind) then y == x.(tmHolding := HeldUntil(x.tmHolding, now + 9000))
            else y == x
  {
  }

  // ---------------------------------------------------------------- committing and timers

  /** The response timer starts exactly when an answer is awaited, for three seconds. */
  lemma CommitRecord(x: Xact, now: nat, sendOk: bool)
    requires HistoryOk(x) && x.step >= 1
    ensures var v := Commit(x, now, sendOk);
            && (v.Keep? ==> v.xact == if AwaitsAnswer(x) then x.(tmResponse := HeldUntil(x.tmResponse, now + 3000)) else x)
            && (v.Delete? ==> v.status == Ok)
            && (v.Keep? && v.status != Ok ==> v.sent.None? && v.status == Error)
  {
  }

  /** A response expiry, on time or overtaken, takes one try, starts the timer again and resends what was last
      sent; it deletes on the last try or when the send fails, and a holding expiry always deletes. */
  lemma TimeoutRecord(cfg: Config, x: Xact, event: TimerEvent, now: nat, sendOk: bool)
    requires XactOk(cfg, x) && Configured(cfg, event) && 1 <= x.step
    ensures var v, p := Timeout(x, event, now, sendOk), x.hist[x.step - 1].pkbuf;
            if event.HoldingTimeout? || x.responseRcount == 1 then v == Delete(Ok)
            else if p.Some? && !sendOk then v == Delete(Error)
            else v == Keep(if p.Some? then Ok else Error,
                           x.(responseRcount := x.responseRcount - 1, tmResponse := Running(now + 3000)), p)
  {
  }

  // ---------------------------------------------------------------- lookup

  /** Where a message that a transaction would accept is looked for: answers with bit 23 among the remote
      transactions, the others among the local ones. */
  predicate LookedFor(x: Xact, kind: Octet) {
    StageOf(kind, x.xid) == Final ==> (x.org.Remote? <==> Bit23(x.xid))
  }

  /** A message that fits the next position of a live transaction, with its identifier and from its peer, is
      accepted by it if and only if it is looked for in its list and no earlier entry has the identifier. */
  lemma NextMessageReaches(s: Layer, i: Index, kind: Octet, now: nat, sendOk: bool)
    requires Inv(s) && i in s.pool && Acceptable(s.pool[i], kind)
    ensures var x := s.pool[i];
            var r := Receive(s, x.gnode, kind, XidToSqn(x.xid), now, sendOk);
            var reaches := LookedFor(x, kind) && FirstWith(s.pool, ListOf(s, KeyOf(x)), x.xid) == Some(i);
            && (r.status == Ok && r.xact == Some(i) <==> reaches)
            && (!reaches ==> i in r.layer.pool && r.layer.pool[i] == x)
  {
    var x := s.pool[i];
    assert XactOk(s.cfg, x);
    XidRoundTrip(x.xid);
    UpdateRxExact(x, kind, now, sendOk);
    SearchedIs(x, kind);
    LookupHandled(s, x.gnode, kind, x.xid);
    FoundOr(s, x.gnode, kind, x.xid, i);
    hide Inv, XactOk, HistoryOk, XidToSqn, SqnToXid, UpdateRx, StageOf, Handles, LookedFor, Acceptable, FirstWith,
         SearchedList, FindByXid;
    FreshOther(s, i);
  }

  lemma FreshOther(s: Layer, i: Index)
    requires Inv(s) && i in s.pool
    ensures s.free != [] ==> s.free[0] != i
  {
    assert s.free != [] ==> s.free[0] in s.free;
  }

  /** Whether lookup finds a given transaction. */
  lemma FoundOr(s: Layer, node: Node, kind: Octet, xid: bv32, i: Index)
    requires Inv(s) && i in s.pool && s.pool[i].gnode == node && s.pool[i].xid == xid
    ensures FindByXid(s, node, kind, xid) == Some(i) <==>
            SearchedList(kind, xid) == Some(s.pool[i].org) && FirstWith(s.pool, ListOf(s, KeyOf(s.pool[i])), xid) == Some(i)
  {
    LookupHandled(s, node, kind, xid);
    hide Inv, StageOf, Handles, SearchedList, FirstWith;
  }

  lemma SearchedIs(x: Xact, kind: Octet)
    requires HistoryOk(x) && Acceptable(x, kind)
    ensures LookedFor(x, kind) <==> SearchedList(kind, x.xid) == Some(x.org)
  {
  }

  // ---------------------------------------------------------------- association and deletion

  /** Two free transactions become partners; if either has a partner nothing happens. */
  lemma AssociateExact(s: Layer, i: Index, j: Index)
    requires i in s.pool && j in s.pool
    ensures var t := Associate(s, i, j);
            if s.pool[i].assoc.Some? || s.pool[j].assoc.Some? then t == s
            else
              && t == s.(pool := t.pool) && t.pool.Keys == s.pool.Keys
              && t.pool[i] == s.pool[i].(assoc := Some(j)) && t.pool[j] == s.pool[j].(assoc := Some(i))
              && forall k | k in s.pool && k != i && k != j :: t.pool[k] == s.pool[k]
  {
  }

  /** Two transactions that both have a partner lose it; otherwise nothing happens. */
  lemma DeassociateRecord(s: Layer, i: Index, j: Index)
    requires i in s.pool && j in s.pool
    ensures var t := Deassociate(s, i, j);
            if s.pool[i].assoc.None? || s.pool[j].assoc.None? then t == s
            else
              && t == s.(pool := t.pool) && t.pool.Keys == s.pool.Keys
              && t.pool[i] == s.pool[i].(assoc := None) && t.pool[j] == s.pool[j].(assoc := None)
              && forall k | k in s.pool && k != i && k != j :: t.pool[k] == s.pool[k]
  {
  }

  /** A transaction once its partners among `gone` are deleted. */
  function Widowed(x: Xact, gone: set<Index>): Xact {
    if x.assoc.Some? && x.assoc.value in gone then x.(assoc := None) else x
  }

  /** Exactly the transactions `gone` are no longer there, and the others are as they were but for partners
      among them. */
  ghost predicate Lost(s: Layer, t: Layer, gone: set<Index>) {
    t.pool.Keys == s.pool.Keys - gone && t.xactId == s.xactId && forall j | j in t.pool :: t.pool[j] == Widowed(s.pool[j], gone)
  }

  lemma LostTwice(s: Layer, u: Layer, t: Layer, a: set<Index>, b: set<Index>)
    requires Lost(s, u, a) && Lost(u, t, b)
    ensures Lost(s, t, a + b)
  {
    forall j | j in t.pool
      ensures t.pool[j] == Widowed(s.pool[j], a + b)
    {
      assert j in u.pool && u.pool[j] == Widowed(s.pool[j], a);
    }
  }

  /** Deleting one transaction frees its partner and its index, and touches nothing else. */
  lemma DropExact(s: Layer, i: Index)
    requires Inv(s) && i in s.pool
    ensures Lost(s, Drop(s, i), {i}) && Drop(s, i).free == s.free + [i] && Drop(s, i).cfg == s.cfg
  {
    hide PoolOk, ListsOk, FirstOk, IdsOk, XactOk, BitOk, Unlink;
    if s.pool[i].assoc.Some? {
      DeassociateRecord(s, i, s.pool[i].assoc.value);
      hide Deassociate;
    }
  }

  /** The lists keep their order. */
  lemma DropOrder(s: Layer, i: Index, key: ListKey, k: nat)
    requires Inv(s) && i in s.pool && k < |ListOf(s, key)|
    ensures var l := ListOf(s, key);
            && (key != KeyOf(s.pool[i]) ==> ListOf(Drop(s, i), key) == l)
            && (l[k] == i ==> ListOf(Drop(s, i), key) == l[..k] + l[k + 1..])
  {
    var l := ListOf(s, key);
    assert NoDup(l);
    UnlinkOrder(l, i, k);
    assert i in ListOf(s, key) <==> KeyOf(s.pool[i]) == key;
    hide Inv, NoDup, Unlink;
  }

  lemma {:induction false} UnlinkOrder(l: seq<Index>, i: Index, k: nat)
    requires NoDup(l) && k < |l|
    ensures l[k] == i ==> Unlink(l, i) == l[..k] + l[k + 1..]
  {
    if k > 0 && l[k] == i {
      assert NoDup(l[1..]);
      UnlinkOrder(l[1..], i, k - 1);
      assert [l[0]] + (l[1..][..k - 1] + l[1..][k..]) == l[..k] + l[k + 1..];
    }
  }

  function Members(l: seq<Index>): set<Index> {
    set i | i in l
  }

  lemma {:induction false} DropEachExact(s: Layer, l: seq<Index>)
    requires Inv(s) && NoDup(l) && forall i | i in l :: i in s.pool
    ensures Lost(s, DropEach(s, l), Members(l)) && DropEach(s, l).free == s.free + l
    decreases l
  {
    hide Inv, Drop, Lost;
    if l == [] {
      LostNone(s);
      assert Members(l) == {} && s.free + l == s.free;
    } else {
      var u := Drop(s, l[0]);
      DropExact(s, l[0]);
      DropInv(s, l[0]);
      assert l == [l[0]] + l[1..] && Members(l) == {l[0]} + Members(l[1..]);
      assert forall i | i in l[1..] :: i in u.pool by {
        TailStays(s, u, l);
      }
      DropEachExact(u, l[1..]);
      LostTwice(s, u, DropEach(u, l[1..]), {l[0]}, Members(l[1..]));
      assert s.free + [l[0]] + l[1..] == s.free + l;
    }
  }

  lemma LostNone(s: Layer)
    ensures Lost(s, s, {})
  {
  }

  lemma TailStays(s: Layer, u: Layer, l: seq<Index>)
    requires l != [] && NoDup(l) && (forall i | i in l :: i in s.pool) && Lost(s, u, {l[0]})
    ensures forall i | i in l[1..] :: i in u.pool
  {
    assert l[0] !in l[1..];
  }

  ghost function OfPeer(s: Layer, node: Node): set<Index> {
    set i | i in s.pool && s.pool[i].gnode == node
  }

  /** Deleting all of a peer's transactions leaves exactly the others, as they were but for their partners. */
  lemma DropAllExact(s: Layer, node: Node)
    requires Inv(s)
    ensures Lost(s, DropAll(s, node), OfPeer(s, node))
  {
    hide Inv, DropEach, Lost;
    var a := ListOf(s, ListKey(node, Local));
    var u := DropEach(s, a);
    ListIs(s, node, Local);
    DropEachExact(s, a);
    DropEachInv(s, a);
    var b := ListOf(u, ListKey(node, Remote));
    ListIs(u, node, Remote);
    DropEachExact(u, b);
    LostTwice(s, u, DropEach(u, b), Members(a), Members(b));
    BothLists(s, u, node, a, b);
  }

  lemma BothLists(s: Layer, u: Layer, node: Node, a: seq<Index>, b: seq<Index>)
    requires Lost(s, u, Members(a))
    requires forall i: Index :: i in a <==> i in s.pool && s.pool[i].gnode == node && s.pool[i].org == Local
    requires forall i: Index :: i in b <==> i in u.pool && u.pool[i].gnode == node && u.pool[i].org == Remote
    ensures Members(a) + Members(b) == OfPeer(s, node)
  {
    forall i: Index
      ensures i in Members(a) + Members(b) <==> i in OfPeer(s, node)
    {
      assert i in u.pool ==> u.pool[i] == Widowed(s.pool[i], Members(a));
    }
  }

  lemma ListIs(s: Layer, node: Node, org: Org)
    requires Inv(s)
    ensures var l := ListOf(s, ListKey(node, org));
            NoDup(l) && forall i: Index :: i in l <==> i in s.pool && s.pool[i].gnode == node && s.pool[i].org == org
  {
    var key := ListKey(node, org);
    assert NoDup(ListOf(s, key));
    forall i: Index
      ensures i in ListOf(s, key) <==> i in s.pool && s.pool[i].gnode == node && s.pool[i].org == org
    {
      assert i in ListOf(s, key) <==> i in s.pool && KeyOf(s.pool[i]) == key;
    }
  }
}

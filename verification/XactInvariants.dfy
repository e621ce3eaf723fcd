/** Invariants of the transaction layer, over every run of its operations. */
module XactInvariants {
  import opened Options
  import opened GtpMessage
  import opened XactModel

  // ---------------------------------------------------------------- one transaction

  /** Positions of the history that a transaction fills by sending: local 0 and 2, remote 1. */
  predicate TxPosition(org: Org, k: nat) {
    if org.Local? then k % 2 == 0 else k % 2 == 1
  }

  /** The stages a message recorded at position k can have. */
  predicate StageFits(org: Org, k: nat, stage: Stage) {
    if k == 0 then stage == Initial
    else if k == 1 then stage == Intermediate || stage == Final
    else stage == Final
  }

  ghost predicate HistoryOk(x: Xact) {
    && x.step <= 3
    && (forall k {:trigger x.hist[k]} | 0 <= k < 3 ::
          && (x.hist[k].kind != 0 <==> k < x.step)
          && (k < x.step ==> StageFits(x.org, k, StageOf(x.hist[k].kind, x.xid)))
          && (x.hist[k].pkbuf.Some? <==> k < x.step && TxPosition(x.org, k)))
  }

  /** A stored packet is addressed with the transaction's own identifier and recorded type. */
  ghost predicate PacketsOk(x: Xact) {
    forall k {:trigger x.hist[k]} | 0 <= k < 3 && x.hist[k].pkbuf.Some? ::
      x.hist[k].pkbuf.value.sqn == XidToSqn(x.xid) && x.hist[k].pkbuf.value.kind == x.hist[k].kind
  }

  /** When an answer is awaited: a local transaction that has sent its request, or a remote one that
      has answered a command with a bearer request. */
  predicate AwaitsAnswer(x: Xact) {
    || (x.org.Local? && x.step == 1)
    || (x.org.Remote? && x.step == 2 && StageOf(x.hist[1].kind, x.xid) == Intermediate)
  }

  ghost predicate TimersOk(cfg: Config, x: Xact) {
    && (x.tmResponse.Absent? <==> !cfg.response)
    && (x.tmHolding.Absent? <==> !cfg.holding)
    && (x.tmResponse.Running? ==> AwaitsAnswer(x))
    && (x.tmHolding.Running? ==> 1 <= x.step)
    && (if cfg.response then 1 <= x.responseRcount <= RESPONSE_RETRY_COUNT else x.responseRcount == 0)
    && (cfg.holding ==> x.holdingRcount == HOLDING_RETRY_COUNT)
  }

  ghost predicate XactOk(cfg: Config, x: Xact) {
    HistoryOk(x) && PacketsOk(x) && TimersOk(cfg, x)
  }

  /** Bit 23 of the identifier decides the shape of an exchange: without it a remote transaction
      stops at its answer and a local one is ended by it; with it a local transaction can only be
      answered by an intermediate request. */
  ghost predicate BitOk(x: Xact) {
    && (x.org.Remote? && x.step == 3 ==> Bit23(x.xid))
    && (x.org.Local? && x.step >= 2 ==> (Bit23(x.xid) <==> StageOf(x.hist[1].kind, x.xid) == Intermediate))
  }

  lemma NewXactOk(cfg: Config, org: Org, xid: bv32, node: Node)
    ensures XactOk(cfg, NewXact(cfg, org, xid, node)) && BitOk(NewXact(cfg, org, xid, node))
  {
  }

  lemma UpdateTxOk(cfg: Config, x: Xact, kind: Octet, teid: bv32, body: seq<Octet>)
    requires XactOk(cfg, x)
    ensures XactOk(cfg, UpdateTx(x, kind, teid, body).1)
    ensures BitOk(x) ==> BitOk(UpdateTx(x, kind, teid, body).1)
  {
  }

  lemma AdvanceOk(cfg: Config, x: Xact, kind: Octet)
    requires XactOk(cfg, x) && x.step < 3 && !TxPosition(x.org, x.step)
    requires StageFits(x.org, x.step, StageOf(kind, x.xid))
    ensures XactOk(cfg, Advance(x, kind).xact)
  {
  }

  lemma HoldOk(cfg: Config, x: Xact, now: nat)
    requires XactOk(cfg, x) && 1 <= x.step
    ensures XactOk(cfg, Hold(x, now))
  {
  }

  /** What a received message can do to a transaction: nothing, restart holding, or advance it by one
      step, restarting holding exactly when the message is a request. */
  lemma UpdateRxCases(x: Xact, kind: Octet, now: nat, sendOk: bool)
    requires HistoryOk(x)
    ensures var r := UpdateRx(x, kind, now, sendOk);
            var stage := StageOf(kind, x.xid);
            && (r.status == Ok <==> x.step < 3 && !TxPosition(x.org, x.step) && StageFits(x.org, x.step, stage))
            && if r.status == Ok then
              && r.sent.None?
              && r.xact == if stage == Final then Advance(x, kind).xact else Hold(Advance(x, kind).xact, now)
            else
              && (r.xact == x || (1 <= x.step && r.xact == Hold(x, now)))
              && (r.sent.Some? ==> 2 <= x.step && r.xact == Hold(x, now) && stage != Final
                                   && r.sent == x.hist[if x.org.Local? then 2 else 1].pkbuf)
  {
  }

  lemma UpdateRxOk(cfg: Config, x: Xact, kind: Octet, now: nat, sendOk: bool)
    requires XactOk(cfg, x) && BitOk(x)
    ensures XactOk(cfg, UpdateRx(x, kind, now, sendOk).xact)
    ensures SearchedList(kind, x.xid) == Some(x.org) || x.step == 0 ==> BitOk(UpdateRx(x, kind, now, sendOk).xact)
  {
    UpdateRxCases(x, kind, now, sendOk);
    var r := UpdateRx(x, kind, now, sendOk);
    if r.status == Ok {
      AdvanceOk(cfg, x, kind);
      HoldOk(cfg, Advance(x, kind).xact, now);
    } else if r.xact != x {
      HoldOk(cfg, x, now);
    }
  }

  /** Every commit that gets as far as sending has a packet to send; the only refusals left are the
      ones for a transaction whose last message was received and does not end the exchange. */
  lemma CommitCases(x: Xact, now: nat, sendOk: bool)
    requires HistoryOk(x) && x.step >= 1
    ensures var v := Commit(x, now, sendOk);
            && (v.Keep? && v.status == Ok <==> sendOk && TxPosition(x.org, x.step - 1))
            && (v.Keep? && v.status == Ok ==> v.sent == x.hist[x.step - 1].pkbuf && v.sent.Some?)
            && (v.Delete? <==> !TxPosition(x.org, x.step - 1) && StageOf(x.hist[x.step - 1].kind, x.xid) == Final)
            && (v.Keep? ==> v.xact == if AwaitsAnswer(x) then Await(x, now) else x)
  {
  }

  function Await(x: Xact, now: nat): Xact {
    x.(tmResponse := Start(x.tmResponse, now, RESPONSE_DURATION))
  }

  lemma CommitOk(cfg: Config, x: Xact, now: nat, sendOk: bool)
    requires XactOk(cfg, x) && x.step >= 1
    ensures var v := Commit(x, now, sendOk);
            v.Keep? ==> XactOk(cfg, v.xact) && (BitOk(x) ==> BitOk(v.xact))
  {
    hide Commit;
    CommitCases(x, now, sendOk);
  }

  predicate Configured(cfg: Config, event: TimerEvent) {
    if event.ResponseTimeout? then cfg.response else cfg.holding
  }

  /** A timer event does no harm when it is the holding timer's, when an answer is awaited, or when it
      deletes the transaction anyway. */
  predicate TimeoutSafe(x: Xact, event: TimerEvent, sendOk: bool)
    requires 1 <= x.step <= 3
  {
    event.HoldingTimeout? || AwaitsAnswer(x) || x.responseRcount == 1 || (x.hist[x.step - 1].pkbuf.Some? && !sendOk)
  }

  /** The event of a timer that is running is one of these, and always finds a packet to resend. */
  lemma RunningIsSafe(cfg: Config, x: Xact, event: TimerEvent, sendOk: bool)
    requires XactOk(cfg, x)
    requires if event.ResponseTimeout? then x.tmResponse.Running? else x.tmHolding.Running?
    ensures Configured(cfg, event) && 1 <= x.step <= 3 && TimeoutSafe(x, event, sendOk)
    ensures event.ResponseTimeout? ==> x.hist[x.step - 1].pkbuf.Some?
  {
  }

  /** The counters of a live transaction never reach zero: the third response expiry and the first holding
      expiry delete it instead. */
  lemma TimeoutOk(cfg: Config, x: Xact, event: TimerEvent, now: nat, sendOk: bool)
    requires XactOk(cfg, x) && Configured(cfg, event) && 1 <= x.step && TimeoutSafe(x, event, sendOk)
    ensures var v := Timeout(x, event, now, sendOk);
            && (v.Keep? ==> XactOk(cfg, v.xact) && (BitOk(x) ==> BitOk(v.xact)) && event.ResponseTimeout?
                            && v.xact.responseRcount + 1 == x.responseRcount && v.xact.holdingRcount == x.holdingRcount
                            && v.status == Ok && v.sent.Some? && v.sent == x.hist[x.step - 1].pkbuf)
            && (v.Delete? <==> event.HoldingTimeout? || x.responseRcount == 1 || !sendOk)
  {
  }

  /** An event that was overtaken, by the answer or by a commit, restarts the timer of a transaction that
      awaits nothing, exactly when it is not one of these. */
  lemma StaleTimeout(cfg: Config, x: Xact, event: TimerEvent, now: nat, sendOk: bool)
    requires XactOk(cfg, x) && Configured(cfg, event) && 1 <= x.step && !TimeoutSafe(x, event, sendOk)
    ensures var v := Timeout(x, event, now, sendOk);
            v.Keep? && !XactOk(cfg, v.xact) && v.xact.tmResponse.Running? && !AwaitsAnswer(v.xact)
  {
  }

  // ---------------------------------------------------------------- the layer

  ghost predicate NoDup(l: seq<Index>) {
    forall a, b | 0 <= a < b < |l| :: l[a] != l[b]
  }

  /** Every pool index is either free, once, or in use. */
  ghost predicate PoolOk(s: Layer) {
    && NoDup(s.free)
    && (forall i | i in s.free :: i !in s.pool)
    && (forall i: Index :: 1 <= i <= POOL_SIZE <==> i in s.pool || i in s.free)
  }

  /** The lists partition the transactions in use: each is exactly once in the list its peer and its
      originator select, and in no other. */
  ghost predicate ListsOk(s: Layer) {
    && (forall key :: NoDup(ListOf(s, key)))
    && (forall key, i :: i in ListOf(s, key) <==> i in s.pool && KeyOf(s.pool[i]) == key)
  }

  /** Association is symmetric, and never refers to a deleted transaction. */
  ghost predicate AssocOk(s: Layer) {
    forall i | i in s.pool && s.pool[i].assoc.Some? ::
      s.pool[i].assoc.value in s.pool && s.pool[s.pool[i].assoc.value].assoc == Some(i)
  }

  /** A remote transaction that has recorded a message is the one lookup finds for its identifier.
      Hence at most one per peer and identifier has; later entries are still at step 0. */
  ghost predicate FirstOk(s: Layer) {
    forall i | i in s.pool && s.pool[i].org.Remote? && s.pool[i].step >= 1 ::
      FirstWith(s.pool, ListOf(s, KeyOf(s.pool[i])), s.pool[i].xid) == Some(i)
  }

  ghost predicate IdsOk(s: Layer) {
    && s.xactId <= MAX_XACT_ID
    && (forall i | i in s.pool && s.pool[i].org.Local? :: MIN_XACT_ID <= s.pool[i].xid <= MAX_XACT_ID)
    && (forall i | i in s.pool :: s.pool[i].xid < 0x100_0000)
  }

  ghost predicate Inv(s: Layer) {
    && PoolOk(s) && ListsOk(s) && AssocOk(s) && FirstOk(s) && IdsOk(s)
    && (forall i | i in s.pool :: XactOk(s.cfg, s.pool[i]) && BitOk(s.pool[i]))
  }

  /** Two remote transactions of one peer with the same identifier cannot both be under way. */
  lemma AtMostOneUnderWay(s: Layer, i: Index, j: Index)
    requires Inv(s)
    requires i in s.pool && s.pool[i].org.Remote? && s.pool[i].step >= 1
    requires j in s.pool && s.pool[j].org.Remote? && s.pool[j].step >= 1
    requires s.pool[i].gnode == s.pool[j].gnode && s.pool[i].xid == s.pool[j].xid
    ensures i == j
  {
  }

  /** An exchange of three messages needs an intermediate request, and that needs bit 23: of the requests a
      node makes itself only the one with identifier 0x800000 can be answered by one. */
  lemma ThreeMessagesNeedMax(s: Layer, i: Index, kind: Octet)
    requires Inv(s) && i in s.pool && s.pool[i].org.Local? && StageOf(kind, s.pool[i].xid) == Intermediate
    ensures s.pool[i].xid == MAX_XACT_ID
  {
    Bit23OfLocalIds(s.pool[i].xid);
  }

  // Lookup depends only on which listed indexes are in use and on their identifiers.

  lemma {:induction false} FirstWithSame(p: map<Index, Xact>, q: map<Index, Xact>, l: seq<Index>, xid: bv32)
    requires forall i | i in l :: (i in p <==> i in q) && (i in p ==> p[i].xid == q[i].xid)
    ensures FirstWith(p, l, xid) == FirstWith(q, l, xid)
  {
    if l != [] {
      FirstWithSame(p, q, l[1..], xid);
    }
  }

  lemma {:induction false} FirstWithAppend(p: map<Index, Xact>, l: seq<Index>, i: Index, xid: bv32)
    ensures FirstWith(p, l, xid).Some? ==> FirstWith(p, l + [i], xid) == FirstWith(p, l, xid)
    ensures FirstWith(p, l, xid).None? && i in p && p[i].xid == xid ==> FirstWith(p, l + [i], xid) == Some(i)
  {
    if l != [] {
      assert (l + [i])[1..] == l[1..] + [i];
      FirstWithAppend(p, l[1..], i, xid);
    }
  }

  lemma {:induction false} FirstWithUnlink(p: map<Index, Xact>, l: seq<Index>, i: Index, xid: bv32)
    requires FirstWith(p, l, xid).Some? && FirstWith(p, l, xid) != Some(i)
    ensures FirstWith(p - {i}, Unlink(l, i), xid) == FirstWith(p, l, xid)
  {
    if l[0] == i {
      FirstWithStaysFirst(p, l[1..], i, xid);
    } else if !(l[0] in p && p[l[0]].xid == xid) {
      FirstWithUnlink(p, l[1..], i, xid);
    }
  }

  lemma {:induction false} FirstWithStaysFirst(p: map<Index, Xact>, l: seq<Index>, i: Index, xid: bv32)
    requires FirstWith(p, l, xid).Some? && FirstWith(p, l, xid) != Some(i)
    ensures FirstWith(p - {i}, l, xid) == FirstWith(p, l, xid)
  {
    if !(l[0] in p && p[l[0]].xid == xid) {
      FirstWithStaysFirst(p, l[1..], i, xid);
    }
  }

  lemma {:induction false} UnlinkSubset(l: seq<Index>, i: Index)
    ensures forall j :: j in Unlink(l, i) ==> j in l
    ensures forall j :: j in l && j != i ==> j in Unlink(l, i)
  {
    if l != [] {
      UnlinkSubset(l[1..], i);
      assert l == [l[0]] + l[1..];
    }
  }

  lemma {:induction false} UnlinkMembers(l: seq<Index>, i: Index)
    requires NoDup(l)
    ensures NoDup(Unlink(l, i))
    ensures forall j :: j in Unlink(l, i) <==> j in l && j != i
  {
    UnlinkSubset(l, i);
    if l != [] {
      var u := Unlink(l[1..], i);
      UnlinkSubset(l[1..], i);
      UnlinkMembers(l[1..], i);
      assert l[0] !in l[1..];
      assert forall b | 0 < b < |u| + 1 :: ([l[0]] + u)[b] == u[b - 1];
    }
  }

  // ---------------------------------------------------------------- primitive changes keep the invariant

  ghost predicate SameIdentity(x: Xact, y: Xact) {
    x.org == y.org && x.xid == y.xid && x.gnode == y.gnode
  }

  /** The pool changed, but neither which indexes are in use nor who they belong to. */
  ghost predicate SameShape(s: Layer, t: Layer) {
    && t.cfg == s.cfg && t.free == s.free && t.lists == s.lists && t.pool.Keys == s.pool.Keys
    && (forall i | i in s.pool :: SameIdentity(s.pool[i], t.pool[i]))
  }

  lemma SameShapeLists(s: Layer, t: Layer)
    requires SameShape(s, t) && PoolOk(s) && ListsOk(s)
    ensures PoolOk(t) && ListsOk(t)
  {
    forall key
      ensures ListOf(t, key) == ListOf(s, key) && NoDup(ListOf(t, key))
    {
      assert NoDup(ListOf(s, key));
    }
    forall key, i
      ensures i in ListOf(t, key) <==> i in t.pool && KeyOf(t.pool[i]) == key
    {
      assert i in ListOf(s, key) <==> i in s.pool && KeyOf(s.pool[i]) == key;
    }
  }

  lemma SameShapeFirst(s: Layer, t: Layer)
    requires SameShape(s, t) && FirstOk(s)
    requires forall i | i in t.pool && t.pool[i].org.Remote? && t.pool[i].step >= 1 && s.pool[i].step == 0 ::
               FirstWith(s.pool, ListOf(s, KeyOf(t.pool[i])), t.pool[i].xid) == Some(i)
    ensures FirstOk(t)
  {
    forall i | i in t.pool && t.pool[i].org.Remote? && t.pool[i].step >= 1
      ensures FirstWith(t.pool, ListOf(t, KeyOf(t.pool[i])), t.pool[i].xid) == Some(i)
    {
      FirstWithSame(s.pool, t.pool, ListOf(s, KeyOf(t.pool[i])), t.pool[i].xid);
    }
  }

  lemma SameShapeIds(s: Layer, t: Layer)
    requires SameShape(s, t) && IdsOk(s) && t.xactId == s.xactId
    ensures IdsOk(t)
  {
    forall i | i in t.pool
      ensures t.pool[i].xid < 0x100_0000
      ensures t.pool[i].org.Local? ==> MIN_XACT_ID <= t.pool[i].xid <= MAX_XACT_ID
    {
      assert SameIdentity(s.pool[i], t.pool[i]);
    }
  }

  /** Overwriting a transaction is safe when it only leaves step 0 as the one lookup finds. */
  lemma PutInv(s: Layer, i: Index, x: Xact)
    requires Inv(s) && i in s.pool && SameIdentity(s.pool[i], x) && s.pool[i].assoc == x.assoc
    requires XactOk(s.cfg, x) && BitOk(x)
    requires x.org.Remote? && x.step >= 1 && s.pool[i].step == 0
             ==> FirstWith(s.pool, ListOf(s, KeyOf(x)), x.xid) == Some(i)
    ensures Inv(Put(s, i, x))
  {
    hide XactOk, BitOk, PoolOk, ListsOk, FirstOk, IdsOk;
    var t := Put(s, i, x);
    assert t.pool.Keys == s.pool.Keys;
    SameShapeLists(s, t);
    SameShapeFirst(s, t);
    SameShapeIds(s, t);
  }

  lemma CreateLists(s: Layer, org: Org, xid: bv32, node: Node)
    requires PoolOk(s) && ListsOk(s) && s.free != []
    ensures PoolOk(Create(s, org, xid, node)) && ListsOk(Create(s, org, xid, node))
  {
    var t, n, own := Create(s, org, xid, node), s.free[0], ListKey(node, org);
    assert n in s.free && n !in s.pool;
    assert forall i :: i in s.free <==> i == n || i in t.free;
    forall key
      ensures NoDup(ListOf(t, key))
    {
      assert NoDup(ListOf(s, key)) && n !in ListOf(s, key);
      if key == own {
        var l := ListOf(s, key);
        assert ListOf(t, key) == l + [n];
        assert forall a | 0 <= a < |l| :: l[a] in l;
      }
    }
    forall key, i
      ensures i in ListOf(t, key) <==> i in t.pool && KeyOf(t.pool[i]) == key
    {
      assert i in ListOf(s, key) <==> i in s.pool && KeyOf(s.pool[i]) == key;
    }
  }

  lemma CreateFirst(s: Layer, org: Org, xid: bv32, node: Node)
    requires PoolOk(s) && ListsOk(s) && FirstOk(s) && s.free != []
    ensures FirstOk(Create(s, org, xid, node))
  {
    var t, n := Create(s, org, xid, node), s.free[0];
    assert n in s.free && n !in s.pool;
    forall j | j in t.pool && t.pool[j].org.Remote? && t.pool[j].step >= 1
      ensures FirstWith(t.pool, ListOf(t, KeyOf(t.pool[j])), t.pool[j].xid) == Some(j)
    {
      var key, x := KeyOf(t.pool[j]), t.pool[j];
      FirstWithSame(s.pool, t.pool, ListOf(s, key), x.xid);
      FirstWithAppend(t.pool, ListOf(s, key), n, x.xid);
    }
  }

  lemma CreateInv(s: Layer, org: Org, xid: bv32, node: Node)
    requires Inv(s) && s.free != []
    requires xid < 0x100_0000 && (org.Local? ==> MIN_XACT_ID <= xid <= MAX_XACT_ID)
    ensures Inv(Create(s, org, xid, node))
  {
    hide XactOk, BitOk, ListsOk, FirstOk;
    NewXactOk(s.cfg, org, xid, node);
    CreateLists(s, org, xid, node);
    CreateFirst(s, org, xid, node);
    assert s.free[0] in s.free;
  }

  /** Rewriting association fields leaves everything but the matching itself alone. */
  lemma ReassocInv(s: Layer, t: Layer)
    requires Inv(s) && t == s.(pool := t.pool) && t.pool.Keys == s.pool.Keys
    requires forall i | i in s.pool :: t.pool[i] == s.pool[i].(assoc := t.pool[i].assoc)
    requires AssocOk(t)
    ensures Inv(t)
  {
    hide XactOk, BitOk, PoolOk, ListsOk, FirstOk, IdsOk;
    SameShapeLists(s, t);
    SameShapeFirst(s, t);
    SameShapeIds(s, t);
    forall j | j in t.pool
      ensures XactOk(s.cfg, t.pool[j]) && BitOk(t.pool[j])
    {
      assert XactOk(s.cfg, s.pool[j]) && BitOk(s.pool[j]);
      AssocIrrelevant(s.cfg, s.pool[j], t.pool[j].assoc);
    }
  }

  lemma AssocIrrelevant(cfg: Config, x: Xact, partner: Option<Index>)
    requires XactOk(cfg, x) && BitOk(x)
    ensures XactOk(cfg, x.(assoc := partner)) && BitOk(x.(assoc := partner))
  {
  }

  lemma AssociateInv(s: Layer, i: Index, j: Index)
    requires Inv(s) && i in s.pool && j in s.pool
    ensures Inv(Associate(s, i, j))
  {
    hide XactOk, BitOk, PoolOk, ListsOk, FirstOk, IdsOk;
    ReassocInv(s, Associate(s, i, j));
  }

  /** The pairs that may be taken apart. */
  predicate Separable(s: Layer, i: Index, j: Index)
    requires i in s.pool && j in s.pool
  {
    || s.pool[i].assoc.None? || s.pool[j].assoc.None?
    || s.pool[i].assoc == Some(j)
    || (s.pool[i].assoc == Some(i) && s.pool[j].assoc == Some(j))
  }

  /** Deassociation keeps the matching exactly when it is refused (one side is free), when the two
      are each other's partner, or when both are associated with themselves. */
  lemma DeassociateExact(s: Layer, i: Index, j: Index)
    requires AssocOk(s) && i in s.pool && j in s.pool
    ensures AssocOk(Deassociate(s, i, j)) <==> Separable(s, i, j)
  {
    var t := Deassociate(s, i, j);
    if s.pool[i].assoc.Some? && s.pool[j].assoc.Some? {
      var a, b := s.pool[i].assoc.value, s.pool[j].assoc.value;
      assert s.pool[a].assoc == Some(i) && s.pool[b].assoc == Some(j);
      if a != j && !(a == i && b == j) {
        assert a != i ==> a in t.pool && t.pool[a].assoc == Some(i);
        assert b != j ==> b in t.pool && t.pool[b].assoc == Some(j);
      }
    }
  }

  lemma DeassociateInv(s: Layer, i: Index, j: Index)
    requires Inv(s) && i in s.pool && j in s.pool
    ensures Inv(Deassociate(s, i, j)) <==> Separable(s, i, j)
  {
    hide XactOk, BitOk, PoolOk, ListsOk, FirstOk, IdsOk;
    DeassociateExact(s, i, j);
    if Separable(s, i, j) {
      ReassocInv(s, Deassociate(s, i, j));
    }
  }

  /** The transaction with no partner, ready to be unlinked and freed. */
  lemma DropUnassociated(s: Layer, i: Index)
    requires Inv(s) && i in s.pool && s.pool[i].assoc.None?
    ensures Inv(Drop(s, i))
  {
    var t, own := Drop(s, i), KeyOf(s.pool[i]);
    UnlinkMembers(ListOf(s, own), i);
    DropLists(s, i);
    forall j | j in t.pool && t.pool[j].org.Remote? && t.pool[j].step >= 1
      ensures FirstWith(t.pool, ListOf(t, KeyOf(t.pool[j])), t.pool[j].xid) == Some(j)
    {
      var key, x := KeyOf(t.pool[j]), t.pool[j];
      if key == own {
        FirstWithUnlink(s.pool, ListOf(s, key), i, x.xid);
      } else {
        FirstWithStaysFirst(s.pool, ListOf(s, key), i, x.xid);
      }
    }
  }

  lemma DropLists(s: Layer, i: Index)
    requires PoolOk(s) && ListsOk(s) && i in s.pool && s.pool[i].assoc.None?
    ensures PoolOk(Drop(s, i)) && ListsOk(Drop(s, i))
  {
    var t := Drop(s, i);
    assert PoolOk(t) by {
      hide ListsOk, Unlink;
      assert forall j :: j in t.free <==> j in s.free || j == i;
    }
    hide PoolOk;
    forall key
      ensures NoDup(ListOf(t, key))
    {
      DropList(s, i, key);
    }
    forall key, j: Index
      ensures j in ListOf(t, key) <==> j in t.pool && KeyOf(t.pool[j]) == key
    {
      DropList(s, i, key);
    }
  }

  /** One list after a deletion. */
  lemma DropList(s: Layer, i: Index, key: ListKey)
    requires ListsOk(s) && i in s.pool && s.pool[i].assoc.None?
    ensures var t := Drop(s, i);
            && NoDup(ListOf(t, key))
            && forall j: Index :: j in ListOf(t, key) <==> j in t.pool && KeyOf(t.pool[j]) == key
  {
    var t, l := Drop(s, i), ListOf(s, key);
    assert NoDup(l);
    UnlinkMembers(l, i);
    hide Unlink;
    assert ListOf(t, key) == if key == KeyOf(s.pool[i]) then Unlink(l, i) else l;
    forall j: Index
      ensures j in ListOf(t, key) <==> j in t.pool && KeyOf(t.pool[j]) == key
    {
      assert j in ListOf(s, key) <==> j in s.pool && KeyOf(s.pool[j]) == key;
      assert i in ListOf(s, key) <==> KeyOf(s.pool[i]) == key;
    }
  }

  lemma DropInv(s: Layer, i: Index)
    requires Inv(s) && i in s.pool
    ensures Inv(Drop(s, i))
  {
    hide XactOk, BitOk, PoolOk, ListsOk, FirstOk, IdsOk;
    if s.pool[i].assoc.Some? {
      var j := s.pool[i].assoc.value;
      var t := Deassociate(s, i, j);
      DeassociateInv(s, i, j);
      assert Drop(s, i) == Drop(t, i);
      DropUnassociated(t, i);
    } else {
      DropUnassociated(s, i);
    }
  }

  // ---------------------------------------------------------------- operations

  /** Stages gtp_xact_update_rx has a case for, by originator. */
  predicate Handles(org: Org, stage: Stage) {
    match org
    case Local => stage == Intermediate || stage == Final
    case Remote => stage == Initial || stage == Final
  }

  /** Whatever lookup finds belongs to an originator whose receive path handles the stage of the
      message, and is the first of its list. */
  lemma LookupHandled(s: Layer, node: Node, kind: Octet, xid: bv32)
    requires ListsOk(s)
    ensures var found := FindByXid(s, node, kind, xid);
            found.Some? ==>
              var x := s.pool[found.value];
              && Handles(x.org, StageOf(kind, xid)) && SearchedList(kind, xid) == Some(x.org)
              && x.gnode == node && x.xid == xid
              && FirstWith(s.pool, ListOf(s, KeyOf(x)), x.xid) == found
  {
    var found := FindByXid(s, node, kind, xid);
    if found.Some? {
      var key := ListKey(node, SearchedList(kind, xid).value);
      assert found.value in ListOf(s, key);
    }
  }

  /** The answer to a waiting request reaches it exactly when bit 23 of its identifier is clear and no
      earlier transaction of its list has the same identifier.  The counter also hands out 0x800000,
      whose answers are looked up among the remote transactions; and after it wrapped around, a request
      can stand behind an older one, or behind one that was never built. */
  lemma AnswerReaches(s: Layer, i: Index, kind: Octet, now: nat, sendOk: bool)
    requires Inv(s) && i in s.pool && s.pool[i].org.Local? && s.pool[i].step == 1
    requires StageOf(kind, s.pool[i].xid) == Final
    ensures var r := Receive(s, s.pool[i].gnode, kind, XidToSqn(s.pool[i].xid), now, sendOk);
            var reaches := s.pool[i].xid != MAX_XACT_ID
                           && FirstWith(s.pool, ListOf(s, KeyOf(s.pool[i])), s.pool[i].xid) == Some(i);
            && (r.status == Ok && r.xact == Some(i) <==> reaches)
            && (!reaches ==> i in r.layer.pool && r.layer.pool[i] == s.pool[i])
  {
    hide AssocOk, XactOk, BitOk, XidToSqn, SqnToXid;
    var x := s.pool[i];
    XidRoundTrip(x.xid);
    Bit23OfLocalIds(x.xid);
    LookupHandled(s, x.gnode, kind, x.xid);
    if s.free != [] {
      assert s.free[0] in s.free;
    }
  }

  lemma ReceiveInv(s: Layer, node: Node, kind: Octet, sqn: bv32, now: nat, sendOk: bool)
    requires Inv(s)
    ensures Inv(Receive(s, node, kind, sqn, now, sendOk).layer)
  {
    hide XactOk, BitOk, PoolOk, IdsOk, AssocOk;
    var xid := SqnToXid(sqn);
    var found := FindByXid(s, node, kind, xid);
    LookupHandled(s, node, kind, xid);
    if found.Some? {
      ReceivedPut(s, found.value, kind, now, sendOk);
    } else if s.free != [] {
      SqnRoundTrip(sqn);
      CreateInv(s, Remote, xid, node);
      var t, n := Create(s, Remote, xid, node), s.free[0];
      if SearchedList(kind, xid) == Some(Remote) {
        FreshIsFirst(s, node, xid);
      }
      ReceivedPut(t, n, kind, now, sendOk);
    }
  }

  lemma FreshIsFirst(s: Layer, node: Node, xid: bv32)
    requires Inv(s) && s.free != []
    requires FirstWith(s.pool, ListOf(s, ListKey(node, Remote)), xid).None?
    ensures var t := Create(s, Remote, xid, node);
            FirstWith(t.pool, ListOf(t, ListKey(node, Remote)), xid) == Some(s.free[0])
  {
    var t, l := Create(s, Remote, xid, node), ListOf(s, ListKey(node, Remote));
    assert s.free[0] in s.free;
    FirstWithSame(s.pool, t.pool, l, xid);
    FirstWithAppend(t.pool, l, s.free[0], xid);
  }

  lemma ReceivedPut(s: Layer, i: Index, kind: Octet, now: nat, sendOk: bool)
    requires Inv(s) && i in s.pool
    requires var x := s.pool[i];
             || (SearchedList(kind, x.xid) == Some(x.org) && FirstWith(s.pool, ListOf(s, KeyOf(x)), x.xid) == Some(i))
             || (SearchedList(kind, x.xid) != Some(Remote) && x.org.Remote? && x.step == 0)
    ensures Inv(Put(s, i, UpdateRx(s.pool[i], kind, now, sendOk).xact))
  {
    hide PoolOk, IdsOk, AssocOk, ListsOk, FirstOk;
    var x := s.pool[i];
    UpdateRxOk(s.cfg, x, kind, now, sendOk);
    UpdateRxCases(x, kind, now, sendOk);
    PutInv(s, i, UpdateRx(x, kind, now, sendOk).xact);
  }

  lemma CounterInv(s: Layer, id: bv32)
    requires Inv(s) && id <= MAX_XACT_ID
    ensures Inv(s.(xactId := id))
  {
    hide XactOk, BitOk, PoolOk, ListsOk, FirstOk;
    SameShapeLists(s, s.(xactId := id));
    SameShapeFirst(s, s.(xactId := id));
  }

  lemma LocalCreateInv(s: Layer, node: Node, kind: Octet, teid: bv32, body: seq<Octet>)
    requires Inv(s)
    ensures Inv(LocalCreate(s, node, kind, teid, body).layer)
  {
    hide XactOk, BitOk, PoolOk, ListsOk, FirstOk, AssocOk;
    if s.free != [] {
      var id := NextId(s.xactId);
      CreateInv(s, Local, id, node);
      CounterInv(Create(s, Local, id, node), id);
      UpdateTxInv(Create(s, Local, id, node).(xactId := id), s.free[0], kind, teid, body);
    }
  }

  lemma VerdictInv(s: Layer, i: Index, v: Verdict)
    requires Inv(s) && i in s.pool
    requires v.Keep? ==> XactOk(s.cfg, v.xact) && BitOk(v.xact) && SameIdentity(s.pool[i], v.xact)
                         && v.xact.assoc == s.pool[i].assoc && v.xact.step == s.pool[i].step
    ensures Inv(Apply(s, i, v))
  {
    hide XactOk, BitOk, PoolOk, IdsOk, AssocOk, ListsOk, FirstOk;
    if v.Keep? {
      PutInv(s, i, v.xact);
    } else {
      DropInv(s, i);
    }
  }

  lemma {:induction false} DropEachInv(s: Layer, l: seq<Index>)
    requires Inv(s)
    ensures Inv(DropEach(s, l))
    decreases l
  {
    hide Inv;
    if l != [] {
      if l[0] in s.pool {
        DropInv(s, l[0]);
        DropEachInv(Drop(s, l[0]), l[1..]);
      } else {
        DropEachInv(s, l[1..]);
      }
    }
  }

  // ---------------------------------------------------------------- runs

  datatype Event =
    | LocalCreateEv(node: Node, kind: Octet, teid: bv32, body: seq<Octet>)
    | ReceiveEv(node: Node, kind: Octet, sqn: bv32, sendOk: bool)
    | UpdateTxEv(i: Index, kind: Octet, teid: bv32, body: seq<Octet>)
    | CommitEv(i: Index, sendOk: bool)
    | TimeoutEv(i: Index, timer: TimerEvent, sendOk: bool)
    | AssociateEv(i: Index, j: Index)
    | DeassociateEv(i: Index, j: Index)
    | DropAllEv(node: Node)

  /** Operations on a transaction need a live one; a commit needs a recorded step; a timer event is that of a
      running timer or a harmless late one; deassociation is applied to a pair that may be taken apart. */
  predicate Enabled(s: Layer, e: Event) {
    match e
    case LocalCreateEv(_, _, _, _) => true
    case ReceiveEv(_, _, _, _) => true
    case UpdateTxEv(i, _, _, _) => i in s.pool
    case CommitEv(i, _) => i in s.pool && 1 <= s.pool[i].step <= 3
    case TimeoutEv(i, timer, sendOk) =>
      i in s.pool && 1 <= s.pool[i].step <= 3 && Configured(s.cfg, timer) && TimeoutSafe(s.pool[i], timer, sendOk)
    case AssociateEv(i, j) => i in s.pool && j in s.pool
    case DeassociateEv(i, j) => i in s.pool && j in s.pool && Separable(s, i, j)
    case DropAllEv(_) => true
  }

  function Next(s: Layer, e: Event, now: nat): Layer
    requires Enabled(s, e)
  {
    match e
    case LocalCreateEv(node, kind, teid, body) => LocalCreate(s, node, kind, teid, body).layer
    case ReceiveEv(node, kind, sqn, sendOk) => Receive(s, node, kind, sqn, now, sendOk).layer
    case UpdateTxEv(i, kind, teid, body) => Put(s, i, UpdateTx(s.pool[i], kind, teid, body).1)
    case CommitEv(i, sendOk) => Apply(s, i, Commit(s.pool[i], now, sendOk))
    case TimeoutEv(i, timer, sendOk) => Apply(s, i, Timeout(s.pool[i], timer, now, sendOk))
    case AssociateEv(i, j) => Associate(s, i, j)
    case DeassociateEv(i, j) => Deassociate(s, i, j)
    case DropAllEv(node) => DropAll(s, node)
  }

  lemma UpdateTxInv(s: Layer, i: Index, kind: Octet, teid: bv32, body: seq<Octet>)
    requires Inv(s) && i in s.pool
    ensures Inv(Put(s, i, UpdateTx(s.pool[i], kind, teid, body).1))
  {
    hide PoolOk, IdsOk, AssocOk, ListsOk, FirstOk;
    UpdateTxOk(s.cfg, s.pool[i], kind, teid, body);
    PutInv(s, i, UpdateTx(s.pool[i], kind, teid, body).1);
  }

  lemma CommitInv(s: Layer, i: Index, now: nat, sendOk: bool)
    requires Inv(s) && i in s.pool && 1 <= s.pool[i].step <= 3
    ensures Inv(Apply(s, i, Commit(s.pool[i], now, sendOk)))
  {
    hide PoolOk, IdsOk, AssocOk, ListsOk, FirstOk, Commit;
    CommitCases(s.pool[i], now, sendOk);
    CommitOk(s.cfg, s.pool[i], now, sendOk);
    VerdictInv(s, i, Commit(s.pool[i], now, sendOk));
  }

  /** A timer event keeps the invariant if and only if it is a harmless one. */
  lemma TimeoutExact(s: Layer, i: Index, timer: TimerEvent, now: nat, sendOk: bool)
    requires Inv(s) && i in s.pool && 1 <= s.pool[i].step <= 3 && Configured(s.cfg, timer)
    ensures Inv(Apply(s, i, Timeout(s.pool[i], timer, now, sendOk))) <==> TimeoutSafe(s.pool[i], timer, sendOk)
  {
    hide PoolOk, IdsOk, AssocOk, ListsOk, FirstOk;
    if TimeoutSafe(s.pool[i], timer, sendOk) {
      TimeoutOk(s.cfg, s.pool[i], timer, now, sendOk);
      VerdictInv(s, i, Timeout(s.pool[i], timer, now, sendOk));
    } else {
      StaleTimeout(s.cfg, s.pool[i], timer, now, sendOk);
      hide XactOk, Timeout, TimeoutSafe;
      var t := Apply(s, i, Timeout(s.pool[i], timer, now, sendOk));
      assert i in t.pool && !XactOk(t.cfg, t.pool[i]);
    }
  }

  lemma NextInv(s: Layer, e: Event, now: nat)
    requires Inv(s) && Enabled(s, e)
    ensures Inv(Next(s, e, now))
  {
    hide Inv;
    match e
    case LocalCreateEv(node, kind, teid, body) => LocalCreateInv(s, node, kind, teid, body);
    case ReceiveEv(node, kind, sqn, sendOk) => ReceiveInv(s, node, kind, sqn, now, sendOk);
    case UpdateTxEv(i, kind, teid, body) => UpdateTxInv(s, i, kind, teid, body);
    case CommitEv(i, sendOk) => CommitInv(s, i, now, sendOk);
    case TimeoutEv(i, timer, sendOk) => TimeoutExact(s, i, timer, now, sendOk);
    case AssociateEv(i, j) => AssociateInv(s, i, j);
    case DeassociateEv(i, j) => DeassociateInv(s, i, j);
    case DropAllEv(node) =>
      var t := DropEach(s, ListOf(s, ListKey(node, Local)));
      DropEachInv(s, ListOf(s, ListKey(node, Local)));
      DropEachInv(t, ListOf(t, ListKey(node, Remote)));
  }

  lemma NextConfig(s: Layer, e: Event, now: nat)
    requires Enabled(s, e)
    ensures Next(s, e, now).cfg == s.cfg
  {
    if e.DropAllEv? {
      var t := DropEach(s, ListOf(s, ListKey(e.node, Local)));
      DropEachConfig(s, ListOf(s, ListKey(e.node, Local)));
      DropEachConfig(t, ListOf(t, ListKey(e.node, Remote)));
    }
  }

  lemma {:induction false} DropEachConfig(s: Layer, l: seq<Index>)
    ensures DropEach(s, l).cfg == s.cfg
    decreases l
  {
    if l != [] {
      DropEachConfig(if l[0] in s.pool then Drop(s, l[0]) else s, l[1..]);
    }
  }

  datatype Timed = Timed(event: Event, now: nat)

  ghost predicate IsRun(cfg: Config, states: seq<Layer>, events: seq<Timed>) {
    && |states| == |events| + 1 && states[0] == InitialLayer(cfg)
    && forall k | 0 <= k < |events| ::
         Enabled(states[k], events[k].event) && states[k + 1] == Next(states[k], events[k].event, events[k].now)
  }

  lemma InitialInv(cfg: Config)
    ensures Inv(InitialLayer(cfg))
  {
    var s := InitialLayer(cfg);
    assert forall k | 0 <= k < POOL_SIZE :: s.free[k] == k + 1;
    forall i: Index | 1 <= i <= POOL_SIZE
      ensures i in s.free
    {
      assert s.free[i - 1] == i;
    }
  }

  /** Every state of every run satisfies the invariant. */
  lemma {:induction false} RunInv(cfg: Config, states: seq<Layer>, events: seq<Timed>, k: nat)
    requires IsRun(cfg, states, events) && k < |states|
    ensures Inv(states[k]) && states[k].cfg == cfg
  {
    hide Inv, Next, Enabled;
    if k == 0 {
      InitialInv(cfg);
    } else {
      RunInv(cfg, states, events, k - 1);
      NextInv(states[k - 1], events[k - 1].event, events[k - 1].now);
      NextConfig(states[k - 1], events[k - 1].event, events[k - 1].now);
    }
  }
}

/** Retransmission terminates: how often a transaction can be visited by its timers, in any run. */
module XactTimers {
  import opened Options
  import opened GtpMessage
  import opened XactModel
  import opened XactInvariants

  /** Transactions that stay keep their retry counters. */
  ghost predicate CountersKept(s: Layer, t: Layer) {
    forall j | j in s.pool && j in t.pool ::
      t.pool[j].responseRcount == s.pool[j].responseRcount && t.pool[j].holdingRcount == s.pool[j].holdingRcount
  }

  lemma ReceiveCounters(s: Layer, node: Node, kind: Octet, sqn: bv32, now: nat, sendOk: bool)
    requires PoolOk(s)
    ensures CountersKept(s, Receive(s, node, kind, sqn, now, sendOk).layer)
  {
    hide FindByXid, UpdateRx, SqnToXid;
    var found := FindByXid(s, node, kind, SqnToXid(sqn));
    if found.Some? {
      UpdateRxCounters(s.pool[found.value], kind, now, sendOk);
    } else if s.free != [] {
      assert s.free[0] in s.free;
      UpdateRxCounters(NewXact(s.cfg, Remote, SqnToXid(sqn), node), kind, now, sendOk);
    }
  }

  lemma UpdateRxCounters(x: Xact, kind: Octet, now: nat, sendOk: bool)
    ensures var y := UpdateRx(x, kind, now, sendOk).xact;
            y.responseRcount == x.responseRcount && y.holdingRcount == x.holdingRcount
  {
  }

  lemma LocalCreateCounters(s: Layer, node: Node, kind: Octet, teid: bv32, body: seq<Octet>)
    requires PoolOk(s)
    ensures CountersKept(s, LocalCreate(s, node, kind, teid, body).layer)
  {
    if s.free != [] {
      assert s.free[0] in s.free;
    }
  }

  lemma DropCounters(s: Layer, i: Index)
    requires i in s.pool
    ensures CountersKept(s, Drop(s, i)) && Drop(s, i).pool.Keys == s.pool.Keys - {i}
  {
  }

  lemma {:induction false} DropEachCounters(s: Layer, l: seq<Index>)
    ensures CountersKept(s, DropEach(s, l)) && DropEach(s, l).pool.Keys <= s.pool.Keys
    decreases l
  {
    if l != [] {
      if l[0] in s.pool {
        DropCounters(s, l[0]);
        DropEachCounters(Drop(s, l[0]), l[1..]);
      } else {
        DropEachCounters(s, l[1..]);
      }
    }
  }

  lemma CommitCounters(s: Layer, i: Index, now: nat, sendOk: bool)
    requires i in s.pool && HistoryOk(s.pool[i]) && 1 <= s.pool[i].step <= 3
    ensures CountersKept(s, Apply(s, i, Commit(s.pool[i], now, sendOk)))
  {
    hide Commit, Drop;
    DropCounters(s, i);
    CommitCases(s.pool[i], now, sendOk);
  }

  lemma TimeoutCounters(s: Layer, i: Index, timer: TimerEvent, now: nat, sendOk: bool)
    requires Enabled(s, TimeoutEv(i, timer, sendOk)) && XactOk(s.cfg, s.pool[i])
    ensures var t := Apply(s, i, Timeout(s.pool[i], timer, now, sendOk));
            && (forall j | j in t.pool :: j in s.pool && t.pool[j].holdingRcount == s.pool[j].holdingRcount)
            && (forall j | j in t.pool && j != i :: t.pool[j].responseRcount == s.pool[j].responseRcount)
            && (i in t.pool ==> timer.ResponseTimeout? && t.pool[i].responseRcount + 1 == s.pool[i].responseRcount)
  {
    hide Timeout, Drop;
    DropCounters(s, i);
    TimeoutOk(s.cfg, s.pool[i], timer, now, sendOk);
  }

  /** Only a served timer touches a retry counter, and a transaction that survives it lost one response
      try. */
  lemma CountersStep(s: Layer, e: Event, now: nat, i: Index)
    requires Inv(s) && Enabled(s, e) && i in s.pool && i in Next(s, e, now).pool
    ensures var x, y := s.pool[i], Next(s, e, now).pool[i];
            && y.holdingRcount == x.holdingRcount
            && if e.TimeoutEv? && e.i == i
               then e.timer.ResponseTimeout? && y.responseRcount + 1 == x.responseRcount
               else y.responseRcount == x.responseRcount
  {
    hide PacketsOk, TimersOk, HistoryOk, ListsOk, AssocOk, FirstOk, IdsOk, BitOk,
         Receive, LocalCreate, StageOf, Drop, DropEach, Commit, Timeout, Apply;
    match e
    case LocalCreateEv(node, kind, teid, body) => LocalCreateCounters(s, node, kind, teid, body);
    case ReceiveEv(node, kind, sqn, sendOk) => ReceiveCounters(s, node, kind, sqn, now, sendOk);
    case UpdateTxEv(j, kind, teid, body) =>
    case CommitEv(j, sendOk) => CommitCounters(s, j, now, sendOk);
    case TimeoutEv(j, timer, sendOk) => TimeoutCounters(s, j, timer, now, sendOk);
    case AssociateEv(j, k) =>
    case DeassociateEv(j, k) =>
    case DropAllEv(node) =>
      var t := DropEach(s, ListOf(s, ListKey(node, Local)));
      DropEachCounters(s, ListOf(s, ListKey(node, Local)));
      DropEachCounters(t, ListOf(t, ListKey(node, Remote)));
  }

  /** How many of the events serve a timer of transaction i. */
  function TimersServed(events: seq<Timed>, i: Index): nat {
    if events == [] then 0
    else
      TimersServed(events[..|events| - 1], i) +
      (if events[|events| - 1].event.TimeoutEv? && events[|events| - 1].event.i == i then 1 else 0)
  }

  /** In any stretch of any run through which a transaction lives, every timer event for it used up
      one response try, so there are at most two: the third response expiry, and any holding expiry,
      ends its life. */
  lemma {:induction false} TimersEnd(cfg: Config, states: seq<Layer>, events: seq<Timed>, a: nat, b: nat, i: Index)
    requires IsRun(cfg, states, events) && a <= b < |states|
    requires forall k | a <= k <= b :: i in states[k].pool
    ensures states[b].pool[i].responseRcount + TimersServed(events[a..b], i) == states[a].pool[i].responseRcount
    ensures TimersServed(events[a..b], i) <= RESPONSE_RETRY_COUNT - 1
    ensures TimersServed(events[a..b], i) > 0 ==> cfg.response
    decreases b - a
  {
    hide Inv, Next, Enabled, XactOk, TimersOk;
    if a < b {
      TimersEnd(cfg, states, events, a, b - 1, i);
      RunInv(cfg, states, events, b - 1);
      assert states[b - 1 + 1] == Next(states[b - 1], events[b - 1].event, events[b - 1].now);
      CountersStep(states[b - 1], events[b - 1].event, events[b - 1].now, i);
      assert events[a..b][..b - a - 1] == events[a..b - 1] && events[a..b][b - a - 1] == events[b - 1];
    }
    CountersInRange(cfg, states, events, a, i);
    CountersInRange(cfg, states, events, b, i);
  }

  lemma CountersInRange(cfg: Config, states: seq<Layer>, events: seq<Timed>, k: nat, i: Index)
    requires IsRun(cfg, states, events) && k < |states| && i in states[k].pool
    ensures if cfg.response then 1 <= states[k].pool[i].responseRcount <= RESPONSE_RETRY_COUNT
            else states[k].pool[i].responseRcount == 0
    ensures cfg.holding ==> states[k].pool[i].holdingRcount == HOLDING_RETRY_COUNT
  {
    hide PoolOk, ListsOk, AssocOk, FirstOk, IdsOk, BitOk, Next, Enabled;
    RunInv(cfg, states, events, k);
    assert XactOk(states[k].cfg, states[k].pool[i]);
  }
}

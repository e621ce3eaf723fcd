/** The start and stop handshake of src/epc.c: a parent and the processes it forks, synchronised by two
    semaphores per element, in any interleaving. */
module Handshake {

  /** Which elements are enabled, whether each one's initialisation succeeds, and whether the parent got
      as far as forking (otherwise only its exit handler runs).  The program has four elements, in the
      order EXT, PCRF, SPGW, HSS; nothing below depends on their number. */
  datatype Config = Config(enabled: seq<bool>, initOk: seq<bool>, startOk: bool)

  ghost predicate ConfigOk(cfg: Config) {
    |cfg.enabled| == |cfg.initOk|
  }

  predicate Active(cfg: Config, k: nat)
    requires k < |cfg.enabled|
  {
    cfg.startOk && cfg.enabled[k]
  }

  /** Program points of the parent (app_initialize, then app_terminate). */
  datatype ParentPc =
    | Creating(k: nat)      // semaphores of element k
    | Forking(k: nat)
    | AwaitInit(k: nat)     // first wait on the first semaphore of element k
    | MmeStart
    | Serving
    | MmeStop
    | Stopping(k: nat)      // elements from k on are stopped; next is k - 1
    | AwaitStop(k: nat)     // second wait on the first semaphore of element k
    | Closing(k: nat)
    | Finished

  /** Program points of a child. */
  datatype ChildPc = NotForked | Initialising | PostInit | AwaitSignal | Terminating | PostStop | Leaving | Exited

  /** What can be observed of the elements. */
  datatype Event = Forked(k: nat) | Initialised(k: nat) | MmeUp | MmeDown | Signalled(k: nat) | Terminated(k: nat)

  datatype State = State(parent: ParentPc, child: seq<ChildPc>, sem1: seq<nat>, sem2: seq<nat>, log: seq<Event>)

  function InitState(cfg: Config): State {
    var n := |cfg.enabled|;
    State(if cfg.startOk then Creating(0) else MmeStop,
          seq(n, _ => NotForked), seq(n, _ => 0), seq(n, _ => 0), [])
  }

  ghost predicate Sized(cfg: Config, s: State) {
    var n := |cfg.enabled|;
    && ConfigOk(cfg) && |s.child| == n && |s.sem1| == n && |s.sem2| == n
    && match s.parent
       case Creating(k) => k <= n
       case Forking(k) => k < n
       case AwaitInit(k) => k < n
       case Stopping(k) => k <= n
       case AwaitStop(k) => k < n
       case Closing(k) => k < n
       case _ => true
  }

  datatype Move = Blocked | To(state: State)

  function Logged(s: State, e: Event): State {
    s.(log := s.log + [e])
  }

  /** One step of the parent; a wait on a semaphore at zero blocks. */
  function ParentStep(cfg: Config, s: State): Move
    requires Sized(cfg, s)
  {
    match s.parent
    case Creating(k) =>
      if k == |cfg.enabled| then To(s.(parent := MmeStart))
      else To(s.(parent := Forking(k), sem1 := s.sem1[k := 0], sem2 := s.sem2[k := 0]))
    case Forking(k) =>
      if cfg.enabled[k] then To(Logged(s.(parent := AwaitInit(k), child := s.child[k := Initialising]), Forked(k)))
      else To(s.(parent := Creating(k + 1)))
    case AwaitInit(k) =>
      if s.sem1[k] == 0 then Blocked
      else To(s.(parent := Creating(k + 1), sem1 := s.sem1[k := s.sem1[k] - 1]))
    case MmeStart => To(Logged(s.(parent := Serving), MmeUp))
    case Serving => To(s.(parent := MmeStop))
    case MmeStop => To(Logged(s.(parent := Stopping(|cfg.enabled|)), MmeDown))
    case Stopping(k) =>
      if k == 0 then To(s.(parent := Finished))
      else if Active(cfg, k - 1) then
        To(Logged(s.(parent := AwaitStop(k - 1), sem2 := s.sem2[k - 1 := s.sem2[k - 1] + 1]), Signalled(k - 1)))
      else To(s.(parent := Closing(k - 1)))
    case AwaitStop(k) =>
      if s.sem1[k] == 0 then Blocked
      else To(s.(parent := Closing(k), sem1 := s.sem1[k := s.sem1[k] - 1]))
    case Closing(k) => To(s.(parent := Stopping(k)))
    case Finished => Blocked
  }

  /** One step of child k. */
  function ChildStep(cfg: Config, s: State, k: nat): Move
    requires Sized(cfg, s) && k < |s.child|
  {
    match s.child[k]
    case NotForked => Blocked
    case Initialising => To(Logged(s.(child := s.child[k := PostInit]), Initialised(k)))
    case PostInit => To(s.(child := s.child[k := AwaitSignal], sem1 := s.sem1[k := s.sem1[k] + 1]))
    case AwaitSignal =>
      if s.sem2[k] == 0 then Blocked
      else To(s.(child := s.child[k := Terminating], sem2 := s.sem2[k := s.sem2[k] - 1]))
    case Terminating =>
      var t := s.(child := s.child[k := PostStop]);
      To(if cfg.initOk[k] then Logged(t, Terminated(k)) else t)
    case PostStop => To(s.(child := s.child[k := Leaving], sem1 := s.sem1[k := s.sem1[k] + 1]))
    case Leaving => To(s.(child := s.child[k := Exited]))
    case Exited => Blocked
  }

  /** Who moves next: the parent, or one of the children. */
  datatype Actor = Parent | Child(k: nat)

  function Step(cfg: Config, s: State, who: Actor): Move
    requires Sized(cfg, s) && (who.Child? ==> who.k < |s.child|)
  {
    if who.Parent? then ParentStep(cfg, s) else ChildStep(cfg, s, who.k)
  }

  ghost predicate IsRun(cfg: Config, states: seq<State>, who: seq<Actor>) {
    && ConfigOk(cfg) && |states| == |who| + 1 && states[0] == InitState(cfg)
    && forall i | 0 <= i < |who| ::
         && Sized(cfg, states[i]) && (who[i].Child? ==> who[i].k < |states[i].child|)
         && Step(cfg, states[i], who[i]) == To(states[i + 1])
  }

  // ---------------------------------------------------------------- the intended order of events

  /** Elements 0 .. k-1 started one after the other. */
  function StartLog(cfg: Config, k: nat): seq<Event>
    requires k <= |cfg.enabled|
  {
    if k == 0 then []
    else StartLog(cfg, k - 1) + if cfg.enabled[k - 1] then [Forked(k - 1), Initialised(k - 1)] else []
  }

  /** Elements from the last down to k stopped one after the other. */
  function StopLog(cfg: Config, k: nat): seq<Event>
    requires ConfigOk(cfg) && k <= |cfg.enabled|
    decreases |cfg.enabled| - k
  {
    if k == |cfg.enabled| then []
    else StopLog(cfg, k + 1) +
         if !Active(cfg, k) then [] else [Signalled(k)] + if cfg.initOk[k] then [Terminated(k)] else []
  }

  function UpLog(cfg: Config): seq<Event> {
    if cfg.startOk then StartLog(cfg, |cfg.enabled|) + [MmeUp] else []
  }

  /** The one order of events: start up in turn, serve, then stop in exactly the reverse order, each
      element having terminated before the next is signalled. */
  function Schedule(cfg: Config): seq<Event>
    requires ConfigOk(cfg)
  {
    UpLog(cfg) + [MmeDown] + StopLog(cfg, 0)
  }

  // ---------------------------------------------------------------- invariant

  datatype Phase = Before | WaitingInit | Between | WaitingStop | Past

  /** Where the parent stands with respect to element k. */
  function PhaseOf(p: ParentPc, k: nat): Phase {
    match p
    case Creating(j) => if k < j then Between else Before
    case Forking(j) => if k < j then Between else Before
    case AwaitInit(j) => if k < j then Between else if k == j then WaitingInit else Before
    case MmeStart => Between
    case Serving => Between
    case MmeStop => Between
    case Stopping(j) => if k >= j then Past else Between
    case AwaitStop(j) => if k > j then Past else if k == j then WaitingStop else Between
    case Closing(j) => if k >= j then Past else Between
    case Finished => Past
  }

  /** Child and semaphores of an active element, phase by phase. */
  ghost predicate ElementOk(phase: Phase, c: ChildPc, sem1: nat, sem2: nat) {
    match phase
    case Before => c == NotForked && sem1 == 0 && sem2 == 0
    case WaitingInit =>
      sem2 == 0 && (((c == Initialising || c == PostInit) && sem1 == 0) || (c == AwaitSignal && sem1 == 1))
    case Between => c == AwaitSignal && sem1 == 0 && sem2 == 0
    case WaitingStop =>
      || (c == AwaitSignal && sem1 == 0 && sem2 == 1)
      || ((c == Terminating || c == PostStop) && sem1 == 0 && sem2 == 0)
      || ((c == Leaving || c == Exited) && sem1 == 1 && sem2 == 0)
    case Past => (c == Leaving || c == Exited) && sem1 == 0 && sem2 == 0
  }

  ghost predicate ElementsOk(cfg: Config, s: State)
    requires Sized(cfg, s)
  {
    forall k | 0 <= k < |s.child| ::
      if Active(cfg, k) then ElementOk(PhaseOf(s.parent, k), s.child[k], s.sem1[k], s.sem2[k])
      else s.child[k] == NotForked && s.sem1[k] == 0 && s.sem2[k] == 0
  }

  /** The log is determined by the program points alone. */
  ghost function LogOf(cfg: Config, s: State): seq<Event>
    requires Sized(cfg, s)
  {
    match s.parent
    case Creating(k) => StartLog(cfg, k)
    case Forking(k) => StartLog(cfg, k)
    case AwaitInit(k) => StartLog(cfg, k) + [Forked(k)] + if s.child[k] == Initialising then [] else [Initialised(k)]
    case MmeStart => StartLog(cfg, |cfg.enabled|)
    case Serving => UpLog(cfg)
    case MmeStop => UpLog(cfg)
    case Stopping(k) => UpLog(cfg) + [MmeDown] + StopLog(cfg, k)
    case AwaitStop(k) =>
      UpLog(cfg) + [MmeDown] + StopLog(cfg, k + 1) + [Signalled(k)] +
      if cfg.initOk[k] && s.child[k] != AwaitSignal && s.child[k] != Terminating then [Terminated(k)] else []
    case Closing(k) => UpLog(cfg) + [MmeDown] + StopLog(cfg, k)
    case Finished => Schedule(cfg)
  }

  ghost predicate Inv(cfg: Config, s: State) {
    && Sized(cfg, s) && ElementsOk(cfg, s) && s.log == LogOf(cfg, s)
    && (s.parent.Creating? || s.parent.Forking? || s.parent.AwaitInit? || s.parent.MmeStart? || s.parent.Serving? ==> cfg.startOk)
    && (s.parent.AwaitInit? ==> cfg.enabled[s.parent.k])
    && (s.parent.AwaitStop? ==> Active(cfg, s.parent.k))
  }

  lemma ParentElements(cfg: Config, s: State)
    requires Inv(cfg, s) && ParentStep(cfg, s).To?
    ensures Sized(cfg, ParentStep(cfg, s).state) && ElementsOk(cfg, ParentStep(cfg, s).state)
  {
    hide LogOf, ElementsOk;
    var t := ParentStep(cfg, s).state;
    forall k | 0 <= k < |t.child|
      ensures ElementOkAt(cfg, t, k)
    {
      ElementAt(cfg, s, k);
      ParentElement(cfg, s, k);
    }
    ElementsFrom(cfg, t);
  }

  /** ElementsOk at one element. */
  ghost predicate ElementOkAt(cfg: Config, s: State, k: nat)
    requires Sized(cfg, s) && k < |s.child|
  {
    if Active(cfg, k) then ElementOk(PhaseOf(s.parent, k), s.child[k], s.sem1[k], s.sem2[k])
    else s.child[k] == NotForked && s.sem1[k] == 0 && s.sem2[k] == 0
  }

  lemma ElementAt(cfg: Config, s: State, k: nat)
    requires Sized(cfg, s) && ElementsOk(cfg, s) && k < |s.child|
    ensures ElementOkAt(cfg, s, k)
  {
  }

  lemma ElementsFrom(cfg: Config, s: State)
    requires Sized(cfg, s) && forall k | 0 <= k < |s.child| :: ElementOkAt(cfg, s, k)
    ensures ElementsOk(cfg, s)
  {
    forall k | 0 <= k < |s.child|
      ensures if Active(cfg, k) then ElementOk(PhaseOf(s.parent, k), s.child[k], s.sem1[k], s.sem2[k])
              else s.child[k] == NotForked && s.sem1[k] == 0 && s.sem2[k] == 0
    {
      assert ElementOkAt(cfg, s, k);
    }
  }

  lemma ParentElement(cfg: Config, s: State, k: nat)
    requires Sized(cfg, s) && k < |s.child| && ElementOkAt(cfg, s, k) && ParentStep(cfg, s).To?
    requires s.parent.Creating? || s.parent.Forking? || s.parent.AwaitInit? ==> cfg.startOk
    ensures Sized(cfg, ParentStep(cfg, s).state) && ElementOkAt(cfg, ParentStep(cfg, s).state, k)
  {
  }

  predicate GoingDown(p: ParentPc) {
    p.Stopping? || p.AwaitStop? || p.Closing?
  }

  lemma ParentLogUp(cfg: Config, s: State)
    requires Inv(cfg, s) && ParentStep(cfg, s).To? && !GoingDown(s.parent)
    ensures Sized(cfg, ParentStep(cfg, s).state)
    ensures ParentStep(cfg, s).state.log == LogOf(cfg, ParentStep(cfg, s).state)
  {
    hide ElementsOk;
    if s.parent.AwaitInit? {
      ElementAt(cfg, s, s.parent.k);
      Regroup([], StartLog(cfg, s.parent.k), Forked(s.parent.k), [Initialised(s.parent.k)]);
    }
  }

  lemma ParentLogDown(cfg: Config, s: State)
    requires Inv(cfg, s) && ParentStep(cfg, s).To? && GoingDown(s.parent)
    ensures Sized(cfg, ParentStep(cfg, s).state)
    ensures ParentStep(cfg, s).state.log == LogOf(cfg, ParentStep(cfg, s).state)
  {
    hide ElementsOk, UpLog, StartLog;
    if s.parent.AwaitStop? {
      var k := s.parent.k;
      ElementAt(cfg, s, k);
      Regroup(UpLog(cfg) + [MmeDown], StopLog(cfg, k + 1), Signalled(k), if cfg.initOk[k] then [Terminated(k)] else []);
    } else if s.parent.Stopping? && s.parent.k > 0 {
      ElementAt(cfg, s, s.parent.k - 1);
    }
  }

  lemma Regroup(a: seq<Event>, b: seq<Event>, e: Event, c: seq<Event>)
    ensures a + (b + ([e] + c)) == a + b + [e] + c
  {
  }

  lemma ParentInv(cfg: Config, s: State)
    requires Inv(cfg, s) && ParentStep(cfg, s).To?
    ensures Inv(cfg, ParentStep(cfg, s).state)
  {
    hide LogOf, ElementsOk;
    ParentElements(cfg, s);
    if GoingDown(s.parent) {
      ParentLogDown(cfg, s);
    } else {
      ParentLogUp(cfg, s);
    }
  }

  lemma ChildInv(cfg: Config, s: State, k: nat)
    requires Inv(cfg, s) && k < |s.child| && ChildStep(cfg, s, k).To?
    ensures Inv(cfg, ChildStep(cfg, s, k).state)
  {
    ChildElements(cfg, s, k);
    ChildLog(cfg, s, k);
    hide LogOf, ElementsOk;
  }

  lemma ChildElements(cfg: Config, s: State, k: nat)
    requires Sized(cfg, s) && ElementsOk(cfg, s) && k < |s.child| && ChildStep(cfg, s, k).To?
    ensures Sized(cfg, ChildStep(cfg, s, k).state) && ElementsOk(cfg, ChildStep(cfg, s, k).state)
  {
    assert Active(cfg, k) && ElementOk(PhaseOf(s.parent, k), s.child[k], s.sem1[k], s.sem2[k]);
  }

  lemma ChildLog(cfg: Config, s: State, k: nat)
    requires Inv(cfg, s) && k < |s.child| && ChildStep(cfg, s, k).To? && Sized(cfg, ChildStep(cfg, s, k).state)
    ensures ChildStep(cfg, s, k).state.log == LogOf(cfg, ChildStep(cfg, s, k).state)
  {
    hide StartLog, UpLog, StopLog;
    assert Active(cfg, k) && ElementOk(PhaseOf(s.parent, k), s.child[k], s.sem1[k], s.sem2[k]);
  }

  lemma {:induction false} RunInv(cfg: Config, states: seq<State>, who: seq<Actor>, i: nat)
    requires IsRun(cfg, states, who) && i < |states|
    ensures Inv(cfg, states[i])
  {
    hide Inv;
    if i == 0 {
      assert Inv(cfg, states[0]) by {
        InitInv(cfg);
      }
    } else {
      RunInv(cfg, states, who, i - 1);
      assert Step(cfg, states[i - 1], who[i - 1]) == To(states[i]);
      if who[i - 1].Parent? {
        ParentInv(cfg, states[i - 1]);
      } else {
        ChildInv(cfg, states[i - 1], who[i - 1].k);
      }
    }
  }

  lemma InitInv(cfg: Config)
    requires ConfigOk(cfg)
    ensures Inv(cfg, InitState(cfg))
  {
  }

  // ---------------------------------------------------------------- main results

  lemma {:induction false} StartLogPrefix(cfg: Config, k: nat, m: nat)
    requires k <= m <= |cfg.enabled|
    ensures StartLog(cfg, k) <= StartLog(cfg, m)
  {
    if k < m {
      StartLogPrefix(cfg, k, m - 1);
    }
  }

  lemma {:induction false} StopLogPrefix(cfg: Config, k: nat, m: nat)
    requires ConfigOk(cfg) && k <= m <= |cfg.enabled|
    ensures StopLog(cfg, m) <= StopLog(cfg, k)
    decreases m - k
  {
    if k < m {
      StopLogPrefix(cfg, k + 1, m);
    }
  }

  lemma PrefixOfSum(a: seq<Event>, b: seq<Event>, c: seq<Event>)
    requires b <= c
    ensures a + b <= a + c
  {
  }

  /** In every reachable state, whatever the interleaving, the events so far are a prefix of the one
      schedule, and the parent finishes exactly when the schedule is complete. */
  lemma OneSchedule(cfg: Config, states: seq<State>, who: seq<Actor>, i: nat)
    requires IsRun(cfg, states, who) && i < |states|
    ensures states[i].log <= Schedule(cfg)
    ensures states[i].parent.Finished? ==> states[i].log == Schedule(cfg)
  {
    RunInv(cfg, states, who, i);
    LogPrefix(cfg, states[i]);
  }

  lemma LogPrefix(cfg: Config, s: State)
    requires Inv(cfg, s)
    ensures s.log <= Schedule(cfg)
  {
    hide ElementsOk, StopLog;
    var n := |cfg.enabled|;
    if GoingDown(s.parent) {
      DownPrefix(cfg, s);
    } else if s.parent.AwaitInit? {
      StartLogPrefix(cfg, s.parent.k + 1, n);
      assert s.log <= StartLog(cfg, s.parent.k + 1);
    } else if s.parent.Creating? || s.parent.Forking? {
      StartLogPrefix(cfg, s.parent.k, n);
    }
  }

  lemma DownPrefix(cfg: Config, s: State)
    requires Inv(cfg, s) && GoingDown(s.parent)
    ensures s.log <= Schedule(cfg)
  {
    hide ElementsOk, UpLog, StartLog;
    var k, head := s.parent.k, UpLog(cfg) + [MmeDown];
    StopLogPrefix(cfg, 0, k);
    PrefixOfSum(head, StopLog(cfg, k), StopLog(cfg, 0));
    if s.parent.AwaitStop? {
      Regroup(head, StopLog(cfg, k + 1), Signalled(k), if cfg.initOk[k] then [Terminated(k)] else []);
      assert s.log <= head + StopLog(cfg, k);
    }
  }

  /** The parent's second wait on an element returns only after the child's second post, its first wait
      only after the first: a post is never taken for the other one. */
  lemma WaitsMatchPosts(cfg: Config, states: seq<State>, who: seq<Actor>, i: nat)
    requires IsRun(cfg, states, who) && i < |who| && who[i].Parent?
    ensures var s := states[i];
            && (s.parent.AwaitInit? ==> s.parent.k < |s.child| && s.child[s.parent.k] == AwaitSignal)
            && (s.parent.AwaitStop? ==> s.parent.k < |s.child| && (s.child[s.parent.k] == Leaving || s.child[s.parent.k] == Exited))
  {
    RunInv(cfg, states, who, i);
    var s := states[i];
    assert Step(cfg, s, who[i]) == To(states[i + 1]);
    if s.parent.AwaitInit? || s.parent.AwaitStop? {
      assert ElementOk(PhaseOf(s.parent, s.parent.k), s.child[s.parent.k], s.sem1[s.parent.k], s.sem2[s.parent.k]);
    }
  }

  /** All processes have come to their end. */
  ghost predicate AllDone(s: State) {
    s.parent == Finished && forall k | 0 <= k < |s.child| :: s.child[k] == NotForked || s.child[k] == Exited
  }

  /** No reachable state is a deadlock: someone can move until everyone is done. */
  lemma NoDeadlock(cfg: Config, states: seq<State>, who: seq<Actor>, i: nat) returns (next: Actor)
    requires IsRun(cfg, states, who) && i < |states| && !AllDone(states[i])
    ensures Sized(cfg, states[i]) && (next.Child? ==> next.k < |states[i].child|)
    ensures Step(cfg, states[i], next).To?
  {
    RunInv(cfg, states, who, i);
    var s := states[i];
    if s.parent == Finished {
      var k :| 0 <= k < |s.child| && s.child[k] != NotForked && s.child[k] != Exited;
      next := Child(k);
    } else if ParentStep(cfg, s).To? {
      next := Parent;
    } else {
      next := Child(s.parent.k);
      assert ElementOk(PhaseOf(s.parent, s.parent.k), s.child[s.parent.k], s.sem1[s.parent.k], s.sem2[s.parent.k]);
    }
  }

  // ---------------------------------------------------------------- termination

  function ParentRank(n: nat, p: ParentPc): nat {
    match p
    case Creating(k) => 3 * n + 6 + if k <= n then 3 * (n - k) else 0
    case Forking(k) => 3 * n + 5 + if k <= n then 3 * (n - k) else 0
    case AwaitInit(k) => 3 * n + 4 + if k <= n then 3 * (n - k) else 0
    case MmeStart => 3 * n + 5
    case Serving => 3 * n + 4
    case MmeStop => 3 * n + 3
    case Stopping(k) => 3 * k + 1
    case AwaitStop(k) => 3 * k + 3
    case Closing(k) => 3 * k + 2
    case Finished => 0
  }

  function ChildRank(c: ChildPc): nat {
    match c
    case NotForked => 7
    case Initialising => 6
    case PostInit => 5
    case AwaitSignal => 4
    case Terminating => 3
    case PostStop => 2
    case Leaving => 1
    case Exited => 0
  }

  function ChildRanks(cs: seq<ChildPc>): nat {
    if cs == [] then 0 else ChildRank(cs[0]) + ChildRanks(cs[1..])
  }

  lemma {:induction false} ChildRanksUpdate(cs: seq<ChildPc>, k: nat, c: ChildPc)
    requires k < |cs|
    ensures ChildRanks(cs[k := c]) + ChildRank(cs[k]) == ChildRanks(cs) + ChildRank(c)
  {
    if k == 0 {
      assert cs[k := c][1..] == cs[1..];
    } else {
      assert cs[k := c][1..] == cs[1..][k - 1 := c];
      ChildRanksUpdate(cs[1..], k - 1, c);
    }
  }

  /** Steps left, at most. */
  function Rank(cfg: Config, s: State): nat {
    ParentRank(|cfg.enabled|, s.parent) + ChildRanks(s.child)
  }

  lemma StepDecreases(cfg: Config, s: State, who: Actor)
    requires Inv(cfg, s) && (who.Child? ==> who.k < |s.child|) && Step(cfg, s, who).To?
    ensures Rank(cfg, Step(cfg, s, who).state) < Rank(cfg, s)
  {
    hide LogOf, ElementsOk, ChildRanks;
    if who.Child? {
      ChildRanksUpdate(s.child, who.k, Step(cfg, s, who).state.child[who.k]);
    } else if s.parent.Forking? {
      ElementAt(cfg, s, s.parent.k);
      ChildRanksUpdate(s.child, s.parent.k, Initialising);
    }
  }

  /** Every run is finite: together with NoDeadlock, every element is eventually started, stopped and
      gone, in the order of the schedule. */
  lemma {:induction false} RunsEnd(cfg: Config, states: seq<State>, who: seq<Actor>, i: nat)
    requires IsRun(cfg, states, who) && i < |states|
    ensures i + Rank(cfg, states[i]) <= Rank(cfg, InitState(cfg))
  {
    hide Inv, Rank, Step;
    if i > 0 {
      RunsEnd(cfg, states, who, i - 1);
      RunInv(cfg, states, who, i - 1);
      assert Step(cfg, states[i - 1], who[i - 1]) == To(states[i]);
      StepDecreases(cfg, states[i - 1], who[i - 1]);
    }
  }
}

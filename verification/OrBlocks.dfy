/** Or-blocks (lib/ipfw, F_OR): an instruction with the flag set is or'ed with the next one, and
    the blocks so formed are and'ed. Exactly when may a rule's state instruction, which always holds,
    be moved to the end of the match part? */
module OrBlocks {

  /** An instruction as the matcher sees it: its flag and whether it holds for the packet. */
  datatype Cond = Cond(or: bool, holds: bool)

  /** The blocks closed so far all hold; a block is open; something in the open block holds. */
  datatype Progress = Progress(ok: bool, open: bool, sat: bool)

  function After(p: Progress, c: Cond): Progress {
    var sat := (p.open && p.sat) || c.holds;
    if c.or then Progress(p.ok, true, sat) else Progress(p.ok && sat, false, false)
  }

  function Run(p: Progress, l: seq<Cond>): Progress
    decreases |l|
  {
    if l == [] then p else Run(After(p, l[0]), l[1..])
  }

  predicate Verdict(p: Progress) {
    p.ok && (p.open ==> p.sat)
  }

  const START := Progress(true, false, false)

  predicate Holds(l: seq<Cond>) {
    Verdict(Run(START, l))
  }

  function Flags(l: seq<Cond>): seq<bool> {
    seq(|l|, i requires 0 <= i < |l| => l[i].or)
  }

  predicate LastOr(f: seq<bool>) {
    f != [] && f[|f| - 1]
  }

  predicate AllOr(f: seq<bool>) {
    forall i | 0 <= i < |f| :: f[i]
  }

  /** The condition: nothing follows; or the state instruction is itself or'ed into a block that runs
      to the end; or it stands between closed blocks and the part behind it ends in a closed block. */
  predicate SafeMove(fa: seq<bool>, k: bool, fb: seq<bool>) {
    fb == [] || (k && AllOr(fb)) || (!LastOr(fa) && !k && !LastOr(fb))
  }

  lemma {:induction false} RunAppend(p: Progress, a: seq<Cond>, b: seq<Cond>)
    ensures Run(p, a + b) == Run(Run(p, a), b)
    decreases |a|
  {
    if a == [] {
      assert a + b == b;
    } else {
      assert (a + b)[1..] == a[1..] + b;
      RunAppend(After(p, a[0]), a[1..], b);
    }
  }

  /** Whether a block is open depends on the flags alone. */
  lemma {:induction false} RunOpen(p: Progress, l: seq<Cond>)
    ensures l != [] ==> Run(p, l).open == LastOr(Flags(l))
    ensures l == [] ==> Run(p, l) == p
    decreases |l|
  {
    if l != [] {
      RunOpen(After(p, l[0]), l[1..]);
      assert Flags(l)[1..] == Flags(l[1..]);
    }
  }

  /** Inside one block the order does not matter. */
  lemma {:induction false} RunAllOr(p: Progress, l: seq<Cond>)
    requires AllOr(Flags(l)) && l != []
    ensures Run(p, l).ok == p.ok && Run(p, l).open
    ensures Run(p, l).sat == ((p.open && p.sat) || exists i | 0 <= i < |l| :: l[i].holds)
    decreases |l|
  {
    assert Flags(l)[0];
    if |l| > 1 {
      assert Flags(l)[1..] == Flags(l[1..]);
      RunAllOr(After(p, l[0]), l[1..]);
      assert forall i | 1 <= i < |l| :: l[i] == l[1..][i - 1];
    }
  }

  // ---------------------------------------------------------------- sufficient

  lemma MoveSafe(a: seq<Cond>, k: Cond, b: seq<Cond>)
    requires k.holds && SafeMove(Flags(a), k.or, Flags(b))
    ensures Holds(a + [k] + b) == Holds(a + b + [k])
  {
    var p := Run(START, a);
    Runs(a, k, b);
    RunOpen(START, a);
    if b == [] {
      assert a + [k] + b == a + b + [k];
    } else if k.or {
      RunAllOr(After(p, k), b);
      RunAllOr(p, b);
    } else {
      OkFactors(p, b);
      RunOpen(p, b);
    }
  }

  lemma Runs(a: seq<Cond>, k: Cond, b: seq<Cond>)
    ensures Run(START, a + [k] + b) == Run(After(Run(START, a), k), b)
    ensures Run(START, a + b + [k]) == After(Run(Run(START, a), b), k)
  {
    RunAppend(START, a + [k], b);
    RunAppend(START, a, [k]);
    RunAppend(START, a + b, [k]);
    RunAppend(START, a, b);
    assert forall p :: Run(p, [k]) == After(p, k) by {
      forall p: Progress
        ensures Run(p, [k]) == After(p, k)
      {
        assert [k][1..] == [];
      }
    }
  }

  /** A failed earlier block fails the whole and changes nothing else. */
  lemma {:induction false} OkFactors(p: Progress, l: seq<Cond>)
    ensures Run(p, l).ok == (p.ok && Run(p.(ok := true), l).ok)
    ensures Run(p, l).open == Run(p.(ok := true), l).open && Run(p, l).sat == Run(p.(ok := true), l).sat
    decreases |l|
  {
    if l != [] {
      OkFactors(After(p, l[0]), l[1..]);
      OkFactors(After(p.(ok := true), l[0]), l[1..]);
    }
  }

  // ---------------------------------------------------------------- necessary

  /** Everything holds. */
  function AllTrue(f: seq<bool>): seq<Cond> {
    seq(|f|, i requires 0 <= i < |f| => Cond(f[i], true))
  }

  /** The first block fails, the others hold. */
  function FirstFails(f: seq<bool>): seq<Cond> {
    if f == [] then []
    else [Cond(f[0], false)] + if f[0] then FirstFails(f[1..]) else AllTrue(f[1..])
  }

  /** The block left open fails, the closed ones hold. */
  function OpenFails(f: seq<bool>): seq<Cond> {
    if f == [] then []
    else [Cond(f[0], !AllOr(f))] + OpenFails(f[1..])
  }

  lemma {:induction false} AllTrueRuns(p: Progress, f: seq<bool>)
    requires p.ok && (p.open ==> p.sat)
    ensures Flags(AllTrue(f)) == f
    ensures Run(p, AllTrue(f)).ok
    ensures Run(p, AllTrue(f)).open ==> Run(p, AllTrue(f)).sat
    decreases |f|
  {
    if f != [] {
      assert AllTrue(f)[1..] == AllTrue(f[1..]);
      AllTrueRuns(After(p, Cond(f[0], true)), f[1..]);
    }
  }

  lemma {:induction false} FirstFailsRuns(p: Progress, f: seq<bool>)
    requires p.ok && f != []
    ensures Flags(FirstFails(f)) == f
    ensures AllOr(f) ==> Run(p, FirstFails(f)) == Progress(true, true, p.open && p.sat)
    ensures !AllOr(f) ==> Verdict(Run(p, FirstFails(f))) == Run(p, FirstFails(f)).ok == (p.open && p.sat)
    decreases |f|
  {
    var q := After(p, Cond(f[0], false));
    if f[0] {
      assert FirstFails(f)[1..] == FirstFails(f[1..]);
      if |f| > 1 {
        FirstFailsRuns(q, f[1..]);
        AllOrTail(f);
      }
    } else {
      assert FirstFails(f)[1..] == AllTrue(f[1..]);
      AllTrueRuns(q.(ok := true), f[1..]);
      OkFactors(q, AllTrue(f[1..]));
    }
  }

  lemma AllOrTail(f: seq<bool>)
    requires f != []
    ensures AllOr(f) <==> f[0] && AllOr(f[1..])
  {
    assert forall i | 1 <= i < |f| :: f[i] == f[1..][i - 1];
  }

  lemma {:induction false} OpenFailsRuns(p: Progress, f: seq<bool>)
    requires p.ok && !(p.open && p.sat)
    ensures Flags(OpenFails(f)) == f
    ensures Run(p, OpenFails(f)).ok && !(Run(p, OpenFails(f)).open && Run(p, OpenFails(f)).sat)
    decreases |f|
  {
    if f != [] {
      AllOrTail(f);
      assert OpenFails(f)[1..] == OpenFails(f[1..]);
      var q := After(p, Cond(f[0], !AllOr(f)));
      if q.open && q.sat {
        OpenHeldRuns(q, f[1..]);
      } else {
        OpenFailsRuns(q, f[1..]);
      }
    }
  }

  /** Inside a block that already holds and that the flags close later. */
  lemma {:induction false} OpenHeldRuns(p: Progress, f: seq<bool>)
    requires p.ok && !AllOr(f)
    requires p.open && p.sat
    ensures Flags(OpenFails(f)) == f
    ensures Run(p, OpenFails(f)).ok && !(Run(p, OpenFails(f)).open && Run(p, OpenFails(f)).sat)
    decreases |f|
  {
    AllOrTail(f);
    assert OpenFails(f)[1..] == OpenFails(f[1..]);
    var q := After(p, Cond(f[0], !AllOr(f)));
    if f[0] {
      OpenHeldRuns(q, f[1..]);
    } else {
      OpenFailsRuns(q, f[1..]);
    }
  }

  ghost predicate MeaningKept(fa: seq<bool>, k: bool, fb: seq<bool>) {
    forall a: seq<Cond>, b: seq<Cond> | Flags(a) == fa && Flags(b) == fb ::
      Holds(a + [Cond(k, true)] + b) == Holds(a + b + [Cond(k, true)])
  }

  /** Unless the condition holds, some packet is judged differently. */
  lemma MoveUnsafe(fa: seq<bool>, k: bool, fb: seq<bool>) returns (a: seq<Cond>, b: seq<Cond>)
    requires !SafeMove(fa, k, fb)
    ensures Flags(a) == fa && Flags(b) == fb
    ensures Holds(a + [Cond(k, true)] + b) != Holds(a + b + [Cond(k, true)])
  {
    AllTrueRuns(START, fa);
    OpenFailsRuns(START, fa);
    var c := Cond(k, true);
    if k {
      a, b := OpenFails(fa), FirstFails(fb);
      var p := Run(START, a);
      FirstFailsRuns(p, fb);
      FirstFailsRuns(After(p, c), fb);
    } else if LastOr(fa) {
      a, b := AllTrue(fa), FirstFails(fb);
      var p := Run(START, a);
      RunOpen(START, a);
      FirstFailsRuns(p, fb);
      FirstFailsRuns(After(p, c), fb);
    } else {
      a, b := AllTrue(fa), OpenFails(fb);
      var p := Run(START, a);
      RunOpen(START, a);
      OpenFailsRuns(p, fb);
      OpenFailsRuns(After(p, c), fb);
      RunOpen(After(p, c), b);
    }
    Runs(a, c, b);
  }

  lemma MoveExactly(fa: seq<bool>, k: bool, fb: seq<bool>)
    ensures MeaningKept(fa, k, fb) <==> SafeMove(fa, k, fb)
  {
    if SafeMove(fa, k, fb) {
      forall a: seq<Cond>, b: seq<Cond> | Flags(a) == fa && Flags(b) == fb
        ensures Holds(a + [Cond(k, true)] + b) == Holds(a + b + [Cond(k, true)])
      {
        MoveSafe(a, Cond(k, true), b);
      }
    } else {
      var a, b := MoveUnsafe(fa, k, fb);
    }
  }
}

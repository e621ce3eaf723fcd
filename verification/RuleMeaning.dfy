/** What the assembled rule means: nothing is lost or doubled, the offsets fall on instruction
    boundaries, and exactly when moving the state instruction leaves the or-blocks alone. */
module RuleMeaning {
  import opened Options
  import opened RuleAssembly
  import opened OrBlocks

  // ---------------------------------------------------------------- the stream

  lemma HeadWellFormed(prob: Option<Word>, probe: bool)
    ensures AllWellFormed(Head(prob, probe))
  {
  }

  lemma PartsWellFormed(prob: Option<Word>, probe: bool, cmds: seq<Insn>, acts: seq<Insn>)
    requires AllWellFormed(cmds) && AllWellFormed(acts)
    ensures AllWellFormed(MatchPart(prob, cmds, probe)) && AllWellFormed(ActionPart(cmds, acts))
  {
    HeadWellFormed(prob, probe);
    forall kind: Kind {
      OnlyKeeps(cmds, kind);
    }
    hide Only, Head, WellFormed;
  }

  /** Stepping through the rule by F_LEN meets the match part, stands on act_ofs, and then meets the
      action part up to cmd_len. */
  lemma WalkLands(prob: Option<Word>, probe: bool, cmds: seq<Insn>, acts: seq<Insn>)
    requires AllWellFormed(cmds) && AllWellFormed(acts)
    ensures
      var m, a := MatchPart(prob, cmds, probe), ActionPart(cmds, acts);
      && Walk(Flat(m)) == Some(m)
      && Walk(Flat(a)) == Some(a)
      && Walk(Flat(m) + Flat(a)) == Some(m + a)
  {
    PartsWellFormed(prob, probe, cmds, acts);
    hide MatchPart, ActionPart, Walk, Flat, WellFormed;
    var m, a := MatchPart(prob, cmds, probe), ActionPart(cmds, acts);
    WalkFlat(m);
    WalkFlat(a);
    WalkFlat(m + a);
    FlatAppend(m, a);
  }

  /** Every instruction of the two buffers is in the rule as often as it was in the buffers, and only
      the probability and the state probe are new. */
  lemma NothingLost(prob: Option<Word>, probe: bool, cmds: seq<Insn>, acts: seq<Insn>, i: Insn)
    requires AllWellFormed(cmds)
    ensures multiset(MatchPart(prob, cmds, probe) + ActionPart(cmds, acts))[i]
         == multiset(Head(prob, probe))[i] + multiset(cmds)[i] + multiset(acts)[i]
  {
    KindsPartition(cmds, i);
    hide Only, Head, AllWellFormed;
  }

  /** Plain instructions keep their order, and nothing else stands between the head and the state
      instruction. */
  lemma {:induction false} OrderKept(l: seq<Insn>, kind: Kind, j: nat, k: nat)
    requires AllWellFormed(l) && j < k < |l| && KindOf(l[j]) == kind && KindOf(l[k]) == kind
    ensures AllWellFormed(l[..j]) && AllWellFormed(l[..k])
    ensures |Only(l[..j], kind)| < |Only(l[..k], kind)| < |Only(l, kind)|
    ensures Only(l, kind)[|Only(l[..j], kind)|] == l[j]
    ensures Only(l, kind)[|Only(l[..k], kind)|] == l[k]
  {
    OnlySplit(l, j, kind);
    OnlySplit(l, k, kind);
    OnlySplit(l[..k], j, kind);
    assert l[..k][..j] == l[..j] && l[..k][j] == l[j];
  }

  lemma {:induction false} OnlySplit(l: seq<Insn>, k: nat, kind: Kind)
    requires AllWellFormed(l) && k < |l| && KindOf(l[k]) == kind
    ensures AllWellFormed(l[..k])
    ensures |Only(l[..k], kind)| < |Only(l, kind)| && Only(l, kind)[|Only(l[..k], kind)|] == l[k]
  {
    if k > 0 {
      OnlySplit(l[1..], k - 1, kind);
      assert l[..k][1..] == l[1..][..k - 1];
    }
  }

  // ---------------------------------------------------------------- the or-blocks

  function OrFlags(l: seq<Insn>): seq<bool>
    requires AllWellFormed(l)
  {
    seq(|l|, i requires 0 <= i < |l| => assert WellFormed(l[i]); FOr(l[i][0]))
  }

  ghost predicate AllOf(l: seq<Insn>, kinds: set<Kind>)
    requires AllWellFormed(l)
  {
    forall i | 0 <= i < |l| :: WellFormed(l[i]) && KindOf(l[i]) in kinds
  }

  lemma {:induction false} OnlyOfAll(l: seq<Insn>, kinds: set<Kind>, kind: Kind)
    requires AllWellFormed(l) && AllOf(l, kinds)
    ensures kind !in kinds ==> Only(l, kind) == []
    ensures kinds == {kind} ==> Only(l, kind) == l
  {
    if l != [] {
      assert AllOf(l[1..], kinds);
      OnlyOfAll(l[1..], kinds, kind);
      assert [l[0]] + l[1..] == l;
    }
  }

  lemma {:induction false} OnlyAppend(a: seq<Insn>, b: seq<Insn>, kind: Kind)
    requires AllWellFormed(a) && AllWellFormed(b)
    ensures Only(a + b, kind) == Only(a, kind) + Only(b, kind)
  {
    hide KindOf, WellFormed;
    if a == [] {
      assert a + b == b;
    } else {
      assert (a + b)[1..] == a[1..] + b;
      OnlyAppend(a[1..], b, kind);
    }
  }

  /** The parsing phase writes the action parameters first, without F_OR, and then the options with at
      most one state instruction among them. */
  ghost predicate Parsed(h: seq<Insn>, a: seq<Insn>, k: Insn, b: seq<Insn>) {
    && AllWellFormed(h) && AllWellFormed(a) && WellFormed(k) && AllWellFormed(b)
    && AllOf(h, {Log, Altq, Tag}) && AllOf(a, {Plain}) && KindOf(k) == State && AllOf(b, {Plain})
    && forall i | 0 <= i < |h| :: !FOr(h[i][0])
  }

  lemma OnlyFour(h: seq<Insn>, a: seq<Insn>, k: Insn, b: seq<Insn>, kind: Kind)
    requires AllWellFormed(h) && AllWellFormed(a) && WellFormed(k) && AllWellFormed(b)
    ensures AllWellFormed(h + a + [k] + b)
    ensures Only(h + a + [k] + b, kind) == Only(h, kind) + Only(a, kind) + Only([k], kind) + Only(b, kind)
  {
    hide Only, WellFormed;
    OnlyAppend(h, a, kind);
    OnlyAppend(h + a, [k], kind);
    OnlyAppend(h + a + [k], b, kind);
  }

  lemma RearrangedKind(h: seq<Insn>, a: seq<Insn>, k: Insn, b: seq<Insn>, kind: Kind)
    requires Parsed(h, a, k, b) && (kind == Plain || kind == State)
    ensures AllWellFormed(h + a + [k] + b)
    ensures Only(h + a + [k] + b, kind) == if kind == Plain then a + b else [k]
  {
    hide Only, WellFormed, AllOf, KindOf, AllWellFormed;
    OnlyFour(h, a, k, b, kind);
    OnlyOfAll(h, {Log, Altq, Tag}, kind);
    OnlyOfAll(a, {Plain}, kind);
    OnlyOfAll(b, {Plain}, kind);
    OnlySingle(k, kind);
  }

  lemma OnlySingle(k: Insn, kind: Kind)
    requires WellFormed(k)
    ensures AllWellFormed([k]) && Only([k], kind) == if KindOf(k) == kind then [k] else []
  {
    assert [k][1..] == [];
  }

  lemma Rearranged(h: seq<Insn>, a: seq<Insn>, k: Insn, b: seq<Insn>)
    requires Parsed(h, a, k, b)
    ensures AllWellFormed(h + a + [k] + b)
    ensures Only(h + a + [k] + b, Plain) + Only(h + a + [k] + b, State) == a + b + [k]
  {
    hide Parsed, AllWellFormed, Only;
    RearrangedKind(h, a, k, b, Plain);
    RearrangedKind(h, a, k, b, State);
  }

  /** Action parameters in front always hold and close their own blocks. */
  lemma {:induction false} ParamsNeutral(f: seq<bool>, l: seq<Cond>)
    requires forall i | 0 <= i < |f| :: !f[i]
    ensures Holds(AllTrue(f) + l) == Holds(l)
  {
    if f == [] {
      assert AllTrue(f) + l == l;
    } else {
      assert (AllTrue(f) + l)[1..] == AllTrue(f[1..]) + l;
      ParamsNeutral(f[1..], l);
    }
  }

  /** What the instructions of a list are for a packet: each with its flag and an outcome. */
  function Judged(l: seq<Insn>, outcomes: seq<bool>): seq<Cond>
    requires AllWellFormed(l) && |outcomes| == |l|
  {
    seq(|l|, i requires 0 <= i < |l| => assert WellFormed(l[i]); Cond(FOr(l[i][0]), outcomes[i]))
  }

  /** The outcomes of the parsed instructions, given those of the options before and behind the state
      instruction: action parameters and the state instruction always hold. */
  function ParsedOutcomes(h: seq<Insn>, va: seq<bool>, vb: seq<bool>): seq<bool> {
    seq(|h|, _ => true) + va + [true] + vb
  }

  lemma JudgedAppend(a: seq<Insn>, b: seq<Insn>, va: seq<bool>, vb: seq<bool>)
    requires AllWellFormed(a) && AllWellFormed(b) && |va| == |a| && |vb| == |b|
    ensures AllWellFormed(a + b) && Judged(a + b, va + vb) == Judged(a, va) + Judged(b, vb)
  {
    hide WellFormed, FOr;
    var l, v := a + b, va + vb;
    forall i | 0 <= i < |l|
      ensures WellFormed(l[i]) && Judged(l, v)[i] == (Judged(a, va) + Judged(b, vb))[i]
    {
      if i < |a| {
        assert l[i] == a[i] && v[i] == va[i];
      } else {
        assert l[i] == b[i - |a|] && v[i] == vb[i - |a|];
      }
    }
  }

  lemma JudgedFlags(l: seq<Insn>, v: seq<bool>)
    requires AllWellFormed(l) && |v| == |l|
    ensures Flags(Judged(l, v)) == OrFlags(l)
  {
  }

  /** Every way the instructions may turn out is some outcome. */
  lemma JudgedAll(l: seq<Insn>, c: seq<Cond>) returns (v: seq<bool>)
    requires AllWellFormed(l) && Flags(c) == OrFlags(l)
    ensures |v| == |l| && Judged(l, v) == c
  {
    v := seq(|c|, i requires 0 <= i < |c| => c[i].holds);
    assert |Flags(c)| == |OrFlags(l)|;
    forall i | 0 <= i < |l|
      ensures Judged(l, v)[i] == c[i]
    {
      assert Flags(c)[i] == OrFlags(l)[i];
    }
  }

  /** Both readings of the options, before and after the state instruction is moved. */
  lemma Readings(h: seq<Insn>, a: seq<Insn>, k: Insn, b: seq<Insn>, va: seq<bool>, vb: seq<bool>)
    requires Parsed(h, a, k, b) && |va| == |a| && |vb| == |b|
    ensures var cmds, ck := h + a + [k] + b, Cond(FOr(k[0]), true);
            && AllWellFormed(cmds) && AllWellFormed(Only(cmds, Plain) + Only(cmds, State))
            && |ParsedOutcomes(h, va, vb)| == |cmds| && |va + vb + [true]| == |Only(cmds, Plain) + Only(cmds, State)|
            && Judged(cmds, ParsedOutcomes(h, va, vb)) == AllTrue(OrFlags(h)) + (Judged(a, va) + [ck] + Judged(b, vb))
            && Judged(Only(cmds, Plain) + Only(cmds, State), va + vb + [true]) == Judged(a, va) + Judged(b, vb) + [ck]
  {
    Rearranged(h, a, k, b);
    var vh := seq(|h|, _ => true);
    assert Judged(h, vh) == AllTrue(OrFlags(h));
    assert Judged([k], [true]) == [Cond(FOr(k[0]), true)];
    hide Judged, Only, OrFlags, AllTrue, WellFormed, FOr;
    JudgedAppend(h, a, vh, va);
    JudgedAppend(h + a, [k], vh + va, [true]);
    JudgedAppend(h + a + [k], b, vh + va + [true], vb);
    JudgedAppend(a, b, va, vb);
    JudgedAppend(a + b, [k], va + vb, [true]);
  }

  /** The plain instructions and the state instruction, as the rule has them, judge every packet as the
      parsed commands do. */
  ghost predicate SameVerdicts(h: seq<Insn>, a: seq<Insn>, k: Insn, b: seq<Insn>)
    requires Parsed(h, a, k, b)
  {
    forall va: seq<bool>, vb: seq<bool> | |va| == |a| && |vb| == |b| :: SameVerdict(h, a, k, b, va, vb)
  }

  ghost predicate SameVerdict(h: seq<Insn>, a: seq<Insn>, k: Insn, b: seq<Insn>, va: seq<bool>, vb: seq<bool>)
    requires Parsed(h, a, k, b) && |va| == |a| && |vb| == |b|
  {
    var cmds := h + a + [k] + b;
    && AllWellFormed(cmds) && AllWellFormed(Only(cmds, Plain) + Only(cmds, State))
    && |va + vb + [true]| == |Only(cmds, Plain) + Only(cmds, State)|
    && Holds(Judged(cmds, ParsedOutcomes(h, va, vb)))
       == Holds(Judged(Only(cmds, Plain) + Only(cmds, State), va + vb + [true]))
  }

  lemma VerdictIs(h: seq<Insn>, a: seq<Insn>, k: Insn, b: seq<Insn>, va: seq<bool>, vb: seq<bool>)
    requires Parsed(h, a, k, b) && |va| == |a| && |vb| == |b|
    ensures var ck := Cond(FOr(k[0]), true);
            SameVerdict(h, a, k, b, va, vb)
            <==> Holds(Judged(a, va) + [ck] + Judged(b, vb)) == Holds(Judged(a, va) + Judged(b, vb) + [ck])
  {
    Readings(h, a, k, b, va, vb);
    assert forall i | 0 <= i < |OrFlags(h)| :: !OrFlags(h)[i];
    hide Judged, Only, OrFlags, AllTrue, WellFormed, FOr, Holds, Parsed;
    ParamsNeutral(OrFlags(h), Judged(a, va) + [Cond(FOr(k[0]), true)] + Judged(b, vb));
  }

  /** What Assemble writes behind the head of the match part is those instructions, and they judge every
      packet as the parsed options do if and only if the state instruction could be moved safely. */
  lemma OrBlocksKept(prob: Option<Word>, h: seq<Insn>, a: seq<Insn>, k: Insn, b: seq<Insn>)
    requires Parsed(h, a, k, b)
    ensures var cmds := h + a + [k] + b;
            AllWellFormed(cmds) && MatchPart(prob, cmds, true) == Head(prob, true) + (Only(cmds, Plain) + Only(cmds, State))
    ensures SameVerdicts(h, a, k, b) <==> SafeMove(OrFlags(a), FOr(k[0]), OrFlags(b))
  {
    Rearranged(h, a, k, b);
    MoveExactly(OrFlags(a), FOr(k[0]), OrFlags(b));
    if SafeMove(OrFlags(a), FOr(k[0]), OrFlags(b)) {
      forall va: seq<bool>, vb: seq<bool> | |va| == |a| && |vb| == |b|
        ensures SameVerdict(h, a, k, b, va, vb)
      {
        JudgedFlags(a, va);
        JudgedFlags(b, vb);
        VerdictIs(h, a, k, b, va, vb);
      }
    } else {
      var ca, cb := MoveUnsafe(OrFlags(a), FOr(k[0]), OrFlags(b));
      var va := JudgedAll(a, ca);
      var vb := JudgedAll(b, cb);
      VerdictIs(h, a, k, b, va, vb);
    }
  }
}

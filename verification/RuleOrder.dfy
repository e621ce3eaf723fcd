/** The order of the assembled rule by opcode number, the room it takes, and or-blocks without the
    matcher's state. */
module RuleOrder {
  import opened Options
  import opened RuleAssembly
  import opened OrBlocks

  // ---------------------------------------------------------------- the length octet

  /** F_NOT, F_OR and F_LEN_MASK: the most significant bit, the next one, and the other six. */
  lemma LengthOctet(w: Word)
    requires w.len < 256
    ensures w.len == (if w.len >= 128 then 128 else 0) + (if FOr(w) then 64 else 0) + FLen(w) && FLen(w) < 64
  {
  }

  // ---------------------------------------------------------------- the order

  predicate OpcodeIn(i: Insn, ops: set<nat>) {
    |i| > 0 && i[0].opcode in ops
  }

  /** The instructions the rule keeps in place: not keep-state (39), limit (40), log (42), altq (63) or
      tag (80). */
  predicate Stays(i: Insn) {
    |i| > 0 && !OpcodeIn(i, {39, 40, 42, 63, 80})
  }

  ghost predicate AllFrom(l: seq<Insn>, cmds: seq<Insn>, ops: set<nat>) {
    forall i | 0 <= i < |l| :: l[i] in cmds && OpcodeIn(l[i], ops)
  }

  ghost predicate AllStay(l: seq<Insn>, cmds: seq<Insn>) {
    forall i | 0 <= i < |l| :: l[i] in cmds && Stays(l[i])
  }

  function Opcodes(kind: Kind): set<nat>
    requires kind != Plain
  {
    match kind
    case State => {39, 40}
    case Log => {42}
    case Altq => {63}
    case Tag => {80}
  }

  lemma {:induction false} OnlyIs(cmds: seq<Insn>, kind: Kind)
    requires AllWellFormed(cmds)
    ensures if kind == Plain then AllStay(Only(cmds, kind), cmds) else AllFrom(Only(cmds, kind), cmds, Opcodes(kind))
  {
    if cmds != [] {
      assert WellFormed(cmds[0]);
      OnlyIs(cmds[1..], kind);
    }
  }

  /** The match part: the probability first, the state probe next, then what stays, then the state
      instructions. The action part: log, altq and tag instructions in that order, then the action buffer. */
  lemma WrittenOrder(prob: Option<Word>, probe: bool, cmds: seq<Insn>, acts: seq<Insn>)
    requires AllWellFormed(cmds)
    ensures exists rest, state ::
              && MatchPart(prob, cmds, probe)
                 == (if prob.Some? then [[Word(43, 2, 0), prob.value]] else [])
                    + (if probe then [[Word(38, 1, 0)]] else []) + rest + state
              && AllStay(rest, cmds) && AllFrom(state, cmds, {39, 40})
    ensures exists log, altq, tag ::
              && ActionPart(cmds, acts) == log + altq + tag + acts
              && AllFrom(log, cmds, {42}) && AllFrom(altq, cmds, {63}) && AllFrom(tag, cmds, {80})
  {
    OnlyIs(cmds, Plain);
    OnlyIs(cmds, State);
    OnlyIs(cmds, Log);
    OnlyIs(cmds, Altq);
    OnlyIs(cmds, Tag);
    hide Only, AllStay, AllFrom;
    var rest, state := Only(cmds, Plain), Only(cmds, State);
    assert AllStay(rest, cmds) && AllFrom(state, cmds, {39, 40});
    var log, altq, tag := Only(cmds, Log), Only(cmds, Altq), Only(cmds, Tag);
    assert AllFrom(log, cmds, {42}) && AllFrom(altq, cmds, {63}) && AllFrom(tag, cmds, {80});
  }

  // ---------------------------------------------------------------- the room

  /** The words of the instructions that the copying loop skips. */
  function MovedWords(cmds: seq<Insn>): nat {
    if cmds == [] then 0 else (if Stays(cmds[0]) then 0 else |cmds[0]|) + MovedWords(cmds[1..])
  }

  lemma {:induction false} MovedIs(cmds: seq<Insn>)
    requires AllWellFormed(cmds)
    ensures MovedWords(cmds) + Words(cmds, Plain) == |Flat(cmds)|
  {
    if cmds == [] {
      NoneOf(Plain, []);
    } else {
      var i := cmds[0];
      assert WellFormed(i) && (KindOf(i) == Plain <==> Stays(i));
      hide KindOf, Stays, WellFormed, Only, Words, Count;
      OnlyHead(cmds, Plain, []);
      MovedIs(cmds[1..]);
    }
  }

  /** The space check adds up the words of the rule, with the moved instructions twice and without the
      match probability. */
  lemma RoomExactly(prob: Option<Word>, probe: bool, cmds: seq<Insn>, acts: seq<Insn>)
    requires AllWellFormed(cmds)
    ensures Accounted(cmds, probe, acts) + (if prob.Some? then 2 else 0)
         == |Flat(MatchPart(prob, cmds, probe))| + |Flat(ActionPart(cmds, acts))| + MovedWords(cmds)
  {
    WordsAre(cmds);
    hide Flat, Only, Words, MatchPart, ActionPart, Head;
    PartsFlat(prob, probe, cmds, acts);
    HeadFlat(prob, probe);
    KindsPartition(cmds, []);
    MovedIs(cmds);
  }

  // ---------------------------------------------------------------- or-blocks

  /** Instruction k holds and is or'ed with everything up to e. */
  predicate Reaches(l: seq<Cond>, k: nat, e: nat)
    requires k <= e < |l|
  {
    l[k].holds && forall m | k <= m < e :: l[m].or
  }

  /** Something that is or'ed with instruction e, up to it, holds. */
  predicate Met(l: seq<Cond>, e: nat)
    requires e < |l|
  {
    exists k: nat | k <= e :: Reaches(l, k, e)
  }

  /** The last instruction of every block: without the flag, or the last of all. */
  predicate EveryBlockMet(l: seq<Cond>) {
    forall e: nat | e < |l| && (!l[e].or || e == |l| - 1) :: Met(l, e)
  }

  predicate ClosedMet(l: seq<Cond>) {
    forall e: nat | e < |l| && !l[e].or :: Met(l, e)
  }

  lemma MetPrefix(l: seq<Cond>, c: Cond, e: nat)
    requires e < |l|
    ensures Met(l + [c], e) <==> Met(l, e)
  {
    var t := l + [c];
    forall k: nat | k <= e
      ensures Reaches(t, k, e) <==> Reaches(l, k, e)
    {
      assert forall m | k <= m <= e :: t[m] == l[m];
    }
  }

  lemma MetLast(l: seq<Cond>, c: Cond)
    ensures Met(l + [c], |l|) <==> c.holds || (l != [] && l[|l| - 1].or && Met(l, |l| - 1))
  {
    var t, n := l + [c], |l|;
    if c.holds {
      assert Reaches(t, n, n);
    }
    if l != [] && l[n - 1].or && Met(l, n - 1) {
      var k: nat :| k <= n - 1 && Reaches(l, k, n - 1);
      assert Reaches(t, k, n) by {
        assert forall m | k <= m < n :: t[m] == l[m];
      }
    }
    if Met(t, n) && !c.holds {
      var k: nat :| k <= n && Reaches(t, k, n);
      assert k < n && t[n - 1].or;
      assert Reaches(l, k, n - 1) by {
        assert forall m | k <= m < n :: t[m] == l[m];
      }
    }
  }

  lemma {:induction false} RunIs(l: seq<Cond>)
    ensures var p := Run(START, l);
            && (p.ok <==> ClosedMet(l))
            && (p.open <==> l != [] && l[|l| - 1].or)
            && (p.open ==> (p.sat <==> Met(l, |l| - 1)))
  {
    hide Met;
    if l != [] {
      var n := |l| - 1;
      var a, c := l[..n], l[n];
      assert l == a + [c];
      RunIs(a);
      RunAppend(START, a, [c]);
      assert Run(Run(START, a), [c]) == After(Run(START, a), c) by {
        assert [c][1..] == [];
      }
      hide Run;
      MetLast(a, c);
      forall e: nat | e < n
        ensures Met(l, e) <==> Met(a, e)
      {
        MetPrefix(a, c, e);
      }
      assert ClosedMet(l) <==> ClosedMet(a) && (c.or || Met(l, n));
    }
  }

  /** The matcher accepts exactly when every block of instructions that are or'ed together has one that
      holds. */
  lemma HoldsIs(l: seq<Cond>)
    ensures Holds(l) <==> EveryBlockMet(l)
  {
    RunIs(l);
    hide Run, Met;
    assert EveryBlockMet(l) <==> ClosedMet(l) && (l != [] ==> Met(l, |l| - 1));
  }
}

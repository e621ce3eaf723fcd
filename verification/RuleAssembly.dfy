/** The last phase of compile_rule (lib/ipfw/ipfw2.c): the instructions collected in two buffers are
    copied into the rule in the order the kernel expects. */
module RuleAssembly {
  import opened Options

  /** A 32-bit word, seen through the fields of ipfw_insn. */
  datatype Word = Word(opcode: nat, len: nat, arg1: nat)

  const ZERO := Word(0, 0, 0)

  const O_PROBE_STATE: nat := 38
  const O_KEEP_STATE: nat := 39
  const O_LIMIT: nat := 40
  const O_LOG: nat := 42
  const O_PROB: nat := 43
  const O_ALTQ: nat := 63
  const O_TAG: nat := 80

  function FLen(w: Word): nat {
    w.len % 0x40
  }

  predicate FOr(w: Word) {
    w.len / 0x40 % 2 == 1
  }

  // ---------------------------------------------------------------- instruction streams

  /** An instruction: one or more words, the first of which announces how many. */
  type Insn = seq<Word>

  predicate WellFormed(i: Insn) {
    |i| > 0 && FLen(i[0]) == |i|
  }

  predicate AllWellFormed(l: seq<Insn>) {
    forall k | 0 <= k < |l| :: WellFormed(l[k])
  }

  function Flat(l: seq<Insn>): seq<Word> {
    if l == [] then [] else l[0] + Flat(l[1..])
  }

  /** The instructions met by stepping from first word to first word; None when a step has no length
      or leaves the stream. */
  function Walk(ws: seq<Word>): Option<seq<Insn>> {
    if ws == [] then Some([])
    else
      var n := FLen(ws[0]);
      if n == 0 || n > |ws| then None
      else
        match Walk(ws[n..])
        case None => None
        case Some(rest) => Some([ws[..n]] + rest)
  }

  lemma {:induction false} FlatAppend(a: seq<Insn>, b: seq<Insn>)
    ensures Flat(a + b) == Flat(a) + Flat(b)
  {
    if a == [] {
      assert a + b == b;
    } else {
      assert (a + b)[1..] == a[1..] + b;
      FlatAppend(a[1..], b);
    }
  }

  lemma FlatOne(i: Insn)
    ensures Flat([i]) == i
  {
    assert [i][1..] == [];
  }

  lemma FlatTake(l: seq<Insn>, k: nat)
    requires k < |l|
    ensures Flat(l[..k + 1]) == Flat(l[..k]) + l[k]
    ensures Flat(l) == Flat(l[..k]) + l[k] + Flat(l[k + 1..])
  {
    hide Flat;
    assert l[..k + 1] == l[..k] + [l[k]] && l == l[..k + 1] + l[k + 1..];
    FlatAppend(l[..k], [l[k]]);
    FlatAppend(l[..k + 1], l[k + 1..]);
    FlatOne(l[k]);
  }

  /** Walking a concatenation of instructions finds exactly them. */
  lemma {:induction false} WalkFlat(l: seq<Insn>)
    requires AllWellFormed(l)
    ensures Walk(Flat(l)) == Some(l)
  {
    if l != [] {
      assert AllWellFormed(l[1..]);
      WalkFlat(l[1..]);
      var ws := Flat(l);
      assert ws[..|l[0]|] == l[0] && ws[|l[0]|..] == Flat(l[1..]);
      assert [l[0]] + l[1..] == l;
    }
  }

  /** A stream that can be walked is the concatenation of what the walk finds. */
  lemma {:induction false} FlatWalk(ws: seq<Word>)
    requires Walk(ws).Some?
    ensures AllWellFormed(Walk(ws).value) && Flat(Walk(ws).value) == ws
    decreases |ws|
  {
    if ws != [] {
      var n := FLen(ws[0]);
      FlatWalk(ws[n..]);
      var rest := Walk(ws[n..]).value;
      assert Walk(ws).value == [ws[..n]] + rest;
      FlatAppend([ws[..n]], rest);
      FlatOne(ws[..n]);
    }
  }

  // ---------------------------------------------------------------- the kinds of instruction

  datatype Kind = Plain | State | Log | Altq | Tag

  function KindOf(i: Insn): Kind
    requires |i| > 0
  {
    if i[0].opcode == O_KEEP_STATE || i[0].opcode == O_LIMIT then State
    else if i[0].opcode == O_LOG then Log
    else if i[0].opcode == O_ALTQ then Altq
    else if i[0].opcode == O_TAG then Tag
    else Plain
  }

  /** The instructions of one kind, in source order. */
  function Only(l: seq<Insn>, kind: Kind): seq<Insn>
    requires AllWellFormed(l)
  {
    if l == [] then [] else (if KindOf(l[0]) == kind then [l[0]] else []) + Only(l[1..], kind)
  }

  lemma {:induction false} OnlyTake(l: seq<Insn>, k: nat, kind: Kind)
    requires AllWellFormed(l) && k < |l|
    ensures AllWellFormed(l[..k]) && AllWellFormed(l[..k + 1])
    ensures Only(l[..k + 1], kind) == Only(l[..k], kind) + if KindOf(l[k]) == kind then [l[k]] else []
  {
    if k > 0 {
      OnlyTake(l[1..], k - 1, kind);
      assert l[..k + 1][1..] == l[1..][..k] && l[..k][1..] == l[1..][..k - 1];
    }
  }

  lemma {:induction false} OnlyKeeps(l: seq<Insn>, kind: Kind)
    requires AllWellFormed(l)
    ensures AllWellFormed(Only(l, kind))
    ensures |Flat(Only(l, kind))| <= |Flat(l)|
  {
    if l != [] {
      OnlyKeeps(l[1..], kind);
      var head: seq<Insn> := if KindOf(l[0]) == kind then [l[0]] else [];
      FlatAppend(head, Only(l[1..], kind));
    }
  }

  function Words(l: seq<Insn>, kind: Kind): nat
    requires AllWellFormed(l)
  {
    |Flat(Only(l, kind))|
  }

  function Count(l: seq<Insn>, kind: Kind, i: Insn): nat
    requires AllWellFormed(l)
  {
    multiset(Only(l, kind))[i]
  }

  lemma OnlyHead(l: seq<Insn>, kind: Kind, i: Insn)
    requires AllWellFormed(l) && l != []
    ensures AllWellFormed(l[1..])
    ensures Count(l, kind, i) == (if KindOf(l[0]) == kind && l[0] == i then 1 else 0) + Count(l[1..], kind, i)
    ensures Words(l, kind) == (if KindOf(l[0]) == kind then |l[0]| else 0) + Words(l[1..], kind)
  {
    if KindOf(l[0]) == kind {
      FlatAppend([l[0]], Only(l[1..], kind));
      FlatOne(l[0]);
    } else {
      assert Only(l, kind) == Only(l[1..], kind);
    }
  }

  lemma NoneOf(kind: Kind, i: Insn)
    ensures Count([], kind, i) == 0 && Words([], kind) == 0
  {
  }

  /** The five kinds share out the instructions: none is lost and none is doubled. */
  lemma {:induction false} KindsPartition(l: seq<Insn>, i: Insn)
    requires AllWellFormed(l)
    ensures Count(l, Plain, i) + Count(l, State, i) + Count(l, Log, i) + Count(l, Altq, i) + Count(l, Tag, i) == multiset(l)[i]
    ensures Words(l, Plain) + Words(l, State) + Words(l, Log) + Words(l, Altq) + Words(l, Tag) == |Flat(l)|
  {
    hide Count, Words, Only, KindOf, WellFormed, FLen;
    if l == [] {
      NoneOf(Plain, i);
      NoneOf(State, i);
      NoneOf(Log, i);
      NoneOf(Altq, i);
      NoneOf(Tag, i);
    } else {
      OnlyHead(l, Plain, i);
      OnlyHead(l, State, i);
      OnlyHead(l, Log, i);
      OnlyHead(l, Altq, i);
      OnlyHead(l, Tag, i);
      KindsPartition(l[1..], i);
      assert l == [l[0]] + l[1..];
      assert multiset(l)[i] == (if l[0] == i then 1 else 0) + multiset(l[1..])[i];
    }
  }

  // ---------------------------------------------------------------- what the parsing phase hands over

  /** have_log, have_altq and have_tag: where the only instruction of the kind is, or nothing when
      there is none. */
  ghost predicate PointsAt(l: seq<Insn>, kind: Kind, have: Option<nat>)
    requires AllWellFormed(l)
  {
    match have
    case None => Only(l, kind) == []
    case Some(at) => exists k | 0 <= k < |l| :: at == |Flat(l[..k])| && Only(l, kind) == [l[k]]
  }

  /** have_state: nothing, the check-state action, or a keep-state or limit option. */
  datatype HaveState = NoState | CheckState | Kept(at: nat)

  function StateOption(h: HaveState): Option<nat> {
    if h.Kept? then Some(h.at) else None
  }

  // ---------------------------------------------------------------- the specification

  function Head(prob: Option<Word>, probe: bool): seq<Insn> {
    (if prob.Some? then [[Word(O_PROB, 2, 0), prob.value]] else [])
    + if probe then [[Word(O_PROBE_STATE, 1, 0)]] else []
  }

  function MatchPart(prob: Option<Word>, cmds: seq<Insn>, probe: bool): seq<Insn>
    requires AllWellFormed(cmds)
  {
    Head(prob, probe) + Only(cmds, Plain) + Only(cmds, State)
  }

  function ActionPart(cmds: seq<Insn>, acts: seq<Insn>): seq<Insn>
    requires AllWellFormed(cmds)
  {
    Only(cmds, Log) + Only(cmds, Altq) + Only(cmds, Tag) + acts
  }

  /** What the space check adds up: the moved instructions count twice, the match probability never. */
  function MatchAccounted(cmds: seq<Insn>, probe: bool): nat
    requires AllWellFormed(cmds)
  {
    (if probe then 1 else 0) + |Flat(cmds)| + Words(cmds, State)
  }

  function ParamWords(cmds: seq<Insn>): nat
    requires AllWellFormed(cmds)
  {
    Words(cmds, Log) + Words(cmds, Altq) + Words(cmds, Tag)
  }

  function Accounted(cmds: seq<Insn>, probe: bool, acts: seq<Insn>): nat
    requires AllWellFormed(cmds)
  {
    MatchAccounted(cmds, probe) + ParamWords(cmds) + |Flat(acts)|
  }

  // ---------------------------------------------------------------- the copying loops

  /** bcopy of whole words between two buffers. */
  method CopyWords(src: array<Word>, from: nat, n: nat, dst: array<Word>, at: nat)
    requires src != dst && from + n <= src.Length && at + n <= dst.Length
    modifies dst
    ensures dst[..at + n] == old(dst[..at]) + src[from..from + n]
    ensures dst[at + n..] == old(dst[at + n..])
  {
    var j := 0;
    while j < n
      invariant j <= n
      invariant dst[..at + j] == old(dst[..at]) + src[from..from + j]
      invariant dst[at + j..] == old(dst[at + j..])
    {
      dst[at + j] := src[from + j];
      j := j + 1;
    }
  }

  lemma WalkAt(ws: seq<Word>, k: nat)
    requires Walk(ws).Some? && k <= |Walk(ws).value|
    ensures AllWellFormed(Walk(ws).value) && Flat(Walk(ws).value) == ws
    ensures |Flat(Walk(ws).value[..k])| <= |ws|
    ensures |Flat(Walk(ws).value[..k])| == |ws| <==> k == |Walk(ws).value|
    ensures k < |Walk(ws).value| ==>
      var l := Walk(ws).value;
      var at := |Flat(l[..k])|;
      && 0 < |l[k]| && at + |l[k]| <= |ws| && at + |l[k]| == |Flat(l[..k + 1])|
      && ws[at..at + |l[k]|] == l[k] && FLen(ws[at]) == |l[k]| && ws[at] == l[k][0]
  {
    FlatWalk(ws);
    var l := Walk(ws).value;
    if k < |l| {
      FlatTake(l, k);
      assert WellFormed(l[k]);
      var at := |Flat(l[..k])|;
      assert ws == Flat(l[..k]) + l[k] + Flat(l[k + 1..]);
      assert ws[at..at + |l[k]|] == l[k];
    } else {
      assert l[..k] == l;
    }
  }

  lemma PlainStep(l: seq<Insn>, k: nat)
    requires AllWellFormed(l) && k < |l|
    ensures AllWellFormed(l[..k]) && AllWellFormed(l[..k + 1])
    ensures Flat(Only(l[..k + 1], Plain)) == Flat(Only(l[..k], Plain)) + if KindOf(l[k]) == Plain then l[k] else []
  {
    OnlyTake(l, k, Plain);
    if KindOf(l[k]) == Plain {
      FlatAppend(Only(l[..k], Plain), [l[k]]);
      FlatOne(l[k]);
    } else {
      assert Only(l[..k + 1], Plain) == Only(l[..k], Plain);
    }
  }

  lemma PlainEnds(l: seq<Insn>)
    requires AllWellFormed(l)
    ensures AllWellFormed(l[..0]) && AllWellFormed(l[..|l|])
    ensures Flat(l[..0]) == [] && Flat(Only(l[..0], Plain)) == [] && l[..|l|] == l
  {
  }

  /** The same, told of the part of the source buffer in use. */
  method CopyInsn(src: array<Word>, end: nat, from: nat, n: nat, dst: array<Word>, at: nat)
    requires src != dst && from + n <= end <= src.Length && at + n <= dst.Length
    modifies dst
    ensures dst[..at + n] == old(dst[..at]) + src[..end][from..from + n]
  {
    CopyWords(src, from, n, dst, at);
    assert src[from..from + n] == src[..end][from..from + n];
  }

  /** Copies every instruction of the command buffer except the moved kinds. */
  method CopyPlain(cmdbuf: array<Word>, cmdEnd: nat, rbuf: array<Word>, start: nat, room: nat)
    returns (ok: bool, dst: nat, rblen: nat)
    requires cmdbuf != rbuf && cmdEnd <= cmdbuf.Length && start + cmdEnd <= rbuf.Length
    requires Walk(cmdbuf[..cmdEnd]).Some?
    modifies rbuf
    ensures AllWellFormed(Walk(cmdbuf[..cmdEnd]).value)
    ensures ok <==> cmdEnd <= room
    ensures ok ==> rblen == room - cmdEnd
    ensures ok ==> dst <= rbuf.Length && rbuf[..dst] == old(rbuf[..start]) + Flat(Only(Walk(cmdbuf[..cmdEnd]).value, Plain))
  {
    hide Walk, Flat, Only, AllWellFormed;
    ghost var ws := cmdbuf[..cmdEnd];
    ghost var l := Walk(ws).value;
    ghost var k := 0;
    WalkAt(ws, 0);
    PlainEnds(l);
    var src := 0;
    dst, rblen, ok := start, room, true;
    while src != cmdEnd
      invariant ws == cmdbuf[..cmdEnd]
      invariant k <= |l| && src == |Flat(l[..k])| <= cmdEnd
      invariant AllWellFormed(l) && AllWellFormed(l[..k])
      invariant start <= dst <= start + src
      invariant rblen == room - src
      invariant rbuf[..dst] == old(rbuf[..start]) + Flat(Only(l[..k], Plain))
      decreases cmdEnd - src
    {
      WalkAt(ws, k);
      PlainStep(l, k);
      var i := FLen(cmdbuf[src]);
      if rblen < i {
        return false, dst, rblen;
      }
      rblen := rblen - i;
      var op := cmdbuf[src].opcode;
      if op != O_LOG && op != O_KEEP_STATE && op != O_LIMIT && op != O_ALTQ && op != O_TAG {
        CopyInsn(cmdbuf, cmdEnd, src, i, rbuf, dst);
        dst := dst + i;
      }
      src := src + i;
      k := k + 1;
      WalkAt(ws, k);
    }
    WalkAt(ws, k);
  }

  /** Copies the action buffer. */
  method CopyActions(actbuf: array<Word>, actEnd: nat, rbuf: array<Word>, start: nat, room: nat)
    returns (ok: bool, dst: nat)
    requires actbuf != rbuf && actEnd <= actbuf.Length && start + actEnd <= rbuf.Length
    requires Walk(actbuf[..actEnd]).Some?
    modifies rbuf
    ensures ok <==> actEnd <= room
    ensures ok ==> dst == start + actEnd && rbuf[..dst] == old(rbuf[..start]) + actbuf[..actEnd]
  {
    hide Walk, Flat, AllWellFormed, FLen, Only;
    ghost var ws := actbuf[..actEnd];
    ghost var l := Walk(ws).value;
    ghost var k := 0;
    WalkAt(ws, 0);
    PlainEnds(l);
    var src, rblen := 0, room;
    dst, ok := start, true;
    while src != actEnd
      invariant ws == actbuf[..actEnd]
      invariant k <= |l| && src == |Flat(l[..k])| <= actEnd
      invariant dst == start + src && rblen == room - src
      invariant rbuf[..dst] == old(rbuf[..start]) + ws[..src]
      decreases actEnd - src
    {
      WalkAt(ws, k);
      var i := FLen(actbuf[src]);
      if rblen < i {
        return false, dst;
      }
      rblen := rblen - i;
      CopyInsn(actbuf, actEnd, src, i, rbuf, dst);
      assert ws[..src + i] == ws[..src] + ws[src..src + i];
      dst, src, k := dst + i, src + i, k + 1;
      WalkAt(ws, k);
    }
    assert ws[..src] == ws;
  }

  lemma PointedInsn(ws: seq<Word>, kind: Kind, at: nat)
    requires Walk(ws).Some? && AllWellFormed(Walk(ws).value)
    requires PointsAt(Walk(ws).value, kind, Some(at))
    ensures at < |ws| && at + FLen(ws[at]) <= |ws|
    ensures Flat(Only(Walk(ws).value, kind)) == ws[at..at + FLen(ws[at])]
    ensures Words(Walk(ws).value, kind) == FLen(ws[at])
  {
    hide Walk, Flat, Only, AllWellFormed, FLen;
    var l := Walk(ws).value;
    var k :| 0 <= k < |l| && at == |Flat(l[..k])| && Only(l, kind) == [l[k]];
    WalkAt(ws, k);
    FlatOne(l[k]);
  }

  /** Puts a moved instruction back, if there is one. */
  method PutBack(have: Option<nat>, ghost kind: Kind, cmdbuf: array<Word>, cmdEnd: nat, rbuf: array<Word>, start: nat, room: nat)
    returns (ok: bool, dst: nat, rblen: nat)
    requires cmdbuf != rbuf && cmdEnd <= cmdbuf.Length
    requires Walk(cmdbuf[..cmdEnd]).Some? && AllWellFormed(Walk(cmdbuf[..cmdEnd]).value)
    requires PointsAt(Walk(cmdbuf[..cmdEnd]).value, kind, have)
    requires start + Words(Walk(cmdbuf[..cmdEnd]).value, kind) <= rbuf.Length
    modifies rbuf
    ensures ok <==> Words(Walk(cmdbuf[..cmdEnd]).value, kind) <= room
    ensures ok ==> rblen == room - Words(Walk(cmdbuf[..cmdEnd]).value, kind)
    ensures ok ==> dst == start + Words(Walk(cmdbuf[..cmdEnd]).value, kind)
    ensures ok ==> rbuf[..dst] == old(rbuf[..start]) + Flat(Only(Walk(cmdbuf[..cmdEnd]).value, kind))
  {
    dst, rblen, ok := start, room, true;
    if have.Some? {
      PointedInsn(cmdbuf[..cmdEnd], kind, have.value);
      var i := FLen(cmdbuf[have.value]);
      if rblen < i {
        return false, dst, rblen;
      }
      rblen := rblen - i;
      CopyInsn(cmdbuf, cmdEnd, have.value, i, rbuf, dst);
      dst := dst + i;
    }
  }

  /** The match probability and the O_PROBE_STATE that a kept state asks for. Only the latter is
      checked against the room left. */
  method WriteHead(prob: Option<Word>, probe: bool, rbuf: array<Word>, room: nat)
    returns (ok: bool, dst: nat, rblen: nat)
    requires 4 <= rbuf.Length
    modifies rbuf
    ensures ok <==> probe ==> room > 0
    ensures ok ==> dst <= 3 && rbuf[..dst] == Flat(Head(prob, probe))
    ensures ok ==> rblen == if probe then room - 1 else room
  {
    HeadFlat(prob, probe);
    hide Head, Flat;
    ok, dst, rblen := true, 0, room;
    if prob.Some? {
      rbuf[0], rbuf[1] := Word(O_PROB, 2, 0), prob.value;
      dst := 2;
    }
    if probe {
      rbuf[dst] := Word(O_PROBE_STATE, 1, 0);
      if rblen < 1 {
        return false, dst, rblen;
      }
      rblen := rblen - 1;
      dst := dst + 1;
      rbuf[dst] := ZERO;
    }
  }

  /** The three pointers into the command buffer that belong to the action part. */
  datatype Params = Params(log: Option<nat>, altq: Option<nat>, tag: Option<nat>)

  ghost predicate ParamsOk(cmds: seq<Insn>, have: Params)
    requires AllWellFormed(cmds)
  {
    PointsAt(cmds, Log, have.log) && PointsAt(cmds, Altq, have.altq) && PointsAt(cmds, Tag, have.tag)
  }

  /** Puts O_LOG, O_ALTQ and O_TAG back, in that order. */
  method PutBackParams(have: Params, cmdbuf: array<Word>, cmdEnd: nat, rbuf: array<Word>, start: nat, room: nat)
    returns (ok: bool, dst: nat, rblen: nat)
    requires cmdbuf != rbuf && cmdEnd <= cmdbuf.Length
    requires Walk(cmdbuf[..cmdEnd]).Some? && AllWellFormed(Walk(cmdbuf[..cmdEnd]).value)
    requires ParamsOk(Walk(cmdbuf[..cmdEnd]).value, have)
    requires start + ParamWords(Walk(cmdbuf[..cmdEnd]).value) <= rbuf.Length
    modifies rbuf
    ensures ok <==> ParamWords(Walk(cmdbuf[..cmdEnd]).value) <= room
    ensures ok ==> rblen == room - ParamWords(Walk(cmdbuf[..cmdEnd]).value)
    ensures ok ==> dst == start + ParamWords(Walk(cmdbuf[..cmdEnd]).value)
    ensures ok ==>
      var cmds := Walk(cmdbuf[..cmdEnd]).value;
      rbuf[..dst] == old(rbuf[..start]) + (Flat(Only(cmds, Log)) + Flat(Only(cmds, Altq)) + Flat(Only(cmds, Tag)))
  {
    hide Walk, Flat, Only, AllWellFormed, PointsAt, Words;
    ok, dst, rblen := PutBack(have.log, Log, cmdbuf, cmdEnd, rbuf, start, room);
    if ok {
      ok, dst, rblen := PutBack(have.altq, Altq, cmdbuf, cmdEnd, rbuf, dst, rblen);
    }
    if ok {
      ok, dst, rblen := PutBack(have.tag, Tag, cmdbuf, cmdEnd, rbuf, dst, rblen);
    }
  }

  /** Everything up to the action section. */
  method WriteMatchPart(prob: Option<Word>, cmdbuf: array<Word>, cmdEnd: nat, haveState: HaveState, rbuf: array<Word>, room: nat)
    returns (ok: bool, dst: nat, rblen: nat)
    requires cmdbuf != rbuf && cmdEnd <= cmdbuf.Length && cmdEnd + 4 <= rbuf.Length
    requires Walk(cmdbuf[..cmdEnd]).Some? && AllWellFormed(Walk(cmdbuf[..cmdEnd]).value)
    requires PointsAt(Walk(cmdbuf[..cmdEnd]).value, State, StateOption(haveState))
    modifies rbuf
    ensures ok <==> MatchAccounted(Walk(cmdbuf[..cmdEnd]).value, haveState.Kept?) <= room
    ensures ok ==> rblen == room - MatchAccounted(Walk(cmdbuf[..cmdEnd]).value, haveState.Kept?)
    ensures ok ==>
      var cmds := Walk(cmdbuf[..cmdEnd]).value;
      && dst <= 3 + Words(cmds, Plain) + Words(cmds, State) && dst <= rbuf.Length
      && rbuf[..dst] == Flat(MatchPart(prob, cmds, haveState.Kept?))
  {
    hide Walk, Flat, Only, AllWellFormed, PointsAt, MatchPart, Words, Head;
    ghost var cmds := Walk(cmdbuf[..cmdEnd]).value;
    FlatWalk(cmdbuf[..cmdEnd]);
    KindsPartition(cmds, []);
    WordsAre(cmds);
    PartsFlat(prob, haveState.Kept?, cmds, []);
    ok, dst, rblen := WriteHead(prob, haveState.Kept?, rbuf, room);
    if !ok {
      return;
    }
    ok, dst, rblen := CopyPlain(cmdbuf, cmdEnd, rbuf, dst, rblen);
    if !ok {
      return;
    }
    ok, dst, rblen := PutBack(StateOption(haveState), State, cmdbuf, cmdEnd, rbuf, dst, rblen);
  }

  /** The whole phase. The error is compile_rule's "Rule too long". Rule buffers are longer than both
      source buffers together, so the words written always fit; what the check refuses is stated
      exactly. */
  method Assemble(prob: Option<Word>, cmdbuf: array<Word>, cmdEnd: nat, actbuf: array<Word>, actEnd: nat,
                  haveState: HaveState, have: Params, rbuf: array<Word>, room: nat)
    returns (ok: bool, actOfs: nat, cmdLen: nat)
    requires cmdbuf != rbuf && actbuf != rbuf && cmdEnd <= cmdbuf.Length && actEnd <= actbuf.Length
    requires cmdEnd + actEnd + 4 <= rbuf.Length
    requires Walk(cmdbuf[..cmdEnd]).Some? && Walk(actbuf[..actEnd]).Some?
    requires AllWellFormed(Walk(cmdbuf[..cmdEnd]).value)
    requires PointsAt(Walk(cmdbuf[..cmdEnd]).value, State, StateOption(haveState))
    requires ParamsOk(Walk(cmdbuf[..cmdEnd]).value, have)
    modifies rbuf
    ensures ok <==> Accounted(Walk(cmdbuf[..cmdEnd]).value, haveState.Kept?, Walk(actbuf[..actEnd]).value) <= room
    ensures ok ==>
      var cmds := Walk(cmdbuf[..cmdEnd]).value;
      && actOfs <= cmdLen <= rbuf.Length
      && rbuf[..actOfs] == Flat(MatchPart(prob, cmds, haveState.Kept?))
      && rbuf[actOfs..cmdLen] == Flat(ActionPart(cmds, Walk(actbuf[..actEnd]).value))
  {
    hide Walk, Flat, Only, AllWellFormed, PointsAt, MatchPart, ActionPart, Words, Head, ParamsOk, MatchAccounted;
    ghost var cmds := Walk(cmdbuf[..cmdEnd]).value;
    FlatWalk(cmdbuf[..cmdEnd]);
    FlatWalk(actbuf[..actEnd]);
    KindsPartition(cmds, []);
    PartsFlat(prob, haveState.Kept?, cmds, Walk(actbuf[..actEnd]).value);
    cmdLen := 0;
    var rblen;
    ok, actOfs, rblen := WriteMatchPart(prob, cmdbuf, cmdEnd, haveState, rbuf, room);
    if !ok {
      return;
    }
    var dst;
    ok, dst, rblen := PutBackParams(have, cmdbuf, cmdEnd, rbuf, actOfs, rblen);
    if !ok {
      return;
    }
    ok, cmdLen := CopyActions(actbuf, actEnd, rbuf, dst, rblen);
  }

  lemma WordsAre(cmds: seq<Insn>)
    requires AllWellFormed(cmds)
    ensures forall kind: Kind :: |Flat(Only(cmds, kind))| == Words(cmds, kind)
  {
  }

  lemma PartsFlat(prob: Option<Word>, probe: bool, cmds: seq<Insn>, acts: seq<Insn>)
    requires AllWellFormed(cmds)
    ensures Flat(MatchPart(prob, cmds, probe)) == Flat(Head(prob, probe)) + Flat(Only(cmds, Plain)) + Flat(Only(cmds, State))
    ensures Flat(ActionPart(cmds, acts))
         == Flat(Only(cmds, Log)) + Flat(Only(cmds, Altq)) + Flat(Only(cmds, Tag)) + Flat(acts)
  {
    hide Flat, Only, Head;
    FlatAppend(Head(prob, probe), Only(cmds, Plain));
    FlatAppend(Head(prob, probe) + Only(cmds, Plain), Only(cmds, State));
    FlatAppend(Only(cmds, Log), Only(cmds, Altq));
    FlatAppend(Only(cmds, Log) + Only(cmds, Altq), Only(cmds, Tag));
    FlatAppend(Only(cmds, Log) + Only(cmds, Altq) + Only(cmds, Tag), acts);
  }

  lemma HeadFlat(prob: Option<Word>, probe: bool)
    ensures Flat(Head(prob, probe)) ==
      (if prob.Some? then [Word(O_PROB, 2, 0), prob.value] else []) + if probe then [Word(O_PROBE_STATE, 1, 0)] else []
  {
    var a: seq<Insn> := if prob.Some? then [[Word(O_PROB, 2, 0), prob.value]] else [];
    var b: seq<Insn> := if probe then [[Word(O_PROBE_STATE, 1, 0)]] else [];
    FlatAppend(a, b);
    FlatOne([Word(O_PROBE_STATE, 1, 0)]);
    if prob.Some? {
      FlatOne([Word(O_PROB, 2, 0), prob.value]);
    }
  }
}

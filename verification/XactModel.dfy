/** The transaction layer of lib/gtp/gtp_xact.c as values: one record per transaction and the step
    functions that the classes in XactLayer are proved against.

    Time is in milliseconds and is a parameter of every operation that arms a timer; the outcome of
    gtp_send is the parameter `sendOk`. */
module XactModel {
  import opened Options
  import opened GtpMessage

  const POOL_SIZE: nat := 64 * 16
  const RESPONSE_DURATION: nat := 3000
  const RESPONSE_RETRY_COUNT: nat := 3
  const HOLDING_DURATION: nat := RESPONSE_DURATION * RESPONSE_RETRY_COUNT
  const HOLDING_RETRY_COUNT: nat := 1
  const HEADER_LEN: nat := 12

  type Index = nat
  type Node = nat

  datatype Status = Ok | Error | Again
  datatype Org = Local | Remote

  /** A timer block of lib/core/src/timer.c; Absent when the event it would post is not configured. */
  datatype Timer = Absent | Idle | Running(expire: nat)

  datatype Packet = Packet(kind: Octet, length: Word16, teid: bv32, sqn: bv32, body: seq<Octet>)

  /** One entry of the per-transaction history `seq[3]`; kind 0 means nothing recorded. */
  datatype Slot = Slot(kind: Octet, pkbuf: Option<Packet>)

  type History = h: seq<Slot> | |h| == 3 witness [Slot(0, None), Slot(0, None), Slot(0, None)]

  datatype Xact = Xact(org: Org, xid: bv32, gnode: Node, step: nat, hist: History,
                       tmResponse: Timer, responseRcount: Octet,
                       tmHolding: Timer, holdingRcount: Octet,
                       assoc: Option<Index>)

  /** Which of the two timer events gtp_xact_init was given. */
  datatype Config = Config(response: bool, holding: bool)

  // ---------------------------------------------------------------- timers

  function Start(t: Timer, now: nat, duration: nat): Timer {
    if t.Absent? then Absent else Running(now + duration)
  }

  function Stop(t: Timer): Timer {
    if t.Absent? then Absent else Idle
  }

  // ---------------------------------------------------------------- one transaction

  function NewXact(cfg: Config, org: Org, xid: bv32, node: Node): Xact {
    Xact(org, xid, node, 0, [Slot(0, None), Slot(0, None), Slot(0, None)],
         if cfg.response then Idle else Absent, if cfg.response then RESPONSE_RETRY_COUNT else 0,
         if cfg.holding then Idle else Absent, if cfg.holding then HOLDING_RETRY_COUNT else 0,
         None)
  }

  /** The header gtp_xact_update_tx writes in front of the body. */
  function BuildPacket(xid: bv32, kind: Octet, teid: bv32, body: seq<Octet>): Packet {
    Packet(kind, (|body| + HEADER_LEN - 4) % 0x1_0000, teid, XidToSqn(xid), body)
  }

  /** The (originator, stage, step) triples gtp_xact_update_tx lets through. */
  predicate MaySend(x: Xact, kind: Octet) {
    match (x.org, StageOf(kind, x.xid))
    case (Local, Initial) => x.step == 0
    case (Local, Final) => x.step == 2
    case (Remote, Intermediate) => x.step == 1
    case (Remote, Final) => x.step == 1
    case _ => false
  }

  function UpdateTx(x: Xact, kind: Octet, teid: bv32, body: seq<Octet>): (Status, Xact) {
    if MaySend(x, kind) then
      var slot := Slot(kind, Some(BuildPacket(x.xid, kind, teid, body)));
      (Ok, x.(hist := x.hist[x.step := slot], step := x.step + 1))
    else (Error, x)
  }

  datatype RxResult = RxResult(status: Status, xact: Xact, sent: Option<Packet>)

  /** A repeated request: the stored answer, if there is one, goes out again and holding restarts. */
  function Repeat(x: Xact, answer: nat, now: nat, sendOk: bool): RxResult
    requires answer < 3
  {
    match x.hist[answer].pkbuf
    case None => RxResult(Again, x, None)
    case Some(p) =>
      var y := x.(tmHolding := Start(x.tmHolding, now, HOLDING_DURATION));
      if sendOk then RxResult(Again, y, Some(p)) else RxResult(Error, y, None)
  }

  /** A message accepted as the next step. */
  function Advance(x: Xact, kind: Octet): RxResult
    requires x.step < 3
  {
    RxResult(Ok, x.(tmResponse := Stop(x.tmResponse),
                    hist := x.hist[x.step := Slot(kind, x.hist[x.step].pkbuf)],
                    step := x.step + 1), None)
  }

  function Hold(x: Xact, now: nat): Xact {
    x.(tmHolding := Start(x.tmHolding, now, HOLDING_DURATION))
  }

  function UpdateRx(x: Xact, kind: Octet, now: nat, sendOk: bool): RxResult {
    match (x.org, StageOf(kind, x.xid))
    case (Local, Intermediate) =>
      if x.hist[1].kind == kind then
        if x.step == 2 || x.step == 3 then Repeat(x, 2, now, sendOk) else RxResult(Error, x, None)
      else if x.step == 1 then Advance(Hold(x, now), kind)
      else RxResult(Error, x, None)
    case (Local, Final) =>
      if x.step == 1 then Advance(x, kind) else RxResult(Error, x, None)
    case (Remote, Initial) =>
      if x.hist[0].kind == kind then
        if x.step == 1 || x.step == 2 then Repeat(x, 1, now, sendOk) else RxResult(Error, x, None)
      else if x.step == 0 then Advance(Hold(x, now), kind)
      else RxResult(Error, x, None)
    case (Remote, Final) =>
      if x.step == 2 then Advance(x, kind) else RxResult(Error, x, None)
    case _ => RxResult(Error, x, None)
  }

  /** What gtp_xact_commit and gtp_xact_timeout decide about one transaction: give up on it, or keep
      it and possibly hand a packet to gtp_send. */
  datatype Verdict = Delete(status: Status) | Keep(status: Status, xact: Xact, sent: Option<Packet>)

  /** Hands the packet of the last step to gtp_send. */
  function SendLast(x: Xact, sendOk: bool): Verdict
    requires 1 <= x.step <= 3
  {
    match x.hist[x.step - 1].pkbuf
    case None => Keep(Error, x, None)
    case Some(p) => if sendOk then Keep(Ok, x, Some(p)) else Keep(Error, x, None)
  }

  function Commit(x: Xact, now: nat, sendOk: bool): Verdict
    requires 1 <= x.step <= 3
  {
    var await := x.(tmResponse := Start(x.tmResponse, now, RESPONSE_DURATION));
    match (x.org, StageOf(x.hist[x.step - 1].kind, x.xid))
    case (Local, Initial) =>
      if x.step == 1 then SendLast(await, sendOk) else Keep(Error, x, None)
    case (Local, Final) =>
      if x.step == 2 then Delete(Ok)
      else if x.step == 3 then SendLast(x, sendOk)
      else Keep(Error, x, None)
    case (Remote, Intermediate) =>
      if x.step == 2 then SendLast(await, sendOk) else Keep(Error, x, None)
    case (Remote, Final) =>
      if x.step == 3 then Delete(Ok)
      else if x.step == 2 then SendLast(x, sendOk)
      else Keep(Error, x, None)
    case _ => Keep(Error, x, None)
  }

  datatype TimerEvent = ResponseTimeout | HoldingTimeout

  /** `--count` on an unsigned octet. */
  function Decrement(count: Octet): Octet {
    if count == 0 then 255 else count - 1
  }

  /** The fired timer went idle when it expired; a positive count restarts it. */
  function Timeout(x: Xact, event: TimerEvent, now: nat, sendOk: bool): Verdict
    requires 1 <= x.step <= 3
  {
    match event
    case ResponseTimeout =>
      var y := x.(responseRcount := Decrement(x.responseRcount), tmResponse := Stop(x.tmResponse));
      if y.responseRcount > 0 then
        var z := y.(tmResponse := Start(y.tmResponse, now, RESPONSE_DURATION));
        if z.hist[z.step - 1].pkbuf.Some? && !sendOk then Delete(Error) else SendLast(z, sendOk)
      else Delete(Ok)
    case HoldingTimeout =>
      var y := x.(holdingRcount := Decrement(x.holdingRcount), tmHolding := Stop(x.tmHolding));
      if y.holdingRcount > 0 then
        Keep(Ok, y.(tmHolding := Start(y.tmHolding, now, HOLDING_DURATION)), None)
      else Delete(Ok)
  }

  // ---------------------------------------------------------------- the whole layer

  /** Each peer has one list of locally and one of remotely originated transactions. */
  datatype ListKey = ListKey(node: Node, org: Org)

  /** `free` is the queue of unused pool indexes, `pool` the transactions in use. */
  datatype Layer = Layer(cfg: Config, xactId: bv32, free: seq<Index>,
                         pool: map<Index, Xact>, lists: map<ListKey, seq<Index>>)

  function ListOf(s: Layer, key: ListKey): seq<Index> {
    if key in s.lists then s.lists[key] else []
  }

  function KeyOf(x: Xact): ListKey {
    ListKey(x.gnode, x.org)
  }

  /** gtp_xact_init. */
  function InitialLayer(cfg: Config): Layer {
    Layer(cfg, 0, seq(POOL_SIZE, i => i + 1), map[], map[])
  }

  /** Overwrites one transaction in place. */
  function Put(s: Layer, i: Index, x: Xact): Layer {
    s.(pool := s.pool[i := x])
  }

  /** index_alloc, field initialisation and list_append, common to both create functions. */
  function Create(s: Layer, org: Org, xid: bv32, node: Node): Layer
    requires s.free != []
  {
    var x := NewXact(s.cfg, org, xid, node);
    s.(free := s.free[1..],
       pool := s.pool[s.free[0] := x],
       lists := s.lists[KeyOf(x) := ListOf(s, KeyOf(x)) + [s.free[0]]])
  }

  function SetAssoc(pool: map<Index, Xact>, i: Index, partner: Option<Index>): map<Index, Xact> {
    if i in pool then pool[i := pool[i].(assoc := partner)] else pool
  }

  function Associate(s: Layer, i: Index, j: Index): Layer
    requires i in s.pool && j in s.pool
  {
    if s.pool[i].assoc.None? && s.pool[j].assoc.None? then
      s.(pool := SetAssoc(SetAssoc(s.pool, i, Some(j)), j, Some(i)))
    else s
  }

  function Deassociate(s: Layer, i: Index, j: Index): Layer
    requires i in s.pool && j in s.pool
  {
    if s.pool[i].assoc.Some? && s.pool[j].assoc.Some? then
      s.(pool := SetAssoc(SetAssoc(s.pool, i, None), j, None))
    else s
  }

  /** list_remove: unlinks the first occurrence. */
  function Unlink(l: seq<Index>, i: Index): seq<Index> {
    if l == [] then [] else if l[0] == i then l[1..] else [l[0]] + Unlink(l[1..], i)
  }

  function Drop(s: Layer, i: Index): Layer
    requires i in s.pool
  {
    var x := s.pool[i];
    var t := if x.assoc.Some? && x.assoc.value in s.pool then Deassociate(s, i, x.assoc.value) else s;
    t.(free := t.free + [i],
       pool := t.pool - {i},
       lists := t.lists[KeyOf(x) := Unlink(ListOf(t, KeyOf(x)), i)])
  }

  /** gtp_xact_delete_all on one of the two lists. */
  function DropEach(s: Layer, l: seq<Index>): Layer
    decreases l
  {
    if l == [] then s
    else if l[0] in s.pool then DropEach(Drop(s, l[0]), l[1..])
    else DropEach(s, l[1..])
  }

  function DropAll(s: Layer, node: Node): Layer {
    var t := DropEach(s, ListOf(s, ListKey(node, Local)));
    DropEach(t, ListOf(t, ListKey(node, Remote)))
  }

  /** The list gtp_xact_find_by_xid searches for a message of this stage. */
  function SearchedList(kind: Octet, xid: bv32): Option<Org> {
    match StageOf(kind, xid)
    case Initial => Some(Remote)
    case Intermediate => Some(Local)
    case Final => if Bit23(xid) then Some(Remote) else Some(Local)
    case Unknown => None
  }

  /** The first transaction of a list with the given identifier. */
  function FirstWith(pool: map<Index, Xact>, l: seq<Index>, xid: bv32): (r: Option<Index>)
    ensures r.Some? ==> r.value in l && r.value in pool && pool[r.value].xid == xid
    ensures r.None? ==> forall i | i in l && i in pool :: pool[i].xid != xid
  {
    if l == [] then None
    else if l[0] in pool && pool[l[0]].xid == xid then Some(l[0])
    else FirstWith(pool, l[1..], xid)
  }

  function FindByXid(s: Layer, node: Node, kind: Octet, xid: bv32): (r: Option<Index>)
    ensures r.Some? ==> r.value in s.pool && s.pool[r.value].xid == xid
  {
    match SearchedList(kind, xid)
    case None => None
    case Some(org) => FirstWith(s.pool, ListOf(s, ListKey(node, org)), xid)
  }

  datatype CreateResult = CreateResult(layer: Layer, xact: Option<Index>)

  function LocalCreate(s: Layer, node: Node, kind: Octet, teid: bv32, body: seq<Octet>): CreateResult {
    if s.free == [] then CreateResult(s, None)
    else
      var i, id := s.free[0], NextId(s.xactId);
      var t := Create(s, Local, id, node).(xactId := id);
      var (status, x) := UpdateTx(t.pool[i], kind, teid, body);
      CreateResult(Put(t, i, x), if status == Ok then Some(i) else None)
  }

  datatype ReceiveResult = ReceiveResult(layer: Layer, status: Status, xact: Option<Index>, sent: Option<Packet>)

  /** gtp_xact_receive: an unmatched message gets a fresh remote transaction before it is examined. */
  function Receive(s: Layer, node: Node, kind: Octet, sqn: bv32, now: nat, sendOk: bool): ReceiveResult {
    var found := FindByXid(s, node, kind, SqnToXid(sqn));
    if found.None? && s.free == [] then ReceiveResult(s, Error, None, None)
    else
      var i := if found.Some? then found.value else s.free[0];
      var t := if found.Some? then s else Create(s, Remote, SqnToXid(sqn), node);
      var r := UpdateRx(t.pool[i], kind, now, sendOk);
      ReceiveResult(Put(t, i, r.xact), r.status, if r.status == Ok then Some(i) else None, r.sent)
  }

  function Apply(s: Layer, i: Index, v: Verdict): Layer
    requires i in s.pool
  {
    if v.Delete? then Drop(s, i) else Put(s, i, v.xact)
  }
}

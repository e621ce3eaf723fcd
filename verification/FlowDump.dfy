/** Dumping the flow table: the kernel sends batches of twenty records (kmod/gtp_fw.c), the tool prints
    records until one has no subscriber address (kmod/gtp_flow.c). */
module FlowDump {
  import opened Bytes
  import opened HashIndex
  import opened Options
  import opened FlowModel
  import opened FlowTheorems
  import opened FlowTable

  const MAX_FLOWS: nat := 20

  const NO_FLOW := Flow(0, 0, 0, 0, 0, 0, 0, 0, 0, 0)

  // ---------------------------------------------------------------- what is sent

  function FlowsOf(store: map<nat, Node>, chain: seq<nat>): seq<Flow>
    requires forall k | 0 <= k < |chain| :: chain[k] in store
  {
    seq(|chain|, k requires 0 <= k < |chain| => store[chain[k]].flow)
  }

  /** The nodes in the order of the first `n` tunnel chains. */
  function Ids(t: Table, n: nat): (ids: seq<nat>)
    requires Shape(t) && n <= |t.tid|
    ensures forall k | 0 <= k < |ids| :: ids[k] in t.store
  {
    if n == 0 then [] else Ids(t, n - 1) + t.tid[n - 1]
  }

  function Traversal(t: Table): seq<Flow>
    requires Shape(t)
  {
    FlowsOf(t.store, Ids(t, |t.tid|))
  }

  function Zeros(n: nat): seq<Flow> {
    seq(n, _ => NO_FLOW)
  }

  /** Full batches, then one that is not full, padded with zero records. */
  function Batches(fs: seq<Flow>): seq<seq<Flow>> {
    if |fs| < MAX_FLOWS then [fs + Zeros(MAX_FLOWS - |fs|)]
    else [fs[..MAX_FLOWS]] + Batches(fs[MAX_FLOWS..])
  }

  function Concat(msgs: seq<seq<Flow>>): seq<Flow> {
    if msgs == [] then [] else msgs[0] + Concat(msgs[1..])
  }

  lemma {:induction false} ConcatAppend(a: seq<seq<Flow>>, b: seq<seq<Flow>>)
    ensures Concat(a + b) == Concat(a) + Concat(b)
  {
    if a == [] {
      assert a + b == b;
    } else {
      assert (a + b)[1..] == a[1..] + b;
      ConcatAppend(a[1..], b);
    }
  }

  lemma ConcatOne(msg: seq<Flow>)
    ensures Concat([msg]) == msg
  {
    assert [msg][1..] == [];
  }

  lemma {:induction false} BatchesAre(msgs: seq<seq<Flow>>, tail: seq<Flow>)
    requires |tail| < MAX_FLOWS
    requires forall k | 0 <= k < |msgs| :: |msgs[k]| == MAX_FLOWS
    ensures Batches(Concat(msgs) + tail) == msgs + [tail + Zeros(MAX_FLOWS - |tail|)]
  {
    if msgs == [] {
      assert Concat(msgs) + tail == tail;
    } else {
      var fs := Concat(msgs) + tail;
      assert fs[..MAX_FLOWS] == msgs[0];
      assert fs[MAX_FLOWS..] == Concat(msgs[1..]) + tail;
      BatchesAre(msgs[1..], tail);
      assert [msgs[0]] + msgs[1..] == msgs;
    }
  }

  /** The sender's progress: full messages out, the rest in a buffer that is zero beyond it. */
  ghost predicate Sending(msgs: seq<seq<Flow>>, buf: seq<Flow>, j: nat, sent: seq<Flow>) {
    && |buf| == MAX_FLOWS && j < MAX_FLOWS
    && (forall k | 0 <= k < |msgs| :: |msgs[k]| == MAX_FLOWS)
    && sent == Concat(msgs) + buf[..j]
    && buf[j..] == Zeros(MAX_FLOWS - j)
  }

  /** Puts one record into the batch, and sends and clears the batch when that fills it. */
  method PutRecord(msgs: seq<seq<Flow>>, buf: array<Flow>, j: nat, f: Flow, ghost sent: seq<Flow>)
    returns (msgs1: seq<seq<Flow>>, j1: nat)
    requires Sending(msgs, buf[..], j, sent)
    modifies buf
    ensures Sending(msgs1, buf[..], j1, sent + [f])
  {
    msgs1, j1 := msgs, j + 1;
    buf[j] := f;
    assert buf[..j1] == old(buf[..j]) + [f];
    assert buf[j1..] == old(buf[j..])[1..];
    if j1 == MAX_FLOWS {
      assert buf[..] == buf[..j1];
      ConcatAppend(msgs, [buf[..]]);
      ConcatOne(buf[..]);
      msgs1 := msgs + [buf[..]];
      forall k | 0 <= k < buf.Length {
        buf[k] := NO_FLOW;
      }
      j1 := 0;
    }
  }

  /** The inner loop of send_all_flow: one chain. */
  method SendChain(store: map<nat, Node>, chain: seq<nat>, msgs: seq<seq<Flow>>, buf: array<Flow>, j: nat, ghost sent: seq<nat>)
    returns (msgs1: seq<seq<Flow>>, j1: nat)
    requires forall k | 0 <= k < |sent + chain| :: (sent + chain)[k] in store
    requires forall k | 0 <= k < |chain| :: chain[k] in store
    requires forall k | 0 <= k < |sent| :: sent[k] in store
    requires Sending(msgs, buf[..], j, FlowsOf(store, sent))
    modifies buf
    ensures Sending(msgs1, buf[..], j1, FlowsOf(store, sent + chain))
  {
    hide Sending;
    msgs1, j1 := msgs, j;
    var k := 0;
    assert sent + chain[..0] == sent;
    while k < |chain|
      invariant k <= |chain|
      invariant forall i | 0 <= i < |sent + chain[..k]| :: (sent + chain[..k])[i] in store
      invariant Sending(msgs1, buf[..], j1, FlowsOf(store, sent + chain[..k]))
    {
      ghost var ids := sent + chain[..k];
      assert sent + chain[..k + 1] == ids + [chain[k]];
      assert FlowsOf(store, ids + [chain[k]]) == FlowsOf(store, ids) + [store[chain[k]].flow];
      msgs1, j1 := PutRecord(msgs1, buf, j1, store[chain[k]].flow, FlowsOf(store, ids));
      k := k + 1;
    }
    assert chain[..k] == chain;
  }

  /** send_all_flow. */
  method SendAllFlow(ctx: GtpContext) returns (msgs: seq<seq<Flow>>)
    requires ctx.Valid()
    ensures msgs == Batches(Traversal(ctx.View()))
  {
    var flows := new Flow[MAX_FLOWS](_ => NO_FLOW);
    msgs := [];
    var j: nat := 0;
    ghost var t := ctx.View();
    SendingStarts(flows[..]);
    hide Sending, Inv;
    for i := 0 to ctx.tidHash.Length
      invariant t == ctx.View() && fresh(flows)
      invariant Sending(msgs, flows[..], j, FlowsOf(t.store, Ids(t, i)))
    {
      assert ctx.tidHash[i] == t.tid[i];
      assert Ids(t, i + 1) == Ids(t, i) + t.tid[i];
      msgs, j := SendChain(ctx.store, ctx.tidHash[i], msgs, flows, j, Ids(t, i));
    }
    SendingEnds(msgs, flows[..], j, Traversal(t));
    msgs := msgs + [flows[..]];
  }

  lemma SendingStarts(buf: seq<Flow>)
    requires buf == Zeros(MAX_FLOWS)
    ensures Sending([], buf, 0, [])
  {
  }

  lemma SendingEnds(msgs: seq<seq<Flow>>, buf: seq<Flow>, j: nat, sent: seq<Flow>)
    requires Sending(msgs, buf, j, sent)
    ensures Batches(sent) == msgs + [buf]
  {
    BatchesAre(msgs, buf[..j]);
    assert buf == buf[..j] + Zeros(MAX_FLOWS - j);
  }

  // ---------------------------------------------------------------- what is printed

  function UpToZero(fs: seq<Flow>): seq<Flow> {
    if fs == [] || fs[0].innerIp == 0 then [] else [fs[0]] + UpToZero(fs[1..])
  }

  ghost predicate HasZero(fs: seq<Flow>) {
    exists k | 0 <= k < |fs| :: fs[k].innerIp == 0
  }

  lemma {:induction false} UpToZeroAppend(a: seq<Flow>, b: seq<Flow>)
    ensures UpToZero(a + b) == if HasZero(a) then UpToZero(a) else a + UpToZero(b)
    ensures !HasZero(a) ==> UpToZero(a) == a
  {
    if a == [] {
      assert a + b == b;
    } else {
      assert (a + b)[1..] == a[1..] + b;
      UpToZeroAppend(a[1..], b);
      assert HasZero(a) <==> a[0].innerIp == 0 || HasZero(a[1..]) by {
        assert forall k | 1 <= k < |a| :: a[k] == a[1..][k - 1];
      }
    }
  }

  /** dump_flows on the messages that arrive. It stops at the first zero record; if there is none it
      still waits after the last message. */
  method DumpFlows(msgs: seq<seq<Flow>>) returns (printed: seq<Flow>, stopped: bool)
    requires forall k | 0 <= k < |msgs| :: |msgs[k]| == MAX_FLOWS
    ensures printed == UpToZero(Concat(msgs))
    ensures stopped <==> HasZero(Concat(msgs))
  {
    printed, stopped := [], false;
    var m := 0;
    var keepLoop := true;
    while keepLoop && m < |msgs|
      invariant m <= |msgs|
      invariant keepLoop ==> !HasZero(Concat(msgs[..m])) && printed == Concat(msgs[..m])
      invariant !keepLoop ==> HasZero(Concat(msgs)) && printed == UpToZero(Concat(msgs))
      decreases |msgs| - m, keepLoop
    {
      var i := 0;
      var msg := msgs[m];
      ghost var before := printed;
      MessageSplit(msgs, m);
      while i < MAX_FLOWS
        invariant i <= MAX_FLOWS && keepLoop
        invariant printed == before + msg[..i] && !HasZero(msg[..i])
      {
        if msg[i].innerIp == 0 {
          keepLoop := false;
          StopsHere(msgs, m, i);
          break;
        }
        printed := printed + [msg[i]];
        i := i + 1;
      }
      if keepLoop {
        assert msg[..i] == msg;
      }
      m := m + 1;
    }
    stopped := !keepLoop;
    if keepLoop {
      assert msgs[..m] == msgs;
      UpToZeroAppend(Concat(msgs), []);
      assert Concat(msgs) + [] == Concat(msgs);
    }
  }

  lemma MessageSplit(msgs: seq<seq<Flow>>, m: nat)
    requires m < |msgs|
    ensures Concat(msgs[..m + 1]) == Concat(msgs[..m]) + msgs[m]
    ensures Concat(msgs) == Concat(msgs[..m]) + msgs[m] + Concat(msgs[m + 1..])
  {
    hide Concat;
    assert msgs[..m + 1] == msgs[..m] + [msgs[m]] && msgs == msgs[..m + 1] + msgs[m + 1..];
    ConcatAppend(msgs[..m], [msgs[m]]);
    ConcatAppend(msgs[..m + 1], msgs[m + 1..]);
    ConcatOne(msgs[m]);
  }

  lemma StopsIn(a: seq<Flow>, b: seq<Flow>, c: seq<Flow>)
    requires !HasZero(a) && !HasZero(b) && c != [] && c[0].innerIp == 0
    ensures HasZero(a + (b + c)) && UpToZero(a + (b + c)) == a + b
  {
    UpToZeroAppend(a, b + c);
    UpToZeroAppend(b, c);
    assert (a + (b + c))[|a| + |b|] == c[0];
    assert UpToZero(c) == [];
  }

  lemma StopsHere(msgs: seq<seq<Flow>>, m: nat, i: nat)
    requires m < |msgs| && i < |msgs[m]| && msgs[m][i].innerIp == 0
    requires !HasZero(Concat(msgs[..m])) && !HasZero(msgs[m][..i])
    ensures HasZero(Concat(msgs)) && UpToZero(Concat(msgs)) == Concat(msgs[..m]) + msgs[m][..i]
  {
    hide Concat;
    MessageSplit(msgs, m);
    var a, b, c := Concat(msgs[..m]), msgs[m][..i], msgs[m][i..] + Concat(msgs[m + 1..]);
    StopsIn(a, b, c);
    assert msgs[m] == b + msgs[m][i..];
    assert Concat(msgs) == a + (b + c);
  }

  // ---------------------------------------------------------------- both together

  lemma {:induction false} BatchesConcat(fs: seq<Flow>)
    ensures forall k | 0 <= k < |Batches(fs)| :: |Batches(fs)[k]| == MAX_FLOWS
    ensures Concat(Batches(fs)) == fs + Zeros(MAX_FLOWS - |fs| % MAX_FLOWS)
  {
    if |fs| >= MAX_FLOWS {
      BatchesConcat(fs[MAX_FLOWS..]);
      assert fs[..MAX_FLOWS] + fs[MAX_FLOWS..] == fs;
    } else {
      var m := fs + Zeros(MAX_FLOWS - |fs|);
      ConcatOne(m);
    }
  }

  /** The tool always stops, whatever the number of flows, and prints the flows up to the first without
      an address: all of them, in traversal order, if and only if every flow has one. */
  lemma DumpExact(fs: seq<Flow>)
    ensures forall k | 0 <= k < |Batches(fs)| :: |Batches(fs)[k]| == 20
    ensures HasZero(Concat(Batches(fs)))
    ensures UpToZero(Concat(Batches(fs))) == UpToZero(fs)
    ensures UpToZero(Concat(Batches(fs))) == fs <==> !HasZero(fs)
  {
    BatchesConcat(fs);
    var z := Zeros(MAX_FLOWS - |fs| % MAX_FLOWS);
    assert (fs + z)[|fs|] == NO_FLOW;
    UpToZeroAppend(fs, z);
    UpToZeroStops(fs);
  }

  lemma {:induction false} UpToZeroStops(fs: seq<Flow>)
    ensures !HasZero(UpToZero(fs))
  {
    if fs != [] && fs[0].innerIp != 0 {
      UpToZeroStops(fs[1..]);
    }
  }

  // ---------------------------------------------------------------- every flow once

  lemma {:induction false} IdsAre(t: Table, h: U32 -> nat, n: nat)
    requires Inv(t, h) && Shape(t) && n <= |t.tid|
    ensures NoDup(Ids(t, n))
    ensures forall id: nat :: id in Ids(t, n) <==> id in t.store && t.store[id].slot < n
  {
    if n > 0 {
      IdsAre(t, h, n - 1);
      var place, chain := TidPlace(t.store), t.tid[n - 1];
      assert ChainOk(chain, place, n - 1);
      forall id: nat
        ensures id in chain <==> id in t.store && t.store[id].slot == n - 1
      {
        if id in t.store && t.store[id].slot == n - 1 {
          assert id in place && place[id] == n - 1;
        }
      }
    }
  }

  /** What is sent lists every flow of the table's map exactly once. */
  lemma TraversalIsMap(t: Table, h: U32 -> nat, m: map<U32, Flow>)
    requires Inv(t, h) && Shape(t) && Agrees(t, m)
    ensures var fs := Traversal(t);
      && (forall k | 0 <= k < |fs| :: fs[k].innerIp in m && m[fs[k].innerIp] == fs[k])
      && (forall ip | ip in m :: m[ip] in fs)
      && (forall j, k | 0 <= j < k < |fs| :: fs[j].innerIp != fs[k].innerIp)
  {
    IdsAre(t, h, |t.tid|);
    var ids, fs := Ids(t, |t.tid|), Traversal(t);
    forall ip | ip in m
      ensures m[ip] in fs
    {
      var id :| HolderOf(t.store, ip, id);
      var k :| 0 <= k < |ids| && ids[k] == id;
      assert fs[k] == t.store[id].flow;
    }
    forall k | 0 <= k < |fs|
      ensures fs[k].innerIp in m && m[fs[k].innerIp] == fs[k]
    {
      assert ids[k] in t.store;
    }
  }
}

/** What the messages between the two endpoints say: applications receive what the other side's application
    asked to be said, and a request that was answered is answered again. */
module ChannelContents {
  import opened Options
  import opened GtpMessage
  import opened XactModel
  import opened XactExact
  import opened ChannelModel
  import opened ChannelInvariants
  import opened ChannelSteps
  import XI = XactInvariants

  // ---------------------------------------------------------------- contents

  predicate Says(p: Packet, m: Message) {
    p.kind == m.kind && p.teid == m.teid && p.body == m.body && p.length == (|m.body| + 8) % 0x1_0000
  }

  ghost predicate ContentsOk(h: Hist) {
    && (forall n | 0 <= n < |h.requests| :: Says(h.requests[n].pkt, h.requests[n].said))
    && (forall m | 0 <= m < |h.replies| :: Says(h.replies[m].pkt, h.replies[m].said))
    && (forall k | 0 <= k < |h.deliveries| ::
          h.deliveries[k].request < |h.requests| && h.deliveries[k].got == h.requests[h.deliveries[k].request].pkt)
    && (forall a | 0 <= a < |h.acceptances| ::
          h.acceptances[a].reply < |h.replies| && h.acceptances[a].got == h.replies[h.acceptances[a].reply].pkt)
  }

  lemma BuiltSays(kind: Octet, teid: bv32, body: seq<Octet>)
    ensures forall xid: bv32 :: Says(BuildPacket(xid, kind, teid, body), Message(kind, teid, body))
  {
  }

  lemma AskContents(s: Sys, side: Side, kind: Octet, teid: bv32, body: seq<Octet>, sendOk: bool)
    requires ContentsOk(s.hist)
    ensures ContentsOk(AfterAsk(s, side, kind, teid, body, sendOk).hist)
  {
    BuiltSays(kind, teid, body);
    hide LocalCreate, Commit, Apply, BuildPacket, Says;
  }

  lemma DeliverContents(link: Link, s: Sys, side: Side, f: Flight, sendOk: bool)
    requires ContentsOk(s.hist) && FlightOk(s.hist, link, s.now, f)
    ensures ContentsOk(AfterDeliver(s, side, f, sendOk).hist)
  {
    hide Receive, FindByXid, Says;
  }

  lemma AnswerContents(s: Sys, side: Side, i: Index, kind: Octet, teid: bv32, body: seq<Octet>, sendOk: bool)
    requires ContentsOk(s.hist) && i in EndOf(s, side).layer.pool
    ensures ContentsOk(AfterAnswer(s, side, i, kind, teid, body, sendOk).hist)
  {
    BuiltSays(kind, teid, body);
    hide UpdateTx, Commit, Apply, BuildPacket, Says;
  }

  lemma StepContents(link: Link, s: Sys, step: Step)
    requires SysOk(link, s) && ContentsOk(s.hist) && Possible(link, s, step)
    ensures ContentsOk(After(link, s, step).hist)
  {
    hide AfterAsk, AfterDeliver, AfterAnswer, Timeout, Commit, XI.Next, XI.Inv, Apply, Apart, RecordsOk, EndOk, HeldAll, FlightOk,
         ContentsOk;
    match step
    case Ask(side, kind, teid, body, sendOk) => AskContents(s, side, kind, teid, body, sendOk);
    case Deliver(side, f, sendOk) =>
      assert FlightOk(s.hist, link, s.now, f);
      DeliverContents(link, s, side, f, sendOk);
    case Answer(side, i, kind, teid, body, sendOk) => AnswerContents(s, side, i, kind, teid, body, sendOk);
    case _ =>
  }

  lemma {:induction false} RunContents(link: Link, states: seq<Sys>, steps: seq<Step>, k: nat)
    requires IsRun(link, states, steps) && k < |states|
    ensures ContentsOk(states[k].hist)
  {
    hide ContentsOk, After, Possible, SysOk;
    if k == 0 {
      assert ContentsOk(InitialSys().hist) by {
        NothingSaid();
      }
    } else {
      RunContents(link, states, steps, k - 1);
      RunOk(link, states, steps, k - 1);
      assert states[k - 1 + 1] == After(link, states[k - 1], steps[k - 1]);
      StepContents(link, states[k - 1], steps[k - 1]);
    }
  }

  lemma NothingSaid()
    ensures ContentsOk(InitialSys().hist)
  {
  }

  /** Every request that reaches an application has the kind, tunnel id and body it was asked with, under its
      identifier; and every answer that is accepted has those its sender answered with. */
  lemma ContentsKept(link: Link, states: seq<Sys>, steps: seq<Step>, n: nat)
    requires IsRun(link, states, steps) && n < |states|
    ensures var h := states[n].hist;
            && (forall k | 0 <= k < |h.deliveries| ::
                  && h.deliveries[k].request < |h.requests|
                  && var r := h.requests[h.deliveries[k].request];
                     Carries(h.deliveries[k].got, r.xid, r.said.kind, r.said.teid, r.said.body))
            && (forall a | 0 <= a < |h.acceptances| ::
                  && h.acceptances[a].reply < |h.replies| && h.acceptances[a].request < |h.requests|
                  && var m := h.replies[h.acceptances[a].reply].said;
                     Carries(h.acceptances[a].got, h.requests[h.acceptances[a].request].xid, m.kind, m.teid, m.body))
  {
    hide IsRun, XI.Inv, Apart, EndOk, HeldAll, FlightOk, SqnToXid, XidToSqn, StageOf;
    RunContents(link, states, steps, n);
    RunOk(link, states, steps, n);
    var h, now := states[n].hist, states[n].now;
    forall k | 0 <= k < |h.deliveries|
      ensures var r := h.requests[h.deliveries[k].request];
              Carries(h.deliveries[k].got, r.xid, r.said.kind, r.said.teid, r.said.body)
    {
      RequestXid(link, h, now, h.deliveries[k].request);
    }
    forall a | 0 <= a < |h.acceptances|
      ensures h.acceptances[a].request < |h.requests|
      ensures var m := h.replies[h.acceptances[a].reply].said;
              Carries(h.acceptances[a].got, h.requests[h.acceptances[a].request].xid, m.kind, m.teid, m.body)
    {
      assert AcceptanceOk(h, now, a) && ReplyOk(link, h, now, h.acceptances[a].reply);
      RequestXid(link, h, now, h.acceptances[a].request);
    }
  }

  /** Where those come from: only a request step adds a request, and it is what that step asks; only an answer
      step adds a reply. */
  lemma SaidByStep(link: Link, s: Sys, step: Step)
    requires Possible(link, s, step)
    ensures var h, g := s.hist, After(link, s, step).hist;
            && (g.requests == h.requests
                || (step.Ask? && |g.requests| == |h.requests| + 1 && g.requests[..|h.requests|] == h.requests
                    && g.requests[|h.requests|].said == Message(step.kind, step.teid, step.body)
                    && g.requests[|h.requests|].side == step.side && g.requests[|h.requests|].time == s.now))
            && (g.replies == h.replies
                || (step.Answer? && |g.replies| == |h.replies| + 1 && g.replies[..|h.replies|] == h.replies
                    && g.replies[|h.replies|].said == Message(step.kind, step.teid, step.body)
                    && g.replies[|h.replies|].side == step.side && g.replies[|h.replies|].time == s.now))
  {
    hide Receive, FindByXid, UpdateRx, LocalCreate, Commit, UpdateTx, Timeout, XI.Next, Apply, BuildPacket;
  }

  // ---------------------------------------------------------------- answering again

  lemma CopyFound(layer: Layer, i: Index, kind: Octet, sqn: bv32, now: nat)
    requires XI.Inv(layer) && Live(layer, i) && layer.pool[i].org.Remote? && layer.pool[i].step == 2
    requires SqnToXid(sqn) == layer.pool[i].xid && StageOf(kind, layer.pool[i].xid) == Initial && kind == layer.pool[i].hist[0].kind
    ensures FindByXid(layer, PEER, kind, SqnToXid(sqn)) == Some(i)
    ensures var r := Receive(layer, PEER, kind, sqn, now, true);
            && r.status == Again && r.sent == layer.pool[i].hist[1].pkbuf && r.sent.Some?
            && r.layer == Put(layer, i, layer.pool[i].(tmHolding := HeldUntil(layer.pool[i].tmHolding, now + 9000)))
  {
    var x := layer.pool[i];
    assert XI.XactOk(layer.cfg, x);
    assert FirstWith(layer.pool, ListOf(layer, KeyOf(x)), x.xid) == Some(i);
    UpdateRxExact(x, kind, now, true);
    UpdateRxRecord(x, kind, now, true);
    hide XI.Inv, UpdateRx, SqnToXid, XI.PacketsOk, XI.TimersOk;
  }

  /** In every reachable state, a copy of a request that was delivered and answered is not delivered again: the
      very answer built for that delivery goes out once more, and holding starts anew. */
  lemma CopyAnswered(link: Link, states: seq<Sys>, steps: seq<Step>, n: nat, side: Side, f: Flight, i: Index)
    requires IsRun(link, states, steps) && n < |states| && f.source.FromRequest?
    requires Possible(link, states[n], Deliver(side, f, true))
    requires var e := EndOf(states[n], side);
             && Live(e.layer, i) && e.layer.pool[i].org.Remote? && e.layer.pool[i].step == 2
             && Get(e.cause, i) < |states[n].hist.deliveries|
             && states[n].hist.deliveries[Get(e.cause, i)].request == f.source.n
    ensures var s, t := states[n], After(link, states[n], Deliver(side, f, true));
            var e, m := EndOf(s, side), Get(EndOf(s, side).answer, i);
            && t.hist == s.hist && m < |s.hist.replies| && s.hist.replies[m].delivery == Get(e.cause, i)
            && t.flights == s.flights + {Flight(side, s.now, s.hist.replies[m].pkt, FromReply(m))}
            && EndOf(t, side).layer.pool[i].tmHolding == Running(s.now + 9000)
  {
    hide IsRun, XI.Inv, Receive, FindByXid, Apart, RecordsOk, HeldAll, SqnToXid, XidToSqn, StageOf, OnTime;
    var s := states[n];
    RunOk(link, states, steps, n);
    var e := EndOf(s, side);
    assert EndOk(link, s.hist, s.now, side, e) && FlightOk(s.hist, link, s.now, f);
    assert TransactionOk(link, s.hist, side, e, i);
    RequestXid(link, s.hist, s.now, f.source.n);
    HoldingConfigured(e.layer, i);
    CopyFound(e.layer, i, f.pkt.kind, f.pkt.sqn, s.now);
  }

  lemma HoldingConfigured(layer: Layer, i: Index)
    requires XI.Inv(layer) && i in layer.pool && layer.cfg.holding
    ensures !layer.pool[i].tmHolding.Absent?
  {
    assert XI.XactOk(layer.cfg, layer.pool[i]);
  }
}

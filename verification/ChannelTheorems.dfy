/** Main results about two endpoints over an unreliable channel. */
module ChannelTheorems {
  import opened GtpMessage
  import opened XactModel
  import opened ChannelModel
  import opened ChannelInvariants
  import opened ChannelRuns
  import opened ChannelSteps
  import XI = XactInvariants

  // ---------------------------------------------------------------- at most once

  lemma LowIds(xid: bv32)
    requires xid <= MAX_XACT_ID && xid != MAX_XACT_ID
    ensures !Bit23(xid)
  {
  }

  /** Retransmission, loss, duplication, reordering and the expiry of the holding time never make a
      request reach the application twice, as long as its identifier is not 0x800000 and the spread of the
      delays and the lateness of the two retransmissions together stay within one response time. */
  lemma AtMostOnce(link: Link, states: seq<Sys>, steps: seq<Step>, k: nat, xid: bv32)
    requires IsRun(link, states, steps) && k < |states|
    requires link.spread + 2 * link.late <= RESPONSE_DURATION && xid != MAX_XACT_ID
    ensures OnceOnly(states[k].hist, xid)
  {
    hide IsRun, XI.Inv;
    RunOk(link, states, steps, k);
    var h := states[k].hist;
    forall i, j | 0 <= i < j < |h.deliveries| && h.deliveries[i].request < |h.requests|
                  && h.requests[h.deliveries[i].request].xid == xid
      ensures h.deliveries[i].request != h.deliveries[j].request
    {
      assert DeliveryOk(link, h, states[k].now, i) && DeliveryOk(link, h, states[k].now, j);
      assert RequestOk(h, states[k].now, h.deliveries[i].request);
      LowIds(xid);
      assert h.deliveries[i].request == h.deliveries[j].request ==> ApartApplies(h, i, j);
    }
  }

  /** Each request is accepted as answered at most once, by an answer its peer built for a delivered
      request with the same identifier. */
  lemma AnsweredAtMostOnce(link: Link, states: seq<Sys>, steps: seq<Step>, k: nat)
    requires IsRun(link, states, steps) && k < |states|
    ensures var h := states[k].hist;
            && (forall a | 0 <= a < |h.acceptances| :: AcceptanceOk(h, states[k].now, a))
            && (forall a, b | 0 <= a < b < |h.acceptances| :: h.acceptances[a].request != h.acceptances[b].request)
  {
    hide IsRun, XI.Inv;
    RunOk(link, states, steps, k);
  }

  // ---------------------------------------------------------------- the bound is exact

  /** The exact condition, for every identifier a request can have, every spread and every lateness a
      millisecond clock allows. */
  lemma AtMostOnceExactly(spread: nat, late: nat, xid: bv32)
    requires late >= 1 && MIN_XACT_ID <= xid <= MAX_XACT_ID
    ensures (forall delay: nat, states: seq<Sys>, steps: seq<Step> | IsRun(Link(delay, spread, late), states, steps) ::
               OnceOnly(states[|steps|].hist, xid))
            <==> xid != MAX_XACT_ID && spread + 2 * late <= RESPONSE_DURATION
  {
    hide OnceOnly, Possible, After;
    if xid == MAX_XACT_ID {
      var r := MaxTwiceDelivered(Link(0, spread, late));
    } else if spread + 2 * late > RESPONSE_DURATION {
      var r := TwiceDelivered(spread, late, xid);
    } else {
      forall delay: nat, states: seq<Sys>, steps: seq<Step> | IsRun(Link(delay, spread, late), states, steps)
        ensures OnceOnly(states[|steps|].hist, xid)
      {
        AtMostOnce(Link(delay, spread, late), states, steps, |steps|, xid);
      }
    }
  }
}

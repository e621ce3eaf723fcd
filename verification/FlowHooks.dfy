/** The netfilter hooks of kmod/gtp_fw.c: a downlink packet gets an IP, a UDP and a GTP header, an uplink
    packet loses them, and the flow's byte counters go up. */
module FlowHooks {
  import opened Options
  import opened Bytes
  import opened FlowModel
  import opened FlowTheorems
  import opened FlowTable
  import opened FlowUplink

  type Packet = seq<Byte>

  const IP_UDP_GTP_LEN: nat := 36
  const IP_UDP_LEN: nat := 28
  const GTP1U_PORT: nat := 2152
  const GTP_TPDU: Byte := 255

  /** What the network layer chooses: identification and the two checksums. */
  datatype Chosen = Chosen(ident: U16, ipSum: U16, udpSum: U16)

  /** The inner time to live, one less, in eight bits. */
  function Ttl(inner: Byte): Byte {
    if inner == 0 then 255 else inner - 1
  }

  /** The three headers for a packet of flow f. */
  function Headers(f: Flow, pkt: Packet, c: Chosen): (h: Packet)
    requires |pkt| >= 20
    ensures |h| == IP_UDP_GTP_LEN
  {
    var ip := [0x45, pkt[1]] + Be(2, |pkt| + 36) + Be(2, c.ident) + [0, 0, Ttl(pkt[8]), 17] + Be(2, c.ipSum)
              + Be(4, f.localIp) + Be(4, f.remoteIp);
    var udp := Be(2, f.localPort) + Be(2, f.remotePort) + Be(2, |pkt| + 16) + Be(2, c.udpSum);
    var gtp := [0x30, GTP_TPDU] + Be(2, |pkt|) + Be(4, f.remoteTeid);
    ip + udp + gtp
  }

  predicate Carried(proto: Byte) {
    proto == 1 || proto == 6 || proto == 17
  }

  lemma ReadsU32(s: seq<Byte>)
    requires |s| == 4
    ensures UnBe(s) < TWO32
  {
    BeUnBe(s);
    assert Pow256(4) == 256 * (256 * (256 * (256 * Pow256(0))));
  }

  /** Where the outer IP header ends: the UDP header follows it, and the GTP header that one. */
  function UdpAt(pkt: Packet): nat
    requires |pkt| > 0
  {
    4 * (pkt[0] % 16)
  }

  /** A packet long enough to be stripped holds the UDP and GTP headers that are looked at. */
  predicate HeadersIn(pkt: Packet) {
    |pkt| >= IP_UDP_GTP_LEN + IP_UDP_LEN ==> UdpAt(pkt) + 16 <= |pkt|
  }

  /** A GTP-U packet by its headers: UDP to port 2152, a T-PDU. */
  predicate IsTpdu(pkt: Packet)
    requires |pkt| >= IP_UDP_GTP_LEN && UdpAt(pkt) + 16 <= |pkt|
  {
    var u := UdpAt(pkt);
    pkt[9] == 17 && UnBe(pkt[u + 2..u + 4]) == GTP1U_PORT && pkt[u + 9] == GTP_TPDU
  }

  function OuterDst(pkt: Packet): U32
    requires |pkt| >= IP_UDP_GTP_LEN
  {
    ReadsU32(pkt[16..20]);
    UnBe(pkt[16..20])
  }

  function Teid(pkt: Packet): U32
    requires |pkt| >= IP_UDP_GTP_LEN && UdpAt(pkt) + 16 <= |pkt|
  {
    ReadsU32(pkt[UdpAt(pkt) + 12..UdpAt(pkt) + 16]);
    UnBe(pkt[UdpAt(pkt) + 12..UdpAt(pkt) + 16])
  }

  /** The downlink hook's look-up and its count of outer octets. */
  method DownlinkFlow(ctx: GtpContext, daddr: U32, bytes: nat, ghost m: map<U32, Flow>) returns (flow: Option<Flow>)
    requires ctx.Valid() && Agrees(ctx.View(), m)
    modifies ctx
    ensures ctx.Valid()
    ensures flow == if daddr in m then Some(m[daddr]) else None
    ensures ctx.View() == CountDown(old(ctx.View()), ctx.hash, daddr, bytes)
    ensures Agrees(ctx.View(), MapNext(m, Down(daddr, bytes), None))
  {
    ghost var t := ctx.View();
    DownAgrees(t, ctx.hash, m, daddr, bytes);
    LookupIsMap(t, ctx.hash, m, daddr);
    InvShape(CountDown(t, ctx.hash, daddr, bytes), ctx.hash);
    hide Inv, Shape, Agrees, Find, Overwrite, MapNext;
    var node := ctx.FindByInnerIp(daddr);
    flow := None;
    if node.Some? {
      flow := Some(ctx.store[node.value].flow);
      ctx.SetFlow(node.value, CountedDown(flow.value, bytes));
    }
  }

  /** gtp_fw_process_pre_downlink on an IPv4 packet; None leaves the packet as it is. */
  method Downlink(ctx: GtpContext, skb: Packet, c: Chosen, ghost m: map<U32, Flow>) returns (out: Option<Packet>)
    requires ctx.Valid() && Agrees(ctx.View(), m) && |skb| >= 20
    modifies ctx
    ensures ctx.Valid()
    ensures UnBe(skb[16..20]) < TWO32
    ensures var ip: U32 := UnBe(skb[16..20]);
            && (out.Some? <==> ip in m)
            && (out.Some? ==> out.value == Headers(m[ip], skb, c) + skb)
            && Agrees(ctx.View(), MapNext(m, Down(ip, |skb| + IP_UDP_GTP_LEN), None))
            && ctx.View() == CountDown(old(ctx.View()), ctx.hash, ip, |skb| + IP_UDP_GTP_LEN)
  {
    ReadsU32(skb[16..20]);
    hide Inv, Shape, Agrees, Headers, UnBe, CountDown, MapNext, Find, Overwrite, Insert;
    var daddr: U32 := UnBe(skb[16..20]);
    var flow := DownlinkFlow(ctx, daddr, |skb| + IP_UDP_GTP_LEN, m);
    out := if flow.Some? then Some(Headers(flow.value, skb, c) + skb) else None;
  }

  /** What the uplink hook makes of a packet; None leaves it as it is. The inner packet is taken to begin
      after 36 octets, whatever the outer header's length. */
  function Stripped(t: Table, h: U32 -> nat, pkt: Packet): Option<Packet>
    requires Shape(t) && HeadersIn(pkt)
  {
    if |pkt| < IP_UDP_GTP_LEN + IP_UDP_LEN || !IsTpdu(pkt) || !Carried(pkt[45]) then None
    else if Find(t, h, ByUplink(OuterDst(pkt), Teid(pkt))).None? then None
    else Some(pkt[IP_UDP_GTP_LEN..])
  }

  /** The uplink hook once the headers are accepted: look up, check the inner protocol, count. */
  method UplinkFlow(ctx: GtpContext, daddr: U32, tid: U32, proto: Byte, bytes: nat, ghost m: map<U32, Flow>) returns (found: bool)
    requires ctx.Valid() && Agrees(ctx.View(), m)
    modifies ctx
    ensures ctx.Valid()
    ensures found <==> Find(old(ctx.View()), ctx.hash, ByUplink(daddr, tid)).Some? && Carried(proto)
    ensures ctx.View() == if found then CountUp(old(ctx.View()), ctx.hash, daddr, tid, bytes) else old(ctx.View())
  {
    ghost var t := ctx.View();
    ghost var hit := UpAgrees(t, ctx.hash, m, daddr, tid, bytes);
    InvShape(CountUp(t, ctx.hash, daddr, tid, bytes), ctx.hash);
    hide Inv, Shape, Agrees, Find, Overwrite, MapNext;
    var node := ctx.FindByUlInfo(daddr, tid);
    found := node.Some? && Carried(proto);
    if found {
      var flow := ctx.store[node.value].flow;
      ctx.SetFlow(node.value, CountedUp(flow, bytes));
    }
  }

  /** gtp_fw_process_pre_uplink on an IPv4 packet; None leaves the packet as it is. A packet too short to
      be pulled comes back unchanged whichever check it meets first. */
  method Uplink(ctx: GtpContext, skb: Packet, ghost m: map<U32, Flow>) returns (out: Option<Packet>)
    requires ctx.Valid() && Agrees(ctx.View(), m) && HeadersIn(skb)
    modifies ctx
    ensures ctx.Valid()
    ensures out == Stripped(old(ctx.View()), ctx.hash, skb)
    ensures out.None? ==> ctx.View() == old(ctx.View())
    ensures out.Some? ==>
      && |skb| >= IP_UDP_GTP_LEN && UdpAt(skb) + 16 <= |skb|
      && ctx.View() == CountUp(old(ctx.View()), ctx.hash, OuterDst(skb), Teid(skb), |skb| - IP_UDP_GTP_LEN)
  {
    hide Inv, Shape, Agrees, Find, Overwrite, CountUp, UnBe, OuterDst, Teid;
    if |skb| < IP_UDP_GTP_LEN + IP_UDP_LEN || !IsTpdu(skb) {
      return None;
    }
    var found := UplinkFlow(ctx, OuterDst(skb), Teid(skb), skb[45], |skb| - IP_UDP_GTP_LEN, m);
    out := if found then Some(skb[IP_UDP_GTP_LEN..]) else None;
  }

  /** What the far end reads off the headers. */
  lemma HeadersRead(f: Flow, pkt: Packet, c: Chosen)
    requires |pkt| >= 20
    ensures var out := Headers(f, pkt, c) + pkt;
            && |out| == |pkt| + IP_UDP_GTP_LEN && UdpAt(out) == 20 && out[IP_UDP_GTP_LEN..] == pkt
            && OuterDst(out) == f.remoteIp && Teid(out) == f.remoteTeid
            && (IsTpdu(out) <==> f.remotePort == GTP1U_PORT)
  {
    PowValues();
    var out := Headers(f, pkt, c) + pkt;
    assert out[0] == 0x45 && out[9] == 17 && out[29] == GTP_TPDU && UdpAt(out) == 20;
    UnBeBe(4, f.remoteIp);
    UnBeBe(4, f.remoteTeid);
    UnBeBe(2, f.remotePort);
    assert out[16..20] == Be(4, f.remoteIp);
    assert out[22..24] == Be(2, f.remotePort);
    assert out[32..36] == Be(4, f.remoteTeid);
  }

  /** Every field of the three headers: type of service and time to live from the inner packet, the flow's
      addresses, ports and tunnel, and the three lengths, each of what follows and of itself as its protocol
      counts. */
  lemma HeaderFields(f: Flow, pkt: Packet, c: Chosen)
    requires |pkt| >= 20
    ensures var h := Headers(f, pkt, c);
            && h[0] == 0x45 && h[1] == pkt[1] && UnBe(h[2..4]) == (|pkt| + 36) % 0x1_0000 && h[6] == 0 && h[7] == 0 && h[9] == 17
            && (if pkt[8] == 0 then h[8] == 255 else h[8] + 1 == pkt[8])
            && UnBe(h[12..16]) == f.localIp && UnBe(h[16..20]) == f.remoteIp
            && UnBe(h[20..22]) == f.localPort && UnBe(h[22..24]) == f.remotePort && UnBe(h[24..26]) == (|pkt| + 16) % 0x1_0000
            && h[28] == 0x30 && h[29] == 255 && UnBe(h[30..32]) == |pkt| % 0x1_0000 && UnBe(h[32..36]) == f.remoteTeid
  {
    PowValues();
    var h := Headers(f, pkt, c);
    AddressFields(f, pkt, c);
    UnBeBe(2, |pkt| + 36);
    UnBeBe(2, |pkt| + 16);
    UnBeBe(2, |pkt|);
    assert h[2..4] == Be(2, |pkt| + 36);
    assert h[24..26] == Be(2, |pkt| + 16);
    assert h[30..32] == Be(2, |pkt|);
    hide Be, UnBe;
  }

  lemma AddressFields(f: Flow, pkt: Packet, c: Chosen)
    requires |pkt| >= 20
    ensures var h := Headers(f, pkt, c);
            && UnBe(h[12..16]) == f.localIp && UnBe(h[16..20]) == f.remoteIp
            && UnBe(h[20..22]) == f.localPort && UnBe(h[22..24]) == f.remotePort && UnBe(h[32..36]) == f.remoteTeid
  {
    PowValues();
    var h := Headers(f, pkt, c);
    UnBeBe(4, f.localIp);
    UnBeBe(4, f.remoteIp);
    UnBeBe(2, f.localPort);
    UnBeBe(2, f.remotePort);
    UnBeBe(4, f.remoteTeid);
    assert h[12..16] == Be(4, f.localIp) && h[16..20] == Be(4, f.remoteIp);
    assert h[20..22] == Be(2, f.localPort) && h[22..24] == Be(2, f.remotePort);
    assert h[32..36] == Be(4, f.remoteTeid);
  }

  /** The four octets of an address or tunnel id, as a number. */
  function Word(a: Byte, b: Byte, c: Byte, d: Byte): U32 {
    Num4(a, b, c, d)
  }

  /** A flow is there that the tunnel index reaches. */
  ghost predicate Tunnelled(t: Table, h: U32 -> nat, dst: U32, tid: U32)
    requires Shape(t)
  {
    exists id :: Reached(t, h, dst, tid, id)
  }

  /** Octet by octet, which packets the uplink hook strips: UDP to port 0x0868, message type 255, ICMP, TCP or
      UDP inside, 64 octets or more, and a flow that the tunnel index reaches with the outer destination and the
      tunnel id. */
  lemma StrippedExactly(t: Table, h: U32 -> nat, pkt: Packet)
    requires Inv(t, h) && HeadersIn(pkt)
    ensures Shape(t)
    ensures Stripped(t, h, pkt).Some? <==>
            && |pkt| >= 64 && pkt[9] == 17 && pkt[45] in {1, 6, 17}
            && var u := 4 * (pkt[0] % 16);
               && u + 16 <= |pkt| && pkt[u + 2] == 0x08 && pkt[u + 3] == 0x68 && pkt[u + 9] == 255
               && Tunnelled(t, h, Word(pkt[16], pkt[17], pkt[18], pkt[19]),
                            Word(pkt[u + 12], pkt[u + 13], pkt[u + 14], pkt[u + 15]))
    ensures Stripped(t, h, pkt).Some? ==> Stripped(t, h, pkt).value == pkt[36..]
  {
    InvShape(t, h);
    if |pkt| >= 64 {
      TpduExactly(pkt);
      UplinkExact(t, h, OuterDst(pkt), Teid(pkt));
    }
    hide Inv, Shape, Find, IsTpdu, OuterDst, Teid, Word, Reached;
  }

  lemma TpduExactly(pkt: Packet)
    requires |pkt| >= 64 && UdpAt(pkt) + 16 <= |pkt|
    ensures var u := 4 * (pkt[0] % 16);
            && (IsTpdu(pkt) <==> pkt[9] == 17 && pkt[u + 2] == 0x08 && pkt[u + 3] == 0x68 && pkt[u + 9] == 255)
            && OuterDst(pkt) == Word(pkt[16], pkt[17], pkt[18], pkt[19])
            && Teid(pkt) == Word(pkt[u + 12], pkt[u + 13], pkt[u + 14], pkt[u + 15])
  {
    var u := UdpAt(pkt);
    UnBe2(pkt[u + 2..u + 4]);
    UnBe4(pkt[16..20]);
    UnBe4(pkt[u + 12..u + 16]);
    hide UnBe;
  }

  /** What the downlink hook sends, the uplink hook of another node takes off again byte for byte, if and
      only if the flow goes to the GTP-U port, the packet is ICMP, TCP or UDP of at least 28 octets, and the
      other node's tunnel index reaches a flow that ends where this one goes. */
  lemma HooksInvert(t: Table, h: U32 -> nat, f: Flow, pkt: Packet, c: Chosen)
    requires Inv(t, h) && |pkt| >= 20
    ensures Shape(t) && HeadersIn(Headers(f, pkt, c) + pkt)
    ensures Stripped(t, h, Headers(f, pkt, c) + pkt) == Some(pkt)
            <==> && f.remotePort == GTP1U_PORT && Carried(pkt[9]) && |pkt| >= IP_UDP_LEN
                 && exists id :: Reached(t, h, f.remoteIp, f.remoteTeid, id)
  {
    HeadersRead(f, pkt, c);
    UplinkExact(t, h, f.remoteIp, f.remoteTeid);
    hide Headers, IsTpdu, Inv, Find, OuterDst, Teid, Reached;
    var out := Headers(f, pkt, c) + pkt;
    assert out[45] == out[IP_UDP_GTP_LEN..][9];
  }
}

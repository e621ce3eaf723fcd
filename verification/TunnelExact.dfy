/** The GTP device octet by octet: what is pushed, which packets are sent for whom, and what becomes of every
    packet that arrives. */
module TunnelExact {
  import opened Options
  import opened Bytes
  import opened HashIndex
  import opened Tunnel

  // ---------------------------------------------------------------- headers

  /** Every octet of a GTPv0 header. */
  lemma Header0Octets(p: Pdp, payload: nat)
    requires p.V0?
    ensures var h := Header(p, payload);
            && h[0] == 0x1e && h[1] == 255 && UnBe(h[2..4]) == payload % 0x1_0000 && UnBe(h[6..8]) == p.flow
            && h[8] == 255 && h[9] == 255 && h[10] == 255 && h[11] == 255 && UnBe(h[12..20]) == p.tid
            && (p.txSeq >= 0 ==> UnBe(h[4..6]) == p.txSeq % 0xffff)
            && (UnBe(h[4..6]) - Truncated(p.txSeq)) % 0x1_0000 == 0
  {
    PowValues();
    Header0Parts(p, payload);
    SeqNoIs(p.txSeq);
    hide Header, SeqNo, UnBe, Truncated;
    UnBeBe(2, payload);
    UnBeBe(2, SeqNo(p.txSeq));
    UnBeBe(2, p.flow);
    UnBeBe(8, p.tid);
  }

  lemma Header0Parts(p: Pdp, payload: nat)
    requires p.V0?
    ensures var h := Header(p, payload);
            && h[..2] == [0x1e, 255] && h[2..4] == Be(2, payload) && h[4..6] == Be(2, SeqNo(p.txSeq)) && h[6..8] == Be(2, p.flow)
            && h[8..12] == [255, 255, 255, 255] && h[12..20] == Be(8, p.tid)
            && h[0] == 0x1e && h[1] == 255 && h[8] == 255 && h[9] == 255 && h[10] == 255 && h[11] == 255
  {
    hide Be, SeqNo;
  }

  /** The remainder by 0xffff that takes the sign of the dividend. */
  function Truncated(x: int): int {
    if x >= 0 then x % 0xffff else -((-x) % 0xffff)
  }

  lemma SeqNoIs(x: int)
    ensures (SeqNo(x) - Truncated(x)) % 0x1_0000 == 0 && (x >= 0 ==> SeqNo(x) == x % 0xffff)
  {
  }

  /** Every octet of a GTPv1 header. */
  lemma Header1Octets(p: Pdp, payload: nat)
    requires p.V1?
    ensures var h := Header(p, payload);
            h[0] == 0x30 && h[1] == 255 && UnBe(h[2..4]) == payload % 0x1_0000 && UnBe(h[4..8]) == p.outTei
  {
    PowValues();
    var h := Header(p, payload);
    UnBeBe(2, payload);
    UnBeBe(4, p.outTei);
    assert h[2..4] == Be(2, payload) && h[4..8] == Be(4, p.outTei);
    hide Be, UnBe;
  }

  // ---------------------------------------------------------------- sending

  ghost predicate Serves(d: Dev, id: nat, addr: int) {
    id in d.store && d.store[id].ms == addr
  }

  lemma ServesFound(d: Dev, hs: Hashes, addr: nat, id: nat)
    requires Indexed(d, hs) && Shape(d) && Serves(d, id, addr)
    ensures Find(d, hs, Mobile(addr)) == Some(id)
  {
    OnChains(d, hs, id);
    hide IndexOk;
    var r := Find(d, hs, Mobile(addr));
    assert r.Some? && d.store[r.value].ms == addr;
  }

  /** Where the packet to be sent has the mobile's address. */
  lemma OutAddress(role: Role, ip: Packet)
    requires |ip| >= 20
    ensures MobileOut(role, ip) == AddressAt(ip, if role == Sgsn then 12 else 16)
  {
    AddressesAt(ip);
    hide Source, Destination, AddressAt;
  }

  /** The context whose mobile the packet carries, at the source for an SGSN and at the destination for a GGSN,
      encapsulates it; there being none, nothing is sent. */
  lemma SendExactly(d: Dev, hs: Hashes, ip: Packet, id: nat)
    requires Indexed(d, hs) && Shape(d) && |ip| >= 20
    ensures var addr := AddressAt(ip, if d.role == Sgsn then 12 else 16);
            && (Serves(d, id, addr) ==> Send(d, hs, ip).0 == Some(Header(d.store[id], |ip|) + ip))
            && ((forall x :: !Serves(d, x, addr)) ==> Send(d, hs, ip) == (None, d))
  {
    OutAddress(d.role, ip);
    hide Indexed, Shape, Find, Header, MobileOut, AddressAt;
    var addr := MobileOut(d.role, ip);
    var r := Find(d, hs, Mobile(addr));
    if Serves(d, id, addr) {
      ServesFound(d, hs, addr, id);
    } else if r.Some? {
      assert Serves(d, r.value, addr);
    }
  }

  /** Sending moves the sequence counter of a GTPv0 context on by one, through the sign bit, and changes nothing
      else in the device. */
  lemma SendCounts(d: Dev, hs: Hashes, ip: Packet, id: nat)
    requires Indexed(d, hs) && Shape(d) && |ip| >= 20
    requires Serves(d, id, AddressAt(ip, if d.role == Sgsn then 12 else 16))
    ensures Send(d, hs, ip).1 == d.(store := d.store[id := match d.store[id] {
              case V0(tid, flow, ms, n) => V0(tid, flow, ms, if n == 0x7fff_ffff then -0x8000_0000 else n + 1)
              case V1(inTei, outTei, ms, n) => V1(inTei, outTei, ms, n)
            }])
  {
    OutAddress(d.role, ip);
    ServesFound(d, hs, MobileOut(d.role, ip), id);
    SendStores(d, hs, ip, id);
    hide Indexed, Shape, Send, MobileOut, AddressAt;
  }

  lemma SendStores(d: Dev, hs: Hashes, ip: Packet, id: nat)
    requires Shape(d) && |ip| >= 20 && Find(d, hs, Mobile(MobileOut(d.role, ip))) == Some(id)
    ensures Send(d, hs, ip).1 == d.(store := d.store[id := Counted(d.store[id])])
  {
    hide Shape, Find, Header, MobileOut, Counted;
  }

  // ---------------------------------------------------------------- receiving

  /** A context for the tunnel and the mobile. */
  ghost predicate Takes(d: Dev, id: nat, v0: bool, tunnel: nat, addr: int) {
    && id in d.store && d.store[id].V0? == v0 && d.store[id].ms == addr
    && tunnel == if v0 then d.store[id].tid else d.store[id].inTei
  }

  ghost predicate Taken(d: Dev, v0: bool, tunnel: nat, addr: int) {
    exists id :: Takes(d, id, v0, tunnel, addr)
  }

  lemma FindsTunnel(d: Dev, hs: Hashes, v0: bool, tunnel: nat)
    requires Indexed(d, hs) && Shape(d)
    ensures var r := Find(d, hs, if v0 then Tid0(tunnel) else Tei1(tunnel));
            && (r.Some? ==> Takes(d, r.value, v0, tunnel, d.store[r.value].ms))
            && (forall id: nat, addr: int :: Takes(d, id, v0, tunnel, addr) ==> r == Some(id) && addr == d.store[id].ms)
  {
    var r := Find(d, hs, if v0 then Tid0(tunnel) else Tei1(tunnel));
    forall id: nat, addr: int | Takes(d, id, v0, tunnel, addr)
      ensures r == Some(id)
    {
      FindsInbound(d, hs, id);
    }
    hide Find, Indexed, Shape;
  }

  /** What a packet begins with to be a GTPv0 T-PDU: 28 octets, version 0, type 255. */
  predicate Tpdu0(pkt: Packet) {
    |pkt| >= 28 && pkt[8] < 0x20 && pkt[9] == 255
  }

  /** GTPv0: too short is dropped; a T-PDU for a known tunnel and its mobile is stripped of 28 octets; anything
      else goes up the stack. */
  lemma Recv0Exactly(d: Dev, hs: Hashes, pkt: Packet)
    requires Indexed(d, hs) && Shape(d)
    ensures var r := Recv0(d, hs, pkt);
            && (r == Drop <==> |pkt| < 28)
            && (r.Decapsulated? <==> Tpdu0(pkt) && |pkt| >= 48
                                     && Taken(d, true, UnBe(pkt[20..28]), AddressAt(pkt, if d.role == Sgsn then 44 else 40)))
            && (r.Decapsulated? ==>
                  r.inner == pkt[28..] && Takes(d, r.id, true, UnBe(pkt[20..28]), AddressAt(pkt, if d.role == Sgsn then 44 else 40)))
  {
    hide Indexed, Shape, Rx, UnBe, AddressAt, Takes, Find;
    if |pkt| >= 28 {
      var tunnel := UnBe(pkt[20..28]);
      FindsTunnel(d, hs, true, tunnel);
      RxExactly(d, pkt, 28);
      if Find(d, hs, Tid0(tunnel)).Some? {
        TakesIs(d, Find(d, hs, Tid0(tunnel)).value, true, tunnel);
      }
    }
  }

  lemma TakesIs(d: Dev, id: nat, v0: bool, tunnel: nat)
    requires id in d.store && Takes(d, id, v0, tunnel, d.store[id].ms)
    ensures forall addr: int :: Takes(d, id, v0, tunnel, addr) <==> addr == d.store[id].ms
  {
  }

  lemma RxExactly(d: Dev, pkt: Packet, n: nat)
    requires n <= |pkt|
    ensures forall id | id in d.store ::
              Rx(d, id, pkt, n) == if |pkt| >= n + 20 && AddressAt(pkt, n + if d.role == Sgsn then 16 else 12) == d.store[id].ms
                                   then Decapsulated(id, pkt[n..]) else PassUp
  {
    if |pkt| >= n + 20 {
      AddressesAt(pkt[n..]);
    }
    hide Source, Destination;
  }

  /** What a packet begins with to be a GTPv1 T-PDU: 16 octets, version 1, type 255. */
  predicate Tpdu1(pkt: Packet) {
    |pkt| >= 16 && 0x20 <= pkt[8] < 0x40 && pkt[9] == 255
  }

  /** The headers in front of the inner packet: any of the three lowest flags brings four octets. */
  function Inner1(pkt: Packet): nat
    requires |pkt| >= 16
  {
    if pkt[8] % 8 == 0 then 16 else 20
  }

  /** GTPv1: the same, with the optional octets. */
  lemma Recv1Exactly(d: Dev, hs: Hashes, pkt: Packet)
    requires Indexed(d, hs) && Shape(d)
    ensures var r := Recv1(d, hs, pkt);
            && (r == Drop <==> |pkt| < 16 || (Tpdu1(pkt) && |pkt| < Inner1(pkt)))
            && (r.Decapsulated? <==>
                  && Tpdu1(pkt) && |pkt| >= Inner1(pkt) + 20
                  && Taken(d, false, AddressAt(pkt, 12), AddressAt(pkt, Inner1(pkt) + if d.role == Sgsn then 16 else 12)))
            && (r.Decapsulated? ==>
                  && r.inner == pkt[Inner1(pkt)..]
                  && Takes(d, r.id, false, AddressAt(pkt, 12), AddressAt(pkt, Inner1(pkt) + if d.role == Sgsn then 16 else 12)))
  {
    hide Indexed, Shape, Rx, UnBe, Takes, Find;
    if |pkt| >= 16 {
      UnBe4(pkt[12..16]);
      var tunnel := UnBe(pkt[12..16]);
      assert tunnel == AddressAt(pkt, 12);
      hide AddressAt;
      FindsTunnel(d, hs, false, tunnel);
      if |pkt| >= Inner1(pkt) {
        RxExactly(d, pkt, Inner1(pkt));
      }
      if Find(d, hs, Tei1(tunnel)).Some? {
        TakesIs(d, Find(d, hs, Tei1(tunnel)).value, false, tunnel);
      }
    }
  }

  // ---------------------------------------------------------------- contexts

  /** The context as given, whatever its counter. */
  predicate GivenAs(q: Pdp, p: Pdp) {
    match p
    case V0(tid, flow, ms, _) => q.V0? && q.tid == tid && q.flow == flow && q.ms == ms
    case V1(inTei, outTei, ms, _) => q.V1? && q.inTei == inTei && q.outTei == outTei && q.ms == ms
  }

  /** The device with one context as given and the rest as before. */
  ghost predicate AddedAt(d: Dev, e: Dev, id: nat, p: Pdp, txSeq: I32) {
    && id in e.store && GivenAs(e.store[id], p) && e.store[id].txSeq == txSeq
    && e.store.Keys == d.store.Keys + {id} && forall x | x in d.store && x != id :: e.store[x] == d.store[x]
  }

  /** A known mobile's context is refused by the flags or becomes as given, its counter kept; a new mobile's is
      refused without memory or added as given, its counter zero; the other contexts stay as they were. */
  lemma PdpAdded(d: Dev, hs: Hashes, p: Pdp, excl: bool, replace: bool, mem: Option<nat>, id: nat)
    requires Indexed(d, hs) && Shape(d) && (mem.Some? ==> mem.value !in d.store)
    ensures Serves(d, id, p.ms) ==>
              var (e, ret) := PdpAdd(d, hs, p, excl, replace, mem);
              && ret == (if excl then -17 else if replace then -95 else 0)
              && (if ret == 0 then AddedAt(d, e, id, p, d.store[id].txSeq) else e == d)
    ensures (forall x :: !Serves(d, x, p.ms)) ==>
              var (e, ret) := PdpAdd(d, hs, p, excl, replace, mem);
              && ret == (if mem.Some? then 0 else -12)
              && (if ret == 0 then AddedAt(d, e, mem.value, p, 0) else e == d)
  {
    hide Indexed, Shape, Find, Slot, Inbound;
    var r := Find(d, hs, Mobile(p.ms));
    if Serves(d, id, p.ms) {
      ServesFound(d, hs, p.ms, id);
    } else if r.Some? {
      assert Serves(d, r.value, p.ms);
    }
  }
}

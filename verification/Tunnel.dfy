/** GTP-U encapsulation (kmod/gtp.c): PDP contexts, the GTPv0 and GTPv1 headers pushed on the way out and
    taken off on the way in. Packets are octet sequences. */
module Tunnel {
  import opened Options
  import opened Bytes
  import opened HashIndex

  type I32 = x: int | -0x8000_0000 <= x < 0x8000_0000

  type Packet = seq<Byte>

  datatype Role = Sgsn | Ggsn

  /** A PDP context: the mobile's address and the tunnel, by version. */
  datatype Pdp =
    | V0(tid: U64, flow: U16, ms: U32, txSeq: I32)
    | V1(inTei: U32, outTei: U32, ms: U32, txSeq: I32)

  const GTP_TPDU: Byte := 255
  const UDP_LEN: nat := 8
  const GTP0_LEN: nat := 20
  const GTP1_LEN: nat := 8
  const IP_LEN: nat := 20

  // ---------------------------------------------------------------- headers

  /** C's remainder of the old counter by 0xffff, cut to sixteen bits. */
  function SeqNo(txSeq: int): U16 {
    if txSeq >= 0 then txSeq % 0xffff else (0x1_0000 - (-txSeq) % 0xffff) % 0x1_0000
  }

  /** The atomic counter's increment. */
  function Inc(txSeq: I32): I32 {
    if txSeq == 0x7fff_ffff then -0x8000_0000 else txSeq + 1
  }

  function Header(p: Pdp, payload: nat): (h: Packet)
    ensures |h| == if p.V0? then GTP0_LEN else GTP1_LEN
  {
    match p
    case V0(tid, flow, _, txSeq) =>
      [0x1e, GTP_TPDU] + Be(2, payload) + Be(2, SeqNo(txSeq)) + Be(2, flow) + [0xff, 0xff, 0xff, 0xff] + Be(8, tid)
    case V1(_, outTei, _, _) =>
      [0x30, GTP_TPDU] + Be(2, payload) + Be(4, outTei)
  }

  function Source(ip: Packet): nat
    requires |ip| >= IP_LEN
  {
    UnBe(ip[12..16])
  }

  function Destination(ip: Packet): nat
    requires |ip| >= IP_LEN
  {
    UnBe(ip[16..20])
  }

  /** Where a packet to be encapsulated carries the mobile's address. */
  function MobileOut(role: Role, ip: Packet): nat
    requires |ip| >= IP_LEN
  {
    if role == Sgsn then Source(ip) else Destination(ip)
  }

  /** Where a packet that came through the tunnel carries it. */
  function MobileIn(role: Role, ip: Packet): nat
    requires |ip| >= IP_LEN
  {
    if role == Sgsn then Destination(ip) else Source(ip)
  }

  // ---------------------------------------------------------------- lookup

  datatype Want = Tid0(tid: nat) | Tei1(tei: nat) | Mobile(addr: nat)

  predicate Matches(p: Pdp, w: Want) {
    match w
    case Tid0(tid) => p.V0? && p.tid == tid
    case Tei1(tei) => p.V1? && p.inTei == tei
    case Mobile(addr) => p.ms == addr
  }

  datatype Dev = Dev(role: Role, store: map<nat, Pdp>, tid: seq<seq<nat>>, addr: seq<seq<nat>>)

  datatype Hashes = Hashes(tid0: nat -> nat, tei1: nat -> nat, addr: nat -> nat)

  ghost predicate Shape(d: Dev) {
    && 0 < |d.tid| == |d.addr|
    && (forall i, k | 0 <= i < |d.tid| && 0 <= k < |d.tid[i]| :: d.tid[i][k] in d.store)
    && (forall i, k | 0 <= i < |d.addr| && 0 <= k < |d.addr[i]| :: d.addr[i][k] in d.store)
  }

  function Scan(store: map<nat, Pdp>, chain: seq<nat>, w: Want): (r: Option<nat>)
    requires forall k | 0 <= k < |chain| :: chain[k] in store
    ensures r.Some? ==> r.value in chain && r.value in store && Matches(store[r.value], w)
    ensures r.None? ==> forall k | 0 <= k < |chain| :: !Matches(store[chain[k]], w)
  {
    if chain == [] then None
    else if Matches(store[chain[0]], w) then Some(chain[0])
    else Scan(store, chain[1..], w)
  }

  /** The bucket a lookup goes to. */
  function Slot(hs: Hashes, w: Want, n: nat): (i: nat)
    requires n > 0
    ensures i < n
  {
    match w
    case Tid0(tid) => hs.tid0(tid) % n
    case Tei1(tei) => hs.tei1(tei) % n
    case Mobile(addr) => hs.addr(addr) % n
  }

  function Chain(d: Dev, hs: Hashes, w: Want): seq<nat>
    requires 0 < |d.tid| == |d.addr|
  {
    if w.Mobile? then d.addr[Slot(hs, w, |d.addr|)] else d.tid[Slot(hs, w, |d.tid|)]
  }

  function Find(d: Dev, hs: Hashes, w: Want): (r: Option<nat>)
    requires Shape(d)
    ensures r.Some? ==> r.value in d.store && Matches(d.store[r.value], w)
  {
    Scan(d.store, Chain(d, hs, w), w)
  }

  // ---------------------------------------------------------------- sending and receiving

  /** Pushing a GTPv0 header uses up a sequence number. */
  function Counted(p: Pdp): Pdp {
    match p
    case V0(tid, flow, ms, txSeq) => V0(tid, flow, ms, Inc(txSeq))
    case V1(_, _, _, _) => p
  }

  /** gtp_build_skb_ip4 up to the pushed header; None stands for -ENOENT. */
  function Send(d: Dev, hs: Hashes, ip: Packet): (Option<Packet>, Dev)
    requires Shape(d) && |ip| >= IP_LEN
  {
    match Find(d, hs, Mobile(MobileOut(d.role, ip)))
    case None => (None, d)
    case Some(id) =>
      var p := d.store[id];
      (Some(Header(p, |ip|) + ip), d.(store := d.store[id := Counted(p)]))
  }

  /** -1, 1 and 0 of the receive hooks; a decapsulated packet names the context that took it. */
  datatype Outcome = Drop | PassUp | Decapsulated(id: nat, inner: Packet)

  /** gtp_rx: the context only accepts packets of its own mobile. */
  function Rx(d: Dev, id: nat, pkt: Packet, hdrlen: nat): Outcome
    requires id in d.store && hdrlen <= |pkt|
  {
    if |pkt| < hdrlen + IP_LEN then PassUp
    else if MobileIn(d.role, pkt[hdrlen..]) == d.store[id].ms then Decapsulated(id, pkt[hdrlen..])
    else PassUp
  }

  /** gtp0_udp_encap_recv; the packet begins with the UDP header. */
  function Recv0(d: Dev, hs: Hashes, pkt: Packet): Outcome
    requires Shape(d)
  {
    var hdrlen := UDP_LEN + GTP0_LEN;
    if |pkt| < hdrlen then Drop
    else if pkt[8] / 32 != 0 || pkt[9] != GTP_TPDU then PassUp
    else match Find(d, hs, Tid0(UnBe(pkt[20..28])))
      case None => PassUp
      case Some(id) => Rx(d, id, pkt, hdrlen)
  }

  /** gtp1u_udp_encap_recv; any of the E, S and PN flags brings four more octets. */
  function Recv1(d: Dev, hs: Hashes, pkt: Packet): Outcome
    requires Shape(d)
  {
    var base := UDP_LEN + GTP1_LEN;
    if |pkt| < base then Drop
    else if pkt[8] / 32 != 1 || pkt[9] != GTP_TPDU then PassUp
    else
      var hdrlen := if pkt[8] % 8 != 0 then base + 4 else base;
      if |pkt| < hdrlen then Drop
      else match Find(d, hs, Tei1(UnBe(pkt[12..16])))
        case None => PassUp
        case Some(id) => Rx(d, id, pkt, hdrlen)
  }

  // ---------------------------------------------------------------- the two ends invert each other

  /** The other end's view of a context: the same mobile, tunnel ids swapped (GTPv0 has one for both
      directions). */
  predicate Mirrored(p: Pdp, q: Pdp) {
    && p.ms == q.ms
    && match p {
         case V0(tid, _, _, _) => q.V0? && q.tid == tid
         case V1(inTei, outTei, _, _) => q.V1? && q.inTei == outTei && q.outTei == inTei
       }
  }

  function Tunnelled(p: Pdp): Want {
    if p.V0? then Tid0(p.tid) else Tei1(p.outTei)
  }

  function Receive(d: Dev, hs: Hashes, v0: bool, pkt: Packet): Outcome
    requires Shape(d)
  {
    if v0 then Recv0(d, hs, pkt) else Recv1(d, hs, pkt)
  }

  /** The address in four octets of a packet: an IPv4 header has the source at 12 and the destination at 16. */
  function AddressAt(p: Packet, k: nat): int
    requires k + 4 <= |p|
  {
    Num4(p[k], p[k + 1], p[k + 2], p[k + 3])
  }

  lemma AddressesAt(ip: Packet)
    requires |ip| >= IP_LEN
    ensures Source(ip) == AddressAt(ip, 12) && Destination(ip) == AddressAt(ip, 16)
  {
    UnBe4(ip[12..16]);
    UnBe4(ip[16..20]);
    hide UnBe;
  }

  /** What the receiver reads off a pushed header. */
  lemma HeaderReads(udp: Packet, p: Pdp, ip: Packet)
    requires |udp| == UDP_LEN
    ensures var pkt := udp + (Header(p, |ip|) + ip);
            var hdrlen := if p.V0? then UDP_LEN + GTP0_LEN else UDP_LEN + GTP1_LEN;
            && |pkt| == hdrlen + |ip| && pkt[9] == GTP_TPDU && pkt[hdrlen..] == ip
            && (p.V0? ==> pkt[8] == 0x1e && UnBe(pkt[20..28]) == p.tid)
            && (p.V1? ==> pkt[8] == 0x30 && UnBe(pkt[12..16]) == p.outTei)
  {
    HeaderHolds(p, |ip|);
    var h := Header(p, |ip|);
    var pkt := udp + (h + ip);
    hide Header, UnBe;
    assert pkt[8] == h[0] && pkt[9] == h[1] && pkt[UDP_LEN + |h|..] == ip;
    if p.V0? {
      assert pkt[20..28] == h[12..20];
    } else {
      assert pkt[12..16] == h[4..8];
    }
  }

  lemma HeaderHolds(p: Pdp, payload: nat)
    ensures var h := Header(p, payload);
            && h[1] == GTP_TPDU
            && (p.V0? ==> h[0] == 0x1e && UnBe(h[12..20]) == p.tid)
            && (p.V1? ==> h[0] == 0x30 && UnBe(h[4..8]) == p.outTei)
  {
    PowValues();
    var h := Header(p, payload);
    match p
    case V0(tid, flow, _, txSeq) =>
      UnBeBe(8, tid);
      assert h[12..20] == Be(8, tid);
    case V1(_, outTei, _, _) =>
      UnBeBe(4, outTei);
      assert h[4..8] == Be(4, outTei);
  }

  /** A pushed packet reaches the context its tunnel id selects, and is taken off byte for byte if and
      only if the inner packet is that context's mobile's, seen from the receiver's side. */
  lemma ReceivePushed(d: Dev, hs: Hashes, udp: Packet, p: Pdp, ip: Packet)
    requires Shape(d) && |udp| == UDP_LEN && |ip| >= IP_LEN
    ensures var r := Receive(d, hs, p.V0?, udp + (Header(p, |ip|) + ip));
            match Find(d, hs, Tunnelled(p))
            case None => r == PassUp
            case Some(id) =>
              r == if AddressAt(ip, if d.role == Sgsn then 16 else 12) == d.store[id].ms then Decapsulated(id, ip) else PassUp
  {
    HeaderReads(udp, p, ip);
    AddressesAt(ip);
    var pkt := udp + (Header(p, |ip|) + ip);
    hide Header, Shape, AddressAt, Source, Destination, UnBe, Scan, Chain;
    if p.V0? {
      assert pkt[8] / 32 == 0;
    } else {
      assert pkt[8] / 32 == 1 && pkt[8] % 8 == 0;
    }
    hide Find;
  }

  /** Mirrored contexts at ends of opposite roles: whatever one sends, the other recovers. */
  lemma MirrorInverts(a: Dev, b: Dev, hs: Hashes, hsb: Hashes, udp: Packet, ip: Packet)
    requires Shape(a) && Shape(b) && |udp| == UDP_LEN && |ip| >= IP_LEN
    requires a.role != b.role
    requires Find(a, hs, Mobile(MobileOut(a.role, ip))).Some?
    requires var p := a.store[Find(a, hs, Mobile(MobileOut(a.role, ip))).value];
             Find(b, hsb, Tunnelled(p)).Some? && Mirrored(p, b.store[Find(b, hsb, Tunnelled(p)).value])
    ensures var p := a.store[Find(a, hs, Mobile(MobileOut(a.role, ip))).value];
            var sent := Send(a, hs, ip).0;
            && sent.Some?
            && Receive(b, hsb, p.V0?, udp + sent.value) == Decapsulated(Find(b, hsb, Tunnelled(p)).value, ip)
  {
    var p := a.store[Find(a, hs, Mobile(MobileOut(a.role, ip))).value];
    AddressesAt(ip);
    hide AddressAt, Source, Destination, Receive, Header;
    ReceivePushed(b, hsb, udp, p, ip);
  }

  /** The tunnel id a context is reached by. */
  function Inbound(q: Pdp): Want {
    if q.V0? then Tid0(q.tid) else Tei1(q.inTei)
  }

  ghost function TidPlace(d: Dev, hs: Hashes): map<nat, nat>
    requires |d.tid| > 0
  {
    map id | id in d.store :: Slot(hs, Inbound(d.store[id]), |d.tid|)
  }

  ghost function MobilePlace(d: Dev, hs: Hashes): map<nat, nat>
    requires |d.addr| > 0
  {
    map id | id in d.store :: Slot(hs, Mobile(d.store[id].ms), |d.addr|)
  }

  ghost predicate Unique(d: Dev) {
    && (forall x, y | x in d.store && y in d.store && Inbound(d.store[x]) == Inbound(d.store[y]) :: x == y)
    && (forall x, y | x in d.store && y in d.store && d.store[x].ms == d.store[y].ms :: x == y)
  }

  /** Both hash tables lead to every context once, by its tunnel id and by its mobile, and no two share
      either. */
  ghost predicate Indexed(d: Dev, hs: Hashes) {
    0 < |d.tid| == |d.addr| && IndexOk(d.tid, TidPlace(d, hs)) && IndexOk(d.addr, MobilePlace(d, hs)) && Unique(d)
  }

  lemma IndexedShape(d: Dev, hs: Hashes)
    requires Indexed(d, hs)
    ensures Shape(d)
  {
    assert forall i | 0 <= i < |d.tid| :: ChainOk(d.tid[i], TidPlace(d, hs), i);
    assert forall i | 0 <= i < |d.addr| :: ChainOk(d.addr[i], MobilePlace(d, hs), i);
  }

  lemma OnChains(d: Dev, hs: Hashes, id: nat)
    requires Indexed(d, hs) && id in d.store
    ensures id in Chain(d, hs, Inbound(d.store[id])) && id in Chain(d, hs, Mobile(d.store[id].ms))
  {
    assert TidPlace(d, hs)[id] < |d.tid| && id in d.tid[TidPlace(d, hs)[id]];
    assert MobilePlace(d, hs)[id] < |d.addr| && id in d.addr[MobilePlace(d, hs)[id]];
  }

  ghost predicate HasMirror(p: Pdp, b: Dev, id: nat) {
    id in b.store && Mirrored(p, b.store[id])
  }

  ghost predicate MirrorOf(a: Dev, b: Dev) {
    a.role != b.role && forall id | id in a.store :: exists jd :: HasMirror(a.store[id], b, jd)
  }

  lemma FindsInbound(d: Dev, hs: Hashes, id: nat)
    requires Shape(d) && Indexed(d, hs) && id in d.store
    ensures Find(d, hs, Inbound(d.store[id])) == Some(id)
  {
    OnChains(d, hs, id);
    hide IndexOk;
    var r := Find(d, hs, Inbound(d.store[id]));
    assert Matches(d.store[id], Inbound(d.store[id]));
    assert r.Some?;
    assert Inbound(d.store[r.value]) == Inbound(d.store[id]);
  }

  lemma FindsMobile(d: Dev, hs: Hashes, addr: nat)
    requires Shape(d) && Indexed(d, hs)
    ensures Find(d, hs, Mobile(addr)).Some? <==> exists id | id in d.store :: d.store[id].ms == addr
  {
    var r := Find(d, hs, Mobile(addr));
    if r.None? {
      forall id | id in d.store
        ensures d.store[id].ms != addr
      {
        OnChains(d, hs, id);
      }
    }
  }

  lemma SentVersion(p: Pdp, ip: Packet)
    ensures var sent := Header(p, |ip|) + ip; |sent| > |ip| && (sent[0] / 32 == 0 <==> p.V0?)
  {
  }

  /** A device sends exactly the packets of its mobiles, and a device that mirrors it recovers each one
      byte for byte from the socket of the version sent. */
  lemma DevicesInvert(a: Dev, b: Dev, hsa: Hashes, hsb: Hashes, udp: Packet, ip: Packet)
    requires Shape(a) && Shape(b) && Indexed(a, hsa) && Indexed(b, hsb) && MirrorOf(a, b)
    requires |udp| == UDP_LEN && |ip| >= IP_LEN
    ensures var sent := Send(a, hsa, ip).0;
            && (sent.Some? <==> exists id | id in a.store :: a.store[id].ms == AddressAt(ip, if a.role == Sgsn then 12 else 16))
            && (sent.Some? ==>
                  && |sent.value| > |ip|
                  && var r := Receive(b, hsb, sent.value[0] / 32 == 0, udp + sent.value);
                  r.Decapsulated? && r.inner == ip)
  {
    AddressesAt(ip);
    hide Find, Indexed, Shape, Receive, Header, Source, Destination, AddressAt;
    FindsMobile(a, hsa, MobileOut(a.role, ip));
    var r := Find(a, hsa, Mobile(MobileOut(a.role, ip)));
    if r.Some? {
      var p := a.store[r.value];
      var jd :| HasMirror(p, b, jd);
      FindsInbound(b, hsb, jd);
      assert Tunnelled(p) == Inbound(b.store[jd]);
      MirrorInverts(a, b, hsa, hsb, udp, ip);
      SentVersion(p, ip);
    }
  }

  /** Two devices whose contexts differ in their counters alone. */
  ghost predicate SameTunnels(a: Dev, a1: Dev) {
    && a1.role == a.role && a1.tid == a.tid && a1.addr == a.addr && a1.store.Keys == a.store.Keys
    && forall id | id in a.store :: SameTunnel(a.store[id], a1.store[id])
  }

  predicate SameTunnel(p: Pdp, q: Pdp) {
    match p
    case V0(tid, flow, ms, _) => q == V0(tid, flow, ms, q.txSeq)
    case V1(inTei, outTei, ms, _) => q == V1(inTei, outTei, ms, q.txSeq)
  }

  lemma SameTunnelsMirror(a: Dev, a1: Dev, b: Dev)
    requires SameTunnels(a, a1)
    ensures MirrorOf(a, b) ==> MirrorOf(a1, b)
    ensures MirrorOf(b, a) ==> MirrorOf(b, a1)
  {
    if MirrorOf(a, b) {
      forall id | id in a1.store
        ensures exists jd :: HasMirror(a1.store[id], b, jd)
      {
        assert SameTunnel(a.store[id], a1.store[id]);
        var jd :| HasMirror(a.store[id], b, jd);
        assert HasMirror(a1.store[id], b, jd);
      }
    }
    if MirrorOf(b, a) {
      forall id | id in b.store
        ensures exists jd :: HasMirror(b.store[id], a1, jd)
      {
        var jd :| HasMirror(b.store[id], a, jd);
        assert SameTunnel(a.store[jd], a1.store[jd]);
        assert HasMirror(b.store[id], a1, jd);
      }
    }
  }

  lemma SameTunnelsIndexed(a: Dev, a1: Dev, hs: Hashes)
    requires Indexed(a, hs) && SameTunnels(a, a1)
    ensures Shape(a1) && Indexed(a1, hs)
  {
    hide IndexOk, Slot;
    forall id | id in a.store
      ensures Inbound(a1.store[id]) == Inbound(a.store[id]) && a1.store[id].ms == a.store[id].ms
    {
      assert SameTunnel(a.store[id], a1.store[id]);
    }
    assert TidPlace(a1, hs) == TidPlace(a, hs) && MobilePlace(a1, hs) == MobilePlace(a, hs);
    IndexedShape(a1, hs);
  }

  /** Sending uses up a sequence number and changes nothing else, so whatever was sent before, the two
      ends go on inverting each other. */
  lemma SendKeeps(a: Dev, b: Dev, hs: Hashes, ip: Packet)
    requires Shape(a) && Indexed(a, hs) && |ip| >= IP_LEN
    ensures var a1 := Send(a, hs, ip).1;
            && Shape(a1) && Indexed(a1, hs) && SameTunnels(a, a1)
            && (MirrorOf(a, b) ==> MirrorOf(a1, b))
            && (MirrorOf(b, a) ==> MirrorOf(b, a1))
  {
    hide Find, Indexed, Shape, MirrorOf;
    var a1 := Send(a, hs, ip).1;
    assert SameTunnels(a, a1);
    SameTunnelsIndexed(a, a1, hs);
    SameTunnelsMirror(a, a1, b);
  }

  // ---------------------------------------------------------------- adding contexts

  const EEXIST := -17
  const EOPNOTSUPP := -95
  const ENOMEM := -12

  /** The counter of a context lives through an update. */
  function WithSeq(p: Pdp, txSeq: I32): Pdp {
    match p
    case V0(tid, flow, ms, _) => V0(tid, flow, ms, txSeq)
    case V1(inTei, outTei, ms, _) => V1(inTei, outTei, ms, txSeq)
  }

  /** ipv4_pdp_add: a known mobile's context is rewritten where it is, unless the flags forbid it; a new one
      goes to the head of both chains. `mem` is what the allocator offers. */
  function PdpAdd(d: Dev, hs: Hashes, p: Pdp, excl: bool, replace: bool, mem: Option<nat>): (Dev, int)
    requires Shape(d)
  {
    match Find(d, hs, Mobile(p.ms))
    case Some(id) =>
      if excl then (d, EEXIST)
      else if replace then (d, EOPNOTSUPP)
      else (Rewritten(d, id, p), 0)
    case None => if mem.None? then (d, ENOMEM) else (Threaded(d, hs, mem.value, p), 0)
  }

  function Rewritten(d: Dev, id: nat, p: Pdp): Dev
    requires id in d.store
  {
    d.(store := d.store[id := WithSeq(p, d.store[id].txSeq)])
  }

  function Threaded(d: Dev, hs: Hashes, id: nat, p: Pdp): Dev
    requires 0 < |d.tid| == |d.addr|
  {
    var a, t := Slot(hs, Mobile(p.ms), |d.addr|), Slot(hs, Inbound(p), |d.tid|);
    Dev(d.role, d.store[id := WithSeq(p, 0)], d.tid[t := [id] + d.tid[t]], d.addr[a := [id] + d.addr[a]])
  }

  /** No other mobile has the tunnel id. */
  ghost predicate Unshared(d: Dev, p: Pdp) {
    forall id | id in d.store && Inbound(d.store[id]) == Inbound(p) :: d.store[id].ms == p.ms
  }

  /** An update stays in its bucket. */
  ghost predicate StaysInBucket(d: Dev, hs: Hashes, p: Pdp)
    requires 0 < |d.tid|
  {
    forall id | id in d.store && d.store[id].ms == p.ms :: Slot(hs, Inbound(d.store[id]), |d.tid|) == Slot(hs, Inbound(p), |d.tid|)
  }

  lemma WithSeqSame(p: Pdp, txSeq: I32)
    ensures Inbound(WithSeq(p, txSeq)) == Inbound(p) && WithSeq(p, txSeq).ms == p.ms
  {
  }

  lemma PlacesSet(d: Dev, e: Dev, hs: Hashes, id: nat, q: Pdp)
    requires 0 < |d.tid| == |d.addr| && |e.tid| == |d.tid| && |e.addr| == |d.addr| && e.store == d.store[id := q]
    ensures TidPlace(e, hs) == TidPlace(d, hs)[id := Slot(hs, Inbound(q), |d.tid|)]
    ensures MobilePlace(e, hs) == MobilePlace(d, hs)[id := Slot(hs, Mobile(q.ms), |d.addr|)]
  {
    hide Slot, Inbound;
  }

  lemma RewrittenChains(d: Dev, hs: Hashes, id: nat, p: Pdp)
    requires Indexed(d, hs) && id in d.store && d.store[id].ms == p.ms
    ensures var e := Rewritten(d, id, p);
            && IndexOk(e.addr, MobilePlace(e, hs))
            && (IndexOk(e.tid, TidPlace(e, hs)) <==> Slot(hs, Inbound(d.store[id]), |d.tid|) == Slot(hs, Inbound(p), |d.tid|))
  {
    var e, q := Rewritten(d, id, p), WithSeq(p, d.store[id].txSeq);
    WithSeqSame(p, d.store[id].txSeq);
    PlacesSet(d, e, hs, id, q);
    assert MobilePlace(d, hs)[id := Slot(hs, Mobile(p.ms), |d.addr|)] == MobilePlace(d, hs);
    hide WithSeq, Slot, Unique, Inbound, IndexOk, TidPlace, MobilePlace;
    IndexMoved(d.tid, TidPlace(d, hs), id, Slot(hs, Inbound(p), |d.tid|));
  }

  lemma RewrittenUnique(d: Dev, id: nat, p: Pdp)
    requires Unique(d) && id in d.store && d.store[id].ms == p.ms
    ensures Unique(Rewritten(d, id, p)) <==> Unshared(d, p)
  {
    var e := Rewritten(d, id, p);
    WithSeqSame(p, d.store[id].txSeq);
    hide WithSeq, Inbound;
    assert forall x | x in d.store && x != id :: e.store[x] == d.store[x];
    if !Unshared(d, p) {
      var x :| x in d.store && Inbound(d.store[x]) == Inbound(p) && d.store[x].ms != p.ms;
      assert Inbound(e.store[x]) == Inbound(e.store[id]);
    }
  }

  lemma RewrittenShape(d: Dev, id: nat, p: Pdp)
    requires Shape(d) && id in d.store
    ensures Shape(Rewritten(d, id, p))
  {
    hide WithSeq;
  }

  lemma RewrittenExactly(d: Dev, hs: Hashes, id: nat, p: Pdp)
    requires Indexed(d, hs) && id in d.store && d.store[id].ms == p.ms
    ensures Shape(Rewritten(d, id, p))
    ensures Indexed(Rewritten(d, id, p), hs) <==> Unshared(d, p) && StaysInBucket(d, hs, p)
  {
    RewrittenChains(d, hs, id, p);
    RewrittenUnique(d, id, p);
    IndexedShape(d, hs);
    RewrittenShape(d, id, p);
    hide Shape, IndexOk, TidPlace, MobilePlace, Slot, Inbound, Unshared;
  }

  lemma ThreadedChains(d: Dev, hs: Hashes, id: nat, p: Pdp)
    requires Indexed(d, hs) && id !in d.store
    ensures var e := Threaded(d, hs, id, p);
            IndexOk(e.addr, MobilePlace(e, hs)) && IndexOk(e.tid, TidPlace(e, hs)) && |e.addr| == |d.addr| && |e.tid| == |d.tid|
  {
    var e := Threaded(d, hs, id, p);
    WithSeqSame(p, 0);
    PlacesSet(d, e, hs, id, WithSeq(p, 0));
    assert id !in MobilePlace(d, hs) && id !in TidPlace(d, hs);
    hide WithSeq, Slot, Unique, Inbound, IndexOk, TidPlace, MobilePlace;
    IndexAdd(d.addr, MobilePlace(d, hs), id, Slot(hs, Mobile(p.ms), |d.addr|));
    IndexAdd(d.tid, TidPlace(d, hs), id, Slot(hs, Inbound(p), |d.tid|));
  }

  /** A new context never loses a chain's nodes, shared tunnel id or not. */
  lemma ThreadedShape(d: Dev, hs: Hashes, id: nat, p: Pdp)
    requires Shape(d)
    ensures Shape(Threaded(d, hs, id, p))
  {
  }

  lemma ThreadedUnique(d: Dev, hs: Hashes, id: nat, p: Pdp)
    requires 0 < |d.tid| == |d.addr| && Unique(d) && id !in d.store && forall x | x in d.store :: d.store[x].ms != p.ms
    ensures Unique(Threaded(d, hs, id, p)) <==> Unshared(d, p)
  {
    var e := Threaded(d, hs, id, p);
    WithSeqSame(p, 0);
    hide WithSeq, Inbound, Slot;
    assert forall x | x in d.store :: e.store[x] == d.store[x];
    if !Unshared(d, p) {
      var x :| x in d.store && Inbound(d.store[x]) == Inbound(p) && d.store[x].ms != p.ms;
      assert Inbound(e.store[x]) == Inbound(e.store[id]);
    }
  }

  /** Adding keeps the tables exact if and only if no other mobile has the tunnel id and an update stays in
      its bucket, or nothing is added at all. */
  lemma PdpAddExactly(d: Dev, hs: Hashes, p: Pdp, excl: bool, replace: bool, mem: Option<nat>)
    requires Indexed(d, hs) && (mem.Some? ==> mem.value !in d.store)
    ensures Shape(d)
    ensures var r := PdpAdd(d, hs, p, excl, replace, mem);
            Shape(r.0) && (Indexed(r.0, hs) <==> r.1 != 0 || (Unshared(d, p) && StaysInBucket(d, hs, p)))
  {
    IndexedShape(d, hs);
    FindsMobile(d, hs, p.ms);
    var found := Find(d, hs, Mobile(p.ms));
    hide Find, IndexOk, TidPlace, MobilePlace, Unique, Shape, Inbound, Slot;
    if found.Some? {
      if !excl && !replace {
        RewrittenExactly(d, hs, found.value, p);
      }
    } else if mem.Some? {
      ThreadedShape(d, hs, mem.value, p);
      ThreadedChains(d, hs, mem.value, p);
      ThreadedUnique(d, hs, mem.value, p);
    }
  }

  /** A device with no contexts. */
  lemma NoContexts(role: Role, hs: Hashes, n: nat)
    requires n > 0
    ensures var d := Dev(role, map[], seq(n, _ => []), seq(n, _ => [])); Shape(d) && Indexed(d, hs)
  {
  }

  /** Nothing is decapsulated for anyone but the mobile whose context the packet's tunnel id selected,
      and what is delivered is the end of what arrived. */
  lemma DecapSound(d: Dev, hs: Hashes, v0: bool, pkt: Packet)
    requires Shape(d) && Receive(d, hs, v0, pkt).Decapsulated?
    ensures var r := Receive(d, hs, v0, pkt);
            && r.id in d.store && d.store[r.id].V0? == v0
            && |r.inner| >= IP_LEN && AddressAt(r.inner, if d.role == Sgsn then 16 else 12) == d.store[r.id].ms
            && |pkt| >= |r.inner| + UDP_LEN + GTP1_LEN && pkt[|pkt| - |r.inner|..] == r.inner
            && (if v0 then UnBe(pkt[20..28]) == d.store[r.id].tid else UnBe(pkt[12..16]) == d.store[r.id].inTei)
  {
    AddressesAt(Receive(d, hs, v0, pkt).inner);
    hide Scan, Chain, AddressAt, Source, Destination;
  }
}

/** The GTP device of kmod/gtp.c as it is: chains of contexts in two hash tables, and contexts whose
    counters change in place. */
module TunnelDevice {
  import opened Options
  import opened Bytes
  import opened Tunnel

  class GtpDevice {
    const role: Role
    const hashes: Hashes
    const tidHash: array<seq<nat>>
    const addrHash: array<seq<nat>>
    var store: map<nat, Pdp>

    ghost function View(): Dev
      reads this, tidHash, addrHash
    {
      Dev(role, store, tidHash[..], addrHash[..])
    }

    ghost predicate Valid()
      reads this, tidHash, addrHash
    {
      Shape(View())
    }

    constructor (role: Role, hashes: Hashes, size: nat)
      requires size > 0
      ensures Valid() && fresh(tidHash) && fresh(addrHash)
      ensures View() == Dev(role, map[], seq(size, _ => []), seq(size, _ => [])) && this.hashes == hashes
    {
      this.role, this.hashes, store := role, hashes, map[];
      tidHash := new seq<nat>[size](_ => []);
      addrHash := new seq<nat>[size](_ => []);
      new;
      assert tidHash[..] == seq(size, _ => []) && addrHash[..] == seq(size, _ => []);
    }

    method Search(chain: seq<nat>, w: Want) returns (pctx: Option<nat>)
      requires forall k | 0 <= k < |chain| :: chain[k] in store
      ensures pctx == Scan(store, chain, w)
    {
      var i := 0;
      while i < |chain|
        invariant i <= |chain|
        invariant Scan(store, chain, w) == Scan(store, chain[i..], w)
      {
        if Matches(store[chain[i]], w) {
          return Some(chain[i]);
        }
        i := i + 1;
      }
      pctx := None;
    }

    /** gtp0_pdp_find, gtp1_pdp_find and ipv4_pdp_find: pick the chain, then search it. */
    method PdpFind(w: Want) returns (pctx: Option<nat>)
      requires Valid()
      ensures pctx == Find(View(), hashes, w)
    {
      var chain: seq<nat>;
      match w {
        case Tid0(tid) => chain := tidHash[hashes.tid0(tid) % tidHash.Length];
        case Tei1(tei) => chain := tidHash[hashes.tei1(tei) % tidHash.Length];
        case Mobile(addr) => chain := addrHash[hashes.addr(addr) % addrHash.Length];
      }
      pctx := Search(chain, w);
    }

    /** ipv4_pdp_add with the flags of the request; `mem` is what kmalloc returns. */
    method AddPdp(p: Pdp, excl: bool, replace: bool, mem: Option<nat>) returns (ret: int)
      requires Valid() && tidHash != addrHash && (mem.Some? ==> mem.value !in store)
      modifies this, tidHash, addrHash
      ensures Valid() && (View(), ret) == PdpAdd(old(View()), hashes, p, excl, replace, mem)
    {
      var found := PdpFind(Mobile(p.ms));
      hide Find, Scan;
      if found.Some? {
        if excl {
          return EEXIST;
        }
        if replace {
          return EOPNOTSUPP;
        }
        store := store[found.value := WithSeq(p, store[found.value].txSeq)];
        return 0;
      }
      if mem.None? {
        return ENOMEM;
      }
      ThreadPdp(mem.value, p);
      ret := 0;
    }

    /** The tail of ipv4_pdp_add: a new context at the head of both chains. */
    method ThreadPdp(id: nat, p: Pdp)
      requires Valid() && tidHash != addrHash && id !in store
      modifies this, tidHash, addrHash
      ensures Valid() && View() == Threaded(old(View()), hashes, id, p)
    {
      var hashMs := Slot(hashes, Mobile(p.ms), addrHash.Length);
      var hashTid := Slot(hashes, Inbound(p), tidHash.Length);
      store := store[id := WithSeq(p, 0)];
      addrHash[hashMs] := [id] + addrHash[hashMs];
      tidHash[hashTid] := [id] + tidHash[hashTid];
      assert addrHash[..] == old(addrHash[..])[hashMs := [id] + old(addrHash[hashMs])];
      assert tidHash[..] == old(tidHash[..])[hashTid := [id] + old(tidHash[hashTid])];
    }

    /** gtp_push_header: the header in front, and a GTPv0 sequence number used up. */
    method PushHeader(id: nat, skb: Packet) returns (pushed: Packet)
      requires Valid() && id in store
      modifies this
      ensures pushed == Header(old(store[id]), |skb|) + skb
      ensures store == old(store)[id := Counted(old(store[id]))]
      ensures Valid()
    {
      match store[id] {
        case V0(tid, flow, ms, txSeq) =>
          store := store[id := V0(tid, flow, ms, Inc(txSeq))];
          var gtp0 := [0x1e, GTP_TPDU] + Be(2, |skb|) + Be(2, SeqNo(txSeq)) + Be(2, flow)
                      + [0xff, 0xff, 0xff, 0xff] + Be(8, tid);
          pushed := gtp0 + skb;
        case V1(_, outTei, _, _) =>
          var gtp1 := [0x30, GTP_TPDU] + Be(2, |skb|) + Be(4, outTei);
          pushed := gtp1 + skb;
      }
    }

    /** gtp_build_skb_ip4, the routing aside. */
    method BuildSkb(skb: Packet) returns (sent: Option<Packet>)
      requires Valid() && |skb| >= IP_LEN
      modifies this
      ensures Valid()
      ensures (sent, View()) == Send(old(View()), hashes, skb)
      ensures sent.Some? ==> exists id | id in old(store) ::
                && old(store[id]).ms == AddressAt(skb, if role == Sgsn then 12 else 16)
                && sent.value == Header(old(store[id]), |skb|) + skb
    {
      AddressesAt(skb);
      var pctx;
      if role == Sgsn {
        pctx := PdpFind(Mobile(Source(skb)));
      } else {
        pctx := PdpFind(Mobile(Destination(skb)));
      }
      if pctx.None? {
        return None;
      }
      hide Header, Find, Source, Destination, AddressAt;
      var pushed := PushHeader(pctx.value, skb);
      sent := Some(pushed);
    }

    method CheckMs(skb: Packet, id: nat, hdrlen: nat) returns (ok: bool)
      requires Valid() && id in store && hdrlen <= |skb|
      ensures ok <==> |skb| >= hdrlen + IP_LEN && AddressAt(skb, hdrlen + if role == Sgsn then 16 else 12) == store[id].ms
    {
      if |skb| < hdrlen + IP_LEN {
        return false;
      }
      var iph := skb[hdrlen..];
      AddressesAt(iph);
      hide Source, Destination;
      if role == Sgsn {
        ok := Destination(iph) == store[id].ms;
      } else {
        ok := Source(iph) == store[id].ms;
      }
    }

    method GtpRx(id: nat, skb: Packet, hdrlen: nat) returns (r: Outcome)
      requires Valid() && id in store && hdrlen <= |skb|
      ensures r == Rx(View(), id, skb, hdrlen)
    {
      var ok := CheckMs(skb, id, hdrlen);
      if |skb| >= hdrlen + IP_LEN {
        AddressesAt(skb[hdrlen..]);
      }
      hide Source, Destination;
      r := if ok then Decapsulated(id, skb[hdrlen..]) else PassUp;
    }

    method EncapRecv0(skb: Packet) returns (r: Outcome)
      requires Valid()
      ensures r == Recv0(View(), hashes, skb)
    {
      var hdrlen := UDP_LEN + GTP0_LEN;
      if |skb| < hdrlen {
        return Drop;
      }
      if skb[8] / 32 != 0 {
        return PassUp;
      }
      if skb[9] != GTP_TPDU {
        return PassUp;
      }
      var pctx := PdpFind(Tid0(UnBe(skb[20..28])));
      if pctx.None? {
        return PassUp;
      }
      r := GtpRx(pctx.value, skb, hdrlen);
    }

    method EncapRecv1u(skb: Packet) returns (r: Outcome)
      requires Valid()
      ensures r == Recv1(View(), hashes, skb)
    {
      var hdrlen := UDP_LEN + GTP1_LEN;
      if |skb| < hdrlen {
        return Drop;
      }
      if skb[8] / 32 != 1 {
        return PassUp;
      }
      if skb[9] != GTP_TPDU {
        return PassUp;
      }
      if skb[8] % 8 != 0 {
        hdrlen := hdrlen + 4;
      }
      if |skb| < hdrlen {
        return Drop;
      }
      var pctx := PdpFind(Tei1(UnBe(skb[12..16])));
      if pctx.None? {
        return PassUp;
      }
      r := GtpRx(pctx.value, skb, hdrlen);
    }
  }
}

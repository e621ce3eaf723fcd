/** Bit rates in NAS information elements (lib/nas/nas_types.c), sections 9.9.4.2 and 9.9.4.3 of
    3GPP TS 24.301.  Rates are in kbps; an Mbps is 1024 kbps, as in the program. */
module BitRate {

  const STEP: nat := 256 * 1024            // unit of the second extension octet
  const LIMIT: nat := 65280 * 1024         // first rate that the octets cannot follow

  /** The octet of a rate, its extension, and its second extension. */
  datatype Octets = Octets(br: nat, extended: nat, extended2: nat)

  /** Octet values a sender may produce or a receiver may meet. */
  predicate Legal(o: Octets) {
    o.br <= 255 && o.extended <= 255 && o.extended2 <= 255
  }

  /** What the first two octets indicate to a receiver. */
  function DecodeLow(br: nat, extended: nat): nat {
    if extended > 0 then
      if extended <= 0x4a then 8600 + extended * 100
      else if extended <= 0xba then (16 + (extended - 0x4a)) * 1024
      else if extended <= 0xfa then (128 + 2 * (extended - 0xba)) * 1024
      else STEP
    else if br <= 63 then br
    else if br <= 127 then 64 + (br - 64) * 8
    else if br <= 254 then 576 + (br - 128) * 64
    else 0
  }

  function Decode(o: Octets): nat {
    (if o.extended2 <= 254 then o.extended2 else 254) * STEP + DecodeLow(o.br, o.extended)
  }

  function EncodeLow(r: nat): Octets {
    if r <= 63 then Octets(r, 0, 0)
    else if r < 576 then Octets(64 + (if r <= 568 then (r - 64) / 8 else 63), 0, 0)
    else if r < 8700 then Octets(128 + (if r <= 8640 then (r - 576) / 64 else 126), 0, 0)
    else if r < 17 * 1024 then Octets(254, if r <= 16000 then (r - 8600) / 100 else 0x4a, 0)
    else if r < 130 * 1024 then Octets(254, if r <= 128 * 1024 then (r - 16 * 1024) / 1024 + 0x4a else 0xba, 0)
    else Octets(254, (r - 128 * 1024) / 2048 + 0xba, 0)
  }

  /** The octets br_calculate produces. */
  function Encode(x: nat): Octets {
    if x == 0 then Octets(255, 0, 0)
    else EncodeLow(x % STEP).(extended2 := if x < LIMIT then x / STEP else 254)
  }

  /** How many octet groups a rate needs. */
  function Groups(o: Octets): nat {
    if o.extended2 > 0 then 3 else if o.extended > 0 then 2 else 1
  }

  method Max(a: nat, b: nat) returns (c: nat)
    ensures c == if a < b then b else a
  {
    c := if a > b then a else b;
  }

  /** The rate in units of 256 Mbps. */
  lemma Split(x: nat)
    ensures x < STEP ==> x / STEP == 0 && x % STEP == x
    ensures STEP <= x < LIMIT ==> 1 <= x / STEP <= 254
    ensures 65200 * 1024 < x < LIMIT ==> x / STEP == 254
    ensures x >= LIMIT ==> x > 65200 * 1024
    ensures x % STEP < STEP && x == x / STEP * STEP + x % STEP
  {
  }

  lemma EncodeParts(x: nat)
    ensures x == 0 ==> Encode(x) == Octets(255, 0, 0)
    ensures x > 0 ==> Encode(x).extended2 == (if x < LIMIT then x / STEP else 254)
                      && Encode(x).br == EncodeLow(x % STEP).br && Encode(x).extended == EncodeLow(x % STEP).extended
  {
  }

  lemma LowOctets(r: nat)
    requires r < STEP
    ensures EncodeLow(r).extended > 0 <==> r >= 8700
    ensures EncodeLow(r).extended2 == 0
  {
  }

  /** br_calculate; the octets are zero on entry. */
  method BrCalculate(rate: nat) returns (br: nat, extended: nat, extended2: nat, length: nat)
    ensures Octets(br, extended, extended2) == Encode(rate)
    ensures length == Groups(Encode(rate))
  {
    hide Encode, Legal;
    EncodeParts(rate);
    br, extended, extended2, length := 0, 0, 0, 0;
    var input := rate;
    if input < 1 {
      br := 0xff;
      length := Max(length, 1);
      return;
    }
    if input > 65200 * 1024 {
      extended2 := 0xfe;
      length := Max(length, 3);
      input := input % (256 * 1024);
    } else if input >= 256 * 1024 && input <= 65200 * 1024 {
      extended2 := input / (256 * 1024);
      length := Max(length, 3);
      input := input % (256 * 1024);
    }
    Split(rate);
    assert input == rate % STEP && extended2 == Encode(rate).extended2 && length == if extended2 > 0 then 3 else 0;
    LowOctets(input);
    if input >= 1 && input <= 63 {
      br := input;
      length := Max(length, 1);
    } else if input >= 64 && input <= 568 {
      br := (input - 64) / 8 + 0x40;
      length := Max(length, 1);
    } else if input > 568 && input < 576 {
      br := 0x7f;
      length := Max(length, 1);
    } else if input >= 576 && input <= 8640 {
      br := (input - 576) / 64 + 0x80;
      length := Max(length, 1);
    } else if input > 8640 && input < 8700 {
      br := 0xfe;
      length := Max(length, 1);
    } else if input >= 8700 && input <= 16000 {
      br := 0xfe;
      extended := (input - 8600) / 100;
      length := Max(length, 2);
    } else if input > 16000 && input < 17 * 1024 {
      br := 0xfe;
      extended := 0x4a;
      length := Max(length, 2);
    } else if input >= 17 * 1024 && input <= 128 * 1024 {
      br := 0xfe;
      extended := (input - 16 * 1024) / 1024 + 0x4a;
      length := Max(length, 2);
    } else if input > 128 * 1024 && input < 130 * 1024 {
      br := 0xfe;
      extended := 0xba;
      length := Max(length, 2);
    } else if input >= 130 * 1024 && input <= 256 * 1024 {
      br := 0xfe;
      extended := (input - 128 * 1024) / (2 * 1024) + 0xba;
      length := Max(length, 2);
    }
  }

  // ---------------------------------------------------------------- the value that is signalled

  lemma EncodeLegal(x: nat)
    ensures Legal(Encode(x)) && Encode(x).extended2 <= 254
    ensures Encode(x).extended > 0 ==> Encode(x).br == 254
  {
  }

  lemma LowFloor(r: nat, br: nat, extended: nat)
    requires r < STEP && br <= 255 && extended <= 255
    ensures DecodeLow(EncodeLow(r).br, EncodeLow(r).extended) <= r
    ensures DecodeLow(br, extended) <= r ==> DecodeLow(br, extended) <= DecodeLow(EncodeLow(r).br, EncodeLow(r).extended)
  {
  }

  lemma LowError(r: nat)
    requires 1 <= r < STEP
    ensures 8 * (r - DecodeLow(EncodeLow(r).br, EncodeLow(r).extended)) < r
  {
  }

  /** No legal octets signal a rate that is closer to x from below. */
  ghost predicate BestFloor(x: nat) {
    && Decode(Encode(x)) <= x
    && forall o | Legal(o) && Decode(o) <= x :: Decode(o) <= Decode(Encode(x))
  }

  lemma FloorStep(x: nat, o: Octets)
    requires x < LIMIT && Legal(o)
    ensures Decode(Encode(x)) <= x
    ensures Decode(o) <= x ==> Decode(o) <= Decode(Encode(x))
  {
    hide EncodeLow, DecodeLow, Encode;
    Split(x);
    EncodeParts(x);
    var q, r := x / STEP, x % STEP;
    LowFloor(r, o.br, o.extended);
    LowMax(o.br, o.extended);
    ZeroRate();
    var p := if o.extended2 <= 254 then o.extended2 else 254;
    LowFloor(r, 0, 0);
    if p > q {
      assert p * STEP >= (q + 1) * STEP;
    }
    if p < q {
      assert p * STEP + STEP <= q * STEP;
    }
  }

  lemma LowMax(br: nat, extended: nat)
    requires br <= 255
    ensures DecodeLow(br, extended) <= STEP
  {
  }

  lemma ZeroRate()
    ensures Encode(0) == Octets(255, 0, 0) && DecodeLow(255, 0) == 0
  {
  }

  /** br_calculate picks the greatest rate the octets can express that is not above the requested one,
      exactly for requests below 65280 Mbps; above, it keeps the remainder and falls short. */
  lemma GreatestRate(x: nat)
    ensures BestFloor(x) <==> x < LIMIT
  {
    hide Decode, Encode;
    if x < LIMIT {
      FloorStep(x, Octets(0, 0, 0));
      forall o | Legal(o) && Decode(o) <= x
        ensures Decode(o) <= Decode(Encode(x))
      {
        FloorStep(x, o);
      }
    } else {
      Saturated(x);
    }
  }

  lemma Saturated(x: nat)
    requires x >= LIMIT
    ensures var top := Octets(254, 250, 254); Legal(top) && Decode(Encode(x)) < Decode(top) == LIMIT
  {
    hide EncodeLow;
    EncodeParts(x);
    Split(x);
    LowFloor(x % STEP, 0, 0);
  }

  /** The signalled rate misses less than an eighth of the requested one. */
  lemma SmallError(x: nat)
    requires 1 <= x < LIMIT
    ensures 8 * (x - Decode(Encode(x))) < x
  {
    hide EncodeLow, DecodeLow, Encode;
    Split(x);
    EncodeParts(x);
    var q, r := x / STEP, x % STEP;
    FloorStep(x, Octets(0, 0, 0));
    if r == 0 {
      FloorStep(x, Octets(0, 0, q));
      ZeroLow();
    } else {
      LowError(r);
    }
  }

  lemma ZeroLow()
    ensures DecodeLow(0, 0) == 0 && EncodeLow(0) == Octets(0, 0, 0)
  {
  }

  /** Signalled rates grow with the requested ones on [0, n) exactly while n does not exceed the limit. */
  lemma MonotoneExactly(n: nat)
    ensures (forall x: nat, y: nat | x <= y < n :: Decode(Encode(x)) <= Decode(Encode(y))) <==> n <= LIMIT
  {
    hide Decode, Encode;
    if n <= LIMIT {
      forall x: nat, y: nat | x <= y < n
        ensures Decode(Encode(x)) <= Decode(Encode(y))
      {
        EncodeLegal(x);
        FloorStep(x, Octets(0, 0, 0));
        FloorStep(y, Encode(x));
      }
    } else {
      AtTheLimit();
      var x: nat, y: nat := LIMIT - 1, LIMIT;
      assert x <= y < n;
    }
  }

  lemma AtTheLimit()
    ensures Decode(Encode(LIMIT)) < Decode(Encode(LIMIT - 1))
  {
    Split(LIMIT - 1);
    assert (LIMIT - 1) / STEP == 254 && (LIMIT - 1) % STEP == STEP - 1 && LIMIT % STEP == 0;
  }

  /** Signalling the signalled rate again gives the same octets. */
  lemma Stable(x: nat)
    requires x < LIMIT
    ensures Encode(Decode(Encode(x))) == Encode(x)
  {
    hide EncodeLow, DecodeLow, Encode;
    Split(x);
    EncodeParts(x);
    ZeroRate();
    var q, r := x / STEP, x % STEP;
    LowStable(r);
    LowFloor(r, 0, 0);
    var low := DecodeLow(EncodeLow(r).br, EncodeLow(r).extended);
    var v := q * STEP + low;
    assert v / STEP == q && v % STEP == low;
    EncodeParts(v);
  }

  lemma LowStable(r: nat)
    requires r < STEP
    ensures EncodeLow(DecodeLow(EncodeLow(r).br, EncodeLow(r).extended)) == EncodeLow(r)
    ensures r > 0 ==> DecodeLow(EncodeLow(r).br, EncodeLow(r).extended) > 0
  {
  }

  // ---------------------------------------------------------------- information elements

  /** The octets stand for the greatest expressible rate not above x; beyond the limit, for 254 steps and
      the greatest expressible rate not above the remainder. */
  ghost predicate Signals(x: nat, o: Octets) {
    && Legal(o)
    && if x < LIMIT then GreatestUpTo(x, Decode(o), 255) else
         o.extended2 == 254 && Decode(o) >= 254 * 256 * 1024 && GreatestUpTo(x % (256 * 1024), Decode(o) - 254 * 256 * 1024, 0)
  }

  /** Among octets whose second extension is at most `top`. */
  ghost predicate GreatestUpTo(x: nat, rate: nat, top: nat) {
    rate <= x && forall o | Legal(o) && o.extended2 <= top && Decode(o) <= x :: Decode(o) <= rate
  }

  lemma EncodeSignals(x: nat)
    ensures Signals(x, Encode(x))
  {
    hide Decode, Encode, EncodeLow, DecodeLow;
    EncodeLegal(x);
    if x < LIMIT {
      GreatestRate(x);
    } else {
      EncodeParts(x);
      var r := x % STEP;
      var low := DecodeLow(EncodeLow(r).br, EncodeLow(r).extended);
      DecodeIs(Encode(x));
      LowFloor(r, 0, 0);
      forall o | Legal(o) && o.extended2 <= 0 && Decode(o) <= r
        ensures Decode(o) <= low
      {
        DecodeIs(o);
        LowFloor(r, o.br, o.extended);
      }
    }
  }

  lemma DecodeIs(o: Octets)
    requires Legal(o)
    ensures Decode(o) == (if o.extended2 <= 254 then o.extended2 else 254) * STEP + DecodeLow(o.br, o.extended)
  {
  }

  /** Octets that were not sent count as zero. */
  function OctetAt(wire: seq<nat>, i: nat): nat {
    if i < |wire| then wire[i] else 0
  }

  /** APN aggregate maximum bit rate: the value part, `length` octets of the six. */
  function AmbrWire(dl: Octets, ul: Octets): seq<nat> {
    [dl.br, ul.br, dl.extended, ul.extended, dl.extended2, ul.extended2]
  }

  /** apn_ambr_build; rates in bits per second, as 32-bit numbers. */
  method ApnAmbrBuild(dlRate: nat, ulRate: nat) returns (dl: Octets, ul: Octets, length: nat)
    requires dlRate < 0x1_0000_0000 && ulRate < 0x1_0000_0000
    ensures dl == Encode(dlRate / 1024) && ul == Encode(ulRate / 1024)
    ensures length <= 6
    ensures forall i | 0 <= i < 6 :: OctetAt(AmbrWire(dl, ul)[..length], i) == AmbrWire(dl, ul)[i]
    ensures Signals(dlRate / 1024, dl) && Signals(ulRate / 1024, ul)
    ensures BestFloor(dlRate / 1024) && BestFloor(ulRate / 1024)
  {
    hide Encode, BestFloor, Decode, Signals;
    var groups := 0;
    var a, b, c, n := BrCalculate(dlRate / 1024);
    dl := Octets(a, b, c);
    groups := Max(groups, n);
    a, b, c, n := BrCalculate(ulRate / 1024);
    ul := Octets(a, b, c);
    groups := Max(groups, n);
    length := groups * 2;
    EncodeSignals(dlRate / 1024);
    EncodeSignals(ulRate / 1024);
    GreatestRate(dlRate / 1024);
    GreatestRate(ulRate / 1024);
  }

  function QosWire(qci: nat, dlMbr: Octets, ulMbr: Octets, dlGbr: Octets, ulGbr: Octets): seq<nat> {
    [qci, dlMbr.br, ulMbr.br, dlGbr.br, ulGbr.br,
     dlMbr.extended, ulMbr.extended, dlGbr.extended, ulGbr.extended,
     dlMbr.extended2, ulMbr.extended2, dlGbr.extended2, ulGbr.extended2]
  }

  /** A rate below one kbps is left out: its octets stay zero. */
  function EncodeSome(x: nat): Octets {
    if x == 0 then Octets(0, 0, 0) else Encode(x)
  }

  lemma SomeSignals(rate: nat)
    ensures if rate < 1024 then EncodeSome(rate / 1024) == Octets(0, 0, 0) else Signals(rate / 1024, EncodeSome(rate / 1024))
  {
    hide Encode, Signals;
    EncodeSignals(rate / 1024);
  }

  method BrSome(rate: nat, groups: nat) returns (o: Octets, more: nat)
    requires groups <= 3
    ensures o == EncodeSome(rate)
    ensures groups <= more <= 3 && more >= (if rate == 0 then 0 else Groups(o)) && (more == groups || (rate > 0 && more == Groups(o)))
  {
    o, more := Octets(0, 0, 0), groups;
    if rate > 0 {
      var a, b, c, n := BrCalculate(rate);
      o := Octets(a, b, c);
      more := Max(groups, n);
    }
  }

  /** eps_qos_build; rates in bits per second, as 64-bit numbers. */
  method EpsQosBuild(qci: nat, dlMbr: nat, ulMbr: nat, dlGbr: nat, ulGbr: nat)
    returns (a: Octets, b: Octets, c: Octets, d: Octets, length: nat)
    ensures a == EncodeSome(dlMbr / 1024) && b == EncodeSome(ulMbr / 1024)
    ensures c == EncodeSome(dlGbr / 1024) && d == EncodeSome(ulGbr / 1024)
    ensures forall p | p in [(dlMbr, a), (ulMbr, b), (dlGbr, c), (ulGbr, d)] ::
              if p.0 < 1024 then p.1 == Octets(0, 0, 0) else Signals(p.0 / 1024, p.1)
    ensures length <= 13
    ensures forall i | 0 <= i < 13 :: OctetAt(QosWire(qci, a, b, c, d)[..length], i) == QosWire(qci, a, b, c, d)[i]
  {
    hide Encode, DecodeLow, Decode, Signals, Legal;
    var groups := 0;
    a, groups := BrSome(dlMbr / 1024, groups);
    b, groups := BrSome(ulMbr / 1024, groups);
    c, groups := BrSome(dlGbr / 1024, groups);
    d, groups := BrSome(ulGbr / 1024, groups);
    length := groups * 4 + 1;
    SomeSignals(dlMbr);
    SomeSignals(ulMbr);
    SomeSignals(dlGbr);
    SomeSignals(ulGbr);
  }
}

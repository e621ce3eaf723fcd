/** Address sets of ipfw rules (lib/ipfw/ipfw2.c): print_ip writes the bitmap as a list of numbers and
    ranges, fill_ip reads such a list back. */
module AddressSet {

  // ---------------------------------------------------------------- bitmaps

  /** `1 << (i & 31)` in word i/32 is bit i%8 of octet i/8 on a little-endian host. */
  function BitValue(k: nat): bv8
    requires k < 8
  {
    match k
    case 0 => 0x01
    case 1 => 0x02
    case 2 => 0x04
    case 3 => 0x08
    case 4 => 0x10
    case 5 => 0x20
    case 6 => 0x40
    case 7 => 0x80
  }

  function BitAt(bm: seq<bv8>, i: nat): bool
    requires i < 8 * |bm|
  {
    bm[i / 8] & BitValue(i % 8) != 0
  }

  /** Octet j holds bits 8j to 8j+7, the least significant one first. */
  lemma OctetIs(bm: seq<bv8>, j: nat)
    requires j < |bm|
    ensures bm[j] ==
              (if BitAt(bm, 8 * j) then 0x01 else 0) + (if BitAt(bm, 8 * j + 1) then 0x02 else 0)
              + (if BitAt(bm, 8 * j + 2) then 0x04 else 0) + (if BitAt(bm, 8 * j + 3) then 0x08 else 0)
              + (if BitAt(bm, 8 * j + 4) then 0x10 else 0) + (if BitAt(bm, 8 * j + 5) then 0x20 else 0)
              + (if BitAt(bm, 8 * j + 6) then 0x40 else 0) + (if BitAt(bm, 8 * j + 7) then 0x80 else 0)
  {
    hide BitAt, BitValue;
    BitIs(bm, j, 0);
    BitIs(bm, j, 1);
    BitIs(bm, j, 2);
    BitIs(bm, j, 3);
    BitIs(bm, j, 4);
    BitIs(bm, j, 5);
    BitIs(bm, j, 6);
    BitIs(bm, j, 7);
    Octet(bm[j]);
  }

  lemma Octet(b: bv8)
    ensures b ==
              (if b & 0x01 != 0 then 0x01 else 0) + (if b & 0x02 != 0 then 0x02 else 0)
              + (if b & 0x04 != 0 then 0x04 else 0) + (if b & 0x08 != 0 then 0x08 else 0)
              + (if b & 0x10 != 0 then 0x10 else 0) + (if b & 0x20 != 0 then 0x20 else 0)
              + (if b & 0x40 != 0 then 0x40 else 0) + (if b & 0x80 != 0 then 0x80 else 0)
  {
  }

  lemma BitIs(bm: seq<bv8>, j: nat, k: nat)
    requires j < |bm| && k < 8
    ensures BitAt(bm, 8 * j + k) <==> bm[j] & [0x01 as bv8, 0x02, 0x04, 0x08, 0x10, 0x20, 0x40, 0x80][k] != 0
  {
    assert (8 * j + k) / 8 == j && (8 * j + k) % 8 == k;
  }

  function Bits(bm: seq<bv8>, size: nat): (bits: seq<bool>)
    requires size <= 8 * |bm|
    ensures |bits| == size
  {
    seq(size, i requires 0 <= i < size => BitAt(bm, i))
  }

  function SetRange(bits: seq<bool>, from: int, to: int): (r: seq<bool>)
    ensures |r| == |bits|
  {
    seq(|bits|, k requires 0 <= k < |bits| => bits[k] || from <= k <= to)
  }

  // ---------------------------------------------------------------- numbers as text

  predicate IsDigit(c: char) {
    '0' <= c <= '9'
  }

  function DigitChar(d: nat): char
    requires d < 10
  {
    '0' + d as char
  }

  /** `%d` of a number that is not negative. */
  function Decimal(n: nat): string {
    if n < 10 then [DigitChar(n)] else Decimal(n / 10) + [DigitChar(n % 10)]
  }

  function DigitValue(c: char): nat {
    if IsDigit(c) then (c - '0') as nat
    else if 'a' <= c <= 'f' then (c - 'a') as nat + 10
    else if 'A' <= c <= 'F' then (c - 'A') as nat + 10
    else 16
  }

  /** Digits of the given base, and what follows them. */
  function Number(t: string, base: nat, acc: nat): (r: (nat, string))
    ensures |r.1| <= |t|
  {
    if t != [] && DigitValue(t[0]) < base then Number(t[1..], base, acc * base + DigitValue(t[0])) else (acc, t)
  }

  /** strtol with base 0 on text that starts with a digit, stored in an int. */
  function StrToL(t: string): (r: (int, string))
    requires t != [] && IsDigit(t[0])
    ensures |r.1| < |t|
  {
    if t[0] == '0' then
      if |t| > 2 && (t[1] == 'x' || t[1] == 'X') && DigitValue(t[2]) < 16 then
        var n := Number(t[3..], 16, DigitValue(t[2])); (ToInt(n.0), n.1)
      else
        var n := Number(t[1..], 8, 0); (ToInt(n.0), n.1)
    else
      var n := Number(t[1..], 10, DigitValue(t[0])); (ToInt(n.0), n.1)
  }

  /** A long is clamped at its maximum; the int keeps the low 32 bits. */
  function ToInt(n: nat): int {
    var long := if n < 0x7fff_ffff_ffff_ffff then n else 0x7fff_ffff_ffff_ffff;
    var low := long % 0x1_0000_0000;
    if low < 0x8000_0000 then low else low - 0x1_0000_0000
  }

  // ---------------------------------------------------------------- printing

  datatype Item = Single(a: nat) | Range(a: nat, b: nat)

  /** First position from i on whose bit is clear, or the size. */
  function RunEnd(bits: seq<bool>, i: nat): (j: nat)
    requires i <= |bits|
    ensures i <= j <= |bits| && (forall k | i <= k < j :: bits[k]) && (j < |bits| ==> !bits[j])
    decreases |bits| - i
  {
    if i < |bits| && bits[i] then RunEnd(bits, i + 1) else i
  }

  /** Single numbers, and ranges for runs of three or more, from position i on. */
  function ItemsFrom(bits: seq<bool>, i: nat): seq<Item>
    requires i <= |bits|
    decreases |bits| - i
  {
    if i == |bits| then []
    else if !bits[i] then ItemsFrom(bits, i + 1)
    else
      var j := RunEnd(bits, i + 1);
      if j > i + 2 then [Range(i, j - 1)] + ItemsFrom(bits, j) else [Single(i)] + ItemsFrom(bits, i + 1)
  }

  function ItemText(item: Item, base: nat): string {
    match item
    case Single(a) => Decimal(a + base)
    case Range(a, b) => Decimal(a + base) + "-" + Decimal(b + base)
  }

  /** The rest of the list, each item after its separator, then the closing brace. */
  function ListText(items: seq<Item>, base: nat, comma: char): string {
    if items == [] then "}" else [comma] + ItemText(items[0], base) + ListText(items[1..], base, ',')
  }

  /** One round of the printing loop. */
  lemma ListStep(bits: seq<bool>, i: nat, base: nat, comma: char)
    requires i < |bits|
    ensures var text := ListText(ItemsFrom(bits, i), base, comma);
            var j := RunEnd(bits, i + 1);
            if !bits[i] then text == ListText(ItemsFrom(bits, i + 1), base, comma)
            else if j > i + 2 then
              text == [comma] + Decimal(i + base) + "-" + Decimal(j - 1 + base) + ListText(ItemsFrom(bits, j), base, ',')
            else text == [comma] + Decimal(i + base) + ListText(ItemsFrom(bits, i + 1), base, ',')
  {
    hide Decimal, RunEnd, ListText, ItemsFrom;
    ItemsStep(bits, i);
    var j := RunEnd(bits, i + 1);
    if bits[i] && j > i + 2 {
      ListHead(Range(i, j - 1), ItemsFrom(bits, j), base, comma);
    } else if bits[i] {
      ListHead(Single(i), ItemsFrom(bits, i + 1), base, comma);
    }
  }

  lemma ItemsStep(bits: seq<bool>, i: nat)
    requires i < |bits|
    ensures var j := RunEnd(bits, i + 1);
            ItemsFrom(bits, i) ==
              if !bits[i] then ItemsFrom(bits, i + 1)
              else if j > i + 2 then [Range(i, j - 1)] + ItemsFrom(bits, j) else [Single(i)] + ItemsFrom(bits, i + 1)
  {
  }

  lemma ListHead(item: Item, rest: seq<Item>, base: nat, comma: char)
    ensures ListText([item] + rest, base, comma) == [comma] + ItemText(item, base) + ListText(rest, base, ',')
  {
    assert ([item] + rest)[1..] == rest;
  }

  /** The set part of print_ip. */
  method PrintSet(bm: array<bv8>, size: nat, base: nat) returns (text: string)
    requires size <= 8 * bm.Length
    ensures text == ListText(ItemsFrom(Bits(bm[..], size), 0), base, '{')
  {
    hide BitAt, Decimal, ItemsFrom, ListText, RunEnd;
    ghost var bits := Bits(bm[..], size);
    ghost var whole := ListText(ItemsFrom(bits, 0), base, '{');
    text := "";
    var comma := '{';
    var i := 0;
    assert text + ListText(ItemsFrom(bits, i), base, comma) == whole;
    while i < size
      invariant 0 <= i <= size
      invariant text + ListText(ItemsFrom(bits, i), base, comma) == whole
    {
      ListStep(bits, i, base, comma);
      var on := TestBit(bm, i);
      if on {
        var j := ScanRun(bm, size, i + 1);
        text := text + [comma] + Decimal(i + base);
        if j > i + 2 {
          text := text + "-" + Decimal(j - 1 + base);
          i := j - 1;
        }
        comma := ',';
      }
      i := i + 1;
    }
    NoItems(bits, base, comma);
    text := text + "}";
  }

  lemma NoItems(bits: seq<bool>, base: nat, comma: char)
    ensures ListText(ItemsFrom(bits, |bits|), base, comma) == "}"
  {
  }

  /** The inner loop: the first clear bit from i on. */
  method ScanRun(bm: array<bv8>, size: nat, i: nat) returns (j: nat)
    requires i <= size <= 8 * bm.Length
    ensures j == RunEnd(Bits(bm[..], size), i)
  {
    hide BitAt;
    ghost var bits := Bits(bm[..], size);
    j := i;
    while j < size
      invariant i <= j <= size && RunEnd(bits, i) == RunEnd(bits, j)
    {
      var on := TestBit(bm, j);
      if !on {
        break;
      }
      j := j + 1;
    }
  }

  method TestBit(bm: array<bv8>, i: nat) returns (on: bool)
    requires i < 8 * bm.Length
    ensures on == BitAt(bm[..], i)
  {
    on := bm[i / 8] & BitValue(i % 8) != 0;
  }

  // ---------------------------------------------------------------- the items

  function First(item: Item): nat {
    item.a
  }

  function Last(item: Item): nat {
    if item.Single? then item.a else item.b
  }

  /** A range is three or more set bits up to the end of their run; a single does not begin three. */
  ghost predicate Canonical(bits: seq<bool>, item: Item) {
    && First(item) <= Last(item) < |bits| && (forall k | First(item) <= k <= Last(item) :: bits[k])
    && match item
       case Single(a) => !(a + 2 < |bits| && bits[a + 1] && bits[a + 2])
       case Range(a, b) => a + 2 <= b && (b + 1 == |bits| || !bits[b + 1])
  }

  ghost predicate Covered(items: seq<Item>, k: nat) {
    exists m | 0 <= m < |items| :: First(items[m]) <= k <= Last(items[m])
  }

  /** What is printed: canonical items, in increasing order, that cover every set bit. */
  lemma {:induction false} ItemsAre(bits: seq<bool>, i: nat)
    requires i <= |bits|
    ensures var items := ItemsFrom(bits, i);
            && (forall m | 0 <= m < |items| :: i <= First(items[m]) && Canonical(bits, items[m]))
            && (forall m, n | 0 <= m < n < |items| :: Last(items[m]) < First(items[n]))
            && (forall k | i <= k < |bits| && bits[k] :: Covered(items, k))
    decreases |bits| - i
  {
    hide RunEnd;
    if i < |bits| {
      ItemsStep(bits, i);
      hide ItemsFrom;
      if !bits[i] {
        ItemsAre(bits, i + 1);
      } else {
        var j := RunEnd(bits, i + 1);
        var head, next := if j > i + 2 then Range(i, j - 1) else Single(i), if j > i + 2 then j else i + 1;
        HeadCanonical(bits, i);
        ItemsAre(bits, next);
        CoveredBoth(bits, head, ItemsFrom(bits, next), i, next);
      }
    }
  }

  lemma HeadCanonical(bits: seq<bool>, i: nat)
    requires i < |bits| && bits[i]
    ensures var j := RunEnd(bits, i + 1);
            Canonical(bits, if j > i + 2 then Range(i, j - 1) else Single(i))
  {
    var j := RunEnd(bits, i + 1);
    hide RunEnd;
  }

  lemma CoveredBoth(bits: seq<bool>, head: Item, rest: seq<Item>, i: nat, next: nat)
    requires First(head) == i && Last(head) + 1 == next <= |bits|
    requires forall k | next <= k < |bits| && bits[k] :: Covered(rest, k)
    ensures forall k | i <= k < |bits| && bits[k] :: Covered([head] + rest, k)
  {
    var items := [head] + rest;
    forall k | i <= k < |bits| && bits[k]
      ensures Covered(items, k)
    {
      if k < next {
        assert items[0] == head;
      } else {
        var m :| 0 <= m < |rest| && First(rest[m]) <= k <= Last(rest[m]);
        assert items[m + 1] == rest[m];
      }
    }
  }

  /** The text of a list with one range and one single. */
  lemma PrintedExample()
    ensures ListText([Range(0, 2), Single(4)], 5, '{') == "{5-7,9}"
  {
    var items := [Range(0, 2), Single(4)];
    assert items[1..] == [Single(4)] && items[1..][1..] == [];
  }

  // ---------------------------------------------------------------- parsing

  datatype Outcome = Accepted | OutOfRange | InvalidRange | DoubleDash | Unterminated
  datatype Parsed = Parsed(outcome: Outcome, bits: seq<bool>)

  /** The loop of fill_ip on the text after the opening brace.  `prev` is the start of an open range, or
      -1; a text that ends without closing brace would be read beyond its end. */
  function ParseList(t: string, prev: int, bits: seq<bool>, low: nat): (r: Parsed)
    ensures |r.bits| == |bits|
    decreases |t|
  {
    if t == [] then Parsed(Unterminated, bits)
    else if !IsDigit(t[0]) then Parsed(Accepted, bits)
    else
      var (n, s) := StrToL(t);
      if n < low || n > low + |bits| - 1 then Parsed(OutOfRange, bits)
      else
        var a := n - low;
        if prev != -1 && prev > a then Parsed(InvalidRange, bits)
        else if prev != -1 && s != [] && s[0] == '-' then Parsed(DoubleDash, bits)
        else
          var marked := SetRange(bits, if prev == -1 then a else prev, a);
          if s == [] then Parsed(Unterminated, marked)
          else if s[0] == '}' then Parsed(Accepted, marked)
          else ParseList(s[1..], if s[0] == '-' then a else -1, marked, low)
  }

  function Clear(size: nat): seq<bool> {
    seq(size, _ => false)
  }

  /** No bit beyond the size is set. */
  ghost predicate PaddingClear(bm: seq<bv8>, size: nat) {
    forall k | size <= k < 8 * |bm| :: !BitAt(bm, k)
  }

  /** The set part of fill_ip. */
  method FillSet(t: string, low: nat, bm: array<bv8>, size: nat) returns (outcome: Outcome)
    requires size <= 8 * bm.Length
    modifies bm
    ensures Parsed(outcome, Bits(bm[..], size)) == ParseList(t, -1, Clear(size), low)
    ensures PaddingClear(bm[..], size)
  {
    hide BitAt, StrToL;
    ClearMap(bm, size);
    ghost var whole := ParseList(t, -1, Clear(size), low);
    var av, i := t, -1;
    while av != [] && IsDigit(av[0])
      invariant -1 <= i < size
      invariant PaddingClear(bm[..], size)
      invariant ParseList(av, i, Bits(bm[..], size), low) == whole
      decreases |av|
    {
      var (a, s) := StrToL(av);
      if a < low || a > low + size - 1 {
        return OutOfRange;
      }
      a := a - low;
      if i == -1 {
        i := a;
      } else {
        if i > a {
          return InvalidRange;
        }
        if s != [] && s[0] == '-' {
          return DoubleDash;
        }
      }
      SetBits(bm, size, i, a);
      if s == [] {
        return Unterminated;
      }
      i := -1;
      if s[0] == '-' {
        i := a;
      } else if s[0] == '}' {
        return Accepted;
      }
      av := s[1..];
    }
    return if av == [] then Unterminated else Accepted;
  }

  method ClearMap(bm: array<bv8>, size: nat)
    requires size <= 8 * bm.Length
    modifies bm
    ensures Bits(bm[..], size) == Clear(size) && PaddingClear(bm[..], size)
  {
    for j := 0 to bm.Length
      invariant forall i | 0 <= i < j :: bm[i] == 0
    {
      bm[j] := 0;
    }
    forall k: nat | k < 8 * bm.Length
      ensures !BitAt(bm[..], k)
    {
      assert bm[k / 8] == 0;
    }
  }

  lemma OneBit(b: bv8, j: nat, k: nat)
    requires j < 8 && k < 8
    ensures (b | BitValue(k)) & BitValue(j) != 0 <==> j == k || b & BitValue(j) != 0
  {
  }

  lemma SetBitAt(p: seq<bv8>, i: nat, k: nat)
    requires i < 8 * |p| && k < 8 * |p|
    ensures BitAt(p[i / 8 := p[i / 8] | BitValue(i % 8)], k) == (k == i || BitAt(p, k))
  {
    hide BitValue;
    var a, b, c, d := i / 8, i % 8, k / 8, k % 8;
    assert i == 8 * a + b && k == 8 * c + d;
    if a == c {
      OneBit(p[a], d, b);
    }
  }

  method SetBit(bm: array<bv8>, i: nat)
    requires i < 8 * bm.Length
    modifies bm
    ensures forall k: nat | k < 8 * bm.Length :: BitAt(bm[..], k) == (k == i || BitAt(old(bm[..]), k))
  {
    hide BitAt, BitValue;
    ghost var before := bm[..];
    bm[i / 8] := bm[i / 8] | BitValue(i % 8);
    assert bm[..] == before[i / 8 := before[i / 8] | BitValue(i % 8)];
    forall k: nat | k < 8 * bm.Length
      ensures BitAt(bm[..], k) == (k == i || BitAt(before, k))
    {
      SetBitAt(before, i, k);
    }
  }

  /** The innermost loop of fill_ip. */
  method SetBits(bm: array<bv8>, size: nat, from: nat, to: nat)
    requires to < size <= 8 * bm.Length && from <= to
    modifies bm
    ensures Bits(bm[..], size) == SetRange(old(Bits(bm[..], size)), from, to)
    ensures PaddingClear(old(bm[..]), size) ==> PaddingClear(bm[..], size)
  {
    hide BitAt;
    ghost var before := bm[..];
    var i := from;
    while i <= to
      invariant from <= i <= to + 1
      invariant forall k: nat | k < 8 * bm.Length :: BitAt(bm[..], k) == (from <= k < i || BitAt(before, k))
    {
      SetBit(bm, i);
      i := i + 1;
    }
  }

  // ---------------------------------------------------------------- reading back what was printed

  lemma {:induction false} DecimalHead(n: nat)
    ensures Decimal(n) != [] && IsDigit(Decimal(n)[0]) && (n > 0 ==> Decimal(n)[0] != '0')
  {
    if n >= 10 {
      DecimalHead(n / 10);
    }
  }

  /** The digits of n appended to the number acc. */
  function Shift(n: nat, acc: nat): nat {
    if n < 10 then acc * 10 + n else Shift(n / 10, acc) * 10 + n % 10
  }

  lemma {:induction false} ShiftZero(n: nat)
    ensures Shift(n, 0) == n
  {
    if n >= 10 {
      ShiftZero(n / 10);
    }
  }

  lemma {:induction false} NumberDecimal(n: nat, acc: nat, rest: string)
    ensures Number(Decimal(n) + rest, 10, acc) == Number(rest, 10, Shift(n, acc))
  {
    if n < 10 {
      assert ([DigitChar(n)] + rest)[1..] == rest;
    } else {
      var d := DigitChar(n % 10);
      assert Decimal(n) + rest == Decimal(n / 10) + ([d] + rest);
      NumberDecimal(n / 10, acc, [d] + rest);
      assert ([d] + rest)[1..] == rest;
    }
  }

  /** A separator of the list: not a digit of any base. */
  predicate Separates(t: string) {
    t != [] && (t[0] == ',' || t[0] == '-' || t[0] == '}')
  }

  /** strtol reads a printed number back, whatever it decides about the base. */
  lemma ReadBack(n: nat, rest: string)
    requires n < 0x8000_0000 && Separates(rest)
    ensures var t := Decimal(n) + rest;
            t != [] && IsDigit(t[0]) && StrToL(t) == (n, rest)
  {
    hide Number, Decimal, ToInt, StrToL;
    var t := Decimal(n) + rest;
    DecimalHead(n);
    ToIntSmall(n);
    NumberStops(rest, 8, 0);
    NumberStops(rest, 10, n);
    assert t[0] == Decimal(n)[0];
    if n == 0 {
      ZeroText(rest);
    } else {
      NumberDecimal(n, 0, rest);
      ShiftZero(n);
      DecimalBase(t);
    }
  }

  lemma NumberStops(rest: string, base: nat, acc: nat)
    requires Separates(rest) && base <= 16
    ensures Number(rest, base, acc) == (acc, rest)
  {
  }

  lemma ToIntSmall(n: nat)
    requires n < 0x8000_0000
    ensures ToInt(n) == n
  {
  }

  lemma ZeroText(rest: string)
    requires Separates(rest)
    ensures Decimal(0) == "0" && StrToL(Decimal(0) + rest) == (0, rest)
  {
    assert (Decimal(0) + rest)[1..] == rest;
    NumberStops(rest, 8, 0);
  }

  /** A first digit other than zero selects base ten. */
  lemma DecimalBase(t: string)
    requires t != [] && IsDigit(t[0]) && t[0] != '0'
    ensures StrToL(t) == (ToInt(Number(t, 10, 0).0), Number(t, 10, 0).1)
  {
    hide ToInt;
  }

  /** One number of the list, from the reader's side. */
  lemma ParseStep(a: nat, rest: string, prev: int, bits: seq<bool>, low: nat)
    requires a < |bits| && low + |bits| <= 0x8000_0000 && Separates(rest)
    requires prev == -1 || (0 <= prev <= a && rest[0] != '-')
    ensures var marked := SetRange(bits, if prev == -1 then a else prev, a);
            ParseList(Decimal(a + low) + rest, prev, bits, low) ==
              if rest[0] == '}' then Parsed(Accepted, marked)
              else ParseList(rest[1..], if rest[0] == '-' then a else -1, marked, low)
  {
    hide StrToL, Decimal;
    ReadBack(a + low, rest);
  }

  /** And one that is refused: outside the set, below the start of its range, or itself followed by a dash
      when it ends a range. */
  lemma ParseRefused(n: nat, rest: string, prev: int, bits: seq<bool>, low: nat)
    requires n < 0x8000_0000 && Separates(rest) && -1 <= prev
    ensures var r, inside := ParseList(Decimal(n) + rest, prev, bits, low), low <= n < low + |bits|;
            && (!inside ==> r == Parsed(OutOfRange, bits))
            && (inside && n - low < prev ==> r == Parsed(InvalidRange, bits))
            && (inside && 0 <= prev <= n - low && rest[0] == '-' ==> r == Parsed(DoubleDash, bits))
  {
    hide StrToL, Decimal;
    ReadBack(n, rest);
  }

  lemma ListSeparates(items: seq<Item>, base: nat)
    ensures Separates(ListText(items, base, ',')) && ListText(items, base, ',')[0] != '-'
    ensures items == [] <==> ListText(items, base, ',')[0] == '}'
  {
  }

  /** The bits of `bits` from position i on, added to those of `have`. */
  function Join(have: seq<bool>, bits: seq<bool>, i: nat): (r: seq<bool>)
    requires |have| == |bits|
    ensures |r| == |bits|
  {
    seq(|bits|, k requires 0 <= k < |bits| => have[k] || (k >= i && bits[k]))
  }

  lemma {:induction false} NoItemsNoBits(bits: seq<bool>, i: nat)
    requires i <= |bits|
    ensures ItemsFrom(bits, i) == [] <==> forall k | i <= k < |bits| :: !bits[k]
    decreases |bits| - i
  {
    hide RunEnd;
    if i < |bits| && !bits[i] {
      NoItemsNoBits(bits, i + 1);
    }
  }

  /** Reading the list printed from position i on adds exactly those bits. */
  lemma {:induction false} ReadList(bits: seq<bool>, i: nat, have: seq<bool>, low: nat, comma: char)
    requires i <= |bits| == |have| && low + |bits| <= 0x8000_0000 && ItemsFrom(bits, i) != []
    ensures ListText(ItemsFrom(bits, i), low, comma) != []
    ensures ParseList(ListText(ItemsFrom(bits, i), low, comma)[1..], -1, have, low) == Parsed(Accepted, Join(have, bits, i))
    decreases |bits| - i
  {
    hide ParseList, Decimal, ListText, RunEnd;
    assert i < |bits| by {
      NoItemsNoBits(bits, i);
    }
    ListStep(bits, i, low, comma);
    if !bits[i] {
      ItemsStep(bits, i);
      ReadList(bits, i + 1, have, low, comma);
      assert Join(have, bits, i + 1) == Join(have, bits, i);
    } else if RunEnd(bits, i + 1) > i + 2 {
      ReadRange(bits, i, have, low, comma);
    } else {
      ReadSingle(bits, i, have, low, comma);
    }
  }

  lemma {:induction false} ReadSingle(bits: seq<bool>, i: nat, have: seq<bool>, low: nat, comma: char)
    requires i < |bits| == |have| && low + |bits| <= 0x8000_0000 && bits[i] && RunEnd(bits, i + 1) <= i + 2
    ensures ListText(ItemsFrom(bits, i), low, comma) != []
    ensures ParseList(ListText(ItemsFrom(bits, i), low, comma)[1..], -1, have, low) == Parsed(Accepted, Join(have, bits, i))
    decreases |bits| - i, 0
  {
    hide ParseList, Decimal, ListText, ItemsFrom, RunEnd;
    ListStep(bits, i, low, comma);
    var rest := ListText(ItemsFrom(bits, i + 1), low, ',');
    assert ListText(ItemsFrom(bits, i), low, comma)[1..] == Decimal(i + low) + rest;
    ListSeparates(ItemsFrom(bits, i + 1), low);
    ParseStep(i, rest, -1, have, low);
    var marked := SetRange(have, i, i);
    NoItemsNoBits(bits, i + 1);
    if ItemsFrom(bits, i + 1) != [] {
      ReadList(bits, i + 1, marked, low, ',');
      assert Join(marked, bits, i + 1) == Join(have, bits, i);
    } else {
      assert marked == Join(have, bits, i);
    }
  }

  lemma {:induction false} ReadRange(bits: seq<bool>, i: nat, have: seq<bool>, low: nat, comma: char)
    requires i < |bits| == |have| && low + |bits| <= 0x8000_0000 && bits[i] && RunEnd(bits, i + 1) > i + 2
    ensures ListText(ItemsFrom(bits, i), low, comma) != []
    ensures ParseList(ListText(ItemsFrom(bits, i), low, comma)[1..], -1, have, low) == Parsed(Accepted, Join(have, bits, i))
    decreases |bits| - i, 0
  {
    hide ParseList, Decimal, ListText, ItemsFrom, RunEnd;
    ListStep(bits, i, low, comma);
    var j := RunEnd(bits, i + 1);
    var rest := ListText(ItemsFrom(bits, j), low, ',');
    var second := "-" + Decimal(j - 1 + low) + rest;
    assert ListText(ItemsFrom(bits, i), low, comma)[1..] == Decimal(i + low) + second;
    assert second[1..] == Decimal(j - 1 + low) + rest;
    ParseStep(i, second, -1, have, low);
    var one := SetRange(have, i, i);
    ListSeparates(ItemsFrom(bits, j), low);
    ParseStep(j - 1, rest, i, one, low);
    var marked := SetRange(one, i, j - 1);
    NoItemsNoBits(bits, j);
    if ItemsFrom(bits, j) != [] {
      ReadList(bits, j, marked, low, ',');
      assert Join(marked, bits, j) == Join(have, bits, i);
    } else {
      assert marked == Join(have, bits, i);
    }
  }

  /** Printing a set and parsing the text restores its bits, exactly when the set is not empty: the
      empty one is printed without its opening brace. */
  lemma PrintThenParse(bits: seq<bool>, low: nat)
    requires low + |bits| <= 0x8000_0000
    ensures ListText(ItemsFrom(bits, 0), low, '{') != []
    ensures var text := ListText(ItemsFrom(bits, 0), low, '{');
            text[0] == '{' && ParseList(text[1..], -1, Clear(|bits|), low) == Parsed(Accepted, bits)
            <==> exists k :: 0 <= k < |bits| && bits[k]
  {
    hide ParseList, Decimal, ItemsFrom;
    NoItemsNoBits(bits, 0);
    if ItemsFrom(bits, 0) != [] {
      ReadList(bits, 0, Clear(|bits|), low, '{');
      assert Join(Clear(|bits|), bits, 0) == bits;
    }
  }

  lemma SameOctets(p: seq<bv8>, q: seq<bv8>, size: nat)
    requires |p| == |q| && size <= 8 * |p| && Bits(p, size) == Bits(q, size) && PaddingClear(p, size) && PaddingClear(q, size)
    ensures p == q
  {
    hide BitValue;
    forall j | 0 <= j < |p|
      ensures p[j] == q[j]
    {
      forall b: nat | b < 8
        ensures (p[j] & BitValue(b) != 0) == (q[j] & BitValue(b) != 0)
      {
        var i := 8 * j + b;
        assert i / 8 == j && i % 8 == b;
        assert BitAt(p, i) == BitAt(q, i) by {
          if i < size {
            assert Bits(p, size)[i] == Bits(q, size)[i];
          }
        }
      }
      OctetsEqual(p[j], q[j]);
    }
  }

  lemma OctetsEqual(a: bv8, b: bv8)
    requires forall k: nat | k < 8 :: (a & BitValue(k) != 0) == (b & BitValue(k) != 0)
    ensures a == b
  {
    assert (a & BitValue(0) != 0) == (b & BitValue(0) != 0) && (a & BitValue(1) != 0) == (b & BitValue(1) != 0);
    assert (a & BitValue(2) != 0) == (b & BitValue(2) != 0) && (a & BitValue(3) != 0) == (b & BitValue(3) != 0);
    assert (a & BitValue(4) != 0) == (b & BitValue(4) != 0) && (a & BitValue(5) != 0) == (b & BitValue(5) != 0);
    assert (a & BitValue(6) != 0) == (b & BitValue(6) != 0) && (a & BitValue(7) != 0) == (b & BitValue(7) != 0);
  }

  /** The two programs in sequence: what print_ip writes for a non-empty set makes fill_ip rebuild the
      same words. */
  method CopyThroughText(bm: array<bv8>, copy: array<bv8>, size: nat, base: nat) returns (outcome: Outcome)
    requires size <= 8 * bm.Length && copy.Length == bm.Length && copy != bm && base + size <= 0x8000_0000
    requires PaddingClear(bm[..], size) && exists k :: 0 <= k < size && BitAt(bm[..], k)
    modifies copy
    ensures outcome == Accepted && copy[..] == bm[..]
  {
    hide BitAt, ParseList, ItemsFrom, ListText;
    ghost var bits := Bits(bm[..], size);
    assert exists k :: 0 <= k < |bits| && bits[k] by {
      var k :| 0 <= k < size && BitAt(bm[..], k);
      assert bits[k];
    }
    var text := PrintSet(bm, size, base);
    PrintThenParse(bits, base);
    outcome := FillSet(text[1..], base, copy, size);
    SameOctets(bm[..], copy[..], size);
  }
}

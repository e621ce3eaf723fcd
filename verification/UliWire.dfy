/** The User Location Information on the wire: which bit announces which area, where the area starts, and which
    octets are which field. */
module UliWire {
  import opened Options
  import opened Bytes
  import opened Uli

  // The bits of the flags octet.

  predicate HasCgi(flags: int) {
    flags % 2 == 1
  }

  predicate HasSai(flags: int) {
    flags / 2 % 2 == 1
  }

  predicate HasRai(flags: int) {
    flags / 4 % 2 == 1
  }

  predicate HasTai(flags: int) {
    flags / 8 % 2 == 1
  }

  predicate HasEcgi(flags: int) {
    flags / 16 % 2 == 1
  }

  predicate HasLai(flags: int) {
    flags / 32 % 2 == 1
  }

  // Each area starts behind the ones before it that are there; the CGI behind the flags.

  function SaiAt(flags: int): int {
    if HasCgi(flags) then 8 else 1
  }

  function RaiAt(flags: int): int {
    SaiAt(flags) + if HasSai(flags) then 7 else 0
  }

  function TaiAt(flags: int): int {
    RaiAt(flags) + if HasRai(flags) then 7 else 0
  }

  function EcgiAt(flags: int): int {
    TaiAt(flags) + if HasTai(flags) then 5 else 0
  }

  function LaiAt(flags: int): int {
    EcgiAt(flags) + if HasEcgi(flags) then 7 else 0
  }

  function EndAt(flags: int): int {
    LaiAt(flags) + if HasLai(flags) then 5 else 0
  }

  /** Three octets of PLMN identity and two numbers of two octets. */
  function Pair(o: seq<Byte>, at: nat): Area
    requires at + 7 <= |o|
  {
    Area(o[at..at + 3], Num2(o[at + 3], o[at + 4]), Num2(o[at + 5], o[at + 6]))
  }

  /** Three octets of PLMN identity and one number of two octets. */
  function Single(o: seq<Byte>, at: nat): Area
    requires at + 5 <= |o|
  {
    Area(o[at..at + 3], Num2(o[at + 3], o[at + 4]), 0)
  }

  /** Three octets of PLMN identity and one number of four octets. */
  function Cell(o: seq<Byte>, at: nat): Area
    requires at + 7 <= |o|
  {
    Area(o[at..at + 3], Num4(o[at + 3], o[at + 4], o[at + 5], o[at + 6]), 0)
  }

  /** The octets, beyond the flags, that the areas from k up to j take. */
  function Skip(flags: Byte, k: nat, j: nat): nat
    requires k <= j
    decreases j - k
  {
    if k == j then 0 else (if Flag(flags, k) then Size(k) else 0) + Skip(flags, k + 1, j)
  }

  /** Area j, read at octet n of s if it is announced. */
  ghost predicate ReadAt(flags: Byte, s: seq<Byte>, n: nat, j: nat, a: Area) {
    if Flag(flags, j) then n + Size(j) <= |s| && a == Decode(j, s[n..n + Size(j)]) else a == NO_AREA
  }

  lemma ReadLater(flags: Byte, s: seq<Byte>, m: nat, n: nat, j: nat, a: Area)
    requires m <= |s| && ReadAt(flags, s[m..], n, j, a)
    ensures ReadAt(flags, s, m + n, j, a)
  {
    hide Decode, Flag, Size;
    if Flag(flags, j) {
      assert s[m..][n..n + Size(j)] == s[m + n..m + n + Size(j)];
    }
  }

  lemma SkipFirst(flags: Byte, k: nat, j: nat)
    requires k <= j
    ensures k == j ==> Skip(flags, k, j) == 0
    ensures k < j ==> Skip(flags, k, j) == (if Flag(flags, k) then Size(k) else 0) + Skip(flags, k + 1, j)
  {
    hide Flag, Size;
  }

  lemma {:induction false} AreaAt(flags: Byte, s: seq<Byte>, k: nat, j: nat)
    requires k <= j < AREAS && ParseFrom(flags, s, k).Some?
    ensures |ParseFrom(flags, s, k).value| == AREAS - k
    ensures ReadAt(flags, s, Skip(flags, k, j), j, ParseFrom(flags, s, k).value[j - k])
    decreases AREAS - k
  {
    hide ParseFrom, Skip, ReadAt, Decode, Flag, Size, AreaOk;
    ParseFromExactly(flags, s, k);
    OneStep(flags, s, k);
    SkipFirst(flags, k, j);
    if k == j {
      assert ReadAt(flags, s, 0, j, ParseFrom(flags, s, k).value[0]) by {
        ReadFirst(flags, s, k);
      }
    } else if Flag(flags, k) {
      AreaAt(flags, s[Size(k)..], k + 1, j);
      ReadLater(flags, s, Size(k), Skip(flags, k + 1, j), j, ParseFrom(flags, s[Size(k)..], k + 1).value[j - k - 1]);
    } else {
      AreaAt(flags, s, k + 1, j);
    }
  }

  lemma ReadFirst(flags: Byte, s: seq<Byte>, k: nat)
    requires k < AREAS && ParseFrom(flags, s, k).Some?
    ensures ParseFrom(flags, s, k).value != [] && ReadAt(flags, s, 0, k, ParseFrom(flags, s, k).value[0])
  {
    hide ParseFrom, Decode, Flag, Size;
    OneStep(flags, s, k);
    if Flag(flags, k) && |s| >= Size(k) {
      assert s[0..0 + Size(k)] == s[..Size(k)];
    }
  }

  lemma FlagBits(flags: Byte)
    ensures Flag(flags, 0) == HasCgi(flags) && Flag(flags, 1) == HasSai(flags) && Flag(flags, 2) == HasRai(flags)
    ensures Flag(flags, 3) == HasTai(flags) && Flag(flags, 4) == HasEcgi(flags) && Flag(flags, 5) == HasLai(flags)
  {
  }

  lemma Starts(flags: Byte)
    ensures Skip(flags, 0, 0) == 0 && 1 + Skip(flags, 0, 1) == SaiAt(flags) && 1 + Skip(flags, 0, 2) == RaiAt(flags)
    ensures 1 + Skip(flags, 0, 3) == TaiAt(flags) && 1 + Skip(flags, 0, 4) == EcgiAt(flags) && 1 + Skip(flags, 0, 5) == LaiAt(flags)
    ensures 1 + Announced(flags, 0) == EndAt(flags)
  {
    FlagBits(flags);
    hide Flag, Skip, Announced, HasCgi, HasSai, HasRai, HasTai, HasEcgi, HasLai;
    SkipFirst(flags, 0, 0);
    SkipLast(flags, 0, 0);
    SkipLast(flags, 0, 1);
    SkipLast(flags, 0, 2);
    SkipLast(flags, 0, 3);
    SkipLast(flags, 0, 4);
    SkipLast(flags, 0, 5);
    SkipAll(flags, 0);
  }

  lemma {:induction false} SkipLast(flags: Byte, k: nat, j: nat)
    requires k <= j
    ensures Skip(flags, k, j + 1) == Skip(flags, k, j) + if Flag(flags, j) then Size(j) else 0
    decreases j - k
  {
    hide Flag, Size, Skip;
    SkipFirst(flags, k, j);
    SkipFirst(flags, k, j + 1);
    if k < j {
      SkipLast(flags, k + 1, j);
    } else {
      SkipFirst(flags, k + 1, j + 1);
    }
  }

  lemma {:induction false} SkipAll(flags: Byte, k: nat)
    requires k <= AREAS
    ensures Announced(flags, k) == Skip(flags, k, AREAS)
    decreases AREAS - k
  {
    hide Flag, Size;
    if k < AREAS {
      SkipAll(flags, k + 1);
    }
  }

  lemma Decoded(k: nat, o: seq<Byte>, at: nat)
    requires at + Size(k) <= |o|
    ensures Decode(k, o[at..at + Size(k)]) == if k < 3 then Pair(o, at) else if k == 4 then Cell(o, at) else Single(o, at)
  {
    var s := o[at..at + Size(k)];
    assert s[..3] == o[at..at + 3];
    if k == 4 {
      UnBe4(s[3..7]);
    } else {
      UnBe2(s[3..5]);
      if k < 3 {
        UnBe2(s[5..7]);
      }
    }
    hide UnBe;
  }

  ghost predicate PairAt(o: seq<Byte>, at: int, a: Area) {
    0 <= at && at + 7 <= |o| && a == Pair(o, at)
  }

  ghost predicate SingleAt(o: seq<Byte>, at: int, a: Area) {
    0 <= at && at + 5 <= |o| && a == Single(o, at)
  }

  ghost predicate CellAt(o: seq<Byte>, at: int, a: Area) {
    0 <= at && at + 7 <= |o| && a == Cell(o, at)
  }

  /** Area j at octet `at` of the whole element. */
  ghost predicate WrittenAt(o: seq<Byte>, at: int, j: nat, a: Area) {
    if j < 3 then PairAt(o, at, a) else if j == 4 then CellAt(o, at, a) else SingleAt(o, at, a)
  }

  lemma AreaWire(o: seq<Byte>, j: nat)
    requires Parse(o).Some? && j < AREAS
    ensures |Parse(o).value.areas| == AREAS
    ensures var a := Parse(o).value.areas[j];
            if Flag(o[0], j) then WrittenAt(o, 1 + Skip(o[0], 0, j), j, a) else a == NO_AREA
  {
    hide ParseFrom, Decode, Flag, Skip, Pair, Single, Cell, Size, ReadAt;
    AreaAt(o[0], o[1..], 0, j);
    var a, n := Parse(o).value.areas[j], Skip(o[0], 0, j);
    ReadLater(o[0], o, 1, n, j, a);
    WrittenIs(o, 1 + n, j, a);
  }

  lemma WrittenIs(o: seq<Byte>, at: nat, j: nat, a: Area)
    requires o != [] && ReadAt(o[0], o, at, j, a)
    ensures if Flag(o[0], j) then WrittenAt(o, at, j, a) else a == NO_AREA
  {
    if Flag(o[0], j) {
      Decoded(j, o, at);
    }
    hide Decode, Pair, Single, Cell, Flag;
  }

  /** The announced areas are in their places, and there is nothing behind them. */
  ghost predicate OnWire(o: seq<Byte>, areas: seq<Area>) {
    o != [] && |areas| == 6 && |o| == EndAt(o[0]) && FirstOnWire(o, areas) && LastOnWire(o, areas)
  }

  ghost predicate FirstOnWire(o: seq<Byte>, areas: seq<Area>)
    requires o != [] && |areas| == 6
  {
    && (HasCgi(o[0]) ==> PairAt(o, 1, areas[0]))
    && (HasSai(o[0]) ==> PairAt(o, SaiAt(o[0]), areas[1]))
    && (HasRai(o[0]) ==> PairAt(o, RaiAt(o[0]), areas[2]))
  }

  ghost predicate LastOnWire(o: seq<Byte>, areas: seq<Area>)
    requires o != [] && |areas| == 6
  {
    && (HasTai(o[0]) ==> SingleAt(o, TaiAt(o[0]), areas[3]))
    && (HasEcgi(o[0]) ==> CellAt(o, EcgiAt(o[0]), areas[4]))
    && (HasLai(o[0]) ==> SingleAt(o, LaiAt(o[0]), areas[5]))
  }

  /** The areas that are not announced are zero. */
  ghost predicate OthersZero(flags: int, areas: seq<Area>) {
    && |areas| == 6
    && (!HasCgi(flags) ==> areas[0] == NO_AREA) && (!HasSai(flags) ==> areas[1] == NO_AREA)
    && (!HasRai(flags) ==> areas[2] == NO_AREA) && (!HasTai(flags) ==> areas[3] == NO_AREA)
    && (!HasEcgi(flags) ==> areas[4] == NO_AREA) && (!HasLai(flags) ==> areas[5] == NO_AREA)
  }

  lemma FirstAreas(o: seq<Byte>)
    requires Parse(o).Some?
    ensures |Parse(o).value.areas| == 6
    ensures var areas := Parse(o).value.areas;
            && (if HasCgi(o[0]) then PairAt(o, 1, areas[0]) else areas[0] == NO_AREA)
            && (if HasSai(o[0]) then PairAt(o, SaiAt(o[0]), areas[1]) else areas[1] == NO_AREA)
            && (if HasRai(o[0]) then PairAt(o, RaiAt(o[0]), areas[2]) else areas[2] == NO_AREA)
  {
    hide Flag, Skip, Announced, ParseFrom, PairAt, SingleAt, CellAt, SaiAt, RaiAt, TaiAt, EcgiAt, LaiAt, EndAt,
         HasCgi, HasSai, HasRai, HasTai, HasEcgi, HasLai, Parse;
    AcceptedLength(o);
    Starts(o[0]);
    FlagBits(o[0]);
    AreaWire(o, 0);
    AreaWire(o, 1);
    AreaWire(o, 2);
  }

  lemma LastAreas(o: seq<Byte>)
    requires Parse(o).Some?
    ensures |Parse(o).value.areas| == 6
    ensures var areas := Parse(o).value.areas;
            && (if HasTai(o[0]) then SingleAt(o, TaiAt(o[0]), areas[3]) else areas[3] == NO_AREA)
            && (if HasEcgi(o[0]) then CellAt(o, EcgiAt(o[0]), areas[4]) else areas[4] == NO_AREA)
            && (if HasLai(o[0]) then SingleAt(o, LaiAt(o[0]), areas[5]) else areas[5] == NO_AREA)
  {
    hide Flag, Skip, Announced, ParseFrom, PairAt, SingleAt, CellAt, SaiAt, RaiAt, TaiAt, EcgiAt, LaiAt, EndAt,
         HasCgi, HasSai, HasRai, HasTai, HasEcgi, HasLai, Parse;
    AcceptedLength(o);
    Starts(o[0]);
    FlagBits(o[0]);
    AreaWire(o, 3);
    AreaWire(o, 4);
    AreaWire(o, 5);
  }

  lemma AcceptedLength(o: seq<Byte>)
    ensures Parse(o).Some? <==> o != [] && |o| == EndAt(o[0])
    ensures Parse(o).Some? ==> Parse(o).value.flags == o[0]
  {
    AcceptedExactly(o);
    if o != [] {
      Starts(o[0]);
    }
    hide Skip, Announced, ParseFrom, EndAt;
  }

  /** Accepted are exactly the strings of the length their first octet announces; every announced area is read
      from its place, and the others are zero. */
  lemma ParsedFromWire(o: seq<Byte>)
    ensures Parse(o).Some? <==> o != [] && |o| == EndAt(o[0])
    ensures Parse(o).Some? ==>
              Parse(o).value.flags == o[0] && OnWire(o, Parse(o).value.areas) && OthersZero(o[0], Parse(o).value.areas)
  {
    hide Flag, Skip, Announced, ParseFrom, PairAt, SingleAt, CellAt, SaiAt, RaiAt, TaiAt, EcgiAt, LaiAt, EndAt,
         HasCgi, HasSai, HasRai, HasTai, HasEcgi, HasLai, Parse;
    AcceptedLength(o);
    if Parse(o).Some? {
      FirstAreas(o);
      LastAreas(o);
    }
  }

  /** What is built has the announced areas in their places. */
  lemma BuiltOnWire(u: Location)
    requires LocationOk(u)
    ensures Build(u) != [] && Build(u)[0] == u.flags && OnWire(Build(u), u.areas)
  {
    hide Build, Cleared, LocationOk, OnWire, OthersZero, Parse;
    ParseBuild(u);
    ParsedFromWire(Build(u));
    BuiltFlags(u);
    SameOnWire(u, Build(u));
  }

  lemma SameFirst(u: Location, o: seq<Byte>)
    requires LocationOk(u) && o != [] && o[0] == u.flags && |Cleared(u, 0)| == 6 && FirstOnWire(o, Cleared(u, 0))
    ensures FirstOnWire(o, u.areas)
  {
    hide Flag, PairAt, SingleAt, CellAt, SaiAt, RaiAt, TaiAt, EcgiAt, LaiAt, HasCgi, HasSai, HasRai, HasTai, HasEcgi, HasLai, Cleared;
    FlagBits(u.flags);
    ClearedAt(u, 0, 0);
    ClearedAt(u, 0, 1);
    ClearedAt(u, 0, 2);
  }

  lemma SameLast(u: Location, o: seq<Byte>)
    requires LocationOk(u) && o != [] && o[0] == u.flags && |Cleared(u, 0)| == 6 && LastOnWire(o, Cleared(u, 0))
    ensures LastOnWire(o, u.areas)
  {
    hide Flag, PairAt, SingleAt, CellAt, SaiAt, RaiAt, TaiAt, EcgiAt, LaiAt, HasCgi, HasSai, HasRai, HasTai, HasEcgi, HasLai, Cleared;
    FlagBits(u.flags);
    ClearedAt(u, 0, 3);
    ClearedAt(u, 0, 4);
    ClearedAt(u, 0, 5);
  }

  lemma SameOnWire(u: Location, o: seq<Byte>)
    requires LocationOk(u) && OnWire(o, Cleared(u, 0)) && o[0] == u.flags
    ensures OnWire(o, u.areas)
  {
    hide FirstOnWire, LastOnWire, Cleared, EndAt;
    SameFirst(u, o);
    SameLast(u, o);
  }

  lemma {:induction false} ClearedAt(u: Location, k: nat, j: nat)
    requires LocationOk(u) && k <= j < AREAS
    ensures |Cleared(u, k)| == AREAS - k
    ensures Cleared(u, k)[j - k] == if Flag(u.flags, j) then u.areas[j] else NO_AREA
    decreases AREAS - k
  {
    hide Flag, LocationOk;
    if k < j {
      ClearedAt(u, k + 1, j);
    } else if k + 1 < AREAS {
      ClearedAt(u, k + 1, k + 1);
    }
  }
}

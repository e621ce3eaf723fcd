/** The User Location Information element of section 8.21 of 3GPP TS 29.274, as lib/gtp/gtp_types.c parses
    and builds it: a flags octet and up to six areas in a fixed order. */
module Uli {
  import opened Options
  import opened Bytes

  // The areas by position: 0 CGI, 1 SAI, 2 RAI, 3 TAI, 4 ECGI, 5 LAI.
  const AREAS: nat := 6

  /** A PLMN identity and the numbers after it: location area and cell, service or routing area code; a
      tracking or location area code alone; or a 32-bit cell identity. */
  datatype Area = Area(plmn: seq<Byte>, code: nat, sub: nat)

  const NO_AREA := Area([0, 0, 0], 0, 0)

  datatype Location = Location(flags: Byte, areas: seq<Area>)

  function Size(k: nat): nat {
    if k < 3 || k == 4 then 7 else 5
  }

  function Bit(k: nat): nat {
    if k == 0 then 1 else if k == 1 then 2 else if k == 2 then 4 else if k == 3 then 8 else if k == 4 then 16 else 32
  }

  predicate Flag(flags: Byte, k: nat) {
    flags / Bit(k) % 2 == 1
  }

  /** The fields' widths. */
  predicate AreaOk(k: nat, a: Area) {
    && |a.plmn| == 3
    && a.code < (if k == 4 then 0x1_0000_0000 else 0x1_0000)
    && a.sub < (if k < 3 then 0x1_0000 else 1)
  }

  predicate LocationOk(u: Location) {
    |u.areas| == AREAS && forall k | 0 <= k < AREAS :: AreaOk(k, u.areas[k])
  }

  function Encode(k: nat, a: Area): (s: seq<Byte>)
    requires AreaOk(k, a)
    ensures |s| == Size(k)
  {
    if k < 3 then a.plmn + Be(2, a.code) + Be(2, a.sub)
    else if k == 4 then a.plmn + Be(4, a.code)
    else a.plmn + Be(2, a.code)
  }

  function Decode(k: nat, s: seq<Byte>): Area
    requires |s| == Size(k)
  {
    if k < 3 then Area(s[..3], UnBe(s[3..5]), UnBe(s[5..7]))
    else if k == 4 then Area(s[..3], UnBe(s[3..7]), 0)
    else Area(s[..3], UnBe(s[3..5]), 0)
  }

  // ---------------------------------------------------------------- the two directions

  function BuildFrom(u: Location, k: nat): seq<Byte>
    requires LocationOk(u) && k <= AREAS
    decreases AREAS - k
  {
    if k == AREAS then []
    else (if Flag(u.flags, k) then Encode(k, u.areas[k]) else []) + BuildFrom(u, k + 1)
  }

  function Build(u: Location): seq<Byte>
    requires LocationOk(u)
  {
    [u.flags] + BuildFrom(u, 0)
  }

  function Cons(a: Area, rest: Option<seq<Area>>): Option<seq<Area>> {
    if rest.Some? then Some([a] + rest.value) else None
  }

  function ParseFrom(flags: Byte, s: seq<Byte>, k: nat): Option<seq<Area>>
    requires k <= AREAS
    decreases AREAS - k
  {
    if k == AREAS then if s == [] then Some([]) else None
    else if !Flag(flags, k) then Cons(NO_AREA, ParseFrom(flags, s, k + 1))
    else if |s| < Size(k) then None
    else Cons(Decode(k, s[..Size(k)]), ParseFrom(flags, s[Size(k)..], k + 1))
  }

  function Parse(o: seq<Byte>): Option<Location> {
    if o == [] then None
    else
      match ParseFrom(o[0], o[1..], 0)
      case None => None
      case Some(areas) => Some(Location(o[0], areas))
  }

  // ---------------------------------------------------------------- one area

  lemma DecodeEncode(k: nat, a: Area)
    requires AreaOk(k, a)
    ensures Decode(k, Encode(k, a)) == a
  {
    PowValues();
    var s := Encode(k, a);
    assert s[..3] == a.plmn;
    if k == 4 {
      UnBeBe(4, a.code);
      assert s[3..7] == Be(4, a.code);
    } else {
      UnBeBe(2, a.code);
      assert s[3..5] == Be(2, a.code);
      if k < 3 {
        UnBeBe(2, a.sub);
        assert s[5..7] == Be(2, a.sub);
      }
    }
  }

  lemma ReadBack(s: seq<Byte>)
    ensures |s| == 2 ==> UnBe(s) < 0x1_0000
    ensures |s| == 4 ==> UnBe(s) < 0x1_0000_0000
    ensures Be(|s|, UnBe(s)) == s
  {
    PowValues();
    BeUnBe(s);
  }

  lemma EncodeDecode(k: nat, s: seq<Byte>)
    requires |s| == Size(k)
    ensures AreaOk(k, Decode(k, s)) && Encode(k, Decode(k, s)) == s
  {
    hide Be, UnBe;
    if k == 4 {
      ReadBack(s[3..7]);
      assert s == s[..3] + s[3..7];
    } else if k < 3 {
      ReadBack(s[3..5]);
      ReadBack(s[5..7]);
      assert s == s[..3] + s[3..5] + s[5..7];
    } else {
      ReadBack(s[3..5]);
      assert s == s[..3] + s[3..5];
    }
  }

  // ---------------------------------------------------------------- mutual inverses

  function Cleared(u: Location, k: nat): seq<Area>
    requires LocationOk(u) && k <= AREAS
    decreases AREAS - k
  {
    if k == AREAS then []
    else [if Flag(u.flags, k) then u.areas[k] else NO_AREA] + Cleared(u, k + 1)
  }

  lemma {:induction false} ParseBuildFrom(u: Location, k: nat)
    requires LocationOk(u) && k <= AREAS
    ensures ParseFrom(u.flags, BuildFrom(u, k), k) == Some(Cleared(u, k))
    decreases AREAS - k
  {
    if k < AREAS {
      ParseBuildFrom(u, k + 1);
      if Flag(u.flags, k) {
        var head, s := Encode(k, u.areas[k]), BuildFrom(u, k);
        DecodeEncode(k, u.areas[k]);
        assert s[..Size(k)] == head && s[Size(k)..] == BuildFrom(u, k + 1);
      } else {
        assert BuildFrom(u, k) == BuildFrom(u, k + 1);
      }
    }
  }

  /** Parsing what was built gives the location back with the unflagged areas zeroed. */
  lemma ParseBuild(u: Location)
    requires LocationOk(u)
    ensures Parse(Build(u)) == Some(Location(u.flags, Cleared(u, 0)))
  {
    ParseBuildFrom(u, 0);
    assert Build(u)[1..] == BuildFrom(u, 0);
  }

  /** The areas a flags octet announces, in octets. */
  function Announced(flags: Byte, k: nat): nat
    requires k <= AREAS
    decreases AREAS - k
  {
    if k == AREAS then 0 else (if Flag(flags, k) then Size(k) else 0) + Announced(flags, k + 1)
  }

  ghost predicate AreasOk(areas: seq<Area>, k: nat) {
    k + |areas| == AREAS && forall i | 0 <= i < |areas| :: AreaOk(k + i, areas[i])
  }

  /** Only the announced length is accepted, and then the areas are in range. */
  lemma {:induction false} ParseFromExactly(flags: Byte, s: seq<Byte>, k: nat)
    requires k <= AREAS
    ensures ParseFrom(flags, s, k).Some? <==> |s| == Announced(flags, k)
    ensures ParseFrom(flags, s, k).Some? ==> AreasOk(ParseFrom(flags, s, k).value, k)
    decreases AREAS - k
  {
    if k < AREAS {
      if !Flag(flags, k) {
        ParseFromExactly(flags, s, k + 1);
        NoAreaFirst(k, ParseFrom(flags, s, k + 1));
      } else if |s| >= Size(k) {
        ParseFromExactly(flags, s[Size(k)..], k + 1);
        EncodeDecode(k, s[..Size(k)]);
        AreaFirst(k, Decode(k, s[..Size(k)]), ParseFrom(flags, s[Size(k)..], k + 1));
      }
    }
  }

  lemma AreaFirst(k: nat, a: Area, rest: Option<seq<Area>>)
    requires k < AREAS && AreaOk(k, a) && (rest.Some? ==> AreasOk(rest.value, k + 1))
    ensures rest.Some? ==> AreasOk(Cons(a, rest).value, k)
  {
    if rest.Some? {
      var all := [a] + rest.value;
      forall i | 0 <= i < |all|
        ensures AreaOk(k + i, all[i])
      {
        if i > 0 {
          assert AreaOk(k + 1 + (i - 1), rest.value[i - 1]);
        }
      }
    }
  }

  lemma NoAreaFirst(k: nat, rest: Option<seq<Area>>)
    requires k < AREAS && (rest.Some? ==> AreasOk(rest.value, k + 1))
    ensures rest.Some? ==> AreasOk(Cons(NO_AREA, rest).value, k)
  {
    AreaFirst(k, NO_AREA, rest);
  }

  lemma {:induction false} BuildParseFrom(u: Location, s: seq<Byte>, k: nat)
    requires LocationOk(u) && k <= AREAS
    requires ParseFrom(u.flags, s, k) == Some(u.areas[k..])
    ensures BuildFrom(u, k) == s
    decreases AREAS - k
  {
    if k < AREAS {
      assert u.areas[k..][1..] == u.areas[k + 1..] && u.areas[k..][0] == u.areas[k];
      if Flag(u.flags, k) {
        EncodeDecode(k, s[..Size(k)]);
        BuildParseFrom(u, s[Size(k)..], k + 1);
        assert s == s[..Size(k)] + s[Size(k)..];
      } else {
        BuildParseFrom(u, s, k + 1);
      }
    }
  }

  /** Building what was parsed gives the octets back. */
  lemma BuildParse(o: seq<Byte>)
    requires Parse(o).Some?
    ensures LocationOk(Parse(o).value) && Build(Parse(o).value) == o
  {
    hide ParseFrom, BuildFrom, Flag, AreaOk;
    ParseFromExactly(o[0], o[1..], 0);
    var u := Parse(o).value;
    assert forall k | 0 <= k < AREAS :: AreaOk(0 + k, u.areas[k]);
    assert u.areas[0..] == u.areas;
    BuildParseFrom(u, o[1..], 0);
    assert o == [o[0]] + o[1..];
  }

  /** Accepted are exactly the strings of the length their first octet announces, so no proper prefix and
      no extension of an accepted string is accepted. */
  lemma AcceptedExactly(o: seq<Byte>)
    ensures Parse(o).Some? <==> o != [] && |o| == 1 + Announced(o[0], 0)
  {
    if o != [] {
      ParseFromExactly(o[0], o[1..], 0);
    }
  }

  lemma PrefixFree(o: seq<Byte>, p: seq<Byte>)
    requires Parse(o).Some? && Parse(p).Some? && o <= p
    ensures o == p
  {
    AcceptedExactly(o);
    AcceptedExactly(p);
  }

  // ---------------------------------------------------------------- the cursors

  function Prepend(areas: seq<Area>, rest: Option<seq<Area>>): Option<seq<Area>> {
    if rest.Some? then Some(areas + rest.value) else None
  }

  /** Parsing has produced `areas` and its cursor stands at `size`. */
  ghost predicate ParsedTo(octet: seq<Byte>, areas: seq<Area>, size: nat) {
    && octet != [] && |areas| <= AREAS && size <= |octet|
    && ParseFrom(octet[0], octet[1..], 0) == Prepend(areas, ParseFrom(octet[0], octet[size..], |areas|))
  }

  lemma OneStep(flags: Byte, s: seq<Byte>, k: nat)
    requires k < AREAS
    ensures !Flag(flags, k) ==> ParseFrom(flags, s, k) == Cons(NO_AREA, ParseFrom(flags, s, k + 1))
    ensures Flag(flags, k) && |s| < Size(k) ==> ParseFrom(flags, s, k) == None
    ensures Flag(flags, k) && |s| >= Size(k) ==>
      ParseFrom(flags, s, k) == Cons(Decode(k, s[..Size(k)]), ParseFrom(flags, s[Size(k)..], k + 1))
  {
    hide Flag, Size, Decode;
  }

  lemma ParsedDead(octet: seq<Byte>, areas: seq<Area>, start: nat)
    requires ParsedTo(octet, areas, start)
    ensures ParseFrom(octet[0], octet[start..], |areas|) == None ==> Parse(octet) == None
  {
    hide ParseFrom;
  }

  lemma ParseStep(octet: seq<Byte>, areas: seq<Area>, start: nat)
    requires ParsedTo(octet, areas, start) && |areas| < AREAS
    ensures !Flag(octet[0], |areas|) ==> ParsedTo(octet, areas + [NO_AREA], start)
    ensures Flag(octet[0], |areas|) && start + Size(|areas|) > |octet| ==> Parse(octet) == None
    ensures Flag(octet[0], |areas|) && start + Size(|areas|) <= |octet| ==>
      ParsedTo(octet, areas + [Decode(|areas|, octet[start..start + Size(|areas|)])], start + Size(|areas|))
  {
    hide Flag, Size, Decode, ParseFrom, Parse;
    var k, s := |areas|, octet[start..];
    OneStep(octet[0], s, k);
    ParsedDead(octet, areas, start);
    if !Flag(octet[0], k) {
      ParsedMore(octet, areas, start, NO_AREA, start);
    } else if start + Size(k) <= |octet| {
      assert s[..Size(k)] == octet[start..start + Size(k)] && s[Size(k)..] == octet[start + Size(k)..];
      ParsedMore(octet, areas, start, Decode(k, s[..Size(k)]), start + Size(k));
    }
  }

  lemma ParsedMore(octet: seq<Byte>, areas: seq<Area>, start: nat, a: Area, size: nat)
    requires ParsedTo(octet, areas, start) && |areas| < AREAS && size <= |octet|
    requires ParseFrom(octet[0], octet[start..], |areas|) == Cons(a, ParseFrom(octet[0], octet[size..], |areas| + 1))
    ensures ParsedTo(octet, areas + [a], size)
  {
    hide ParseFrom;
    var rest := ParseFrom(octet[0], octet[size..], |areas| + 1);
    assert rest.Some? ==> areas + ([a] + rest.value) == areas + [a] + rest.value;
  }

  /** One block of gtp_parse_uli: a zero area without the flag, an error when the octets run out. */
  method ParseArea(octet: seq<Byte>, k: nat, areas: seq<Area>, start: nat) returns (ok: bool, areas1: seq<Area>, size: nat)
    requires k == |areas| < AREAS && ParsedTo(octet, areas, start)
    ensures ok ==> ParsedTo(octet, areas1, size) && |areas1| == k + 1
    ensures !ok ==> Parse(octet) == None
  {
    ParseStep(octet, areas, start);
    hide Parse, Flag, Size, Decode;
    ok, areas1, size := true, areas + [NO_AREA], start;
    if Flag(octet[0], k) {
      if start + Size(k) > |octet| {
        return false, areas, size;
      }
      areas1 := areas + [Decode(k, octet[start..start + Size(k)])];
      size := start + Size(k);
    }
  }

  lemma ParsedAll(octet: seq<Byte>, areas: seq<Area>, size: nat)
    requires ParsedTo(octet, areas, size) && |areas| == AREAS
    ensures Parse(octet) == if size == |octet| then Some(Location(octet[0], areas)) else None
  {
    assert areas + [] == areas;
  }

  lemma ParsedNone(octet: seq<Byte>)
    requires octet != []
    ensures ParsedTo(octet, [], 1)
  {
    var r := ParseFrom(octet[0], octet[1..], 0);
    assert r.Some? ==> [] + r.value == r.value;
  }

  /** gtp_parse_uli. */
  method ParseUli(octet: seq<Byte>) returns (ret: int, uli: Location)
    ensures Parse(octet).None? ==> ret == -1
    ensures Parse(octet).Some? ==> ret == |octet| && uli == Parse(octet).value
  {
    uli := Location(0, []);
    if octet == [] {
      return -1, uli;
    }
    ParsedNone(octet);
    hide ParsedTo, Parse;
    var areas, size, ok := [], 1, true;
    ok, areas, size := ParseArea(octet, 0, areas, size);
    if !ok {
      return -1, uli;
    }
    ok, areas, size := ParseArea(octet, 1, areas, size);
    if !ok {
      return -1, uli;
    }
    ok, areas, size := ParseArea(octet, 2, areas, size);
    if !ok {
      return -1, uli;
    }
    ok, areas, size := ParseArea(octet, 3, areas, size);
    if !ok {
      return -1, uli;
    }
    ok, areas, size := ParseArea(octet, 4, areas, size);
    if !ok {
      return -1, uli;
    }
    ok, areas, size := ParseArea(octet, 5, areas, size);
    if !ok {
      return -1, uli;
    }
    ParsedAll(octet, areas, size);
    if size != |octet| {
      return -1, uli;
    }
    ret, uli := size, Location(octet[0], areas);
  }

  /** The octets written so far are the beginning of the element. */
  ghost predicate BuiltTo(u: Location, written: seq<Byte>, k: nat) {
    LocationOk(u) && k <= AREAS && Build(u) == written + BuildFrom(u, k)
  }

  function Part(u: Location, k: nat): seq<Byte>
    requires LocationOk(u) && k < AREAS
  {
    if Flag(u.flags, k) then Encode(k, u.areas[k]) else []
  }

  lemma BuildStep(u: Location, k: nat)
    requires LocationOk(u) && k < AREAS
    ensures BuildFrom(u, k) == Part(u, k) + BuildFrom(u, k + 1)
  {
    hide Flag, Encode, LocationOk;
  }

  lemma BuiltMore(u: Location, written: seq<Byte>, k: nat)
    requires BuiltTo(u, written, k) && k < AREAS
    ensures BuiltTo(u, written + Part(u, k), k + 1) && |Build(u)| >= |written + Part(u, k)|
  {
    hide Build, BuildFrom, Part, LocationOk;
    BuildStep(u, k);
    assert written + (Part(u, k) + BuildFrom(u, k + 1)) == (written + Part(u, k)) + BuildFrom(u, k + 1);
  }

  /** One block of gtp_build_uli. */
  method BuildArea(u: Location, k: nat, data: array<Byte>, dataLen: nat, start: nat, ghost written: seq<Byte>)
    returns (ok: bool, size: nat, ghost written1: seq<Byte>)
    requires LocationOk(u) && k < AREAS && start <= dataLen <= data.Length
    requires written == data[..start] && BuiltTo(u, written, k)
    modifies data
    ensures ok ==> size <= dataLen && written1 == data[..size] && BuiltTo(u, written1, k + 1)
    ensures !ok ==> |Build(u)| > dataLen
  {
    hide BuiltTo, Build, BuildFrom, Encode, Flag, Size;
    BuiltMore(u, written, k);
    ok, size, written1 := true, start, written + Part(u, k);
    if Flag(u.flags, k) {
      var part := Encode(k, u.areas[k]);
      if start + |part| > dataLen {
        return false, size, written;
      }
      forall i | 0 <= i < |part| {
        data[start + i] := part[i];
      }
      size := start + |part|;
      assert data[..size] == old(data[..start]) + part;
    } else {
      assert written + [] == written;
    }
  }

  lemma BuiltFlags(u: Location)
    requires LocationOk(u)
    ensures BuiltTo(u, [u.flags], 0) && |Build(u)| >= 1
  {
    hide BuildFrom;
  }

  lemma BuiltAll(u: Location, written: seq<Byte>)
    requires BuiltTo(u, written, AREAS)
    ensures written == Build(u)
  {
  }

  /** Three blocks in a row. */
  method BuildThree(u: Location, k: nat, data: array<Byte>, dataLen: nat, start: nat, ghost written: seq<Byte>)
    returns (ok: bool, size: nat, ghost written1: seq<Byte>)
    requires LocationOk(u) && k + 3 <= AREAS && start <= dataLen <= data.Length
    requires written == data[..start] && BuiltTo(u, written, k)
    modifies data
    ensures ok ==> size <= dataLen && written1 == data[..size] && BuiltTo(u, written1, k + 3)
    ensures !ok ==> |Build(u)| > dataLen
  {
    hide BuiltTo, Build, LocationOk;
    ok, size, written1 := BuildArea(u, k, data, dataLen, start, written);
    if ok {
      ok, size, written1 := BuildArea(u, k + 1, data, dataLen, size, written1);
    }
    if ok {
      ok, size, written1 := BuildArea(u, k + 2, data, dataLen, size, written1);
    }
  }

  /** gtp_build_uli into a caller's buffer. */
  method BuildUli(u: Location, data: array<Byte>, dataLen: nat) returns (ret: int)
    requires LocationOk(u) && dataLen <= data.Length
    modifies data
    ensures ret == -1 || ret == |Build(u)|
    ensures ret == -1 <==> |Build(u)| > dataLen
    ensures ret >= 0 ==> ret <= data.Length && data[..ret] == Build(u)
  {
    hide BuiltTo, Build, BuildFrom, LocationOk;
    BuiltFlags(u);
    if dataLen < 1 {
      return -1;
    }
    data[0] := u.flags;
    assert data[..1] == [u.flags];
    var ok, size;
    ghost var written := [u.flags];
    ok, size, written := BuildThree(u, 0, data, dataLen, 1, written);
    if ok {
      ok, size, written := BuildThree(u, 3, data, dataLen, size, written);
    }
    if !ok {
      return -1;
    }
    BuiltAll(u, written);
    ret := size;
  }
}

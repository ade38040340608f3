/** The SMBIOS structure table: the walk that both views share, and the identity view. */
module Smbios {
  import opened Wrappers
  import opened Binary

  const SYSTEM := 1
  const BASEBOARD := 2
  const CHASSIS := 3
  const END := 127

  datatype Refusal = BadLength(length: nat, off: nat) | Unterminated | BadEmptySet | UnterminatedString

  /** One structure: its formatted section, whose first two bytes are the type and its own length, and
      the strings that follow it. */
  datatype Structure = Structure(formatted: seq<byte>, strs: seq<seq<byte>>)

  predicate WellFormed(s: Structure) {
    4 <= |s.formatted| && s.formatted[1] == |s.formatted| && Texts(s.strs)
  }

  /** The strings of a set, and the bytes after it. */
  datatype StringSet = Strings(strs: seq<seq<byte>>, rest: seq<byte>) | BadSet(why: Refusal)

  datatype Walked = Walked(ss: seq<Structure>) | Refused(why: Refusal)

  /* ----- the walk ----- */

  /** The first NUL, or the end. */
  function Nul(t: seq<byte>): (end: nat)
    ensures end <= |t| && 0 !in t[..end] && (end < |t| ==> t[end] == 0)
  {
    if t == [] || t[0] == 0 then 0
    else
      var end := 1 + Nul(t[1..]);
      assert t[..end] == [t[0]] + t[1..][..end - 1];
      end
  }

  function StringsFrom(t: seq<byte>, strs: seq<seq<byte>>): (r: StringSet)
    ensures r.Strings? ==> |r.rest| < |t|
    decreases |t|
  {
    if t == [] then BadSet(Unterminated)
    else if t[0] == 0 then
      if |t| < 2 || t[1] != 0 then BadSet(BadEmptySet) else Strings(strs, t[2..])
    else
      var end := Nul(t);
      if end >= |t| then BadSet(UnterminatedString)
      else if end + 1 < |t| && t[end + 1] == 0 then Strings(strs + [t[..end]], t[end + 2..])
      else StringsFrom(t[end + 1..], strs + [t[..end]])
  }

  /** The structures of the bytes from `off` on. */
  function Walk(t: seq<byte>, off: nat): Walked
    decreases |t|
  {
    if |t| < 4 then Walked([])
    else
      var length := t[1];
      if length < 4 || length > |t| then Refused(BadLength(length, off))
      else
        match StringsFrom(t[length..], [])
        case BadSet(e) => Refused(e)
        case Strings(strs, rest) =>
          var s := Structure(t[..length], strs);
          if t[0] == END then Walked([s])
          else
            match Walk(rest, off + |t| - |rest|)
            case Refused(e) => Refused(e)
            case Walked(ss) => Walked([s] + ss)
  }

  lemma AdvanceFrom(u: seq<byte>, strs: seq<seq<byte>>)
    requires u != [] && u[0] != 0
    ensures var end := Nul(u);
      StringsFrom(u, strs) ==
        if end >= |u| then BadSet(UnterminatedString)
        else if end + 1 < |u| && u[end + 1] == 0 then Strings(strs + [u[..end]], u[end + 2..])
        else StringsFrom(u[end + 1..], strs + [u[..end]])
  {
  }

  /** One round of reading strings, at an offset. */
  lemma Advance(t: seq<byte>, off: nat, strs: seq<seq<byte>>)
    requires off < |t| && t[off] != 0
    ensures var end := off + Nul(t[off..]);
      StringsFrom(t[off..], strs) ==
        if end >= |t| then BadSet(UnterminatedString)
        else if end + 1 < |t| && t[end + 1] == 0 then Strings(strs + [t[off..end]], t[end + 2..])
        else StringsFrom(t[end + 1..], strs + [t[off..end]])
  {
    hide StringsFrom, Nul;
    var u, n := t[off..], Nul(t[off..]);
    AdvanceFrom(u, strs);
    assert u[..n] == t[off..off + n];
    if n < |u| {
      assert u[n + 1..] == t[off + n + 1..] && (n + 2 <= |u| ==> u[n + 2..] == t[off + n + 2..]);
    }
  }

  /** Where reading stops without a string. */
  lemma Stop(t: seq<byte>, off: nat, strs: seq<seq<byte>>)
    requires off <= |t| && (off < |t| ==> t[off] == 0)
    ensures StringsFrom(t[off..], strs) ==
      if off == |t| then BadSet(Unterminated)
      else if off + 1 >= |t| || t[off + 1] != 0 then BadSet(BadEmptySet) else Strings(strs, t[off + 2..])
  {
    if off + 2 <= |t| {
      assert t[off..][2..] == t[off + 2..];
    }
  }

  lemma NulStep(t: seq<byte>, end: nat)
    requires end <= |t|
    ensures Nul(t[end..]) == if end == |t| || t[end] == 0 then 0 else 1 + Nul(t[end + 1..])
  {
    if end < |t| {
      assert t[end..][1..] == t[end + 1..];
    }
  }

  method ReadStrings(t: seq<byte>, start: nat) returns (strs: seq<seq<byte>>, next: nat, why: Option<Refusal>)
    requires start <= |t|
    ensures why.None? ==> start < next <= |t| && StringsFrom(t[start..], []) == Strings(strs, t[next..])
    ensures why.Some? ==> StringsFrom(t[start..], []) == BadSet(why.value)
  {
    hide StringsFrom, Nul;
    strs, next := [], 0;
    var off := start;
    while true
      invariant start <= off <= |t| && StringsFrom(t[start..], []) == StringsFrom(t[off..], strs)
      decreases |t| - off
    {
      if off >= |t| {
        Stop(t, off, strs);
        return strs, next, Some(Unterminated);
      }
      if t[off] == 0 {
        Stop(t, off, strs);
        if off + 1 >= |t| || t[off + 1] != 0 {
          return strs, next, Some(BadEmptySet);
        }
        return strs, off + 2, None;
      }
      var end := off;
      while end < |t| && t[end] != 0
        invariant off <= end <= |t| && Nul(t[off..]) == end - off + Nul(t[end..])
      {
        NulStep(t, end);
        end := end + 1;
      }
      NulStep(t, end);
      Advance(t, off, strs);
      if end >= |t| {
        return strs, next, Some(UnterminatedString);
      }
      strs, off := strs + [t[off..end]], end + 1;
      if off < |t| && t[off] == 0 {
        return strs, off + 1, None;
      }
    }
  }

  /* ----- the walk accepts exactly the encodings ----- */

  /** Strings with a NUL each. */
  function Terminated(strs: seq<seq<byte>>): seq<byte> {
    if strs == [] then [] else strs[0] + ([0] + Terminated(strs[1..]))
  }

  function StringBytes(s: Structure): seq<byte> {
    if s.strs == [] then [0, 0] else Terminated(s.strs) + [0]
  }

  function Encode(s: Structure): seq<byte> {
    s.formatted + StringBytes(s)
  }

  function EncodeAll(ss: seq<Structure>): seq<byte> {
    if ss == [] then [] else Encode(ss[0]) + EncodeAll(ss[1..])
  }

  /** Well-formed structures, none after an end structure; without one, fewer than four bytes follow. */
  predicate Framed(ss: seq<Structure>, tail: seq<byte>) {
    && (forall i :: 0 <= i < |ss| ==> WellFormed(ss[i]))
    && (forall i :: 0 <= i < |ss| - 1 ==> ss[i].formatted[0] != END)
    && (|tail| < 4 || (ss != [] && ss[|ss| - 1].formatted[0] == END))
  }

  lemma {:induction false} NulAt(s: seq<byte>, rest: seq<byte>)
    requires 0 !in s
    ensures Nul(s + ([0] + rest)) == |s|
  {
    if s != [] {
      assert s[0] in s;
      assert (s + ([0] + rest))[1..] == s[1..] + ([0] + rest);
      NulAt(s[1..], rest);
    }
  }

  predicate Texts(strs: seq<seq<byte>>) {
    forall i :: 0 <= i < |strs| ==> strs[i] != [] && 0 !in strs[i]
  }

  lemma TerminatedCons(s: seq<byte>, more: seq<seq<byte>>, rest: seq<byte>)
    ensures Terminated([s] + more) + ([0] + rest) == s + ([0] + (Terminated(more) + ([0] + rest)))
  {
    assert ([s] + more)[1..] == more;
  }

  lemma TerminatedStarts(strs: seq<seq<byte>>, rest: seq<byte>)
    requires Texts(strs)
    ensures var t := Terminated(strs) + ([0] + rest);
      if strs == [] then t == [0] + rest else t[0] == strs[0][0]
  {
  }

  lemma OneString(s: seq<byte>, more: seq<byte>, acc: seq<seq<byte>>)
    requires s != [] && 0 !in s
    ensures StringsFrom(s + ([0] + more), acc) ==
      if more != [] && more[0] == 0 then Strings(acc + [s], more[1..]) else StringsFrom(more, acc + [s])
  {
    hide StringsFrom, Nul;
    var t, k := s + ([0] + more), |s|;
    NulAt(s, more);
    assert t[0] == s[0] && s[0] in s;
    AdvanceFrom(t, acc);
    assert t[..k] == s && t[k + 1..] == more;
    if more != [] {
      assert t[k + 1] == more[0] && t[k + 2..] == more[1..];
    }
  }

  lemma {:induction false} StringsRead(strs: seq<seq<byte>>, acc: seq<seq<byte>>, rest: seq<byte>)
    requires strs != [] && Texts(strs)
    ensures StringsFrom(Terminated(strs) + ([0] + rest), acc) == Strings(acc + strs, rest)
    decreases |strs|
  {
    hide StringsFrom, Terminated;
    var s, others := strs[0], strs[1..];
    assert strs == [s] + others;
    TerminatedCons(s, others, rest);
    OneString(s, Terminated(others) + ([0] + rest), acc);
    TerminatedStarts(others, rest);
    if others == [] {
      assert ([0] + rest)[1..] == rest && acc + [s] == acc + strs;
    } else {
      assert others[0][0] in others[0];
      StringsRead(others, acc + [s], rest);
      assert acc + [s] + others == acc + strs;
    }
  }

  lemma SetRead(s: Structure, rest: seq<byte>)
    requires Texts(s.strs)
    ensures StringsFrom(StringBytes(s) + rest, []) == Strings(s.strs, rest)
  {
    if s.strs == [] {
      assert ([0, 0] + rest)[2..] == rest;
    } else {
      assert StringBytes(s) + rest == Terminated(s.strs) + ([0] + rest);
      StringsRead(s.strs, [], rest);
      assert [] + s.strs == s.strs;
    }
  }

  /** The walk takes one encoded structure off the front. */
  lemma StructureReads(s: Structure, rest: seq<byte>, off: nat)
    requires WellFormed(s)
    ensures var w := Walk(rest, off + |Encode(s)|);
      Walk(Encode(s) + rest, off) ==
        if s.formatted[0] == END then Walked([s]) else if w.Refused? then w else Walked([s] + w.ss)
  {
    hide StringsFrom, StringBytes;
    var t, n := Encode(s) + rest, |s.formatted|;
    assert t == s.formatted + (StringBytes(s) + rest);
    assert t[..n] == s.formatted && t[n..] == StringBytes(s) + rest;
    assert t[0] == s.formatted[0] && t[1] == n;
    SetRead(s, rest);
    assert Structure(s.formatted, s.strs) == s;
  }

  lemma EncodeCons(s: Structure, ss: seq<Structure>, tail: seq<byte>)
    ensures EncodeAll([s] + ss) + tail == Encode(s) + (EncodeAll(ss) + tail)
  {
    assert ([s] + ss)[1..] == ss;
  }

  /** The walk of an encoding gives back the structures, up to and with the first end structure. */
  lemma {:induction false} WalkReads(ss: seq<Structure>, tail: seq<byte>, off: nat)
    requires Framed(ss, tail)
    ensures Walk(EncodeAll(ss) + tail, off) == Walked(ss)
    decreases |ss|
  {
    hide Walk, EncodeAll, Encode, Framed, WellFormed;
    if ss == [] {
      NothingReads(tail, off);
    } else {
      var s, others := ss[0], ss[1..];
      FramedFirst(ss, tail);
      assert ss == [s] + others;
      EncodeCons(s, others, tail);
      StructureReads(s, EncodeAll(others) + tail, off);
      if s.formatted[0] != END {
        WalkReads(others, tail, off + |Encode(s)|);
      }
    }
  }

  lemma NothingReads(tail: seq<byte>, off: nat)
    requires Framed([], tail)
    ensures Walk(EncodeAll([]) + tail, off) == Walked([])
  {
  }

  lemma FramedFirst(ss: seq<Structure>, tail: seq<byte>)
    requires Framed(ss, tail) && ss != []
    ensures WellFormed(ss[0]) && |ss[0].formatted| >= 4
    ensures if ss[0].formatted[0] == END then ss[1..] == [] else Framed(ss[1..], tail)
  {
  }

  /** The first string, cut off. */
  lemma CutString(t: seq<byte>, acc: seq<seq<byte>>) returns (s: seq<byte>, more: seq<byte>)
    requires StringsFrom(t, acc).Strings? && t[0] != 0
    ensures t == s + ([0] + more) && s != [] && 0 !in s
    ensures StringsFrom(t, acc) ==
      if more != [] && more[0] == 0 then Strings(acc + [s], more[1..]) else StringsFrom(more, acc + [s])
  {
    hide StringsFrom, Nul;
    var end := Nul(t);
    assert t[0..] == t;
    Advance(t, 0, acc);
    s, more := t[..end], t[end + 1..];
    NulStep(t, 0);
    assert t[end] == 0;
    OneString(s, more, acc);
  }

  lemma {:induction false} StringsWritten(t: seq<byte>, acc: seq<seq<byte>>) returns (strs: seq<seq<byte>>)
    requires StringsFrom(t, acc).Strings? && t[0] != 0
    ensures strs != [] && Texts(strs) && StringsFrom(t, acc).strs == acc + strs
    ensures t == Terminated(strs) + ([0] + StringsFrom(t, acc).rest)
    decreases |t|
  {
    hide StringsFrom, Terminated;
    var s, more := CutString(t, acc);
    if more != [] && more[0] == 0 {
      strs := [s];
      TerminatedCons(s, [], more[1..]);
      TerminatedStarts([], more[1..]);
      assert strs == [s] + [];
      assert more == [0] + more[1..];
    } else {
      StringsNeedBytes(more, acc + [s]);
      var others := StringsWritten(more, acc + [s]);
      strs := [s] + others;
      TerminatedCons(s, others, StringsFrom(more, acc + [s]).rest);
      assert acc + [s] + others == acc + strs;
    }
  }

  lemma StringsNeedBytes(t: seq<byte>, acc: seq<seq<byte>>)
    requires StringsFrom(t, acc).Strings?
    ensures t != []
  {
  }

  lemma SetWritten(t: seq<byte>, s: Structure)
    requires StringsFrom(t, []).Strings? && s.strs == StringsFrom(t, []).strs
    ensures Texts(s.strs) && t == StringBytes(s) + StringsFrom(t, []).rest
  {
    if t[0] == 0 {
      assert t == [0, 0] + t[2..];
    } else {
      var strs := StringsWritten(t, []);
      assert [] + strs == strs;
    }
  }

  lemma FramedCons(s: Structure, ss: seq<Structure>, tail: seq<byte>)
    requires WellFormed(s) && if s.formatted[0] == END then ss == [] else Framed(ss, tail)
    ensures Framed([s] + ss, tail)
  {
  }

  /** What the walk accepts is an encoding of what it gives. */
  lemma {:induction false} WalkWrites(t: seq<byte>, off: nat) returns (tail: seq<byte>)
    requires Walk(t, off).Walked?
    ensures t == EncodeAll(Walk(t, off).ss) + tail && Framed(Walk(t, off).ss, tail)
    decreases |t|
  {
    hide StringsFrom, StringBytes, EncodeAll, Framed, Texts;
    if |t| < 4 {
      tail := t;
      Nothing(tail);
    } else {
      var n := t[1];
      var r := StringsFrom(t[n..], []);
      var s := Structure(t[..n], r.strs);
      SetWritten(t[n..], s);
      assert t == t[..n] + t[n..] == Encode(s) + r.rest;
      if t[0] == END {
        tail := r.rest;
        Nothing(tail);
        EncodeCons(s, [], tail);
        FramedCons(s, [], tail);
        assert [s] + [] == [s];
      } else {
        var ss := Walk(r.rest, off + |t| - |r.rest|).ss;
        tail := WalkWrites(r.rest, off + |t| - |r.rest|);
        EncodeCons(s, ss, tail);
        FramedCons(s, ss, tail);
      }
    }
  }

  lemma Nothing(tail: seq<byte>)
    ensures EncodeAll([]) + tail == tail && (|tail| < 4 ==> Framed([], tail))
  {
  }

  /** A table is accepted as these structures if and only if it is their encoding. */
  lemma WalkExactly(t: seq<byte>, ss: seq<Structure>)
    ensures Walk(t, 0) == Walked(ss) <==> exists tail :: t == EncodeAll(ss) + tail && Framed(ss, tail)
  {
    if Walk(t, 0) == Walked(ss) {
      var tail := WalkWrites(t, 0);
    }
    if exists tail :: t == EncodeAll(ss) + tail && Framed(ss, tail) {
      var tail :| t == EncodeAll(ss) + tail && Framed(ss, tail);
      WalkReads(ss, tail, 0);
    }
  }

  /* ----- the identity view ----- */

  /** The text of a system UUID, and three strings as raw bytes. */
  datatype Identity = Identity(uuid: string, systemSerial: seq<byte>, boardSerial: seq<byte>, chassisAsset: seq<byte>)

  const NOBODY := Identity("", [], [], [])

  /** The string that the 1-based index at `at` names; none for index 0 or one past the set. */
  function Str(s: Structure, at: nat): seq<byte> {
    if at >= |s.formatted| then []
    else
      var n := s.formatted[at];
      if n == 0 || n > |s.strs| then [] else s.strs[n - 1]
  }

  /** From version 2.6 on, the first three UUID fields are little-endian. */
  predicate Swaps(major: int, minor: int) {
    major > 2 || (major == 2 && minor >= 6)
  }

  function FormatUUID(b: seq<byte>, swap: bool): string
    requires |b| == 16
  {
    (if swap then Hex(Le32(b, 0), 8) + "-" + Hex(Le16(b, 4), 4) + "-" + Hex(Le16(b, 6), 4)
     else Hex(Be32(b, 0), 8) + "-" + Hex(Be16(b, 4), 4) + "-" + Hex(Be16(b, 6), 4))
    + "-" + HexBytes(b[8..10]) + "-" + HexBytes(b[10..16])
  }

  function HexBytes(b: seq<byte>): string {
    if b == [] then "" else HexBytes(b[..|b| - 1]) + Hex(b[|b| - 1], 2)
  }

  function Type(s: Structure): byte {
    if s.formatted == [] then END else s.formatted[0]
  }

  function Read(id: Identity, s: Structure, swap: bool): Identity {
    var typ := Type(s);
    if typ == SYSTEM then
      id.(uuid := if |s.formatted| >= 0x19 then FormatUUID(s.formatted[0x08..0x18], swap) else id.uuid,
          systemSerial := Str(s, 0x07))
    else if typ == BASEBOARD then id.(boardSerial := Str(s, 0x07))
    else if typ == CHASSIS then id.(chassisAsset := Str(s, 0x08))
    else id
  }

  function ReadAll(id: Identity, ss: seq<Structure>, swap: bool): Identity
    decreases |ss|
  {
    if ss == [] then id else ReadAll(Read(id, ss[0], swap), ss[1..], swap)
  }

  datatype Parsed = Parsed(id: Identity) | Bad(why: Refusal)

  /** What a table gives: its structures' fields one after another, or its refusal. */
  function Identify(id: Identity, w: Walked, swap: bool): Parsed {
    match w
    case Refused(e) => Bad(e)
    case Walked(ss) => Parsed(ReadAll(id, ss, swap))
  }

  /** What the walk finds at an offset, one structure at a time. */
  lemma WalkStep(t: seq<byte>, off: nat)
    requires off <= |t|
    ensures off + 4 > |t| ==> Walk(t[off..], off) == Walked([])
    ensures off + 4 <= |t| && (t[off + 1] < 4 || off + t[off + 1] > |t|) ==>
      Walk(t[off..], off) == Refused(BadLength(t[off + 1], off))
  {
  }

  lemma WalkNext(t: seq<byte>, off: nat, r: StringSet, next: nat)
    requires off + 4 <= |t| && 4 <= t[off + 1] && off + t[off + 1] <= |t|
    requires StringsFrom(t[off + t[off + 1]..], []) == r && (r.Strings? ==> next <= |t| && r.rest == t[next..])
    ensures r.BadSet? ==> Walk(t[off..], off) == Refused(r.why)
    ensures r.Strings? ==>
      var s := Structure(t[off..off + t[off + 1]], r.strs);
      var w := Walk(t[next..], next);
      Walk(t[off..], off) ==
        if t[off] == END then Walked([s]) else if w.Refused? then w else Walked([s] + w.ss)
  {
    hide StringsFrom;
    var u, n := t[off..], t[off + 1];
    assert u[n..] == t[off + n..] && u[..n] == t[off..off + n];
    if r.Strings? {
      assert off + |u| - |r.rest| == next;
    }
  }

  lemma ReadCons(id: Identity, s: Structure, ss: seq<Structure>, swap: bool)
    ensures ReadAll(id, [s] + ss, swap) == ReadAll(Read(id, s, swap), ss, swap)
  {
    assert ([s] + ss)[1..] == ss;
  }

  /** The identity that a table of this version gives. */
  function IdentityOf(table: seq<byte>, major: int, minor: int): Parsed {
    Identify(NOBODY, Walk(table, 0), Swaps(major, minor))
  }

  method Parse(table: seq<byte>, major: int, minor: int) returns (r: Parsed)
    ensures r == IdentityOf(table, major, minor)
  {
    hide Walk, StringsFrom, Read, ReadAll;
    var id, swap, off := NOBODY, Swaps(major, minor), 0;
    ghost var goal := Identify(id, Walk(table, 0), swap);
    assert table[0..] == table;
    while off + 4 <= |table|
      invariant off <= |table| && goal == Identify(id, Walk(table[off..], off), swap)
    {
      WalkStep(table, off);
      var typ, length := table[off], table[off + 1];
      if length < 4 || off + length > |table| {
        return Bad(BadLength(length, off));
      }
      var formatted := table[off..off + length];
      var strs, next, why := ReadStrings(table, off + length);
      if why.Some? {
        WalkNext(table, off, BadSet(why.value), 0);
        return Bad(why.value);
      }
      WalkNext(table, off, Strings(strs, table[next..]), next);
      var s := Structure(formatted, strs);
      if Walk(table[next..], next).Walked? {
        ReadCons(id, s, Walk(table[next..], next).ss, swap);
      }
      ReadCons(id, s, [], swap);
      ReadNone(Read(id, s, swap), swap);
      assert [s] + [] == [s];
      id := ReadOne(id, s, swap);
      if typ == END {
        return Parsed(id);
      }
      off := next;
    }
    WalkStep(table, off);
    ReadNone(id, swap);
    r := Parsed(id);
  }

  lemma ReadNone(id: Identity, swap: bool)
    ensures ReadAll(id, [], swap) == id
  {
  }

  /** One structure's fields, put into the identity. */
  method ReadOne(id: Identity, s: Structure, swap: bool) returns (r: Identity)
    requires s.formatted != []
    ensures r == Read(id, s, swap)
  {
    r := id;
    match s.formatted[0] {
      case 1 =>
        if |s.formatted| >= 0x19 {
          r := r.(uuid := FormatUUID(s.formatted[0x08..0x18], swap));
        }
        r := r.(systemSerial := Str(s, 0x07));
      case 2 => r := r.(boardSerial := Str(s, 0x07));
      case 3 => r := r.(chassisAsset := Str(s, 0x08));
      case _ =>
    }
  }

  /* ----- the last structure wins ----- */

  predicate Is(s: Structure, typ: byte, min: nat) {
    Type(s) == typ && |s.formatted| >= min
  }

  predicate NoneAfter(ss: seq<Structure>, i: int, typ: byte, min: nat)
    requires 0 <= i
  {
    forall j :: i < j < |ss| ==> !Is(ss[j], typ, min)
  }

  /** The last structure of a type that is at least so long. */
  function Last(ss: seq<Structure>, typ: byte, min: nat): (r: Option<Structure>)
    ensures r.Some? ==> Is(r.value, typ, min)
  {
    if ss == [] then None
    else
      var k := |ss| - 1;
      if Is(ss[k], typ, min) then Some(ss[k]) else Last(ss[..k], typ, min)
  }

  lemma {:induction false} LastIsLast(ss: seq<Structure>, typ: byte, min: nat)
    ensures var r := Last(ss, typ, min);
      if r.None? then forall i :: 0 <= i < |ss| ==> !Is(ss[i], typ, min)
      else exists i :: 0 <= i < |ss| && ss[i] == r.value && NoneAfter(ss, i, typ, min)
  {
    if ss != [] {
      var k := |ss| - 1;
      if Is(ss[k], typ, min) {
        assert NoneAfter(ss, k, typ, min);
      } else {
        LastIsLast(ss[..k], typ, min);
        var r := Last(ss, typ, min);
        if r.Some? {
          var i :| 0 <= i < k && ss[..k][i] == r.value && NoneAfter(ss[..k], i, typ, min);
          assert ss[i] == r.value && forall j :: i < j < k ==> ss[..k][j] == ss[j];
          assert NoneAfter(ss, i, typ, min);
        } else {
          assert forall i :: 0 <= i < k ==> ss[..k][i] == ss[i];
        }
      }
    }
  }

  function StrOf(s: Option<Structure>, at: nat): seq<byte> {
    if s.None? then [] else Str(s.value, at)
  }

  /** The fields of the last system, baseboard and chassis, and the UUID of the last system that has one. */
  function LastFields(ss: seq<Structure>, swap: bool): Identity {
    var sys, long := Last(ss, SYSTEM, 0), Last(ss, SYSTEM, 0x19);
    Identity(if long.None? then "" else FormatUUID(long.value.formatted[0x08..0x18], swap),
             StrOf(sys, 0x07), StrOf(Last(ss, BASEBOARD, 0), 0x07), StrOf(Last(ss, CHASSIS, 0), 0x08))
  }

  lemma {:induction false} ReadSnoc(id: Identity, ss: seq<Structure>, s: Structure, swap: bool)
    ensures ReadAll(id, ss + [s], swap) == Read(ReadAll(id, ss, swap), s, swap)
    decreases |ss|
  {
    hide Read;
    if ss == [] {
      assert ss + [s] == [s] && [s][1..] == ss;
    } else {
      assert (ss + [s])[1..] == ss[1..] + [s];
      ReadSnoc(Read(id, ss[0], swap), ss[1..], s, swap);
    }
  }

  lemma {:induction false} LastWins(ss: seq<Structure>, swap: bool)
    ensures ReadAll(NOBODY, ss, swap) == LastFields(ss, swap)
  {
    if ss != [] {
      var k := |ss| - 1;
      hide FormatUUID, ReadAll, Str;
      assert ss == ss[..k] + [ss[k]];
      ReadSnoc(NOBODY, ss[..k], ss[k], swap);
      LastWins(ss[..k], swap);
    }
  }

  /** The identity of an encoded table is what its last system, baseboard and chassis say. */
  lemma IdentityOfEncoding(ss: seq<Structure>, tail: seq<byte>, swap: bool)
    requires Framed(ss, tail)
    ensures Identify(NOBODY, Walk(EncodeAll(ss) + tail, 0), swap) == Parsed(LastFields(ss, swap))
  {
    WalkReads(ss, tail, 0);
    LastWins(ss, swap);
  }

  /* ----- the UUID's byte order ----- */

  /** How firmware stores the UUID bytes u. */
  function Stored(u: seq<byte>, swap: bool): seq<byte>
    requires |u| == 16
  {
    if swap then [u[3], u[2], u[1], u[0], u[5], u[4], u[7], u[6]] + u[8..] else u
  }

  /** The bytes in order, grouped 4-2-2-2-6. */
  function Dashed(u: seq<byte>): string
    requires |u| == 16
  {
    HexBytes(u[..4]) + "-" + HexBytes(u[4..6]) + "-" + HexBytes(u[6..8]) + "-" +
    HexBytes(u[8..10]) + "-" + HexBytes(u[10..])
  }

  lemma HexBytes2(b: seq<byte>)
    requires |b| == 2
    ensures HexBytes(b) == Hex(Be16(b, 0), 4)
  {
    hide Hex;
    HexPair(b[0], b[1], 2);
    assert b[..1] == [b[0]] && b[..1][..0] == [];
    assert HexBytes(b[..1]) == "" + Hex(b[0], 2) == Hex(b[0], 2);
  }

  lemma HexBytes4(b: seq<byte>)
    requires |b| == 4
    ensures HexBytes(b) == Hex(Be32(b, 0), 8)
  {
    hide Hex;
    HexBytes2(b[..2]);
    var n := Be16(b, 0);
    HexPair(n, b[2], 4);
    HexPair(0x100 * n + b[2], b[3], 6);
    assert b[..3][..2] == b[..2];
    assert HexBytes(b[..3]) == Hex(n, 4) + Hex(b[2], 2);
    assert Be32(b, 0) == 0x100 * (0x100 * n + b[2]) + b[3];
  }

  /** Whatever the version, the printed UUID is the bytes in their order. */
  lemma UuidOrder(u: seq<byte>, swap: bool)
    requires |u| == 16
    ensures |Stored(u, swap)| == 16 && FormatUUID(Stored(u, swap), swap) == Dashed(u)
  {
    hide Hex, HexBytes;
    var b := Stored(u, swap);
    HexBytes4(u[..4]);
    HexBytes2(u[4..6]);
    HexBytes2(u[6..8]);
    assert Be32(u[..4], 0) == if swap then Le32(b, 0) else Be32(b, 0);
    assert Be16(u[4..6], 0) == if swap then Le16(b, 4) else Be16(b, 4);
    assert Be16(u[6..8], 0) == if swap then Le16(b, 6) else Be16(b, 6);
    assert b[8..10] == u[8..10] && b[10..16] == u[10..];
  }
}

/** The text of a cron expression: five fields, each a comma list of `*`, `*`/n, a, a-b or a-b/n. The
    step loop is modelled with the 64-bit integers it runs on. */
module CronText {
  import opened Wrappers
  import opened Cron

  /* ----- library functions on strings ----- */

  function Index(s: string, c: char): (i: nat)
    ensures i <= |s| && c !in s[..i] && (i < |s| ==> s[i] == c)
  {
    if s == [] || s[0] == c then 0
    else
      var i := 1 + Index(s[1..], c);
      assert s[..i] == [s[0]] + s[1..][..i - 1];
      i
  }

  /** strings.Split on one character. */
  function Split(s: string, c: char): (parts: seq<string>)
    ensures |parts| > 0
    decreases |s|
  {
    var i := Index(s, c);
    if i == |s| then [s] else [s[..i]] + Split(s[i + 1..], c)
  }

  function Digits(s: string): Option<nat> {
    if s == [] then Some(0)
    else if !('0' <= s[|s| - 1] <= '9') then None
    else
      match Digits(s[..|s| - 1])
      case None => None
      case Some(n) => Some(10 * n + (s[|s| - 1] - '0') as nat)
  }

  /** strconv.Atoi: an optional sign, at least one digit, and a value that fits 64 bits. */
  function Atoi(s: string): Option<int> {
    var signed := s != [] && (s[0] == '-' || s[0] == '+');
    var body := if signed then s[1..] else s;
    if body == [] then None
    else
      match Digits(body)
      case None => None
      case Some(n) =>
        var v := if signed && s[0] == '-' then -(n as int) else n as int;
        if -TWO63 <= v < TWO63 then Some(v) else None
  }

  predicate IsSpace(c: char) {
    c == '\t' || c == '\n' || c == '\U{0B}' || c == '\U{0C}' || c == '\r' || c == ' ' || c == '\U{85}' ||
    c == '\U{A0}' || c == '\U{1680}' || '\U{2000}' <= c <= '\U{200A}' || c == '\U{2028}' || c == '\U{2029}' ||
    c == '\U{202F}' || c == '\U{205F}' || c == '\U{3000}'
  }

  /** strings.Fields, with the word read so far. */
  function FieldsFrom(s: string, word: string): seq<string> {
    if s == [] then (if word == [] then [] else [word])
    else if IsSpace(s[0]) then (if word == [] then [] else [word]) + FieldsFrom(s[1..], [])
    else FieldsFrom(s[1..], word + [s[0]])
  }

  function Fields(s: string): seq<string> {
    FieldsFrom(s, [])
  }

  /* ----- the step loop ----- */

  /** The values a step loop passes through: ordinary ones, and, for a step so large that adding it
      overflows, the far negative one in between and the small negative one it may end on. */
  predicate OnPath(v: int, step: int) {
    v >= 0 ||
    (step > TWO63 / 2 && ((-TWO63 <= v < -TWO63 / 2 && -60 <= v + step <= 59) || -60 <= v))
  }

  predicate Bounds(hi: int, step: int) {
    0 <= hi <= 59 && 1 <= step < TWO63
  }

  function Left(v: int, hi: int, step: int): nat {
    if v > hi then 0
    else if step <= TWO63 / 2 then (if v < 0 then 0 else hi - v + 1)
    else if v >= 0 then 4 + 2 * v
    else if v < -60 then (if v + step >= 0 then 5 + 2 * (v + step) else 2)
    else 1
  }

  /** One round: on the path again, and closer to the end. */
  lemma OneRound(v: int, hi: int, step: int)
    requires Bounds(hi, step) && OnPath(v, step) && v <= hi
    ensures OnPath(Plus64(v, step), step) && Left(Plus64(v, step), hi, step) < Left(v, hi, step)
  {
  }

  /** The bits that `for v <= hi { bits |= 1 << v; v += step }` sets from v on. */
  function LoopBits(v: int, hi: int, step: int): set<nat>
    requires Bounds(hi, step) && OnPath(v, step)
    decreases Left(v, hi, step)
  {
    if v > hi then {}
    else
      OneRound(v, hi, step);
      (if v >= 0 then {v} else {}) + LoopBits(Plus64(v, step), hi, step)
  }

  /** lo, lo + step, lo + 2 * step and so on up to hi. */
  function Stepped(lo: nat, hi: int, step: int): set<nat>
    requires step >= 1
    decreases hi - lo
  {
    if lo > hi then {} else {lo} + Stepped(lo + step, hi, step)
  }

  lemma {:induction false} SteppedMembers(lo: nat, hi: int, step: nat, x: nat)
    requires step >= 1
    ensures x in Stepped(lo, hi, step) <==> lo <= x <= hi && exists k: nat :: x == lo + k * step
    decreases hi - lo
  {
    if lo <= hi {
      SteppedMembers(lo + step, hi, step, x);
      if x == lo {
        assert x == lo + 0 * step;
      }
      if exists k: nat :: x == lo + step + k * step {
        var k: nat :| x == lo + step + k * step;
        assert x == lo + (k + 1) * step;
      }
      if x != lo && exists k: nat :: x == lo + k * step {
        var k: nat :| x == lo + k * step;
        assert x == lo + step + (k - 1) * step;
      }
    }
  }

  /** What a loop that overflows sets besides: steps of `gap` down from v. */
  function Spilled(v: nat, gap: int): set<nat>
    requires gap >= 2
    decreases v
  {
    if v < gap then {} else {v - gap} + Spilled(v - gap, gap)
  }

  /** Exactly what the loop sets. A step within 60 of 2^63 wraps round and comes back below lo. */
  lemma {:induction false} LoopSets(lo: nat, hi: nat, step: int)
    requires Bounds(hi, step) && lo <= hi
    ensures LoopBits(lo, hi, step) == Stepped(lo, hi, step) + Spilled(lo, 2 * (TWO63 - step))
    decreases Left(lo, hi, step)
  {
    OneRound(lo, hi, step);
    var v := Plus64(lo, step);
    if lo + step < TWO63 {
      assert Spilled(lo, 2 * (TWO63 - step)) == {};
      if v <= hi {
        LoopSets(v, hi, step);
        assert Spilled(v, 2 * (TWO63 - step)) == {};
      }
    } else {
      OneRound(v, hi, step);
      var u := Plus64(v, step);
      assert u == lo - 2 * (TWO63 - step);
      assert LoopBits(v, hi, step) == LoopBits(u, hi, step);
      if u >= 0 {
        LoopSets(u, hi, step);
        assert Stepped(u, hi, step) == {u} + Stepped(u + step, hi, step);
      } else {
        OneRound(u, hi, step);
        assert LoopBits(u, hi, step) == LoopBits(u + step, hi, step);
      }
    }
  }

  /** The loop sets exactly the stepped range just when the step leaves room below 2^63. */
  lemma LoopIsSteppedExactly(lo: nat, hi: nat, step: int)
    requires Bounds(hi, step) && lo <= hi
    ensures LoopBits(lo, hi, step) == Stepped(lo, hi, step) <==> lo < 2 * (TWO63 - step)
  {
    LoopSets(lo, hi, step);
    var gap := 2 * (TWO63 - step);
    if lo >= gap {
      assert lo - gap in LoopBits(lo, hi, step);
      SteppedMembers(lo, hi, step, lo - gap);
    }
  }

  /** The input that shows it: `3-5/9223372036854775807` also sets bit 1. */
  lemma SpillExample()
    ensures LoopBits(3, 5, TWO63 - 1) == {3, 1}
  {
    LoopSets(3, 5, TWO63 - 1);
    assert Spilled(3, 2) == {1} + Spilled(1, 2);
  }

  method AddRange(bits: set<nat>, lo: nat, hi: nat, step: int) returns (r: set<nat>)
    requires Bounds(hi, step) && lo <= hi
    ensures r == bits + LoopBits(lo, hi, step)
  {
    r := bits;
    var v: int := lo;
    while v <= hi
      invariant OnPath(v, step)
      invariant r + LoopBits(v, hi, step) == bits + LoopBits(lo, hi, step)
      decreases Left(v, hi, step)
    {
      OneRound(v, hi, step);
      // A shift by a negative count, read as unsigned, leaves nothing.
      if v >= 0 {
        r := r + {v};
      }
      v := Plus64(v, step);
    }
  }

  /* ----- items, fields, expressions ----- */

  datatype Range = Range(lo: nat, hi: nat)

  const MINUTES := Range(0, 59)
  const HOURS := Range(0, 23)
  const DAYS := Range(1, 31)
  const MONTHS := Range(1, 12)
  const WEEKDAYS := Range(0, 7)

  datatype Item = Item(lo: nat, hi: nat, step: int, any: bool)

  predicate ItemOk(it: Item, f: Range) {
    f.lo <= it.lo <= it.hi <= f.hi && 1 <= it.step < TWO63 &&
    (it.any ==> it.lo == f.lo && it.hi == f.hi && it.step == 1)
  }

  /** Bounds that the field admits. */
  function InRange(lo: int, hi: int, step: int, any: bool, f: Range): Option<Item> {
    if lo < f.lo || hi > f.hi || lo > hi then None else Some(Item(lo, hi, step, any))
  }

  function ParseStepped(body: string, step: int, f: Range): Option<Item> {
    if body == "*" then InRange(f.lo, f.hi, step, step == 1, f)
    else
      var dash := Index(body, '-');
      if dash < |body| then
        var a, b := Atoi(body[..dash]), Atoi(body[dash + 1..]);
        if a.None? || b.None? then None else InRange(a.value, b.value, step, false, f)
      else
        var n := Atoi(body);
        if n.None? || step > 1 then None else InRange(n.value, n.value, step, false, f)
  }

  /** One item of a field: `*`, a number or a range, with a step where that is allowed. */
  function ParseItem(item: string, f: Range): (r: Option<Item>)
    ensures r.Some? ==> ItemOk(r.value, f)
  {
    var slash := Index(item, '/');
    if slash == |item| then ParseStepped(item, 1, f)
    else
      var n := Atoi(item[slash + 1..]);
      if n.None? || n.value < 1 then None
      else ParseStepped(item[..slash], n.value, f)
  }

  function ItemBits(it: Item, f: Range): set<nat>
    requires ItemOk(it, f) && f.hi <= 59
  {
    LoopBits(it.lo, it.hi, it.step)
  }

  /** The items of a field, if all of them parse. */
  function ParseItems(parts: seq<string>, f: Range): (r: Option<seq<Item>>)
    ensures r.Some? ==> |r.value| == |parts| && forall it :: it in r.value ==> ItemOk(it, f)
  {
    if parts == [] then Some([])
    else
      var first, rest := ParseItem(parts[0], f), ParseItems(parts[1..], f);
      if first.None? || rest.None? then None else Some([first.value] + rest.value)
  }

  function Union(items: seq<Item>, f: Range): set<nat>
    requires f.hi <= 59 && forall it :: it in items ==> ItemOk(it, f)
  {
    if items == [] then {} else Union(items[..|items| - 1], f) + ItemBits(items[|items| - 1], f)
  }

  lemma {:induction false} ParseItemsAt(parts: seq<string>, f: Range, k: nat)
    requires k < |parts|
    ensures ParseItem(parts[k], f).None? ==> ParseItems(parts, f).None?
    ensures ParseItems(parts, f).Some? ==> ParseItem(parts[k], f) == Some(ParseItems(parts, f).value[k])
  {
    hide ParseItem, ItemOk;
    if k > 0 {
      assert parts[1..][k - 1] == parts[k];
      ParseItemsAt(parts[1..], f, k - 1);
    }
  }

  function AnyStar(items: seq<Item>): bool {
    items != [] && (AnyStar(items[..|items| - 1]) || items[|items| - 1].any)
  }

  /** A field's bits are the union of what its items set; it fails when an item does; and it is `any`
      when an item is a bare star. */
  function FieldOf(s: string, f: Range): Option<(set<nat>, bool)>
    requires f.hi <= 59
  {
    var items := ParseItems(Split(s, ','), f);
    if items.None? then None else Some((Union(items.value, f), AnyStar(items.value)))
  }

  lemma UnionSnoc(items: seq<Item>, f: Range, i: nat)
    requires f.hi <= 59 && i < |items| && forall it :: it in items ==> ItemOk(it, f)
    ensures Union(items[..i + 1], f) == Union(items[..i], f) + ItemBits(items[i], f)
    ensures AnyStar(items[..i + 1]) == (AnyStar(items[..i]) || items[i].any)
  {
    assert items[..i + 1][..i] == items[..i];
  }

  lemma FieldGrows(parts: seq<string>, f: Range, i: nat)
    requires f.hi <= 59 && i < |parts| && ParseItem(parts[i], f).Some?
    ensures ParseItems(parts, f).Some? ==>
      var items, it := ParseItems(parts, f).value, ParseItem(parts[i], f).value;
      && Union(items[..i + 1], f) == Union(items[..i], f) + LoopBits(it.lo, it.hi, it.step)
      && AnyStar(items[..i + 1]) == (AnyStar(items[..i]) || it.any)
  {
    ParseItemsAt(parts, f, i);
    if ParseItems(parts, f).Some? {
      UnionSnoc(ParseItems(parts, f).value, f, i);
    }
  }

  lemma NoItems(f: Range)
    requires f.hi <= 59
    ensures Union([], f) == {} && !AnyStar([])
  {
  }

  lemma ItemRange(item: string, f: Range)
    requires f.hi <= 59 && ParseItem(item, f).Some?
    ensures var it := ParseItem(item, f).value; it.lo <= it.hi && Bounds(it.hi, it.step)
  {
  }

  method ParseField(s: string, f: Range) returns (r: Option<(set<nat>, bool)>)
    requires f.hi <= 59
    ensures r == FieldOf(s, f)
  {
    hide ParseItem, ParseItems, ItemOk, Union, AnyStar, LoopBits, Split;
    var parts := Split(s, ',');
    ghost var items := ParseItems(parts, f);
    var bits, any := {}, false;
    NoItems(f);
    for i := 0 to |parts|
      invariant items.Some? ==> bits == Union(items.value[..i], f) && any == AnyStar(items.value[..i])
      invariant forall k :: 0 <= k < i ==> ParseItem(parts[k], f).Some?
    {
      var it := ParseItem(parts[i], f);
      if it.None? {
        ParseItemsAt(parts, f, i);
        return None;
      }
      FieldGrows(parts, f, i);
      ItemRange(parts[i], f);
      bits := AddRange(bits, it.value.lo, it.value.hi, it.value.step);
      if it.value.any {
        any := true;
      }
    }
    AllParse(parts, f);
    assert items.value[..|parts|] == items.value;
    return Some((bits, any));
  }

  lemma {:induction false} AllParse(parts: seq<string>, f: Range)
    requires forall k :: 0 <= k < |parts| ==> ParseItem(parts[k], f).Some?
    ensures ParseItems(parts, f).Some?
  {
    if parts != [] {
      assert forall k :: 0 <= k < |parts[1..]| ==> parts[1..][k] == parts[k + 1];
      AllParse(parts[1..], f);
    }
  }

  lemma {:induction false} UnionMembers(items: seq<Item>, f: Range, x: nat)
    requires f.hi <= 59 && forall it :: it in items ==> ItemOk(it, f)
    ensures x in Union(items, f) <==> exists i :: 0 <= i < |items| && x in ItemBits(items[i], f)
  {
    if items != [] {
      var n := |items| - 1;
      UnionMembers(items[..n], f, x);
      if exists i :: 0 <= i < |items| && x in ItemBits(items[i], f) {
        var i :| 0 <= i < |items| && x in ItemBits(items[i], f);
        if i < n {
          assert items[..n][i] == items[i];
        }
      }
      if exists i :: 0 <= i < n && x in ItemBits(items[..n][i], f) {
        var i :| 0 <= i < n && x in ItemBits(items[..n][i], f);
        assert items[..n][i] == items[i];
      }
    }
  }

  /** The values an item names: lo, then every step up to hi. */
  ghost predicate Names(it: Item, x: nat) {
    exists k: nat :: x == it.lo + k * it.step && x <= it.hi
  }

  /** The step leaves room below 2^63. */
  predicate Roomy(it: Item) {
    it.lo < 2 * (TWO63 - it.step)
  }

  lemma ItemDenotes(it: Item, f: Range, x: nat)
    requires f.hi <= 59 && ItemOk(it, f) && Roomy(it)
    ensures x in ItemBits(it, f) <==> Names(it, x)
  {
    hide LoopBits, Stepped;
    LoopIsSteppedExactly(it.lo, it.hi, it.step);
    SteppedMembers(it.lo, it.hi, it.step, x);
    forall k: nat
      ensures it.lo + k * it.step >= it.lo
    {
    }
  }

  /** A field denotes the union of its items' stepped ranges, whenever every step leaves room below 2^63. */
  lemma FieldDenotes(items: seq<Item>, f: Range, x: nat)
    requires f.hi <= 59 && forall it :: it in items ==> ItemOk(it, f) && Roomy(it)
    ensures x in Union(items, f) <==> exists i :: 0 <= i < |items| && Names(items[i], x)
  {
    UnionMembers(items, f, x);
    forall i | 0 <= i < |items|
      ensures x in ItemBits(items[i], f) <==> Names(items[i], x)
    {
      ItemDenotes(items[i], f, x);
    }
  }

  function FieldRange(i: nat): (f: Range)
    ensures f.hi <= 59
  {
    if i == 0 then MINUTES else if i == 1 then HOURS else if i == 2 then DAYS else if i == 3 then MONTHS else WEEKDAYS
  }

  /** Bit 7 of the weekdays is Sunday like bit 0. */
  function Folded(bits: set<nat>): set<nat> {
    if 7 in bits then bits + {0} else bits
  }

  type Field = (set<nat>, bool)

  function FieldAt(s: string, k: nat): Option<Field> {
    FieldOf(s, FieldRange(k))
  }

  /** Reads the parts one after another; `read` knows the range of each place. */
  function ReadAll(read: (string, nat) -> Option<Field>, parts: seq<string>): (r: Option<seq<Field>>)
    ensures r.Some? ==> |r.value| == |parts|
  {
    if parts == [] then Some([])
    else
      var k := |parts| - 1;
      var rest, last := ReadAll(read, parts[..k]), read(parts[k], k);
      if rest.None? || last.None? then None else Some(rest.value + [last.value])
  }

  function Assemble(r: Option<seq<Field>>): Option<Cron> {
    if r.None? || |r.value| != 5 then None
    else
      var v := r.value;
      Some(Cron(v[0].0, v[1].0, v[2].0, v[3].0, Folded(v[4].0), v[2].1, v[4].1))
  }

  function ParseOf(expr: string): Option<Cron> {
    Assemble(ReadAll(FieldAt, Fields(expr)))
  }

  lemma {:induction false} ReadAllAt(read: (string, nat) -> Option<Field>, parts: seq<string>, k: nat)
    requires k < |parts|
    ensures read(parts[k], k).None? ==> ReadAll(read, parts).None?
    ensures ReadAll(read, parts).Some? ==> read(parts[k], k) == Some(ReadAll(read, parts).value[k])
  {
    if k < |parts| - 1 {
      ReadAllAt(read, parts[..|parts| - 1], k);
    }
  }

  lemma {:induction false} ReadAllSucceeds(read: (string, nat) -> Option<Field>, parts: seq<string>, v: seq<Field>)
    requires |v| == |parts| && forall k :: 0 <= k < |parts| ==> read(parts[k], k) == Some(v[k])
    ensures ReadAll(read, parts) == Some(v)
  {
    if parts != [] {
      var k := |parts| - 1;
      ReadAllSucceeds(read, parts[..k], v[..k]);
      assert v == v[..k] + [v[k]];
    }
  }

  method Parse(expr: string) returns (r: Option<Cron>)
    ensures r == ParseOf(expr)
  {
    hide FieldOf, Fields, ReadAll;
    var parts := Fields(expr);
    if |parts| != 5 {
      return None;
    }
    var sets: seq<set<nat>>, anyDom, anyDow := [], false, false;
    ghost var got: seq<Field> := [];
    for i := 0 to 5
      invariant |sets| == |got| == i
      invariant forall k :: 0 <= k < i ==> FieldAt(parts[k], k) == Some(got[k])
      invariant forall k :: 0 <= k < i ==> sets[k] == if k == 4 then Folded(got[k].0) else got[k].0
      invariant (i > 2 ==> anyDom == got[2].1) && (i > 4 ==> anyDow == got[4].1)
    {
      var field := ParseField(parts[i], FieldRange(i));
      if field.None? {
        ReadAllAt(FieldAt, parts, i);
        return None;
      }
      got := got + [field.value];
      var bits := field.value.0;
      if i == 2 {
        anyDom := field.value.1;
      }
      if i == 4 {
        anyDow := field.value.1;
        if 7 in bits {
          bits := bits + {0};
        }
      }
      sets := sets + [bits];
    }
    ReadAllSucceeds(FieldAt, parts, got);
    r := Some(Cron(sets[0], sets[1], sets[2], sets[3], sets[4], anyDom, anyDow));
  }

  /** What a field that parses holds: something in its range, nothing past it, and everything if it is
      a bare star. */
  lemma {:induction false} UnionShape(items: seq<Item>, f: Range)
    requires f.hi <= 59 && forall it :: it in items ==> ItemOk(it, f)
    ensures items != [] ==> exists x :: x in Union(items, f) && x >= f.lo
    ensures forall x :: x in Union(items, f) ==> x <= f.hi
    ensures AnyStar(items) ==> forall x :: f.lo <= x <= f.hi ==> x in Union(items, f)
  {
    if items != [] {
      var n := |items| - 1;
      var it := items[n];
      assert it in items;
      UnionShape(items[..n], f);
      LoopSets(it.lo, it.hi, it.step);
      assert it.lo in Stepped(it.lo, it.hi, it.step);
      assert it.lo in Union(items, f);
      forall x | x in ItemBits(it, f)
        ensures x <= f.hi
      {
        SteppedMembers(it.lo, it.hi, it.step, x);
        SpilledBelow(it.lo, 2 * (TWO63 - it.step), x);
      }
      if it.any {
        forall x | f.lo <= x <= f.hi
          ensures x in Union(items, f)
        {
          SteppedMembers(it.lo, it.hi, it.step, x);
          assert x == it.lo + (x - it.lo) * it.step;
        }
      }
    }
  }

  lemma {:induction false} SpilledBelow(v: nat, gap: int, x: nat)
    requires gap >= 2
    ensures x in Spilled(v, gap) ==> x < v
    decreases v
  {
    if v >= gap {
      SpilledBelow(v - gap, gap, x);
    }
  }

  /** What a field that parses holds, in the field's own terms. */
  ghost predicate Sound(v: Field, f: Range) {
    && (exists x :: x in v.0 && x >= f.lo)
    && (forall x :: x in v.0 ==> x <= f.hi)
    && (v.1 ==> forall x :: f.lo <= x <= f.hi ==> x in v.0)
  }

  lemma FieldIsSound(s: string, f: Range)
    requires f.hi <= 59
    ensures FieldOf(s, f).Some? ==> Sound(FieldOf(s, f).value, f)
  {
    var items := ParseItems(Split(s, ','), f);
    if items.Some? {
      UnionShape(items.value, f);
    }
  }

  lemma SoundIsWellFormed(v: seq<Field>)
    requires |v| == 5 && forall k :: 0 <= k < 5 ==> Sound(v[k], FieldRange(k))
    ensures WellFormed(Cron(v[0].0, v[1].0, v[2].0, v[3].0, Folded(v[4].0), v[2].1, v[4].1))
  {
    assert Sound(v[0], MINUTES) && Sound(v[1], HOURS) && Sound(v[2], DAYS);
    assert Sound(v[3], MONTHS) && Sound(v[4], WEEKDAYS);
  }

  /** Whatever parses is well formed, whatever its text. */
  lemma ParsedIsWellFormed(expr: string)
    ensures ParseOf(expr).Some? ==> WellFormed(ParseOf(expr).value)
  {
    var parts := Fields(expr);
    var r := ReadAll(FieldAt, parts);
    if r.Some? && |r.value| == 5 {
      forall k | 0 <= k < 5
        ensures Sound(r.value[k], FieldRange(k))
      {
        ReadAllAt(FieldAt, parts, k);
        FieldIsSound(parts[k], FieldRange(k));
      }
      SoundIsWellFormed(r.value);
    }
  }

  /* ----- printing, and reading back ----- */

  function Itoa(n: nat): string
    requires n < 100
  {
    if n < 10 then [('0' as int + n) as char]
    else [('0' as int + n / 10) as char, ('0' as int + n % 10) as char]
  }

  function Join(parts: seq<string>, c: char): string {
    if parts == [] then []
    else if |parts| == 1 then parts[0]
    else parts[0] + [c] + Join(parts[1..], c)
  }

  /** The members of a set from v to hi, in order. */
  function Members(bits: set<nat>, v: nat, hi: nat): (ns: seq<nat>)
    ensures forall i :: 0 <= i < |ns| ==> ns[i] in bits && v <= ns[i] <= hi
    ensures forall n :: n in bits && v <= n <= hi ==> n in ns
    decreases if v <= hi then hi - v + 1 else 0, bits
  {
    if v > hi then [] else (if v in bits then [v] else []) + Members(bits, v + 1, hi)
  }

  function Texts(ns: seq<nat>): (ts: seq<string>)
    requires forall i :: 0 <= i < |ns| ==> ns[i] < 100
    ensures |ts| == |ns| && forall i :: 0 <= i < |ns| ==> ts[i] == Itoa(ns[i])
  {
    if ns == [] then [] else [Itoa(ns[0])] + Texts(ns[1..])
  }

  /** A set of values as a comma list of numbers. */
  function PrintField(bits: set<nat>, f: Range): string
    requires f.hi <= 59
  {
    Join(Texts(Members(bits, f.lo, f.hi)), ',')
  }

  lemma {:induction false} IndexFirst(s: string, c: char, i: nat)
    requires i <= |s| && c !in s[..i] && (i < |s| ==> s[i] == c)
    ensures Index(s, c) == i
  {
    if i > 0 {
      assert s[0] == s[..i][0];
      assert s[1..][..i - 1] == s[..i][1..];
      IndexFirst(s[1..], c, i - 1);
    }
  }

  lemma {:induction false} SplitJoin(parts: seq<string>, c: char)
    requires parts != [] && forall p :: p in parts ==> c !in p
    ensures Split(Join(parts, c), c) == parts
  {
    var s := Join(parts, c);
    assert parts[0] in parts;
    if |parts| == 1 {
      assert s[..|s|] == s;
      IndexFirst(s, c, |s|);
    } else {
      var i := |parts[0]|;
      assert s[..i] == parts[0];
      IndexFirst(s, c, i);
      assert s[i + 1..] == Join(parts[1..], c);
      SplitJoin(parts[1..], c);
    }
  }

  predicate IsDigit(c: char) {
    '0' <= c <= '9'
  }

  lemma AtoiItoa(n: nat)
    requires n < 100
    ensures Atoi(Itoa(n)) == Some(n) && Itoa(n) != [] && forall c :: c in Itoa(n) ==> IsDigit(c)
  {
    var s := Itoa(n);
    assert s[..|s| - 1] == if n < 10 then [] else [('0' as int + n / 10) as char];
    if n >= 10 {
      assert s[..1][..0] == [];
      assert Digits(s[..1]) == Some(n / 10);
    }
    assert Digits(s) == Some(n);
  }

  lemma NumberItem(n: nat, f: Range)
    requires f.lo <= n <= f.hi <= 59
    ensures ParseItem(Itoa(n), f) == Some(Item(n, n, 1, false))
    ensures ItemBits(Item(n, n, 1, false), f) == {n}
  {
    var s := Itoa(n);
    AtoiItoa(n);
    assert s[..|s|] == s;
    IndexFirst(s, '/', |s|);
    IndexFirst(s, '-', |s|);
    assert s != "*" by {
      assert s[0] in s;
    }
    LoopSets(n, n, 1);
  }

  function Numbers(ns: seq<nat>): (items: seq<Item>)
    ensures |items| == |ns| && forall i :: 0 <= i < |ns| ==> items[i] == Item(ns[i], ns[i], 1, false)
  {
    if ns == [] then [] else [Item(ns[0], ns[0], 1, false)] + Numbers(ns[1..])
  }

  lemma {:induction false} NumbersParse(ns: seq<nat>, f: Range)
    requires f.hi <= 59 && forall i :: 0 <= i < |ns| ==> f.lo <= ns[i] <= f.hi
    ensures ParseItems(Texts(ns), f) == Some(Numbers(ns)) && !AnyStar(Numbers(ns))
  {
    if ns != [] {
      NumberItem(ns[0], f);
      NumbersParse(ns[1..], f);
      assert Texts(ns)[1..] == Texts(ns[1..]);
      NoStars(Numbers(ns));
    }
  }

  lemma {:induction false} NoStars(items: seq<Item>)
    requires forall it :: it in items ==> !it.any
    ensures !AnyStar(items)
  {
    if items != [] {
      NoStars(items[..|items| - 1]);
    }
  }

  /** A set that a field of this range can hold. */
  predicate Fits(bits: set<nat>, f: Range) {
    bits != {} && f.lo <= f.hi <= 59 && forall n :: n in bits ==> f.lo <= n <= f.hi
  }

  /** Printing a field's set and reading it back gives the same set. */
  lemma FieldRoundTrip(bits: set<nat>, f: Range)
    requires Fits(bits, f)
    ensures FieldOf(PrintField(bits, f), f) == Some((bits, false))
  {
    hide Members, Texts, Numbers, ParseItems, ParseItem, Union, AnyStar, Split, Join, Plain, Itoa;
    var ns := Members(bits, f.lo, f.hi);
    assert ns != [] by {
      var n :| n in bits;
    }
    TextsArePlain(ns);
    SplitJoin(Texts(ns), ',');
    NumbersParse(ns, f);
    NumbersDenote(ns, bits, f);
  }

  predicate Plain(t: string) {
    t != "" && forall c :: c in t ==> IsDigit(c)
  }

  lemma {:induction false} TextsArePlain(ns: seq<nat>)
    requires forall i :: 0 <= i < |ns| ==> ns[i] < 100
    ensures forall t :: t in Texts(ns) ==> Plain(t) && ',' !in t
  {
    if ns != [] {
      AtoiItoa(ns[0]);
      TextsArePlain(ns[1..]);
    }
  }

  lemma NumbersDenote(ns: seq<nat>, bits: set<nat>, f: Range)
    requires f.hi <= 59 && (forall i :: 0 <= i < |ns| ==> ns[i] in bits && f.lo <= ns[i] <= f.hi)
    requires forall x :: x in bits ==> x in ns
    ensures Union(Numbers(ns), f) == bits
  {
    forall i | 0 <= i < |ns|
      ensures ItemBits(Numbers(ns)[i], f) == {ns[i]}
    {
      NumberItem(ns[i], f);
    }
    forall x: nat
      ensures x in Union(Numbers(ns), f) <==> x in bits
    {
      UnionMembers(Numbers(ns), f, x);
      if x in bits {
        var i :| 0 <= i < |ns| && ns[i] == x;
        assert x in ItemBits(Numbers(ns)[i], f);
      }
    }
  }

  lemma StarField(f: Range)
    requires f.lo <= f.hi <= 59
    ensures FieldOf("*", f).Some? && FieldOf("*", f).value.1
    ensures forall x :: x in FieldOf("*", f).value.0 <==> f.lo <= x <= f.hi
  {
    var s := "*";
    assert s[..1] == s;
    IndexFirst(s, ',', 1);
    IndexFirst(s, '/', 1);
    var it := Item(f.lo, f.hi, 1, true);
    assert [s][1..] == [];
    assert ParseItem(s, f) == Some(it);
    assert ParseItems([s][1..], f) == Some([]) && [it] + [] == [it];
    assert ParseItems([s], f) == Some([it]);
    forall x: nat
      ensures x in Union([it], f) <==> f.lo <= x <= f.hi
    {
      UnionMembers([it], f, x);
      LoopIsSteppedExactly(f.lo, f.hi, 1);
      SteppedMembers(f.lo, f.hi, 1, x);
      if f.lo <= x {
        assert x == f.lo + (x - f.lo) * 1;
      }
    }
  }

  lemma {:induction false} WordRead(word: string, s: string, got: string)
    requires forall c :: c in word ==> !IsSpace(c)
    ensures FieldsFrom(word + s, got) == FieldsFrom(s, got + word)
  {
    if word == [] {
      assert word + s == s && got + word == got;
    } else {
      assert (word + s)[1..] == word[1..] + s && (word + s)[0] == word[0];
      WordRead(word[1..], s, got + [word[0]]);
      assert got + [word[0]] + word[1..] == got + word;
    }
  }

  predicate Word(w: string) {
    w != [] && forall c :: c in w ==> !IsSpace(c)
  }

  /** The white space of Unicode. */
  const BLANKS: seq<int> := [
    0x09, 0x0A, 0x0B, 0x0C, 0x0D, 0x20, 0x85, 0xA0, 0x1680, 0x2000, 0x2001, 0x2002, 0x2003, 0x2004, 0x2005, 0x2006,
    0x2007, 0x2008, 0x2009, 0x200A, 0x2028, 0x2029, 0x202F, 0x205F, 0x3000]

  /** Between two words one of these separates, and no other character does. */
  lemma SeparatesWords(s: string, c: char, t: string)
    requires Word(s) && Word(t)
    ensures Fields(s + ([c] + t)) == if c as int in BLANKS then [s, t] else [s + [c] + t]
  {
    WordRead(s, [c] + t, []);
    assert [] + s == s && ([c] + t)[1..] == t;
    if IsSpace(c) {
      WordRead(t, [], []);
      assert t + [] == t && [] + t == t;
    } else {
      WordRead(t, [], s + [c]);
      assert t + [] == t;
    }
  }

  /** Words joined with spaces are read back as those words. */
  lemma {:induction false} FieldsJoin(words: seq<string>)
    requires forall i :: 0 <= i < |words| ==> Word(words[i])
    ensures Fields(Join(words, ' ')) == words
  {
    if words != [] {
      if |words| == 1 {
        assert words[0] + [] == words[0] && [] + words[0] == words[0];
        WordRead(words[0], [], []);
      } else {
        var rest := Join(words[1..], ' ');
        assert Join(words, ' ') == words[0] + ([' '] + rest);
        assert [] + words[0] == words[0];
        WordRead(words[0], [' '] + rest, []);
        assert ([' '] + rest)[1..] == rest;
        FieldsJoin(words[1..]);
      }
    }
  }

  function PrintDay(bits: set<nat>, any: bool, f: Range): string
    requires f.hi <= 59
  {
    if any then "*" else PrintField(bits, f)
  }

  function Print(c: Cron): string {
    Join([PrintField(c.min, MINUTES), PrintField(c.hour, HOURS), PrintDay(c.dom, c.anyDom, DAYS),
          PrintField(c.month, MONTHS), PrintDay(c.dow, c.anyDow, WEEKDAYS)], ' ')
  }

  lemma {:induction false} JoinedIsWord(parts: seq<string>)
    requires parts != [] && forall p :: p in parts ==> Plain(p)
    ensures Join(parts, ',') != [] && forall c :: c in Join(parts, ',') ==> IsDigit(c) || c == ','
  {
    assert parts[0] in parts;
    if |parts| > 1 {
      JoinedIsWord(parts[1..]);
    }
  }

  lemma FieldIsWord(bits: set<nat>, f: Range)
    requires Fits(bits, f)
    ensures Word(PrintField(bits, f))
  {
    var ns := Members(bits, f.lo, f.hi);
    assert ns != [] by {
      var n :| n in bits;
    }
    TextsArePlain(ns);
    JoinedIsWord(Texts(ns));
  }

  lemma DayRoundTrip(bits: set<nat>, any: bool, f: Range)
    requires Fits(bits, f) && (any ==> forall n :: f.lo <= n <= f.hi ==> n in bits)
    ensures FieldOf(PrintDay(bits, any, f), f) == Some((bits, any))
    ensures Word(PrintDay(bits, any, f))
  {
    if any {
      StarField(f);
      assert FieldOf("*", f).value.0 == bits;
    } else {
      FieldRoundTrip(bits, f);
      FieldIsWord(bits, f);
    }
  }

  lemma ParseOfWords(min: string, hour: string, dom: string, month: string, dow: string, c: Cron,
                     raw: set<nat>)
    requires Word(min) && Word(hour) && Word(dom) && Word(month) && Word(dow)
    requires FieldOf(min, MINUTES) == Some((c.min, false)) && FieldOf(hour, HOURS) == Some((c.hour, false))
    requires FieldOf(dom, DAYS) == Some((c.dom, c.anyDom)) && FieldOf(month, MONTHS) == Some((c.month, false))
    requires FieldOf(dow, WEEKDAYS) == Some((raw, c.anyDow)) && Folded(raw) == c.dow
    ensures ParseOf(Join([min, hour, dom, month, dow], ' ')) == Some(c)
  {
    hide FieldOf, Word, Join, Fields;
    var w := [min, hour, dom, month, dow];
    FieldsJoin(w);
    ReadAllSucceeds(FieldAt, w,
      [(c.min, false), (c.hour, false), (c.dom, c.anyDom), (c.month, false), (raw, c.anyDow)]);
  }

  lemma WellFormedFits(c: Cron)
    requires WellFormed(c) && 0 !in c.month && 0 !in c.dom
    ensures Fits(c.min, MINUTES) && Fits(c.hour, HOURS) && Fits(c.dom, DAYS) && Fits(c.month, MONTHS)
    ensures Fits(c.dow, WEEKDAYS) && Folded(c.dow) == c.dow
    ensures c.anyDom ==> forall n :: DAYS.lo <= n <= DAYS.hi ==> n in c.dom
    ensures c.anyDow ==> forall n :: WEEKDAYS.lo <= n <= WEEKDAYS.hi ==> n in c.dow
  {
  }

  /** `t` is a word that a field of this range reads as these bits. */
  ghost predicate Reads(t: string, f: Range, bits: set<nat>, any: bool)
    requires f.hi <= 59
  {
    Word(t) && FieldOf(t, f) == Some((bits, any))
  }

  lemma PrintReads(c: Cron) returns (min: string, hour: string, dom: string, month: string, dow: string)
    requires WellFormed(c) && 0 !in c.month && 0 !in c.dom
    ensures Print(c) == Join([min, hour, dom, month, dow], ' ')
    ensures Reads(min, MINUTES, c.min, false) && Reads(hour, HOURS, c.hour, false)
    ensures Reads(dom, DAYS, c.dom, c.anyDom) && Reads(month, MONTHS, c.month, false)
    ensures Reads(dow, WEEKDAYS, c.dow, c.anyDow)
  {
    hide FieldOf, Word, PrintField, Join;
    WellFormedFits(c);
    min, hour, dom := PrintField(c.min, MINUTES), PrintField(c.hour, HOURS), PrintDay(c.dom, c.anyDom, DAYS);
    month, dow := PrintField(c.month, MONTHS), PrintDay(c.dow, c.anyDow, WEEKDAYS);
    assert Reads(min, MINUTES, c.min, false) by {
      DayRoundTrip(c.min, false, MINUTES);
    }
    assert Reads(hour, HOURS, c.hour, false) by {
      DayRoundTrip(c.hour, false, HOURS);
    }
    assert Reads(dom, DAYS, c.dom, c.anyDom) by {
      DayRoundTrip(c.dom, c.anyDom, DAYS);
    }
    assert Reads(month, MONTHS, c.month, false) by {
      DayRoundTrip(c.month, false, MONTHS);
    }
    assert Reads(dow, WEEKDAYS, c.dow, c.anyDow) by {
      DayRoundTrip(c.dow, c.anyDow, WEEKDAYS);
    }
  }

  /** Printing an expression and parsing the text gives the expression back. */
  lemma PrintParses(c: Cron)
    requires WellFormed(c) && 0 !in c.month && 0 !in c.dom
    ensures ParseOf(Print(c)) == Some(c)
  {
    WellFormedFits(c);
    var min, hour, dom, month, dow := PrintReads(c);
    ParseOfWords(min, hour, dom, month, dow, c, c.dow);
  }
}

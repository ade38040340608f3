/** The grammar of a cron field, written out and read back. */
module CronGrammar {
  import opened Wrappers
  import opened CronText
  import opened Cron
  import opened Calendar

  /** `*`, `*` with a step, a number, a number with a step, a range, and a range with a step. */
  datatype Shape =
    | Star | StarStep(n: nat) | Number(a: nat) | NumberStep(a: nat, n: nat)
    | Span(a: nat, b: nat) | SpanStep(a: nat, b: nat, n: nat)

  function Decimal(n: nat): string {
    (if n < 10 then "" else Decimal(n / 10)) + [Digit(n % 10)]
  }

  function Text(s: Shape): string {
    match s
    case Star => "*"
    case StarStep(n) => "*" + ("/" + Decimal(n))
    case Number(a) => Decimal(a)
    case NumberStep(a, n) => Decimal(a) + ("/" + Decimal(n))
    case Span(a, b) => Decimal(a) + ("-" + Decimal(b))
    case SpanStep(a, b, n) => (Decimal(a) + ("-" + Decimal(b))) + ("/" + Decimal(n))
  }

  /** What a field with this range admits. */
  predicate Legal(s: Shape, f: Range) {
    match s
    case Star => f.lo <= f.hi
    case StarStep(n) => f.lo <= f.hi && 1 <= n < TWO63
    case Number(a) => f.lo <= a <= f.hi
    case NumberStep(a, n) => f.lo <= a <= f.hi && n == 1
    case Span(a, b) => f.lo <= a <= b <= f.hi
    case SpanStep(a, b, n) => f.lo <= a <= b <= f.hi && 1 <= n < TWO63
  }

  function ItemOf(s: Shape, f: Range): (it: Item)
    requires Legal(s, f)
    ensures ItemOk(it, f)
  {
    match s
    case Star => Item(f.lo, f.hi, 1, true)
    case StarStep(n) => Item(f.lo, f.hi, n, n == 1)
    case Number(a) => Item(a, a, 1, false)
    case NumberStep(a, _) => Item(a, a, 1, false)
    case Span(a, b) => Item(a, b, 1, false)
    case SpanStep(a, b, n) => Item(a, b, n, false)
  }

  /** The values a shape means: every one, every n-th from the lowest, one, or those of a range. */
  ghost predicate Means(s: Shape, f: Range, x: nat) {
    match s
    case Star => f.lo <= x <= f.hi
    case StarStep(n) => x <= f.hi && exists k: nat :: x == f.lo + k * n
    case Number(a) => x == a
    case NumberStep(a, _) => x == a
    case Span(a, b) => a <= x <= b
    case SpanStep(a, b, n) => x <= b && exists k: nat :: x == a + k * n
  }

  /** The step leaves room below 2^63. */
  predicate Modest(s: Shape, f: Range) {
    match s
    case StarStep(n) => f.lo < 2 * (TWO63 - n)
    case SpanStep(a, _, n) => a < 2 * (TWO63 - n)
    case _ => true
  }

  /* ----- numbers ----- */

  function Digit(n: nat): (c: char)
    requires n < 10
    ensures IsDigit(c) && c as int - '0' as int == n
  {
    ('0' as int + n) as char
  }

  /** One more digit at the end of a number already read, or of nothing. */
  lemma DigitsSnoc(s: string, n: nat, d: nat)
    requires d < 10 && if s == "" then n == 0 else Digits(s) == Some(n)
    ensures Digits(s + [Digit(d)]) == Some(n * 10 + d)
  {
    var t := s + [Digit(d)];
    assert t[..|t| - 1] == s && t[|t| - 1] == Digit(d);
  }

  lemma {:induction false} DecimalReads(n: nat)
    ensures Decimal(n) != "" && Digits(Decimal(n)) == Some(n) && forall c :: c in Decimal(n) ==> IsDigit(c)
  {
    hide Digits, IsDigit, Digit;
    if n < 10 {
      DigitsSnoc("", 0, n);
    } else {
      DecimalReads(n / 10);
      DigitsSnoc(Decimal(n / 10), n / 10, n % 10);
    }
  }

  lemma AtoiDecimal(n: nat)
    ensures Atoi(Decimal(n)) == if n < TWO63 then Some(n) else None
    ensures '/' !in Decimal(n) && '-' !in Decimal(n) && ',' !in Decimal(n) && Decimal(n) != "" && Decimal(n) != "*"
  {
    hide Digits, Decimal;
    DecimalReads(n);
    var s := Decimal(n);
    assert s[0] in s;
    assert '*' in "*";
  }

  /** A sign is read; a number that does not fit 64 bits, and a sign or nothing alone, are not. */
  lemma SignedReads(n: nat)
    ensures Atoi("+" + Decimal(n)) == if n < TWO63 then Some(n) else None
    ensures Atoi("-" + Decimal(n)) == if n <= TWO63 then Some(0 - n as int) else None
    ensures Atoi("") == Atoi("+") == Atoi("-") == None
  {
    hide Digits, Decimal;
    DecimalReads(n);
    assert ("+" + Decimal(n))[1..] == Decimal(n) && ("-" + Decimal(n))[1..] == Decimal(n);
  }

  /* ----- items ----- */

  lemma CutAt(left: string, c: char, right: string)
    requires c !in left
    ensures var s := left + ([c] + right); Index(s, c) == |left| && s[..|left|] == left && s[|left| + 1..] == right
  {
    var s := left + ([c] + right);
    assert s[..|left|] == left && s[|left| + 1..] == right;
    IndexFirst(s, c, |left|);
  }

  lemma NoCut(s: string, c: char)
    requires c !in s
    ensures Index(s, c) == |s|
  {
    assert s[..|s|] == s;
    IndexFirst(s, c, |s|);
  }

  lemma StarReads(step: int, f: Range)
    ensures '/' !in "*" && ParseStepped("*", step, f) == InRange(f.lo, f.hi, step, step == 1, f)
  {
  }

  /** A number with a step is refused unless the step is 1. */
  lemma NumberReads(a: nat, step: nat, f: Range)
    requires f.hi < TWO63
    ensures '/' !in Decimal(a)
    ensures ParseStepped(Decimal(a), step, f) == if step > 1 then None else InRange(a, a, step, false, f)
  {
    hide Atoi, Decimal;
    AtoiDecimal(a);
    NoCut(Decimal(a), '-');
  }

  /** A span stands for its bounds. */
  lemma SpanReads(a: nat, b: nat, step: int, f: Range)
    requires f.hi < TWO63
    ensures var s := Decimal(a) + ("-" + Decimal(b));
      '/' !in s && s != "*" && ParseStepped(s, step, f) == InRange(a, b, step, false, f)
  {
    hide Atoi, Decimal;
    AtoiDecimal(a);
    AtoiDecimal(b);
    CutAt(Decimal(a), '-', Decimal(b));
    var s := Decimal(a) + ("-" + Decimal(b));
    assert s[|Decimal(a)|] == '-';
    if b >= TWO63 {
      assert InRange(a, b, step, false, f).None?;
    }
    if a >= TWO63 {
      assert InRange(a, b, step, false, f).None?;
    }
  }

  lemma SteppedReads(body: string, n: nat, f: Range)
    requires '/' !in body
    ensures ParseItem(body + ("/" + Decimal(n)), f) == if 1 <= n < TWO63 then ParseStepped(body, n, f) else None
  {
    hide Atoi, Decimal, ParseStepped;
    AtoiDecimal(n);
    CutAt(body, '/', Decimal(n));
  }

  /** A written item is read as what it says, or refused if the field does not admit it. */
  lemma ItemReads(s: Shape, f: Range)
    requires f.hi < TWO63
    ensures ParseItem(Text(s), f) == if Legal(s, f) then Some(ItemOf(s, f)) else None
    ensures ',' !in Text(s)
  {
    hide Atoi, Decimal, ParseStepped;
    match s
    case Star =>
      NoCut("*", '/');
      StarReads(1, f);
    case StarStep(n) =>
      AtoiDecimal(n);
      StarReads(n, f);
      SteppedReads("*", n, f);
    case Number(a) =>
      AtoiDecimal(a);
      NumberReads(a, 1, f);
      NoCut(Decimal(a), '/');
    case NumberStep(a, n) =>
      AtoiDecimal(a);
      AtoiDecimal(n);
      NumberReads(a, n, f);
      SteppedReads(Decimal(a), n, f);
    case Span(a, b) =>
      AtoiDecimal(a);
      AtoiDecimal(b);
      SpanReads(a, b, 1, f);
      NoCut(Text(s), '/');
    case SpanStep(a, b, n) =>
      AtoiDecimal(a);
      AtoiDecimal(b);
      AtoiDecimal(n);
      SpanReads(a, b, n, f);
      SteppedReads(Decimal(a) + ("-" + Decimal(b)), n, f);
  }

  /* ----- fields ----- */

  function Texts(ss: seq<Shape>): (ts: seq<string>)
    ensures |ts| == |ss|
  {
    if ss == [] then [] else [Text(ss[0])] + Texts(ss[1..])
  }

  predicate AllLegal(ss: seq<Shape>, f: Range) {
    forall i :: 0 <= i < |ss| ==> Legal(ss[i], f)
  }

  function Items(ss: seq<Shape>, f: Range): (items: seq<Item>)
    requires AllLegal(ss, f)
    ensures |items| == |ss| && forall i :: 0 <= i < |ss| ==> items[i] == ItemOf(ss[i], f)
  {
    if ss == [] then [] else [ItemOf(ss[0], f)] + Items(ss[1..], f)
  }

  lemma {:induction false} ItemsRead(ss: seq<Shape>, f: Range)
    requires f.hi < TWO63
    ensures ParseItems(Texts(ss), f) == if AllLegal(ss, f) then Some(Items(ss, f)) else None
    ensures forall t :: t in Texts(ss) ==> ',' !in t
  {
    hide Text, ParseItem, ItemOf, Legal;
    if ss != [] {
      ItemReads(ss[0], f);
      ItemsRead(ss[1..], f);
      assert Texts(ss)[1..] == Texts(ss[1..]);
      assert AllLegal(ss, f) <==> Legal(ss[0], f) && AllLegal(ss[1..], f);
    }
  }

  lemma ShapeNames(s: Shape, f: Range, x: nat)
    requires Legal(s, f) && Modest(s, f) && f.hi <= 59
    ensures Roomy(ItemOf(s, f)) && (Names(ItemOf(s, f), x) <==> Means(s, f, x))
  {
    var it := ItemOf(s, f);
    if it.step == 1 && it.lo <= x {
      assert x == it.lo + (x - it.lo) * it.step;
    }
  }

  /** A star without a step, or with step 1. */
  predicate Bare(s: Shape) {
    s.Star? || s == StarStep(1)
  }

  lemma {:induction false} AnyStarIs(items: seq<Item>)
    ensures AnyStar(items) <==> exists i :: 0 <= i < |items| && items[i].any
  {
    if items != [] {
      var k := |items| - 1;
      AnyStarIs(items[..k]);
      assert forall i :: 0 <= i < k ==> items[..k][i] == items[i];
    }
  }

  lemma BareIsAny(s: Shape, f: Range)
    requires Legal(s, f)
    ensures ItemOf(s, f).any <==> Bare(s)
  {
  }

  /** The field says any if and only if it has a bare star. */
  lemma FieldIsAny(ss: seq<Shape>, f: Range)
    requires ss != [] && f.hi <= 59 && AllLegal(ss, f)
    ensures FieldOf(Join(Texts(ss), ','), f).Some?
    ensures FieldOf(Join(Texts(ss), ','), f).value.1 <==> exists i :: 0 <= i < |ss| && Bare(ss[i])
  {
    hide Text, ParseItem, ItemOf, Legal, Union, Join, Split, Bare;
    ItemsRead(ss, f);
    SplitJoin(Texts(ss), ',');
    var items := Items(ss, f);
    AnyStarIs(items);
    forall i | 0 <= i < |ss|
      ensures items[i].any <==> Bare(ss[i])
    {
      BareIsAny(ss[i], f);
    }
  }

  /** A written field is accepted if and only if every item is legal, and then its bits are exactly the values
      that some item means. */
  lemma FieldMeans(ss: seq<Shape>, f: Range, x: nat)
    requires ss != [] && f.hi <= 59
    ensures FieldOf(Join(Texts(ss), ','), f).Some? <==> AllLegal(ss, f)
    ensures AllLegal(ss, f) && (forall i :: 0 <= i < |ss| ==> Modest(ss[i], f)) ==>
      (x in FieldOf(Join(Texts(ss), ','), f).value.0 <==> exists i :: 0 <= i < |ss| && Means(ss[i], f, x))
  {
    hide Text, ParseItem, ItemOf, Legal, Means, Modest, Names, Union, Join, Split;
    ItemsRead(ss, f);
    SplitJoin(Texts(ss), ',');
    if AllLegal(ss, f) && forall i :: 0 <= i < |ss| ==> Modest(ss[i], f) {
      var items := Items(ss, f);
      forall i | 0 <= i < |ss|
        ensures Roomy(items[i]) && (Names(items[i], x) <==> Means(ss[i], f, x))
      {
        ShapeNames(ss[i], f, x);
      }
      FieldDenotes(items, f, x);
    }
  }

  /* ----- fields of one item ----- */

  lemma ShapeField(s: Shape, f: Range)
    requires Legal(s, f) && f.hi <= 59
    ensures FieldOf(Text(s), f) == Some((ItemBits(ItemOf(s, f), f), ItemOf(s, f).any))
  {
    hide Text, ParseItem, ItemOf, Legal, Split, ItemBits, AnyStar, Union;
    ItemReads(s, f);
    ItemsRead([s], f);
    assert Texts([s]) == [Text(s)] && Join([Text(s)], ',') == Text(s);
    assert Text(s) in Texts([s]);
    SplitJoin([Text(s)], ',');
    OneItem(Text(s), ItemOf(s, f), f);
  }

  lemma OneMore(n: nat, d: nat)
    requires n >= 1 && d < 10
    ensures Decimal(10 * n + d) == Decimal(n) + [Digit(d)]
  {
    assert (10 * n + d) / 10 == n && (10 * n + d) % 10 == d;
  }

  lemma FourMore(n: nat, a: nat, b: nat, c: nat, d: nat)
    requires n >= 1 && a < 10 && b < 10 && c < 10 && d < 10
    ensures Decimal(10000 * n + 1000 * a + 100 * b + 10 * c + d) ==
      Decimal(n) + [Digit(a), Digit(b), Digit(c), Digit(d)]
  {
    hide Decimal, Digit;
    OneMore(n, a);
    OneMore(10 * n + a, b);
    OneMore(100 * n + 10 * a + b, c);
    OneMore(1000 * n + 100 * a + 10 * b + c, d);
  }

  lemma SpillNumber()
    ensures Decimal(TWO63 - 1) == "922" + "3372" + "0368" + "5477" + "5807"
  {
    hide Decimal, Digit;
    SmallTexts();
    SomeDigits();
    FourMore(922, 3, 3, 7, 2);
    FourMore(9223372, 0, 3, 6, 8);
    FourMore(92233720368, 5, 4, 7, 7);
    FourMore(922337203685477, 5, 8, 0, 7);
  }

  lemma SpillDigits()
    ensures "922" + "3372" + "0368" + "5477" + "5807" == "9223372036854775807"
  {
    assert "922" + "3372" == "9223372";
    assert "9223372" + "0368" == "92233720368";
    assert "92233720368" + "5477" == "922337203685477";
    assert "922337203685477" + "5807" == "9223372036854775807";
  }

  lemma SpillWhole()
    ensures ("3" + ("-" + "5")) + ("/" + "9223372036854775807") == "3-5/9223372036854775807"
  {
    assert "3" + ("-" + "5") == "3-5";
    assert "/" + "9223372036854775807" == "/9223372036854775807";
  }

  lemma SpillText()
    ensures Text(SpanStep(3, 5, TWO63 - 1)) == "3-5/9223372036854775807"
  {
    hide Decimal;
    SmallTexts();
    SpillNumber();
    SpillDigits();
    SpillWhole();
  }

  lemma SomeDigits()
    ensures [Digit(3), Digit(3), Digit(7), Digit(2)] == "3372" && [Digit(0), Digit(3), Digit(6), Digit(8)] == "0368"
    ensures [Digit(5), Digit(4), Digit(7), Digit(7)] == "5477" && [Digit(5), Digit(8), Digit(0), Digit(7)] == "5807"
  {
  }

  lemma SmallTexts()
    ensures Decimal(3) == "3" && Decimal(5) == "5" && Decimal(922) == "922"
  {
    assert Decimal(9) == "9" && Decimal(92) == "92";
  }

  /** A text with a step that the loop overflows on: the minute field takes it, and it also means minute 1. */
  lemma SpillFails()
    ensures FieldOf("3-5/9223372036854775807", MINUTES) == Some(({3, 1}, false))
    ensures Means(SpanStep(3, 5, TWO63 - 1), MINUTES, 3) && !Means(SpanStep(3, 5, TWO63 - 1), MINUTES, 1)
  {
    hide FieldOf, Text, LoopBits;
    SpillText();
    ShapeField(SpanStep(3, 5, TWO63 - 1), MINUTES);
    SpillExample();
    assert 3 == 3 + 0 * (TWO63 - 1);
  }

  /* ----- the places of the fields ----- */

  lemma SundayFolds(w: nat)
    ensures Folded({w}) == if w == 7 then {0, 7} else {w}
  {
  }

  lemma WordsInOrder(mi: string, h: string, d: string, m: string, w: string, n: seq<nat>)
    requires |n| == 5 && Word(mi) && Word(h) && Word(d) && Word(m) && Word(w)
    requires FieldOf(mi, MINUTES) == Some(({n[0]}, false)) && FieldOf(h, HOURS) == Some(({n[1]}, false))
    requires FieldOf(d, DAYS) == Some(({n[2]}, false)) && FieldOf(m, MONTHS) == Some(({n[3]}, false))
    requires FieldOf(w, WEEKDAYS) == Some(({n[4]}, false))
    ensures ParseOf(Join([mi, h, d, m, w], ' ')) ==
      Some(Cron({n[0]}, {n[1]}, {n[2]}, {n[3]}, if n[4] == 7 then {0, 7} else {n[4]}, false, false))
  {
    hide FieldOf, ParseOf, Word, Join, Folded;
    SundayFolds(n[4]);
    ParseOfWords(mi, h, d, m, w,
                 Cron({n[0]}, {n[1]}, {n[2]}, {n[3]}, if n[4] == 7 then {0, 7} else {n[4]}, false, false), {n[4]});
  }

  /** Five numbers are minute, hour, day of month, month and day of week, in this order; 7 is also Sunday. */
  lemma FieldsInOrder(t: seq<string>, n: seq<nat>)
    requires |t| == |n| == 5 && forall k :: 0 <= k < 5 ==> t[k] == Decimal(n[k])
    requires n[0] <= 59 && n[1] <= 23 && 1 <= n[2] <= 31 && 1 <= n[3] <= 12 && n[4] <= 7
    ensures ParseOf(Join(t, ' ')) ==
      Some(Cron({n[0]}, {n[1]}, {n[2]}, {n[3]}, if n[4] == 7 then {0, 7} else {n[4]}, false, false))
  {
    hide FieldOf, ParseOf, Decimal, Word, Join;
    NumberField(n[0], MINUTES);
    NumberField(n[1], HOURS);
    NumberField(n[2], DAYS);
    NumberField(n[3], MONTHS);
    NumberField(n[4], WEEKDAYS);
    assert t == [t[0], t[1], t[2], t[3], t[4]];
    WordsInOrder(t[0], t[1], t[2], t[3], t[4], n);
  }

  lemma NumberBounds(a: nat, f: Range)
    requires f.hi <= 59
    ensures FieldOf(Decimal(a), f).Some? <==> f.lo <= a <= f.hi
    ensures Word(Decimal(a))
  {
    hide FieldOf, Decimal, Split, Join, Union;
    FieldMeans([Number(a)], f, 0);
    NumberText(a);
    DecimalReads(a);
    DigitsAreWord(Decimal(a));
  }

  lemma NumberText(a: nat)
    ensures Join(Texts([Number(a)]), ',') == Decimal(a) && (forall f :: AllLegal([Number(a)], f) <==> f.lo <= a <= f.hi)
  {
    hide Decimal;
    assert Texts([Number(a)]) == [Decimal(a)];
  }

  lemma DigitsAreWord(s: string)
    requires s != "" && forall c :: c in s ==> IsDigit(c)
    ensures Word(s)
  {
  }

  lemma FiveFields(expr: string)
    ensures ParseOf(expr).Some? ==> |Fields(expr)| == 5
  {
    hide Fields, ReadAll;
  }

  /** And they are refused if one of them is out of its bounds. */
  lemma BoundsExactly(t: seq<string>, n: seq<nat>)
    requires |t| == |n| == 5 && forall k :: 0 <= k < 5 ==> t[k] == Decimal(n[k])
    ensures ParseOf(Join(t, ' ')).Some? <==> n[0] <= 59 && n[1] <= 23 && 1 <= n[2] <= 31 && 1 <= n[3] <= 12 && n[4] <= 7
  {
    hide FieldOf, Decimal, Word, Join, Fields, ReadAll;
    forall k | 0 <= k < 5
      ensures Word(t[k]) && (FieldOf(t[k], FieldRange(k)).Some? <==> FieldRange(k).lo <= n[k] <= FieldRange(k).hi)
    {
      NumberBounds(n[k], FieldRange(k));
    }
    FieldsJoin(t);
    if ParseOf(Join(t, ' ')).Some? {
      forall k | 0 <= k < 5
        ensures FieldOf(t[k], FieldRange(k)).Some?
      {
        ReadAllAt(FieldAt, t, k);
      }
      assert FieldRange(0).hi == 59 && FieldRange(1).hi == 23;
      assert FieldRange(2) == Range(1, 31) && FieldRange(3) == Range(1, 12) && FieldRange(4).hi == 7;
    } else if n[0] <= 59 && n[1] <= 23 && 1 <= n[2] <= 31 && 1 <= n[3] <= 12 && n[4] <= 7 {
      FieldsInOrder(t, n);
    }
  }

  /* ----- an expression that the search gives up on ----- */

  lemma NumberField(a: nat, f: Range)
    requires f.lo <= a <= f.hi <= 59
    ensures FieldOf(Decimal(a), f) == Some(({a}, false)) && Word(Decimal(a))
  {
    hide Decimal, FieldOf, LoopBits;
    ShapeField(Number(a), f);
    DecimalReads(a);
    NumberItem(a, f);
  }

  lemma OneItem(t: string, it: Item, f: Range)
    requires f.hi <= 59 && ParseItem(t, f) == Some(it)
    ensures ParseItems([t], f) == Some([it]) && Union([it], f) == ItemBits(it, f) && AnyStar([it]) == it.any
  {
    hide ParseItem, ItemBits;
    assert [t][1..] == [] && [it][..0] == [] && [it] + [] == [it];
    assert ParseItems([t][1..], f) == Some([]);
    assert Union([it][..0], f) == {} && !AnyStar([it][..0]);
  }

  lemma LeapDayText()
    ensures Join([Decimal(0), Decimal(0), Decimal(29), Decimal(2), "*"], ' ') == "0 0 29 2 *"
  {
    var w := [Decimal(0), Decimal(0), Decimal(29), Decimal(2), "*"];
    assert Decimal(0) == "0" && Decimal(2) == "2" && Decimal(29) == "2" + "9";
    assert w[4..] == ["*"] && w[3..][1..] == w[4..] && w[2..][1..] == w[3..] && w[1..][1..] == w[2..];
    assert Join(w[4..], ' ') == "*";
    assert Join(w[3..], ' ') == "2 *";
    assert Join(w[2..], ' ') == "29 2 *";
    assert Join(w[1..], ' ') == "0 29 2 *";
  }

  /** The twenty-ninth of February: it parses, and from New Year 2001 the search finds nothing. */
  lemma LeapDayFails() returns (c: Cron)
    ensures ParseOf("0 0 29 2 *") == Some(c) && WellFormed(c) && SomeYearsOnly(c)
    ensures !FiresFrom(c, Serial(2001, 1, 1) * 1440)
  {
    hide FieldOf, ParseOf, Decimal, Word, Join, SomeYearsOnly, WellFormed, FiresFrom, Serial;
    StarField(WEEKDAYS);
    c := Cron({0}, {0}, {29}, {2}, FieldOf("*", WEEKDAYS).value.0, false, true);
    NumberField(0, MINUTES);
    NumberField(0, HOURS);
    NumberField(29, DAYS);
    NumberField(2, MONTHS);
    LeapDayText();
    StarWord();
    assert Folded(c.dow) == c.dow;
    ParseOfWords(Decimal(0), Decimal(0), Decimal(29), Decimal(2), "*", c, c.dow);
    LeapDayIsRare(c);
    assert !Leap(2001) && !Leap(2002);
    SomeYearsFail(c, 2001);
  }

  lemma StarWord()
    ensures Word("*")
  {
  }

  /** The only day listed is missing in every year that is not a leap year. */
  lemma LeapDayIsRare(c: Cron)
    requires c.min == {0} && c.hour == {0} && c.dom == {29} && c.month == {2} && !c.anyDom && c.anyDow
    requires forall w :: w in c.dow <==> 0 <= w <= 7
    ensures WellFormed(c) && SomeYearsOnly(c)
  {
    assert 2 in c.month && 29 in c.dom && 0 in c.dow && 0 in c.min && 0 in c.hour;
    assert ShortLen(2) == 28;
  }
}

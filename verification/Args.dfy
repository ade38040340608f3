/** Splitting an argument string the way a shell reads a command line. */
module Args {
  import opened Wrappers

  /** What the loop carries from one character to the next. */
  datatype State = State(args: seq<string>, cur: string, open: bool, quote: Option<char>, esc: bool)

  predicate IsSpace(c: char) {
    c == ' ' || c == '\t' || c == '\n'
  }

  function Step(st: State, c: char): State {
    if st.esc then st.(cur := st.cur + [c], esc := false)
    else if c == '\\' && st.quote != Some('\'') then st.(esc := true, open := true)
    else if st.quote.Some? then
      if c == st.quote.value then st.(quote := None) else st.(cur := st.cur + [c])
    else if c == '"' || c == '\'' then st.(quote := Some(c), open := true)
    else if IsSpace(c) then
      if st.open then st.(args := st.args + [st.cur], cur := "", open := false) else st
    else st.(cur := st.cur + [c], open := true)
  }

  function Run(st: State, s: string): State
    decreases |s|
  {
    if s == "" then st else Run(Step(st, s[0]), s[1..])
  }

  function Flush(st: State): seq<string> {
    if st.open then st.args + [st.cur] else st.args
  }

  function Split(s: string): seq<string> {
    Flush(Run(State([], "", false, None, false), s))
  }

  lemma {:induction false} RunAppend(st: State, s: string, t: string)
    ensures Run(st, s + t) == Run(Run(st, s), t)
    decreases |s|
  {
    if s == "" {
      assert s + t == t;
    } else {
      assert (s + t)[0] == s[0] && (s + t)[1..] == s[1..] + t;
      RunAppend(Step(st, s[0]), s[1..], t);
    }
  }

  method SplitArgs(s: string) returns (args: seq<string>)
    ensures args == Split(s)
  {
    args := [];
    var cur, open, quote: Option<char>, esc := "", false, None, false;
    ghost var st := State([], "", false, None, false);
    for i := 0 to |s|
      invariant State(args, cur, open, quote, esc) == Run(st, s[..i])
    {
      var r := s[i];
      assert s[..i + 1] == s[..i] + [r];
      RunAppend(st, s[..i], [r]);
      assert Run(Run(st, s[..i]), [r]) == Step(Run(st, s[..i]), r);
      if esc {
        cur, esc := cur + [r], false;
      } else if r == '\\' && quote != Some('\'') {
        esc, open := true, true;
      } else if quote.Some? {
        if r == quote.value {
          quote := None;
        } else {
          cur := cur + [r];
        }
      } else if r == '"' || r == '\'' {
        quote, open := Some(r), true;
      } else if IsSpace(r) {
        if open {
          args, cur, open := args + [cur], "", false;
        }
      } else {
        cur, open := cur + [r], true;
      }
    }
    assert s[..|s|] == s;
    if open {
      args := args + [cur];
    }
  }

  /* ----- the ways to spell an argument ----- */

  /** A character between double quotes, with or without a backslash. */
  datatype Inner = Inner(c: char, escaped: bool)

  /** An argument is spelled as a row of pieces, glued together. */
  datatype Piece = Bare(c: char) | Escaped(c: char) | Single(s: string) | Double(cs: seq<Inner>)

  predicate Spellable(p: Piece) {
    match p
    case Bare(c) => !IsSpace(c) && c != '\\' && c != '"' && c != '\''
    case Escaped(_) => true
    case Single(s) => '\'' !in s
    case Double(cs) => forall i :: 0 <= i < |cs| ==> cs[i].escaped || (cs[i].c != '"' && cs[i].c != '\\')
  }

  function Inside(cs: seq<Inner>): string {
    if cs == [] then "" else (if cs[0].escaped then ['\\', cs[0].c] else [cs[0].c]) + Inside(cs[1..])
  }

  function Chars(cs: seq<Inner>): string {
    if cs == [] then "" else [cs[0].c] + Chars(cs[1..])
  }

  function Text(p: Piece): string {
    match p
    case Bare(c) => [c]
    case Escaped(c) => ['\\', c]
    case Single(s) => ['\''] + (s + ['\''])
    case Double(cs) => ['"'] + (Inside(cs) + ['"'])
  }

  function Meaning(p: Piece): string {
    match p
    case Bare(c) => [c]
    case Escaped(c) => [c]
    case Single(s) => s
    case Double(cs) => Chars(cs)
  }

  lemma {:induction false} SingleRead(st: State, s: string)
    requires st.quote == Some('\'') && !st.esc && '\'' !in s
    ensures Run(st, s) == st.(cur := st.cur + s)
    decreases |s|
  {
    if s == "" {
      assert st.cur + s == st.cur;
    } else {
      SingleRead(Step(st, s[0]), s[1..]);
      assert st.cur + [s[0]] + s[1..] == st.cur + s;
    }
  }

  lemma InnerRead(st: State, i: Inner)
    requires st.quote == Some('"') && !st.esc && st.open && (i.escaped || (i.c != '"' && i.c != '\\'))
    ensures Run(st, if i.escaped then ['\\', i.c] else [i.c]) == st.(cur := st.cur + [i.c])
  {
    if i.escaped {
      assert ['\\', i.c] == ['\\'] + [i.c];
      RunAppend(st, ['\\'], [i.c]);
      RunOne(st, '\\');
      RunOne(Step(st, '\\'), i.c);
    } else {
      RunOne(st, i.c);
    }
  }

  lemma SpellableTail(cs: seq<Inner>)
    requires cs != [] && Spellable(Double(cs))
    ensures cs[0].escaped || (cs[0].c != '"' && cs[0].c != '\\')
    ensures Spellable(Double(cs[1..]))
  {
  }

  lemma CharsCons(cur: string, cs: seq<Inner>)
    requires cs != []
    ensures cur + [cs[0].c] + Chars(cs[1..]) == cur + Chars(cs)
  {
  }

  lemma {:induction false} DoubleRead(st: State, cs: seq<Inner>)
    requires st.quote == Some('"') && !st.esc && st.open && Spellable(Double(cs))
    ensures Run(st, Inside(cs)) == st.(cur := st.cur + Chars(cs))
    decreases |cs|
  {
    hide Step, Run, Spellable;
    if cs == [] {
      RunNothing(st);
      assert st.cur + "" == st.cur;
    } else {
      var first := if cs[0].escaped then ['\\', cs[0].c] else [cs[0].c];
      SpellableTail(cs);
      InnerRead(st, cs[0]);
      RunAppend(st, first, Inside(cs[1..]));
      DoubleRead(st.(cur := st.cur + [cs[0].c]), cs[1..]);
      CharsCons(st.cur, cs);
    }
  }

  lemma RunNothing(st: State)
    ensures Run(st, "") == st
  {
  }

  lemma RunOne(st: State, c: char)
    ensures Run(st, [c]) == Step(st, c)
  {
    assert [c][1..] == "";
    assert Run(Step(st, c), "") == Step(st, c);
  }

  lemma PieceRead(st: State, p: Piece)
    requires st.quote.None? && !st.esc && Spellable(p)
    ensures Run(st, Text(p)) == st.(cur := st.cur + Meaning(p), open := true)
  {
    match p
    case Bare(c) => RunOne(st, c);
    case Escaped(c) =>
      assert Text(p) == ['\\'] + [c];
      RunAppend(st, ['\\'], [c]);
      RunOne(st, '\\');
      RunOne(Step(st, '\\'), c);
    case Single(s) =>
      RunAppend(st, ['\''], s + ['\'']);
      RunOne(st, '\'');
      var mid := Step(st, '\'');
      RunAppend(mid, s, ['\'']);
      SingleRead(mid, s);
      RunOne(mid.(cur := mid.cur + s), '\'');
    case Double(cs) =>
      RunAppend(st, ['"'], Inside(cs) + ['"']);
      RunOne(st, '"');
      var mid := Step(st, '"');
      RunAppend(mid, Inside(cs), ['"']);
      DoubleRead(mid, cs);
      RunOne(mid.(cur := mid.cur + Chars(cs)), '"');
  }

  type Word = w: seq<Piece> | w != [] && forall p :: p in w ==> Spellable(p) witness [Escaped('a')]

  function WordText(w: seq<Piece>): string {
    if w == [] then "" else Text(w[0]) + WordText(w[1..])
  }

  function WordMeaning(w: seq<Piece>): string {
    if w == [] then "" else Meaning(w[0]) + WordMeaning(w[1..])
  }

  lemma MeaningCons(cur: string, w: seq<Piece>)
    requires w != []
    ensures cur + Meaning(w[0]) + WordMeaning(w[1..]) == cur + WordMeaning(w)
  {
  }

  lemma {:induction false} WordRead(st: State, w: seq<Piece>)
    requires st.quote.None? && !st.esc && forall p :: p in w ==> Spellable(p)
    ensures Run(st, WordText(w)) == st.(cur := st.cur + WordMeaning(w), open := st.open || w != [])
    decreases |w|
  {
    hide Step, Run, Text, Meaning, Spellable;
    if w == [] {
      RunNothing(st);
      assert st.cur + "" == st.cur;
    } else {
      PieceRead(st, w[0]);
      RunAppend(st, Text(w[0]), WordText(w[1..]));
      WordRead(st.(cur := st.cur + Meaning(w[0]), open := true), w[1..]);
      MeaningCons(st.cur, w);
    }
  }

  lemma {:induction false} SpaceRead(st: State, s: string)
    requires st.quote.None? && !st.esc && (st.open || st.cur == "") && forall c :: c in s ==> IsSpace(c)
    ensures Run(st, s) == if s == "" then st else State(Flush(st), "", false, None, false)
    decreases |s|
  {
    if s != "" {
      assert IsSpace(s[0]);
      SpaceRead(Step(st, s[0]), s[1..]);
    }
  }

  /** Each word with the white space after it; only the last may have none. */
  datatype Spaced = Spaced(word: Word, gap: string)

  predicate Laid(ws: seq<Spaced>) {
    forall i :: 0 <= i < |ws| ==> (i < |ws| - 1 ==> ws[i].gap != "") && forall c :: c in ws[i].gap ==> IsSpace(c)
  }

  function Line(ws: seq<Spaced>): string {
    if ws == [] then "" else WordText(ws[0].word) + (ws[0].gap + Line(ws[1..]))
  }

  function Meanings(ws: seq<Spaced>): seq<string> {
    if ws == [] then [] else [WordMeaning(ws[0].word)] + Meanings(ws[1..])
  }

  lemma NoLine()
    ensures Line([]) == "" && Meanings([]) == []
  {
  }

  lemma LineCons(w: Word, gap: string, ws: seq<Spaced>)
    ensures var all := [Spaced(w, gap)] + ws;
      Line(all) == WordText(w) + (gap + Line(ws)) && Meanings(all) == [WordMeaning(w)] + Meanings(ws)
  {
    assert ([Spaced(w, gap)] + ws)[1..] == ws;
  }

  lemma LaidTail(ws: seq<Spaced>)
    requires ws != [] && Laid(ws)
    ensures Laid(ws[1..]) && (ws[0].gap == "" ==> ws[1..] == []) && forall c :: c in ws[0].gap ==> IsSpace(c)
    ensures ws == [Spaced(ws[0].word, ws[0].gap)] + ws[1..]
  {
  }

  lemma {:induction false} LineRead(args: seq<string>, ws: seq<Spaced>)
    requires Laid(ws)
    ensures Flush(Run(State(args, "", false, None, false), Line(ws))) == args + Meanings(ws)
    decreases |ws|
  {
    hide Step, Run, WordText, WordMeaning, Line, Meanings, Laid, Spellable, IsSpace;
    if ws == [] {
      RunNothing(State(args, "", false, None, false));
      NoLine();
      assert args + [] == args;
    } else {
      LaidTail(ws);
      LineCons(ws[0].word, ws[0].gap, ws[1..]);
      var st := State(args, "", false, None, false);
      var m := WordMeaning(ws[0].word);
      WordRead(st, ws[0].word);
      var mid := State(args, m, true, None, false);
      assert "" + m == m;
      RunAppend(st, WordText(ws[0].word), ws[0].gap + Line(ws[1..]));
      RunAppend(mid, ws[0].gap, Line(ws[1..]));
      SpaceRead(mid, ws[0].gap);
      if ws[0].gap == "" {
        NoLine();
        RunNothing(mid);
        assert args + ([m] + []) == args + [m];
      } else {
        LineRead(args + [m], ws[1..]);
        assert args + [m] + Meanings(ws[1..]) == args + ([m] + Meanings(ws[1..]));
      }
    }
  }

  /** However each argument is spelled and whatever white space surrounds them, splitting the line gives
      what the spellings mean. */
  lemma SplitReads(lead: string, ws: seq<Spaced>)
    requires Laid(ws) && forall c :: c in lead ==> IsSpace(c)
    ensures Split(lead + Line(ws)) == Meanings(ws)
  {
    var st := State([], "", false, None, false);
    RunAppend(st, lead, Line(ws));
    SpaceRead(st, lead);
    LineRead([], ws);
    assert [] + Meanings(ws) == Meanings(ws);
  }

  /* ----- where arguments end ----- */

  /** The characters that stand for themselves outside quotes. */
  predicate Plain(s: string) {
    forall c :: c in s ==> c !in " \t\n\"'\\"
  }

  lemma {:induction false} PlainRead(st: State, s: string)
    requires st.quote.None? && !st.esc && Plain(s)
    ensures Run(st, s) == if s == "" then st else st.(cur := st.cur + s, open := true)
    decreases |s|
  {
    if s != "" {
      assert s[0] in s;
      PlainRead(Step(st, s[0]), s[1..]);
      assert st.cur + [s[0]] + s[1..] == st.cur + s;
      assert s[1..] == "" ==> [s[0]] == s;
    }
  }

  /** Between plain texts a blank, a tab and a newline end an argument, and no other plain character does. */
  lemma SeparatesExactly(s: string, c: char, t: string)
    requires s != "" && t != "" && Plain(s) && Plain(t) && c !in "\"'\\"
    ensures Split(s + ([c] + t)) == if c in " \t\n" then [s, t] else [s + [c] + t]
  {
    hide Run, Plain;
    var st := State([], "", false, None, false);
    RunAppend(st, s, [c] + t);
    PlainRead(st, s);
    assert "" + s == s;
    var mid := State([], s, true, None, false);
    RunAppend(mid, [c], t);
    RunOne(mid, c);
    PlainRead(Step(mid, c), t);
    if c in " \t\n" {
      assert "" + t == t && [s] + [t] == [s, t];
    }
  }

  /** What a line leaves when white space follows every word. */
  lemma {:induction false} LineEnds(args: seq<string>, ws: seq<Spaced>)
    requires Laid(ws) && forall i :: 0 <= i < |ws| ==> ws[i].gap != ""
    ensures Run(State(args, "", false, None, false), Line(ws)) == State(args + Meanings(ws), "", false, None, false)
    decreases |ws|
  {
    hide Step, Run, WordText, WordMeaning, Line, Meanings, Laid, Spellable, IsSpace;
    var st := State(args, "", false, None, false);
    NoLine();
    if ws == [] {
      RunNothing(st);
      assert args + [] == args;
    } else {
      LaidTail(ws);
      LineCons(ws[0].word, ws[0].gap, ws[1..]);
      var m := WordMeaning(ws[0].word);
      WordRead(st, ws[0].word);
      var mid := State(args, m, true, None, false);
      assert "" + m == m;
      RunAppend(st, WordText(ws[0].word), ws[0].gap + Line(ws[1..]));
      RunAppend(mid, ws[0].gap, Line(ws[1..]));
      SpaceRead(mid, ws[0].gap);
      LineEnds(args + [m], ws[1..]);
      assert args + [m] + Meanings(ws[1..]) == args + ([m] + Meanings(ws[1..]));
    }
  }

  /** A line that ends inside quotes or on a backslash: what was read of the last argument still counts, also
      when it is nothing. */
  lemma CutShortReads(ws: seq<Spaced>, w: seq<Piece>, cs: seq<Inner>, s: string)
    requires Laid(ws) && (forall i :: 0 <= i < |ws| ==> ws[i].gap != "") && (forall p :: p in w ==> Spellable(p))
    requires Spellable(Double(cs)) && '\'' !in s
    ensures Split(Line(ws) + (WordText(w) + (['"'] + Inside(cs)))) == Meanings(ws) + [WordMeaning(w) + Chars(cs)]
    ensures Split(Line(ws) + (WordText(w) + (['\''] + s))) == Meanings(ws) + [WordMeaning(w) + s]
    ensures Split(Line(ws) + (WordText(w) + ['\\'])) == Meanings(ws) + [WordMeaning(w)]
  {
    hide Run, WordText, WordMeaning, Line, Meanings, Laid, Spellable, Inside, Chars;
    var st, mid := State([], "", false, None, false), State(Meanings(ws), "", false, None, false);
    LineEnds([], ws);
    assert [] + Meanings(ws) == Meanings(ws);
    WordRead(mid, w);
    var end := State(Meanings(ws), WordMeaning(w), w != [], None, false);
    assert "" + WordMeaning(w) == WordMeaning(w);
    RunAppend(st, Line(ws), WordText(w) + (['"'] + Inside(cs)));
    RunAppend(mid, WordText(w), ['"'] + Inside(cs));
    RunAppend(end, ['"'], Inside(cs));
    RunOne(end, '"');
    DoubleRead(Step(end, '"'), cs);
    RunAppend(st, Line(ws), WordText(w) + (['\''] + s));
    RunAppend(mid, WordText(w), ['\''] + s);
    RunAppend(end, ['\''], s);
    RunOne(end, '\'');
    SingleRead(Step(end, '\''), s);
    RunAppend(st, Line(ws), WordText(w) + ['\\']);
    RunAppend(mid, WordText(w), ['\\']);
    RunOne(end, '\\');
  }

  /* ----- quoting ----- */

  /** Double quotes around the text, with a backslash before each quote and backslash in it. */
  function Quoted(s: string): string {
    ['"'] + (Inside(Guarded(s)) + ['"'])
  }

  function Guarded(s: string): (cs: seq<Inner>)
    ensures Spellable(Double(cs)) && Chars(cs) == s
  {
    if s == "" then [] else [Inner(s[0], s[0] == '"' || s[0] == '\\')] + Guarded(s[1..])
  }

  function Joined(args: seq<string>): string {
    if args == [] then "" else if |args| == 1 then Quoted(args[0]) else Quoted(args[0]) + " " + Joined(args[1..])
  }

  function Spelled(args: seq<string>): (ws: seq<Spaced>)
    ensures |ws| == |args| && Laid(ws)
  {
    if args == [] then []
    else [Spaced([Double(Guarded(args[0]))], if |args| == 1 then "" else " ")] + Spelled(args[1..])
  }

  lemma QuotedIsWord(s: string)
    ensures WordText([Double(Guarded(s))]) == Quoted(s) && WordMeaning([Double(Guarded(s))]) == s
  {
    var w := [Double(Guarded(s))];
    assert w[1..] == [];
    assert WordText(w) == Text(w[0]) + "" && WordMeaning(w) == Meaning(w[0]) + "";
  }

  lemma {:induction false} SpelledIsJoined(args: seq<string>)
    ensures Line(Spelled(args)) == Joined(args) && Meanings(Spelled(args)) == args
  {
    hide WordText, WordMeaning, Quoted, Guarded, Line, Meanings, Spellable, Laid;
    if args == [] {
      NoLine();
    } else {
      QuotedIsWord(args[0]);
      SpelledIsJoined(args[1..]);
      var gap := if |args| == 1 then "" else " ";
      LineCons([Double(Guarded(args[0]))], gap, Spelled(args[1..]));
      assert [args[0]] + args[1..] == args;
      if |args| == 1 {
        assert args[1..] == [];
        assert Quoted(args[0]) + ("" + "") == Quoted(args[0]);
      } else {
        assert Quoted(args[0]) + (" " + Joined(args[1..])) == Quoted(args[0]) + " " + Joined(args[1..]);
      }
    }
  }

  /** Quoting every argument and joining them with blanks is undone by splitting. */
  lemma SplitUndoesQuoting(args: seq<string>)
    ensures Split(Joined(args)) == args
  {
    SpelledIsJoined(args);
    SplitReads("", Spelled(args));
    assert "" + Joined(args) == Joined(args);
  }
}

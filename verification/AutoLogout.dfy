/** Logging idle sessions off: what one sample decides, and what that means over many samples. */
module AutoLogout {
  import opened Wrappers

  const MINUTE := 60_000_000_000
  const SECOND := 1_000_000_000
  const MIN_MINUTES := 5
  const DEFAULT_MESSAGE :=
    "You are about to be logged out for inactivity. Move the mouse or press a key to stay logged in."

  datatype Policy = Policy(minutes: int64, warnSeconds: int64, message: string)

  /** One session and how long it has been idle, in nanoseconds. */
  datatype Idle = Idle(key: string, user: string, idle: int64)

  datatype Action = Warn(key: string, user: string, message: string, left: int64) | Logoff(key: string, user: string)

  predicate Enabled(p: Policy) {
    p.minutes >= MIN_MINUTES
  }

  /** Go's duration arithmetic is 64-bit and does not say when it overflows. */
  function Limit(p: Policy): int64 {
    Wrap64(p.minutes * MINUTE)
  }

  /** Division by two that rounds toward zero. */
  function Half(n: int): (h: int)
    ensures if n < 0 then h <= 0 && n <= 2 * h <= n + 1 else h >= 0 && n - 1 <= 2 * h <= n
  {
    if n < 0 then -(-n / 2) else n / 2
  }

  function Warning(p: Policy): int64 {
    var w := Wrap64(p.warnSeconds * SECOND);
    if w >= Limit(p) then Half(Limit(p)) else w
  }

  function Message(p: Policy): string {
    if p.message == "" then DEFAULT_MESSAGE else p.message
  }

  /** Close enough to the limit to be warned. */
  predicate InBand(p: Policy, idle: int64) {
    0 < Warning(p) && Limit(p) - Warning(p) <= idle < Limit(p)
  }

  /** The sessions inside the warning band. */
  function Band(p: Policy, idle: seq<Idle>): set<string> {
    if Enabled(p) then set s | s in idle && InBand(p, s.idle) :: s.key else {}
  }

  /** What one session gets, given whether it has been warned. */
  function Decision(p: Policy, s: Idle, warned: bool): Option<Action> {
    if s.idle >= Limit(p) then Some(Logoff(s.key, s.user))
    else if InBand(p, s.idle) && !warned then
      Some(Warn(s.key, s.user, Message(p), Limit(p) - s.idle))
    else None
  }

  predicate Distinct(idle: seq<Idle>) {
    forall i, j :: 0 <= i < j < |idle| ==> idle[i].key != idle[j].key
  }

  /** What all sessions get, in their order. */
  function Decisions(p: Policy, idle: seq<Idle>, warned: set<string>): (out: seq<Action>)
    ensures forall a :: a in out <==> exists s :: s in idle && Decision(p, s, s.key in warned) == Some(a)
  {
    if idle == [] then []
    else
      var k := |idle| - 1;
      var s := idle[k];
      var d := Decision(p, s, s.key in warned);
      assert forall t :: t in idle <==> t in idle[..k] || t == s;
      Decisions(p, idle[..k], warned) + if d.None? then [] else [d.value]
  }

  /* ----- order ----- */

  predicate NotAfter(a: string, b: string) {
    a == "" || (b != "" && (a[0] < b[0] || (a[0] == b[0] && NotAfter(a[1..], b[1..]))))
  }

  lemma {:induction false} NotAfterTotal(a: string, b: string)
    ensures NotAfter(a, b) || NotAfter(b, a)
  {
    if a != "" && b != "" {
      NotAfterTotal(a[1..], b[1..]);
    }
  }

  lemma {:induction false} NotAfterTrans(a: string, b: string, c: string)
    requires NotAfter(a, b) && NotAfter(b, c)
    ensures NotAfter(a, c)
  {
    if a != "" {
      if a[0] == b[0] == c[0] {
        NotAfterTrans(a[1..], b[1..], c[1..]);
      }
    }
  }

  predicate Ordered(out: seq<Action>) {
    forall i, j :: 0 <= i < j < |out| ==> NotAfter(out[i].key, out[j].key)
  }

  lemma PlacedMembers(out: seq<Action>, i: nat, a: Action)
    requires i <= |out|
    ensures multiset(out[..i] + [a] + out[i..]) == multiset(out) + multiset{a}
  {
    assert out == out[..i] + out[i..];
    assert multiset(out) == multiset(out[..i]) + multiset(out[i..]);
  }

  /** Putting a between those not after it and those it is not after. */
  lemma Placed(out: seq<Action>, i: nat, a: Action)
    requires Ordered(out) && i <= |out|
    requires i > 0 ==> NotAfter(out[i - 1].key, a.key)
    requires forall j :: i <= j < |out| ==> NotAfter(a.key, out[j].key)
    ensures var r := out[..i] + [a] + out[i..]; Ordered(r) && multiset(r) == multiset(out) + multiset{a}
  {
    hide NotAfter;
    PlacedMembers(out, i, a);
    forall j | 0 <= j < i
      ensures NotAfter(out[j].key, a.key)
    {
      if j < i - 1 {
        NotAfterTrans(out[j].key, out[i - 1].key, a.key);
      }
    }
  }

  method Insert(out: seq<Action>, a: Action) returns (r: seq<Action>)
    requires Ordered(out)
    ensures Ordered(r) && multiset(r) == multiset(out) + multiset{a}
  {
    hide NotAfter, Ordered;
    var i := |out|;
    while i > 0 && !NotAfter(out[i - 1].key, a.key)
      invariant 0 <= i <= |out| && forall j :: i <= j < |out| ==> NotAfter(a.key, out[j].key)
    {
      NotAfterTotal(out[i - 1].key, a.key);
      i := i - 1;
    }
    Placed(out, i, a);
    r := out[..i] + [a] + out[i..];
  }

  /** Sorts by key. */
  method SortByKey(acts: seq<Action>) returns (out: seq<Action>)
    ensures Ordered(out) && multiset(out) == multiset(acts)
  {
    out := [];
    for n := 0 to |acts|
      invariant Ordered(out) && multiset(out) == multiset(acts[..n])
    {
      assert acts[..n + 1] == acts[..n] + [acts[n]];
      out := Insert(out, acts[n]);
    }
    assert acts[..|acts|] == acts;
  }

  /* ----- one sample ----- */

  lemma DecisionsEmpty(p: Policy, warned: set<string>)
    ensures Decisions(p, [], warned) == []
  {
  }

  lemma DecisionsSnoc(p: Policy, idle: seq<Idle>, i: nat, warned: set<string>)
    requires i < |idle|
    ensures var d := Decision(p, idle[i], idle[i].key in warned);
      Decisions(p, idle[..i + 1], warned) == Decisions(p, idle[..i], warned) + if d.None? then [] else [d.value]
  {
    assert idle[..i + 1][..i] == idle[..i];
  }

  lemma BandSnoc(p: Policy, idle: seq<Idle>, i: nat)
    requires Enabled(p) && i < |idle|
    ensures Band(p, idle[..i + 1]) == Band(p, idle[..i]) + if InBand(p, idle[i].idle) then {idle[i].key} else {}
    ensures Keys(idle[..i + 1]) == Keys(idle[..i]) + {idle[i].key} && Band(p, idle[..i]) <= Keys(idle[..i])
    ensures Distinct(idle) ==> idle[i].key !in Keys(idle[..i])
  {
    hide InBand, Decision;
    assert idle[..i + 1][..i] == idle[..i];
    assert forall t :: t in idle[..i + 1] <==> t in idle[..i] || t == idle[i];
  }

  lemma BandIsLive(p: Policy, idle: seq<Idle>)
    ensures Band(p, idle) <= Keys(idle) && Band(p, []) == {} && Keys([]) == {} && (!Enabled(p) ==> Band(p, idle) == {})
  {
    hide InBand;
  }

  lemma SameMembers(s: seq<Action>, t: seq<Action>)
    requires multiset(s) == multiset(t)
    ensures forall a :: a in s <==> a in t
  {
    forall a
      ensures a in s <==> a in t
    {
      assert a in s <==> a in multiset(s);
      assert a in t <==> a in multiset(t);
    }
  }

  lemma DisabledBand(p: Policy, idle: seq<Idle>)
    ensures !Enabled(p) ==> Band(p, idle) == {}
  {
  }

  class Planner {
    /** The sessions already warned. */
    var warned: set<string>

    /** One session of a sample. */
    method Consider(p: Policy, s: Idle, limit: int64, warn: int64, msg: string) returns (act: Option<Action>)
      requires limit == Limit(p) && warn == Warning(p) && msg == Message(p)
      modifies this
      ensures act == Decision(p, s, s.key in old(warned))
      ensures warned == if InBand(p, s.idle) then old(warned) + {s.key} else old(warned) - {s.key}
    {
      hide Wrap64, Half, Message;
      if s.idle >= limit {
        warned := warned - {s.key};
        return Some(Logoff(s.key, s.user));
      }
      if warn > 0 && s.idle >= limit - warn {
        if s.key in warned {
          return None;
        }
        warned := warned + {s.key};
        return Some(Warn(s.key, s.user, msg, limit - s.idle));
      }
      warned := warned - {s.key};
      return None;
    }

    /** After a sample the warned sessions are exactly those inside the band, whatever was remembered. */
    method Plan(p: Policy, idle: seq<Idle>) returns (out: seq<Action>)
      modifies this
      ensures !Enabled(p) ==> out == [] && warned == {}
      ensures Distinct(idle) ==> warned == Band(p, idle)
      ensures Ordered(out)
      ensures Enabled(p) && Distinct(idle) ==> multiset(out) == multiset(Decisions(p, idle, old(warned)))
      ensures Enabled(p) && Distinct(idle) ==>
        forall a :: a in out <==> exists s :: s in idle && Decision(p, s, s.key in old(warned)) == Some(a)
    {
      hide Wrap64, Band, Keys, Distinct, Decisions, Decision, InBand;
      BandIsLive(p, idle);
      if !Enabled(p) {
        warned := {};
        return [];
      }
      var limit, warn := Limit(p), Wrap64(p.warnSeconds * SECOND);
      if warn >= limit {
        warn := Half(limit);
      }
      var msg := p.message;
      if msg == "" {
        msg := DEFAULT_MESSAGE;
      }
      var live: set<string> := {};
      out := [];
      DecisionsEmpty(p, warned);
      for i := 0 to |idle|
        invariant live == Keys(idle[..i])
        invariant Distinct(idle) ==> warned == old(warned) - live + Band(p, idle[..i])
        invariant Distinct(idle) ==> out == Decisions(p, idle[..i], old(warned))
      {
        BandSnoc(p, idle, i);
        DecisionsSnoc(p, idle, i, old(warned));
        live := live + {idle[i].key};
        var act := Consider(p, idle[i], limit, warn, msg);
        if act.Some? {
          out := out + [act.value];
        }
      }
      assert idle[..|idle|] == idle;
      warned := set k | k in warned && k in live;
      ghost var acts := out;
      out := SortByKey(out);
      SameMembers(out, acts);
    }

    /** The sampler's calls, one plan after another, in a process that began with nobody warned. */
    method Watch(run: seq<Sample>) returns (outs: seq<seq<Action>>)
      requires warned == {}
      modifies this
      ensures |outs| == |run|
      ensures AreSamples(run) ==>
        warned == WarnedBefore(run, |run|) &&
        forall i :: 0 <= i < |run| ==> multiset(outs[i]) == multiset(Actions(run, i))
    {
      hide Decisions, Band;
      outs := [];
      for i := 0 to |run|
        invariant |outs| == i
        invariant AreSamples(run) ==>
          warned == WarnedBefore(run, i) && forall k :: 0 <= k < i ==> multiset(outs[k]) == multiset(Actions(run, k))
      {
        var out := Plan(run[i].p, run[i].idle);
        DisabledBand(run[i].p, run[i].idle);
        outs := outs + [out];
      }
    }
  }

  function Keys(idle: seq<Idle>): set<string> {
    set s | s in idle :: s.key
  }

  /* ----- many samples ----- */

  datatype Sample = Sample(p: Policy, idle: seq<Idle>)

  ghost predicate AreSamples(run: seq<Sample>) {
    forall i :: 0 <= i < |run| ==> Distinct(run[i].idle)
  }

  /** The warned set before sample i, in a process that began with none. */
  function WarnedBefore(run: seq<Sample>, i: nat): set<string>
    requires i <= |run|
  {
    if i == 0 then {} else Band(run[i - 1].p, run[i - 1].idle)
  }

  /** What sample i comes to: the plan's actions, up to their order. */
  function Actions(run: seq<Sample>, i: nat): seq<Action>
    requires i < |run|
  {
    if Enabled(run[i].p) then Decisions(run[i].p, run[i].idle, WarnedBefore(run, i)) else []
  }

  lemma ActionsAre(run: seq<Sample>, i: nat, key: string)
    requires i < |run|
    ensures Warns(run, i, key) <==> exists a :: a in Actions(run, i) && a.Warn? && a.key == key
    ensures LogsOff(run, i, key) <==> exists a :: a in Actions(run, i) && a.Logoff? && a.key == key
  {
    if Enabled(run[i].p) {
      forall s | s in run[i].idle && Gets(run, i, s).Some?
        ensures Gets(run, i, s).value in Actions(run, i) && Gets(run, i, s).value.key == s.key
      {
      }
      forall a | a in Actions(run, i)
        ensures exists s :: s in run[i].idle && Gets(run, i, s) == Some(a) && s.key == a.key
      {
        var s :| s in run[i].idle && Decision(run[i].p, s, s.key in WarnedBefore(run, i)) == Some(a);
        assert Gets(run, i, s) == Some(a);
      }
    }
  }

  /** Who is logged off, who is warned, and what a warning says: the time that remains to the limit, which is
      never nothing and never more than the warning period. */
  lemma SaysWhatIsLeft(run: seq<Sample>, i: nat, s: Idle)
    requires i < |run|
    ensures var p, g := run[i].p, Gets(run, i, s);
      && (s.idle >= Limit(p) <==> g == Some(Logoff(s.key, s.user)))
      && (s.idle < Limit(p) && s.idle >= Limit(p) - Warning(p) && Warning(p) > 0 && s.key !in WarnedBefore(run, i) <==>
            g.Some? && g.value.Warn?)
      && (g.Some? && g.value.Warn? ==>
            && g.value.key == s.key && g.value.user == s.user && s.idle + g.value.left == Limit(p)
            && 0 < g.value.left <= Warning(p) && (p.message != "" ==> g.value.message == p.message))
  {
  }

  predicate Warns(run: seq<Sample>, i: nat, key: string)
    requires i < |run|
  {
    && Enabled(run[i].p)
    && exists s :: s in run[i].idle && s.key == key && Gets(run, i, s).Some? && Gets(run, i, s).value.Warn?
  }

  predicate LogsOff(run: seq<Sample>, i: nat, key: string)
    requires i < |run|
  {
    && Enabled(run[i].p)
    && exists s :: s in run[i].idle && s.key == key && Gets(run, i, s).Some? && Gets(run, i, s).value.Logoff?
  }

  /** What a session gets at sample i. */
  function Gets(run: seq<Sample>, i: nat, s: Idle): Option<Action>
    requires i < |run|
  {
    Decision(run[i].p, s, s.key in WarnedBefore(run, i))
  }

  predicate Inside(run: seq<Sample>, i: nat, key: string)
    requires i < |run|
  {
    key in Band(run[i].p, run[i].idle)
  }

  /** A session is warned just when it is inside the band and was not at the sample before. */
  lemma WarnsOnEntry(run: seq<Sample>, i: nat, key: string)
    requires AreSamples(run) && i < |run|
    ensures Warns(run, i, key) <==> Inside(run, i, key) && (i == 0 || !Inside(run, i - 1, key))
  {
    var p, idle := run[i].p, run[i].idle;
    if Inside(run, i, key) && key !in WarnedBefore(run, i) {
      var s :| s in idle && InBand(p, s.idle) && s.key == key;
      assert Gets(run, i, s).value.Warn?;
    }
  }

  /** Two warnings to one session are separated by a sample that saw it outside the band. */
  lemma WarningsApart(run: seq<Sample>, i: nat, j: nat, key: string)
    requires AreSamples(run) && i < j < |run| && Warns(run, i, key) && Warns(run, j, key)
    ensures exists m :: i < m < j && !Inside(run, m, key)
  {
    hide Warns, Inside;
    WarnsOnEntry(run, i, key);
    WarnsOnEntry(run, j, key);
    assert !Inside(run, j - 1, key);
  }

  /** Warned at some sample, and inside the band from there to the sample before j. */
  ghost predicate WarnedUpTo(run: seq<Sample>, j: nat, key: string)
    requires j <= |run|
  {
    exists i :: 0 <= i < j && Warns(run, i, key) && forall m :: i <= m < j ==> Inside(run, m, key)
  }

  lemma {:induction false} InsideMeansWarned(run: seq<Sample>, j: nat, key: string)
    requires AreSamples(run) && j < |run| && Inside(run, j, key)
    ensures WarnedUpTo(run, j + 1, key)
  {
    hide Warns, Inside;
    WarnsOnEntry(run, j, key);
    if Warns(run, j, key) {
      assert forall m :: j <= m < j + 1 ==> Inside(run, m, key);
    } else {
      InsideMeansWarned(run, j - 1, key);
      var i :| 0 <= i < j && Warns(run, i, key) && forall m :: i <= m < j ==> Inside(run, m, key);
      assert forall m :: i <= m < j + 1 ==> Inside(run, m, key);
    }
  }

  /** How long a session was idle at a sample that lists it. */
  predicate Sees(s: Sample, key: string, idle: int64) {
    exists x :: x in s.idle && x.key == key && x.idle == idle
  }

  lemma InsideIfSeen(run: seq<Sample>, i: nat, key: string, idle: int64)
    requires AreSamples(run) && i < |run| && Sees(run[i], key, idle)
    ensures Inside(run, i, key) <==> Enabled(run[i].p) && InBand(run[i].p, idle)
  {
    hide InBand;
    var x :| x in run[i].idle && x.key == key && x.idle == idle;
    assert forall y :: y in run[i].idle && y.key == key ==> y == x;
  }

  /** A session was warned up to a sample just when the sample before saw it inside the band. So one that was
      below the limit there and is logged off now was warned, unless it was not yet in the band; and under one
      policy it was, if it grew by no more than the warning. */
  lemma LoggedOffWarned(run: seq<Sample>, j: nat, key: string, was: int64, now: int64)
    requires AreSamples(run) && 0 < j < |run| && Enabled(run[j].p)
    requires Sees(run[j - 1], key, was) && Sees(run[j], key, now) && Limit(run[j].p) <= now
    ensures LogsOff(run, j, key)
    ensures WarnedUpTo(run, j, key) <==> Inside(run, j - 1, key)
    ensures Inside(run, j - 1, key) <==> Enabled(run[j - 1].p) && InBand(run[j - 1].p, was)
    ensures run[j - 1].p == run[j].p && was < Limit(run[j].p) && 0 < Warning(run[j].p) && now - was <= Warning(run[j].p)
      ==> WarnedUpTo(run, j, key)
  {
    var p := run[j].p;
    var s :| s in run[j].idle && s.key == key && s.idle == now;
    assert Gets(run, j, s).value.Logoff?;
    InsideIfSeen(run, j - 1, key, was);
    if Inside(run, j - 1, key) {
      InsideMeansWarned(run, j - 1, key);
    }
  }

  /* ----- overflow ----- */

  const MAX_MINUTES := 153722867

  /** The limit is the policy's minutes just up to this many; beyond, the duration wraps round. */
  lemma LimitIsMinutesExactly(p: Policy)
    requires Enabled(p)
    ensures Limit(p) == p.minutes * MINUTE <==> p.minutes <= MAX_MINUTES
  {
  }

  /** The input that shows it: one minute more, and a session that is not idle at all is logged off. */
  lemma OverflowLogsOff(user: string)
    ensures var p := Policy(MAX_MINUTES + 1, 0, "");
      Enabled(p) && Decision(p, Idle("1", user, 0), false) == Some(Logoff("1", user))
  {
  }

  const MAX_SECONDS := 9223372036

  /** What the clamp is for: the seconds asked for, or half the limit if they are as long as the limit. */
  function Clamped(p: Policy): int {
    if p.warnSeconds * SECOND >= p.minutes * MINUTE then p.minutes * MINUTE / 2 else p.warnSeconds * SECOND
  }

  /** The warning is that up to this many seconds. Beyond, the duration wraps round before it is clamped, and
      the warning is as long as the clamp makes it only where what it wrapped to is long enough by chance. */
  lemma WarningIsClampedExactly(p: Policy)
    requires Enabled(p) && p.minutes <= MAX_MINUTES && p.warnSeconds >= 0
    ensures Warning(p) == Clamped(p) <==>
      p.warnSeconds <= MAX_SECONDS || Wrap64(p.warnSeconds * SECOND) >= Limit(p)
        || Wrap64(p.warnSeconds * SECOND) == Half(Limit(p))
  {
    LimitIsMinutesExactly(p);
    SecondsFit(p);
  }

  lemma SecondsFit(p: Policy)
    ensures Wrap64(p.warnSeconds * SECOND) == p.warnSeconds * SECOND <==> -MAX_SECONDS <= p.warnSeconds <= MAX_SECONDS
  {
  }

  /** The input that shows it: one second more, and nobody is ever warned, however long idle. */
  lemma OverflowNeverWarns(s: Idle, warned: bool)
    ensures var p := Policy(5, MAX_SECONDS + 1, "");
      Enabled(p) && Clamped(p) == 150 * SECOND && Warning(p) < 0 && Decision(p, s, warned) ==
        if s.idle >= 300 * SECOND then Some(Logoff(s.key, s.user)) else None
  {
  }
}

/** The guard around a native directory mutation: a named system mutex, and a process-wide latch that a
    failed release sets. First the guard as the code runs it, then any number of callers in any number
    of processes, interleaved at every operation. */
module Guard {
  import opened Wrappers

  /** WAIT_OBJECT_0, WAIT_ABANDONED, WAIT_TIMEOUT, or anything else. */
  datatype Wait = Free | Abandoned | Timeout | NoWait

  /** How the callback ends. `Exits` leaves it without a result, as runtime.Goexit does. */
  datatype Body = Returns | Panics | Exits

  datatype PC = Entering | Opening | Waiting | Checking | Running | Releasing | Latching | Closing | Leaving | Done

  /** One call of the guard: where it stands, how its wait ended, how often its callback was started,
      whether its thread is to be retired. */
  datatype Caller = Caller(pc: PC, wait: Option<Wait>, runs: nat, retire: bool)

  const NEW := Caller(Entering, None, 0, false)

  /** What the system answers at each point of one call. */
  datatype Answers = Answers(created: bool, wait: Wait, body: Body, released: bool, closed: bool)

  /** One operation of one call, as a change of the call and of the process latch. */
  function Step(c: Caller, blocked: bool, w: Answers): (Caller, bool) {
    match c.pc
    case Entering => (c.(pc := if blocked then Done else Opening), blocked)
    case Opening => (c.(pc := if w.created then Waiting else Done), blocked)
    case Waiting =>
      (c.(wait := Some(w.wait),
          pc := if w.wait.Free? then Checking else if w.wait.Abandoned? then Releasing else Closing),
       blocked)
    case Checking =>
      (if blocked then c.(pc := Releasing) else c.(pc := Running, runs := c.runs + 1), blocked)
    case Running => (c.(pc := Releasing), blocked)
    case Releasing => (c.(pc := if w.released then Closing else Latching), blocked)
    case Latching => (c.(pc := Closing, retire := true), true)
    case Closing => (c.(pc := Leaving), blocked)
    case Leaving => (c.(pc := Done), blocked)
    case Done => (c, blocked)
  }

  function Ahead(pc: PC): nat {
    match pc
    case Entering => 9
    case Opening => 8
    case Waiting => 7
    case Checking => 6
    case Running => 5
    case Releasing => 4
    case Latching => 3
    case Closing => 2
    case Leaving => 1
    case Done => 0
  }

  function Solo(c: Caller, blocked: bool, w: Answers): (Caller, bool)
    decreases Ahead(c.pc)
  {
    if c.pc == Done then (c, blocked)
    else var (c', b') := Step(c, blocked, w); Solo(c', b', w)
  }

  lemma SoloCloses(c: Caller, blocked: bool, w: Answers)
    requires c.pc.Closing?
    ensures Solo(c, blocked, w) == (c.(pc := Done), blocked)
  {
    var c' := c.(pc := Leaving);
    assert Solo(c, blocked, w) == Solo(c', blocked, w);
    assert Solo(c', blocked, w) == Solo(c.(pc := Done), blocked, w);
  }

  /** What a call comes to when nothing interferes. */
  lemma SoloComesTo(blocked: bool, w: Answers)
    ensures var owned := !blocked && w.created && (w.wait.Free? || w.wait.Abandoned?);
      Solo(NEW, blocked, w) ==
        (Caller(Done, if !blocked && w.created then Some(w.wait) else None,
           if owned && w.wait.Free? then 1 else 0, owned && !w.released),
         blocked || (owned && !w.released))
  {
    var (c1, b1) := Step(NEW, blocked, w);
    if c1.pc != Done {
      var (c2, b2) := Step(c1, b1, w);
      if c2.pc != Done {
        var (c3, b3) := Step(c2, b2, w);
        if c3.pc != Closing {
          var (c4, b4) := if c3.pc == Checking then Step(c3, b3, w) else (c3, b3);
          assert Solo(c3, b3, w) == Solo(c4, b4, w);
          var (c5, b5) := if c4.pc == Running then Step(c4, b4, w) else (c4, b4);
          assert Solo(c4, b4, w) == Solo(c5, b5, w);
          var (c6, b6) := Step(c5, b5, w);
          assert Solo(c5, b5, w) == Solo(c6, b6, w);
          var (c7, b7) := if c6.pc == Latching then Step(c6, b6, w) else (c6, b6);
          assert Solo(c6, b6, w) == Solo(c7, b7, w);
          SoloCloses(c7, b7, w);
        } else {
          SoloCloses(c3, b3, w);
        }
      }
    }
  }

  /* ----- the guard as the code runs it ----- */

  datatype Stage = Blocked | Create | WaitFailed | AbandonedOwner | TimedOut | NoResult | Release | Close

  class MutationGuard {
    var blocked: bool

    constructor ()
      ensures !blocked
    {
      blocked := false;
    }

    /** Runs the callback at most once, and only when the wait returned clean ownership and no earlier
        release failed. What it owns it releases once, what it opened it closes once, after that. Every
        failure is reported, unless the callback panics: then the caller gets the panic and no error, also
        of a failed release, which the latch remembers all the same. */
    method With(w: Answers) returns (runs: nat, errors: seq<Stage>, panicked: bool, retire: bool)
      modifies this
      ensures var (c, b) := Solo(NEW, old(blocked), w); blocked == b && runs == c.runs && retire == c.retire
      ensures runs == if !old(blocked) && w.created && w.wait.Free? then 1 else 0
      ensures panicked <==> runs == 1 && w.body.Panics?
      ensures panicked ==> errors == []
      ensures errors == [] && !panicked ==> old(!blocked) && runs == 1 && w.released && w.closed && !w.body.Exits?
      ensures Stage.Release in errors <==> retire && !panicked
      ensures retire ==> blocked && (w.wait.Free? || w.wait.Abandoned?)
      ensures old(blocked) ==> errors == [Stage.Blocked]
    {
      SoloComesTo(blocked, w);
      runs, errors, panicked, retire := 0, [], false, false;
      if blocked {
        return 0, [Stage.Blocked], false, false;
      }
      var owned, started, completed := false, false, false;
      if !w.created {
        return 0, [Create], false, false;
      }
      match w.wait {
        case Free =>
          owned := true;
          if blocked {
            errors := errors + [Stage.Blocked];
          } else {
            started, runs := true, runs + 1;
            match w.body {
              case Returns => completed := true;
              case Panics => panicked := true;
              case Exits =>
            }
          }
        case Abandoned =>
          owned := true;
          errors := errors + [AbandonedOwner];
        case Timeout =>
          errors := errors + [TimedOut];
        case NoWait =>
          errors := errors + [WaitFailed];
      }
      if started && !completed && !panicked {
        errors := errors + [NoResult];
      }
      if owned && !w.released {
        blocked := true;
        retire := true;
        errors := errors + [Stage.Release];
      }
      if !w.closed {
        errors := errors + [Close];
      }
      // The panic goes on to the caller in place of what was collected.
      if panicked {
        errors := [];
      }
    }
  }

  /* ----- many callers ----- */

  /** The system's mutex: it lives while a handle is open, and a thread that exits as its owner leaves
      it abandoned. */
  datatype Mutex = Mutex(handles: set<nat>, owner: Option<nat>, abandoned: bool)

  /** `home` is the process of each call; `blocked` and `failed` are the processes whose latch is set
      and those in which some release has failed. */
  datatype World = World(calls: seq<Caller>, home: seq<nat>, blocked: set<nat>, failed: set<nat>, m: Mutex)

  /** What the system may answer call `i` now. A failed create, wait or close is always possible. */
  predicate Possible(s: World, i: nat, w: Answers)
    requires i < |s.calls|
  {
    match s.calls[i].pc
    case Waiting =>
      (match w.wait
        case Free => s.m.owner.None? && !s.m.abandoned
        case Abandoned => s.m.owner.None? && s.m.abandoned
        case Timeout => s.m.owner.Some?
        case NoWait => true)
    case Releasing => w.released ==> s.m.owner == Some(i)
    case _ => true
  }

  /** The effect of that operation on the mutex. `kept`: a release that fails leaves its owner. */
  function Touch(m: Mutex, i: nat, c: Caller, w: Answers, kept: bool): Mutex {
    match c.pc
    case Opening =>
      if !w.created then m
      else if m.handles == {} then Mutex({i}, None, false) else m.(handles := m.handles + {i})
    case Waiting =>
      if w.wait.Free? || w.wait.Abandoned? then m.(owner := Some(i), abandoned := false) else m
    case Releasing => if w.released || (!kept && m.owner == Some(i)) then m.(owner := None) else m
    case Closing =>
      if !w.closed then m
      else if m.handles <= {i} then Mutex({}, None, false) else m.(handles := m.handles - {i})
    case Leaving =>
      if c.retire && m.owner == Some(i) then m.(owner := None, abandoned := true) else m
    case _ => m
  }

  ghost predicate WellFormed(s: World) {
    |s.calls| == |s.home|
  }

  function Next(s: World, i: nat, w: Answers, kept: bool): World
    requires i < |s.calls| == |s.home|
  {
    var c, p := s.calls[i], s.home[i];
    var (c', b) := Step(c, p in s.blocked, w);
    World(s.calls[i := c'], s.home, if b then s.blocked + {p} else s.blocked,
      if c.pc.Releasing? && !w.released then s.failed + {p} else s.failed, Touch(s.m, i, c, w, kept))
  }

  /** The handles that other processes hold. */
  function Surviving(s: World, p: nat): set<nat> {
    set i | i in s.m.handles && !(i < |s.home| && s.home[i] == p)
  }

  /** A process dies: its calls are over, its handles close, and what it owned is left abandoned. A dead
      process starts nothing, which `blocked` says as well. */
  function Die(s: World, p: nat): World
    requires |s.calls| == |s.home|
  {
    var left := Surviving(s, p);
    var lost := s.m.owner.Some? && s.m.owner.value < |s.home| && s.home[s.m.owner.value] == p;
    World(seq(|s.calls|, i requires 0 <= i < |s.calls| =>
            if s.home[i] == p then s.calls[i].(pc := Done) else s.calls[i]),
      s.home, s.blocked + {p}, s.failed + {p},
      if left == {} then Mutex({}, None, false)
      else if lost then Mutex(left, None, true) else s.m.(handles := left))
  }

  datatype Move = Move(i: nat, w: Answers) | Death(p: nat)

  ghost predicate Allowed(s: World, m: Move) {
    WellFormed(s) && (m.Move? ==> m.i < |s.calls| && Possible(s, m.i, m.w))
  }

  function After(s: World, m: Move): World
    requires |s.calls| == |s.home| && (m.Move? ==> m.i < |s.calls|)
  {
    match m
    case Move(i, w) => Next(s, i, w, true)
    case Death(p) => Die(s, p)
  }

  ghost predicate IsRun(run: seq<World>, moves: seq<Move>) {
    && |run| == |moves| + 1
    && WellFormed(run[0]) && run[0].blocked == {} && run[0].failed == {} && run[0].m == Mutex({}, None, false)
    && (forall i :: 0 <= i < |run[0].calls| ==> run[0].calls[i] == NEW)
    && (forall k :: 0 <= k < |moves| ==>
          Allowed(run[k], moves[k]) && run[k + 1] == After(run[k], moves[k]))
  }

  predicate Holds(pc: PC) {
    pc.Checking? || pc.Running? || pc.Releasing? || pc.Latching?
  }

  predicate CallOk(s: World, i: nat)
    requires i < |s.calls| == |s.home|
  {
    var c := s.calls[i];
    && (Holds(c.pc) ==> s.m.owner == Some(i) && i in s.m.handles)
    && (c.pc.Waiting? ==> i in s.m.handles)
    && (c.pc.Entering? || c.pc.Opening? || c.pc.Waiting? || c.pc.Checking? ==> c.runs == 0)
    && (c.pc.Checking? ==> c.wait == Some(Free))
    && (c.runs <= 1) && (c.runs == 1 ==> c.wait == Some(Free))
    && (c.pc.Running? ==> c.runs == 1)
    && (c.pc.Latching? ==> s.home[i] in s.failed)
  }

  ghost predicate Inv(s: World) {
    && WellFormed(s) && s.blocked <= s.failed
    && (forall i :: 0 <= i < |s.calls| ==> CallOk(s, i))
    && (forall p :: p in s.failed - s.blocked ==>
          exists i :: 0 <= i < |s.calls| && s.home[i] == p && s.calls[i].pc.Latching?)
  }

  /** A thread that is retired as the owner, after a release that failed, is noticed: whoever waits next, with a
      handle to the same mutex, is told that it was abandoned or gets no answer, and starts no callback. */
  lemma RetiredIsNoticed(s: World, i: nat, w: Answers, j: nat, x: Answers)
    requires Allowed(s, Move(i, w)) && s.calls[i].pc.Leaving? && s.calls[i].retire && s.m.owner == Some(i)
    requires j < |s.calls| && j != i && s.calls[j].pc.Waiting?
    ensures var t := After(s, Move(i, w));
      Possible(t, j, x) ==> x.wait in {Abandoned, NoWait} && After(t, Move(j, x)).calls[j].pc in {Releasing, Closing}
  {
  }

  /** A mutex that was just created is nobody's; one that was acquired, cleanly or not, is its owner's alone until
      the release. */
  lemma FreshIsFree(s: World, i: nat, w: Answers, x: Answers)
    requires Allowed(s, Move(i, w))
    ensures var t := After(s, Move(i, w));
      && (s.calls[i].pc.Opening? && w.created && s.m.handles == {} && Possible(t, i, x) ==> x.wait in {Free, NoWait})
      && (s.calls[i].pc.Waiting? && w.wait in {Free, Abandoned} ==>
            forall j :: 0 <= j < |t.calls| && t.calls[j].pc.Waiting? && Possible(t, j, x) ==>
              x.wait in {Timeout, NoWait})
      && (s.calls[i].pc.Releasing? && w.released ==>
            forall j :: 0 <= j < |t.calls| && t.calls[j].pc.Waiting? && Possible(t, j, x) ==> x.wait != Timeout)
      && (s.calls[i].pc.Releasing? && !w.released ==> t.m == s.m)
  {
  }

  /** A handle that was closed is gone; with the last one the mutex itself is. */
  lemma ClosedIsGone(s: World, i: nat, w: Answers)
    requires Allowed(s, Move(i, w)) && s.calls[i].pc.Closing?
    ensures After(s, Move(i, w)).m.handles == if w.closed then s.m.handles - {i} else s.m.handles
    ensures w.closed && s.m.handles <= {i} ==> After(s, Move(i, w)).m == Mutex({}, None, false)
    ensures !(w.closed && s.m.handles <= {i}) ==> After(s, Move(i, w)).m.owner == s.m.owner
  {
  }

  lemma StepKeepsCalls(s: World, m: Move)
    requires Inv(s) && Allowed(s, m)
    ensures WellFormed(After(s, m))
    ensures forall i :: 0 <= i < |s.calls| ==> CallOk(After(s, m), i)
  {
    if m.Move? {
      assert CallOk(s, m.i);
    }
    forall i | 0 <= i < |s.calls|
      ensures CallOk(After(s, m), i)
    {
      assert CallOk(s, i);
      if m.Death? && i in s.m.handles && s.home[i] != m.p {
        assert i in Surviving(s, m.p);
      }
    }
  }

  lemma StepKeepsInv(s: World, m: Move)
    requires Inv(s) && Allowed(s, m)
    ensures Inv(After(s, m))
  {
    StepKeepsCalls(s, m);
    var t := After(s, m);
    if m.Move? {
      assert CallOk(s, m.i);
    }
    forall p | p in t.failed - t.blocked
      ensures exists i :: 0 <= i < |t.calls| && t.home[i] == p && t.calls[i].pc.Latching?
    {
      if p in s.failed - s.blocked {
        var i :| 0 <= i < |s.calls| && s.home[i] == p && s.calls[i].pc.Latching?;
        assert t.home[i] == p && ((m.Move? && i == m.i) || t.calls[i].pc.Latching?);
      } else {
        assert t.home[m.i] == p && t.calls[m.i].pc.Latching?;
      }
    }
  }

  lemma {:induction false} RunKeepsInv(run: seq<World>, moves: seq<Move>, k: nat)
    requires IsRun(run, moves) && k < |run|
    ensures Inv(run[k])
  {
    if k > 0 {
      RunKeepsInv(run, moves, k - 1);
      StepKeepsInv(run[k - 1], moves[k - 1]);
      assert run[k - 1 + 1] == After(run[k - 1], moves[k - 1]);
    }
  }

  /** Over any interleaving: each call starts its callback at most once, and only after a wait that
      returned clean ownership; a running callback owns the mutex; two callbacks never overlap. */
  lemma CallbacksAreExclusive(run: seq<World>, moves: seq<Move>, k: nat)
    requires IsRun(run, moves) && k < |run|
    ensures var s := run[k];
      && (forall i :: 0 <= i < |s.calls| ==>
            s.calls[i].runs <= 1 && (s.calls[i].runs == 1 ==> s.calls[i].wait == Some(Free)))
      && (forall i :: 0 <= i < |s.calls| && s.calls[i].pc.Running? ==> s.m.owner == Some(i))
      && (forall i, j :: 0 <= i < j < |s.calls| ==> !(s.calls[i].pc.Running? && s.calls[j].pc.Running?))
  {
    RunKeepsInv(run, moves, k);
    var s := run[k];
    forall i | 0 <= i < |s.calls|
      ensures s.calls[i].runs <= 1 && (s.calls[i].runs == 1 ==> s.calls[i].wait == Some(Free))
      ensures s.calls[i].pc.Running? ==> s.m.owner == Some(i)
    {
      assert CallOk(s, i);
    }
  }

  /** After a failed release no callback starts in that process again, not even in a call that passed
      the first look at the latch, nor before the latch is set. */
  lemma NoCallbackAfterFailedRelease(run: seq<World>, moves: seq<Move>, k: nat)
    requires IsRun(run, moves) && k < |moves|
    ensures var s, t := run[k], run[k + 1];
      |t.calls| == |s.calls| == |s.home| &&
      forall i :: 0 <= i < |s.calls| && s.home[i] in s.failed ==> t.calls[i].runs == s.calls[i].runs
  {
    RunKeepsInv(run, moves, k);
    assert run[k + 1] == After(run[k], moves[k]);
    if moves[k].Move? && run[k].home[moves[k].i] in run[k].failed {
      FailedHomeStartsNothing(run[k], moves[k]);
    }
  }

  lemma FailedHomeStartsNothing(s: World, m: Move)
    requires Inv(s) && Allowed(s, m) && m.Move? && s.home[m.i] in s.failed
    ensures After(s, m).calls[m.i].runs == s.calls[m.i].runs
  {
    assert CallOk(s, m.i);
    if s.home[m.i] !in s.blocked {
      assert s.home[m.i] in s.failed - s.blocked;
      var i :| 0 <= i < |s.calls| && s.home[i] == s.home[m.i] && s.calls[i].pc.Latching?;
      assert CallOk(s, i);
      assert s.m.owner == Some(i);
    }
  }

  /** A process never forgets a failed release. */
  lemma {:induction false} FailureIsRemembered(run: seq<World>, moves: seq<Move>, j: nat, k: nat)
    requires IsRun(run, moves) && j <= k < |run|
    ensures run[j].failed <= run[k].failed && run[k].home == run[j].home
    decreases k - j
  {
    if j < k {
      FailureIsRemembered(run, moves, j, k - 1);
      assert run[k - 1 + 1] == After(run[k - 1], moves[k - 1]);
    }
  }

  ghost predicate Reachable(s: World) {
    exists run, moves :: IsRun(run, moves) && run[|moves|] == s
  }

  lemma Go(s: World, m: Move) returns (t: World)
    requires Reachable(s) && Allowed(s, m)
    ensures t == After(s, m) && Reachable(t)
  {
    var run, moves :| IsRun(run, moves) && run[|moves|] == s;
    t := After(s, m);
    var run', moves' := run + [t], moves + [m];
    forall k | 0 <= k < |moves'|
      ensures Allowed(run'[k], moves'[k]) && run'[k + 1] == After(run'[k], moves'[k])
    {
      if k < |moves| {
        assert run'[k] == run[k] && run'[k + 1] == run[k + 1] && moves'[k] == moves[k];
      }
    }
    assert IsRun(run', moves') && run'[|moves'|] == t;
  }

  const CLEAN := Answers(true, Free, Returns, false, true)

  lemma Starting() returns (s: World)
    ensures Reachable(s) && s == World([NEW, NEW], [7, 7], {}, {}, Mutex({}, None, false))
  {
    s := World([NEW, NEW], [7, 7], {}, {}, Mutex({}, None, false));
    var moves: seq<Move> := [];
    assert IsRun([s], moves) && [s][|moves|] == s;
  }

  /** One call of a process has run its callback and is about to release; another waits for the mutex. */
  lemma ReleasesNext() returns (s: World)
    ensures Reachable(s)
    ensures s == World([Caller(Releasing, Some(Free), 1, false), Caller(Waiting, None, 0, false)], [7, 7], {}, {},
      Mutex({0, 1}, Some(0), false))
  {
    hide Reachable;
    s := Starting();
    s := Go(s, Move(0, CLEAN));
    s := Go(s, Move(1, CLEAN));
    s := Go(s, Move(0, CLEAN));
    s := Go(s, Move(1, CLEAN));
    assert s == World([Caller(Waiting, None, 0, false), Caller(Waiting, None, 0, false)], [7, 7], {}, {},
      Mutex({0, 1}, None, false));
    s := Go(s, Move(0, CLEAN));
    s := Go(s, Move(0, CLEAN));
    s := Go(s, Move(0, CLEAN));
  }

  /** The system has to keep the owner of a release that failed: between the failure and the latch,
      a mutex that let go anyway would admit a second call of the same process. */
  lemma LettingGoAdmitsACallback() returns (s: World, t: World, u: World, v: World)
    ensures Reachable(s) && |s.calls| == |s.home| == 2 && s.home == [7, 7] && s.failed == {}
    ensures Possible(s, 0, CLEAN) && t == Next(s, 0, CLEAN, false) && 7 in t.failed
    ensures |t.calls| == |t.home| == 2 && Possible(t, 1, CLEAN) && u == Next(t, 1, CLEAN, true)
    ensures |u.calls| == |u.home| == 2 && Possible(u, 1, CLEAN) && v == Next(u, 1, CLEAN, true)
    ensures |v.calls| == 2 && v.calls[1].runs == t.calls[1].runs + 1
  {
    s := ReleasesNext();
    t := Next(s, 0, CLEAN, false);
    u := Next(t, 1, CLEAN, true);
    assert u.calls[1] == Caller(Checking, Some(Free), 0, false) && 7 !in u.blocked;
    v := Next(u, 1, CLEAN, true);
  }
}

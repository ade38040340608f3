/** What the dispatch bound asks of the server, exactly. It holds in every run in which no attempt is
    reserved again while another process still stands, with the same attempt, between its claim and its
    latch; and from any state where that happens two dispatches in one life can follow. */
module Reissue {
  import opened Wrappers
  import opened Marker
  import opened Latch

  predicate Waits(pc: PC) {
    pc.Claiming? || pc.Latching?
  }

  /** Two processes are about to hold the same attempt: one can reserve what another waits to latch. */
  predicate Aliases(s: Sys, i: nat, j: nat)
    requires i < |s.procs| && j < |s.procs|
  {
    && i != j && s.d.slot.Empty? && s.procs[i].Reserving? && Waits(s.procs[j])
    && s.procs[j].a == NewAttempt(s.procs[i].q, s.procs[i].id, s.procs[i].o)
  }

  ghost predicate NotAliased(s: Sys, i: nat)
    requires i < |s.procs|
  {
    forall j :: 0 <= j < |s.procs| ==> !Aliases(s, i, j)
  }

  /** Never handing a retired id out again is more than enough. */
  lemma NotReissuedIsEnough(s: Sys, i: nat)
    requires i < |s.procs| && NotReissued(s, i)
    ensures NotAliased(s, i)
  {
  }

  /* ----- without aliasing ----- */

  predicate AtCall(pc: PC) {
    pc.Naming? || pc.Dispatching?
  }

  /** How many processes stand before a native call of their own. */
  function Calls(procs: seq<PC>): nat {
    if procs == [] then 0 else Calls(procs[..|procs| - 1]) + if AtCall(procs[|procs| - 1]) then 1 else 0
  }

  lemma {:induction false} CallsUpdate(procs: seq<PC>, i: nat, pc: PC)
    requires i < |procs|
    ensures Calls(procs[i := pc]) + (if AtCall(procs[i]) then 1 else 0) == Calls(procs) + (if AtCall(pc) then 1 else 0)
  {
    var k := |procs| - 1;
    if i == k {
      assert procs[i := pc][..k] == procs[..k];
    } else {
      assert procs[i := pc][..k] == procs[..k][i := pc];
      CallsUpdate(procs[..k], i, pc);
    }
  }

  lemma {:induction false} NoCalls(procs: seq<PC>)
    requires forall j :: 0 <= j < |procs| ==> procs[j].Idle?
    ensures Calls(procs) == 0
  {
    if procs != [] {
      NoCalls(procs[..|procs| - 1]);
    }
  }

  /** What a process may write over the marker. A waiting one still has the reservation it made, and the
      slot does not hold its latch. */
  predicate MineOk(d: Disk, pc: PC) {
    && (Waits(pc) ==> pc.a.phase.Reserved? && d.slot != Holding(pc.a.(phase := MayHaveRun)))
    && (pc.Settling? ==> pc.a.phase.Unknown? || pc.a.phase.Failed? || pc.a.phase.AwaitingReboot?)
    && (pc.Confirming? ==> pc.a.phase.Verified?)
    && (AtCall(pc) ==> pc.a.phase.MayHaveRun?)
  }

  predicate Different(p: PC, q: PC) {
    Waits(p) && Waits(q) ==> p.a != q.a
  }

  /** Calls made and calls still to come are covered by the archive and the marker in the slot. */
  ghost predicate Covered(s: Sys) {
    && s.l.history + s.l.natives + Calls(s.procs) <= |s.d.archive| + Charge(s.d.slot)
    && (forall j :: 0 <= j < |s.procs| ==> MineOk(s.d, s.procs[j]))
    && (forall j, k :: 0 <= j < |s.procs| && 0 <= k < |s.procs| && j != k ==> Different(s.procs[j], s.procs[k]))
  }

  /** One action of one process: what it owes for, and what it leaves in the slot. */
  predicate Pays(d: Disk, l: Ledger, pc: PC, r: Acted) {
    && r.l.history == l.history && MineOk(r.d, r.pc)
    && r.l.natives + (if AtCall(r.pc) then 1 else 0) + |d.archive| + Charge(d.slot)
         <= l.natives + (if AtCall(pc) then 1 else 0) + |r.d.archive| + Charge(r.d.slot)
  }

  /** Neither waiting nor at a call, and with nothing to save. */
  predicate Neutral(pc: PC) {
    !Waits(pc) && !AtCall(pc) && !pc.Settling? && !pc.Confirming?
  }

  lemma RouteNeutral(p: Option<Plan>, id: Identity, a: Option<Attempt>)
    ensures Neutral(Route(p, id, a))
    ensures p.Some? ==> Neutral(Fresh(p.value, id)) && (a.Some? ==> Neutral(Resume(p.value, id, a.value)))
  {
  }

  lemma QuietPays(d: Disk, l: Ledger, pc: PC, i: Input)
    requires Quiet(pc) && MineOk(d, pc) && (i.Begin? ==> Starts(i.task))
    ensures Pays(d, l, pc, Act(d, l, pc, i))
  {
    hide Route, LoadAttempt, Suits, HealthyAs, EqualFold;
    if pc.Loading? {
      RouteNeutral(pc.p, pc.id, None);
      if LoadAttempt(d).Present? {
        RouteNeutral(pc.p, pc.id, Some(LoadAttempt(d).a));
      }
    }
  }

  lemma SavePays(d: Disk, a: Attempt, f: Fault)
    ensures var (e, ok) := SaveAttempt(d, a, f);
      && e.archive == d.archive && Charge(d.slot) <= Charge(e.slot)
      && (e == d || e.slot == Holding(a))
      && (ok ==> a.phase.MayHaveRun? && d.slot != Holding(a) ==> Charge(d.slot) < Charge(e.slot))
  {
  }

  lemma RewritePays(d: Disk, l: Ledger, pc: PC, i: Input)
    requires Rewrites(pc) && MineOk(d, pc) && (i.Begin? ==> Starts(i.task))
    ensures Pays(d, l, pc, Act(d, l, pc, i))
  {
    hide SaveAttempt, EqualFold, Route;
    match pc
    case Latching(_, _, _, a) => if i.Io? { SavePays(d, a.(phase := MayHaveRun), i.f); }
    case Settling(q, id, _, a) =>
      if i.Settled? {
        SavePays(d, a, i.g);
        RouteNeutral(Some(q), id, Some(a));
      }
    case Confirming(_, _, a, _) => if i.Io? { SavePays(d, a, i.f); }
    case _ =>
  }

  /** Leaving the slot: what the archive gains the slot gives, and a reservation owes nothing. */
  lemma ArchivePays(d: Disk, a: Attempt, f: Fault)
    ensures var e := ArchiveVerified(d, a, f).0; |e.archive| + Charge(e.slot) == |d.archive| + Charge(d.slot)
  {
  }

  lemma RemovePays(d: Disk, a: Attempt, p: Plan, id: Identity, f: Fault)
    ensures var e := RemoveForRetry(d, a, p, id.hostID, id.fingerprint, f).0;
      |e.archive| + Charge(e.slot) == |d.archive| + Charge(d.slot)
  {
  }

  lemma ExitPays(d: Disk, l: Ledger, pc: PC, i: Input)
    requires Exits(pc) && (i.Begin? ==> Starts(i.task))
    ensures Pays(d, l, pc, Act(d, l, pc, i))
  {
    hide Route, Fresh, ArchiveVerified, RemoveForRetry, Charge;
    match pc
    case Retiring(p, id, a) =>
      RouteNeutral(p, id, None);
      if i.Io? { ArchivePays(d, a, i.f); }
    case Replacing(q, id, a) =>
      RouteNeutral(Some(q), id, None);
      if i.Io? { ArchivePays(d, a, i.f); }
    case RotateArchiving(a) => if i.Io? { ArchivePays(d, a, i.f); }
    case Withdrawing(q, id, a) =>
      RouteNeutral(Some(q), id, None);
      if i.Io? { RemovePays(d, a, q, id, i.f); }
  }

  lemma ActCovered(d: Disk, l: Ledger, pc: PC, i: Input)
    requires MineOk(d, pc) && (i.Begin? ==> Starts(i.task))
    ensures Pays(d, l, pc, Act(d, l, pc, i))
  {
    if Quiet(pc) {
      QuietPays(d, l, pc, i);
    } else if Rewrites(pc) {
      RewritePays(d, l, pc, i);
    } else if Exits(pc) {
      ExitPays(d, l, pc, i);
    }
  }

  lemma OthersStay(d: Disk, l: Ledger, pc: PC, i: Input, other: PC)
    requires MineOk(d, pc) && MineOk(d, other) && Different(pc, other)
    ensures MineOk(Act(d, l, pc, i).d, other)
  {
  }

  /** A process begins to wait only with the attempt it has just reserved in an empty slot. */
  lemma WaitsFresh(d: Disk, l: Ledger, pc: PC, i: Input)
    requires Waits(Act(d, l, pc, i).pc) && (i.Begin? ==> Starts(i.task))
    ensures Waits(pc) ==> Act(d, l, pc, i).pc.a == pc.a
    ensures !Waits(pc) ==>
      pc.Reserving? && d.slot.Empty? && Act(d, l, pc, i).pc.a == NewAttempt(pc.q, pc.id, pc.o)
  {
  }

  lemma StepKeepsCovered(s: Sys, m: Move)
    requires Covered(s) && Enabled(s, m) && NotAliased(s, m.pid)
    ensures Covered(Next(s, m))
  {
    var pc, t := s.procs[m.pid], Next(s, m);
    ActCovered(s.d, s.l, pc, m.input);
    CallsUpdate(s.procs, m.pid, t.procs[m.pid]);
    if Waits(t.procs[m.pid]) {
      WaitsFresh(s.d, s.l, pc, m.input);
    }
    hide Act, Calls, MineOk, Charge;
    forall j | 0 <= j < |s.procs|
      ensures MineOk(t.d, t.procs[j])
      ensures j != m.pid ==> Different(t.procs[m.pid], t.procs[j])
    {
      if j != m.pid {
        assert Different(pc, s.procs[j]);
        OthersStay(s.d, s.l, pc, m.input, s.procs[j]);
        assert !Aliases(s, m.pid, j);
      }
    }
    forall j, k | 0 <= j < |t.procs| && 0 <= k < |t.procs| && j != k
      ensures Different(t.procs[j], t.procs[k])
    {
      if j != m.pid && k != m.pid {
        assert Different(s.procs[j], s.procs[k]);
      } else {
        assert Different(t.procs[m.pid], t.procs[if j == m.pid then k else j]);
      }
    }
  }

  ghost predicate IsUnaliasedRun(run: seq<Sys>, moves: seq<Move>) {
    IsAnyRun(run, moves) && forall i :: 0 <= i < |moves| ==> NotAliased(run[i], moves[i].pid)
  }

  lemma {:induction false} RunKeepsCovered(run: seq<Sys>, moves: seq<Move>, i: nat)
    requires IsUnaliasedRun(run, moves) && i < |run|
    ensures Covered(run[i]) && run[i].l.history == |run[0].d.archive|
  {
    if i == 0 {
      NoCalls(run[0].procs);
    } else {
      RunKeepsCovered(run, moves, i - 1);
      var s, m := run[i - 1], moves[i - 1];
      assert run[i - 1 + 1] == Next(s, m);
      StepKeepsCovered(s, m);
      ActCovered(s.d, s.l, s.procs[m.pid], m.input);
    }
  }

  /** Without aliasing there is at most one native dispatch, plus one for each marker archived since the
      start, counting the calls that processes still stand before. */
  lemma DispatchBoundUnaliased(run: seq<Sys>, moves: seq<Move>, i: nat)
    requires IsUnaliasedRun(run, moves) && i < |run|
    ensures run[i].l.natives + Calls(run[i].procs) <= 1 + |run[i].d.archive| - |run[0].d.archive|
  {
    RunKeepsCovered(run, moves, i);
  }

  /* ----- with it ----- */

  ghost predicate Reachable(s: Sys) {
    exists run, moves :: IsAnyRun(run, moves) && run[|moves|] == s
  }

  lemma Go(s: Sys, m: Move) returns (t: Sys)
    requires Reachable(s) && Enabled(s, m)
    ensures t == Next(s, m) && Reachable(t)
  {
    var run, moves :| IsAnyRun(run, moves) && run[|moves|] == s;
    t := Next(s, m);
    var run', moves' := run + [t], moves + [m];
    forall i | 0 <= i < |moves'|
      ensures Enabled(run'[i], moves'[i]) && run'[i + 1] == Next(run'[i], moves'[i])
    {
      if i < |moves| {
        assert run'[i] == run[i] && run'[i + 1] == run[i + 1] && moves'[i] == moves[i];
      }
    }
    assert IsAnyRun(run', moves') && run'[|moves'|] == t;
  }

  /** A latch is written for an attempt that any reader of the marker accepts. */
  predicate Readable(a: Attempt) {
    LoadAttempt(Disk(Holding(a), {})) == Present(a)
  }

  lemma FoldSelf(s: string)
    ensures EqualFold(s, s)
  {
  }

  /** The latch of a waiting process is written, also over the same attempt latched by another. */
  lemma LatchActs(d: Disk, l: Ledger, pc: PC)
    requires pc.Latching? && pc.a.phase.Reserved? && Readable(pc.a)
    requires d.slot == Holding(pc.a) || d.slot == Holding(pc.a.(phase := MayHaveRun))
    ensures var b := pc.a.(phase := MayHaveRun);
      Act(d, l, pc, Io(NoFault)) == Acted(d.(slot := Holding(b)), l,
        if NeedsName(pc.q, pc.o) then Naming(pc.q, pc.id, pc.o, b) else Dispatching(pc.q, pc.id, pc.o, b))
  {
    hide EqualFold;
  }

  lemma NameActs(d: Disk, l: Ledger, pc: PC)
    requires pc.Naming?
    ensures var o := pc.o.(pendingName := pc.q.name);
      Act(d, l, pc, Named(Some(o))) == Acted(d, l, Dispatching(pc.q, pc.id, o, pc.a))
  {
    FoldSelf(pc.q.name);
  }

  lemma CallActs(d: Disk, l: Ledger, pc: PC)
    requires pc.Dispatching?
    ensures var r := Act(d, l, pc, Native(Some(0)));
      r.d == d && r.l.natives == l.natives + 1 && r.l.life == l.life && r.l.history == l.history
  {
  }

  /** A waiting process whose reservation is in the slot, or that same attempt latched by another, can go on
      to its native call. */
  lemma Dispatches(s: Sys, j: nat) returns (t: Sys)
    requires Reachable(s) && j < |s.procs| && Waits(s.procs[j])
    requires var a := s.procs[j].a;
      && a.phase.Reserved? && Readable(a)
      && (s.d.slot == Holding(a) || s.d.slot == Holding(a.(phase := MayHaveRun)))
    ensures var a := s.procs[j].a;
      && Reachable(t) && t.l.natives == s.l.natives + 1 && t.l.life == s.l.life && t.l.history == s.l.history
      && t.d == s.d.(slot := Holding(a.(phase := MayHaveRun)))
      && |t.procs| == |s.procs| && forall k :: 0 <= k < |s.procs| && k != j ==> t.procs[k] == s.procs[k]
  {
    hide Reachable, Act, Readable, NeedsName;
    t := s;
    if t.procs[j].Claiming? {
      GrantActs(t.d, t.l, t.procs[j]);
      t := Go(t, Move(j, Server(true)));
    }
    LatchActs(t.d, t.l, t.procs[j]);
    t := Go(t, Move(j, Io(NoFault)));
    if t.procs[j].Naming? {
      var pc := t.procs[j];
      NameActs(t.d, t.l, pc);
      t := Go(t, Move(j, Named(Some(pc.o.(pendingName := pc.q.name)))));
    }
    CallActs(t.d, t.l, t.procs[j]);
    t := Go(t, Move(j, Native(Some(0))));
  }

  lemma GrantActs(d: Disk, l: Ledger, pc: PC)
    requires pc.Claiming?
    ensures Act(d, l, pc, Server(true)) == Acted(d, l, Latching(pc.q, pc.id, pc.o, pc.a))
  {
  }

  /** From any reachable state in which a process can reserve what another waits to latch, both go on to
      dispatch it in one life of the marker. */
  lemma AliasDispatchesTwice(s: Sys, i: nat, j: nat) returns (t: Sys)
    requires Reachable(s) && i < |s.procs| && j < |s.procs| && Aliases(s, i, j) && Readable(s.procs[j].a)
    ensures Reachable(t) && t.l.natives == s.l.natives + 2 && t.l.life == s.l.life + 1 && t.l.history == s.l.history
    ensures t.d.archive == s.d.archive && t.d.slot == Holding(s.procs[j].a.(phase := MayHaveRun))
  {
    hide Reachable;
    t := Go(s, Move(i, Io(NoFault)));
    assert t.procs[i].Claiming? && t.procs[j] == s.procs[j];
    t := Dispatches(t, i);
    t := Dispatches(t, j);
  }

  /* ----- such a run ----- */

  const SOME_KEY: string := seq(64, _ => 'a')
  const SOME_ID := Identity(SOME_KEY, 1)
  const SOME_LOOK := Obs(Workstation, "d", "D", "pc", "pc", Healthy, Boot("m", "s"))
  const FIRST := Plan(2, Rebind, "pc", "pc", false, "1", 1, "r1", Ready, "pc", "d", "dc", true, false)
  const RETRY := FIRST.(attemptID := "2", configRevision := "r2", retryAuthorized := true)

  /** An idle process and an empty slot: the process looks at the machine for FIRST. */
  lemma ObservesFirst(s: Sys, pid: nat) returns (t: Sys)
    requires Reachable(s) && pid < |s.procs| && s.procs[pid].Idle? && s.d.slot.Empty?
    ensures Reachable(t) && t == s.(procs := s.procs[pid := Reserving(FIRST, SOME_ID, SOME_LOOK)])
  {
    t := Go(s, Move(pid, Begin(Loading(Some(FIRST), SOME_ID))));
    t := Go(t, Move(pid, Io(NoFault)));
    assert t.procs[pid] == Observing(FIRST, SOME_ID);
    t := Go(t, Move(pid, Seen(Some(SOME_LOOK))));
  }

  /** ... reserves FIRST, and the server grants it. */
  lemma ReservesFirst(s: Sys, pid: nat) returns (t: Sys)
    requires Reachable(s) && pid < |s.procs| && s.procs[pid].Idle? && s.d.slot.Empty?
    ensures Reachable(t) && t.l.natives == s.l.natives && t.l.history == s.l.history
    ensures var a := NewAttempt(FIRST, SOME_ID, SOME_LOOK);
      t.d == s.d.(slot := Holding(a)) && t.procs == s.procs[pid := Latching(FIRST, SOME_ID, SOME_LOOK, a)]
  {
    t := ObservesFirst(s, pid);
    t := Go(t, Move(pid, Io(NoFault)));
    t := Go(t, Move(pid, Server(true)));
  }

  lemma LoadsRetry(s: Sys, pid: nat) returns (t: Sys)
    requires Reachable(s) && pid < |s.procs| && s.procs[pid].Idle?
    requires s.d.slot == Holding(NewAttempt(FIRST, SOME_ID, SOME_LOOK))
    ensures Reachable(t)
    ensures t == s.(procs := s.procs[pid := Withdrawing(RETRY, SOME_ID, NewAttempt(FIRST, SOME_ID, SOME_LOOK))])
  {
    t := Go(s, Move(pid, Begin(Loading(Some(RETRY), SOME_ID))));
    t := Go(t, Move(pid, Io(NoFault)));
  }

  lemma WithdrawActs(d: Disk, l: Ledger, a: Attempt)
    requires a == NewAttempt(FIRST, SOME_ID, SOME_LOOK) && d.slot == Holding(a)
    ensures var pc := Withdrawing(RETRY, SOME_ID, a);
      Act(d, l, pc, Io(NoFault)) == Acted(d.(slot := Empty), l, Fresh(RETRY, SOME_ID))
  {
  }

  lemma KilledActs(d: Disk, l: Ledger, q: Plan, id: Identity)
    ensures Act(d, l, Fresh(q, id), Killed) == Acted(d, l, Idle)
  {
  }

  /** An idle process withdraws the reservation of FIRST for RETRY, and is killed. */
  lemma WithdrawsFirst(s: Sys, pid: nat) returns (t: Sys)
    requires Reachable(s) && pid < |s.procs| && s.procs[pid].Idle?
    requires s.d.slot == Holding(NewAttempt(FIRST, SOME_ID, SOME_LOOK))
    ensures Reachable(t) && t.d == s.d.(slot := Empty) && t.l == s.l && t.procs == s.procs
  {
    hide Act, Reachable, Fresh;
    t := LoadsRetry(s, pid);
    WithdrawActs(t.d, t.l, t.procs[pid].a);
    KilledActs(t.d.(slot := Empty), t.l, RETRY, SOME_ID);
    t := Go(t, Move(pid, Io(NoFault)));
    t := Go(t, Move(pid, Killed));
  }

  /** A process is about to reserve what another waits to latch, because the attempt's id was handed out
      again after it was withdrawn. */
  lemma ReissueArranged() returns (s: Sys)
    ensures Reachable(s) && s.l.natives == 0 && s.l.history == 0 && s.d == Disk(Empty, {})
    ensures |s.procs| == 3 && Aliases(s, 2, 0) && Readable(s.procs[0].a)
  {
    hide Act, Reachable, EqualFold, Suits;
    s := Starting();
    s := ReservesFirst(s, 0);
    s := WithdrawsFirst(s, 1);
    s := ObservesFirst(s, 2);
    FirstReadable();
  }

  lemma Starting() returns (s: Sys)
    ensures Reachable(s)
    ensures s == Sys(Disk(Empty, {}), Ledger(0, 0, 0, None, false, None, []), [Idle, Idle, Idle])
  {
    s := Sys(Disk(Empty, {}), Ledger(0, 0, 0, None, false, None, []), [Idle, Idle, Idle]);
    var moves: seq<Move> := [];
    assert IsAnyRun([s], moves) && [s][|moves|] == s;
  }

  lemma FirstReadable()
    ensures Readable(NewAttempt(FIRST, SOME_ID, SOME_LOOK))
  {
  }

  /** Without the assumption the bound fails: an attempt id that is withdrawn and handed out again while
      its first holder is still between claim and latch is dispatched twice in one life. */
  lemma ReissueDispatchesTwice()
    ensures exists s :: Reachable(s) && s.l.natives == 2 && s.l.history == 0 && s.d.archive == {}
  {
    var s := ReissueArranged();
    s := AliasDispatchesTwice(s, 2, 0);
  }
}

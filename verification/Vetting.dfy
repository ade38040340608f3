/** What has been checked before anything is reserved, claimed or called: the plan, and the machine as it was
    observed. Over any run of the step machine, and for a whole call of the agent. */
module Vetting {
  import opened Wrappers
  import opened Marker
  import opened Latch
  import opened Agent

  /** A process that acts on a plan of its own. */
  predicate OnPlan(pc: PC) {
    pc.Replacing? || pc.Withdrawing? || pc.Observing? || Looked(pc) || pc.Dispatching?
  }

  /** It stands on what it saw of the machine. */
  predicate Looked(pc: PC) {
    pc.Reserving? || pc.Claiming? || pc.Latching? || pc.Naming?
  }

  ghost predicate Vetted(pc: PC) {
    && (OnPlan(pc) ==>
          Validate(pc.q, pc.id.hostID) && pc.q.phase.Ready? && (pc.q.operation.Rename? ==> pc.q.pinned))
    && (Looked(pc) ==> Suits(pc.q, pc.o))
    && (pc.Dispatching? ==> pc.q.operation.Rename? || EqualFold(pc.o.pendingName, pc.q.name))
  }

  lemma RouteVets(p: Option<Plan>, id: Identity, a: Option<Attempt>)
    ensures Vetted(Route(p, id, a))
  {
    hide EqualFold, ValidateReservedRetry;
  }

  lemma RoutedVets(d: Disk, l: Ledger, pc: PC, i: Input)
    requires pc.Loading? || pc.Retiring?
    ensures Vetted(Act(d, l, pc, i).pc)
  {
    hide Route, LoadAttempt, ArchiveVerified;
    RouteVets(pc.p, pc.id, None);
    if LoadAttempt(d).Present? {
      RouteVets(pc.p, pc.id, Some(LoadAttempt(d).a));
    }
  }

  lemma PlannedVets(d: Disk, l: Ledger, pc: PC, i: Input)
    requires Vetted(pc) && OnPlan(pc)
    ensures Vetted(Act(d, l, pc, i).pc)
  {
    hide Suits, Validate, EqualFold, Born;
    hide SaveAttempt, ReserveAttempt, ArchiveVerified, RemoveForRetry;
  }

  /** No other action leads a process to act on a plan. */
  lemma OthersDoNot(d: Disk, l: Ledger, pc: PC, i: Input)
    requires !OnPlan(pc) && !pc.Loading? && !pc.Retiring? && (i.Begin? ==> Starts(i.task))
    ensures !OnPlan(Act(d, l, pc, i).pc)
  {
    hide Validate, EqualFold, LoadAttempt, HealthyAs, SaveAttempt, ArchiveVerified, SetRebootRequested;
  }

  lemma StepVets(d: Disk, l: Ledger, pc: PC, i: Input)
    requires Vetted(pc) && (i.Begin? ==> Starts(i.task))
    ensures Vetted(Act(d, l, pc, i).pc)
  {
    hide Act;
    if pc.Loading? || pc.Retiring? {
      RoutedVets(d, l, pc, i);
    } else if OnPlan(pc) {
      PlannedVets(d, l, pc, i);
    } else {
      OthersDoNot(d, l, pc, i);
    }
  }

  lemma {:induction false} RunVets(run: seq<Sys>, moves: seq<Move>, i: nat, j: nat)
    requires IsAnyRun(run, moves) && i < |run| && j < |run[i].procs|
    ensures Vetted(run[i].procs[j])
  {
    hide Vetted, Act, Starts;
    if i == 0 {
      IdleIsVetted();
    } else {
      var s, m := run[i - 1], moves[i - 1];
      assert run[i - 1 + 1] == Next(s, m);
      RunVets(run, moves, i - 1, j);
      if j == m.pid {
        StepVets(s.d, s.l, s.procs[j], m.input);
      }
    }
  }

  lemma IdleIsVetted()
    ensures Vetted(Idle)
  {
  }

  /** A machine in a role this operation supports, in no domain for a join and in the plan's domain otherwise,
      under the names the plan expects, and with no foreign rename pending. */
  predicate Fits(q: Plan, o: Obs) {
    && (o.role.Workstation? || o.role.MemberServer? || (o.role.StandaloneServer? && q.operation.Join?))
    && (q.operation.Join? ==> o.domain == "") && (!q.operation.Join? ==> EqualFold(o.domain, q.domain))
    && EqualFold(o.currentName, q.expectedCurrent) && EqualFold(o.pendingName, q.expectedPending)
    && (!q.operation.Rename? && !EqualFold(o.pendingName, q.name) ==> EqualFold(o.pendingName, o.currentName))
  }

  /** Over any run, a process that reserves, asks the server, latches or renames has seen such a machine. */
  lemma LookedFits(run: seq<Sys>, moves: seq<Move>, i: nat, j: nat)
    requires IsAnyRun(run, moves) && i < |run| && j < |run[i].procs| && Looked(run[i].procs[j])
    ensures Fits(run[i].procs[j].q, run[i].procs[j].o)
  {
    hide IsAnyRun, EqualFold;
    RunVets(run, moves, i, j);
  }

  /** And the look leads to a reservation exactly if it saw such a machine. */
  lemma FitsReserves(d: Disk, l: Ledger, q: Plan, id: Identity, seen: Option<Obs>)
    ensures var r := Act(d, l, Observing(q, id), Seen(seen));
      r.d == d && r.pc == if seen.Some? && Fits(q, seen.value) then Reserving(q, id, seen.value) else Idle
  {
    hide EqualFold;
  }

  /** And whatever a process does for a plan of its own, the plan is a ready one of the supported version and of
      this host, valid in every row, and for a rename with a confirmed target. */
  lemma PlansActedOn(run: seq<Sys>, moves: seq<Move>, i: nat, j: nat)
    requires IsAnyRun(run, moves) && i < |run| && j < |run[i].procs| && OnPlan(run[i].procs[j])
    ensures var q, id := run[i].procs[j].q, run[i].procs[j].id;
      && q.version == 2 && q.phase.Ready? && q.hostID == id.hostID && id.hostID >= 1
      && (q.operation.Join? || q.operation.Rebind? || q.operation.Rename?) && q.rows
      && (q.operation.Rename? ==> q.pinned)
  {
    hide IsAnyRun, EqualFold;
    RunVets(run, moves, i, j);
  }

  /** At the native call of a join or rebind the machine was last seen under the plan's name. */
  lemma DispatchIsNamed(run: seq<Sys>, moves: seq<Move>, i: nat, j: nat)
    requires IsAnyRun(run, moves) && i < |run| && j < |run[i].procs| && run[i].procs[j].Dispatching?
    ensures var pc := run[i].procs[j]; pc.q.operation.Rename? || EqualFold(pc.o.pendingName, pc.q.name)
  {
    hide IsAnyRun, EqualFold;
    RunVets(run, moves, i, j);
  }

  /* ----- what a process makes of the marker it finds ----- */

  /** A plan that is followed up: valid, of this host and not blocked, and if it is a ready rename, with a
      confirmed target. */
  predicate Followed(p: Option<Plan>, id: Identity) {
    && p.Some? && p.value.version == 2 && p.value.hostID == id.hostID && id.hostID >= 1 && p.value.rows
    && (p.value.operation.Join? || p.value.operation.Rebind? || p.value.operation.Rename?)
    && !p.value.phase.Blocked? && (p.value.operation.Rename? && p.value.phase.Ready? ==> p.value.pinned)
  }

  predicate OwnedBy(a: Attempt, id: Identity) {
    a.fingerprint == id.fingerprint && a.plan.hostID == id.hostID
  }

  /** A verified marker of another key or host is retired, whatever the plan; any other readable marker is judged
      by the plan; a file that cannot be read ends the call. */
  lemma FindsExactly(d: Disk, l: Ledger, p: Option<Plan>, id: Identity)
    ensures var pc, found := Act(d, l, Loading(p, id), Io(NoFault)).pc, LoadAttempt(d);
      pc == match found
        case Unreadable => Idle
        case Absent => Route(p, id, None)
        case Present(a) =>
          if a.phase.Verified? && !OwnedBy(a, id) then Retiring(p, id, a) else Route(p, id, Some(a))
  {
  }

  /** The attempt in the slot is followed up just by looking, and only if it is owned and awaits its restart. A
      ready plan for another attempt takes the place of a verified marker, or of an unexecuted reservation of this
      identity that the plan may replace. */
  lemma RoutesExactly(p: Option<Plan>, id: Identity, m: Attempt)
    ensures Route(p, id, Some(m)) ==
      if !Followed(p, id) then Idle
      else
        var q := p.value;
        if m.plan.attemptID == q.attemptID then
          if OwnedBy(m, id) && m.phase.AwaitingReboot? then Verifying(q, id, m) else Idle
        else if !q.phase.Ready? || m.plan.hostID != id.hostID then Idle
        else if m.phase.Verified? then Replacing(q, id, m)
        else if m.version == 2 && m.plan.version == 2 && m.phase.Reserved? && m.plan.phase.Ready?
                && m.nativeStatus.None? && !m.rebootRequested && m.fingerprint == id.fingerprint
                && |id.fingerprint| == 64 && m.plan.rows && !m.plan.operation.NoOperation?
                && q.retryAuthorized && m.plan.configRevision != q.configRevision
        then Withdrawing(q, id, m) else Idle
  {
  }

  /** After the outcome is saved the same call looks again only for a success of its own whose restart is on record. */
  lemma SettlesExactly(d: Disk, l: Ledger, q: Plan, id: Identity, o: Obs, a: Attempt, i: Input)
    ensures Act(d, l, Settling(q, id, o, a), i).pc ==
      if i.Settled? && SaveAttempt(d, a, i.g).1 && a.phase.AwaitingReboot? && i.configSaved && OwnedBy(a, id)
      then Verifying(q, id, a) else Idle
  {
    hide SaveAttempt;
  }

  /** A refused request gives its claim back: the latch of the marker that was claimed is clear again. */
  lemma ReleasesExactly(d: Disk, l: Ledger, a: Attempt, life: nat)
    requires d.slot.Holding? && LoadAttempt(d) == Present(a) && a.phase.AwaitingReboot? && a.rebootRequested
    ensures Act(d, l, TurnAsking(a, life), Answered(false)).pc == TurnReleasing(a, life)
    ensures Act(d, l, TurnReleasing(a, life), Io(NoFault)).d == d.(slot := Holding(a.(rebootRequested := false)))
  {
  }

  /* ----- what the ledger counts ----- */

  /** One step adds a native call exactly at the call; a life exactly at a reservation that reached the slot, with
      nothing to its name yet; a zero status exactly where the call returned one; and an accepted restart exactly
      where a request was not refused. */
  lemma LedgerCounts(s: Sys, m: Move)
    requires Enabled(s, m)
    ensures var pc, l, k := s.procs[m.pid], s.l, Next(s, m).l;
      && k.natives == l.natives + (if pc.Dispatching? then 1 else 0)
      && k.life == l.life + (if pc.Reserving? && Next(s, m).d.slot != s.d.slot then 1 else 0)
      && (k.life != l.life ==> !k.nativeZero && k.evidence.None? && k.birth.Some?)
      && (k.life == l.life ==>
            (k.nativeZero <==> l.nativeZero || (pc.Dispatching? && m.input == Native(Some(0)))))
      && k.accepted == l.accepted + (if pc.TurnAsking? && m.input != Answered(false) then [pc.life] else [])
  {
    hide LoadAttempt, SaveAttempt, ArchiveVerified, RemoveForRetry, SetRebootRequested, Route, EqualFold, HealthyAs;
  }

  /* ----- the look after the restart ----- */

  /** Another boot than before, as both of its records say; none of them may be missing. */
  predicate Rebooted(before: Boot, after: Boot) {
    && before.marker != "" && after.marker != "" && before.marker != after.marker
    && before.started != "" && after.started != "" && before.started != after.started
  }

  /** The machine is what the plan asked for: a healthy member under the plan's name, in its domain by either name. */
  predicate Member(o: Obs, p: Plan) {
    && o.secure.Healthy? && (o.role.Workstation? || o.role.MemberServer?)
    && EqualFold(o.currentName, p.name) && EqualFold(o.pendingName, p.name)
    && (EqualFold(o.domain, p.domain) || EqualFold(o.netbios, p.domain))
  }

  /** Such a look, told to the server, is what a confirmation takes, and no other. */
  lemma ConfirmsExactly(d: Disk, l: Ledger, q: Plan, id: Identity, a: Attempt, i: Input)
    ensures Act(d, l, Verifying(q, id, a), i).pc.Confirming? <==>
      && i.Checked? && i.seen.Some? && Rebooted(a.beforeBoot, i.seen.value.boot) && Member(i.seen.value, a.plan)
      && i.verifiedTold && (i.pendingTold || q.phase.PlanVerified?)
  {
    hide EqualFold;
  }

  /** Over any run, a verified marker in the slot stands on such a look. */
  lemma VerifiedIsMember(run: seq<Sys>, moves: seq<Move>, i: nat)
    requires IsRun(run, moves) && i < |run|
    requires run[i].d.slot.Holding? && run[i].d.slot.marker.phase.Verified?
    ensures var l, m := run[i].l, run[i].d.slot.marker;
      && l.birth.Some? && l.evidence.Some?
      && Rebooted(l.birth.value.beforeBoot, l.evidence.value.boot) && Member(l.evidence.value, m.plan)
  {
    hide IsRun, EqualFold;
    VerifiedProvenance(run, moves, i);
  }

  /* ----- one call of the agent ----- */

  /** The plan of a call that looks at the machine. */
  predicate Admits(p: Option<Plan>, id: Identity) {
    && p.Some? && p.value.version == 2 && p.value.hostID == id.hostID && id.hostID >= 1
    && p.value.phase.Ready? && p.value.rows
    && (p.value.operation.Join? || p.value.operation.Rebind? || p.value.operation.Rename?)
    && (p.value.operation.Rename? ==> p.value.pinned)
  }

  /** Once the outcome is to be saved, nothing more is reserved or called. */
  lemma {:induction false} Aftermath(d: Disk, l: Ledger, pc: PC, w: Answers)
    requires Remaining(pc) <= 4
    ensures Finish(d, l, pc, w).1.natives == l.natives && Finish(d, l, pc, w).1.life == l.life
    decreases Remaining(pc)
  {
    hide Finish, Notes;
    if pc == Idle {
      Ended([], d, l, w);
    } else {
      Unfold([], d, l, pc, w);
      ActDescends(d, l, pc, w);
      var r := Act(d, l, pc, AnswerTo(pc, w));
      QuietAfter(d, l, pc, w);
      Aftermath(r.d, r.l, r.pc, w);
    }
  }

  lemma QuietAfter(d: Disk, l: Ledger, pc: PC, w: Answers)
    requires Remaining(pc) <= 4
    ensures var r := Act(d, l, pc, AnswerTo(pc, w)); r.l.natives == l.natives && r.l.life == l.life
  {
    hide SaveAttempt, ArchiveVerified, SetRebootRequested, LoadAttempt, EqualFold, HealthyAs;
  }

  lemma RouteAdmits(p: Option<Plan>, id: Identity)
    ensures Route(p, id, None) == if Admits(p, id) then Observing(p.value, id) else Idle
  {
  }

  /** The claim, the latch and the name change of a call that has just reserved. */
  predicate ReachesNative(q: Plan, id: Identity, o: Obs, w: Answers) {
    && w.reserve.NoFault? && w.granted && |id.fingerprint| == 64 && w.latch.NoFault?
    && (q.operation.Rename? || EqualFold(o.pendingName, q.name) ||
        (w.named.Some? && EqualFold(w.named.value.pendingName, q.name)))
  }

  lemma ClaimedComesTo(d: Disk, l: Ledger, q: Plan, id: Identity, o: Obs, w: Answers)
    requires Admits(Some(q), id) && d.slot == Holding(NewAttempt(q, id, o)) && w.reserve.NoFault?
    ensures var k := Finish(d, l, Claiming(q, id, o, NewAttempt(q, id, o)), w).1;
      k.life == l.life && k.natives == l.natives + (if ReachesNative(q, id, o, w) then 1 else 0)
  {
    hide Finish, Notes, EqualFold;
    var pc := Claiming(q, id, o, NewAttempt(q, id, o));
    Unfold([], d, l, pc, w);
    var r := Act(d, l, pc, AnswerTo(pc, w));
    if r.pc.Latching? {
      LatchedComesTo(d, l, r.pc, w);
    } else {
      Aftermath(r.d, r.l, r.pc, w);
    }
  }

  lemma LatchedComesTo(d: Disk, l: Ledger, pc: PC, w: Answers)
    requires pc.Latching? && Admits(Some(pc.q), pc.id) && pc.a == NewAttempt(pc.q, pc.id, pc.o)
    requires d.slot == Holding(pc.a) && w.reserve.NoFault? && w.granted
    ensures var k := Finish(d, l, pc, w).1;
      k.life == l.life && k.natives == l.natives + (if ReachesNative(pc.q, pc.id, pc.o, w) then 1 else 0)
  {
    hide Finish, Notes, EqualFold;
    Unfold([], d, l, pc, w);
    var r := Act(d, l, pc, AnswerTo(pc, w));
    assert r.l == l && (r.pc.Idle? || r.pc.Naming? || r.pc.Dispatching?);
    if r.pc.Naming? {
      Unfold([], r.d, l, r.pc, w);
      r := Act(r.d, l, r.pc, AnswerTo(r.pc, w));
    }
    if r.pc.Dispatching? {
      Unfold([], r.d, l, r.pc, w);
      r := Act(r.d, l, r.pc, AnswerTo(r.pc, w));
    }
    Aftermath(r.d, r.l, r.pc, w);
  }

  /** On an empty slot a call starts a life of the marker exactly if the plan is admitted, the machine it sees
      fits the plan, and the create reaches the disk; it makes a native call exactly if, besides, nothing fails
      up to there and the server grants the claim. */
  lemma CallOnEmptySlot(d: Disk, l: Ledger, p: Option<Plan>, id: Identity, w: Answers)
    requires d.slot.Empty?
    ensures var k := Finish(d, l, Loading(p, id), w).1;
      var looks := w.load.NoFault? && Admits(p, id) && w.seen.Some?;
      var reserves := looks && Fits(p.value, w.seen.value) && !w.reserve.Before?;
      && k.life == l.life + (if reserves then 1 else 0)
      && k.natives == l.natives + (if reserves && ReachesNative(p.value, id, w.seen.value, w) then 1 else 0)
  {
    hide Finish, Notes, Route, Fits, EqualFold, ReachesNative;
    Unfold([], d, l, Loading(p, id), w);
    RouteAdmits(p, id);
    Ended([], d, l, w);
    if w.load.NoFault? && Admits(p, id) {
      Unfold([], d, l, Observing(p.value, id), w);
      FitsReserves(d, l, p.value, id, w.seen);
      if w.seen.Some? && Fits(p.value, w.seen.value) {
        ReservingComesTo(d, l, p.value, id, w.seen.value, w);
      }
    }
  }

  lemma ReservingComesTo(d: Disk, l: Ledger, q: Plan, id: Identity, o: Obs, w: Answers)
    requires d.slot.Empty? && Admits(Some(q), id)
    ensures var k := Finish(d, l, Reserving(q, id, o), w).1;
      && k.life == l.life + (if w.reserve.Before? then 0 else 1)
      && k.natives == l.natives + (if !w.reserve.Before? && ReachesNative(q, id, o, w) then 1 else 0)
  {
    hide Finish, Notes, EqualFold, Admits;
    Unfold([], d, l, Reserving(q, id, o), w);
    var r := Act(d, l, Reserving(q, id, o), Io(w.reserve));
    if r.pc.Claiming? {
      ClaimedComesTo(r.d, r.l, q, id, o, w);
    } else {
      Ended([], r.d, r.l, w);
    }
  }
}

/** The agent's own calls in the order the code makes them: a rejoin poll, an identity rotation and a
    coordinator turn, each proved to be a path of the step machine in Latch. */
module Agent {
  import opened Wrappers
  import opened Marker
  import opened Latch
  import opened Reboot

  /** What the world answers at each point of one rejoin or rotation. */
  datatype Answers = Answers(
    load: Fault, retire: Fault, replace: Fault, withdraw: Fault, seen: Option<Obs>, reserve: Fault,
    granted: bool, force: bool, latch: Fault, named: Option<Obs>, code: Option<nat>, settle: Fault,
    configSaved: bool, recheck: Option<Obs>, pendingTold: bool, verifiedTold: bool, confirm: Fault,
    now: nat)

  function AnswerTo(pc: PC, w: Answers): Input {
    match pc
    case Idle => Killed
    case Loading(_, _) => Io(w.load)
    case Retiring(_, _, _) => Io(w.retire)
    case Replacing(_, _, _) => Io(w.replace)
    case Withdrawing(_, _, _) => Io(w.withdraw)
    case Observing(_, _) => Seen(w.seen)
    case Reserving(_, _, _) => Io(w.reserve)
    case Claiming(_, _, _, _) => Server(w.granted)
    case Latching(_, _, _, _) => Io(w.latch)
    case Naming(_, _, _, _) => Named(w.named)
    case Dispatching(_, _, _, _) => Native(w.code)
    case Settling(_, _, _, _) => Settled(w.settle, w.configSaved)
    case Verifying(_, _, _) => Checked(w.recheck, w.pendingTold, w.verifiedTold)
    case Confirming(_, _, _, _) => Io(w.confirm)
    case RotateLoading => Io(w.load)
    case RotateArchiving(_) => Io(w.retire)
    case _ => Killed
  }

  /** How many actions may still follow. */
  function Remaining(pc: PC): nat {
    match pc
    case Idle => 0
    case Loading(_, _) => 13
    case Retiring(_, _, _) => 12
    case Replacing(_, _, _) => 11
    case Withdrawing(_, _, _) => 11
    case Observing(_, _) => 10
    case Reserving(_, _, _) => 9
    case Claiming(_, _, _, _) => 8
    case Latching(_, _, _, _) => 7
    case Naming(_, _, _, _) => 6
    case Dispatching(_, _, _, _) => 5
    case Settling(_, _, _, _) => 4
    case Verifying(_, _, _) => 3
    case Confirming(_, _, _, _) => 2
    case RotateLoading => 2
    case RotateArchiving(_) => 1
    case TurnLoading(_) => 4
    case TurnClaiming(_) => 3
    case TurnAsking(_, _) => 2
    case TurnReleasing(_, _) => 1
  }

  lemma ActDescends(d: Disk, l: Ledger, pc: PC, w: Answers)
    requires pc != Idle
    ensures Remaining(Act(d, l, pc, AnswerTo(pc, w)).pc) < Remaining(pc)
  {
  }

  /** One process runs a call to its end, alone. */
  function Finish(d: Disk, l: Ledger, pc: PC, w: Answers): (Disk, Ledger)
    decreases Remaining(pc)
  {
    if pc == Idle then (d, l)
    else
      ActDescends(d, l, pc, w);
      var r := Act(d, l, pc, AnswerTo(pc, w));
      Finish(r.d, r.l, r.pc, w)
  }

  function RejoinReason(w: Answers): Reason {
    Reason(SOURCE_REJOIN, "directory rejoin needs a Windows restart", w.force, 0, 0, MODE_REBOOT)
  }

  /** What one action does to the pending reboot reasons: a native success asks for a restart, a
      verified marker withdraws the request. */
  function Note(rs: seq<Reason>, d: Disk, pc: PC, w: Answers): seq<Reason> {
    if pc.Settling? && pc.a.phase.AwaitingReboot? && SaveAttempt(d, pc.a, w.settle).1
    then Merged(rs, RejoinReason(w), w.now)
    else if pc.Confirming? && SaveAttempt(d, pc.a, w.confirm).1 then Without(rs, SOURCE_REJOIN)
    else rs
  }

  function Notes(rs: seq<Reason>, d: Disk, l: Ledger, pc: PC, w: Answers): seq<Reason>
    decreases Remaining(pc)
  {
    if pc == Idle then rs
    else
      ActDescends(d, l, pc, w);
      var r := Act(d, l, pc, AnswerTo(pc, w));
      Notes(Note(rs, d, pc, w), r.d, r.l, r.pc, w)
  }

  /** Unfolds one action of a call. */
  lemma Unfold(rs: seq<Reason>, d: Disk, l: Ledger, pc: PC, w: Answers)
    requires pc != Idle
    ensures var r := Act(d, l, pc, AnswerTo(pc, w));
      && Finish(d, l, pc, w) == Finish(r.d, r.l, r.pc, w)
      && Notes(rs, d, l, pc, w) == Notes(Note(rs, d, pc, w), r.d, r.l, r.pc, w)
  {
    ActDescends(d, l, pc, w);
  }

  lemma Ended(rs: seq<Reason>, d: Disk, l: Ledger, w: Answers)
    ensures Finish(d, l, Idle, w) == (d, l) && Notes(rs, d, l, Idle, w) == rs
  {
  }

  /** Nothing is asked of a process that has only just begun. */
  lemma ProcFree(d: Disk, l: Ledger, pc: PC)
    requires Starts(pc)
    ensures ProcOk(d, l, pc)
  {
  }

  lemma {:induction false} FinishKeeps(d: Disk, l: Ledger, pc: PC, w: Answers)
    requires DiskOk(d, l) && AcceptedOk(l) && ProcOk(d, l, pc)
    ensures var (e, k) := Finish(d, l, pc, w); DiskOk(e, k) && AcceptedOk(k)
    decreases Remaining(pc)
  {
    if pc != Idle {
      ActDescends(d, l, pc, w);
      ActorKept(d, l, pc, AnswerTo(pc, w));
      var r := Act(d, l, pc, AnswerTo(pc, w));
      FinishKeeps(r.d, r.l, r.pc, w);
    }
  }

  /** A call of the agent touches no other source's reason and keeps one entry for each source. */
  lemma {:induction false} NotesOnlyRejoin(rs: seq<Reason>, d: Disk, l: Ledger, pc: PC, w: Answers)
    requires OnePerSource(rs)
    ensures OnePerSource(Notes(rs, d, l, pc, w))
    ensures Without(Notes(rs, d, l, pc, w), SOURCE_REJOIN) == Without(rs, SOURCE_REJOIN)
    decreases Remaining(pc)
  {
    if pc != Idle {
      ActDescends(d, l, pc, w);
      var r := Act(d, l, pc, AnswerTo(pc, w));
      MergeReplaces(rs, RejoinReason(w), w.now);
      WithoutKeepsOne(rs, SOURCE_REJOIN);
      forall x | x in Without(rs, SOURCE_REJOIN)
        ensures x.source != SOURCE_REJOIN
      {
        WithoutMembers(rs, SOURCE_REJOIN, x);
      }
      WithoutAbsent(Without(rs, SOURCE_REJOIN), SOURCE_REJOIN);
      NotesOnlyRejoin(Note(rs, d, pc, w), r.d, r.l, r.pc, w);
    }
  }

  /** A rejoin asks for a reboot, never for a shutdown. */
  ghost predicate RejoinReboots(rs: seq<Reason>) {
    forall r :: r in rs && r.source == SOURCE_REJOIN ==> r.mode == MODE_REBOOT
  }

  /** What a saved native success adds to the pending reasons: a restart, forced as the policy says, stamped. */
  lemma RestartAskedFor(rs: seq<Reason>, d: Disk, pc: PC, w: Answers)
    requires pc.Settling? && pc.a.phase.AwaitingReboot? && SaveAttempt(d, pc.a, w.settle).1
    ensures exists r :: r in Note(rs, d, pc, w)
              && r.source == "directory-rejoin" && r.mode == "reboot" && r.force == w.force && r.since == w.now
              && r.taskID == 0
    ensures forall r: Reason :: r.source != "directory-rejoin" ==> (r in Note(rs, d, pc, w) <==> r in rs)
  {
    hide SaveAttempt;
    assert Stamped(RejoinReason(w), w.now) in Note(rs, d, pc, w);
    forall r
      ensures r in Without(rs, SOURCE_REJOIN) <==> r in rs && r.source != SOURCE_REJOIN
    {
      WithoutMembers(rs, SOURCE_REJOIN, r);
    }
  }

  /** A verified marker, once saved, takes the reason back and no other source's; no other action touches any. */
  lemma RestartWithdrawn(rs: seq<Reason>, d: Disk, pc: PC, w: Answers)
    ensures var asked := pc.Settling? && pc.a.phase.AwaitingReboot? && SaveAttempt(d, pc.a, w.settle).1;
      var verified := pc.Confirming? && SaveAttempt(d, pc.a, w.confirm).1;
      && (verified ==> forall r :: r in Note(rs, d, pc, w) <==> r in rs && r.source != "directory-rejoin")
      && (!verified && !asked ==> Note(rs, d, pc, w) == rs)
  {
    hide SaveAttempt;
    forall r
      ensures r in Without(rs, SOURCE_REJOIN) <==> r in rs && r.source != SOURCE_REJOIN
    {
      WithoutMembers(rs, SOURCE_REJOIN, r);
    }
  }

  lemma NoteReboots(rs: seq<Reason>, d: Disk, pc: PC, w: Answers)
    requires RejoinReboots(rs)
    ensures RejoinReboots(Note(rs, d, pc, w))
  {
    hide SaveAttempt;
    forall r
      ensures r in Without(rs, SOURCE_REJOIN) <==> r in rs && r.source != SOURCE_REJOIN
    {
      WithoutMembers(rs, SOURCE_REJOIN, r);
    }
  }

  lemma {:induction false} NotesReboot(rs: seq<Reason>, d: Disk, l: Ledger, pc: PC, w: Answers)
    requires RejoinReboots(rs)
    ensures RejoinReboots(Notes(rs, d, l, pc, w))
    decreases Remaining(pc)
  {
    hide Finish, Notes, Note;
    if pc == Idle {
      Ended(rs, d, l, w);
    } else {
      Unfold(rs, d, l, pc, w);
      ActDescends(d, l, pc, w);
      NoteReboots(rs, d, pc, w);
      var r := Act(d, l, pc, AnswerTo(pc, w));
      NotesReboot(Note(rs, d, pc, w), r.d, r.l, r.pc, w);
    }
  }

  /** The native operation of this life was started, or its outcome is not known. */
  predicate Uncertain(a: Attempt) {
    a.phase.MayHaveRun? || a.phase.Unknown? || a.phase.Failed? || a.phase.AwaitingReboot?
  }

  /** A call that finds an uncertain marker never dispatches, never frees the slot and never rebinds
      it, whatever the plan says and whatever the world answers: nothing is replayed. */
  lemma {:induction false} UncertainNeverReplays(d: Disk, l: Ledger, pc: PC, w: Answers)
    requires d.slot.Holding? && Uncertain(d.slot.marker)
    requires pc.Loading? || pc.RotateLoading?
    ensures var (e, k) := Finish(d, l, pc, w);
      && k.natives == l.natives && k.life == l.life && e.archive == d.archive
      && e.slot.Holding? && e.slot.marker.plan == d.slot.marker.plan
      && (e.slot.marker.phase == d.slot.marker.phase
          || (d.slot.marker.phase.AwaitingReboot? && e.slot.marker.phase.Verified?))
  {
    hide Finish, Notes;
    Unfold([], d, l, pc, w);
    var r := Act(d, l, pc, AnswerTo(pc, w));
    assert r.pc.Idle? || r.pc.Verifying?;
    if r.pc.Verifying? {
      Unfold([], d, l, r.pc, w);
      r := Act(d, l, r.pc, AnswerTo(r.pc, w));
      if r.pc.Confirming? {
        Unfold([], d, l, r.pc, w);
        r := Act(d, l, r.pc, AnswerTo(r.pc, w));
      }
    }
    Ended([], r.d, r.l, w);
  }

  /** However a call goes, it makes at most one native dispatch. */
  lemma {:induction false} CallDispatchesOnce(d: Disk, l: Ledger, pc: PC, w: Answers)
    ensures Finish(d, l, pc, w).1.natives <= l.natives + (if Remaining(pc) >= 5 then 1 else 0)
    decreases Remaining(pc)
  {
    if pc != Idle {
      ActDescends(d, l, pc, w);
      var r := Act(d, l, pc, AnswerTo(pc, w));
      assert r.l.natives == l.natives || (pc.Dispatching? && r.l.natives == l.natives + 1);
      CallDispatchesOnce(r.d, r.l, r.pc, w);
    }
  }

  /* ----- the coordinator's turn ----- */

  /** What the world answers in one turn: the faults of its three marker calls, the logged-in users,
      the look for a network boot entry, whether the state was saved, whether the entry was armed, and
      whether the operating system took the request. */
  datatype Turn = Turn(
    load: Fault, claim: Fault, release: Fault, users: Option<nat>, find: Find, grace: int,
    saved: bool, armed: bool, taken: bool)

  /** How a turn ends; an accepted request says what was asked for. */
  datatype Outcome = Error | Nothing | Held | Waiting | Refused | Accepted(d: Decision)

  /** The marker grants a restart: it awaits one that nobody has requested. */
  predicate Claimable(d: Disk, f: Fault) {
    f.NoFault? && LoadAttempt(d).Present? && LoadAttempt(d).a.phase.AwaitingReboot? && !LoadAttempt(d).a.rebootRequested
  }

  /** The reasons a turn may look at: a rejoin reason counts only while its marker grants a restart. */
  function Live(rs: seq<Reason>, stale: bool): seq<Reason> {
    if stale then Without(rs, SOURCE_REJOIN) else rs
  }

  ghost predicate HasSource(rs: seq<Reason>, source: string) {
    exists r :: r in rs && r.source == source
  }

  /** Some reason acted on is a rejoin's, and a marker nobody has claimed was found. */
  ghost predicate Asks(acts: seq<Reason>, found: Option<Attempt>) {
    found.Some? && !found.value.rebootRequested && HasSource(acts, SOURCE_REJOIN)
  }

  ghost predicate MayReboot(rs: seq<Reason>, users: nat) {
    exists r :: r in rs && (users == 0 || r.force)
  }

  ghost predicate Wants(rs: seq<Reason>, t: Turn) {
    t.users.Some? && MayReboot(Acts(rs, t.find), t.users.value) && HasSource(Acts(rs, t.find), SOURCE_REJOIN)
  }

  /** The request got through: saved, armed where that was called for, and taken. */
  predicate Through(arming: bool, t: Turn) {
    t.saved && (arming ==> t.armed) && t.taken
  }

  /** A network boot is called for by a task, where an entry was found. */
  ghost predicate Went(rs: seq<Reason>, t: Turn) {
    Through(HasSource(rs, SOURCE_TASK) && t.find.Armable?, t)
  }

  /** The machine's steps from a claim to its end. After a claim that succeeds, other processes may act. */
  function ClaimPath(d: Disk, l: Ledger, a: Attempt, claim: Fault, others: seq<Call>, accepted: bool, release: Fault)
    : (Disk, Ledger)
  {
    var r := ActTurn(d, l, TurnClaiming(a), Io(claim));
    if r.pc.Idle? then (r.d, r.l)
    else
      var asked := ActTurn(ApplyAll(r.d, others), r.l, r.pc, Answered(accepted));
      if asked.pc.Idle? then (asked.d, asked.l)
      else var freed := ActTurn(asked.d, asked.l, asked.pc, Io(release)); (freed.d, freed.l)
  }

  predicate Claims(d: Disk, a: Attempt, f: Fault) {
    SetRebootRequested(d, a, true, f).1
  }

  /** After what others did, the marker is still the one that was claimed. */
  predicate StillClaimed(d: Disk, a: Attempt, f: Fault, others: seq<Call>) {
    LoadAttempt(ApplyAll(SetRebootRequested(d, a, true, f).0, others)) == Present(a.(rebootRequested := true))
  }

  /** Others can change it: it is enough that another process finds the operation verified. */
  lemma VerifiedMeanwhile(d: Disk, a: Attempt)
    requires Claims(d, a, NoFault)
    ensures StillClaimed(d, a, NoFault, [])
    ensures !StillClaimed(d, a, NoFault, [Save(a.(rebootRequested := true, phase := Phase.Verified), NoFault)])
  {
  }

  /** The machine's steps of a whole turn. */
  ghost function TurnPath(d: Disk, l: Ledger, rs: seq<Reason>, windows: bool, t: Turn): (Disk, Ledger) {
    if !windows then (d, l)
    else
      var r := ActTurn(d, l, TurnLoading(Wants(rs, t)), Io(t.load));
      if r.pc.TurnClaiming? then ClaimPath(d, l, r.pc.a, t.claim, [], Went(rs, t), t.release) else (d, l)
  }

  /** How a turn may leave the pending reasons. */
  ghost predicate TurnEnds(rs: seq<Reason>, stale: bool, t: Turn, r: Outcome, rs': seq<Reason>) {
    var acts, held := Acts(Live(rs, stale), t.find), Withheld(Live(rs, stale), t.find);
    && (rs' == rs || rs' == held || rs' == held + acts)
    && (r.Accepted? || r.Held? ==> rs' == held)
    && (r.Refused? ==> rs' == held + acts)
    && (r.Nothing? || r.Waiting? ==> rs' == rs)
    && (r.Held? ==> acts == [])
    && (r.Accepted? ==> t.users.Some? && MayReboot(acts, t.users.value) && t.saved && t.taken)
    && (r.Error? && t.saved && t.release.NoFault? ==> rs' == rs)
  }

  /** Which outcome a turn comes to. A claim is asked for where an unstale turn of a Windows host acts on a
      rejoin reason; it is made on a marker that grants it, so only a fault stops it. A request goes through if
      the state is saved, the network boot is armed where there is a task and an entry, and the system takes it. */
  ghost predicate TurnComesTo(rs: seq<Reason>, windows: bool, stale: bool, t: Turn, r: Outcome) {
    var acts := Acts(Live(rs, stale), t.find);
    var due := t.users.Some? && exists x :: x in acts && (t.users.value == 0 || x.force);
    var claims := windows && !stale && exists x :: x in acts && x.source == "directory-rejoin";
    var tasks := exists x :: x in Live(rs, stale) && x.source == "task";
    var through := t.saved && t.taken && (tasks && t.find.Armable? ==> t.armed);
    && (r.Nothing? <==> rs == [])
    && (r.Held? <==> rs != [] && t.users.Some? && acts == [])
    && (r.Waiting? <==> t.users.Some? && acts != [] && !due)
    && (r.Accepted? <==> due && (claims ==> t.claim.NoFault?) && through)
    && (r.Refused? <==> due && (claims ==> t.claim.NoFault? && t.release.NoFault?) && t.saved && !through)
    && (r.Accepted? ==> r.d.reboot && AsksFor(acts, t, r.d))
  }

  /** So a turn fails for one of four causes: the users cannot be counted, the claim fails, the state is not
      saved, or the request does not get through and the claim cannot be given back. */
  lemma ErrorCauses(rs: seq<Reason>, windows: bool, stale: bool, t: Turn, r: Outcome)
    requires TurnComesTo(rs, windows, stale, t, r)
    ensures var acts := Acts(Live(rs, stale), t.find);
      var claims := windows && !stale && HasSource(acts, SOURCE_REJOIN);
      var failed := (claims && !t.claim.NoFault?) || !t.saved
                    || (claims && !t.release.NoFault? && !Went(Live(rs, stale), t));
      r.Error? <==> rs != [] && (t.users.None? || (MayReboot(acts, t.users.value) && failed))
  {
    hide Acts, Live;
    var acts := Acts(Live(rs, stale), t.find);
    match r
    case Error =>
      if t.users.Some? {
        assert MayReboot(acts, t.users.value);
      }
    case Held => assert t.users.Some? && !MayReboot(acts, t.users.value);
    case Waiting => assert t.users.Some? && !MayReboot(acts, t.users.value);
    case _ =>
  }

  /** A turn that asks for nothing. */
  lemma HeldComesTo(d: Disk, l: Ledger, rs: seq<Reason>, windows: bool, t: Turn)
    requires rs != [] && t.users.Some?
    ensures var stale := windows && !Claimable(d, t.load);
      var acts, held := Acts(Live(rs, stale), t.find), Withheld(Live(rs, stale), t.find);
      && (acts == [] ==>
            TurnComesTo(rs, windows, stale, t, Held) && TurnEnds(rs, stale, t, Held, held))
      && (acts != [] && !MayReboot(acts, t.users.value) ==>
            TurnComesTo(rs, windows, stale, t, Waiting) && TurnEnds(rs, stale, t, Waiting, rs))
      && (acts == [] || !MayReboot(acts, t.users.value) ==> TurnPath(d, l, rs, windows, t) == (d, l))
  {
    hide Went, Acts, Withheld, ClaimPath, Without, LoadAttempt;
    TurnStart(d, l, rs, windows, t);
  }

  /** The path of a turn whose reasons may reboot. */
  lemma DuePath(d: Disk, l: Ledger, rs: seq<Reason>, windows: bool, t: Turn, found: Option<Attempt>)
    requires found == if windows && t.load.NoFault? && LoadAttempt(d).Present? then Some(LoadAttempt(d).a) else None
    requires t.users.Some?
    requires MayReboot(Acts(Live(rs, windows && !Claimable(d, t.load)), t.find), t.users.value)
    ensures var stale := windows && !Claimable(d, t.load);
      var acts := Acts(Live(rs, stale), t.find);
      && (Asks(acts, found) <==> windows && !stale && HasSource(acts, SOURCE_REJOIN))
      && (Asks(acts, found) ==> found.value.phase.AwaitingReboot?)
      && TurnPath(d, l, rs, windows, t) ==
           if Asks(acts, found)
           then ClaimPath(d, l, found.value, t.claim, [], Went(Live(rs, stale), t), t.release) else (d, l)
  {
    hide Acts, Without, LoadAttempt, ClaimPath;
    TurnStart(d, l, rs, windows, t);
    LiveAgrees(rs, windows && !Claimable(d, t.load), t.find);
  }

  lemma DueComesTo(rs: seq<Reason>, windows: bool, stale: bool, t: Turn, r: Outcome, d: Decision,
                   rs': seq<Reason>)
    requires rs != [] && t.users.Some?
    requires var acts, held := Acts(Live(rs, stale), t.find), Withheld(Live(rs, stale), t.find);
      && (r.Accepted? ==> rs' == held) && (r.Refused? ==> rs' == held + acts)
      && (r.Error? ==> rs' == rs || rs' == held)
      && (r.Error? && t.saved && t.release.NoFault? ==> rs' == rs)
    requires var acts := Acts(Live(rs, stale), t.find);
      var claims := windows && !stale && HasSource(acts, SOURCE_REJOIN);
      && acts != [] && MayReboot(acts, t.users.value) && d.reboot && AsksFor(acts, t, d)
      && (r == Accepted(d) || r.Refused? || r.Error?)
      && (r.Accepted? <==> (claims ==> t.claim.NoFault?) && Went(Live(rs, stale), t))
      && (r.Refused? <==> (claims ==> t.claim.NoFault? && t.release.NoFault?) && t.saved
                          && !Went(Live(rs, stale), t))
    ensures TurnComesTo(rs, windows, stale, t, r) && TurnEnds(rs, stale, t, r, rs')
  {
    hide Acts, Withheld, Live;
  }

  lemma DecisionAsks(acts: seq<Reason>, t: Turn, d: Decision)
    requires t.users.Some? && d.delay == if t.users.value > 0 then t.grace else 0
    requires d.mode in {MODE_REBOOT, MODE_SHUTDOWN}
    requires d.mode == MODE_SHUTDOWN <==> forall r :: r in acts ==> r.mode == MODE_SHUTDOWN
    ensures AsksFor(acts, t, d)
  {
  }

  /** A shutdown only when every reason acted on asks for one, and a grace period only when users are there. */
  ghost predicate AsksFor(acts: seq<Reason>, t: Turn, d: Decision) {
    && t.users.Some? && d.delay == (if t.users.value > 0 then t.grace else 0)
    && d.mode == if forall x :: x in acts ==> x.mode == MODE_SHUTDOWN then MODE_SHUTDOWN else MODE_REBOOT
  }

  /** With state writes that succeed, a reason disappears from the list only in a turn whose request
      was accepted, and then only if it was acted on, or because it is a rejoin reason that its marker
      does not back. */
  lemma ReasonsSurvive(rs: seq<Reason>, stale: bool, t: Turn, r: Outcome, rs': seq<Reason>, x: Reason)
    requires OnePerSource(rs) && TurnEnds(rs, stale, t, r, rs') && t.saved && t.release.NoFault?
    requires x in rs && x !in rs'
    ensures (stale && x.source == SOURCE_REJOIN) || (r.Accepted? && x in Acts(Live(rs, stale), t.find))
  {
    WithoutMembers(rs, SOURCE_REJOIN, x);
    WithoutKeepsOne(rs, SOURCE_REJOIN);
    SplitKeepsReasons(Live(rs, stale), t.find);
  }

  /** One action of a turn keeps the invariant, and leads to another action of the turn or to its end. */
  lemma TurnActKept(d: Disk, l: Ledger, pc: PC, i: Input)
    requires Turning(pc) && DiskOk(d, l) && AcceptedOk(l) && ProcOk(d, l, pc)
    ensures var r := ActTurn(d, l, pc, i);
      DiskOk(r.d, r.l) && AcceptedOk(r.l) && ProcOk(r.d, r.l, r.pc) && (r.pc.Idle? || Turning(r.pc))
  {
    hide DiskOk, AcceptedOk, ProcOk, LoadAttempt, SetRebootRequested;
    ActorKept(d, l, pc, if i.Begin? then Killed else i);
  }

  lemma ClaimKeepsInv(d: Disk, l: Ledger, a: Attempt, claim: Fault, accepted: bool, release: Fault)
    requires DiskOk(d, l) && AcceptedOk(l) && ProcOk(d, l, TurnClaiming(a))
    ensures var (e, k) := ClaimPath(d, l, a, claim, [], accepted, release); DiskOk(e, k) && AcceptedOk(k)
  {
    hide DiskOk, AcceptedOk, ProcOk, SetRebootRequested;
    var r := ActTurn(d, l, TurnClaiming(a), Io(claim));
    TurnActKept(d, l, TurnClaiming(a), Io(claim));
    if !r.pc.Idle? {
      var asked := ActTurn(r.d, r.l, r.pc, Answered(accepted));
      TurnActKept(r.d, r.l, r.pc, Answered(accepted));
      if !asked.pc.Idle? {
        TurnActKept(asked.d, asked.l, asked.pc, Io(release));
      }
    }
  }

  lemma TurnKeepsInv(d: Disk, l: Ledger, rs: seq<Reason>, windows: bool, t: Turn)
    requires DiskOk(d, l) && AcceptedOk(l)
    ensures var (e, k) := TurnPath(d, l, rs, windows, t); DiskOk(e, k) && AcceptedOk(k)
  {
    hide DiskOk, AcceptedOk, ProcOk, LoadAttempt, ClaimPath, Wants, Went;
    var load := ActTurn(d, l, TurnLoading(Wants(rs, t)), Io(t.load));
    assert ProcOk(d, l, TurnLoading(Wants(rs, t))) by {
      ProcFree(d, l, TurnLoading(Wants(rs, t)));
    }
    TurnActKept(d, l, TurnLoading(Wants(rs, t)), Io(t.load));
    if windows && load.pc.TurnClaiming? {
      ClaimKeepsInv(d, l, load.pc.a, t.claim, Went(rs, t), t.release);
    }
  }

  /** The turn reaches the marker exactly when the marker grants a restart that the reasons want. */
  lemma TurnStart(d: Disk, l: Ledger, rs: seq<Reason>, windows: bool, t: Turn)
    ensures TurnPath(d, l, rs, windows, t) ==
      if windows && Claimable(d, t.load) && Wants(rs, t)
      then ClaimPath(d, l, LoadAttempt(d).a, t.claim, [], Went(rs, t), t.release) else (d, l)
  {
  }

  lemma TurnKeepsOne(rs: seq<Reason>, stale: bool, find: Find)
    requires OnePerSource(rs)
    ensures var live := Live(rs, stale);
      OnePerSource(Withheld(live, find)) && OnePerSource(Withheld(live, find) + Acts(live, find))
  {
    WithoutKeepsOne(rs, SOURCE_REJOIN);
    SplitKeepsReasons(Live(rs, stale), find);
  }

  /** Nor does a turn bring in a rejoin reason with another mode. */
  lemma TurnKeepsModes(rs: seq<Reason>, stale: bool, find: Find)
    requires RejoinReboots(rs)
    ensures var acts, held := Acts(Live(rs, stale), find), Withheld(Live(rs, stale), find);
      RejoinReboots(acts) && RejoinReboots(held) && RejoinReboots(held + acts)
  {
    var live := Live(rs, stale);
    forall r
      ensures r in Without(rs, SOURCE_REJOIN) ==> r in rs
      ensures r in Without(live, SOURCE_TASK) ==> r in live
      ensures r in Only(live, SOURCE_TASK) ==> r in live
    {
      WithoutMembers(rs, SOURCE_REJOIN, r);
      WithoutMembers(live, SOURCE_TASK, r);
      OnlyMembers(live, SOURCE_TASK, r);
    }
  }

  /** With no task among the reasons it does not matter what a look for a boot entry would find. */
  lemma PlanWithoutTask(rs: seq<Reason>, find: Find)
    requires !HasSource(rs, SOURCE_TASK)
    ensures Acts(rs, find) == rs && Withheld(rs, find) == []
  {
    WithoutAbsent(rs, SOURCE_TASK);
    if Only(rs, SOURCE_TASK) != [] {
      OnlyMembers(rs, SOURCE_TASK, Only(rs, SOURCE_TASK)[0]);
    }
  }

  /** A stale turn acts on no rejoin reason, and looks for a boot entry just when the whole list would. */
  lemma LiveAgrees(rs: seq<Reason>, stale: bool, find: Find)
    ensures HasSource(Live(rs, stale), SOURCE_TASK) == HasSource(rs, SOURCE_TASK)
    ensures stale ==> !HasSource(Acts(Live(rs, stale), find), SOURCE_REJOIN)
  {
    forall r
      ensures r in Without(rs, SOURCE_REJOIN) <==> r in rs && r.source != SOURCE_REJOIN
      ensures r in Without(Live(rs, stale), SOURCE_TASK) <==> r in Live(rs, stale) && r.source != SOURCE_TASK
    {
      WithoutMembers(rs, SOURCE_REJOIN, r);
      WithoutMembers(Live(rs, stale), SOURCE_TASK, r);
    }
    if HasSource(rs, SOURCE_TASK) {
      var r :| r in rs && r.source == SOURCE_TASK;
      assert SOURCE_TASK[0] != SOURCE_REJOIN[0];
      assert r in Live(rs, stale);
    }
  }

  class Agent {
    const store: AttemptStore
    var pending: seq<Reason>
    ghost var ledger: Ledger

    constructor ()
      ensures Valid() && fresh(store) && store.Now() == Disk(Empty, {}) && pending == []
    {
      store := new AttemptStore();
      pending := [];
      ledger := Ledger(0, 0, 0, None, false, None, []);
    }

    ghost predicate Valid()
      reads this, store
    {
      DiskOk(store.Now(), ledger) && AcceptedOk(ledger) && OnePerSource(pending) && RejoinReboots(pending)
    }

    /** directory_rejoin.go:354-375: after the marker awaits its restart. */
    method Verify(q: Plan, id: Identity, snapshot: Attempt, w: Answers)
      requires snapshot.phase.AwaitingReboot?
      modifies this, store
      ensures (store.Now(), ledger) == old(Finish(store.Now(), ledger, Verifying(q, id, snapshot), w))
      ensures pending == old(Notes(pending, store.Now(), ledger, Verifying(q, id, snapshot), w))
    {
      hide Finish, Notes;
      Unfold(pending, store.Now(), ledger, Verifying(q, id, snapshot), w);
      if w.recheck.None? {
        Ended(pending, store.Now(), ledger, w);
        return;
      }
      var o := w.recheck.value;
      if !q.phase.PlanVerified? && !w.pendingTold {
        Ended(pending, store.Now(), ledger, w);
        return;
      }
      if NewBoot(snapshot.beforeBoot, o.boot) {
        if !HealthyAs(o, snapshot.plan) || !w.verifiedTold {
          Ended(pending, store.Now(), ledger, w);
          return;
        }
        var a := snapshot.(phase := Phase.Verified);
        ghost var before := store.slot;
        Unfold(pending, store.Now(), ledger, Confirming(q, id, a, o), w);
        var ok := store.Save(a, w.confirm);
        if store.slot != before {
          ledger := ledger.(evidence := Some(o));
        }
        if ok {
          pending := Drop(pending, SOURCE_REJOIN);
        }
      }
      Ended(pending, store.Now(), ledger, w);
    }

    /** Records an outcome; a native success also asks for the restart, and looks whether it happened. */
    method Settle(q: Plan, id: Identity, o: Obs, a: Attempt, w: Answers)
      requires a.plan == q && Owns(id, a)
      modifies this, store
      ensures (store.Now(), ledger) == old(Finish(store.Now(), ledger, Settling(q, id, o, a), w))
      ensures pending == old(Notes(pending, store.Now(), ledger, Settling(q, id, o, a), w))
    {
      hide Finish, Notes;
      Unfold(pending, store.Now(), ledger, Settling(q, id, o, a), w);
      var ok := store.Save(a, w.settle);
      if !ok || a.phase != AwaitingReboot {
        Ended(pending, store.Now(), ledger, w);
        return;
      }
      pending := Merge(pending, RejoinReason(w), w.now);
      if !w.configSaved {
        Ended(pending, store.Now(), ledger, w);
        return;
      }
      Verify(q, id, a, w);
    }

    /** directory_rejoin.go:301-336: the native call and the record of its outcome. */
    method CallNative(q: Plan, id: Identity, o: Obs, latched: Attempt, w: Answers)
      requires latched.plan == q && Owns(id, latched)
      modifies this, store
      ensures (store.Now(), ledger) == old(Finish(store.Now(), ledger, Dispatching(q, id, o, latched), w))
      ensures pending == old(Notes(pending, store.Now(), ledger, Dispatching(q, id, o, latched), w))
    {
      hide Finish, Notes;
      var a := latched;
      Unfold(pending, store.Now(), ledger, Dispatching(q, id, o, a), w);
      ledger := ledger.(natives := ledger.natives + 1, nativeZero := ledger.nativeZero || w.code == Some(0));
      if w.code.None? {
        a := a.(phase := Phase.Unknown);
      } else {
        a := a.(nativeStatus := w.code, phase := if w.code.value != 0 then Failed else AwaitingReboot);
      }
      Settle(q, id, o, a, w);
    }

    /** directory_rejoin.go:279-300: latch the uncertainty, then set the pending name if one is needed. */
    method Dispatch(q: Plan, id: Identity, look: Obs, reserved: Attempt, w: Answers)
      requires reserved.plan == q && Owns(id, reserved)
      modifies this, store
      ensures (store.Now(), ledger) == old(Finish(store.Now(), ledger, Latching(q, id, look, reserved), w))
      ensures pending == old(Notes(pending, store.Now(), ledger, Latching(q, id, look, reserved), w))
    {
      hide Finish, Notes;
      Unfold(pending, store.Now(), ledger, Latching(q, id, look, reserved), w);
      var o, a := look, reserved.(phase := MayHaveRun);
      var ok := store.Save(a, w.latch);
      if !ok {
        Ended(pending, store.Now(), ledger, w);
        return;
      }
      if NeedsName(q, o) {
        Unfold(pending, store.Now(), ledger, Naming(q, id, o, a), w);
        if w.named.None? || !EqualFold(w.named.value.pendingName, q.name) {
          Settle(q, id, o, a.(phase := Phase.Unknown), w);
          return;
        }
        o := w.named.value;
      }
      CallNative(q, id, o, a, w);
    }

    /** directory_rejoin.go:268-278: reserve the marker and claim the attempt at the server. */
    method Reserve(q: Plan, id: Identity, o: Obs, w: Answers)
      requires q.hostID == id.hostID
      modifies this, store
      ensures (store.Now(), ledger) == old(Finish(store.Now(), ledger, Reserving(q, id, o), w))
      ensures pending == old(Notes(pending, store.Now(), ledger, Reserving(q, id, o), w))
    {
      hide Finish, Notes;
      var a := NewAttempt(q, id, o);
      ghost var before := store.Now();
      Unfold(pending, before, ledger, Reserving(q, id, o), w);
      var ok := store.Reserve(a, w.reserve);
      ledger := Born(before, store.Now(), ledger, a);
      if !ok {
        Ended(pending, store.Now(), ledger, w);
        return;
      }
      Unfold(pending, store.Now(), ledger, Claiming(q, id, o, a), w);
      if !w.granted {
        Settle(q, id, o, a.(phase := Phase.Unknown), w);
        return;
      }
      Dispatch(q, id, o, a, w);
    }

    /** directory_rejoin.go:246-267: look at the machine before anything is reserved. */
    method Perform(q: Plan, id: Identity, w: Answers)
      requires q.hostID == id.hostID
      modifies this, store
      ensures (store.Now(), ledger) == old(Finish(store.Now(), ledger, Fresh(q, id), w))
      ensures pending == old(Notes(pending, store.Now(), ledger, Fresh(q, id), w))
    {
      if !q.phase.Ready? {
        return;
      }
      Unfold(pending, store.Now(), ledger, Observing(q, id), w);
      if w.seen.None? || !Suits(q, w.seen.value) {
        return;
      }
      Reserve(q, id, w.seen.value, w);
    }

    /** directory_rejoin.go:229-245: a new attempt may take the place of a verified marker, or of a
        reservation that was never executed. */
    method Supersede(q: Plan, id: Identity, a: Attempt, w: Answers)
      requires q.hostID == id.hostID && a.plan.attemptID != q.attemptID
      modifies this, store
      ensures (store.Now(), ledger) == old(Finish(store.Now(), ledger, Superseding(q, id, a), w))
      ensures pending == old(Notes(pending, store.Now(), ledger, Superseding(q, id, a), w))
    {
      if !q.phase.Ready? || a.plan.hostID != id.hostID {
        return;
      }
      var ok;
      if a.phase.Verified? {
        Unfold(pending, store.Now(), ledger, Replacing(q, id, a), w);
        ok := store.Archive(a, w.replace);
      } else {
        if !ValidateReservedRetry(a, q, id.hostID, id.fingerprint) {
          return;
        }
        Unfold(pending, store.Now(), ledger, Withdrawing(q, id, a), w);
        ok := store.Remove(a, q, id.hostID, id.fingerprint, w.withdraw);
      }
      if ok {
        Perform(q, id, w);
      }
    }

    /** directory_rejoin.go:206-246 and 338-341: the plan checks, and what they lead to. */
    method Follow(p: Option<Plan>, id: Identity, a: Option<Attempt>, w: Answers)
      modifies this, store
      ensures (store.Now(), ledger) == old(Finish(store.Now(), ledger, Route(p, id, a), w))
      ensures pending == old(Notes(pending, store.Now(), ledger, Route(p, id, a), w))
    {
      if p.None? || p.value.phase.Blocked? || !Validate(p.value, id.hostID) {
        return;
      }
      var q := p.value;
      if q.operation.Rename? && q.phase.Ready? && !q.pinned {
        return;
      }
      if a.None? {
        Perform(q, id, w);
      } else if a.value.plan.attemptID != q.attemptID {
        Supersede(q, id, a.value, w);
      } else if Owns(id, a.value) && a.value.phase.AwaitingReboot? {
        Verify(q, id, a.value, w);
      }
    }

    method ProcessRejoin(p: Option<Plan>, id: Identity, w: Answers)
      requires Valid()
      modifies this, store
      ensures (store.Now(), ledger) == old(Finish(store.Now(), ledger, Loading(p, id), w))
      ensures pending == old(Notes(pending, store.Now(), ledger, Loading(p, id), w))
      ensures Valid()
    {
      hide Finish, Notes, DiskOk, AcceptedOk;
      ProcFree(store.Now(), ledger, Loading(p, id));
      FinishKeeps(store.Now(), ledger, Loading(p, id), w);
      NotesOnlyRejoin(pending, store.Now(), ledger, Loading(p, id), w);
      NotesReboot(pending, store.Now(), ledger, Loading(p, id), w);
      Unfold(pending, store.Now(), ledger, Loading(p, id), w);
      var loaded := store.Load(w.load);
      if loaded.Unreadable? {
        Ended(pending, store.Now(), ledger, w);
        return;
      }
      var a := if loaded.Present? then Some(loaded.a) else None;
      if a.Some? && a.value.phase.Verified? && !Owns(id, a.value) {
        Unfold(pending, store.Now(), ledger, Retiring(p, id, a.value), w);
        var ok := store.Archive(a.value, w.retire);
        if !ok {
          Ended(pending, store.Now(), ledger, w);
          return;
        }
        a := None;
      }
      Follow(p, id, a, w);
    }

    /** Only a verified marker leaves its slot when the machine's identity changes. */
    method RotateIdentity(w: Answers)
      requires Valid()
      modifies store
      ensures (store.Now(), ledger) == old(Finish(store.Now(), ledger, RotateLoading, w))
      ensures Valid() && (store.Now() != old(store.Now()) ==>
        old(store.slot.Holding? && store.slot.marker.phase.Verified?) && store.slot.Empty?)
    {
      FinishKeeps(store.Now(), ledger, RotateLoading, w);
      var loaded := store.Load(w.load);
      if loaded.Present? && loaded.a.phase.Verified? {
        var ok := store.Archive(loaded.a, w.retire);
      }
    }

    /** main.go:1535-1544: only a claim made by this turn is given back. */
    method RefusedDirectoryReboot(attempt: Option<Attempt>, claimed: bool, f: Fault) returns (ok: bool)
      requires claimed ==> attempt.Some? && attempt.value.rebootRequested
      modifies store`slot
      ensures (store.Now(), ok) ==
        if claimed then SetRebootRequested(old(store.Now()), attempt.value, false, f) else (old(store.Now()), true)
    {
      if !claimed {
        return true;
      }
      ok := store.SetRequested(attempt.value, false, f);
    }

    /** main.go:1389-1405: the marker, and the reasons that it lets through. */
    method LiveReasons(windows: bool, f: Fault) returns (live: seq<Reason>, attempt: Option<Attempt>)
      ensures live == Live(pending, windows && !Claimable(store.Now(), f))
      ensures attempt == if windows && f.NoFault? && LoadAttempt(store.Now()).Present?
                         then Some(LoadAttempt(store.Now()).a) else None
    {
      live, attempt := pending, None;
      if windows {
        var loaded := store.Load(f);
        if loaded.Present? {
          attempt := Some(loaded.a);
        }
        live := [];
        var stale := attempt.None? || attempt.value.phase != AwaitingReboot || attempt.value.rebootRequested;
        for i := 0 to |pending|
          invariant live == Live(pending[..i], stale)
        {
          WithoutSnoc(pending[..i], pending[i], SOURCE_REJOIN);
          assert pending[..i + 1] == pending[..i] + [pending[i]];
          if !(pending[i].source == SOURCE_REJOIN && stale) {
            live := live + [pending[i]];
          }
        }
        assert pending[..|pending|] == pending;
      }
    }

    /** main.go:1473-1484: the first rejoin reason claims the restart on the marker. */
    method ClaimReboot(acts: seq<Reason>, found: Option<Attempt>, f: Fault) returns (ok: bool, claimed: bool)
      modifies store`slot
      ensures ok == (Asks(acts, found) ==> claimed)
      ensures (store.Now(), claimed) ==
        if Asks(acts, found) then SetRebootRequested(old(store.Now()), found.value, true, f)
        else (old(store.Now()), false)
    {
      if found.None? || found.value.rebootRequested {
        return true, false;
      }
      for i := 0 to |acts|
        invariant forall k :: 0 <= k < i ==> acts[k].source != SOURCE_REJOIN
        invariant store.Now() == old(store.Now())
      {
        if acts[i].source == SOURCE_REJOIN {
          assert HasSource(acts, SOURCE_REJOIN);
          claimed := store.SetRequested(found.value, true, f);
          return claimed, claimed;
        }
      }
      return true, false;
    }

    /** main.go:1473-1530: claim the restart on the marker, save, arm, and ask the operating system. After
        the claim other processes may have changed the marker; then a refused request loses its reasons. */
    method Request(acts: seq<Reason>, held: seq<Reason>, found: Option<Attempt>, arming: bool, t: Turn,
                   others: seq<Call>, d: Decision)
      returns (r: Outcome)
      requires found.Some? ==> LoadAttempt(store.Now()) == Present(found.value)
      requires Asks(acts, found) ==> found.value.phase.AwaitingReboot?
      modifies this, store
      ensures (store.Now(), ledger) ==
        if Asks(acts, found)
        then old(ClaimPath(store.Now(), ledger, found.value, t.claim, others, Through(arming, t), t.release))
        else old((store.Now(), ledger))
      ensures r == Accepted(d) || r.Refused? || r.Error?
      ensures others == [] ==>
        var claims := Asks(acts, found);
        && (r.Accepted? <==> (claims ==> t.claim.NoFault?) && Through(arming, t))
        && (r.Refused? <==> (claims ==> t.claim.NoFault? && t.release.NoFault?) && t.saved && !Through(arming, t))
      ensures r.Accepted? ==> pending == held && Through(arming, t)
      ensures r.Refused? ==> pending == held + acts
      ensures r.Error? ==> pending == old(pending) || pending == held
      ensures r.Error? && t.saved && t.release.NoFault? && others == [] ==> pending == old(pending)
      ensures t.saved && t.release.NoFault? && !Through(arming, t) ==>
        pending == if !Asks(acts, found) then held + acts
                   else if !Claims(old(store.Now()), found.value, t.claim) then old(pending)
                   else if StillClaimed(old(store.Now()), found.value, t.claim, others) then held + acts
                   else held
    {
      var ok, claimed := ClaimReboot(acts, found, t.claim);
      if !ok {
        return Error;
      }
      var attempt := if claimed then Some(found.value.(rebootRequested := true)) else found;
      if claimed {
        store.Meanwhile(others);
      }
      pending := held;
      if !t.saved {
        var released := RefusedDirectoryReboot(attempt, claimed, t.release);
        return Error;
      }
      if (arming && !t.armed) || !t.taken {
        var released := RefusedDirectoryReboot(attempt, claimed, t.release);
        if !released {
          return Error;
        }
        pending := held + acts;
        return Refused;
      }
      if claimed {
        ledger := ledger.(accepted := ledger.accepted + [ledger.life]);
      }
      return Accepted(d);
    }

    /** main.go:1421-1428: a boot entry is looked for only if there is a task. */
    static method Split(live: seq<Reason>, t: Turn) returns (act: seq<Reason>, held: seq<Reason>, arming: bool)
      ensures act == Acts(live, t.find) && held == Withheld(live, t.find)
      ensures Went(live, t) == Through(arming, t)
    {
      var tasks := HasTaskReason(live);
      act, held := PlanReboot(live, if tasks then t.find else Armable);
      arming := tasks && t.find.Armable?;
      if !tasks {
        PlanWithoutTask(live, t.find);
      }
    }

    /** main.go:1406-1531: with the users counted, what is due is held back, waits, or is asked for. */
    method Weigh(live: seq<Reason>, attempt: Option<Attempt>, windows: bool, t: Turn) returns (r: Outcome)
      requires pending != [] && t.users.Some? && live == Live(pending, windows && !Claimable(store.Now(), t.load))
      requires attempt == if windows && t.load.NoFault? && LoadAttempt(store.Now()).Present?
                          then Some(LoadAttempt(store.Now()).a) else None
      modifies this, store
      ensures (store.Now(), ledger) == old(TurnPath(store.Now(), ledger, pending, windows, t))
      ensures TurnEnds(old(pending), windows && !Claimable(old(store.Now()), t.load), t, r, pending)
      ensures TurnComesTo(old(pending), windows, windows && !Claimable(old(store.Now()), t.load), t, r)
    {
      hide TurnComesTo, TurnEnds, TurnPath, ClaimPath, Asks, Claimable, Claims, StillClaimed, Went,
        Live, AsksFor, Acts, Withheld;
      ghost var d, l, rs := store.Now(), ledger, pending;
      ghost var stale := windows && !Claimable(d, t.load);
      var act, held, arming := Split(live, t);
      HeldComesTo(d, l, rs, windows, t);
      if act == [] {
        pending := held;
        return Held;
      }
      var decision := Decide(act, t.users.value, t.grace);
      if !decision.reboot {
        return Waiting;
      }
      DuePath(d, l, rs, windows, t, attempt);
      DecisionAsks(act, t, decision);
      r := Request(act, held, attempt, arming, t, [], decision);
      DueComesTo(rs, windows, stale, t, r, decision, pending);
    }

    /** main.go:1385-1531: one turn, as a path of the machine and an end of the pending list. */
    method TakeTurn(windows: bool, t: Turn) returns (r: Outcome)
      modifies this, store
      ensures (store.Now(), ledger) == old(TurnPath(store.Now(), ledger, pending, windows, t))
      ensures TurnEnds(old(pending), windows && !Claimable(old(store.Now()), t.load), t, r, pending)
      ensures TurnComesTo(old(pending), windows, windows && !Claimable(old(store.Now()), t.load), t, r)
    {
      TurnStart(store.Now(), ledger, pending, windows, t);
      if pending == [] {
        return Nothing;
      }
      var live, attempt := LiveReasons(windows, t.load);
      if t.users.None? {
        return Error;
      }
      r := Weigh(live, attempt, windows, t);
    }

    /** A turn keeps the marker's invariant and one entry for each source. */
    method Coordinate(windows: bool, t: Turn) returns (r: Outcome)
      requires Valid()
      modifies this, store
      ensures Valid()
      ensures (store.Now(), ledger) == old(TurnPath(store.Now(), ledger, pending, windows, t))
      ensures TurnEnds(old(pending), windows && !Claimable(old(store.Now()), t.load), t, r, pending)
      ensures TurnComesTo(old(pending), windows, windows && !Claimable(old(store.Now()), t.load), t, r)
      ensures var stale := windows && !Claimable(old(store.Now()), t.load);
        r.Accepted? && HasSource(Acts(Live(old(pending), stale), t.find), "directory-rejoin") ==> r.d.mode == "reboot"
    {
      hide DiskOk, AcceptedOk, TurnPath, Claimable, OnePerSource, Went;
      TurnKeepsInv(store.Now(), ledger, pending, windows, t);
      TurnKeepsOne(pending, windows && !Claimable(store.Now(), t.load), t.find);
      TurnKeepsModes(pending, windows && !Claimable(store.Now(), t.load), t.find);
      r := TakeTurn(windows, t);
    }
  }
}

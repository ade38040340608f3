/** The directory-operation protocol as a step machine: any number of processes, each at some point
    of a rejoin, an identity rotation or a coordinator turn, over one marker slot.
    `Act` is one durable or observable action of one process; anything may happen between two. */
module Latch {
  import opened Wrappers
  import opened Marker

  datatype Role = Workstation | MemberServer | StandaloneServer | OtherRole
  datatype Secure = Healthy | Broken | Unchecked

  datatype Obs = Obs(
    role: Role, domain: string, netbios: string, currentName: string, pendingName: string,
    secure: Secure, boot: Boot)

  /** The key fingerprint and the host id the calling process acts for. */
  datatype Identity = Identity(fingerprint: string, hostID: int)

  /** The checks between observing the machine and reserving the marker. */
  predicate Suits(p: Plan, o: Obs) {
    && (o.role.Workstation? || o.role.MemberServer? || (p.operation.Join? && o.role.StandaloneServer?))
    && (if p.operation.Join? then o.domain == "" else EqualFold(o.domain, p.domain))
    && EqualFold(o.currentName, p.expectedCurrent) && EqualFold(o.pendingName, p.expectedPending)
    && (p.operation.Rename? || EqualFold(o.pendingName, p.name) || EqualFold(o.pendingName, o.currentName))
  }

  /** The machine is what the plan asked for, seen after a restart. */
  predicate HealthyAs(o: Obs, p: Plan) {
    && o.secure.Healthy? && EqualFold(o.currentName, p.name) && EqualFold(o.pendingName, p.name)
    && (EqualFold(o.domain, p.domain) || EqualFold(o.netbios, p.domain))
    && (o.role.Workstation? || o.role.MemberServer?)
  }

  predicate Owns(id: Identity, a: Attempt) {
    a.fingerprint == id.fingerprint && a.plan.hostID == id.hostID
  }

  function NewAttempt(p: Plan, id: Identity, o: Obs): Attempt {
    Attempt(2, id.fingerprint, p, Phase.Reserved, o.boot, None, false)
  }

  predicate NeedsName(p: Plan, o: Obs) {
    !p.operation.Rename? && !EqualFold(o.pendingName, p.name)
  }

  /* ----- where a process stands; the marker inside is its own snapshot, possibly stale ----- */

  datatype PC =
    | Idle
    | Loading(p: Option<Plan>, id: Identity)
    | Retiring(p: Option<Plan>, id: Identity, a: Attempt)       // archive an older identity's marker
    | Replacing(q: Plan, id: Identity, a: Attempt)              // archive before a new attempt
    | Withdrawing(q: Plan, id: Identity, a: Attempt)            // remove a reservation for a retry
    | Observing(q: Plan, id: Identity)
    | Reserving(q: Plan, id: Identity, o: Obs)
    | Claiming(q: Plan, id: Identity, o: Obs, a: Attempt)       // ask the server
    | Latching(q: Plan, id: Identity, o: Obs, a: Attempt)       // save may_have_run
    | Naming(q: Plan, id: Identity, o: Obs, a: Attempt)         // native name change
    | Dispatching(q: Plan, id: Identity, o: Obs, a: Attempt)    // native join, rebind or rename
    | Settling(q: Plan, id: Identity, o: Obs, a: Attempt)       // save the outcome
    | Verifying(q: Plan, id: Identity, a: Attempt)
    | Confirming(q: Plan, id: Identity, a: Attempt, o: Obs)     // save verified
    | RotateLoading
    | RotateArchiving(a: Attempt)
    | TurnLoading(wants: bool)                                  // a coordinator turn
    | TurnClaiming(a: Attempt)
    | TurnAsking(a: Attempt, life: nat)
    | TurnReleasing(a: Attempt, life: nat)

  /** What the world answers to one action. An answer of the wrong kind is the process being killed. */
  datatype Input =
    | Killed
    | Begin(task: PC)
    | Io(f: Fault)
    | Seen(seen: Option<Obs>)
    | Server(granted: bool)
    | Named(after: Option<Obs>)                    // None: the name change or the look after it failed
    | Native(code: Option<nat>)                    // None: the call returned an error, not a status
    | Settled(g: Fault, configSaved: bool)
    | Checked(seen: Option<Obs>, pendingTold: bool, verifiedTold: bool)
    | Answered(accepted: bool)

  /** What has happened, which no process can read. `history` is how many markers the archive held at the
      start, `natives` how often the native call was or may have been made since; `life` counts
      reservations that reached the slot; `nativeZero` and `evidence` belong to the life now in it; `accepted`
      holds the lives whose restart the system took, or may have. */
  datatype Ledger = Ledger(
    history: nat, natives: nat, life: nat, birth: Option<Attempt>, nativeZero: bool, evidence: Option<Obs>,
    accepted: seq<nat>)

  datatype Acted = Acted(d: Disk, l: Ledger, pc: PC)

  /** The plan checks, up to the first action they lead to. */
  function Route(p: Option<Plan>, id: Identity, a: Option<Attempt>): PC {
    if p.None? || p.value.phase.Blocked? || !Validate(p.value, id.hostID) then Idle
    else if p.value.operation.Rename? && p.value.phase.Ready? && !p.value.pinned then Idle
    else
      var q := p.value;
      match a
      case None => Fresh(q, id)
      case Some(m) =>
        if m.plan.attemptID == q.attemptID then Resume(q, id, m) else Superseding(q, id, m)
  }

  /** What has to leave the slot before another attempt can be made. */
  function Superseding(q: Plan, id: Identity, m: Attempt): PC {
    if !q.phase.Ready? || m.plan.hostID != id.hostID then Idle
    else if m.phase.Verified? then Replacing(q, id, m)
    else if ValidateReservedRetry(m, q, id.hostID, id.fingerprint) then Withdrawing(q, id, m)
    else Idle
  }

  function Fresh(q: Plan, id: Identity): PC {
    if q.phase.Ready? then Observing(q, id) else Idle
  }

  function Resume(q: Plan, id: Identity, a: Attempt): PC {
    if Owns(id, a) && a.phase.AwaitingReboot? then Verifying(q, id, a) else Idle
  }

  /** A reservation that left anything in the slot starts a life. */
  function Born(d: Disk, e: Disk, l: Ledger, a: Attempt): Ledger {
    if e.slot == d.slot then l
    else l.(life := l.life + 1, birth := Some(a), nativeZero := false, evidence := None)
  }

  predicate Turning(pc: PC) {
    pc.TurnLoading? || pc.TurnClaiming? || pc.TurnAsking? || pc.TurnReleasing?
  }

  /** The actions of a coordinator turn. */
  function ActTurn(d: Disk, l: Ledger, pc: PC, i: Input): Acted
    requires Turning(pc)
  {
    match pc
    case TurnLoading(wants) =>
      if i == Io(NoFault) && wants && LoadAttempt(d).Present? && LoadAttempt(d).a.phase.AwaitingReboot?
         && !LoadAttempt(d).a.rebootRequested
      then Acted(d, l, TurnClaiming(LoadAttempt(d).a)) else Acted(d, l, Idle)
    case TurnClaiming(a) =>
      if !i.Io? then Acted(d, l, Idle)
      else
        var (e, ok) := SetRebootRequested(d, a, true, i.f);
        Acted(e, l, if ok then TurnAsking(a.(rebootRequested := true), l.life) else Idle)
    case TurnAsking(a, life) =>
      // Killed at the request, the system may have taken it: it counts.
      if !i.Answered? || i.accepted then Acted(d, l.(accepted := l.accepted + [life]), Idle)
      else Acted(d, l, TurnReleasing(a, life))
    case TurnReleasing(a, life) =>
      Acted(if i.Io? then SetRebootRequested(d, a, false, i.f).0 else d, l, Idle)
  }

  function Act(d: Disk, l: Ledger, pc: PC, i: Input): Acted {
    match pc
    case Idle => if i.Begin? then Acted(d, l, i.task) else Acted(d, l, Idle)
    case Loading(p, id) =>
      if i != Io(NoFault) then Acted(d, l, Idle)
      else (match LoadAttempt(d)
        case Unreadable => Acted(d, l, Idle)
        case Absent => Acted(d, l, Route(p, id, None))
        case Present(a) =>
          if a.phase.Verified? && !Owns(id, a) then Acted(d, l, Retiring(p, id, a))
          else Acted(d, l, Route(p, id, Some(a))))
    case Retiring(p, id, a) =>
      if !i.Io? then Acted(d, l, Idle)
      else var (e, ok) := ArchiveVerified(d, a, i.f); Acted(e, l, if ok then Route(p, id, None) else Idle)
    case Replacing(q, id, a) =>
      if !i.Io? then Acted(d, l, Idle)
      else var (e, ok) := ArchiveVerified(d, a, i.f); Acted(e, l, if ok then Fresh(q, id) else Idle)
    case Withdrawing(q, id, a) =>
      if !i.Io? then Acted(d, l, Idle)
      else
        var (e, ok) := RemoveForRetry(d, a, q, id.hostID, id.fingerprint, i.f);
        Acted(e, l, if ok then Fresh(q, id) else Idle)
    case Observing(q, id) =>
      if i.Seen? && i.seen.Some? && Suits(q, i.seen.value)
      then Acted(d, l, Reserving(q, id, i.seen.value)) else Acted(d, l, Idle)
    case Reserving(q, id, o) =>
      if !i.Io? then Acted(d, l, Idle)
      else
        var a := NewAttempt(q, id, o);
        var (e, ok) := ReserveAttempt(d, a, i.f);
        Acted(e, Born(d, e, l, a), if ok then Claiming(q, id, o, a) else Idle)
    case Claiming(q, id, o, a) =>
      if !i.Server? then Acted(d, l, Idle)
      else if i.granted then Acted(d, l, Latching(q, id, o, a))
      else Acted(d, l, Settling(q, id, o, a.(phase := Phase.Unknown)))
    case Latching(q, id, o, a) =>
      if !i.Io? then Acted(d, l, Idle)
      else
        var b := a.(phase := MayHaveRun);
        var (e, ok) := SaveAttempt(d, b, i.f);
        Acted(e, l, if !ok then Idle else if NeedsName(q, o) then Naming(q, id, o, b) else Dispatching(q, id, o, b))
    case Naming(q, id, o, a) =>
      if !i.Named? then Acted(d, l, Idle)
      else if i.after.Some? && EqualFold(i.after.value.pendingName, q.name)
      then Acted(d, l, Dispatching(q, id, i.after.value, a))
      else Acted(d, l, Settling(q, id, o, a.(phase := Phase.Unknown)))
    case Dispatching(q, id, o, a) =>
      // Killed at the call, the process may have made it: it counts.
      if !i.Native? then Acted(d, l.(natives := l.natives + 1), Idle)
      else
        var l' := l.(natives := l.natives + 1, nativeZero := l.nativeZero || i.code == Some(0));
        Acted(d, l', Settling(q, id, o,
          if i.code.None? then a.(phase := Phase.Unknown)
          else a.(phase := if i.code.value == 0 then AwaitingReboot else Failed, nativeStatus := i.code)))
    case Settling(q, id, o, a) =>
      if !i.Settled? then Acted(d, l, Idle)
      else
        var (e, ok) := SaveAttempt(d, a, i.g);
        Acted(e, l, if ok && (a.phase.AwaitingReboot? ==> i.configSaved) then Resume(q, id, a) else Idle)
    case Verifying(q, id, a) =>
      if i.Checked? && i.seen.Some? && (q.phase.PlanVerified? || i.pendingTold)
         && NewBoot(a.beforeBoot, i.seen.value.boot) && HealthyAs(i.seen.value, a.plan) && i.verifiedTold
      then Acted(d, l, Confirming(q, id, a.(phase := Phase.Verified), i.seen.value))
      else Acted(d, l, Idle)
    case Confirming(q, id, a, o) =>
      if !i.Io? then Acted(d, l, Idle)
      else
        var (e, ok) := SaveAttempt(d, a, i.f);
        Acted(e, if e.slot == d.slot then l else l.(evidence := Some(o)), Idle)
    case RotateLoading =>
      if i == Io(NoFault) && LoadAttempt(d).Present? && LoadAttempt(d).a.phase.Verified?
      then Acted(d, l, RotateArchiving(LoadAttempt(d).a)) else Acted(d, l, Idle)
    case RotateArchiving(a) =>
      Acted(if i.Io? then ArchiveVerified(d, a, i.f).0 else d, l, Idle)
    case _ => ActTurn(d, l, pc, i)
  }

  /* ----- the whole system ----- */

  datatype Sys = Sys(d: Disk, l: Ledger, procs: seq<PC>)
  datatype Move = Move(pid: nat, input: Input)

  /** The snapshot a process still holds. */
  function Snapshot(pc: PC): Option<Attempt> {
    match pc
    case Retiring(_, _, a) => Some(a)
    case Replacing(_, _, a) => Some(a)
    case Withdrawing(_, _, a) => Some(a)
    case Claiming(_, _, _, a) => Some(a)
    case Latching(_, _, _, a) => Some(a)
    case Naming(_, _, _, a) => Some(a)
    case Dispatching(_, _, _, a) => Some(a)
    case Settling(_, _, _, a) => Some(a)
    case Verifying(_, _, a) => Some(a)
    case Confirming(_, _, a, _) => Some(a)
    case RotateArchiving(a) => Some(a)
    case TurnClaiming(a) => Some(a)
    case TurnAsking(a, _) => Some(a)
    case TurnReleasing(a, _) => Some(a)
    case _ => None
  }

  predicate Starts(pc: PC) {
    pc.Loading? || pc.RotateLoading? || pc.TurnLoading?
  }

  /** The one assumption about the server: an attempt id is not reserved while another process still
      holds a snapshot that carries it. Never reissuing a retired id is enough for this, and so is
      running one process at a time. */
  ghost predicate NotReissued(s: Sys, pid: nat)
    requires pid < |s.procs|
  {
    s.procs[pid].Reserving? ==>
      forall j :: 0 <= j < |s.procs| && j != pid && Snapshot(s.procs[j]).Some? ==>
        Snapshot(s.procs[j]).value.plan.attemptID != s.procs[pid].q.attemptID
  }

  predicate Enabled(s: Sys, m: Move) {
    m.pid < |s.procs| && (m.input.Begin? ==> Starts(m.input.task))
  }

  function Next(s: Sys, m: Move): Sys
    requires Enabled(s, m)
  {
    var r := Act(s.d, s.l, s.procs[m.pid], m.input);
    Sys(r.d, r.l, s.procs[m.pid := r.pc])
  }

  ghost predicate Initial(s: Sys) {
    && s.d.slot.Empty? && s.l.natives == 0 && s.l.history == |s.d.archive| && s.l.accepted == []
    && forall j :: 0 <= j < |s.procs| ==> s.procs[j].Idle?
  }

  /** A run in which the server may hand out anything at any time. */
  ghost predicate IsAnyRun(run: seq<Sys>, moves: seq<Move>) {
    && |run| == |moves| + 1 && Initial(run[0])
    && forall i :: 0 <= i < |moves| ==> Enabled(run[i], moves[i]) && run[i + 1] == Next(run[i], moves[i])
  }

  ghost predicate IsRun(run: seq<Sys>, moves: seq<Move>) {
    IsAnyRun(run, moves) && forall i :: 0 <= i < |moves| ==> NotReissued(run[i], moves[i].pid)
  }

  /* ----- the invariant ----- */

  predicate SameBirth(m: Attempt, a: Attempt) {
    m.fingerprint == a.fingerprint && m.plan == a.plan && m.beforeBoot == a.beforeBoot
  }

  /** The slot holds the marker of the attempt this snapshot belongs to. */
  predicate HoldsFor(d: Disk, a: Attempt) {
    d.slot.Holding? && d.slot.marker.plan.attemptID == a.plan.attemptID
  }

  predicate Owner(pc: PC) {
    pc.Claiming? || pc.Latching? || pc.Naming? || pc.Dispatching? || pc.Settling?
  }

  predicate Claimant(pc: PC) {
    pc.TurnAsking? || pc.TurnReleasing?
  }

  predicate Ok0(a: Attempt) {
    a.nativeStatus == Some(0)
  }

  predicate OwnerOk(d: Disk, l: Ledger, pc: PC)
    requires Owner(pc)
  {
    && Owns(pc.id, pc.a) && pc.a.plan == pc.q
    && match pc
       case Claiming(_, _, _, a) => a.phase.Reserved? && (HoldsFor(d, a) ==> d.slot.marker == a)
       case Latching(_, _, _, a) => a.phase.Reserved? && (HoldsFor(d, a) ==> d.slot.marker == a)
       case Settling(_, _, _, a) =>
         (a.phase.Unknown? || a.phase.Failed? || a.phase.AwaitingReboot?) &&
         (a.phase.AwaitingReboot? ==> Ok0(a) && l.nativeZero && HoldsFor(d, a) && d.slot.marker.phase.MayHaveRun?)
       case _ => pc.a.phase.MayHaveRun? && d.slot == Holding(pc.a) && l.history + l.natives <= |d.archive|
  }

  predicate ClaimantOk(d: Disk, l: Ledger, pc: PC)
    requires Claimant(pc)
  {
    && pc.a.rebootRequested && pc.a.phase.AwaitingReboot? && Ok0(pc.a)
    && pc.life <= l.life && pc.life !in l.accepted
    && (pc.life == l.life && d.slot.Holding? ==> d.slot.marker.rebootRequested)
    && (HoldsFor(d, pc.a) ==> pc.life == l.life)
  }

  predicate ProcOk(d: Disk, l: Ledger, pc: PC) {
    && (Snapshot(pc).Some? ==>
          var a := Snapshot(pc).value; HoldsFor(d, a) ==> SameBirth(d.slot.marker, a))
    && (Owner(pc) ==> OwnerOk(d, l, pc))
    && (Claimant(pc) ==> ClaimantOk(d, l, pc))
    && (pc.Reserving? || pc.Observing? || pc.Replacing? || pc.Withdrawing? ==> pc.q.hostID == pc.id.hostID)
    && (pc.Verifying? ==> Owns(pc.id, pc.a) && pc.a.phase.AwaitingReboot? && Ok0(pc.a))
    && (pc.Confirming? ==> (
          && Owns(pc.id, pc.a) && pc.a.phase.Verified? && Ok0(pc.a)
          && NewBoot(pc.a.beforeBoot, pc.o.boot) && HealthyAs(pc.o, pc.a.plan)))
    && (pc.TurnClaiming? ==> pc.a.phase.AwaitingReboot? && Ok0(pc.a) && !pc.a.rebootRequested)
  }

  /** Two owners work on different attempts; two claimants claim different lives. */
  predicate Apart(p: PC, q: PC) {
    && (Owner(p) && Owner(q) ==> p.a.plan.attemptID != q.a.plan.attemptID)
    && (Claimant(p) && Claimant(q) ==> p.life != q.life)
  }

  /** A life that has left `reserved` may have had its one dispatch. */
  function Charge(s: Slot): nat {
    if s.Holding? && !s.marker.phase.Reserved? then 1 else 0
  }

  predicate VerifiedOk(l: Ledger, m: Attempt) {
    && l.evidence.Some?
    && NewBoot(m.beforeBoot, l.evidence.value.boot) && HealthyAs(l.evidence.value, m.plan)
  }

  predicate DiskOk(d: Disk, l: Ledger) {
    && l.history + l.natives <= |d.archive| + Charge(d.slot)
    && (d.slot.Holding? ==>
          var m := d.slot.marker;
          && l.birth.Some? && SameBirth(m, l.birth.value)
          && (m.phase.AwaitingReboot? || m.phase.Verified? ==> Ok0(m) && l.nativeZero)
          && (m.phase.Verified? ==> VerifiedOk(l, m))
          && (l.life in l.accepted ==> m.rebootRequested))
  }

  ghost predicate AcceptedOk(l: Ledger) {
    && (forall k :: 0 <= k < |l.accepted| ==> l.accepted[k] <= l.life)
    && (forall j, k :: 0 <= j < k < |l.accepted| ==> l.accepted[j] != l.accepted[k])
  }

  ghost predicate Inv(s: Sys) {
    && DiskOk(s.d, s.l) && AcceptedOk(s.l)
    && (forall j :: 0 <= j < |s.procs| ==> ProcOk(s.d, s.l, s.procs[j]))
    && (forall j, k :: 0 <= j < |s.procs| && 0 <= k < |s.procs| && j != k ==> Apart(s.procs[j], s.procs[k]))
  }

  /* ----- what one marker call leaves true of a process that did not make it ----- */

  /** The call changed nothing that a snapshot with another attempt id can see, and kept the
      birth of the marker in the slot. */
  lemma SaveAside(d: Disk, l: Ledger, a: Attempt, f: Fault, other: PC)
    requires ProcOk(d, l, other) && (HoldsFor(d, a) ==> SameBirth(d.slot.marker, a))
    requires a.phase.Verified? || (Owner(other) ==> other.a.plan.attemptID != a.plan.attemptID)
    ensures ProcOk(SaveAttempt(d, a, f).0, l, other)
  {
    hide EqualFold, HealthyAs, Validate;
  }

  lemma RequestAside(d: Disk, l: Ledger, a: Attempt, requested: bool, f: Fault, other: PC)
    requires ProcOk(d, l, other)
    requires !requested && Claimant(other) && HoldsFor(d, a) ==> other.life != l.life
    ensures ProcOk(SetRebootRequested(d, a, requested, f).0, l, other)
  {
  }

  lemma ArchiveAside(d: Disk, l: Ledger, a: Attempt, f: Fault, other: PC)
    requires ProcOk(d, l, other)
    ensures ProcOk(ArchiveVerified(d, a, f).0, l, other)
  {
  }

  lemma RemoveAside(d: Disk, l: Ledger, a: Attempt, p: Plan, id: Identity, f: Fault, other: PC)
    requires ProcOk(d, l, other)
    ensures ProcOk(RemoveForRetry(d, a, p, id.hostID, id.fingerprint, f).0, l, other)
  {
  }

  lemma ReserveAside(d: Disk, l: Ledger, a: Attempt, f: Fault, other: PC)
    requires ProcOk(d, l, other)
    requires Snapshot(other).Some? ==> Snapshot(other).value.plan.attemptID != a.plan.attemptID
    ensures var e := ReserveAttempt(d, a, f).0; ProcOk(e, Born(d, e, l, a), other)
  {
  }

  /** Ownership and claims are inherited, except at the two calls that win them. */
  lemma Pedigree(d: Disk, l: Ledger, pc: PC, i: Input)
    requires i.Begin? ==> Starts(i.task)
    ensures var q := Act(d, l, pc, i).pc;
      && (Owner(q) && !pc.Reserving? ==> Owner(pc) && q.a.plan == pc.a.plan)
      && (Owner(q) && pc.Reserving? ==> q.a.plan == pc.q)
      && (Claimant(q) && !pc.TurnClaiming? ==> Claimant(pc) && q.life == pc.life)
      && (Claimant(q) && pc.TurnClaiming? ==> q.life == l.life && RequestAllowed(d, pc.a, true))
  {
  }

  ghost predicate Pre(d: Disk, l: Ledger, pc: PC) {
    DiskOk(d, l) && AcceptedOk(l) && ProcOk(d, l, pc)
  }

  predicate Quiet(pc: PC) {
    pc.Idle? || pc.Loading? || pc.Observing? || pc.Claiming? || pc.Naming? || pc.Verifying? ||
    pc.RotateLoading? || pc.TurnLoading?
  }

  lemma QuietActs(d: Disk, l: Ledger, pc: PC, i: Input)
    requires Quiet(pc)
    ensures var r := Act(d, l, pc, i); r.d == d && r.l == l
  {
  }

  /** The calls that change a marker and leave it in the slot. */
  predicate Rewrites(pc: PC) {
    pc.Latching? || pc.Settling? || pc.Confirming? || pc.TurnClaiming? || pc.TurnReleasing?
  }

  /** The calls that empty the slot. */
  predicate Exits(pc: PC) {
    pc.Retiring? || pc.Replacing? || pc.RotateArchiving? || pc.Withdrawing?
  }

  ghost predicate OtherPre(d: Disk, l: Ledger, pc: PC, other: PC) {
    && ProcOk(d, l, pc) && ProcOk(d, l, other) && Apart(pc, other)
    && (pc.Reserving? && Snapshot(other).Some? ==> Snapshot(other).value.plan.attemptID != pc.q.attemptID)
  }

  lemma OtherOkRewrite(d: Disk, l: Ledger, pc: PC, i: Input, other: PC)
    requires OtherPre(d, l, pc, other) && Rewrites(pc)
    ensures var r := Act(d, l, pc, i); ProcOk(r.d, l, other)
  {
    hide Route, LoadAttempt, EqualFold, HealthyAs, Suits;
    match pc
    case Latching(_, _, _, a) => if i.Io? { SaveAside(d, l, a.(phase := MayHaveRun), i.f, other); }
    case Settling(_, _, _, a) => if i.Settled? { SaveAside(d, l, a, i.g, other); }
    case Confirming(_, _, a, o) => if i.Io? { SaveAside(d, l, a, i.f, other); }
    case TurnClaiming(a) => if i.Io? { RequestAside(d, l, a, true, i.f, other); }
    case TurnReleasing(a, _) => if i.Io? { RequestAside(d, l, a, false, i.f, other); }
  }

  lemma OtherOkExit(d: Disk, l: Ledger, pc: PC, i: Input, other: PC)
    requires ProcOk(d, l, other) && Exits(pc)
    ensures ProcOk(Act(d, l, pc, i).d, l, other)
  {
    hide ProcOk;
    match pc
    case Retiring(_, _, a) => if i.Io? { ArchiveAside(d, l, a, i.f, other); }
    case Replacing(_, _, a) => if i.Io? { ArchiveAside(d, l, a, i.f, other); }
    case RotateArchiving(a) => if i.Io? { ArchiveAside(d, l, a, i.f, other); }
    case Withdrawing(q, id, a) => if i.Io? { RemoveAside(d, l, a, q, id, i.f, other); }
  }

  lemma OtherOkReserve(d: Disk, l: Ledger, pc: PC, i: Input, other: PC)
    requires OtherPre(d, l, pc, other) && pc.Reserving?
    ensures var r := Act(d, l, pc, i); ProcOk(r.d, r.l, other)
  {
    if i.Io? {
      ReserveAside(d, l, NewAttempt(pc.q, pc.id, pc.o), i.f, other);
    }
  }

  lemma OtherOkNative(d: Disk, l: Ledger, pc: PC, i: Input, other: PC)
    requires ProcOk(d, l, pc) && ProcOk(d, l, other) && Apart(pc, other) && pc.Dispatching?
    ensures var r := Act(d, l, pc, i); ProcOk(r.d, r.l, other)
  {
    hide Route, LoadAttempt, HealthyAs, Suits, SaveAttempt, ReserveAttempt, ArchiveVerified, RemoveForRetry,
      SetRebootRequested;
  }

  lemma OtherOkAsking(d: Disk, l: Ledger, pc: PC, i: Input, other: PC)
    requires ProcOk(d, l, other) && Apart(pc, other) && pc.TurnAsking?
    ensures var r := Act(d, l, pc, i); ProcOk(r.d, r.l, other)
  {
    hide Route, LoadAttempt, HealthyAs, Suits, SaveAttempt, ReserveAttempt, ArchiveVerified, RemoveForRetry,
      SetRebootRequested;
  }

  lemma ActLedger(d: Disk, l: Ledger, pc: PC, i: Input)
    requires Rewrites(pc) || Exits(pc)
    ensures var l' := Act(d, l, pc, i).l; l' == l.(evidence := l'.evidence)
  {
  }

  /** The ledger entry that a confirmation writes is not one that a process depends on. */
  lemma EvidenceAside(d: Disk, l: Ledger, evidence: Option<Obs>, other: PC)
    requires ProcOk(d, l, other)
    ensures ProcOk(d, l.(evidence := evidence), other)
  {
  }

  lemma OtherOk(d: Disk, l: Ledger, pc: PC, i: Input, other: PC)
    requires OtherPre(d, l, pc, other)
    ensures var r := Act(d, l, pc, i); ProcOk(r.d, r.l, other)
  {
    hide Act;
    if Quiet(pc) {
      QuietActs(d, l, pc, i);
    } else if Rewrites(pc) {
      OtherOkRewrite(d, l, pc, i, other);
      ActLedger(d, l, pc, i);
      EvidenceAside(Act(d, l, pc, i).d, l, Act(d, l, pc, i).l.evidence, other);
    } else if Exits(pc) {
      OtherOkExit(d, l, pc, i, other);
      ActLedger(d, l, pc, i);
      EvidenceAside(Act(d, l, pc, i).d, l, Act(d, l, pc, i).l.evidence, other);
    } else if pc.Reserving? {
      OtherOkReserve(d, l, pc, i, other);
    } else if pc.Dispatching? {
      OtherOkNative(d, l, pc, i, other);
    } else {
      OtherOkAsking(d, l, pc, i, other);
    }
  }

  lemma OtherApart(d: Disk, l: Ledger, pc: PC, i: Input, other: PC)
    requires OtherPre(d, l, pc, other) && (i.Begin? ==> Starts(i.task))
    ensures Apart(Act(d, l, pc, i).pc, other)
  {
    Pedigree(d, l, pc, i);
  }

  lemma SelfOkLoading(d: Disk, l: Ledger, pc: PC, i: Input)
    requires Pre(d, l, pc) && pc.Loading?
    ensures var r := Act(d, l, pc, i); ProcOk(r.d, r.l, r.pc)
  {
  }

  lemma SelfOkTurn(d: Disk, l: Ledger, pc: PC, i: Input)
    requires Pre(d, l, pc) && (pc.RotateLoading? || pc.TurnLoading?)
    ensures var r := Act(d, l, pc, i); ProcOk(r.d, r.l, r.pc)
  {
  }

  lemma SelfOkQuiet(d: Disk, l: Ledger, pc: PC, i: Input)
    requires ProcOk(d, l, pc) && (i.Begin? ==> Starts(i.task)) && Quiet(pc)
    requires !pc.Loading? && !pc.RotateLoading? && !pc.TurnLoading?
    ensures var r := Act(d, l, pc, i); ProcOk(r.d, r.l, r.pc)
  {
    hide LoadAttempt, EqualFold, SaveAttempt, ReserveAttempt, ArchiveVerified, RemoveForRetry, SetRebootRequested;
  }

  lemma SelfOkSave(d: Disk, l: Ledger, pc: PC, i: Input)
    requires Pre(d, l, pc) && (pc.Latching? || pc.Settling? || pc.Confirming?)
    ensures var r := Act(d, l, pc, i); ProcOk(r.d, r.l, r.pc)
  {
    hide Route, EqualFold, Suits, SetRebootRequested, ReserveAttempt;
  }

  lemma SelfOkRequest(d: Disk, l: Ledger, pc: PC, i: Input)
    requires Pre(d, l, pc) && (pc.TurnClaiming? || pc.TurnReleasing?)
    ensures var r := Act(d, l, pc, i); ProcOk(r.d, r.l, r.pc)
  {
    hide Route, EqualFold, Suits, SaveAttempt, ReserveAttempt;
  }

  lemma SelfOkRewrite(d: Disk, l: Ledger, pc: PC, i: Input)
    requires Pre(d, l, pc) && Rewrites(pc)
    ensures var r := Act(d, l, pc, i); ProcOk(r.d, r.l, r.pc)
  {
    hide Act, ProcOk, Pre;
    if pc.TurnClaiming? || pc.TurnReleasing? {
      SelfOkRequest(d, l, pc, i);
    } else {
      SelfOkSave(d, l, pc, i);
    }
  }

  lemma SelfOkExit(d: Disk, l: Ledger, pc: PC, i: Input)
    requires ProcOk(d, l, pc) && Exits(pc)
    ensures var r := Act(d, l, pc, i); ProcOk(r.d, r.l, r.pc)
  {
  }

  lemma SelfOkRest(d: Disk, l: Ledger, pc: PC, i: Input)
    requires Pre(d, l, pc) && (pc.Reserving? || pc.Dispatching? || pc.TurnAsking?)
    ensures var r := Act(d, l, pc, i); ProcOk(r.d, r.l, r.pc)
  {
  }

  lemma DiskKeptRewrite(d: Disk, l: Ledger, pc: PC, i: Input)
    requires Pre(d, l, pc) && Rewrites(pc)
    ensures var r := Act(d, l, pc, i); DiskOk(r.d, r.l) && AcceptedOk(r.l)
  {
    hide Route, EqualFold, Suits, ReserveAttempt, ArchiveVerified, RemoveForRetry;
  }

  lemma DiskKeptExit(d: Disk, l: Ledger, pc: PC, i: Input)
    requires Pre(d, l, pc) && Exits(pc)
    ensures var r := Act(d, l, pc, i); DiskOk(r.d, r.l) && AcceptedOk(r.l)
  {
    hide Route, EqualFold, HealthyAs, Suits, SaveAttempt, ReserveAttempt, SetRebootRequested;
  }

  lemma DiskKeptRest(d: Disk, l: Ledger, pc: PC, i: Input)
    requires Pre(d, l, pc) && (pc.Reserving? || pc.Dispatching? || pc.TurnAsking?)
    ensures var r := Act(d, l, pc, i); DiskOk(r.d, r.l) && AcceptedOk(r.l)
  {
  }

  lemma ActorKept(d: Disk, l: Ledger, pc: PC, i: Input)
    requires Pre(d, l, pc) && (i.Begin? ==> Starts(i.task))
    ensures var r := Act(d, l, pc, i); DiskOk(r.d, r.l) && AcceptedOk(r.l) && ProcOk(r.d, r.l, r.pc)
  {
    if Quiet(pc) {
      QuietActs(d, l, pc, i);
      if pc.Loading? {
        SelfOkLoading(d, l, pc, i);
      } else if pc.RotateLoading? || pc.TurnLoading? {
        SelfOkTurn(d, l, pc, i);
      } else {
        SelfOkQuiet(d, l, pc, i);
      }
    } else if Rewrites(pc) {
      SelfOkRewrite(d, l, pc, i);
      DiskKeptRewrite(d, l, pc, i);
    } else if Exits(pc) {
      SelfOkExit(d, l, pc, i);
      DiskKeptExit(d, l, pc, i);
    } else {
      SelfOkRest(d, l, pc, i);
      DiskKeptRest(d, l, pc, i);
    }
  }

  /** Any action of any process, with any answer, keeps the invariant. */
  lemma StepKeepsInv(s: Sys, m: Move)
    requires Inv(s) && Enabled(s, m) && NotReissued(s, m.pid)
    ensures Inv(Next(s, m))
  {
    var pc, t := s.procs[m.pid], Next(s, m);
    ActorKept(s.d, s.l, pc, m.input);
    forall j | 0 <= j < |s.procs| && j != m.pid
      ensures ProcOk(t.d, t.l, t.procs[j]) && Apart(t.procs[m.pid], t.procs[j])
    {
      OtherOk(s.d, s.l, pc, m.input, s.procs[j]);
      OtherApart(s.d, s.l, pc, m.input, s.procs[j]);
    }
    forall j, k | 0 <= j < |t.procs| && 0 <= k < |t.procs| && j != k
      ensures Apart(t.procs[j], t.procs[k])
    {
      if j == m.pid || k == m.pid {
        var o := if j == m.pid then k else j;
        assert Apart(t.procs[m.pid], t.procs[o]);
      } else {
        assert Apart(s.procs[j], s.procs[k]);
      }
    }
  }

  lemma StartKeepsInv(s: Sys)
    requires Initial(s)
    ensures Inv(s)
  {
  }

  lemma {:induction false} RunKeepsInv(run: seq<Sys>, moves: seq<Move>, i: nat)
    requires IsRun(run, moves) && i < |run|
    ensures Inv(run[i])
  {
    hide Inv, Initial, Next, Enabled, NotReissued;
    if i == 0 {
      StartKeepsInv(run[0]);
    } else {
      RunKeepsInv(run, moves, i - 1);
      StepKeepsInv(run[i - 1], moves[i - 1]);
      assert run[i - 1 + 1] == Next(run[i - 1], moves[i - 1]);
    }
  }

  /* ----- the main results ----- */

  /** Over any run: at most one native dispatch, plus one for each marker archived since the start;
      and a process that stands at a native call has its own may_have_run marker on disk. */
  lemma DispatchBound(run: seq<Sys>, moves: seq<Move>, i: nat)
    requires IsRun(run, moves) && i < |run|
    ensures run[i].l.natives <= 1 + |run[i].d.archive| - |run[0].d.archive|
    ensures forall j :: 0 <= j < |run[i].procs| && (run[i].procs[j].Dispatching? || run[i].procs[j].Naming?) ==>
      var pc := run[i].procs[j];
      && run[i].d.slot == Holding(pc.a) && pc.a.phase.MayHaveRun? && pc.a.plan == pc.q
      && pc.a.fingerprint == pc.id.fingerprint && pc.q.hostID == pc.id.hostID
  {
    RunKeepsInv(run, moves, i);
    HistoryIsFixed(run, moves, i);
    forall j | 0 <= j < |run[i].procs| && (run[i].procs[j].Dispatching? || run[i].procs[j].Naming?)
      ensures var pc := run[i].procs[j];
        && run[i].d.slot == Holding(pc.a) && pc.a.phase.MayHaveRun? && pc.a.plan == pc.q
        && pc.a.fingerprint == pc.id.fingerprint && pc.q.hostID == pc.id.hostID
    {
      assert ProcOk(run[i].d, run[i].l, run[i].procs[j]);
    }
  }

  lemma {:induction false} HistoryIsFixed(run: seq<Sys>, moves: seq<Move>, i: nat)
    requires IsRun(run, moves) && i < |run|
    ensures run[i].l.history == |run[0].d.archive|
  {
    if i > 0 {
      HistoryIsFixed(run, moves, i - 1);
      assert run[i - 1 + 1] == Next(run[i - 1], moves[i - 1]);
    }
  }

  /** Once the slot is garbage, the disk never changes again and nothing more is dispatched. */
  lemma {:induction false} GarbageIsFinal(run: seq<Sys>, moves: seq<Move>, i: nat, j: nat)
    requires IsRun(run, moves) && i <= j < |run| && run[i].d.slot.Garbage?
    ensures run[j].d == run[i].d && run[j].l.natives == run[i].l.natives
    decreases j - i
  {
    if i < j {
      GarbageIsFinal(run, moves, i, j - 1);
      RunKeepsInv(run, moves, j - 1);
      GarbageStep(run[j - 1], moves[j - 1]);
      assert run[j - 1 + 1] == Next(run[j - 1], moves[j - 1]);
    }
  }

  lemma GarbageStep(s: Sys, m: Move)
    requires Inv(s) && Enabled(s, m) && s.d.slot.Garbage?
    ensures Next(s, m).d == s.d && Next(s, m).l.natives == s.l.natives
  {
    assert ProcOk(s.d, s.l, s.procs[m.pid]);
  }

  /** Over any run the operating system accepts at most one rejoin restart in each life of the marker;
      two coordinators never stand at the same request; and while the life in the slot has had its
      restart accepted, the latch is set. */
  lemma RebootOnce(run: seq<Sys>, moves: seq<Move>, i: nat)
    requires IsRun(run, moves) && i < |run|
    ensures var s := run[i];
      && (forall j, k :: 0 <= j < k < |s.l.accepted| ==> s.l.accepted[j] != s.l.accepted[k])
      && (forall j, k :: 0 <= j < k < |s.procs| && s.procs[j].TurnAsking? && s.procs[k].TurnAsking? ==>
            s.procs[j].life != s.procs[k].life)
      && (s.d.slot.Holding? && s.l.life in s.l.accepted ==> s.d.slot.marker.rebootRequested)
  {
    RunKeepsInv(run, moves, i);
    var s := run[i];
    forall j, k | 0 <= j < k < |s.procs| && s.procs[j].TurnAsking? && s.procs[k].TurnAsking?
      ensures s.procs[j].life != s.procs[k].life
    {
      assert Apart(s.procs[j], s.procs[k]);
    }
  }

  /** Nothing clears the latch of a marker that stays in the slot but the release that follows a known
      refusal, and that life has had no restart accepted. A killed process clears nothing. */
  lemma LatchClearedByRefusalOnly(s: Sys, m: Move)
    requires Inv(s) && Enabled(s, m)
    requires s.d.slot.Holding? && s.d.slot.marker.rebootRequested
    requires Next(s, m).d.slot.Holding? && !Next(s, m).d.slot.marker.rebootRequested
    ensures s.procs[m.pid].TurnReleasing? && s.procs[m.pid].life == s.l.life && s.l.life !in s.l.accepted
  {
    assert ProcOk(s.d, s.l, s.procs[m.pid]);
  }

  /** The release is entered from a refused request alone. */
  lemma ReleaseFollowsRefusal(s: Sys, m: Move)
    requires Enabled(s, m) && Next(s, m).procs[m.pid].TurnReleasing?
    ensures s.procs[m.pid].TurnAsking? && m.input == Answered(false)
    ensures Next(s, m).procs[m.pid].life == s.procs[m.pid].life
  {
  }

  /** Over any run, a verified marker in the slot stands in a life whose native call returned 0, and on
      a healthy observation whose boot is new against the one recorded when the life was reserved. */
  lemma VerifiedProvenance(run: seq<Sys>, moves: seq<Move>, i: nat)
    requires IsRun(run, moves) && i < |run|
    requires run[i].d.slot.Holding? && run[i].d.slot.marker.phase.Verified?
    ensures var l, m := run[i].l, run[i].d.slot.marker;
      && l.nativeZero && m.nativeStatus == Some(0)
      && l.birth.Some? && m.plan == l.birth.value.plan && m.fingerprint == l.birth.value.fingerprint
      && l.evidence.Some? && NewBoot(l.birth.value.beforeBoot, l.evidence.value.boot)
      && HealthyAs(l.evidence.value, m.plan)
  {
    RunKeepsInv(run, moves, i);
  }

  /** The step that verifies is taken by a process with the marker's own key and host id, on the
      observation it made itself. */
  lemma VerifiedByOwner(s: Sys, m: Move)
    requires Inv(s) && Enabled(s, m) && NotReissued(s, m.pid)
    requires s.d.slot != Next(s, m).d.slot
    requires Next(s, m).d.slot.Holding? && Next(s, m).d.slot.marker.phase.Verified?
    ensures var pc, t := s.procs[m.pid], Next(s, m);
      && pc.Confirming? && Owns(pc.id, t.d.slot.marker) && t.l.evidence == Some(pc.o)
      && t.d.slot.marker.fingerprint == pc.id.fingerprint && t.d.slot.marker.plan.hostID == pc.id.hostID
      && s.d.slot.Holding? && s.d.slot.marker.phase.AwaitingReboot? && s.l.nativeZero
      && NewBoot(s.d.slot.marker.beforeBoot, pc.o.boot) && HealthyAs(pc.o, t.d.slot.marker.plan)
  {
    assert ProcOk(s.d, s.l, s.procs[m.pid]);
  }

  /** What the observation behind a confirmation was: the answer to that process's own look. */
  lemma ConfirmingObserved(s: Sys, m: Move)
    requires Enabled(s, m) && Next(s, m).procs[m.pid].Confirming?
    ensures s.procs[m.pid].Verifying? && m.input.Checked? && m.input.verifiedTold
    ensures m.input.seen == Some(Next(s, m).procs[m.pid].o)
  {
  }
}

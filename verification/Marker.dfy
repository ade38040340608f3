/** The durable directory marker: one slot on disk that latches an irreversible domain operation,
    the archive it retires into, and the five calls that may change either of them.
    Every call runs under one file lock, so it is atomic here; `Fault` says how it may go wrong. */
module Marker {
  import opened Wrappers

  datatype Operation = Join | Rebind | Rename | NoOperation
  datatype PlanPhase = Ready | Blocked | PlanVerified | OtherPlanPhase
  datatype Phase = Reserved | MayHaveRun | AwaitingReboot | Verified | Failed | Unknown

  datatype Boot = Boot(marker: string, started: string)

  /** The server's plan. `rows` is the outcome of the checks in Validate that read nothing but the
      plan's own text; `pinned` says that the target is a valid object for the expected name. */
  datatype Plan = Plan(
    version: int, operation: Operation, expectedCurrent: string, expectedPending: string,
    retryAuthorized: bool, attemptID: string, hostID: int, configRevision: string, phase: PlanPhase,
    name: string, domain: string, dc: string, rows: bool, pinned: bool)

  predicate Validate(p: Plan, hostID: int) {
    p.version == 2 && p.hostID == hostID && hostID >= 1 && p.operation != NoOperation && p.rows
  }

  datatype Attempt = Attempt(
    version: int, fingerprint: string, plan: Plan, phase: Phase, beforeBoot: Boot,
    nativeStatus: Option<nat>, rebootRequested: bool)

  /** What is at the marker's path: nothing, bytes that no reader accepts, or a marker. */
  datatype Slot = Empty | Garbage | Holding(marker: Attempt)

  datatype Disk = Disk(slot: Slot, archive: set<Attempt>)

  /** `Before`: the call failed and nothing durable changed. `Torn`: it stopped part-way through a
      write. `After`: the change is durable, yet the caller saw an error. A crash inside the call
      leaves the disk as one of these three does. */
  datatype Fault = NoFault | Before | Torn | After

  datatype Loaded = Unreadable | Absent | Present(a: Attempt)

  function LoadAttempt(d: Disk): Loaded {
    match d.slot
    case Empty => Absent
    case Garbage => Unreadable
    case Holding(a) =>
      if a.version != 2 || a.plan.version != 2 || |a.fingerprint| != 64 || !Validate(a.plan, a.plan.hostID)
      then Unreadable else Present(a)
  }

  predicate PhaseUpdate(from: Phase, to: Phase) {
    from == to ||
    match from
    case Reserved => to.MayHaveRun? || to.Unknown?
    case MayHaveRun => to.AwaitingReboot? || to.Failed? || to.Unknown?
    case AwaitingReboot => to.Verified? || to.Unknown?
    case _ => false
  }

  predicate NewBoot(before: Boot, after: Boot) {
    before.marker != "" && before.started != "" && after.marker != "" && after.started != "" &&
    before.marker != after.marker && before.started != after.started
  }

  /** An unexecuted reservation of this identity that the server allows to be replaced. */
  predicate ValidateReservedRetry(a: Attempt, p: Plan, hostID: int, fingerprint: string) {
    a.version == 2 && a.plan.version == 2 && a.phase.Reserved? && a.plan.phase.Ready? &&
    a.nativeStatus.None? && !a.rebootRequested && a.plan.hostID == hostID &&
    a.fingerprint == fingerprint && |fingerprint| == 64 && Validate(a.plan, hostID) &&
    p.version == 2 && p.phase.Ready? && Validate(p, hostID) && p.retryAuthorized &&
    a.plan.attemptID != p.attemptID && a.plan.configRevision != p.configRevision
  }

  /* ----- the calls, as functions of the disk ----- */

  /** Creates the marker in place and exclusively, so a write cut short leaves garbage behind. */
  function ReserveAttempt(d: Disk, a: Attempt, f: Fault): (Disk, bool) {
    if !d.slot.Empty? || f.Before? then (d, false)
    else if f.Torn? then (d.(slot := Garbage), false)
    else (d.(slot := Holding(a)), f.NoFault?)
  }

  /** Writes beside the marker and renames over it: a crash leaves the old marker or the new one. */
  function Replace(d: Disk, a: Attempt, f: Fault): (Disk, bool) {
    if f.Before? || f.Torn? then (d, false) else (d.(slot := Holding(a)), f.NoFault?)
  }

  predicate SaveAllowed(d: Disk, a: Attempt) {
    var loaded := LoadAttempt(d);
    && loaded.Present?
    && loaded.a.fingerprint == a.fingerprint && loaded.a.plan == a.plan
    && PhaseUpdate(loaded.a.phase, a.phase)
    && loaded.a.rebootRequested == a.rebootRequested
    && (loaded.a.phase == a.phase ==> loaded.a == a)
  }

  function SaveAttempt(d: Disk, a: Attempt, f: Fault): (Disk, bool) {
    if SaveAllowed(d, a) then Replace(d, a, f) else (d, false)
  }

  predicate RequestAllowed(d: Disk, expected: Attempt, requested: bool) {
    LoadAttempt(d) == Present(expected) && expected.phase.AwaitingReboot? && expected.rebootRequested != requested
  }

  function SetRebootRequested(d: Disk, expected: Attempt, requested: bool, f: Fault): (Disk, bool) {
    if RequestAllowed(d, expected, requested)
    then Replace(d, expected.(rebootRequested := requested), f) else (d, false)
  }

  predicate ArchiveAllowed(d: Disk, expected: Attempt) {
    LoadAttempt(d) == Present(expected) && expected.phase.Verified? && expected !in d.archive
  }

  function ArchiveVerified(d: Disk, expected: Attempt, f: Fault): (Disk, bool) {
    if !ArchiveAllowed(d, expected) || f.Before? || f.Torn? then (d, false)
    else (Disk(Empty, d.archive + {expected}), f.NoFault?)
  }

  predicate RemoveAllowed(d: Disk, expected: Attempt, p: Plan, hostID: int, fingerprint: string) {
    LoadAttempt(d) == Present(expected) && ValidateReservedRetry(expected, p, hostID, fingerprint)
  }

  function RemoveForRetry(d: Disk, expected: Attempt, p: Plan, hostID: int, fingerprint: string, f: Fault)
    : (Disk, bool)
  {
    if !RemoveAllowed(d, expected, p, hostID, fingerprint) || f.Before? || f.Torn? then (d, false)
    else (d.(slot := Empty), f.NoFault?)
  }

  /* ----- the store that performs them ----- */

  class AttemptStore {
    var slot: Slot
    var archive: set<Attempt>

    constructor ()
      ensures Now() == Disk(Empty, {})
    {
      slot, archive := Empty, {};
    }

    function Now(): Disk
      reads this
    {
      Disk(slot, archive)
    }

    /** What other processes do to the marker in the meantime. */
    method Meanwhile(calls: seq<Call>)
      modifies this
      ensures Now() == ApplyAll(old(Now()), calls)
    {
      var d := ApplyAll(Now(), calls);
      slot, archive := d.slot, d.archive;
    }

    method Load(f: Fault) returns (r: Loaded)
      ensures r == if f.NoFault? then LoadAttempt(Now()) else Unreadable
    {
      if f != NoFault {
        return Unreadable;
      }
      match slot
      case Empty => r := Absent;
      case Garbage => r := Unreadable;
      case Holding(a) =>
        r := Present(a);
        if a.version != 2 || a.plan.version != 2 || |a.fingerprint| != 64 || !Validate(a.plan, a.plan.hostID) {
          r := Unreadable;
        }
    }

    method Reserve(a: Attempt, f: Fault) returns (ok: bool)
      modifies this
      ensures (Now(), ok) == ReserveAttempt(old(Now()), a, f)
    {
      // O_EXCL refuses an occupied path before a byte is written.
      if slot != Empty || f == Before {
        return false;
      }
      slot := Garbage;
      if f == Torn {
        return false;
      }
      slot := Holding(a);
      ok := f == NoFault;
    }

    method ReplaceMarker(a: Attempt, f: Fault) returns (ok: bool)
      modifies this`slot
      ensures (Now(), ok) == Replace(old(Now()), a, f)
    {
      if f == Before || f == Torn {
        return false;
      }
      slot := Holding(a);
      ok := f == NoFault;
    }

    method Save(a: Attempt, f: Fault) returns (ok: bool)
      modifies this`slot
      ensures (Now(), ok) == SaveAttempt(old(Now()), a, f)
    {
      var current := Load(NoFault);
      if !current.Present? || current.a.fingerprint != a.fingerprint || current.a.plan != a.plan {
        return false;
      }
      if !PhaseUpdate(current.a.phase, a.phase) {
        return false;
      }
      if current.a.rebootRequested != a.rebootRequested {
        return false;
      }
      if current.a.phase == a.phase && current.a != a {
        return false;
      }
      ok := ReplaceMarker(a, f);
    }

    method SetRequested(expected: Attempt, requested: bool, f: Fault) returns (ok: bool)
      modifies this`slot
      ensures (Now(), ok) == SetRebootRequested(old(Now()), expected, requested, f)
    {
      var current := Load(NoFault);
      if current != Present(expected) {
        return false;
      }
      if current.a.phase != AwaitingReboot || current.a.rebootRequested == requested {
        return false;
      }
      ok := ReplaceMarker(current.a.(rebootRequested := requested), f);
    }

    method Archive(expected: Attempt, f: Fault) returns (ok: bool)
      modifies this
      ensures (Now(), ok) == ArchiveVerified(old(Now()), expected, f)
    {
      var current := Load(NoFault);
      if current != Present(expected) || current.a.phase != Verified {
        return false;
      }
      // The archive is named by the marker's digest and is never overwritten.
      if current.a in archive || f == Before || f == Torn {
        return false;
      }
      slot, archive := Empty, archive + {current.a};
      ok := f == NoFault;
    }

    method Remove(expected: Attempt, p: Plan, hostID: int, fingerprint: string, f: Fault) returns (ok: bool)
      modifies this`slot
      ensures (Now(), ok) == RemoveForRetry(old(Now()), expected, p, hostID, fingerprint, f)
    {
      var current := Load(NoFault);
      if current != Present(expected) {
        return false;
      }
      if !ValidateReservedRetry(current.a, p, hostID, fingerprint) || f == Before || f == Torn {
        return false;
      }
      slot := Empty;
      ok := f == NoFault;
    }
  }

  /* ----- lives of the marker, over any interleaving of calls with any arguments ----- */

  datatype Call =
    | Reserve(a: Attempt, f: Fault)
    | Save(a: Attempt, f: Fault)
    | Request(a: Attempt, requested: bool, f: Fault)
    | Archive(a: Attempt, f: Fault)
    | Remove(a: Attempt, p: Plan, hostID: int, fingerprint: string, f: Fault)

  function Apply(d: Disk, c: Call): Disk {
    match c
    case Reserve(a, f) => ReserveAttempt(d, a, f).0
    case Save(a, f) => SaveAttempt(d, a, f).0
    case Request(a, requested, f) => SetRebootRequested(d, a, requested, f).0
    case Archive(a, f) => ArchiveVerified(d, a, f).0
    case Remove(a, p, hostID, fingerprint, f) => RemoveForRetry(d, a, p, hostID, fingerprint, f).0
  }

  function ApplyAll(d: Disk, calls: seq<Call>): Disk {
    if calls == [] then d else Apply(ApplyAll(d, calls[..|calls| - 1]), calls[|calls| - 1])
  }

  ghost predicate IsHistory(ds: seq<Disk>, calls: seq<Call>) {
    |ds| == |calls| + 1 && forall i :: 0 <= i < |calls| ==> ds[i + 1] == Apply(ds[i], calls[i])
  }

  /** The slot holds a marker at every point of ds[i..j + 1]. */
  ghost predicate Alive(ds: seq<Disk>, i: nat, j: nat)
    requires i <= j < |ds|
  {
    forall k :: i <= k <= j ==> ds[k].slot.Holding?
  }

  /** The phases a marker in phase `from` can still arrive at. */
  predicate Reaches(from: Phase, to: Phase) {
    from == to || from.Reserved? ||
    (from.MayHaveRun? && !to.Reserved?) ||
    (from.AwaitingReboot? && (to.Verified? || to.Unknown?))
  }

  function Rank(p: Phase): nat {
    match p
    case Reserved => 0
    case MayHaveRun => 1
    case AwaitingReboot => 2
    case _ => 3
  }

  ghost predicate Descends(first: Attempt, later: Attempt) {
    && later.fingerprint == first.fingerprint && later.plan == first.plan
    && Reaches(first.phase, later.phase)
    && (first.phase != later.phase ==> Rank(first.phase) < Rank(later.phase))
  }

  /** A life keeps its fingerprint and its plan and only moves forward along the phase edges. */
  lemma {:induction false} LifeKeepsBinding(ds: seq<Disk>, calls: seq<Call>, i: nat, j: nat)
    requires IsHistory(ds, calls) && i <= j < |ds| && Alive(ds, i, j)
    ensures Descends(ds[i].slot.marker, ds[j].slot.marker)
    decreases j - i
  {
    if i < j {
      LifeKeepsBinding(ds, calls, i, j - 1);
      assert ds[j - 1 + 1] == Apply(ds[j - 1], calls[j - 1]);
    }
  }

  /** One call on a living marker: what may differ afterwards. With a phase the call may also rewrite the
      recorded boot and native status; without one it changes the reboot flag or nothing. */
  lemma LivingStep(d: Disk, c: Call)
    requires d.slot.Holding? && Apply(d, c).slot.Holding?
    ensures var m, n := d.slot.marker, Apply(d, c).slot.marker;
      && n.fingerprint == m.fingerprint && n.plan == m.plan && PhaseUpdate(m.phase, n.phase)
      && (m.rebootRequested != n.rebootRequested ==>
            m.phase.AwaitingReboot? && n == m.(rebootRequested := !m.rebootRequested))
      && (m.phase != n.phase ==> n.rebootRequested == m.rebootRequested)
      && (m.phase == n.phase ==> n == m || (m.phase.AwaitingReboot? && n == m.(rebootRequested := !m.rebootRequested)))
  {
  }

  /** A life ends only as the removal of a permitted reservation, or as a move into the archive of
      exactly the verified marker that was in the slot. */
  lemma LifeEnds(d: Disk, c: Call)
    requires d.slot.Holding? && !Apply(d, c).slot.Holding?
    ensures var m, e := d.slot.marker, Apply(d, c);
      && e.slot.Empty?
      && ((c.Remove? && c.a == m && ValidateReservedRetry(m, c.p, c.hostID, c.fingerprint) && e.archive == d.archive)
          || (c.Archive? && m.phase.Verified? && m !in d.archive && e.archive == d.archive + {m}))
  {
  }

  /** A removal takes a readable marker that is still an unexecuted, unclaimed reservation of this identity, and
      only for a ready plan of this host that was authorized as a retry and is another attempt of another
      revision. Such a marker it takes, unless the call itself fails before the removal. */
  lemma RemovesExactly(d: Disk, c: Call)
    requires d.slot.Holding? && c.Remove?
    ensures Apply(d, c) != d <==>
      var m, p := d.slot.marker, c.p;
      && !c.f.Before? && !c.f.Torn? && c.a == m
      && m.version == 2 && m.phase.Reserved? && m.nativeStatus.None? && !m.rebootRequested
      && m.fingerprint == c.fingerprint && |c.fingerprint| == 64
      && m.plan.version == 2 && m.plan.phase.Ready? && m.plan.hostID == c.hostID && c.hostID >= 1
      && m.plan.rows && !m.plan.operation.NoOperation?
      && p.version == 2 && p.phase.Ready? && p.hostID == c.hostID && p.rows && !p.operation.NoOperation?
      && p.retryAuthorized && p.attemptID != m.plan.attemptID && p.configRevision != m.plan.configRevision
  {
  }

  /** The ways a marker may go. */
  const EDGES := {
    (Phase.Reserved, Phase.MayHaveRun), (Phase.Reserved, Phase.Unknown),
    (Phase.MayHaveRun, Phase.AwaitingReboot), (Phase.MayHaveRun, Phase.Failed), (Phase.MayHaveRun, Phase.Unknown),
    (Phase.AwaitingReboot, Phase.Verified), (Phase.AwaitingReboot, Phase.Unknown)}

  /** A save changes a readable marker exactly along one of them, with the binding and the reboot flag as they
      are on disk, unless the call itself fails before the rename. */
  lemma SavesExactly(d: Disk, c: Call)
    requires d.slot.Holding? && c.Save?
    ensures Apply(d, c) != d <==>
      var m := d.slot.marker;
      && !c.f.Before? && !c.f.Torn? && LoadAttempt(d) == Present(m) && (m.phase, c.a.phase) in EDGES
      && c.a.fingerprint == m.fingerprint && c.a.plan == m.plan && c.a.rebootRequested == m.rebootRequested
    ensures Apply(d, c) != d ==> Apply(d, c) == d.(slot := Holding(c.a))
  {
  }

  /** A call reports success exactly if what it asked for was allowed and is durable without a fault. */
  lemma SucceedsExactly(d: Disk, a: Attempt, f: Fault, requested: bool, p: Plan, hostID: int, fingerprint: string)
    ensures ReserveAttempt(d, a, f) == (d.(slot := Holding(a)), true) <==> d.slot.Empty? && f.NoFault?
    ensures SetRebootRequested(d, a, requested, f).1 <==>
      f.NoFault? && LoadAttempt(d) == Present(a) && a.phase.AwaitingReboot? && a.rebootRequested != requested
    ensures SetRebootRequested(d, a, requested, f).1 ==>
      SetRebootRequested(d, a, requested, f).0 == d.(slot := Holding(a.(rebootRequested := requested)))
    ensures ArchiveVerified(d, a, f).1 <==>
      f.NoFault? && LoadAttempt(d) == Present(a) && a.phase.Verified? && a !in d.archive
    ensures ArchiveVerified(d, a, f).1 ==> ArchiveVerified(d, a, f).0 == Disk(Empty, d.archive + {a})
    ensures RemoveForRetry(d, a, p, hostID, fingerprint, f).1 <==>
      f.NoFault? && RemoveForRetry(d, a, p, hostID, fingerprint, f).0 == d.(slot := Empty) != d
    ensures SaveAttempt(d, a, f).1 ==> f.NoFault? && SaveAttempt(d, a, f).0 == d.(slot := Holding(a))
  {
  }

  /** Which markers a reader accepts. */
  lemma ReadsExactly(a: Attempt, archive: set<Attempt>)
    ensures LoadAttempt(Disk(Holding(a), archive)) == Present(a) <==>
      && a.version == 2 && a.plan.version == 2 && |a.fingerprint| == 64
      && a.plan.hostID >= 1 && !a.plan.operation.NoOperation? && a.plan.rows
    ensures LoadAttempt(Disk(Holding(a), archive)) in {Present(a), Unreadable}
  {
  }

  /** Every living marker goes back, within its own life, to a reservation made in an empty slot. */
  lemma {:induction false} LifeHasBirth(ds: seq<Disk>, calls: seq<Call>, j: nat) returns (i: nat)
    requires IsHistory(ds, calls) && j < |ds| && ds[0].slot.Empty? && ds[j].slot.Holding?
    ensures 0 < i <= j && Alive(ds, i, j)
    ensures ds[i - 1].slot.Empty? && calls[i - 1].Reserve? && ds[i].slot.marker == calls[i - 1].a
    ensures Descends(calls[i - 1].a, ds[j].slot.marker)
  {
    assert ds[j - 1 + 1] == Apply(ds[j - 1], calls[j - 1]);
    if ds[j - 1].slot.Holding? {
      i := LifeHasBirth(ds, calls, j - 1);
    } else {
      i := j;
    }
    LifeKeepsBinding(ds, calls, i, j);
  }

  /** Garbage is for ever: no call reads it, replaces it, or removes it. */
  lemma {:induction false} GarbageStays(ds: seq<Disk>, calls: seq<Call>, i: nat, j: nat)
    requires IsHistory(ds, calls) && i <= j < |ds| && ds[i].slot.Garbage?
    ensures ds[j] == ds[i]
    decreases j - i
  {
    if i < j {
      GarbageStays(ds, calls, i, j - 1);
      assert ds[j - 1 + 1] == Apply(ds[j - 1], calls[j - 1]);
    }
  }

  /** The archive only grows, and only by verified markers. */
  lemma {:induction false} ArchiveGrows(ds: seq<Disk>, calls: seq<Call>, i: nat, j: nat)
    requires IsHistory(ds, calls) && i <= j < |ds|
    ensures ds[i].archive <= ds[j].archive
    ensures forall a :: a in ds[j].archive - ds[i].archive ==> a.phase.Verified?
    decreases j - i
  {
    if i < j {
      ArchiveGrows(ds, calls, i, j - 1);
      assert ds[j - 1 + 1] == Apply(ds[j - 1], calls[j - 1]);
    }
  }
}

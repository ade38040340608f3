/** The self-update: from the version the server names to a replaced binary. */
module Update {
  import opened Wrappers
  import opened Release
  import opened Files
  import opened Rollback

  /** What the server asks for. `pair` is a manifest and its envelope, when both decoded within bounds;
      `artifact` is the id of the server's copy of the file. */
  datatype Desired = Desired(version: string, manifestURL: string, pair: Option<(Bytes, Bytes)>, artifact: int)

  /** Where a download comes from: an address, or the server's own copy of a file. */
  datatype Source = Web(url: string) | ServerCopy(id: int)

  datatype Verdict = Trusted(m: Manifest) | Expired | BadSignature

  /** One build of the agent as it runs: its version and platform, its settings, and the judgements this
      model leaves open, which are the order of versions and what its signing roots trust at a time. */
  datatype Build = Build(
    current: string, goos: string, goarch: string, rootCount: nat, defaultURL: string,
    minDowngrade: string, hasPayload: bool, probation: int,
    valid: string -> bool, compare: (string, string) -> int, verify: (Bytes, Bytes, int) -> Verdict)

  datatype Detail =
    | BadVersion | NoSigningRoot | BelowFloor | Signature | Stale | NoArtifact | Hash | CannotArm | Fetch | SwapFailed

  /** `Refused` is a copy that another copy could replace; `Stuck` is this machine's own state. */
  datatype Judged = Accepted(m: Manifest, a: Artifact) | Refused(why: Detail) | Stuck(why: Detail)

  datatype Raising = Raised | TooOld | NotSaved

  datatype Staging = Staged(n: nat) | Failed(hash: bool)

  datatype Obtained = Got(m: Manifest, a: Artifact, n: nat) | NotGot(why: Detail)

  datatype Status = Unchanged | FailedWith(why: Detail) | Applied

  /** What can be wrong with finding, fetching and arming an update. */
  const FETCHING := {Signature, Stale, NoArtifact, Hash, CannotArm, Fetch}

  const MAX_MANIFEST := 1048576

  predicate Sorted(s: seq<int64>) {
    forall i, j :: 0 <= i < j < |s| ==> s[i] <= s[j]
  }

  /** The floor on this disk can be read, and is at or above n. */
  predicate Covers(d: Disk, n: int64) {
    FloorIn(d).Some? && FloorIn(d).value >= n
  }

  /** Accepted sequences never went down, and every disk from `start` on has a floor at or above those
      accepted before it: sequence k was accepted when there were marks[k] states. */
  ghost predicate Remembers(seen: seq<Disk>, start: nat, accepted: seq<int64>, marks: seq<nat>)
    requires |marks| == |accepted|
  {
    && Sorted(accepted)
    && forall i, k :: start <= i < |seen| && 0 <= k < |marks| && marks[k] <= i + 1 ==> Covers(seen[i], accepted[k])
  }

  ghost predicate Marked(marks: seq<nat>, accepted: seq<int64>, n: nat) {
    && |marks| == |accepted| && (forall k :: 0 <= k < |marks| ==> marks[k] <= n)
    && (forall j, k :: 0 <= j < k < |marks| ==> marks[j] <= marks[k])
  }

  /** From disk d on, a floor that could be read is never lowered: not in any state from the n-th, nor now. */
  ghost predicate Rises(s: seq<Disk>, n: nat, d: Disk, e: Disk) {
    FloorIn(d).Some? ==> Covers(e, FloorIn(d).value) && forall i :: n <= i < |s| ==> Covers(s[i], FloorIn(d).value)
  }

  /** What a reader that cannot read the floor takes it to be. */
  function FloorOrZero(d: Disk): int64 {
    if FloorIn(d).Some? then FloorIn(d).value else 0
  }

  /** What can happen to a host. A kill leaves the disk as it was so many states back. */
  datatype Event =
    | Updated(b: Build, d: Desired, now: int, busy: bool) | Killed(back: nat) | Rewritten(config: Content) | Reverted

  /** One host over any number of processes. */
  class Updater {
    const fs: FileSystem
    const digest: Bytes -> string
    /** What the k-th download answers, from whatever source it is asked, and how much the disk takes of it. */
    const answers: (nat, Source) -> Option<Stream>
    const rooms: nat -> nat
    var calls: nat
    /** Every sequence accepted so far, over all processes, and when; the state this process began with; and
        whether a manifest was ever accepted while the floor could not be read. */
    ghost var accepted: seq<int64>
    ghost var marks: seq<nat>
    ghost var start: nat
    ghost var blind: bool

    /** Accepted sequences never decrease, and the floor on disk is the reason. */
    ghost predicate Valid()
      reads this, fs
    {
      && fs.Valid() && start < |fs.seen| && Marked(marks, accepted, |fs.seen|)
      && (blind || Remembers(fs.seen, start, accepted, marks))
    }

    constructor (fs: FileSystem, digest: Bytes -> string, answers: (nat, Source) -> Option<Stream>,
                rooms: nat -> nat)
      requires fs.Valid()
      ensures Valid() && this.fs == fs && this.digest == digest && accepted == [] && !blind
    {
      this.fs, this.digest, this.answers, this.rooms := fs, digest, answers, rooms;
      calls, accepted, marks, start, blind := 0, [], [], |fs.seen| - 1, false;
    }

    /** The process ends, killed at whatever state i of the disk since it began, and the next one starts from
        there. What counts as accepted is what had been accepted by then. */
    method Restart(i: nat)
      requires Valid() && start <= i < |fs.seen|
      modifies this`accepted, this`marks, this`start, fs
      ensures Valid() && fs.disk == old(fs.seen)[i] && fs.seen == old(fs.seen) + [fs.disk] && fs.op == old(fs.op)
      ensures blind == old(blind) && start == |old(fs.seen)|
      ensures accepted <= old(accepted) && (i == |old(fs.seen)| - 1 ==> accepted == old(accepted))
      ensures !blind ==> forall k :: 0 <= k < |accepted| ==> Covers(fs.disk, accepted[k])
    {
      ghost var n := Before(marks, i + 1);
      RemembersBefore(fs.seen, i, start, accepted, marks, n);
      fs.Resume(i);
      accepted, marks, start := accepted[..n], marks[..n], |fs.seen| - 1;
    }

    /** The floor file was sound, and no look at it failed meanwhile, whatever else did. */
    twostate predicate Sound()
      reads fs
    {
      fs.Saw(Floor) && FloorIn(old(fs.disk)).Some?
    }

    /** The floor could be read whenever that mattered: nothing was ever accepted without, or it was sound. */
    twostate predicate Sighted()
      reads this, fs
    {
      !blind || Sound()
    }

    /** What every part of an update keeps of the floor. */
    twostate predicate FloorHeld()
      reads this, fs
    {
      && Prefix(old(fs.seen), fs.seen) && old(fs.op) <= fs.op
      && old(accepted) <= accepted && (old(blind) ==> blind) && (Sound() ==> blind == old(blind))
      && (Sighted() ==> Rises(fs.seen, |old(fs.seen)|, old(fs.disk), fs.disk))
      && (!blind && FloorIn(fs.disk).Some? ==> FloorIn(old(fs.disk)).Some?)
      && (if accepted == old(accepted) then blind == old(blind) && FloorIn(fs.disk) == FloorIn(old(fs.disk))
          else Covers(fs.disk, accepted[|accepted| - 1]))
    }

    /** The manifest is the last one accepted, and the floor that was on disk does not exceed it. */
    twostate predicate AboveFloor(m: Manifest)
      reads this, fs
    {
      && Ends(accepted, m.sequence)
      && (Sighted() ==> FloorIn(old(fs.disk)).Some? && m.sequence >= FloorIn(old(fs.disk)).value)
    }

    /** The k-th download is all of the bytes at an address, and the next all of the signature beside them. */
    predicate Served(url: string, k: nat, body: Bytes, env: Bytes) {
      && url != "" && answers(k, Web(url)) == Some(Stream(body, false))
      && answers(k + 1, Web(url + ".sig")) == Some(Stream(env, false))
    }

    /** The bytes came with the request, or from the address it names, or if it names none from the build's. */
    predicate Received(b: Build, d: Desired, k: nat, body: Bytes, env: Bytes) {
      || d.pair == Some((body, env)) || Served(d.manifestURL, k, body, env)
      || (d.manifestURL == "" && Served(b.defaultURL, k, body, env))
    }

    /** Bytes that this update received are trusted now by this build, and say that `a` is the version. */
    ghost predicate Vouched(b: Build, d: Desired, k: nat, now: int, m: Manifest, a: Artifact) {
      && Lists(m, d.version, b.goos, b.goarch, a)
      && exists body, env :: Received(b, d, k, body, env) && b.verify(body, env, now) == Trusted(m)
    }

    /** The bytes pass every check, and list `a`. */
    ghost predicate Passes(b: Build, version: string, now: int, body: Bytes, env: Bytes, a: Artifact, disk: Disk) {
      var v := b.verify(body, env, now);
      v.Trusted? && v.m.sequence >= FloorOrZero(disk) && Lists(v.m, version, b.goos, b.goarch, a)
    }

    /** The pair that the server sent passes every check. */
    ghost predicate Offers(b: Build, d: Desired, now: int, a: Artifact, disk: Disk) {
      d.pair.Some? && Passes(b, d.version, now, d.pair.value.0, d.pair.value.1, a, disk)
    }

    /** Holds a trusted manifest against the floor and raises it. What cannot be read counts as 0. */
    method Raise(m: Manifest) returns (r: Raising)
      requires Valid()
      modifies this`accepted, this`marks, this`blind, fs
      ensures Valid() && fs.Only(FLOOR_PATHS) && FloorHeld()
      ensures r.Raised? ==> AboveFloor(m)
      ensures old(fs.Calm()) ==> (r.TooOld? <==> m.sequence < FloorOrZero(old(fs.disk))) && !r.NotSaved?
    {
      hide Grew, Rises, Remembers, HeldWhole;
      ghost var s0, d0 := fs.seen, fs.disk;
      GrewNot(s0, d0, {Aside(Floor)});
      GrewNot(s0, d0, FLOOR_PATHS);
      FloorStays(s0, d0, s0, d0, start, accepted, marks, {Aside(Floor)});
      var seen := LoadSequence(fs);
      if !Fresh(m, if seen.Some? then seen.value else 0) {
        return TooOld;
      }
      var saved := SaveSequence(fs, m.sequence);
      if !saved {
        FloorStays(s0, d0, fs.seen, fs.disk, start, accepted, marks, {Aside(Floor)});
        return NotSaved;
      }
      FloorRaised(s0, d0, fs.seen, fs.disk, start, accepted, marks, m.sequence);
      blind := blind || seen.None?;
      accepted, marks := accepted + [m.sequence], marks + [|fs.seen|];
      return Raised;
    }

    /** Every check on one manifest. Once it is fresh the floor is raised, before anything is downloaded. */
    method Accept(b: Build, version: string, now: int, body: Bytes, env: Bytes) returns (r: Judged)
      requires Valid()
      modifies this`accepted, this`marks, this`blind, fs
      ensures Valid() && fs.Only(FLOOR_PATHS) && FloorHeld()
      ensures r.Accepted? ==> b.verify(body, env, now) == Trusted(r.m) && Lists(r.m, version, b.goos, b.goarch, r.a)
      ensures r.Accepted? ==> AboveFloor(r.m)
      ensures r == Refused(Signature) <==> b.verify(body, env, now).BadSignature?
      ensures b.verify(body, env, now).Expired? ==> r == Refused(Stale)
      ensures r == Refused(NoArtifact) ==>
        b.verify(body, env, now).Trusted? &&
        forall a :: !Lists(b.verify(body, env, now).m, version, b.goos, b.goarch, a)
      ensures old(fs.Calm()) && b.verify(body, env, now).Trusted? ==>
        (r == Refused(Stale) <==> b.verify(body, env, now).m.sequence < FloorOrZero(old(fs.disk)))
      ensures r.Stuck? ==> !old(fs.Calm())
      ensures !r.Accepted? ==> r.why in {Signature, Stale, NoArtifact, CannotArm}
      ensures old(fs.Calm()) ==>
        forall a :: Passes(b, version, now, body, env, a, old(fs.disk)) ==> r.Accepted? && r.a == a
    {
      hide Grew, Lists, Rises, Remembers;
      var v := b.verify(body, env, now);
      if !v.Trusted? {
        GrewNot(fs.seen, fs.disk, FLOOR_PATHS);
        RisesNot(fs.seen, fs.disk);
        return Refused(if v.Expired? then Stale else Signature);
      }
      var raised := Raise(v.m);
      match raised {
        case TooOld => return Refused(Stale);
        case NotSaved => return Stuck(CannotArm);
        case Raised =>
      }
      var a := Find(v.m, version, b.goos, b.goarch);
      r := if a.None? then Refused(NoArtifact) else Accepted(v.m, a.value);
    }

    /** Reads a whole answer, but never more than the bound and one byte. */
    method FetchLimited(url: string) returns (r: Option<Bytes>)
      modifies this`calls
      ensures calls == old(calls) + 1
      ensures r.Some? ==> |r.value| <= 1048576 && old(answers(calls, Web(url))) == Some(Stream(r.value, false))
      ensures r.None? ==>
        forall bytes :: old(answers(calls, Web(url))) == Some(Stream(bytes, false)) ==> |bytes| > 1048576
    {
      var s := answers(calls, Web(url));
      calls := calls + 1;
      if s.None? || |s.value.bytes| > MAX_MANIFEST || s.value.broken {
        return None;
      }
      r := Some(s.value.bytes);
    }

    method FromURL(b: Build, d: Desired, now: int, url: string) returns (r: Judged)
      requires Valid() && url == UrlOf(b, d) != ""
      modifies this`accepted, this`marks, this`blind, this`calls, fs
      ensures Valid() && fs.Only(FLOOR_PATHS) && FloorHeld() && old(calls) < calls <= old(calls) + 2
      ensures r.Accepted? ==> Vouched(b, d, old(calls), now, r.m, r.a) && AboveFloor(r.m)
      ensures !r.Accepted? ==> r.why in FETCHING && r.why != Hash
    {
      hide Grew, Lists, Rises, Remembers;
      GrewNot(fs.seen, fs.disk, FLOOR_PATHS);
      RisesNot(fs.seen, fs.disk);
      var body := FetchLimited(url);
      if body.None? {
        return Refused(Fetch);
      }
      var env := FetchLimited(url + ".sig");
      if env.None? {
        return Refused(Fetch);
      }
      assert Served(url, old(calls), body.value, env.value);
      assert Received(b, d, old(calls), body.value, env.value);
      r := Accept(b, d.version, now, body.value, env.value);
    }

    /** The server's pair first, and only if its bytes are refused the URL, once, with the same checks. */
    method ManifestFor(b: Build, d: Desired, now: int) returns (r: Judged)
      requires Valid()
      modifies this`accepted, this`marks, this`blind, this`calls, fs
      ensures Valid() && fs.Only(FLOOR_PATHS) && FloorHeld() && old(calls) <= calls <= old(calls) + 2
      ensures r.Accepted? ==> Vouched(b, d, old(calls), now, r.m, r.a) && AboveFloor(r.m)
      ensures !r.Accepted? ==> r.why in FETCHING && r.why != Hash
      ensures r.Refused? && (d.manifestURL != "" || b.defaultURL != "") ==> calls > old(calls)
      ensures old(fs.Calm()) ==>
        forall a :: Offers(b, d, now, a, old(fs.disk)) ==> r.Accepted? && r.a == a && calls == old(calls)
      ensures d.manifestURL == b.defaultURL == "" ==>
        calls == old(calls) && (d.pair.None? ==> r == Refused(NoArtifact))
    {
      hide Grew, Lists, Rises, Remembers;
      var url := UrlOf(b, d);
      if d.pair.None? {
        if url == "" {
          GrewNot(fs.seen, fs.disk, FLOOR_PATHS);
          RisesNot(fs.seen, fs.disk);
          return Refused(NoArtifact);
        }
        r := FromURL(b, d, now, url);
        return;
      }
      ghost var s0, d0 := fs.seen, fs.disk;
      r := Accept(b, d.version, now, d.pair.value.0, d.pair.value.1);
      if !r.Refused? || url == "" {
        assert Received(b, d, calls, d.pair.value.0, d.pair.value.1);
        return;
      }
      ghost var s1, d1 := fs.seen, fs.disk;
      label Paired:
      r := FromURL(b, d, now, url);
      GrewTrans(s0, d0, s1, d1, fs.seen, fs.disk, FLOOR_PATHS, FLOOR_PATHS, FLOOR_PATHS);
      RisesTrans(s0, d0, s1, d1, fs.seen, fs.disk);
    }

    function UrlOf(b: Build, d: Desired): string {
      if d.manifestURL == "" then b.defaultURL else d.manifestURL
    }

    /** Streams one source beside the binary; what is kept is exactly what the manifest describes. */
    method Stage(a: Artifact, from: Source) returns (r: Staging)
      requires fs.Valid()
      modifies this`calls, fs
      ensures fs.Valid() && fs.Only(Downloads(fs.op)) && old(calls) <= calls <= old(calls) + 1
      ensures r.Staged? ==> StagedFor(fs.disk, r.n, a)
      ensures r.Failed? && r.hash ==> calls == old(calls) + 1 && WrongAnswer(a, old(calls), from)
      ensures old(fs.Calm()) ==> calls == old(calls) + 1 && (GoodAnswer(a, old(calls), from) ==> r.Staged?)
    {
      hide Grew;
      ghost var s0, d0 := fs.seen, fs.disk;
      var t := fs.CreateTemp();
      if t.None? {
        return Failed(false);
      }
      ghost var s1, d1, ps := fs.seen, fs.disk, Downloads(fs.op);
      var n := t.value;
      var src := answers(calls, from);
      calls := calls + 1;
      if src.None? {
        var _ := fs.Remove(Download(n));
        GrewTrans(s0, d0, s1, d1, fs.seen, fs.disk, ps, {Download(n)}, Downloads(fs.op));
        return Failed(false);
      }
      var written, c := CopyVerified(src.value, a, digest, rooms(calls - 1));
      var open, filled := fs.Put(Download(n), Raw(written));
      ghost var s2, d2, qs := fs.seen, fs.disk, Downloads(fs.op);
      GrewTrans(s0, d0, s1, d1, s2, d2, ps, {Download(n)}, qs);
      if !c.Good? || !filled {
        var _ := fs.Remove(Download(n));
        GrewTrans(s0, d0, s2, d2, fs.seen, fs.disk, qs, {Download(n)}, Downloads(fs.op));
        return Failed(c.WrongBytes?);
      }
      r := Staged(n);
    }

    /** The staged file is the one the manifest declares. */
    predicate StagedFor(d: Disk, n: nat, a: Artifact) {
      At(d, Download(n)).Some? && d[Download(n)].Raw? && Declared(a, d[Download(n)].bytes, digest)
    }

    /** Answer k delivered bytes, and not the declared ones. */
    predicate WrongAnswer(a: Artifact, k: nat, from: Source) {
      answers(k, from).Some? && (!Declared(a, answers(k, from).value.bytes, digest) || a.size == MAX_INT64)
    }

    /** Answer k is the declared file, whole, and the disk has room for it. */
    predicate GoodAnswer(a: Artifact, k: nat, from: Source) {
      && answers(k, from).Some? && Declared(a, answers(k, from).value.bytes, digest) && !answers(k, from).value.broken
      && a.size != MAX_INT64 && a.size <= rooms(k)
    }

    /** From the k-th download on, every source that is to be asked served bytes that are not the declared ones. */
    predicate AllWrong(b: Build, id: int, a: Artifact, k: nat) {
      if id > 0 && b.hasPayload
      then WrongAnswer(a, k, ServerCopy(id)) && WrongAnswer(a, k + 1, Web(a.url))
      else WrongAnswer(a, k, Web(a.url))
    }

    /** The first source that is asked for the file. */
    function SourceOf(b: Build, d: Desired, a: Artifact): Source {
      if d.artifact > 0 && b.hasPayload then ServerCopy(d.artifact) else Web(a.url)
    }

    /** The server's copy first, then the origin, once. Wrong bytes are reported only if every source that
        was asked served wrong bytes. */
    method FetchArtifact(b: Build, id: int, a: Artifact) returns (r: Staging)
      requires fs.Valid()
      modifies this`calls, fs
      ensures fs.Valid() && fs.Only(Downloads(fs.op)) && old(calls) <= calls <= old(calls) + 2
      ensures r.Staged? ==> StagedFor(fs.disk, r.n, a)
      ensures old(fs.Calm()) && id > 0 && b.hasPayload ==>
        (GoodAnswer(a, old(calls), ServerCopy(id)) || GoodAnswer(a, old(calls) + 1, Web(a.url)) ==> r.Staged?)
      ensures old(fs.Calm()) && !(id > 0 && b.hasPayload) ==> (GoodAnswer(a, old(calls), Web(a.url)) ==> r.Staged?)
      ensures r.Failed? && r.hash ==> AllWrong(b, id, a, old(calls))
    {
      hide Grew;
      ghost var s0, d0 := fs.seen, fs.disk;
      if id <= 0 || !b.hasPayload {
        r := Stage(a, Web(a.url));
        return;
      }
      var server := Stage(a, ServerCopy(id));
      if server.Staged? {
        return server;
      }
      ghost var s1, d1, ps := fs.seen, fs.disk, Downloads(fs.op);
      var origin := Stage(a, Web(a.url));
      GrewTrans(s0, d0, s1, d1, fs.seen, fs.disk, ps, Downloads(fs.op), Downloads(fs.op));
      r := if origin.Staged? then origin else Failed(server.hash && origin.hash);
    }

    /** Arms, swaps, and takes the record back if the swap did not happen. The running binary's bytes are at
        its path or beside it in every state on the way, so also wherever the process ends. */
    method Replace(p: Probation, n: nat) returns (s: Status)
      requires fs.Valid()
      modifies fs
      ensures fs.Valid() && fs.Only(ReplacePaths(n))
      ensures Exe in old(fs.disk) ==> Safe(fs.seen, |old(fs.seen)|, fs.disk, old(fs.disk)[Exe])
      ensures s.Applied? ==>
        ReplacedBy(old(fs.disk), fs.disk, p) && At(fs.disk, Exe) == At(old(fs.disk), Download(n)) != None
      ensures !s.Applied? ==>
        At(fs.disk, Exe) == At(old(fs.disk), Exe) || (s == FailedWith(SwapFailed) && At(fs.disk, Exe).None?)
      ensures s in {Applied, FailedWith(CannotArm), FailedWith(SwapFailed)}
      ensures old(fs.Calm()) && s == FailedWith(SwapFailed) ==> At(fs.disk, Record).None?
      ensures old(fs.Calm()) && Exe in old(fs.disk) && Download(n) in old(fs.disk) ==> s.Applied?
    {
      hide Grew, AllHold;
      ghost var all, s0, d0 := ReplacePaths(n), fs.seen, fs.disk;
      var armed := Arm(fs, p);
      ghost var s1, d1 := fs.seen, fs.disk;
      ArmStage(s0, d0, s1, d1, n);
      if !armed {
        Discard(n, s0, d0);
        return FailedWith(CannotArm);
      }
      var swap := Swap(fs, n);
      ghost var s2, d2 := fs.seen, fs.disk;
      SwapStage(s0, d0, s1, d1, s2, d2, n);
      if swap.Swapped? {
        Discard(n, s0, d0);
        return Applied;
      }
      var _ := ClearProbation(fs);
      GrewAt(s2, d2, fs.seen, fs.disk, {Record}, Exe);
      QuietStage(s0, d0, s2, d2, fs.seen, fs.disk, {Record}, n);
      Discard(n, s0, d0);
      s := FailedWith(SwapFailed);
    }

    /** The deferred removal of the download. */
    method Discard(n: nat, ghost s0: seq<Disk>, ghost d0: Disk)
      requires fs.Valid() && Grew(s0, d0, fs.seen, fs.disk, ReplacePaths(n))
      requires Exe in d0 ==> Safe(fs.seen, |s0|, fs.disk, d0[Exe])
      modifies fs
      ensures fs.Valid() && old(fs.op) <= fs.op && Grew(s0, d0, fs.seen, fs.disk, ReplacePaths(n))
      ensures Exe in d0 ==> Safe(fs.seen, |s0|, fs.disk, d0[Exe])
      ensures SameBut(old(fs.disk), fs.disk, {Download(n)})
    {
      ghost var s1, d1 := fs.seen, fs.disk;
      var _ := fs.Remove(Download(n));
      QuietStage(s0, d0, s1, d1, fs.seen, fs.disk, {Download(n)}, n);
    }

    /** What is settled before anything is fetched. */
    function Gate(b: Build, d: Desired, busy: bool): Option<Status> {
      var order := b.compare(b.current, d.version);
      if !b.valid(d.version) then Some(FailedWith(BadVersion))
      else if order == 0 then Some(Unchanged)
      else if order == 1 && b.minDowngrade != "" && b.compare(d.version, b.minDowngrade) < 0
      then Some(FailedWith(BelowFloor))
      else if b.rootCount == 0 then Some(FailedWith(NoSigningRoot))
      else if busy then Some(Unchanged)
      else None
    }

    /** The binary in place is the file that a manifest trusted by this update lists for the version. The
        manifest was the last one accepted, and not below the floor that was on disk. */
    twostate predicate Installed(b: Build, d: Desired, k: nat, now: int)
      reads this, fs
    {
      exists m, a ::
        && Vouched(b, d, k, now, m, a) && AboveFloor(m)
        && At(fs.disk, Exe).Some? && fs.disk[Exe].Raw? && Declared(a, fs.disk[Exe].bytes, digest)
    }

    /** Finds this host's entry and stages its file. The binary and the config stay as they are. */
    method Obtain(b: Build, d: Desired, now: int) returns (r: Obtained)
      requires Valid()
      modifies this`accepted, this`marks, this`blind, this`calls, fs
      ensures Valid() && FloorHeld() && calls <= old(calls) + 4
      ensures SameBinaries(old(fs.disk), fs.disk)
      ensures Exe in old(fs.disk) ==> Safe(fs.seen, |old(fs.seen)|, fs.disk, old(fs.disk)[Exe])
      ensures old(fs.Calm()) ==>
        forall a :: Offers(b, d, now, a, old(fs.disk)) && GoodAnswer(a, old(calls), SourceOf(b, d, a)) ==> r.Got?
      ensures r.NotGot? ==> r.why in FETCHING
      ensures r == NotGot(Hash) ==> exists a, k: nat :: old(calls) <= k && AllWrong(b, d.artifact, a, k)
      ensures r.Got? ==>
        Vouched(b, d, old(calls), now, r.m, r.a) && AboveFloor(r.m) && StagedFor(fs.disk, r.n, r.a)
    {
      hide Grew, Safe, Declared, Lists, SameBinaries, Vouched, Rises, Remembers, Offers, Received, Marked, AllWrong;
      ghost var s0, d0 := fs.seen, fs.disk;
      SafeNow(s0, d0);
      var judged := ManifestFor(b, d, now);
      ghost var s1, d1 := fs.seen, fs.disk;
      SafeStays(s0, d0, s0, d0, s1, d1, FLOOR_PATHS);
      if !judged.Accepted? {
        return NotGot(judged.why);
      }
      ghost var k: nat := calls;
      var staged := FetchArtifact(b, d.artifact, judged.a);
      SafeStays(s0, d0, s1, d1, fs.seen, fs.disk, Downloads(fs.op));
      FloorStays(s1, d1, fs.seen, fs.disk, start, accepted, marks, Downloads(fs.op));
      RisesTrans(s0, d0, s1, d1, fs.seen, fs.disk);
      if staged.Failed? {
        assert staged.hash ==> old(calls) <= k && AllWrong(b, d.artifact, judged.a, k);
        return NotGot(if staged.hash then Hash else Fetch);
      }
      r := Got(judged.m, judged.a, staged.n);
    }

    /** Replacing the binary does not touch the floor. */
    method Exchange(p: Probation, n: nat) returns (s: Status)
      requires Valid()
      modifies fs
      ensures Valid() && fs.Only(ReplacePaths(n)) && FloorHeld() && FloorIn(fs.disk) == FloorIn(old(fs.disk))
      ensures Exe in old(fs.disk) ==> Safe(fs.seen, |old(fs.seen)|, fs.disk, old(fs.disk)[Exe])
      ensures s.Applied? ==>
        ReplacedBy(old(fs.disk), fs.disk, p) && At(fs.disk, Exe) == At(old(fs.disk), Download(n)) != None
      ensures !s.Applied? ==>
        At(fs.disk, Exe) == At(old(fs.disk), Exe) || (s == FailedWith(SwapFailed) && At(fs.disk, Exe).None?)
      ensures s in {Applied, FailedWith(CannotArm), FailedWith(SwapFailed)}
      ensures old(fs.Calm()) && Exe in old(fs.disk) && Download(n) in old(fs.disk) ==> s.Applied?
    {
      hide Grew, Safe, ReplacedBy, Rises, Remembers, Marked, FloorIn;
      ghost var s0, d0 := fs.seen, fs.disk;
      s := Replace(p, n);
      FloorStays(s0, d0, fs.seen, fs.disk, start, accepted, marks, ReplacePaths(n));
    }

    /** The part of an update that changes anything. */
    method Carry(b: Build, d: Desired, now: int) returns (s: Status, p: Probation)
      requires Valid()
      modifies this`accepted, this`marks, this`blind, this`calls, fs
      ensures Valid() && FloorHeld() && calls <= old(calls) + 4
      ensures Exe in old(fs.disk) ==> Safe(fs.seen, |old(fs.seen)|, fs.disk, old(fs.disk)[Exe])
      ensures old(fs.Calm()) && Exe in old(fs.disk) ==>
        forall a :: Offers(b, d, now, a, old(fs.disk)) && GoodAnswer(a, old(calls), SourceOf(b, d, a)) ==> s.Applied?
      ensures s.Applied? ==> Installed(b, d, old(calls), now)
      ensures s.Applied? ==>
        ReplacedBy(old(fs.disk), fs.disk, p) && (p.from, p.to, p.deadline) == (b.current, d.version, now + b.probation)
      ensures s.Applied? ==> Ends(accepted, p.sequence)
      ensures s.Applied? || (s.FailedWith? && s.why in FETCHING + {SwapFailed})
      ensures s == FailedWith(Hash) ==> exists a, k: nat :: old(calls) <= k && AllWrong(b, d.artifact, a, k)
      ensures !s.Applied? ==>
        At(fs.disk, Exe) == At(old(fs.disk), Exe) || (s == FailedWith(SwapFailed) && At(fs.disk, Exe).None?)
    {
      hide Grew, Safe, Declared, ReplacedBy, SameBinaries, Vouched, Lists, Rises, Remembers, Offers, GoodAnswer,
        Marked, Received, FloorIn;
      p := Probation(b.current, d.version, 0, now + b.probation);
      ghost var s0, d0 := fs.seen, fs.disk;
      var got := Obtain(b, d, now);
      ghost var s1, d1 := fs.seen, fs.disk;
      if got.NotGot? {
        ReplacedAll(d0, d1, d1, p);
        return FailedWith(got.why), p;
      }
      p := Probation(b.current, d.version, got.m.sequence, now + b.probation);
      ReplacedAll(d0, d1, d1, p);
      s := Exchange(p, got.n);
      SafeJoins(s0, d0, s1, d1, fs.seen, fs.disk, ReplacePaths(got.n));
      ReplacedAll(d0, d1, fs.disk, p);
      RisesTrans(s0, d0, s1, d1, fs.seen, fs.disk);
      if s.Applied? {
        assert Vouched(b, d, old(calls), now, got.m, got.a) && AboveFloor(got.m);
      }
    }

    /** One update, and the record it arms if it gets that far. */
    method Run(b: Build, d: Desired, now: int, busy: bool) returns (s: Status, p: Probation)
      requires Valid()
      modifies this`accepted, this`marks, this`blind, this`calls, fs
      ensures Valid() && FloorHeld() && calls <= old(calls) + 4
      ensures Exe in old(fs.disk) ==> Safe(fs.seen, |old(fs.seen)|, fs.disk, old(fs.disk)[Exe])
      ensures s == FailedWith(BadVersion) <==> !b.valid(d.version)
      ensures s == FailedWith(Hash) ==> exists a, k: nat :: old(calls) <= k && AllWrong(b, d.artifact, a, k)
      ensures s == FailedWith(BelowFloor) <==>
        && b.valid(d.version) && b.compare(b.current, d.version) == 1
        && b.minDowngrade != "" && b.compare(d.version, b.minDowngrade) < 0
      ensures s == FailedWith(NoSigningRoot) <==>
        && b.valid(d.version) && b.compare(b.current, d.version) != 0 && s != FailedWith(BelowFloor) && b.rootCount == 0
      ensures s == Unchanged <==>
        && b.valid(d.version) && s != FailedWith(BelowFloor) && s != FailedWith(NoSigningRoot)
        && (b.compare(b.current, d.version) == 0 || busy)
      ensures s == Unchanged || s in {FailedWith(BadVersion), FailedWith(BelowFloor), FailedWith(NoSigningRoot)} ==>
        fs.disk == old(fs.disk) && fs.seen == old(fs.seen) && accepted == old(accepted) && calls == old(calls)
      ensures s.Applied? ==>
        && b.valid(d.version) && b.compare(b.current, d.version) != 0 && b.rootCount > 0 && !busy
        && (b.compare(b.current, d.version) == 1 && b.minDowngrade != "" ==> b.compare(d.version, b.minDowngrade) >= 0)
      ensures Gate(b, d, busy).Some? ==>
        s == Gate(b, d, busy).value && fs.disk == old(fs.disk) && accepted == old(accepted) && calls == old(calls)
      ensures Gate(b, d, busy).None? && old(fs.Calm()) && Exe in old(fs.disk) ==>
        forall a :: Offers(b, d, now, a, old(fs.disk)) && GoodAnswer(a, old(calls), SourceOf(b, d, a)) ==> s.Applied?
      ensures s.Applied? ==> Gate(b, d, busy).None? && Installed(b, d, old(calls), now)
      ensures s.Applied? ==>
        ReplacedBy(old(fs.disk), fs.disk, p) && (p.from, p.to, p.deadline) == (b.current, d.version, now + b.probation)
      ensures s.Applied? ==> Ends(accepted, p.sequence)
      ensures !s.Applied? ==>
        At(fs.disk, Exe) == At(old(fs.disk), Exe) || (s == FailedWith(SwapFailed) && At(fs.disk, Exe).None?)
    {
      hide Safe, Rises, Remembers;
      SafeNow(fs.seen, fs.disk);
      RisesNot(fs.seen, fs.disk);
      p := Probation(b.current, d.version, 0, now + b.probation);
      if !b.valid(d.version) {
        return FailedWith(BadVersion), p;
      }
      var order := b.compare(b.current, d.version);
      if order == 0 {
        return Unchanged, p;
      }
      if order == 1 && b.minDowngrade != "" && b.compare(d.version, b.minDowngrade) < 0 {
        return FailedWith(BelowFloor), p;
      }
      if b.rootCount == 0 {
        return FailedWith(NoSigningRoot), p;
      }
      if busy {
        return Unchanged, p;
      }
      s, p := Carry(b, d, now);
    }

    /** The new binary rewrites its config. */
    method Rewrite(config: Content)
      requires Valid()
      modifies fs
      ensures Valid() && FloorHeld() && KeptAlone(old(fs.disk), fs.disk)
      ensures At(fs.disk, Exe) == At(old(fs.disk), Exe) && At(fs.disk, Record) == At(old(fs.disk), Record)
    {
      hide Grew, Rises, Remembers, Marked;
      ghost var s0, d0 := fs.seen, fs.disk;
      var _ := fs.WriteFileSync(Config, config);
      GrewAt(s0, d0, fs.seen, fs.disk, {Config, Aside(Config)}, Exe);
      GrewAt(s0, d0, fs.seen, fs.disk, {Config, Aside(Config)}, Record);
      GrewAt(s0, d0, fs.seen, fs.disk, {Config, Aside(Config)}, ExePrev);
      GrewAt(s0, d0, fs.seen, fs.disk, {Config, Aside(Config)}, ConfigPrev);
      FloorStays(s0, d0, fs.seen, fs.disk, start, accepted, marks, {Config, Aside(Config)});
    }

    /** A revert. What this host accepted still counts: the floor does not come back with the binary. */
    method Undo() returns (r: Outcome, saw: bool)
      requires Valid()
      modifies fs
      ensures Valid() && FloorHeld() && FloorIn(fs.disk) == FloorIn(old(fs.disk))
      ensures r.Restored? ==> RevertedBy(old(fs.disk), fs.disk, saw)
      ensures old(fs.Calm()) && Undoable(old(fs.disk)) ==> r.Restored? && saw == (ConfigPrev in old(fs.disk))
    {
      hide Grew, Rises, Remembers, Marked, AllReverting;
      ghost var s0, d0 := fs.seen, fs.disk;
      r, saw := Revert(fs);
      FloorStays(s0, d0, fs.seen, fs.disk, start, accepted, marks, REVERT_PATHS);
    }

    /** Any history of the host: updates by any builds, kills that leave the disk at any state since the
        process began, configs rewritten and updates reverted, while any file operation may fail. */
    method Live(events: seq<Event>)
      requires Valid()
      modifies this`accepted, this`marks, this`start, this`blind, this`calls, fs
      ensures Valid() && Prefix(old(fs.seen), fs.seen)
      ensures !blind ==> Sorted(accepted) && forall k :: 0 <= k < |accepted| ==> Covers(fs.disk, accepted[k])
      ensures Sound() ==> blind == old(blind) && Rises(fs.seen, |old(fs.seen)|, old(fs.disk), fs.disk)
    {
      hide Rises, Covers, Remembers, Marked;
      var begun := |fs.seen| - 1;
      RisesNot(fs.seen, fs.disk);
      for n := 0 to |events|
        invariant Valid() && start <= begun < |fs.seen| && |old(fs.seen)| <= begun + 1
        invariant Prefix(old(fs.seen), fs.seen) && old(fs.op) <= fs.op
        invariant Sound() ==>
          blind == old(blind) && FloorIn(fs.disk).Some? && Rises(fs.seen, |old(fs.seen)|, old(fs.disk), fs.disk)
      {
        ghost var s1, d1 := fs.seen, fs.disk;
        match events[n] {
          case Updated(b, d, now, busy) => var _, _ := Run(b, d, now, busy);
          case Rewritten(config) => Rewrite(config);
          case Reverted => var _, _ := Undo();
          case Killed(back) =>
            var i := if back < |fs.seen| - begun then |fs.seen| - 1 - back else begun;
            RisesBack(fs.seen, |old(fs.seen)|, old(fs.disk), fs.disk, i);
            Restart(i);
            begun := |fs.seen| - 1;
        }
        RisesTrans(old(fs.seen), old(fs.disk), s1, d1, fs.seen, fs.disk);
        RisesReads(fs.seen, |old(fs.seen)|, old(fs.disk), fs.disk);
      }
      StillCovered(fs.seen, fs.disk, start, accepted, marks);
    }
  }

  /* ----- the floor over a stretch of states ----- */

  ghost const FLOOR_PATHS := {Floor, Aside(Floor)}

  lemma RisesNot(s: seq<Disk>, d: Disk)
    ensures Rises(s, |s|, d, d)
  {
  }

  lemma RisesReads(s: seq<Disk>, n: nat, d: Disk, e: Disk)
    ensures Rises(s, n, d, e) && FloorIn(d).Some? ==> FloorIn(e).Some?
  {
  }

  lemma RisesTrans(s0: seq<Disk>, d0: Disk, s1: seq<Disk>, d1: Disk, s2: seq<Disk>, d2: Disk)
    requires Prefix(s0, s1) && Prefix(s1, s2)
    ensures Prefix(s0, s2)
    ensures Rises(s1, |s0|, d0, d1) && Rises(s2, |s1|, d1, d2) ==> Rises(s2, |s0|, d0, d2)
    ensures Rises(s1, |s0|, d0, d1) && FloorIn(d0).Some? ==> Covers(d1, FloorIn(d0).value)
  {
    assert s2[..|s0|] == s2[..|s1|][..|s0|];
    assert forall i :: 0 <= i < |s1| ==> s2[..|s1|][i] == s2[i];
  }

  /** Going back to a state in between. */
  lemma RisesBack(s: seq<Disk>, n: nat, d: Disk, e: Disk, i: nat)
    requires n <= i + 1 <= |s| && 0 < n && s[n - 1] == d
    ensures Rises(s, n, d, e) ==> Rises(s + [s[i]], n, d, s[i])
  {
  }

  /** A process that has just begun, or is still running, stands on a floor that covers what was accepted. */
  lemma StillCovered(s: seq<Disk>, d: Disk, start: nat, accepted: seq<int64>, marks: seq<nat>)
    requires Ready(s, d, start, accepted, marks)
    ensures Remembers(s, start, accepted, marks) ==>
      Sorted(accepted) && forall k :: 0 <= k < |accepted| ==> Covers(d, accepted[k])
  {
    if Remembers(s, start, accepted, marks) {
      RisesNot(s, d);
      RemembersGrows(s, d, s, d, start, accepted, marks);
    }
  }

  ghost predicate Ready(s: seq<Disk>, d: Disk, start: nat, accepted: seq<int64>, marks: seq<nat>) {
    start < |s| && s[|s| - 1] == d && Marked(marks, accepted, |s|)
  }

  /** What was accepted stays covered while the floor rises. */
  lemma RemembersGrows(s0: seq<Disk>, d0: Disk, s1: seq<Disk>, d1: Disk,
                       start: nat, accepted: seq<int64>, marks: seq<nat>)
    requires Ready(s0, d0, start, accepted, marks) && Remembers(s0, start, accepted, marks)
    requires Prefix(s0, s1) && Rises(s1, |s0|, d0, d1)
    ensures Marked(marks, accepted, |s1|) && Remembers(s1, start, accepted, marks)
    ensures forall k :: 0 <= k < |accepted| ==> Covers(d0, accepted[k])
  {
    forall i, k | start <= i < |s1| && 0 <= k < |marks| && marks[k] <= i + 1
      ensures Covers(s1[i], accepted[k])
    {
      assert Covers(s0[|s0| - 1], accepted[k]);
      if i < |s0| {
        assert s1[i] == s1[..|s0|][i] == s0[i];
      }
    }
    forall k | 0 <= k < |accepted|
      ensures Covers(d0, accepted[k])
    {
      assert marks[k] <= |s0| - 1 + 1;
    }
  }

  /** Steps that do not touch the floor. */
  lemma FloorStays(s0: seq<Disk>, d0: Disk, s1: seq<Disk>, d1: Disk,
                   start: nat, accepted: seq<int64>, marks: seq<nat>, ps: set<Path>)
    requires Ready(s0, d0, start, accepted, marks) && Grew(s0, d0, s1, d1, ps) && Floor !in ps
    ensures Marked(marks, accepted, |s1|) && Rises(s1, |s0|, d0, d1) && FloorIn(d1) == FloorIn(d0)
    ensures Remembers(s0, start, accepted, marks) ==> Remembers(s1, start, accepted, marks)
  {
    GrewAt(s0, d0, s1, d1, ps, Floor);
    if Remembers(s0, start, accepted, marks) {
      RemembersGrows(s0, d0, s1, d1, start, accepted, marks);
    }
  }

  /** Writing a floor that is not below the one on disk, and accepting what it stands for. */
  lemma FloorRaised(s0: seq<Disk>, d0: Disk, s1: seq<Disk>, d1: Disk,
                    start: nat, accepted: seq<int64>, marks: seq<nat>, n: int64)
    requires Ready(s0, d0, start, accepted, marks) && Prefix(s0, s1) && s1[|s1| - 1] == d1
    requires HeldWhole(|s0|, d0, s1, d1, Floor, FloorOf(n)) && Covers(d1, n)
    ensures Marked(marks + [|s1|], accepted + [n], |s1|)
    ensures FloorIn(d0).Some? && n >= FloorIn(d0).value ==>
      && Rises(s1, |s0|, d0, d1)
      && (Remembers(s0, start, accepted, marks) ==> Remembers(s1, start, accepted + [n], marks + [|s1|]))
  {
    if FloorIn(d0).Some? && n >= FloorIn(d0).value {
      forall i | |s0| <= i < |s1|
        ensures Covers(s1[i], FloorIn(d0).value)
      {
        assert At(s1[i], Floor) == At(d0, Floor) || At(s1[i], Floor) == Some(FloorOf(n));
      }
      if Remembers(s0, start, accepted, marks) {
        RemembersGrows(s0, d0, s1, d1, start, accepted, marks);
      }
    }
  }

  /** How many marks are at or before a limit. */
  function Before(marks: seq<nat>, limit: nat): (n: nat)
    ensures n <= |marks| && (n < |marks| ==> marks[n] > limit) && forall k :: 0 <= k < n ==> marks[k] <= limit
  {
    if marks == [] || marks[0] > limit then 0 else 1 + Before(marks[1..], limit)
  }

  /** A restart from state i. */
  lemma RemembersBefore(s: seq<Disk>, i: nat, start: nat, accepted: seq<int64>, marks: seq<nat>, n: nat)
    requires start <= i < |s| && Marked(marks, accepted, |s|) && n == Before(marks, i + 1)
    ensures var t := s + [s[i]];
      Marked(marks[..n], accepted[..n], |t|) &&
      (Remembers(s, start, accepted, marks) ==> Remembers(t, |s|, accepted[..n], marks[..n]))
    ensures Remembers(s, start, accepted, marks) ==> forall k :: 0 <= k < n ==> Covers(s[i], accepted[k])
  {
  }

  /* ----- the binary over a stretch of states ----- */

  ghost function ReplacePaths(n: nat): set<Path> {
    ARM_PATHS + {Exe, ExePrev, Download(n)}
  }

  /** Content c is at the binary's path or beside it, now and in every state from the n-th. */
  ghost predicate Safe(s: seq<Disk>, n: nat, d: Disk, c: Content) {
    AllHold(s, n, c) && Holds(d, c)
  }

  predicate SameBinaries(d: Disk, e: Disk) {
    && At(e, Exe) == At(d, Exe) && At(e, ExePrev) == At(d, ExePrev)
    && At(e, Config) == At(d, Config) && At(e, ConfigPrev) == At(d, ConfigPrev)
  }

  lemma ReplacedAll(d0: Disk, d1: Disk, d2: Disk, p: Probation)
    requires SameBinaries(d0, d1)
    ensures ReplacedBy(d1, d2, p) ==> ReplacedBy(d0, d2, p)
    ensures At(d1, Exe) == At(d0, Exe)
  {
  }

  lemma SafeNow(s: seq<Disk>, d: Disk)
    ensures SameBinaries(d, d)
    ensures Exe in d ==> Safe(s, |s|, d, d[Exe])
  {
  }

  lemma SafeStays(s0: seq<Disk>, d0: Disk, s1: seq<Disk>, d1: Disk, s2: seq<Disk>, d2: Disk, ps: set<Path>)
    requires Grew(s1, d1, s2, d2, ps) && |s0| <= |s1| && SameBinaries(d0, d1)
    requires Exe !in ps && ExePrev !in ps && Config !in ps && ConfigPrev !in ps
    requires Exe in d0 ==> Safe(s1, |s0|, d1, d0[Exe])
    ensures |s0| <= |s2| && SameBinaries(d0, d2) && At(d2, Exe) == At(d0, Exe)
    ensures Exe in d0 ==> Safe(s2, |s0|, d2, d0[Exe])
  {
    GrewAt(s1, d1, s2, d2, ps, Exe);
    GrewAt(s1, d1, s2, d2, ps, ExePrev);
    GrewAt(s1, d1, s2, d2, ps, Config);
    GrewAt(s1, d1, s2, d2, ps, ConfigPrev);
  }

  lemma SafeJoins(s0: seq<Disk>, d0: Disk, s1: seq<Disk>, d1: Disk, s2: seq<Disk>, d2: Disk, ps: set<Path>)
    requires Grew(s1, d1, s2, d2, ps) && |s0| <= |s1| && SameBinaries(d0, d1)
    requires Exe in d0 ==> Safe(s1, |s0|, d1, d0[Exe]) && Safe(s2, |s1|, d2, d0[Exe])
    ensures Exe in d0 ==> Safe(s2, |s0|, d2, d0[Exe])
  {
    forall i | 0 <= i < |s1|
      ensures s2[i] == s1[i]
    {
      assert s2[..|s1|][i] == s2[i];
    }
  }

  /** Steps that touch neither the binary nor what is kept of it. */
  lemma QuietStage(s0: seq<Disk>, d0: Disk, s1: seq<Disk>, d1: Disk, s2: seq<Disk>, d2: Disk, ps: set<Path>, n: nat)
    requires Grew(s0, d0, s1, d1, ReplacePaths(n)) && Grew(s1, d1, s2, d2, ps)
    requires ps <= ReplacePaths(n) && Exe !in ps && ExePrev !in ps
    requires Exe in d0 ==> Safe(s1, |s0|, d1, d0[Exe])
    ensures Grew(s0, d0, s2, d2, ReplacePaths(n))
    ensures Exe in d0 ==> Safe(s2, |s0|, d2, d0[Exe])
  {
    GrewAt(s1, d1, s2, d2, ps, Exe);
    GrewAt(s1, d1, s2, d2, ps, ExePrev);
    GrewTrans(s0, d0, s1, d1, s2, d2, ReplacePaths(n), ps, ReplacePaths(n));
  }

  lemma ArmStage(s0: seq<Disk>, d0: Disk, s1: seq<Disk>, d1: Disk, n: nat)
    requires Grew(s0, d0, s1, d1, ARM_PATHS)
    ensures Grew(s0, d0, s1, d1, ReplacePaths(n)) && (Exe in d0 ==> Safe(s1, |s0|, d1, d0[Exe]))
    ensures At(d1, Exe) == At(d0, Exe) && At(d1, Download(n)) == At(d0, Download(n))
  {
    GrewNot(s0, d0, ReplacePaths(n));
    QuietStage(s0, d0, s0, d0, s1, d1, ARM_PATHS, n);
  }

  lemma SwapStage(s0: seq<Disk>, d0: Disk, s1: seq<Disk>, d1: Disk, s2: seq<Disk>, d2: Disk, n: nat)
    requires Grew(s0, d0, s1, d1, ReplacePaths(n)) && Grew(s1, d1, s2, d2, SwapPaths(n))
    requires At(d1, Exe) == At(d0, Exe) && (Exe in d0 ==> Safe(s1, |s0|, d1, d0[Exe]))
    requires Exe in d1 ==> Holds(d2, d1[Exe]) && AllHold(s2, |s1|, d1[Exe])
    ensures Grew(s0, d0, s2, d2, ReplacePaths(n)) && (Exe in d0 ==> Safe(s2, |s0|, d2, d0[Exe]))
    ensures At(d2, Record) == At(d1, Record) && At(d2, ConfigPrev) == At(d1, ConfigPrev)
  {
    GrewAt(s1, d1, s2, d2, SwapPaths(n), Record);
    GrewTrans(s0, d0, s1, d1, s2, d2, ReplacePaths(n), SwapPaths(n), ReplacePaths(n));
  }

  /** A revert finds what it needs. */
  predicate Undoable(d: Disk) {
    RecordIn(d).Armed? && ExePrev in d && Exe in d
  }

  predicate Ends(s: seq<int64>, n: int64) {
    s != [] && s[|s| - 1] == n
  }

  /** An update, the new binary rewriting the config, and a revert: the host is back where it was, and what
      it accepted still counts. */
  method RunThenRevert(u: Updater, b: Build, d: Desired, now: int, busy: bool, config: Content)
    returns (s: Status, r: Outcome, saw: bool)
    requires u.Valid()
    modifies u`accepted, u`marks, u`blind, u`calls, u.fs
    ensures u.Valid() && old(u.accepted) <= u.accepted
    ensures s.Applied? && r.Restored? ==> At(u.fs.disk, Exe) == At(old(u.fs.disk), Exe)
    ensures s.Applied? && r.Restored? && saw && Config in old(u.fs.disk) ==>
      At(u.fs.disk, Config) == At(old(u.fs.disk), Config)
    ensures old(u.fs.Calm()) && s.Applied? ==>
      && r.Restored? && At(u.fs.disk, Exe) == At(old(u.fs.disk), Exe)
      && (Config in old(u.fs.disk) ==> At(u.fs.disk, Config) == At(old(u.fs.disk), Config))
  {
    hide Safe, Rises, ReplacedBy, RevertedBy, KeptAlone, Declared, Covers, Undoable, Prefix;
    ghost var d0 := u.fs.disk;
    var p;
    s, p := u.Run(b, d, now, busy);
    ghost var d1 := u.fs.disk;
    u.Rewrite(config);
    ghost var d2 := u.fs.disk;
    if s.Applied? {
      assert Exe in d1;
      ReplacedUndoable(d0, d1, d2, p);
    }
    r, saw := u.Undo();
    if s.Applied? && r.Restored? {
      RevertUndoes(d0, d1, d2, u.fs.disk, p, saw);
      RevertsSeen(d2, u.fs.disk, saw);
    }
  }

  lemma ReplacedUndoable(d0: Disk, d1: Disk, d2: Disk, p: Probation)
    requires ReplacedBy(d0, d1, p) && Exe in d1 && KeptAlone(d1, d2)
    requires At(d2, Exe) == At(d1, Exe) && At(d2, Record) == At(d1, Record)
    ensures Undoable(d2) && (Config in d0 ==> ConfigPrev in d2)
  {
  }

  lemma RevertsSeen(d: Disk, e: Disk, saw: bool)
    requires RevertedBy(d, e, saw)
    ensures saw ==> ConfigPrev in d
  {
  }

  const OLD_FILE := Artifact("linux", "amd64", "00", 1, "u")
  const OLD_MANIFEST := Manifest(3, map["1.0.0" := [OLD_FILE]])

  /** The same old manifest on two hosts that have accepted sequence 9: refused by the one that can read its
      floor, accepted by the one whose floor file is spoilt. */
  method ReplayWhenUnreadable() returns (readable: Judged, spoilt: Judged)
    ensures readable == Refused(Stale) && spoilt == Accepted(OLD_MANIFEST, OLD_FILE)
  {
    hide Grew, Rises, Remembers, Marked, Covers, Tidy, SameBut;
    var b := Build("2.0.0", "linux", "amd64", 1, "", "", false, 0,
      v => true, (v, w) => 0, (body, env, now) => Trusted(OLD_MANIFEST));
    assert First(OLD_MANIFEST.versions["1.0.0"], "linux", "amd64", 0);
    assert Lists(OLD_MANIFEST, "1.0.0", "linux", "amd64", OLD_FILE);
    var fs := new FileSystem(k => true, (p, k) => true, k => [], map[Floor := FloorOf(9)], 0);
    var u := new Updater(fs, bytes => "00", (k, from) => None, k => 0);
    readable := u.Accept(b, "1.0.0", 0, [], []);
    fs := new FileSystem(k => true, (p, k) => true, k => [], map[Floor := Raw([])], 0);
    u := new Updater(fs, bytes => "00", (k, from) => None, k => 0);
    assert u.Passes(b, "1.0.0", 0, [], [], OLD_FILE, fs.disk);
    spoilt := u.Accept(b, "1.0.0", 0, [], []);
  }
}

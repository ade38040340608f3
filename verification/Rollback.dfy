/** What an update leaves behind so that it can be undone: the record, the kept config and the kept
    binary; the swap itself; and the revert that puts both back. */
module Rollback {
  import opened Wrappers
  import opened Release
  import opened Files

  datatype Loaded = NoRecord | Unreadable | Armed(p: Probation)

  function RecordIn(d: Disk): Loaded {
    match At(d, Record)
    case None => NoRecord
    case Some(RecordOf(p)) => Armed(p)
    case _ => Unreadable
  }

  /** The highest accepted sequence: 0 when there is no file, nothing when the file cannot be read. */
  function FloorIn(d: Disk): Option<int64> {
    match At(d, Floor)
    case None => Some(0)
    case Some(FloorOf(n)) => Some(n)
    case _ => None
  }

  method LoadProbation(fs: FileSystem) returns (r: Loaded)
    requires fs.Valid()
    modifies fs`op
    ensures fs.Valid() && fs.op == old(fs.op) + 1
    ensures r == if Record !in fs.disk then NoRecord
                 else if old(fs.sees(Record, fs.op)) then RecordIn(fs.disk) else Unreadable
  {
    var ok := fs.Stat(Record);
    r := if Record !in fs.disk then NoRecord else if ok then RecordIn(fs.disk) else Unreadable;
  }

  method LoadSequence(fs: FileSystem) returns (r: Option<int64>)
    requires fs.Valid()
    modifies fs`op
    ensures fs.Valid() && fs.op == old(fs.op) + 1
    ensures r == if Floor !in fs.disk then Some(0) else if old(fs.sees(Floor, fs.op)) then FloorIn(fs.disk) else None
  {
    var ok := fs.Stat(Floor);
    r := if Floor !in fs.disk then Some(0) else if ok then FloorIn(fs.disk) else None;
  }

  /** Raises the floor. It is lowered only where the old one cannot be read. */
  method SaveSequence(fs: FileSystem, n: int64) returns (ok: bool)
    requires fs.Valid()
    modifies fs
    ensures fs.Valid() && fs.Only({Floor, Aside(Floor)}) && fs.Whole(Floor, FloorOf(n))
    ensures !ok ==> fs.Only({Aside(Floor)})
    ensures ok ==> FloorIn(fs.disk).Some? && FloorIn(fs.disk).value >= n
    ensures old(fs.sees(Floor, fs.op)) && FloorIn(old(fs.disk)).Some? ==>
      forall i :: |old(fs.seen)| <= i < |fs.seen| ==>
        FloorIn(fs.seen[i]).Some? && FloorIn(fs.seen[i]).value >= FloorIn(old(fs.disk)).value
    ensures old(fs.Calm()) ==> ok
  {
    var cur := LoadSequence(fs);
    if cur.Some? && n < cur.value {
      return true;
    }
    ok := fs.WriteFileSync(Floor, FloorOf(n));
    forall i | |old(fs.seen)| <= i < |fs.seen| && old(fs.sees(Floor, fs.op)) && FloorIn(old(fs.disk)).Some?
      ensures FloorIn(fs.seen[i]).Some? && FloorIn(fs.seen[i]).value >= FloorIn(old(fs.disk)).value
    {
      assert At(fs.seen[i], Floor) == At(old(fs.disk), Floor) || At(fs.seen[i], Floor) == Some(FloorOf(n));
    }
  }

  method ClearProbation(fs: FileSystem) returns (ok: bool)
    requires fs.Valid()
    modifies fs
    ensures fs.Valid() && fs.Only({Record})
    ensures ok ==> Record !in fs.disk
    ensures old(fs.Calm()) ==> Record !in fs.disk
  {
    ok := fs.Remove(Record);
  }

  /* ----- arming and swapping ----- */

  /** Everything a revert needs is on the disk: the record, and the config if there is one. */
  predicate ArmedBy(d: Disk, e: Disk, p: Probation) {
    At(e, Record) == Some(RecordOf(p)) && ConfigKept(d, e)
  }

  predicate ConfigKept(d: Disk, e: Disk) {
    At(e, ConfigPrev) == if Config in d then At(d, Config) else At(d, ConfigPrev)
  }

  ghost const ARM_PATHS := {ExeBad, ConfigPrev, Aside(ConfigPrev), Record, Aside(Record)}

  ghost const KEEP_PATHS := {ExeBad, ConfigPrev, Aside(ConfigPrev)}

  /** Drops a binary that an earlier revert put aside, and keeps a copy of the config. */
  method KeepConfig(fs: FileSystem) returns (ok: bool)
    requires fs.Valid()
    modifies fs
    ensures fs.Valid() && fs.Only(KEEP_PATHS)
    ensures ok ==> ConfigKept(old(fs.disk), fs.disk)
    ensures old(fs.Calm()) ==> ok
  {
    hide Grew, Prefix, SameBut;
    ghost var s0, d0 := fs.seen, fs.disk;
    var _ := fs.Remove(ExeBad);
    ghost var s1, d1 := fs.seen, fs.disk;
    GrewAt(s0, d0, s1, d1, {ExeBad}, Config);
    GrewAt(s0, d0, s1, d1, {ExeBad}, ConfigPrev);
    var kept := fs.CopyFile(Config, ConfigPrev);
    GrewTrans(s0, d0, s1, d1, fs.seen, fs.disk, {ExeBad}, {ConfigPrev, Aside(ConfigPrev)}, KEEP_PATHS);
    ok := !kept.Broken?;
  }

  /** Neither binary is touched, and the record never appears before the config is kept. It counts as armed
      only once the record has been read back. */
  method Arm(fs: FileSystem, p: Probation) returns (ok: bool)
    requires fs.Valid()
    modifies fs
    ensures fs.Valid() && fs.Only(ARM_PATHS)
    ensures ok ==> ArmedBy(old(fs.disk), fs.disk, p) && fs.op > 0 && fs.sees(Record, fs.op - 1)
    ensures forall i :: |old(fs.seen)| <= i < |fs.seen| ==>
      At(fs.seen[i], Record) == At(old(fs.disk), Record) || ConfigKept(old(fs.disk), fs.seen[i])
    ensures old(fs.Calm()) ==> ok
  {
    hide Grew;
    ghost var s0, d0 := fs.seen, fs.disk;
    GrewNot(s0, d0, ARM_PATHS);
    var kept := KeepConfig(fs);
    ghost var s2, d2 := fs.seen, fs.disk;
    GrewAt(s0, d0, s2, d2, KEEP_PATHS, Record);
    GrewTrans(s0, d0, s0, d0, s2, d2, ARM_PATHS, KEEP_PATHS, ARM_PATHS);
    if !kept {
      return false;
    }
    ok := fs.WriteFileSync(Record, RecordOf(p));
    GrewAt(s2, d2, fs.seen, fs.disk, {Record, Aside(Record)}, ConfigPrev);
    GrewTrans(s0, d0, s2, d2, fs.seen, fs.disk, ARM_PATHS, {Record, Aside(Record)}, ARM_PATHS);
    if !ok {
      return;
    }
    var got := LoadProbation(fs);
    ok := got.Armed? && got.p.to == p.to;
  }

  datatype Swapping = Swapped | PutBack | Stranded

  /** Content c is at the binary's path or beside it. */
  predicate Holds(d: Disk, c: Content) {
    At(d, Exe) == Some(c) || At(d, ExePrev) == Some(c)
  }

  predicate SwappedBy(d: Disk, e: Disk, n: nat) {
    && Exe in d && At(e, ExePrev) == At(d, Exe)
    && Download(n) in d && At(e, Exe) == At(d, Download(n))
  }

  /** Content c is at the binary's path or beside it in every state from the n-th. */
  ghost predicate AllHold(s: seq<Disk>, n: nat, c: Content) {
    forall i :: n <= i < |s| ==> Holds(s[i], c)
  }

  /** One more file operation on the given paths, after which c is still held. */
  lemma HeldOn(s0: seq<Disk>, d0: Disk, s1: seq<Disk>, d1: Disk, d2: Disk, qs: set<Path>, all: set<Path>, c: Content)
    requires Grew(s0, d0, s1, d1, all) && Grew(s1, d1, s1 + [d2], d2, qs) && qs <= all
    ensures Grew(s0, d0, s1 + [d2], d2, all)
    ensures AllHold(s1, |s0|, c) && Holds(d2, c) ==> AllHold(s1 + [d2], |s0|, c)
  {
    GrewTrans(s0, d0, s1, d1, s1 + [d2], d2, all, qs, all);
  }

  lemma HeldNow(s: seq<Disk>, d: Disk, ps: set<Path>, c: Content)
    ensures Grew(s, d, s, d, ps) && AllHold(s, |s|, c)
  {
  }

  ghost function SwapPaths(n: nat): set<Path> {
    {Exe, ExePrev, Download(n)}
  }

  /** The bytes of the running binary are never lost, whichever operation fails or is the last one. */
  method Swap(fs: FileSystem, n: nat) returns (r: Swapping)
    requires fs.Valid()
    modifies fs
    ensures fs.Valid() && fs.Only(SwapPaths(n))
    ensures Exe in old(fs.disk) ==> Holds(fs.disk, old(fs.disk)[Exe])
    ensures Exe in old(fs.disk) ==> AllHold(fs.seen, |old(fs.seen)|, old(fs.disk)[Exe])
    ensures r.Swapped? ==> SwappedBy(old(fs.disk), fs.disk, n) && Download(n) !in fs.disk
    ensures r.PutBack? ==> At(fs.disk, Exe) == At(old(fs.disk), Exe)
    ensures r.Stranded? ==> Exe in old(fs.disk) && Exe !in fs.disk
    ensures old(fs.Calm()) && Exe in old(fs.disk) && Download(n) in old(fs.disk) ==> r.Swapped?
  {
    hide Grew, AllHold, Prefix, Tidy, SameBut;
    ghost var s0, d0, all := fs.seen, fs.disk, SwapPaths(n);
    ghost var c := if Exe in fs.disk then fs.disk[Exe] else Raw([]);
    HeldNow(s0, d0, all, c);
    var _ := fs.Remove(ExePrev);
    ghost var s1, d1 := fs.seen, fs.disk;
    HeldOn(s0, d0, s0, d0, d1, {ExePrev}, all, c);
    var moved := fs.Rename(Exe, ExePrev);
    ghost var s2, d2 := fs.seen, fs.disk;
    HeldOn(s0, d0, s1, d1, d2, {Exe, ExePrev}, all, c);
    if !moved {
      return PutBack;
    }
    var installed := fs.Rename(Download(n), Exe);
    ghost var s3, d3 := fs.seen, fs.disk;
    HeldOn(s0, d0, s2, d2, d3, {Download(n), Exe}, all, c);
    if installed {
      return Swapped;
    }
    var back := fs.Rename(ExePrev, Exe);
    HeldOn(s0, d0, s3, d3, fs.disk, {ExePrev, Exe}, all, c);
    r := if back then PutBack else Stranded;
  }

  /* ----- reverting ----- */

  datatype Outcome = NothingToRevert | NoPrevious | ConfigFailed | AsideFailed | BadPutBack | BadStranded | Restored

  /** The config a revert leaves: the kept one if it was seen, otherwise what is there. */
  function ConfigAfter(d: Disk, saw: bool): Option<Content> {
    if saw then At(d, ConfigPrev) else At(d, Config)
  }

  predicate RevertedBy(d: Disk, e: Disk, saw: bool) {
    && RecordIn(d).Armed? && ExePrev in d && At(e, Exe) == At(d, ExePrev) && ExePrev !in e
    && Exe in d && At(e, ExeBad) == At(d, Exe)
    && At(e, Config) == ConfigAfter(d, saw) && (saw ==> ConfigPrev in d)
  }

  /** One state inside a revert: both binaries are still there, and the previous one is never at the
      binary's path before its config is. */
  predicate Reverting(d: Disk, s: Disk, saw: bool)
    requires ExePrev in d
  {
    && Holds(s, d[ExePrev])
    && (Exe in d ==> At(s, Exe) == At(d, Exe) || At(s, ExeBad) == At(d, Exe))
    && (ExePrev !in s ==> At(s, Config) == ConfigAfter(d, saw))
  }

  /** Copies the kept config back, if it sees one. */
  method RestoreConfig(fs: FileSystem) returns (ok: bool, saw: bool)
    requires fs.Valid()
    modifies fs
    ensures fs.Valid() && fs.Only({Config, Aside(Config)})
    ensures saw ==> ConfigPrev in old(fs.disk)
    ensures ok ==> At(fs.disk, Config) == ConfigAfter(old(fs.disk), saw)
    ensures old(fs.Calm()) ==> ok && saw == (ConfigPrev in old(fs.disk))
  {
    saw := fs.Stat(ConfigPrev);
    ok := true;
    if saw {
      var c := fs.CopyFile(ConfigPrev, Config);
      ok := c.Done?;
    }
  }

  /** One state while the binaries change places: neither is lost. */
  predicate Switching(d: Disk, s: Disk)
    requires ExePrev in d
  {
    Holds(s, d[ExePrev]) && (Exe in d ==> At(s, Exe) == At(d, Exe) || At(s, ExeBad) == At(d, Exe))
  }

  /** Every state from the n-th is one of these. */
  ghost predicate AllSwitching(s: seq<Disk>, n: nat, d: Disk)
    requires ExePrev in d
  {
    forall i :: n <= i < |s| ==> Switching(d, s[i])
  }

  ghost predicate AllPrev(s: seq<Disk>, n: nat) {
    forall i :: n <= i < |s| ==> ExePrev in s[i]
  }

  lemma SwitchingOn(s0: seq<Disk>, d0: Disk, s1: seq<Disk>, d1: Disk, d2: Disk, qs: set<Path>)
    requires ExePrev in d0 && Grew(s0, d0, s1, d1, BINARY_PATHS) && Grew(s1, d1, s1 + [d2], d2, qs)
    requires qs <= BINARY_PATHS
    ensures Grew(s0, d0, s1 + [d2], d2, BINARY_PATHS)
    ensures AllSwitching(s1, |s0|, d0) && Switching(d0, d2) ==> AllSwitching(s1 + [d2], |s0|, d0)
    ensures (s1 + [d2])[..|s1|] == s1 && (AllPrev(s1, |s0|) && ExePrev in d2 ==> AllPrev(s1 + [d2], |s0|))
  {
    GrewTrans(s0, d0, s1, d1, s1 + [d2], d2, BINARY_PATHS, qs, BINARY_PATHS);
  }

  lemma SwitchingNow(s: seq<Disk>, d: Disk)
    requires ExePrev in d
    ensures Grew(s, d, s, d, BINARY_PATHS) && AllSwitching(s, |s|, d) && AllPrev(s, |s|)
  {
  }

  /** Moves the failed binary aside and the previous one into its place. Not a swap: the previous binary
      is the source here, so it must not be renamed over. */
  method SwitchBack(fs: FileSystem) returns (r: Outcome)
    requires fs.Valid() && ExePrev in fs.disk
    modifies fs
    ensures fs.Valid() && fs.Only(BINARY_PATHS) && |old(fs.seen)| < |fs.seen|
    ensures AllSwitching(fs.seen, |old(fs.seen)|, old(fs.disk))
    ensures r.Restored? <==> ExePrev !in fs.disk
    ensures r.Restored? ==>
      && Exe in old(fs.disk)
      && At(fs.disk, Exe) == At(old(fs.disk), ExePrev) && At(fs.disk, ExeBad) == At(old(fs.disk), Exe)
    ensures r in {AsideFailed, BadPutBack, BadStranded, Restored}
    ensures r in {AsideFailed, BadPutBack} ==> At(fs.disk, Exe) == At(old(fs.disk), Exe)
    ensures r.BadStranded? ==> Exe !in fs.disk && Exe in old(fs.disk)
    ensures AllPrev(fs.seen[..|fs.seen| - 1], |old(fs.seen)|)
    ensures old(fs.Calm()) && Exe in old(fs.disk) ==> r.Restored?
  {
    hide Grew, AllSwitching, AllPrev;
    ghost var s0, d0 := fs.seen, fs.disk;
    SwitchingNow(s0, d0);
    var _ := fs.Remove(ExeBad);
    ghost var s1, d1 := fs.seen, fs.disk;
    SwitchingOn(s0, d0, s0, d0, d1, {ExeBad});
    var moved := fs.Rename(Exe, ExeBad);
    ghost var s2, d2 := fs.seen, fs.disk;
    SwitchingOn(s0, d0, s1, d1, d2, {Exe, ExeBad});
    if !moved {
      return AsideFailed;
    }
    var restored := fs.Rename(ExePrev, Exe);
    ghost var s3, d3 := fs.seen, fs.disk;
    SwitchingOn(s0, d0, s2, d2, d3, {ExePrev, Exe});
    if restored {
      return Restored;
    }
    var back := fs.Rename(ExeBad, Exe);
    SwitchingOn(s0, d0, s3, d3, fs.disk, {ExeBad, Exe});
    r := if back then BadPutBack else BadStranded;
  }

  /** Drops the record and the kept config, and leaves a note for the restored binary to report. */
  method CleanUp(fs: FileSystem, p: Probation)
    requires fs.Valid()
    modifies fs
    ensures fs.Valid() && fs.Only(CLEAN_PATHS)
    ensures old(fs.Calm()) ==> At(fs.disk, Record).None? && At(fs.disk, ConfigPrev).None?
    ensures At(fs.disk, Note) in {At(old(fs.disk), Note), Some(NoteOf(p))}
    ensures old(fs.Calm()) ==> At(fs.disk, Note) == Some(NoteOf(p))
  {
    hide Grew;
    ghost var s0, d0 := fs.seen, fs.disk;
    var _ := fs.Remove(Record);
    ghost var s1, d1 := fs.seen, fs.disk;
    GrewAt(s0, d0, s1, d1, {Record}, Note);
    var _ := fs.Remove(ConfigPrev);
    ghost var s2, d2 := fs.seen, fs.disk;
    GrewAt(s1, d1, s2, d2, {ConfigPrev}, Note);
    var _ := fs.WriteFileSync(Note, NoteOf(p));
    GrewAt(s2, d2, fs.seen, fs.disk, {Note, Aside(Note)}, Record);
    GrewAt(s2, d2, fs.seen, fs.disk, {Note, Aside(Note)}, ConfigPrev);
    GrewTrans(s1, d1, s2, d2, fs.seen, fs.disk, {ConfigPrev}, {Note, Aside(Note)}, CLEAN_PATHS);
    GrewTrans(s0, d0, s1, d1, fs.seen, fs.disk, {Record}, CLEAN_PATHS, CLEAN_PATHS);
  }

  ghost const CONFIG_PATHS := {Config, Aside(Config)}
  ghost const BINARY_PATHS := {Exe, ExeBad, ExePrev}
  ghost const CLEAN_PATHS := {Record, ConfigPrev, Note, Aside(Note)}
  ghost const REVERT_PATHS := CONFIG_PATHS + BINARY_PATHS + CLEAN_PATHS

  ghost predicate AllReverting(s: seq<Disk>, n: nat, d: Disk, saw: bool)
    requires ExePrev in d
  {
    forall i :: n <= i < |s| ==> Reverting(d, s[i], saw)
  }

  lemma ConfigStage(s0: seq<Disk>, d0: Disk, s1: seq<Disk>, d1: Disk, saw: bool)
    requires ExePrev in d0 && Grew(s0, d0, s1, d1, CONFIG_PATHS)
    ensures AllReverting(s1, |s0|, d0, saw) && At(d1, Exe) == At(d0, Exe) && At(d1, ExePrev) == At(d0, ExePrev)
    ensures Grew(s0, d0, s1, d1, REVERT_PATHS)
  {
    GrewAt(s0, d0, s1, d1, CONFIG_PATHS, Exe);
    GrewAt(s0, d0, s1, d1, CONFIG_PATHS, ExePrev);
  }

  lemma BinaryStage(s0: seq<Disk>, d0: Disk, s1: seq<Disk>, d1: Disk, s2: seq<Disk>, d2: Disk, saw: bool)
    requires ExePrev in d0 && Grew(s0, d0, s1, d1, REVERT_PATHS) && AllReverting(s1, |s0|, d0, saw)
    requires At(d1, Exe) == At(d0, Exe) && At(d1, ExePrev) == At(d0, ExePrev)
    requires At(d1, Config) == ConfigAfter(d0, saw)
    requires Grew(s1, d1, s2, d2, BINARY_PATHS) && ExePrev in d1 && AllSwitching(s2, |s1|, d1)
    ensures AllReverting(s2, |s0|, d0, saw) && Grew(s0, d0, s2, d2, REVERT_PATHS)
    ensures At(d2, Config) == ConfigAfter(d0, saw)
  {
    GrewAt(s1, d1, s2, d2, BINARY_PATHS, Config);
    GrewTrans(s0, d0, s1, d1, s2, d2, REVERT_PATHS, BINARY_PATHS, REVERT_PATHS);
  }

  lemma CleanStage(s0: seq<Disk>, d0: Disk, s2: seq<Disk>, d2: Disk, s3: seq<Disk>, d3: Disk, saw: bool)
    requires RevertedBy(d0, d2, saw) && Grew(s0, d0, s2, d2, REVERT_PATHS) && AllReverting(s2, |s0|, d0, saw)
    requires Grew(s2, d2, s3, d3, CLEAN_PATHS)
    ensures AllReverting(s3, |s0|, d0, saw) && Grew(s0, d0, s3, d3, REVERT_PATHS) && RevertedBy(d0, d3, saw)
  {
    GrewAt(s2, d2, s3, d3, CLEAN_PATHS, Exe);
    GrewAt(s2, d2, s3, d3, CLEAN_PATHS, ExePrev);
    GrewAt(s2, d2, s3, d3, CLEAN_PATHS, ExeBad);
    GrewAt(s2, d2, s3, d3, CLEAN_PATHS, Config);
    GrewTrans(s0, d0, s2, d2, s3, d3, REVERT_PATHS, CLEAN_PATHS, REVERT_PATHS);
  }

  /** Puts the previous config and then the previous binary back. `saw` is whether it saw a kept config. */
  method Revert(fs: FileSystem) returns (r: Outcome, saw: bool)
    requires fs.Valid()
    modifies fs
    ensures fs.Valid() && fs.Only(REVERT_PATHS)
    ensures r.NothingToRevert? || r.NoPrevious? ==> fs.disk == old(fs.disk)
    ensures !RecordIn(old(fs.disk)).Armed? ==> r.NothingToRevert?
    ensures ExePrev !in old(fs.disk) ==> r.NothingToRevert? || r.NoPrevious?
    ensures ExePrev in old(fs.disk) ==> AllReverting(fs.seen, |old(fs.seen)|, old(fs.disk), saw)
    ensures r.Restored? ==> RevertedBy(old(fs.disk), fs.disk, saw)
    ensures old(fs.Calm()) && RecordIn(old(fs.disk)).Armed? && ExePrev in old(fs.disk) && Exe in old(fs.disk) ==>
      r.Restored? && saw == (ConfigPrev in old(fs.disk)) && Record !in fs.disk && ConfigPrev !in fs.disk
    ensures old(fs.Calm()) && r.Restored? ==> At(fs.disk, Note) == Some(NoteOf(RecordIn(old(fs.disk)).p))
  {
    hide Grew, Reverting, Switching;
    saw := false;
    var p := LoadProbation(fs);
    if !p.Armed? {
      GrewNot(fs.seen, fs.disk, REVERT_PATHS);
      return NothingToRevert, saw;
    }
    var there := fs.Stat(ExePrev);
    if !there {
      GrewNot(fs.seen, fs.disk, REVERT_PATHS);
      return NoPrevious, saw;
    }
    ghost var s0, d0 := fs.seen, fs.disk;
    var configured;
    configured, saw := RestoreConfig(fs);
    ghost var s1, d1 := fs.seen, fs.disk;
    ConfigStage(s0, d0, s1, d1, saw);
    if !configured {
      return ConfigFailed, saw;
    }
    r := SwitchBack(fs);
    ghost var s2, d2 := fs.seen, fs.disk;
    BinaryStage(s0, d0, s1, d1, s2, d2, saw);
    if !r.Restored? {
      return;
    }
    CleanUp(fs, p.p);
    CleanStage(s0, d0, s2, d2, fs.seen, fs.disk, saw);
  }

  /* ----- what a revert undoes ----- */

  /** Between the swap and the revert the new binary ran: it may have changed any file but the kept
      binary and the kept config. */
  predicate KeptAlone(d: Disk, e: Disk) {
    At(e, ExePrev) == At(d, ExePrev) && At(e, ConfigPrev) == At(d, ConfigPrev)
  }

  /** A completed update: armed, and the binary that stood there is the one kept. */
  predicate ReplacedBy(d: Disk, e: Disk, p: Probation) {
    ArmedBy(d, e, p) && Exe in d && At(e, ExePrev) == At(d, Exe)
  }

  /** A revert of a completed update restores the binary that stood at Arm. The config comes back too, just
      when there was one at Arm or nothing could be mistaken for one: no stale copy, none newly written. */
  lemma RevertUndoes(d0: Disk, d1: Disk, d2: Disk, d3: Disk, p: Probation, saw: bool)
    requires ReplacedBy(d0, d1, p) && KeptAlone(d1, d2) && RevertedBy(d2, d3, saw)
    ensures At(d3, Exe) == At(d0, Exe) && At(d3, ExeBad) == At(d2, Exe)
    ensures saw == (ConfigPrev in d2) ==>
      (At(d3, Config) == At(d0, Config) <==> Config in d0 || (ConfigPrev !in d0 && Config !in d2))
    ensures saw != (ConfigPrev in d2) ==> At(d3, Config) == At(d2, Config)
  {
  }

  /** A revert of a swap that never happened: the record was armed and the process ended there. It
      installs the older binary, so it restores what stood at Arm only if the two are the same. */
  lemma RevertWithoutSwap(d0: Disk, armed: Disk, d1: Disk, p: Probation, saw: bool)
    requires ArmedBy(d0, armed, p) && SameBut(d0, armed, ARM_PATHS) && RevertedBy(armed, d1, saw)
    ensures At(d1, Exe) == At(d0, Exe) <==> At(d0, ExePrev) == At(d0, Exe)
    ensures At(d1, ExeBad) == At(d0, Exe)
  {
    assert At(armed, ExePrev) == At(d0, ExePrev);
    assert At(armed, Exe) == At(d0, Exe);
  }

  /** Such a run: the second update of a host ends between Arm and the swap, and a revert, by hand or once
      the deadline is past without a poll that clears the record, goes back to the binary from before the
      first update. */
  method CrashAfterArm(p: Probation) returns (atArm: Option<Content>, r: Outcome, after: Option<Content>)
    ensures atArm == Some(Raw([2])) && r.Restored? && after == Some(Raw([1]))
  {
    hide Grew;
    var fs := new FileSystem(k => true, (p, k) => true, k => [],
      map[Exe := Raw([2]), ExePrev := Raw([1]), Config := Raw([])], 0);
    atArm := At(fs.disk, Exe);
    ghost var s0, d0 := fs.seen, fs.disk;
    var armed := Arm(fs, p);
    GrewAt(s0, d0, fs.seen, fs.disk, ARM_PATHS, Exe);
    GrewAt(s0, d0, fs.seen, fs.disk, ARM_PATHS, ExePrev);
    assert fs.Calm();
    var saw;
    r, saw := Revert(fs);
    after := At(fs.disk, Exe);
  }

  /** A run in which the config does not come back: there was none at Arm, and the copy that an earlier
      update kept is taken for it. */
  method StaleConfigRestored(p: Probation) returns (atArm: Option<Content>, r: Outcome, after: Option<Content>)
    ensures atArm == None && r.Restored? && after == Some(Raw([9]))
  {
    hide Grew, AllHold, AllReverting;
    var fs := new FileSystem(k => true, (p, k) => true, k => [],
      map[Exe := Raw([2]), Download(0) := Raw([3]), ConfigPrev := Raw([9])], 1);
    atArm := At(fs.disk, Config);
    ghost var s0, d0 := fs.seen, fs.disk;
    var armed := Arm(fs, p);
    ghost var s1, d1 := fs.seen, fs.disk;
    GrewAt(s0, d0, s1, d1, ARM_PATHS, Exe);
    GrewAt(s0, d0, s1, d1, ARM_PATHS, Download(0));
    assert fs.Calm();
    var swapped := Swap(fs, 0);
    GrewAt(s1, d1, fs.seen, fs.disk, SwapPaths(0), Record);
    GrewAt(s1, d1, fs.seen, fs.disk, SwapPaths(0), ConfigPrev);
    assert fs.Calm();
    var saw;
    r, saw := Revert(fs);
    after := At(fs.disk, Config);
  }
}

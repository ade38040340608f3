/** The agent's files: a small map from paths to contents whose every operation may fail, and which
    remembers every state the disk went through, so that a crash can be looked at after any step. */
module Files {
  import opened Wrappers
  import opened Release

  /** The binary and its two companions, the state files, `.tmp` beside any of them, and downloads. */
  datatype Path =
    | Exe | ExePrev | ExeBad | Config | ConfigPrev | Record | Floor | Note
    | Aside(of: Path) | Download(n: nat)

  datatype Probation = Probation(from: string, to: string, sequence: int64, deadline: int)

  /** A file's bytes. What this program wrote as a record is read back as that record; anything else,
      also a record cut short, is bytes. */
  datatype Content = Raw(bytes: Bytes) | RecordOf(p: Probation) | FloorOf(n: int64) | NoteOf(p: Probation)

  type Disk = map<Path, Content>

  /** No download has a name that is still to be given out. */
  ghost predicate Tidy(d: Disk, op: nat) {
    forall n: nat :: Download(n) in d ==> n < op
  }

  function At(d: Disk, p: Path): Option<Content> {
    if p in d then Some(d[p]) else None
  }

  /** The disks agree on every path outside `ps`. */
  ghost predicate SameBut(d: Disk, e: Disk, ps: set<Path>) {
    forall p :: p !in ps ==> At(d, p) == At(e, p)
  }

  ghost predicate Prefix(s: seq<Disk>, t: seq<Disk>) {
    |s| <= |t| && t[..|s|] == s
  }

  /** History s1 continues s0, and from disk d0 on nothing outside `ps` ever changed. */
  ghost predicate Grew(s0: seq<Disk>, d0: Disk, s1: seq<Disk>, d1: Disk, ps: set<Path>) {
    && Prefix(s0, s1) && SameBut(d0, d1, ps)
    && forall i :: |s0| <= i < |s1| ==> SameBut(d0, s1[i], ps)
  }

  lemma GrewNot(s: seq<Disk>, d: Disk, ps: set<Path>)
    ensures Grew(s, d, s, d, ps)
  {
  }

  lemma GrewTrans(s0: seq<Disk>, d0: Disk, s1: seq<Disk>, d1: Disk, s2: seq<Disk>, d2: Disk,
                  ps: set<Path>, qs: set<Path>, all: set<Path>)
    requires Grew(s0, d0, s1, d1, ps) && Grew(s1, d1, s2, d2, qs) && ps <= all && qs <= all
    ensures Grew(s0, d0, s2, d2, all)
  {
    assert s2[..|s0|] == s2[..|s1|][..|s0|];
    forall i | |s0| <= i < |s2|
      ensures SameBut(d0, s2[i], all)
    {
      if i < |s1| {
        assert s2[i] == s2[..|s1|][i] == s1[i];
      }
    }
  }

  lemma GrewAt(s0: seq<Disk>, d0: Disk, s1: seq<Disk>, d1: Disk, ps: set<Path>, p: Path)
    requires Grew(s0, d0, s1, d1, ps) && p !in ps
    ensures At(d1, p) == At(d0, p) && forall i :: |s0| <= i < |s1| ==> At(s1[i], p) == At(d0, p)
    ensures |s0| <= |s1| && forall i :: 0 <= i < |s0| ==> s1[i] == s0[i]
  {
    GrewPast(s0, d0, s1, d1, ps);
  }

  lemma GrewPast(s0: seq<Disk>, d0: Disk, s1: seq<Disk>, d1: Disk, ps: set<Path>)
    requires Grew(s0, d0, s1, d1, ps)
    ensures |s0| <= |s1| && forall i :: 0 <= i < |s0| ==> s1[i] == s0[i]
  {
    assert forall i :: 0 <= i < |s0| ==> s1[..|s0|][i] == s1[i];
  }

  /** Since there were n states and the disk was d, path p held what it held then or all of `c`. */
  ghost predicate HeldWhole(n: nat, d: Disk, s: seq<Disk>, e: Disk, p: Path, c: Content) {
    && n <= |s| && (At(e, p) == At(d, p) || At(e, p) == Some(c))
    && forall i :: n <= i < |s| ==> At(s[i], p) == At(d, p) || At(s[i], p) == Some(c)
  }

  ghost function Downloads(n: nat): set<Path> {
    set k: nat | k < n :: Download(k)
  }

  datatype Copied = Done | Missing | Broken

  class FileSystem {
    /** Whether operation k works, whether it can see what is at a path, and what a write cut short leaves. */
    const works: nat -> bool
    const sees: (Path, nat) -> bool
    const scrap: nat -> Bytes
    var disk: Disk
    var op: nat
    var seen: seq<Disk>

    ghost predicate Valid()
      reads this
    {
      && seen != [] && seen[|seen| - 1] == disk
      && forall i :: 0 <= i < |seen| ==> Tidy(seen[i], op)
    }

    constructor (works: nat -> bool, sees: (Path, nat) -> bool, scrap: nat -> Bytes, disk: Disk, op: nat)
      requires Tidy(disk, op)
      ensures Valid() && this.disk == disk && this.works == works && this.sees == sees && this.seen == [disk]
    {
      this.works, this.sees, this.scrap := works, sees, scrap;
      this.disk, this.op, this.seen := disk, op, [disk];
    }

    /** No operation fails from here on unless its file is missing. */
    ghost predicate Calm()
      reads this
    {
      (forall k :: op <= k ==> works(k)) && forall p, k :: op <= k ==> sees(p, k)
    }

    /** Whatever else failed meanwhile, no look at this path did. */
    twostate predicate Saw(p: Path)
      reads this
    {
      forall k :: old(op) <= k < op ==> sees(p, k)
    }

    twostate predicate Only(ps: set<Path>)
      reads this
    {
      Prefix(old(seen), seen) && Grew(old(seen), old(disk), seen, disk, ps) && old(op) <= op
    }

    method Remove(p: Path) returns (ok: bool)
      requires Valid()
      modifies this
      ensures Valid() && seen == old(seen) + [disk] && op == old(op) + 1
      ensures ok == (old(works(op)) && p in old(disk))
      ensures disk == if ok then old(disk) - {p} else old(disk)
      ensures Only({p})
    {
      ok := works(op) && p in disk;
      if ok {
        disk := disk - {p};
      }
      seen, op := seen + [disk], op + 1;
    }

    /** One metadata operation: it happens whole or not at all, and replaces what was at `to`. */
    method Rename(from: Path, to: Path) returns (ok: bool)
      requires Valid() && !to.Download? && from != to
      modifies this
      ensures Valid() && seen == old(seen) + [disk] && op == old(op) + 1
      ensures ok == (old(works(op)) && from in old(disk))
      ensures disk == if ok then (old(disk) - {from})[to := old(disk)[from]] else old(disk)
      ensures Only({from, to})
    {
      ok := works(op) && from in disk;
      if ok {
        disk := (disk - {from})[to := disk[from]];
      }
      seen, op := seen + [disk], op + 1;
    }

    /** The process is killed, and the disk is what it was at state i. */
    method Resume(i: nat)
      requires Valid() && i < |seen|
      modifies this
      ensures Valid() && op == old(op) && disk == old(seen)[i] && seen == old(seen) + [disk]
    {
      disk := seen[i];
      seen := seen + [disk];
    }

    /** Whether the path can be seen to exist. */
    method Stat(p: Path) returns (ok: bool)
      requires Valid()
      modifies this`op
      ensures Valid() && op == old(op) + 1
      ensures ok == (old(sees(p, op)) && p in disk)
    {
      ok := sees(p, op) && p in disk;
      op := op + 1;
    }

    /** Opens a file and fills it where it is. A failed open changes nothing; a failed write, flush or
        close leaves scraps. */
    method Put(p: Path, c: Content) returns (open: bool, filled: bool)
      requires Valid() && (p.Download? ==> p.n < op)
      modifies this
      ensures Valid() && op == old(op) + 2
      ensures open == old(works(op)) && filled == (open && old(works(op + 1)))
      ensures !open ==> disk == old(disk) && seen == old(seen)
      ensures open ==> disk == old(disk)[p := if filled then c else Raw(old(scrap(op)))]
      ensures open ==> seen == old(seen) + [old(disk)[p := Raw([])], disk]
      ensures Only({p})
    {
      var k := op;
      op := op + 2;
      open, filled := works(k), false;
      if !open {
        return;
      }
      disk := disk[p := Raw([])];
      seen := seen + [disk];
      filled := works(k + 1);
      disk := disk[p := if filled then c else Raw(scrap(k))];
      seen := seen + [disk];
    }

    /** A new file under a name that nothing has. */
    method CreateTemp() returns (n: Option<nat>)
      requires Valid()
      modifies this
      ensures Valid() && op == old(op) + 1
      ensures n == if old(works(op)) then Some(old(op)) else None
      ensures n.Some? ==> Download(n.value) !in old(disk) && disk == old(disk)[Download(n.value) := Raw([])]
      ensures n.None? ==> disk == old(disk)
      ensures seen == if n.Some? then old(seen) + [disk] else old(seen)
      ensures Only(Downloads(op))
    {
      n := if works(op) then Some(op) else None;
      op := op + 1;
      if n.Some? {
        disk := disk[Download(n.value) := Raw([])];
        seen := seen + [disk];
      }
    }

    /** The disk holds, now and in every new state, at p, what was there before or all of `c`. */
    twostate predicate Whole(p: Path, c: Content)
      reads this
    {
      HeldWhole(|old(seen)|, old(disk), seen, disk, p, c)
    }

    /** Writes beside the file and renames over it, so that no reader ever sees part of it. */
    method WriteFileSync(p: Path, c: Content) returns (ok: bool)
      requires Valid() && !p.Download?
      modifies this
      ensures Valid()
      ensures Only({p, Aside(p)}) && Whole(p, c)
      ensures At(disk, p) == if ok then Some(c) else At(old(disk), p)
      ensures !ok ==> Only({Aside(p)})
      ensures ok ==> Aside(p) !in disk
      ensures !old(works(op)) ==> !ok && disk == old(disk) && seen == old(seen)
      ensures old(Calm()) ==> ok
    {
      assert p < Aside(p);
      var open, filled := Put(Aside(p), c);
      if !open {
        return false;
      }
      if !filled {
        var _ := Remove(Aside(p));
        return false;
      }
      ok := Rename(Aside(p), p);
    }

    /** A copy under the same discipline. Only a source that is not there counts as missing. */
    method CopyFile(src: Path, dst: Path) returns (r: Copied)
      requires Valid() && !dst.Download? && src != dst && src != Aside(dst)
      modifies this
      ensures Valid()
      ensures Only({dst, Aside(dst)})
      ensures src in old(disk) ==> Whole(dst, old(disk)[src])
      ensures r.Missing? <==> src !in old(disk)
      ensures src in old(disk) && !old(sees(src, op)) ==> r.Broken?
      ensures r.Missing? || !old(sees(src, op)) ==> disk == old(disk) && seen == old(seen)
      ensures At(disk, dst) == if r.Done? then At(old(disk), src) else At(old(disk), dst)
      ensures old(Calm()) ==> !r.Broken?
    {
      if src !in disk {
        return Missing;
      }
      var open := Stat(src);
      if !open {
        return Broken;
      }
      var ok := WriteFileSync(dst, disk[src]);
      r := if ok then Done else Broken;
    }
  }
}

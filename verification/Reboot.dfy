/** The reboot coordinator's list of reasons and the decision made from it. */
module Reboot {
  const SOURCE_TASK := "task"
  const SOURCE_REJOIN := "directory-rejoin"

  const MODE_REBOOT := "reboot"
  const MODE_SHUTDOWN := "shutdown"

  /** `since` is 0 where the source holds the zero time. */
  datatype Reason = Reason(source: string, detail: string, force: bool, since: nat, taskID: int, mode: string)

  datatype Decision = Decision(reboot: bool, mode: string, delay: int)

  /** The reasons from other sources, in their order. */
  function Without(rs: seq<Reason>, source: string): seq<Reason> {
    if rs == [] then []
    else (if rs[0].source == source then [] else [rs[0]]) + Without(rs[1..], source)
  }

  ghost predicate OnePerSource(rs: seq<Reason>) {
    forall i, j :: 0 <= i < j < |rs| ==> rs[i].source != rs[j].source
  }

  lemma {:induction false} WithoutMembers(rs: seq<Reason>, source: string, r: Reason)
    ensures r in Without(rs, source) <==> r in rs && r.source != source
  {
    if rs != [] {
      WithoutMembers(rs[1..], source, r);
    }
  }

  lemma {:induction false} WithoutKeepsOne(rs: seq<Reason>, source: string)
    requires OnePerSource(rs)
    ensures OnePerSource(Without(rs, source))
  {
    if rs != [] {
      WithoutKeepsOne(rs[1..], source);
      var rest := Without(rs[1..], source);
      forall j | 0 <= j < |rest|
        ensures rest[j].source != rs[0].source
      {
        WithoutMembers(rs[1..], source, rest[j]);
        var k :| 0 <= k < |rs[1..]| && rs[1..][k] == rest[j];
        assert rs[1..][k] == rs[k + 1];
      }
    }
  }

  lemma {:induction false} WithoutSnoc(rs: seq<Reason>, r: Reason, source: string)
    ensures Without(rs + [r], source) == Without(rs, source) + (if r.source == source then [] else [r])
  {
    if rs == [] {
      assert rs + [r] == [r];
    } else {
      WithoutSnoc(rs[1..], r, source);
      assert (rs + [r])[1..] == rs[1..] + [r] && (rs + [r])[0] == rs[0];
      var first := if rs[0].source == source then [] else [rs[0]];
      var last := if r.source == source then [] else [r];
      assert first + (Without(rs[1..], source) + last) == (first + Without(rs[1..], source)) + last;
    }
  }

  lemma {:induction false} WithoutAbsent(rs: seq<Reason>, source: string)
    requires forall r :: r in rs ==> r.source != source
    ensures Without(rs, source) == rs
  {
    if rs != [] {
      WithoutAbsent(rs[1..], source);
    }
  }

  function Stamped(r: Reason, now: nat): Reason {
    if r.since == 0 then r.(since := now) else r
  }

  function Merged(rs: seq<Reason>, r: Reason, now: nat): seq<Reason> {
    Without(rs, r.source) + [Stamped(r, now)]
  }

  /** A source asks once however often it asks, its latest request is the one kept, and no other
      source's request is touched. */
  lemma MergeReplaces(rs: seq<Reason>, r: Reason, now: nat)
    requires OnePerSource(rs)
    ensures OnePerSource(Merged(rs, r, now))
    ensures forall x :: x in Merged(rs, r, now) && x.source == r.source ==> x == Stamped(r, now)
    ensures Without(Merged(rs, r, now), r.source) == Without(rs, r.source)
  {
    WithoutKeepsOne(rs, r.source);
    forall x | x in Without(rs, r.source)
      ensures x.source != r.source
    {
      WithoutMembers(rs, r.source, x);
    }
    WithoutSnoc(Without(rs, r.source), Stamped(r, now), r.source);
    WithoutAbsent(Without(rs, r.source), r.source);
  }

  method Drop(rs: seq<Reason>, source: string) returns (out: seq<Reason>)
    ensures out == Without(rs, source)
  {
    out := [];
    for i := 0 to |rs|
      invariant out == Without(rs[..i], source)
    {
      WithoutSnoc(rs[..i], rs[i], source);
      assert rs[..i + 1] == rs[..i] + [rs[i]];
      if rs[i].source != source {
        out := out + [rs[i]];
      }
    }
    assert rs[..|rs|] == rs;
  }

  method Merge(rs: seq<Reason>, r: Reason, now: nat) returns (out: seq<Reason>)
    ensures out == Merged(rs, r, now)
  {
    out := Drop(rs, r.source);
    out := out + [if r.since == 0 then r.(since := now) else r];
  }

  /** A reboot happens exactly when some reason may act, and it is a shutdown only when every reason
      asked for one. Users are warned exactly when there are any. */
  method Decide(rs: seq<Reason>, loggedIn: nat, grace: int) returns (d: Decision)
    ensures d.reboot <==> exists r :: r in rs && (loggedIn == 0 || r.force)
    ensures d.reboot ==> (d.mode == MODE_SHUTDOWN <==> forall r :: r in rs ==> r.mode == MODE_SHUTDOWN)
    ensures d.reboot ==> d.mode in {MODE_REBOOT, MODE_SHUTDOWN} && d.delay == if loggedIn > 0 then grace else 0
  {
    if rs == [] {
      return Decision(false, "", 0);
    }
    var allowed, mode := false, MODE_SHUTDOWN;
    for i := 0 to |rs|
      invariant allowed ==> exists r :: r in rs && (loggedIn == 0 || r.force)
      invariant !allowed ==> forall k :: 0 <= k < i ==> loggedIn != 0 && !rs[k].force
      invariant mode == MODE_SHUTDOWN || mode == MODE_REBOOT
      invariant mode == MODE_SHUTDOWN <==> forall k :: 0 <= k < i ==> rs[k].mode == MODE_SHUTDOWN
    {
      if loggedIn == 0 || rs[i].force {
        assert rs[i] in rs;
        allowed := true;
      }
      if rs[i].mode != MODE_SHUTDOWN {
        mode := MODE_REBOOT;
      }
    }
    if !allowed {
      return Decision(false, "", 0);
    }
    d := Decision(true, mode, if loggedIn > 0 then grace else 0);
  }

  /** What a look for a network boot entry found. */
  datatype Find = Armable | NoOption | OtherError

  /** The reasons from one source, in their order. */
  function Only(rs: seq<Reason>, source: string): seq<Reason> {
    if rs == [] then []
    else (if rs[0].source == source then [rs[0]] else []) + Only(rs[1..], source)
  }

  lemma {:induction false} OnlyMembers(rs: seq<Reason>, source: string, r: Reason)
    ensures r in Only(rs, source) <==> r in rs && r.source == source
  {
    if rs != [] {
      OnlyMembers(rs[1..], source, r);
    }
  }

  lemma {:induction false} OnlyKeepsOne(rs: seq<Reason>, source: string)
    requires OnePerSource(rs)
    ensures OnePerSource(Only(rs, source))
  {
    if rs != [] {
      OnlyKeepsOne(rs[1..], source);
      var rest := Only(rs[1..], source);
      forall j | 0 <= j < |rest|
        ensures rest[j].source != rs[0].source
      {
        OnlyMembers(rs[1..], source, rest[j]);
        var k :| 0 <= k < |rs[1..]| && rs[1..][k] == rest[j];
        assert rs[1..][k] == rs[k + 1];
      }
    }
  }

  lemma {:induction false} OnlySnoc(rs: seq<Reason>, r: Reason, source: string)
    ensures Only(rs + [r], source) == Only(rs, source) + (if r.source == source then [r] else [])
  {
    if rs == [] {
      assert rs + [r] == [r];
    } else {
      OnlySnoc(rs[1..], r, source);
      assert (rs + [r])[1..] == rs[1..] + [r];
    }
  }

  method HasTaskReason(rs: seq<Reason>) returns (b: bool)
    ensures b <==> exists r :: r in rs && r.source == SOURCE_TASK
  {
    for i := 0 to |rs|
      invariant forall k :: 0 <= k < i ==> rs[k].source != SOURCE_TASK
    {
      if rs[i].source == SOURCE_TASK {
        return true;
      }
    }
    return false;
  }

  /** The split of the reasons: only positive evidence that no network entry exists holds the task back. */
  function Acts(rs: seq<Reason>, find: Find): seq<Reason> {
    if find.NoOption? then Without(rs, SOURCE_TASK) else rs
  }

  function Withheld(rs: seq<Reason>, find: Find): seq<Reason> {
    if find.NoOption? then Only(rs, SOURCE_TASK) else []
  }

  method PlanReboot(rs: seq<Reason>, find: Find) returns (act: seq<Reason>, withheld: seq<Reason>)
    ensures act == Acts(rs, find) && withheld == Withheld(rs, find)
  {
    if find != NoOption {
      return rs, [];
    }
    withheld := [];
    for i := 0 to |rs|
      invariant withheld == Only(rs[..i], SOURCE_TASK)
    {
      OnlySnoc(rs[..i], rs[i], SOURCE_TASK);
      assert rs[..i + 1] == rs[..i] + [rs[i]];
      if rs[i].source == SOURCE_TASK {
        withheld := withheld + [rs[i]];
      }
    }
    assert rs[..|rs|] == rs;
    if withheld == [] {
      forall r | r in rs
        ensures r.source != SOURCE_TASK
      {
        OnlyMembers(rs, SOURCE_TASK, r);
      }
      WithoutAbsent(rs, SOURCE_TASK);
      return rs, [];
    }
    act := Drop(rs, SOURCE_TASK);
  }

  /** A reason is withheld exactly if it is a task's and the firmware is known to have no network entry. A look that
      failed for another reason holds nothing back. */
  lemma WithheldExactly(rs: seq<Reason>, find: Find, r: Reason)
    ensures r in Withheld(rs, find) <==> r in rs && r.source == "task" && find.NoOption?
    ensures r in Acts(rs, find) <==> r in rs && !(r.source == "task" && find.NoOption?)
  {
    WithoutMembers(rs, SOURCE_TASK, r);
    OnlyMembers(rs, SOURCE_TASK, r);
  }

  /** The split loses no reason, invents none, and holds back nothing but tasks. Putting the two parts
      back together leaves one entry for each source. */
  lemma SplitKeepsReasons(rs: seq<Reason>, find: Find)
    requires OnePerSource(rs)
    ensures forall r :: r in rs <==> r in Withheld(rs, find) + Acts(rs, find)
    ensures forall r :: r in Withheld(rs, find) ==> r.source == SOURCE_TASK && r !in Acts(rs, find)
    ensures OnePerSource(Withheld(rs, find)) && OnePerSource(Withheld(rs, find) + Acts(rs, find))
  {
    if find.NoOption? {
      WithoutKeepsOne(rs, SOURCE_TASK);
      OnlyKeepsOne(rs, SOURCE_TASK);
      forall r
        ensures r in Without(rs, SOURCE_TASK) <==> r in rs && r.source != SOURCE_TASK
        ensures r in Only(rs, SOURCE_TASK) <==> r in rs && r.source == SOURCE_TASK
      {
        WithoutMembers(rs, SOURCE_TASK, r);
        OnlyMembers(rs, SOURCE_TASK, r);
      }
    }
  }
}

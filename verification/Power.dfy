/** Power schedules: the earliest firing over all of them, and the loop that records each firing. */
module Power {
  import opened Wrappers
  import opened Cron
  import CronText

  datatype Schedule = Schedule(cron: string, action: string)

  /** The next firing of one schedule after second t; none if its text does not parse. */
  function FiringOf(s: Schedule, t: nat): Option<nat> {
    var c := CronText.ParseOf(s.cron);
    if c.None? then None else Scan(c.value, t / 60 + 1, YearAndDay(t / 60 + 1))
  }

  function Firings(schedules: seq<Schedule>, t: nat): (fs: seq<Option<nat>>)
    ensures |fs| == |schedules|
  {
    if schedules == [] then []
    else Firings(schedules[..|schedules| - 1], t) + [FiringOf(schedules[|schedules| - 1], t)]
  }

  lemma {:induction false} FiringsAt(schedules: seq<Schedule>, t: nat, i: nat)
    requires i < |schedules|
    ensures Firings(schedules, t)[i] == FiringOf(schedules[i], t)
  {
    if i < |schedules| - 1 {
      FiringsAt(schedules[..|schedules| - 1], t, i);
    }
  }

  /** `which` is the first of the earliest firings, if there is any. */
  ghost predicate IsEarliest(fs: seq<Option<nat>>, best: Option<nat>, which: nat) {
    && (best.None? <==> forall i :: 0 <= i < |fs| ==> fs[i].None?)
    && (best.Some? ==>
          && which < |fs| && fs[which] == best
          && forall i :: 0 <= i < |fs| && fs[i].Some? ==>
               best.value <= fs[i].value && (i < which ==> best.value < fs[i].value))
  }

  lemma EarliestGrows(fs: seq<Option<nat>>, best: Option<nat>, which: nat, n: Option<nat>)
    requires IsEarliest(fs, best, which)
    ensures if n.Some? && (best.None? || n.value < best.value) then IsEarliest(fs + [n], n, |fs|)
            else IsEarliest(fs + [n], best, which)
  {
    var gs := fs + [n];
    assert forall i :: 0 <= i < |fs| ==> gs[i] == fs[i];
    assert gs[|fs|] == n;
    if best.Some? {
      assert gs[which] == best;
    }
  }

  /** The earliest firing after t over all schedules that parse, with the first schedule that has it. */
  method Earliest(schedules: seq<Schedule>, t: nat) returns (best: Option<nat>, which: nat)
    ensures IsEarliest(Firings(schedules, t), best, which)
  {
    hide CronText.ParseOf;
    best, which := None, 0;
    for k := 0 to |schedules|
      invariant IsEarliest(Firings(schedules[..k], t), best, which)
    {
      assert schedules[..k + 1][..k] == schedules[..k];
      ghost var n := FiringOf(schedules[k], t);
      EarliestGrows(Firings(schedules[..k], t), best, which, n);
      var c := CronText.Parse(schedules[k].cron);
      if c.None? {
        continue;
      }
      var next := Next(c.value, t);
      if next.Some? && (best.None? || next.value < best.value) {
        best, which := next, k;
      }
    }
    assert schedules[..|schedules|] == schedules;
  }

  /** One recorded firing: the minute, and the schedule it is attributed to. */
  datatype Firing = Firing(minute: nat, schedule: Schedule)

  ghost predicate Fired(f: Firing) {
    var c := CronText.ParseOf(f.schedule.cron);
    c.Some? && Matches(c.value, f.minute)
  }

  lemma {:induction false} EarliestFires(schedules: seq<Schedule>, t: nat, next: nat, which: nat)
    requires IsEarliest(Firings(schedules, t), Some(next), which)
    ensures which < |schedules| && next * 60 > t && Fired(Firing(next, schedules[which]))
  {
    hide CronText.ParseOf;
    FiringsAt(schedules, t, which);
    ScanIsLeast(CronText.ParseOf(schedules[which].cron).value, t / 60 + 1, YearAndDay(t / 60 + 1));
  }

  /** Schedule s parses and names minute m, which is after t and within the search's year. */
  ghost predicate Names(s: Schedule, t: nat, m: nat) {
    var c := CronText.ParseOf(s.cron);
    c.Some? && Matches(c.value, m) && t / 60 + 1 <= m < YearAndDay(t / 60 + 1)
  }

  /** Some schedule names a minute after t and before the limit, both in seconds. */
  ghost predicate Due(schedules: seq<Schedule>, t: nat, limit: nat) {
    exists s, m: nat :: s in schedules && Names(s, t, m) && m * 60 < limit
  }

  lemma FiringIsLeast(s: Schedule, t: nat, m: nat)
    ensures Names(s, t, m) ==> FiringOf(s, t).Some? && FiringOf(s, t).value <= m
    ensures FiringOf(s, t).Some? ==> Names(s, t, FiringOf(s, t).value)
  {
    hide CronText.ParseOf, YearAndDay;
    var c := CronText.ParseOf(s.cron);
    if c.Some? {
      ScanIsLeast(c.value, t / 60 + 1, YearAndDay(t / 60 + 1));
    }
  }

  /** The earliest firing is before the limit exactly if some schedule is due. */
  lemma EarliestIsDue(schedules: seq<Schedule>, t: nat, next: Option<nat>, which: nat, limit: nat)
    requires IsEarliest(Firings(schedules, t), next, which)
    ensures next.Some? && next.value * 60 < limit <==> Due(schedules, t, limit)
  {
    hide Names, FiringOf, Firings;
    if next.Some? && next.value * 60 < limit {
      FiringsAt(schedules, t, which);
      FiringIsLeast(schedules[which], t, next.value);
      assert schedules[which] in schedules;
    }
    if Due(schedules, t, limit) {
      var s, m: nat :| s in schedules && Names(s, t, m) && m * 60 < limit;
      var i :| 0 <= i < |schedules| && schedules[i] == s;
      FiringsAt(schedules, t, i);
      FiringIsLeast(s, t, m);
    }
  }

  /** How a save of the record ends: written, or with an error that left the old record or the new one. */
  datatype Save = Written | Lost | WrittenWithError

  /** The agent's side of the schedules. `recorded` is PowerFired in memory, in minutes; `saved` is what a
      restart reads back; `log` is every firing handed to the coordinator, over all restarts. */
  class Waiter {
    var recorded: nat
    var saved: nat
    ghost var log: seq<Firing>

    constructor ()
      ensures Valid() && log == []
    {
      recorded, saved, log := 0, 0, [];
    }

    /** No minute fires twice: fired minutes strictly increase, and each matches its schedule. */
    ghost predicate Valid()
      reads this
    {
      && saved <= recorded
      && (log != [] ==> log[|log| - 1].minute <= saved)
      && (forall i :: 0 <= i < |log| ==> Fired(log[i]))
      && (forall i, j :: 0 <= i < j < |log| ==> log[i].minute < log[j].minute)
    }

    /** The process ends and starts again from what was saved. */
    method Restart()
      requires Valid()
      modifies this
      ensures Valid() && log == old(log) && recorded == saved == old(saved)
    {
      recorded := saved;
    }

    /** One wait. `now` may lie anywhere, also before an earlier one: the clock may step back. `killed`
        ends the sleep early; `save` is what becomes of the record. */
    method WaitOrFire(schedules: seq<Schedule>, now: nat, wait: nat, killed: bool, save: Save)
      returns (fired: bool)
      requires Valid()
      modifies this
      ensures Valid()
      ensures var after := if old(recorded) * 60 > now then old(recorded) * 60 else now;
        fired <==> Due(schedules, after, now + wait) && !killed && save.Written?
      ensures !fired ==> log == old(log)
      ensures fired ==> |log| == |old(log)| + 1 && log[..|old(log)|] == old(log)
      ensures fired ==> now < recorded * 60 < now + wait && recorded > old(recorded)
      ensures fired ==> var after := if old(recorded) * 60 > now then old(recorded) * 60 else now;
        exists which :: 0 <= which < |schedules| && IsEarliest(Firings(schedules, after), Some(recorded), which) &&
          log[|old(log)|] == Firing(recorded, schedules[which]) && saved == recorded
    {
      hide CronText.ParseOf, Firings, IsEarliest, Fired, Due;
      var after := now;
      if recorded * 60 > after {
        after := recorded * 60;
      }
      var next, which := Earliest(schedules, after);
      EarliestIsDue(schedules, after, next, which, now + wait);
      if next.None? || next.value * 60 >= now + wait || killed {
        return false;
      }
      EarliestFires(schedules, after, next.value, which);
      recorded := next.value;
      if !save.Lost? {
        saved := recorded;
      }
      if !save.Written? {
        return false;
      }
      log := log + [Firing(recorded, schedules[which])];
      return true;
    }
  }
}

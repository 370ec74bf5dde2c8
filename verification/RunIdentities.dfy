/** Where events are stamped by generators under a steady clock, one process after another,
    identities in the live log are unique whatever is commanded: appended events stand in
    ascending order, and what an archival keeps stays in order. */
module RunIdentities {
  import opened Values
  import opened Events
  import opened Retention
  import opened RunState
  import opened RunLog
  import opened Ulid

  /** The engine's stamps are the identities successive calls of the generator give, by one
      process or by many. */
  predicate StampsFrom(en: Engine, c: Clock, calls: seq<Call>) {
    forall n :: 0 <= n < |calls| ==> en.stamp(n).0 == Identity(Clocks(c, calls)[n])
  }

  /** The first `limit` stamps ascend. */
  predicate StampsAscend(en: Engine, limit: nat) {
    forall m, n :: 0 <= m < n < limit ==> Less(en.stamp(m).0, en.stamp(n).0)
  }

  lemma GeneratorAscends(en: Engine, c: Clock, calls: seq<Call>)
    requires ValidClock(c) && Steady(c, calls) && StampsFrom(en, c, calls)
    ensures StampsAscend(en, |calls|)
  {
    forall m: nat, n: nat | m < n < |calls|
      ensures Less(en.stamp(m).0, en.stamp(n).0)
    {
      IdentitiesIncrease(c, calls, m, n);
    }
  }

  predicate Ascends(log: seq<Event>) {
    forall i, j :: 0 <= i < j < |log| ==> Less(log[i].id, log[j].id)
  }

  /** Every event stands below every stamp to come. */
  predicate BelowStamps(en: Engine, log: seq<Event>, from: nat, limit: nat) {
    forall i, n :: 0 <= i < |log| && from <= n < limit ==> Less(log[i].id, en.stamp(n).0)
  }

  lemma AscendingIsUnique(log: seq<Event>)
    requires Ascends(log)
    ensures UniqueIds(log)
  {
    forall i, j | 0 <= i < j < |log|
      ensures log[i].id != log[j].id
    {
      LessIsTotal(log[i].id, log[j].id);
    }
  }

  lemma StampedEvents(en: Engine, log: seq<Event>, more: seq<Event>, from: nat, limit: nat)
    requires Ascends(log) && BelowStamps(en, log, from, limit) && StampsAscend(en, limit) && from + |more| <= limit
    requires forall k :: 0 <= k < |more| ==> more[k].id == en.stamp(from + k).0
    ensures Ascends(log + more) && BelowStamps(en, log + more, from + |more|, limit)
  {
    var all := log + more;
    forall i, j | 0 <= i < j < |all|
      ensures Less(all[i].id, all[j].id)
    {
      if j >= |log| {
        assert all[j].id == en.stamp(from + (j - |log|)).0;
        if i >= |log| { assert all[i].id == en.stamp(from + (i - |log|)).0; }
      }
    }
    forall i, n | 0 <= i < |all| && from + |more| <= n < limit
      ensures Less(all[i].id, en.stamp(n).0)
    {
      if i >= |log| { assert all[i].id == en.stamp(from + (i - |log|)).0; }
    }
  }

  lemma {:induction false} RetainingAscends(en: Engine, log: seq<Event>, run: string, from: nat, limit: nat)
    requires Ascends(log) && BelowStamps(en, log, from, limit)
    ensures Ascends(Retained(log, run)) && BelowStamps(en, Retained(log, run), from, limit)
    ensures forall i :: 0 <= i < |Retained(log, run)| ==>
              exists k :: 0 <= k < |log| && log[k] == Retained(log, run)[i]
  {
    hide KeepLive;
    if log != [] {
      var init, last := log[..|log| - 1], log[|log| - 1];
      RetainingAscends(en, init, run, from, limit);
      var rest, kept := Retained(init, run), Retained(log, run);
      forall i | 0 <= i < |rest|
        ensures Less(rest[i].id, last.id) && exists k :: 0 <= k < |log| && log[k] == rest[i]
      {
        var k :| 0 <= k < |init| && init[k] == rest[i];
        assert log[k] == rest[i];
      }
    }
  }

  lemma {:induction false} StepAscends(en: Engine, st: State, cmd: Command, limit: nat)
    requires StampsAscend(en, limit) && Step(en, st, cmd).0.stamped <= limit
    requires Ascends(st.log) && BelowStamps(en, st.log, st.stamped, limit)
    ensures
      var st' := Step(en, st, cmd).0;
      st.stamped <= st'.stamped && Ascends(st'.log) && BelowStamps(en, st'.log, st'.stamped, limit)
  {
    hide Step, Appended, Closes, Ascends, BelowStamps, StampsAscend, Retained;
    StepsLog(en, st, cmd);
    StepsStamps(en, st, cmd);
    var more := Appended(en, st, cmd);
    StampedEvents(en, st.log, more, st.stamped, limit);
    if Closes(en, st, cmd) {
      ClosingHasRun(en, st, cmd);
      RetainingAscends(en, st.log + more, st.run.value.id, st.stamped + |more|, limit);
    }
  }

  lemma {:induction false} StampsOnlyGrow(en: Engine, st: State, ts: seq<Turn>)
    ensures st.stamped <= After(en, st, ts).stamped
    decreases |ts|
  {
    hide Step, Seen;
    if ts != [] {
      StepsStamps(Seen(en, ts[0].sight), st, ts[0].cmd);
      StampsOnlyGrow(en, Taken(en, st, ts[0]).0, ts[1..]);
    }
  }

  lemma {:induction false} RunsAscend(en: Engine, st: State, ts: seq<Turn>, limit: nat)
    requires StampsAscend(en, limit) && After(en, st, ts).stamped <= limit
    requires Ascends(st.log) && BelowStamps(en, st.log, st.stamped, limit)
    ensures Ascends(After(en, st, ts).log)
    decreases |ts|
  {
    hide Step, Ascends;
    if ts != [] {
      var seen, st' := Seen(en, ts[0].sight), Taken(en, st, ts[0]).0;
      StampsOnlyGrow(en, st', ts[1..]);
      StepAscends(seen, st, ts[0].cmd, limit);
      RunsAscend(en, st', ts[1..], limit);
    }
  }

  /** A log in ascending order below what its generator still has to give, such as an empty
      one, keeps unique identities through every command, archivals included, as long as
      the clock is steady. */
  lemma {:induction false} IdentitiesStayUnique(en: Engine, start: State, ts: seq<Turn>, c: Clock, calls: seq<Call>)
    requires Ascends(start.log) && BelowStamps(en, start.log, start.stamped, |calls|)
    requires ValidClock(c) && Steady(c, calls) && StampsFrom(en, c, calls)
    requires After(en, start, ts).stamped <= |calls|
    ensures UniqueIds(After(en, start, ts).log)
  {
    hide After, StampsFrom, ValidClock, Steady, StampsAscend, Ascends, BelowStamps;
    GeneratorAscends(en, c, calls);
    RunsAscend(en, start, ts, |calls|);
    AscendingIsUnique(After(en, start, ts).log);
  }
}

/** Runs on files: what the commands write through the ledger. */
module Persistence {
  import opened Values
  import opened Events
  import opened Lines
  import opened HashChain
  import opened Ledger
  import opened Retention
  import opened Archive
  import opened WorkflowSpec
  import opened LogLife
  import opened RunState
  import opened RunTheory
  import opened RunInvariant
  import opened RunSafety
  import opened RunLog

  /** The two logs differ in nothing but what the ledger stamps. */
  ghost predicate SameButStamps(a: seq<Event>, b: seq<Event>) {
    |a| == |b| && forall i :: 0 <= i < |a| ==> Unstamped(a[i]) == Unstamped(b[i])
  }

  function Unstamped(e: Event): Event {
    e.(seqNo := 0, prev := "")
  }

  // ---------------------------------------------------------------------------
  // Writing a command's events
  // ---------------------------------------------------------------------------

  function StampedBy(c: Codec, j: Journal, e: Event): Event {
    var next := (if j.seqNo == 0 then MaxSeq(EventsOf(c, j.file)) else j.seqNo) + 1;
    HealingKeepsLines(j.file);
    e.(seqNo := next, prev := PrevFor(c, j.file + Healing(j.file)))
  }

  /** Room for the whole line of `e`. */
  function Room(c: Codec, j: Journal, e: Event): nat {
    |Healing(j.file)| + |c.render(StampedBy(c, j, e))| + 1
  }

  /** The events, written one after the other by one process. */
  function Written(c: Codec, j: Journal, events: seq<Event>): Journal {
    if events == [] then j
    else
      var before, e := Written(c, j, events[..|events| - 1]), events[|events| - 1];
      Attempted(c, before, Attempt(false, e, Room(c, before, e)))
  }

  /** What a command leaves on disk: its events appended, and a closed run shelved. */
  function Filed(en: Engine, c: Codec, st: State, j: Journal, cmd: Command): Journal {
    var written := Written(c, j, Appended(en, st, cmd));
    if Closes(en, st, cmd) then Shelved(c, written, st.run.value.id) else written
  }

  function FiledAll(en: Engine, c: Codec, st: State, j: Journal, ts: seq<Turn>): Journal
    decreases |ts|
  {
    if ts == [] then j
    else FiledAll(en, c, Taken(en, st, ts[0]).0, Filed(Seen(en, ts[0].sight), c, st, j, ts[0].cmd), ts[1..])
  }

  /** Whatever the commands write has a kind and can be rendered. */
  predicate Writable(c: Codec, events: seq<Event>) {
    forall i :: 0 <= i < |events| ==> events[i].kind != "" && c.writable(events[i].data)
  }

  predicate AllWritten(en: Engine, c: Codec, st: State, ts: seq<Turn>)
    decreases |ts|
  {
    ts == [] ||
    (Writable(c, Appended(Seen(en, ts[0].sight), st, ts[0].cmd)) && AllWritten(en, c, Taken(en, st, ts[0]).0, ts[1..]))
  }

  // ---------------------------------------------------------------------------
  // One command
  // ---------------------------------------------------------------------------

  lemma AttemptLands(c: Codec, j: Journal, e: Event)
    requires e.kind != "" && c.writable(e.data)
    ensures Attempted(c, j, Attempt(false, e, Room(c, j, e))).landed == j.landed + [StampedBy(c, j, e)]
  {
    hide Healing, PrevFor, MaxSeq, EventsOf;
  }

  lemma {:induction false} WritingKeepsIntact(c: Codec, j: Journal, log: seq<Event>, events: seq<Event>)
    requires Lawful(c) && Intact(c, j) && SameButStamps(j.landed, log) && Writable(c, events)
    ensures Intact(c, Written(c, j, events))
    ensures SameButStamps(Written(c, j, events).landed, log + events)
  {
    hide Intact, Lawful, Attempted, StampedBy;
    if events == [] {
      assert log + events == log;
    } else {
      var init, e := events[..|events| - 1], events[|events| - 1];
      WritingKeepsIntact(c, j, log, init);
      var before := Written(c, j, init);
      AttemptKeepsIntact(c, before, Attempt(false, e, Room(c, before, e)));
      AttemptLands(c, before, e);
      assert log + events == (log + init) + [e];
      StampsDoNotShow(c, before, e);
    }
  }

  lemma StampsDoNotShow(c: Codec, j: Journal, e: Event)
    ensures Unstamped(StampedBy(c, j, e)) == Unstamped(e)
  {
  }

  lemma {:induction false} RetainingIgnoresStamps(a: seq<Event>, b: seq<Event>, run: string)
    requires SameButStamps(a, b)
    ensures SameButStamps(Retained(a, run), Retained(b, run))
  {
    if a != [] {
      var x, y := a[|a| - 1], b[|b| - 1];
      RetainingIgnoresStamps(a[..|a| - 1], b[..|b| - 1], run);
      assert Unstamped(x) == Unstamped(y);
      assert x.kind == y.kind && x.data == y.data && x.run == y.run;
    }
  }

  lemma ShelvingIgnoresStamps(c: Codec, j: Journal, log: seq<Event>, run: string)
    requires Lawful(c) && Intact(c, j) && SameButStamps(j.landed, log)
    ensures SameButStamps(Shelved(c, j, run).landed, Retained(log, run))
  {
    hide Lawful, Rechained, Compacted, Retained, Chained, Increasing, Split, LastLine;
    RetainingIgnoresStamps(j.landed, log, run);
    AllParsedAreWritable(c, j.file, run);
    var rest, out := Retained(j.landed, run), Shelved(c, j, run).landed;
    RechainedFacts(c, rest);
    assert forall i :: 0 <= i < |rest| ==> Unstamped(out[i]) == Unstamped(rest[i]);
  }

  /** A filed command leaves on file what the step leaves in the log. */
  lemma {:induction false} FilingFollowsStep(en: Engine, c: Codec, st: State, j: Journal, cmd: Command)
    requires Lawful(c) && Intact(c, j) && SameButStamps(j.landed, st.log)
    requires Writable(c, Appended(en, st, cmd))
    ensures Intact(c, Filed(en, c, st, j, cmd))
    ensures SameButStamps(Filed(en, c, st, j, cmd).landed, Step(en, st, cmd).0.log)
  {
    hide Intact, Lawful, Step, Appended, Closes, Writable, SameButStamps, Shelved, Retained;
    var events := Appended(en, st, cmd);
    StepsLog(en, st, cmd);
    WritingKeepsIntact(c, j, st.log, events);
    if Closes(en, st, cmd) {
      ClosingHasRun(en, st, cmd);
      ShelvingKeepsIntact(c, Written(c, j, events), st.run.value.id);
      ShelvingIgnoresStamps(c, Written(c, j, events), st.log + events, st.run.value.id);
    }
  }

  // ---------------------------------------------------------------------------
  // Whole runs
  // ---------------------------------------------------------------------------

  lemma {:induction false} FilesFollow(en: Engine, c: Codec, st: State, j: Journal, ts: seq<Turn>)
    requires Lawful(c) && Intact(c, j) && SameButStamps(j.landed, st.log) && AllWritten(en, c, st, ts)
    ensures
      var j' := FiledAll(en, c, st, j, ts);
      Intact(c, j') && SameButStamps(j'.landed, After(en, st, ts).log)
    decreases |ts|
  {
    hide Intact, Lawful, Step, Seen, Appended, Filed, Writable, SameButStamps;
    if ts != [] {
      var seen := Seen(en, ts[0].sight);
      FilingFollowsStep(seen, c, st, j, ts[0].cmd);
      FilesFollow(en, c, Taken(en, st, ts[0]).0, Filed(seen, c, st, j, ts[0].cmd), ts[1..]);
    }
  }

  /** What the ledger stamps is nothing re-derivation looks at. */
  lemma {:induction false} DerivingIgnoresStamps(a: seq<Event>, b: seq<Event>)
    requires SameButStamps(a, b)
    ensures Derive(a) == Derive(b)
  {
    if a != [] {
      var x, y := a[|a| - 1], b[|b| - 1];
      DerivingIgnoresStamps(a[..|a| - 1], b[..|b| - 1]);
      assert Unstamped(x) == Unstamped(y);
      assert x.kind == y.kind && x.data == y.data && x.run == y.run && x.phase == y.phase;
    }
  }

  /** After any commands on any history, the live log file verifies without breaks, reads
      back as the log the commands produced, and re-derives the live run. */
  lemma {:induction false} FilesTellTheRun(en: Engine, c: Codec, start: State, j: Journal, ts: seq<Turn>)
    requires Lawful(c) && PhasesOk(en.spec) && start.run.None?
    requires Intact(c, j) && SameButStamps(j.landed, start.log)
    requires AllAdmissible(en, start, ts) && AllWritten(en, c, start, ts)
    ensures
      var st, file := After(en, start, ts), FiledAll(en, c, start, j, ts).file;
      && Check(c, Split(file)).report.breaks == []
      && SameButStamps(EventsOf(c, file), st.log)
      && (st.run.Some? ==>
        Derive(EventsOf(c, file)).Some? && Matches(Derive(EventsOf(c, file)).value, st.run.value))
  {
    hide Lawful, PhasesOk, Intact, AllAdmissible, AllWritten, After, FiledAll, Check, Split, EventsOf, Matches,
      Derive, SameButStamps;
    var st, j' := After(en, start, ts), FiledAll(en, c, start, j, ts);
    FilesFollow(en, c, start, j, ts);
    IntactHasNoBreaks(c, j');
    DerivingIgnoresStamps(j'.landed, st.log);
    if st.run.Some? {
      assert Reachable(en, st) by { assert ReachedBy(en, start, ts, st); }
      SnapshotIsDerivable(en, st);
    }
  }
}

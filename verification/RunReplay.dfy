/** What re-derivation reads of a log, and what it passes over. */
module RunReplay {
  import opened Values
  import opened Events
  import opened RunState

  lemma DeriveOneMore(log: seq<Event>, e: Event)
    ensures Derive(log + [e]) == Replay(Derive(log), e)
  {
    assert (log + [e])[..|log|] == log;
  }

  /** Beginning a run forgets what was told before. */
  lemma BeginningForgets(log: seq<Event>, e: Event)
    requires e.kind == "run" && StrField(e.data, "action") in {"start", "branch", "adopt"}
    ensures Derive(log + [e]) ==
            Some(Run(e.run, StrField(e.data, "family"), StrField(e.data, "intent"), "", Active, 0, map[], 0, [], []))
  {
    DeriveOneMore(log, e);
  }

  /** Closing the run told ends it; closing another changes nothing. */
  lemma ClosingEnds(log: seq<Event>, e: Event)
    requires e.kind == "run" && StrField(e.data, "action") == "close"
    ensures Derive(log + [e]) ==
            if Derive(log).Some? && Derive(log).value.id == e.run then None else Derive(log)
  {
    DeriveOneMore(log, e);
  }

  /** Alike but for what a move of the run `run` may have changed. */
  predicate AlikeBut(a: Option<Run>, b: Option<Run>, run: string) {
    a == b || (a.Some? && b.Some? && a.value.id == b.value.id == run)
  }

  lemma ReplayKeepsAlike(a: Option<Run>, b: Option<Run>, e: Event, run: string)
    requires AlikeBut(a, b, run)
    ensures AlikeBut(Replay(a, e), Replay(b, e), run)
  {
  }

  lemma {:induction false} AlikeAfter(x: seq<Event>, e: Event, y: seq<Event>)
    requires e.kind != "run"
    ensures AlikeBut(Derive((x + [e]) + y), Derive(x + y), e.run)
    ensures e.kind != "phase" ==> Derive((x + [e]) + y) == Derive(x + y)
  {
    hide Replay, AlikeBut;
    if y == [] {
      assert (x + [e]) + y == x + [e] && x + y == x;
      DeriveOneMore(x, e);
      OneEventAlike(Derive(x), e);
    } else {
      var init, last := y[..|y| - 1], y[|y| - 1];
      AlikeAfter(x, e, init);
      assert (x + [e]) + y == ((x + [e]) + init) + [last] && x + y == (x + init) + [last];
      DeriveOneMore((x + [e]) + init, last);
      DeriveOneMore(x + init, last);
      ReplayKeepsAlike(Derive((x + [e]) + init), Derive(x + init), last, e.run);
    }
  }

  lemma OneEventAlike(d: Option<Run>, e: Event)
    requires e.kind != "run"
    ensures AlikeBut(Replay(d, e), d, e.run) && (e.kind != "phase" ==> Replay(d, e) == d)
  {
  }

  /** An event anywhere in the log that is a record, or a move of a run other than the one
      told, changes nothing of what is told. */
  lemma {:induction false} StrangersAreNotTold(x: seq<Event>, e: Event, y: seq<Event>)
    requires e.kind != "run"
    requires e.kind == "phase" && Derive(x + y).Some? ==> Derive(x + y).value.id != e.run
    ensures Derive((x + [e]) + y) == Derive(x + y)
  {
    hide Derive, Replay;
    AlikeAfter(x, e, y);
  }
}

/** Which events of a closing run move to its archive and which stay in the live log. */
module Retention {
  import opened Values
  import opened Events
  import opened Sifting

  /** Only open follow-ups survive in the live log after their run closes. */
  predicate KeepLive(e: Event) {
    e.kind == "followup" && (e.Text("status") == "open" || e.Text("status") == "next-run")
  }

  function Archived(log: seq<Event>, run: string): seq<Event> {
    if log == [] then []
    else
      var last := log[|log| - 1];
      Archived(log[..|log| - 1], run) + if last.run == run && !KeepLive(last) then [last] else []
  }

  function Retained(log: seq<Event>, run: string): seq<Event> {
    if log == [] then []
    else
      var last := log[|log| - 1];
      Retained(log[..|log| - 1], run) + if last.run == run && !KeepLive(last) then [] else [last]
  }

  /** `a` is `b` with events left out. */
  predicate Subsequence(a: seq<Event>, b: seq<Event>) {
    a == [] ||
    (b != [] &&
     ((a[|a| - 1] == b[|b| - 1] && Subsequence(a[..|a| - 1], b[..|b| - 1])) || Subsequence(a, b[..|b| - 1])))
  }

  lemma SubsequenceAppend(a: seq<Event>, b: seq<Event>, e: Event)
    requires Subsequence(a, b)
    ensures Subsequence(a, b + [e]) && Subsequence(a + [e], b + [e])
  {
    assert (a + [e])[..|a|] == a && (b + [e])[..|b|] == b;
  }

  lemma SplitAppend(log: seq<Event>, e: Event, run: string)
    ensures
      var moves := e.run == run && !KeepLive(e);
      && Archived(log + [e], run) == (if moves then Archived(log, run) + [e] else Archived(log, run))
      && Retained(log + [e], run) == (if moves then Retained(log, run) else Retained(log, run) + [e])
  {
    assert (log + [e])[..|log|] == log;
  }

  /** The log splits in two, each part in its old order, nothing lost and nothing twice. */
  lemma LogSplits(log: seq<Event>, run: string)
    ensures multiset(log) == multiset(Archived(log, run)) + multiset(Retained(log, run))
    ensures Subsequence(Archived(log, run), log) && Subsequence(Retained(log, run), log)
  {
    hide Archived, Retained, Subsequence;
    NothingLost(log, run);
    OrderKept(log, run);
  }

  lemma {:induction false} NothingLost(log: seq<Event>, run: string)
    ensures multiset(log) == multiset(Archived(log, run)) + multiset(Retained(log, run))
  {
    hide KeepLive, Archived, Retained;
    if log == [] {
      NothingToSplit(run);
    } else {
      var init, last := log[..|log| - 1], log[|log| - 1];
      assert init + [last] == log;
      NothingLost(init, run);
      SplitAppend(init, last, run);
    }
  }

  lemma {:induction false} OrderKept(log: seq<Event>, run: string)
    ensures Subsequence(Archived(log, run), log) && Subsequence(Retained(log, run), log)
  {
    hide KeepLive, Archived, Retained, Subsequence;
    if log == [] {
      NothingToSplit(run);
      EmptySubsequence(log);
    } else {
      var init, last := log[..|log| - 1], log[|log| - 1];
      assert init + [last] == log;
      OrderKept(init, run);
      SplitAppend(init, last, run);
      SubsequenceAppend(Archived(init, run), init, last);
      SubsequenceAppend(Retained(init, run), init, last);
    }
  }

  lemma NothingToSplit(run: string)
    ensures Archived([], run) == [] && Retained([], run) == []
  {
  }

  lemma EmptySubsequence(log: seq<Event>)
    ensures Subsequence([], log)
  {
  }

  lemma {:induction false} SplitByRun(log: seq<Event>, run: string)
    ensures forall e :: e in Archived(log, run) <==> e in log && e.run == run && !KeepLive(e)
    ensures forall e :: e in Retained(log, run) <==> e in log && (e.run != run || KeepLive(e))
  {
    hide KeepLive;
    if log != [] {
      SplitByRun(log[..|log| - 1], run);
      assert log == log[..|log| - 1] + [log[|log| - 1]];
    }
  }

  /** What of a closing run moves to its archive: all but the follow-ups still open. */
  predicate Departs(e: Event, run: string) {
    e.run == run
    && !(e.kind == "followup" && (StrField(e.data, "status") == "open" || StrField(e.data, "status") == "next-run"))
  }

  /** Archive and live log are the log sifted by that, each in its old order. */
  lemma {:induction false} SplitIsSifted(log: seq<Event>, run: string)
    ensures Sifted(log, (e: Event) => Departs(e, run), Archived(log, run))
    ensures Sifted(log, (e: Event) => !Departs(e, run), Retained(log, run))
  {
    if log == [] {
      NothingSifted((e: Event) => Departs(e, run));
      NothingSifted((e: Event) => !Departs(e, run));
    } else {
      var init := log[..|log| - 1];
      SplitIsSifted(init, run);
      SiftOneMore(log, (e: Event) => Departs(e, run), Archived(init, run));
      SiftOneMore(log, (e: Event) => !Departs(e, run), Retained(init, run));
      assert Archived(init, run) + [] == Archived(init, run) && Retained(init, run) + [] == Retained(init, run);
    }
  }
}

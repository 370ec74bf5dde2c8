/** The live log over its whole life: appends that may stop anywhere, and archivals. */
module LogLife {
  import opened Values
  import opened Events
  import opened Lines
  import opened HashChain
  import opened Ledger
  import opened Retention
  import opened Archive

  datatype Deed = Put(attempt: Attempt) | Shelve(run: string)

  /** The live log, the archives, and every event whose whole line ever landed. */
  datatype Books = Books(live: Journal, archives: map<string, Bytes>, ever: seq<Event>)

  /** An archival rewrites the live log; the process keeps its sequence counter. */
  function Shelved(c: Codec, j: Journal, run: string): Journal {
    Journal(Compacted(c, Retained(EventsOf(c, j.file), run)), j.seqNo, Rechained(c, Retained(j.landed, run)))
  }

  function Kept(c: Codec, b: Books, d: Deed): Books {
    match d
    case Put(a) =>
      var j := Attempted(c, b.live, a);
      Books(j, b.archives, b.ever + j.landed[|b.live.landed|..])
    case Shelve(run) =>
      Books(Shelved(c, b.live, run),
            b.archives[run := Compacted(c, Archived(EventsOf(c, b.live.file), run))], b.ever)
  }

  function Life(c: Codec, deeds: seq<Deed>): Books {
    if deeds == [] then Books(Journal([], 0, []), map[], [])
    else Kept(c, Life(c, deeds[..|deeds| - 1]), deeds[|deeds| - 1])
  }

  /** No run is archived twice. */
  predicate OnceEach(c: Codec, deeds: seq<Deed>) {
    deeds == [] ||
    (OnceEach(c, deeds[..|deeds| - 1])
     && (deeds[|deeds| - 1].Shelve? ==> deeds[|deeds| - 1].run !in Life(c, deeds[..|deeds| - 1]).archives))
  }

  ghost predicate CleanArchives(c: Codec, archives: map<string, Bytes>) {
    forall id :: id in archives ==> Clean(c, Split(archives[id]))
  }

  // ---------------------------------------------------------------------------

  lemma {:induction false} RetainedKeepsSeq(log: seq<Event>, run: string, top: int)
    requires Increasing(log) && forall i :: 0 <= i < |log| ==> 0 < log[i].seqNo <= top
    ensures
      var rest := Retained(log, run);
      Increasing(rest) && forall i :: 0 <= i < |rest| ==> 0 < rest[i].seqNo <= top
    decreases |log|
  {
    hide KeepLive;
    if log != [] {
      var init, last := log[..|log| - 1], log[|log| - 1];
      if init == [] { RetainedKeepsSeq(init, run, 0); } else { RetainedKeepsSeq(init, run, init[|init| - 1].seqNo); }
    }
  }

  lemma RechainingKeepsSeq(c: Codec, log: seq<Event>, top: int)
    requires AllWritable(c, log)
    requires Increasing(log) && forall i :: 0 <= i < |log| ==> 0 < log[i].seqNo <= top
    ensures
      var out := Rechained(c, log);
      Increasing(out) && forall i :: 0 <= i < |out| ==> 0 < out[i].seqNo <= top
  {
    hide Rechained, AllWritable;
    RechainedFacts(c, log);
    var out := Rechained(c, log);
    assert forall i :: 0 <= i < |log| ==> out[i].seqNo == log[i].seqNo;
  }

  /** A compacted file is read back as what was kept, and further appends find it intact. */
  lemma ShelvingKeepsIntact(c: Codec, j: Journal, run: string)
    requires Lawful(c) && Intact(c, j)
    ensures Intact(c, Shelved(c, j, run))
  {
    hide Split, LastLine, Chained, Parsed, Lawful, Increasing, Compacted, Rechained, Retained, Terminated, Clean;
    var rest := Retained(j.landed, run);
    AllParsedAreWritable(c, j.file, run);
    CompactedFile(c, rest);
    CompactedEndsInLine(c, rest);
    var top := if j.seqNo == 0 then MaxSeq(j.landed) else j.seqNo;
    MaxSeqIsMax(j.landed);
    RetainedKeepsSeq(j.landed, run, top);
    RechainingKeepsSeq(c, rest, top);
  }

  lemma {:induction false} DeedKeepsIntact(c: Codec, b: Books, d: Deed)
    requires Lawful(c) && Intact(c, b.live)
    ensures Intact(c, Kept(c, b, d).live)
  {
    hide Intact, Attempted, Lawful, Shelved;
    match d
    case Put(a) => AttemptKeepsIntact(c, b.live, a);
    case Shelve(run) => ShelvingKeepsIntact(c, b.live, run);
  }

  /** Whatever was appended, cut off or archived: the live log verifies without breaks and
      yields, in order and with strictly increasing numbers, the events that landed and
      were kept; every archive verifies clean. */
  lemma {:induction false} LivesAreIntact(c: Codec, deeds: seq<Deed>)
    requires Lawful(c)
    ensures Intact(c, Life(c, deeds).live)
    ensures
      var live := Life(c, deeds).live;
      && Check(c, Split(live.file)).report.breaks == []
      && EventsOf(c, live.file) == live.landed && Increasing(live.landed)
    ensures CleanArchives(c, Life(c, deeds).archives)
  {
    hide EventsOf, Increasing, Intact, Kept, Lawful, Check, Split, Clean;
    if deeds == [] {
      EmptyIsIntact(c);
    } else {
      var init, d := deeds[..|deeds| - 1], deeds[|deeds| - 1];
      LivesAreIntact(c, init);
      DeedKeepsIntact(c, Life(c, init), d);
      ArchivesStayClean(c, Life(c, init), d);
    }
    IntactHasNoBreaks(c, Life(c, deeds).live);
  }

  lemma IntactHasNoBreaks(c: Codec, j: Journal)
    requires Lawful(c) && Intact(c, j)
    ensures Check(c, Split(j.file)).report.breaks == []
    ensures EventsOf(c, j.file) == j.landed && Increasing(j.landed)
  {
    hide Check, Split, Lawful, Chained, Increasing, EventsOf;
    ChainedHasNoBreaks(c, Split(j.file));
  }

  lemma {:induction false} ArchivesStayClean(c: Codec, b: Books, d: Deed)
    requires Lawful(c) && CleanArchives(c, b.archives)
    ensures CleanArchives(c, Kept(c, b, d).archives)
  {
    hide Clean, Split, Lawful, Attempted, Shelved, Compacted, EventsOf, Archived;
    if d.Shelve? { ArchivalVerifies(c, b.live.file, d.run); }
  }

  // ---------------------------------------------------------------------------
  // Conservation
  // ---------------------------------------------------------------------------

  lemma AttemptAddsLanded(c: Codec, j: Journal, a: Attempt)
    ensures
      var j' := Attempted(c, j, a);
      |j.landed| <= |j'.landed| && j'.landed == j.landed + j'.landed[|j.landed|..]
  {
    hide AppendEffect;
  }

  /** As long as no run is archived twice, every event that ever landed is, up to its link,
      in the live log or in exactly one archive, and nothing else is. */
  lemma {:induction false} NothingIsLost(c: Codec, deeds: seq<Deed>)
    requires Lawful(c) && OnceEach(c, deeds)
    ensures
      var b := Life(c, deeds);
      Bare(b.ever) == Bag(c, b.archives) + Bare(EventsOf(c, b.live.file))
  {
    hide Bare, Bag, EventsOf, Kept, Lawful, Intact;
    if deeds == [] {
      NothingYet(c);
    } else {
      var init, d := deeds[..|deeds| - 1], deeds[|deeds| - 1];
      NothingIsLost(c, init);
      LivesAreIntact(c, init);
      match d
      case Put(a) => PutConserves(c, Life(c, init), a);
      case Shelve(run) => ShelvingConserves(c, Life(c, init), run);
    }
  }

  /** One process made every append. */
  predicate OneProcess(deeds: seq<Deed>) {
    forall i :: 0 <= i < |deeds| && deeds[i].Put? ==> !deeds[i].attempt.reopened
  }

  /** Numbers given so far do not exceed the counter, which stands at zero until one was. */
  ghost predicate Counted(b: Books) {
    && Increasing(b.ever) && (forall i :: 0 <= i < |b.ever| ==> 0 < b.ever[i].seqNo <= b.live.seqNo)
    && b.live.seqNo >= 0 && (b.live.seqNo == 0 ==> b.live.landed == [])
  }

  lemma {:induction false} PutCounts(c: Codec, b: Books, a: Attempt)
    requires Lawful(c) && Intact(c, b.live) && Counted(b) && !a.reopened
    ensures Counted(Kept(c, b, Put(a)))
  {
    hide Lawful, Split, Chained, Parsed, EventsOf, AppendEffect, MaxSeq, LastLine;
    var e := AppendEffect(c, b.live.file, b.live.seqNo, a.ev, a.budget);
    AppendTakesNext(c, b.live.file, b.live.seqNo, a.ev, a.budget);
    MaxSeqIsMax(EventsOf(c, b.live.file));
    assert Kept(c, b, Put(a)).ever == b.ever + if e.landed.Some? then [e.landed.value] else [];
  }

  /** As long as one process appends, no number is ever given twice, archivals or not. */
  lemma {:induction false} NumbersAreNeverReused(c: Codec, deeds: seq<Deed>)
    requires Lawful(c) && OneProcess(deeds)
    ensures Counted(Life(c, deeds)) && Increasing(Life(c, deeds).ever)
  {
    hide Lawful, Intact, Increasing;
    if deeds == [] {
      assert Increasing([]) by { NoneInOrder(); }
    } else {
      var init, d := deeds[..|deeds| - 1], deeds[|deeds| - 1];
      assert forall i :: 0 <= i < |init| ==> init[i] == deeds[i];
      NumbersAreNeverReused(c, init);
      LivesAreIntact(c, init);
      match d
      case Put(a) => PutCounts(c, Life(c, init), a);
      case Shelve(run) =>
        hide Compacted, EventsOf;
        NothingRetained(run);
    }
  }

  /** An append on an empty log by a new process, with all the bytes it needs. */
  lemma FirstLands(c: Codec, j: Journal, e: Event)
    requires Lawful(c) && c.writable(e.data) && e.kind != "" && j.file == [] && j.landed == []
    ensures
      var first := e.(seqNo := 1, prev := "");
      var j' := Attempted(c, j, Attempt(true, e, |c.render(first)| + 1));
      j'.landed == [first] && j'.seqNo == 1
  {
    assert EventsOf(c, []) == [];
  }

  lemma LifeGrows(c: Codec, deeds: seq<Deed>, d: Deed)
    ensures Life(c, deeds + [d]) == Kept(c, Life(c, deeds), d)
    ensures OnceEach(c, deeds + [d]) <==> OnceEach(c, deeds) && (d.Shelve? ==> d.run !in Life(c, deeds).archives)
  {
    assert (deeds + [d])[..|deeds|] == deeds;
  }

  /** A new process counts from the live log alone: after an archival that leaves it empty it
      gives the same number again. */
  lemma {:induction false} NewProcessReusesNumbers(c: Codec, e: Event) returns (deeds: seq<Deed>)
    requires Lawful(c) && c.writable(e.data) && e.kind != "" && !KeepLive(e)
    ensures OnceEach(c, deeds)
    ensures
      var ever := Life(c, deeds).ever;
      |ever| == 2 && ever[0].seqNo == 1 && ever[1].seqNo == 1
  {
    hide Lawful, Attempted, Life, OnceEach, Shelved, Compacted, EventsOf;
    var put := Put(Attempt(true, e, |c.render(e.(seqNo := 1, prev := ""))| + 1));
    NothingDone(c);
    FirstLands(c, Life(c, []).live, e);
    LifeGrows(c, [], put);
    var one := [] + [put];
    LivesAreIntact(c, one);
    LifeGrows(c, one, Shelve(e.run));
    var two := one + [Shelve(e.run)];
    LeavesNothing(c, Life(c, one).live, e.run);
    LifeGrows(c, two, put);
    FirstLands(c, Life(c, two).live, e);
    deeds := two + [put];
  }

  lemma NothingDone(c: Codec)
    ensures OnceEach(c, []) && Life(c, []) == Books(Journal([], 0, []), map[], [])
  {
  }

  lemma LeavesNothing(c: Codec, j: Journal, run: string)
    requires |j.landed| == 1 && j.landed[0].run == run && !KeepLive(j.landed[0]) && EventsOf(c, j.file) == j.landed
    ensures Shelved(c, j, run).file == [] && Shelved(c, j, run).landed == []
  {
    hide EventsOf;
    assert j.landed[..0] == [] && Retained([], run) == [];
    assert Retained(j.landed, run) == [];
    NothingWritten(c);
  }

  lemma NoneInOrder()
    ensures Increasing([])
  {
  }

  lemma NothingRetained(run: string)
    ensures Retained([], run) == []
  {
  }

  lemma NothingYet(c: Codec)
    ensures Bare([]) == Bag(c, map[]) + Bare(EventsOf(c, []))
  {
  }

  lemma {:induction false} PutConserves(c: Codec, b: Books, a: Attempt)
    requires Lawful(c) && Intact(c, b.live)
    requires Bare(b.ever) == Bag(c, b.archives) + Bare(EventsOf(c, b.live.file))
    ensures
      var b' := Kept(c, b, Put(a));
      Bare(b'.ever) == Bag(c, b'.archives) + Bare(EventsOf(c, b'.live.file))
  {
    hide Bare, Bag, EventsOf, Attempted, Lawful, Chained, Increasing, Terminated, LastLine;
    var j := Attempted(c, b.live, a);
    AttemptKeepsIntact(c, b.live, a);
    AttemptAddsLanded(c, b.live, a);
    var more := j.landed[|b.live.landed|..];
    BareConcat(b.ever, more);
    BareConcat(b.live.landed, more);
  }

  lemma {:induction false} ShelvingConserves(c: Codec, b: Books, run: string)
    requires Lawful(c) && run !in b.archives
    requires Bare(b.ever) == Bag(c, b.archives) + Bare(EventsOf(c, b.live.file))
    ensures
      var b' := Kept(c, b, Shelve(run));
      Bare(b'.ever) == Bag(c, b'.archives) + Bare(EventsOf(c, b'.live.file))
  {
    hide Bare, Bag, EventsOf, Lawful, Archived, Retained, Compacted, Rechained;
    var all := EventsOf(c, b.live.file);
    var mine, rest := Archived(all, run), Retained(all, run);
    var archives' := b.archives[run := Compacted(c, mine)];
    AllParsedAreWritable(c, b.live.file, run);
    CompactedFile(c, mine);
    CompactedFile(c, rest);
    BareOfRechained(c, mine);
    BareOfRechained(c, rest);
    BareSplits(all, run);
    BagWithout(c, archives', run);
    assert archives' - {run} == b.archives;
  }
}

/** Archiving a closed run: both rewritten files chain cleanly and no event is lost. */
module Archive {
  import opened Values
  import opened Events
  import opened Lines
  import opened HashChain
  import opened Ledger
  import opened Retention

  predicate AllWritable(c: Codec, events: seq<Event>) {
    forall i :: 0 <= i < |events| ==> c.writable(events[i].data)
  }

  /** The events as a rewrite links them. */
  function Rechained(c: Codec, events: seq<Event>): (out: seq<Event>)
    ensures |out| == |events|
  {
    if events == [] then []
    else
      var init := Rechained(c, events[..|events| - 1]);
      init + [events[|events| - 1].(prev := if init == [] then "" else c.hash(c.render(init[|init| - 1])))]
  }

  function Rendered(c: Codec, events: seq<Event>): (lines: seq<Bytes>)
    ensures |lines| == |events|
  {
    if events == [] then [] else Rendered(c, events[..|events| - 1]) + [c.render(events[|events| - 1])]
  }

  function FileOf(lines: seq<Bytes>): Bytes {
    if lines == [] then [] else FileOf(lines[..|lines| - 1]) + (lines[|lines| - 1] + [NL])
  }

  /** Rewrites a log file, anchoring the chain anew. */
  method WriteEvents(c: Codec, events: seq<Event>) returns (file: Bytes)
    ensures file == FileOf(Rendered(c, Rechained(c, events)))
  {
    hide FileOf, Rendered, Rechained;
    file := [];
    var prev := "";
    NothingWritten(c);
    for i := 0 to |events|
      invariant file == FileOf(Rendered(c, Rechained(c, events[..i])))
      invariant
        var done := Rechained(c, events[..i]);
        prev == if done == [] then "" else c.hash(c.render(done[|done| - 1]))
    {
      assert events[..i + 1] == events[..i] + [events[i]];
      RechainedAppend(c, events[..i], events[i]);
      var e := events[i].(prev := prev);
      var line := c.render(e);
      WriteStep(c, Rechained(c, events[..i]), e);
      file := file + (line + [NL]);
      prev := c.hash(line);
    }
    assert events[..|events|] == events;
  }

  lemma NothingWritten(c: Codec)
    ensures Rechained(c, []) == [] && FileOf(Rendered(c, [])) == []
  {
  }

  lemma RechainedAppend(c: Codec, events: seq<Event>, e: Event)
    ensures
      var done := Rechained(c, events);
      Rechained(c, events + [e]) ==
      done + [e.(prev := if done == [] then "" else c.hash(c.render(done[|done| - 1])))]
  {
    assert (events + [e])[..|events|] == events;
  }

  lemma WriteStep(c: Codec, done: seq<Event>, e: Event)
    ensures FileOf(Rendered(c, done + [e])) == FileOf(Rendered(c, done)) + (c.render(e) + [NL])
  {
    assert (done + [e])[..|done|] == done;
    var lines := Rendered(c, done);
    assert (lines + [c.render(e)])[..|lines|] == lines;
  }

  function CountSolid(lines: seq<Bytes>): nat {
    if lines == [] then 0
    else CountSolid(lines[..|lines| - 1]) + if lines[|lines| - 1] != [] then 1 else 0
  }

  method CountLines(file: Bytes) returns (n: nat)
    ensures n == CountSolid(Split(file))
    ensures n == |set i | 0 <= i < |Split(file)| && Split(file)[i] != []|
  {
    var lines := Split(file);
    n := 0;
    for i := 0 to |lines|
      invariant n == CountSolid(lines[..i])
    {
      assert lines[..i + 1][..i] == lines[..i];
      if |lines[i]| > 0 {
        n := n + 1;
      }
    }
    assert lines[..|lines|] == lines;
    SolidAreCounted(lines);
  }

  lemma {:induction false} SolidAreCounted(lines: seq<Bytes>)
    ensures CountSolid(lines) == |set i | 0 <= i < |lines| && lines[i] != []|
  {
    if lines != [] {
      var init := lines[..|lines| - 1];
      SolidAreCounted(init);
      assert (set i | 0 <= i < |lines| && lines[i] != []) ==
             (set i | 0 <= i < |init| && init[i] != []) + if lines[|lines| - 1] != [] then {|init|} else {};
    }
  }

  class Repository {
    const codec: Codec
    var live: Bytes
    var archives: map<string, Bytes>

    constructor (codec: Codec, live: Bytes, archives: map<string, Bytes>)
      ensures this.codec == codec && this.live == live && this.archives == archives
    {
      this.codec, this.live, this.archives := codec, live, archives;
    }

    /** Moves a run's events into its archive and compacts the live log. */
    method ArchiveRun(run: string) returns (ok: bool)
      requires Lawful(codec)
      modifies this
      ensures ok
      ensures
        var all := EventsOf(codec, old(live));
        && live == Compacted(codec, Retained(all, run))
        && archives == old(archives)[run := Compacted(codec, Archived(all, run))]
    {
      hide EventsOf, Archived, Retained, Lawful, FileOf, KeepLive;
      var all := EventsOf(codec, live);
      var mine, rest := Divide(all, run);
      var archive := WriteEvents(codec, mine);
      archives := archives[run := archive];
      var n := CountLines(archive);
      AllParsedAreWritable(codec, live, run);
      CompactedFile(codec, mine);
      CountOfSolid(Split(archive));
      if n != |mine| {
        return false;
      }
      live := WriteEvents(codec, rest);
      return true;
    }

    method Divide(all: seq<Event>, run: string) returns (mine: seq<Event>, rest: seq<Event>)
      ensures mine == Archived(all, run) && rest == Retained(all, run)
    {
      mine, rest := [], [];
      for i := 0 to |all|
        invariant mine == Archived(all[..i], run) && rest == Retained(all[..i], run)
      {
        assert all[..i + 1][..i] == all[..i];
        if all[i].run == run && !KeepLive(all[i]) {
          mine := mine + [all[i]];
        } else {
          rest := rest + [all[i]];
        }
      }
      assert all[..|all|] == all;
    }
  }

  function Compacted(c: Codec, events: seq<Event>): Bytes {
    FileOf(Rendered(c, Rechained(c, events)))
  }

  // ---------------------------------------------------------------------------

  predicate LinkedAt(c: Codec, events: seq<Event>, i: nat)
    requires i < |events|
  {
    events[i].prev == if i == 0 then "" else c.hash(c.render(events[i - 1]))
  }

  lemma {:induction false} RechainedFacts(c: Codec, events: seq<Event>)
    requires AllWritable(c, events)
    ensures AllWritable(c, Rechained(c, events))
    ensures
      var out := Rechained(c, events);
      && (forall i :: 0 <= i < |events| ==> out[i] == events[i].(prev := out[i].prev))
      && (forall i :: 0 <= i < |events| ==> LinkedAt(c, out, i))
  {
    if events != [] {
      var init := events[..|events| - 1];
      assert forall i :: 0 <= i < |init| ==> init[i] == events[i];
      RechainedFacts(c, init);
      var out, front := Rechained(c, events), Rechained(c, init);
      forall i | 0 <= i < |events|
        ensures LinkedAt(c, out, i)
      {
        if i < |init| { assert LinkedAt(c, front, i); }
      }
    }
  }

  lemma {:induction false} RenderedFacts(c: Codec, events: seq<Event>)
    ensures forall i :: 0 <= i < |events| ==> Rendered(c, events)[i] == c.render(events[i])
  {
    if events != [] { RenderedFacts(c, events[..|events| - 1]); }
  }

  predicate Plain(line: Bytes) {
    line != [] && NL !in line && CR !in line
  }

  /** Reading back a file yields the lines it was made of. */
  lemma {:induction false} SplitOfFile(lines: seq<Bytes>)
    requires forall i :: 0 <= i < |lines| ==> Plain(lines[i])
    ensures Terminated(FileOf(lines)) && Split(FileOf(lines)) == lines
  {
    hide Split;
    if lines == [] {
      EmptyFile();
    } else {
      var init, last := lines[..|lines| - 1], lines[|lines| - 1];
      SplitOfFile(init);
      LineLands(FileOf(init), last);
      assert lines == init + [last];
    }
  }

  /** Such a file is what a tidy append expects to find. */
  lemma {:induction false} FileEndsInLine(lines: seq<Bytes>)
    requires forall i :: 0 <= i < |lines| ==> Plain(lines[i])
    ensures CR !in FileOf(lines) && Terminated(FileOf(lines))
    ensures FileOf(lines) != [] ==> LastLine(FileOf(lines)) != []
  {
    hide LastLine;
    if lines != [] {
      var init, last := lines[..|lines| - 1], lines[|lines| - 1];
      FileEndsInLine(init);
      LineLands(FileOf(init), last);
    }
  }

  lemma CompactedEndsInLine(c: Codec, events: seq<Event>)
    requires Lawful(c) && AllWritable(c, events)
    ensures
      var file := Compacted(c, events);
      CR !in file && Terminated(file) && (file != [] ==> LastLine(file) != [])
  {
    hide FileOf, LastLine, Rendered, Rechained;
    var out := Rechained(c, events);
    RechainedFacts(c, events);
    RenderedFacts(c, out);
    forall i | 0 <= i < |out|
      ensures Plain(Rendered(c, out)[i])
    {
      assert c.writable(out[i].data);
    }
    FileEndsInLine(Rendered(c, out));
  }

  lemma EmptyFile()
    ensures Split([]) == []
  {
  }

  lemma {:induction false} ParsedOfRendered(c: Codec, events: seq<Event>)
    requires Lawful(c) && AllWritable(c, events)
    ensures Parsed(c, Rendered(c, events)) == events
  {
    if events != [] {
      var init, last := events[..|events| - 1], events[|events| - 1];
      assert AllWritable(c, init);
      ParsedOfRendered(c, init);
      ParsedAppend(c, Rendered(c, init), c.render(last));
      assert events == init + [last];
    }
  }

  /** A rewritten file holds its events, in order, up to their links, and verifies clean. */
  lemma {:induction false} CompactedFile(c: Codec, events: seq<Event>)
    requires Lawful(c) && AllWritable(c, events)
    ensures EventsOf(c, Compacted(c, events)) == Rechained(c, events)
    ensures Solid(Split(Compacted(c, events))) && |Split(Compacted(c, events))| == |events|
    ensures Clean(c, Split(Compacted(c, events))) && Chained(c, Split(Compacted(c, events)))
  {
    hide Split, FileOf, Check, Parsed, Rendered, Rechained;
    var out := Rechained(c, events);
    var lines := Rendered(c, out);
    RechainedFacts(c, events);
    RenderedFacts(c, out);
    SplitOfFile(lines);
    ParsedOfRendered(c, out);
    forall i | 0 <= i < |lines|
      ensures LineOk(c, lines, i) && c.parse(lines[i]).Some?
    {
      assert lines[i] == c.render(out[i]) && c.writable(out[i].data);
      assert c.parse(lines[i]) == Some(out[i]);
      assert LinkedAt(c, out, i);
    }
    ChainedHasNoBreaks(c, lines);
    UnparseableCount(c, lines);
  }

  lemma {:induction false} CountOfSolid(lines: seq<Bytes>)
    requires Solid(lines)
    ensures CountSolid(lines) == |lines|
  {
    if lines != [] { CountOfSolid(lines[..|lines| - 1]); }
  }

  lemma {:induction false} ParsedAreWritable(c: Codec, lines: seq<Bytes>)
    requires Lawful(c)
    ensures forall e :: e in Parsed(c, lines) ==> c.writable(e.data)
  {
    if lines != [] { ParsedAreWritable(c, lines[..|lines| - 1]); }
  }

  lemma AllParsedAreWritable(c: Codec, file: Bytes, run: string)
    requires Lawful(c)
    ensures AllWritable(c, EventsOf(c, file))
    ensures AllWritable(c, Archived(EventsOf(c, file), run)) && AllWritable(c, Retained(EventsOf(c, file), run))
  {
    hide Split, Parsed, Archived, Retained, KeepLive, Lawful;
    ParsedAreWritable(c, Split(file));
    SplitByRun(EventsOf(c, file), run);
  }

  // ---------------------------------------------------------------------------
  // Conservation
  // ---------------------------------------------------------------------------

  /** The events without their links, with multiplicity. */
  function Bare(events: seq<Event>): multiset<Event> {
    if events == [] then multiset{}
    else Bare(events[..|events| - 1]) + multiset{events[|events| - 1].(prev := "")}
  }

  lemma {:induction false} BareConcat(a: seq<Event>, b: seq<Event>)
    ensures Bare(a + b) == Bare(a) + Bare(b)
  {
    if b == [] {
      assert a + b == a;
    } else {
      hide Bare;
      var init, last := b[..|b| - 1], b[|b| - 1];
      BareConcat(a, init);
      TakeLast(a, b);
    }
  }

  lemma TakeLast(a: seq<Event>, b: seq<Event>)
    requires b != []
    ensures b == b[..|b| - 1] + [b[|b| - 1]]
    ensures a + b == (a + b[..|b| - 1]) + [b[|b| - 1]]
  {
  }

  lemma {:induction false} BareOfRechained(c: Codec, events: seq<Event>)
    ensures Bare(Rechained(c, events)) == Bare(events)
  {
    if events != [] {
      var init := events[..|events| - 1];
      BareOfRechained(c, init);
      assert Rechained(c, events)[..|init|] == Rechained(c, init);
    }
  }

  lemma {:induction false} BareSplits(log: seq<Event>, run: string)
    ensures Bare(log) == Bare(Archived(log, run)) + Bare(Retained(log, run))
  {
    if log != [] {
      hide KeepLive, Bare, Archived, Retained;
      var init, last := log[..|log| - 1], log[|log| - 1];
      assert init + [last] == log;
      BareSplits(init, run);
      var a, r := Archived(init, run), Retained(init, run);
      SplitAppend(init, last, run);
    }
  }

  /** Archived runs in the order they are listed, then the live log. */
  function AllEvents(c: Codec, archives: map<string, Bytes>, listing: seq<string>, live: Bytes): seq<Event>
    requires forall i :: 0 <= i < |listing| ==> listing[i] in archives
  {
    ArchivedEvents(c, archives, listing) + EventsOf(c, live)
  }

  function ArchivedEvents(c: Codec, archives: map<string, Bytes>, listing: seq<string>): seq<Event>
    requires forall i :: 0 <= i < |listing| ==> listing[i] in archives
  {
    if listing == [] then []
    else
      ArchivedEvents(c, archives, listing[..|listing| - 1])
      + EventsOf(c, archives[listing[|listing| - 1]])
  }

  /** A directory listing: every archive once, in some order. */
  predicate IsListing(archives: map<string, Bytes>, listing: seq<string>) {
    && (forall i :: 0 <= i < |listing| ==> listing[i] in archives)
    && (forall id :: id in archives ==> id in listing)
    && forall i, j :: 0 <= i < j < |listing| ==> listing[i] != listing[j]
  }

  ghost function Bag(c: Codec, archives: map<string, Bytes>): multiset<Event> {
    if archives == map[] then multiset{}
    else
      var id :| id in archives;
      Bare(EventsOf(c, archives[id])) + Bag(c, archives - {id})
  }

  lemma {:induction false} BagWithout(c: Codec, archives: map<string, Bytes>, id: string)
    requires id in archives
    ensures Bag(c, archives) == Bare(EventsOf(c, archives[id])) + Bag(c, archives - {id})
  {
    hide EventsOf, Bare;
    var picked :| picked in archives
                  && Bag(c, archives) == Bare(EventsOf(c, archives[picked])) + Bag(c, archives - {picked});
    if picked != id {
      BagWithout(c, archives - {picked}, id);
      BagWithout(c, archives - {id}, picked);
      assert archives - {picked} - {id} == archives - {id} - {picked};
    }
  }

  /** The listing order does not matter for what is there. */
  lemma {:induction false} BagOfListing(c: Codec, archives: map<string, Bytes>, listing: seq<string>)
    requires IsListing(archives, listing)
    ensures Bare(ArchivedEvents(c, archives, listing)) == Bag(c, archives)
    decreases |listing|
  {
    if listing == [] {
      assert archives == map[];
    } else {
      hide EventsOf, Bag, Bare;
      var init, id := listing[..|listing| - 1], listing[|listing| - 1];
      var fewer := archives - {id};
      BagOfListing(c, fewer, init);
      SameArchives(c, archives, fewer, init);
      BareConcat(ArchivedEvents(c, archives, init), EventsOf(c, archives[id]));
      BagWithout(c, archives, id);
    }
  }

  lemma {:induction false} SameArchives(c: Codec, a: map<string, Bytes>, b: map<string, Bytes>, listing: seq<string>)
    requires forall i :: 0 <= i < |listing| ==> listing[i] in a && listing[i] in b && a[listing[i]] == b[listing[i]]
    ensures ArchivedEvents(c, a, listing) == ArchivedEvents(c, b, listing)
  {
    if listing != [] { SameArchives(c, a, b, listing[..|listing| - 1]); }
  }

  /** Archiving a run conserves all events, up to links and in whatever order archives are
      listed, exactly when nothing had been archived under its identity before. */
  lemma ArchiveConservesIff(
    c: Codec, archives: map<string, Bytes>, live: Bytes, run: string, before: seq<string>, after: seq<string>)
    requires Lawful(c)
    requires
      var all := EventsOf(c, live);
      IsListing(archives, before) && IsListing(archives[run := Compacted(c, Archived(all, run))], after)
    ensures
      var all := EventsOf(c, live);
      var archives' := archives[run := Compacted(c, Archived(all, run))];
      var live' := Compacted(c, Retained(all, run));
      Bare(AllEvents(c, archives', after, live')) == Bare(AllEvents(c, archives, before, live))
      <==> (run in archives ==> EventsOf(c, archives[run]) == [])
  {
    hide EventsOf, Archived, Retained, Lawful, Bag, Compacted, Rechained, ArchivedEvents, Bare;
    var all := EventsOf(c, live);
    var mine, rest := Archived(all, run), Retained(all, run);
    var archives' := archives[run := Compacted(c, mine)];
    BagOfListing(c, archives, before);
    BagOfListing(c, archives', after);
    BareConcat(ArchivedEvents(c, archives, before), all);
    BareConcat(ArchivedEvents(c, archives', after), EventsOf(c, Compacted(c, rest)));
    AllParsedAreWritable(c, live, run);
    CompactedFile(c, mine);
    CompactedFile(c, rest);
    BareOfRechained(c, mine);
    BareOfRechained(c, rest);
    BareSplits(all, run);
    BagWithout(c, archives', run);
    assert archives' - {run} == archives - {run};
    if run in archives {
      BagWithout(c, archives, run);
      BareIsEmpty(EventsOf(c, archives[run]));
    } else {
      assert archives - {run} == archives;
    }
  }

  lemma BareIsEmpty(events: seq<Event>)
    ensures Bare(events) == multiset{} <==> events == []
  {
    if events != [] { assert events[|events| - 1].(prev := "") in Bare(events); }
  }

  /** Both files written by an archival verify without breaks and without torn lines. */
  lemma ArchivalVerifies(c: Codec, live: Bytes, run: string)
    requires Lawful(c)
    ensures
      var all := EventsOf(c, live);
      && Clean(c, Split(Compacted(c, Archived(all, run))))
      && Clean(c, Split(Compacted(c, Retained(all, run))))
  {
    hide EventsOf, Archived, Retained, Lawful, Clean, Compacted;
    AllParsedAreWritable(c, live, run);
    CompactedFile(c, Archived(EventsOf(c, live), run));
    CompactedFile(c, Retained(EventsOf(c, live), run));
  }
}

/** The append-only log under crashes: what a write that stops anywhere leaves behind. */
module Ledger {
  import opened Values
  import opened Events
  import opened Lines
  import opened HashChain

  datatype WriteOutcome = Written | CutShort | Refused

  /** What one append did: the file and sequence counter after it, and the event whose
      whole line reached the file. */
  datatype Effect = Effect(file: Bytes, seqNo: int, landed: Option<Event>, outcome: WriteOutcome)

  function MaxSeq(events: seq<Event>): int {
    if events == [] then 0
    else
      var rest, last := MaxSeq(events[..|events| - 1]), events[|events| - 1].seqNo;
      if last > rest then last else rest
  }

  function EventsOf(c: Codec, file: Bytes): seq<Event> {
    Parsed(c, Split(file))
  }

  function Healing(file: Bytes): Bytes {
    if Terminated(file) then [] else [NL]
  }

  function PrevFor(c: Codec, file: Bytes): string
    requires Terminated(file)
  {
    if file == [] then "" else c.hash(LastLine(file))
  }

  /** Writing the line of an event when only `left` more bytes reach the disk. */
  function LineEffect(c: Codec, file: Bytes, seqNo: int, ev: Event, left: nat): Effect {
    var line := c.render(ev);
    if left > |line| then Effect(file + (line + [NL]), seqNo, Some(ev), Written)
    else Effect(file + line[..left], seqNo, if left == |line| then Some(ev) else None, CutShort)
  }

  /** Appending `ev` when only `budget` more bytes reach the disk. */
  function AppendEffect(c: Codec, file: Bytes, seqNo: int, ev: Event, budget: nat): Effect {
    if ev.kind == "" then Effect(file, seqNo, None, Refused)
    else
      var next := (if seqNo == 0 then MaxSeq(EventsOf(c, file)) else seqNo) + 1;
      var heal := Healing(file);
      if budget < |heal| then Effect(file, next, None, CutShort)
      else
        var healed := file + heal;
        var stamped := ev.(seqNo := next, prev := PrevFor(c, healed));
        if !c.writable(ev.data) then Effect(healed, next, None, Refused)
        else
          LineEffect(c, healed, next, stamped, budget - |heal|)
  }

  /** An event that came without an identity or a time gets them. */
  function Filled(ev: Event, id: string, now: string): Event {
    ev.(id := if ev.id == "" then id else ev.id, ts := if ev.ts == "" then now else ev.ts)
  }

  class Store {
    const codec: Codec
    var file: Bytes
    var seqNo: int

    constructor (codec: Codec, file: Bytes)
      ensures this.codec == codec && this.file == file && seqNo == 0
    {
      this.codec, this.file := codec, file;
      seqNo := 0;
    }

    /** Writes at most `left` bytes at the end of the file. */
    method Write(bytes: Bytes, left: nat) returns (written: nat)
      modifies this`file
      ensures written == (if left < |bytes| then left else |bytes|)
      ensures file == old(file) + bytes[..written]
    {
      written := if left < |bytes| then left else |bytes|;
      file := file + bytes[..written];
    }

    /** The highest sequence number on file. */
    method LastSeq() returns (last: int)
      ensures last == MaxSeq(EventsOf(codec, file))
    {
      last := 0;
      var events := EventsOf(codec, file);
      for i := 0 to |events|
        invariant last == MaxSeq(events[..i])
      {
        assert events[..i + 1][..i] == events[..i];
        if events[i].seqNo > last {
          last := events[i].seqNo;
        }
      }
      assert events[..|events|] == events;
    }

    /** A torn tail is ended first, so that its partial line stays on its own. */
    method EndTornTail(budget: nat) returns (done: bool, left: nat)
      modifies this`file
      ensures done <==> |Healing(old(file))| <= budget
      ensures done ==>
                && file == old(file) + Healing(old(file)) && Terminated(file)
                && left == budget - |Healing(old(file))|
      ensures !done ==> file == old(file)
    {
      left := budget;
      if file != [] && file[|file| - 1] != NL {
        var n := Write([NL], left);
        if n < 1 {
          return false, left;
        }
        left := left - n;
      } else {
        assert file + [] == file;
      }
      return true, left;
    }

    /** Appends the event, giving it identity and time where it has none; `budget` is how
        many bytes reach the disk before the write fails or the machine stops. */
    method Append(given: Event, id: string, now: string, budget: nat)
      returns (landed: Option<Event>, outcome: WriteOutcome)
      modifies this
      ensures Effect(file, seqNo, landed, outcome) ==
              AppendEffect(codec, old(file), old(seqNo), Filled(given, id, now), budget)
      ensures landed.Some? ==>
                && (given.id != "" ==> landed.value.id == given.id) && (given.id == "" ==> landed.value.id == id)
                && (given.ts != "" ==> landed.value.ts == given.ts) && (given.ts == "" ==> landed.value.ts == now)
                && landed.value.(id := given.id, ts := given.ts, seqNo := given.seqNo, prev := given.prev) == given
    {
      hide EventsOf, MaxSeq, PrevFor, Healing;
      var ev := given;
      if ev.kind == "" {
        return None, Refused;
      }
      if ev.id == "" {
        ev := ev.(id := id);
      }
      if ev.ts == "" {
        ev := ev.(ts := now);
      }
      landed, outcome := AppendStamped(ev, budget);
    }

    /** Numbers and links the event and writes its line. */
    method AppendStamped(given: Event, budget: nat) returns (landed: Option<Event>, outcome: WriteOutcome)
      requires given.kind != ""
      modifies this
      ensures Effect(file, seqNo, landed, outcome) == AppendEffect(codec, old(file), old(seqNo), given, budget)
    {
      hide EventsOf, MaxSeq, LastLine, PrevFor, Healing, Terminated, LineEffect;
      var ev := given;
      if seqNo == 0 {
        seqNo := LastSeq();
      }
      seqNo := seqNo + 1;
      ev := ev.(seqNo := seqNo);
      var healed, left := EndTornTail(budget);
      if !healed {
        return None, CutShort;
      }
      ev := ev.(prev := "");
      if file != [] {
        ev := ev.(prev := codec.hash(LastLine(file)));
      }
      PrevIsLink(codec, file);
      if !codec.writable(ev.data) {
        return None, Refused;
      }
      landed, outcome := WriteLine(ev, left);
    }

    /** Writes the line of an event as far as the disk takes it. */
    method WriteLine(ev: Event, left: nat) returns (landed: Option<Event>, outcome: WriteOutcome)
      modifies this`file
      ensures Effect(file, seqNo, landed, outcome) == LineEffect(codec, old(file), seqNo, ev, left)
    {
      var line := codec.render(ev);
      var n := Write(line + [NL], left);
      CutLine(line, n);
      if n < |line| + 1 {
        return if n == |line| then Some(ev) else None, CutShort;
      }
      return Some(ev), Written;
    }
  }

  lemma PrevIsLink(c: Codec, file: Bytes)
    requires Terminated(file)
    ensures PrevFor(c, file) == if file == [] then "" else c.hash(LastLine(file))
  {
  }

  lemma CutLine(line: Bytes, n: nat)
    requires n <= |line| + 1
    ensures (line + [NL])[..n] == if n <= |line| then line[..n] else line + [NL]
  {
  }

  // ---------------------------------------------------------------------------
  // Histories
  // ---------------------------------------------------------------------------

  /** One attempt, by the process of the one before or by a new one that has to find the
      counter again, cut off after `budget` bytes. */
  datatype Attempt = Attempt(reopened: bool, ev: Event, budget: nat)

  datatype Journal = Journal(file: Bytes, seqNo: int, landed: seq<Event>)

  function Attempted(c: Codec, j: Journal, a: Attempt): Journal {
    var e := AppendEffect(c, j.file, if a.reopened then 0 else j.seqNo, a.ev, a.budget);
    Journal(e.file, e.seqNo, j.landed + if e.landed.Some? then [e.landed.value] else [])
  }

  /** Everything that happened to an initially empty log. */
  function History(c: Codec, attempts: seq<Attempt>): Journal {
    if attempts == [] then Journal([], 0, [])
    else Attempted(c, History(c, attempts[..|attempts| - 1]), attempts[|attempts| - 1])
  }

  // ---------------------------------------------------------------------------
  // What every history keeps
  // ---------------------------------------------------------------------------

  /** A line is torn, or carries the link to the line before it. */
  ghost predicate LineOk(c: Codec, lines: seq<Bytes>, i: nat)
    requires i < |lines|
  {
    && lines[i] != []
    && (c.parse(lines[i]).Some? ==> PrevOf(c, lines[i]) == if i == 0 then "" else c.hash(lines[i - 1]))
  }

  ghost predicate Chained(c: Codec, lines: seq<Bytes>) {
    forall i :: 0 <= i < |lines| ==> LineOk(c, lines, i)
  }

  predicate Increasing(events: seq<Event>) {
    forall i, j :: 0 <= i < j < |events| ==> events[i].seqNo < events[j].seqNo
  }

  /** The file ends in a newline or in a line that is not empty. */
  ghost predicate Intact(c: Codec, j: Journal) {
    && CR !in j.file
    && (j.file != [] && Terminated(j.file) ==> LastLine(j.file) != [])
    && Chained(c, Split(j.file))
    && EventsOf(c, j.file) == j.landed
    && Increasing(j.landed)
    && (forall i :: 0 <= i < |j.landed| ==> 0 < j.landed[i].seqNo)
    && (j.seqNo == 0 || (j.seqNo > 0 && forall i :: 0 <= i < |j.landed| ==> j.landed[i].seqNo <= j.seqNo))
  }

  lemma {:induction false} MaxSeqIsMax(events: seq<Event>)
    ensures MaxSeq(events) >= 0
    ensures forall i :: 0 <= i < |events| ==> events[i].seqNo <= MaxSeq(events)
  {
    if events != [] { MaxSeqIsMax(events[..|events| - 1]); }
  }

  lemma ParsedAppend(c: Codec, lines: seq<Bytes>, raw: Bytes)
    ensures Parsed(c, lines + [raw]) ==
            Parsed(c, lines) + if raw != [] && c.parse(raw).Some? then [c.parse(raw).value] else []
  {
    assert (lines + [raw])[..|lines|] == lines;
  }

  /** Ending a torn tail leaves every line as it was. */
  lemma HealingKeepsLines(file: Bytes)
    ensures Terminated(file + Healing(file))
    ensures Split(file + Healing(file)) == Split(file)
  {
    if Terminated(file) { assert file + [] == file; } else { SplitHealed(file); }
  }

  lemma HealedLastLine(file: Bytes)
    requires file != [] && CR !in file && (Terminated(file) ==> LastLine(file) != [])
    ensures
      var healed := file + Healing(file);
      LastLine(healed) != [] && Split(healed) != [] && Split(healed)[|Split(healed)| - 1] == LastLine(healed)
  {
    var healed := file + Healing(file);
    HealingKeepsLines(file);
    if Terminated(file) { assert healed == file; } else { assert healed[..|healed| - 1] == file; }
    LastLineIsLast(healed);
  }

  /** Putting a prefix of a line after a newline adds that prefix as the last line. */
  lemma LineLands(file: Bytes, part: Bytes)
    requires Terminated(file) && part != [] && NL !in part && CR !in part
    ensures Split(file + part) == Split(file) + [part]
    ensures Split(file + (part + [NL])) == Split(file) + [part]
    ensures !Terminated(file + part)
    ensures LastLine(file + (part + [NL])) == part
  {
    hide Split, AfterLastNewline;
    SplitConcat(file, part);
    SplitConcat(file, part + [NL]);
    SplitOneLine(part);
    AfterNewline(file, part);
    WholeLine(file, part);
  }

  lemma WholeLine(file: Bytes, part: Bytes)
    requires part != [] && NL !in part
    ensures
      var whole := file + (part + [NL]);
      Terminated(whole) && whole[..|whole| - 1] == file + part && !Terminated(file + part)
  {
  }

  lemma {:induction false} AfterNewline(file: Bytes, part: Bytes)
    requires Terminated(file) && NL !in part
    ensures AfterLastNewline(file + part) == part
  {
    if part == [] {
      assert file + part == file;
    } else {
      var init := part[..|part| - 1];
      AfterNewline(file, init);
      assert (file + part)[..|file + part| - 1] == file + init;
    }
  }

  lemma ChainedAppend(c: Codec, lines: seq<Bytes>, part: Bytes)
    requires Chained(c, lines) && part != []
    requires c.parse(part).Some? ==> PrevOf(c, part) == if lines == [] then "" else c.hash(lines[|lines| - 1])
    ensures Chained(c, lines + [part])
  {
    var more := lines + [part];
    forall i | 0 <= i < |more|
      ensures LineOk(c, more, i)
    {
      if i < |lines| { assert LineOk(c, lines, i); }
    }
  }

  /** The stamped event continues the chain and the numbering of an intact journal. */
  lemma StampFits(c: Codec, j: Journal, stamped: Event, next: int)
    requires Intact(c, j)
    requires next == (if j.seqNo == 0 then MaxSeq(EventsOf(c, j.file)) else j.seqNo) + 1
    requires stamped.seqNo == next && stamped.prev == PrevFor(c, j.file + Healing(j.file))
    requires Terminated(j.file + Healing(j.file))
    ensures
      var lines := Split(j.file);
      stamped.prev == if lines == [] then "" else c.hash(lines[|lines| - 1])
    ensures next > 0 && forall i :: 0 <= i < |j.landed| ==> j.landed[i].seqNo < next
  {
    HealingKeepsLines(j.file);
    if j.file != [] { HealedLastLine(j.file); }
    MaxSeqIsMax(j.landed);
  }

  lemma IncreasingAppend(events: seq<Event>, e: Event)
    requires Increasing(events) && forall i :: 0 <= i < |events| ==> events[i].seqNo < e.seqNo
    ensures Increasing(events + [e])
  {
  }

  lemma SlicesStayClean(line: Bytes, k: nat)
    requires NL !in line && CR !in line && k <= |line|
    ensures NL !in line[..k] && CR !in line[..k]
  {
  }

  lemma HealedIsIntact(c: Codec, j: Journal, seqNo: int)
    requires Intact(c, j)
    requires seqNo == 0 || (seqNo > 0 && forall i :: 0 <= i < |j.landed| ==> j.landed[i].seqNo <= seqNo)
    ensures Intact(c, Journal(j.file + Healing(j.file), seqNo, j.landed))
  {
    hide Split, LastLine, Chained, Parsed;
    HealingKeepsLines(j.file);
    if j.file != [] { HealedLastLine(j.file); } else { assert j.file + Healing(j.file) == []; }
  }

  /** Only the whole line parses. */
  lemma PieceParses(c: Codec, e: Event, k: nat)
    requires Lawful(c) && c.writable(e.data) && k <= |c.render(e)|
    ensures c.parse(c.render(e)[..k]) == if k == |c.render(e)| then Some(e) else None
  {
    assert c.render(e)[..|c.render(e)|] == c.render(e);
  }

  /** A piece of a rendered event reaching an intact, terminated file. */
  lemma PieceLands(c: Codec, j: Journal, stamped: Event, k: nat, ended: bool)
    requires Lawful(c) && c.writable(stamped.data) && Intact(c, j) && Terminated(j.file)
    requires stamped.prev == (var lines := Split(j.file); if lines == [] then "" else c.hash(lines[|lines| - 1]))
    requires 0 < stamped.seqNo && forall i :: 0 <= i < |j.landed| ==> j.landed[i].seqNo < stamped.seqNo
    requires k <= |c.render(stamped)| && (ended ==> k == |c.render(stamped)|)
    ensures
      var piece := c.render(stamped)[..k];
      var landed := if k == |c.render(stamped)| then [stamped] else [];
      Intact(c, Journal(j.file + (piece + if ended then [NL] else []), stamped.seqNo, j.landed + landed))
  {
    hide Split, LastLine, Chained, Parsed, Terminated, Increasing;
    var line := c.render(stamped);
    var piece := line[..k];
    var lines := Split(j.file);
    if k == 0 {
      assert j.file + (piece + []) == j.file && j.landed + [] == j.landed;
    } else {
      SlicesStayClean(line, k);
      LineLands(j.file, piece);
      assert piece + [] == piece;
      PieceParses(c, stamped, k);
      ChainedAppend(c, lines, piece);
      ParsedAppend(c, lines, piece);
      if k == |line| { IncreasingAppend(j.landed, stamped); } else { assert j.landed + [] == j.landed; }
    }
  }

  /** A stamped event written after a healed tail, wherever the write stops. */
  lemma WriteKeepsIntact(c: Codec, j: Journal, stamped: Event, left: nat)
    requires Lawful(c) && c.writable(stamped.data) && Intact(c, j) && Terminated(j.file)
    requires stamped.prev == (var lines := Split(j.file); if lines == [] then "" else c.hash(lines[|lines| - 1]))
    requires 0 < stamped.seqNo && forall i :: 0 <= i < |j.landed| ==> j.landed[i].seqNo < stamped.seqNo
    ensures
      var line := c.render(stamped);
      if left > |line| then Intact(c, Journal(j.file + (line + [NL]), stamped.seqNo, j.landed + [stamped]))
      else Intact(c, Journal(j.file + line[..left], stamped.seqNo, j.landed + if left == |line| then [stamped] else []))
  {
    hide Split, Intact, Lawful, Terminated;
    var line := c.render(stamped);
    if left > |line| {
      assert line[..|line|] == line;
      PieceLands(c, j, stamped, |line|, true);
    } else {
      assert line[..left] + [] == line[..left];
      PieceLands(c, j, stamped, left, false);
    }
  }

  lemma OtherCounter(c: Codec, j: Journal, seqNo: int)
    requires Intact(c, j)
    requires seqNo == 0 || (seqNo > 0 && forall i :: 0 <= i < |j.landed| ==> j.landed[i].seqNo <= seqNo)
      || seqNo == j.seqNo
    ensures Intact(c, j.(seqNo := seqNo))
  {
    hide Split, LastLine, Chained, Parsed, Terminated, Increasing;
  }

  /** One more attempt, wherever it stops, leaves the journal intact. */
  lemma {:induction false} AttemptKeepsIntact(c: Codec, j: Journal, a: Attempt)
    requires Lawful(c) && Intact(c, j)
    ensures Intact(c, Attempted(c, j, a))
  {
    hide Split, LastLine, Chained, Parsed, Lawful, MaxSeq, EventsOf, Healing, Terminated, Increasing, PrevFor;
    hide Intact;
    var j0 := j.(seqNo := if a.reopened then 0 else j.seqNo);
    OtherCounter(c, j, j0.seqNo);
    var heal := Healing(j0.file);
    assert j0.landed + [] == j0.landed;
    if a.ev.kind != "" {
      var next := (if j0.seqNo == 0 then MaxSeq(EventsOf(c, j0.file)) else j0.seqNo) + 1;
      HealingKeepsLines(j0.file);
      var stamped := a.ev.(seqNo := next, prev := PrevFor(c, j0.file + heal));
      StampFits(c, j0, stamped, next);
      OtherCounter(c, j0, next);
      HealedIsIntact(c, j0, next);
      if c.writable(a.ev.data) && a.budget >= |heal| {
        HealedIsIntact(c, j0, 0);
        WriteKeepsIntact(c, Journal(j0.file + heal, 0, j0.landed), stamped, a.budget - |heal|);
      }
    }
  }

  lemma {:induction false} HistoriesAreIntact(c: Codec, attempts: seq<Attempt>)
    requires Lawful(c)
    ensures Intact(c, History(c, attempts))
  {
    hide Intact, Attempted, Lawful;
    if attempts == [] {
      EmptyIsIntact(c);
    } else {
      HistoriesAreIntact(c, attempts[..|attempts| - 1]);
      AttemptKeepsIntact(c, History(c, attempts[..|attempts| - 1]), attempts[|attempts| - 1]);
    }
  }

  lemma EmptyIsIntact(c: Codec)
    ensures Intact(c, Journal([], 0, []))
  {
  }

  lemma ChainedHasNoBreaks(c: Codec, lines: seq<Bytes>)
    requires Lawful(c) && Chained(c, lines)
    ensures Check(c, lines).report.breaks == []
  {
    hide Check;
    forall i | 0 <= i < |lines| && c.parse(lines[i]).Some?
      ensures LinkAt(c, lines, i)
    {
      assert LineOk(c, lines, i);
    }
    assert Solid(lines) by {
      forall i | 0 <= i < |lines| ensures lines[i] != [] { assert LineOk(c, lines, i); }
    }
    SolidLinked(c, lines);
  }

  /** After any history of appends on an initially empty log, each completed or cut off
      after any number of bytes, by one process or by many: the chain check reports no
      breaks, a read yields exactly the events whose whole line landed, in order, and their
      sequence numbers strictly increase. */
  lemma {:induction false} CrashTolerantAppend(c: Codec, attempts: seq<Attempt>)
    requires Lawful(c)
    ensures
      var j := History(c, attempts);
      && Check(c, Split(j.file)).report.breaks == []
      && EventsOf(c, j.file) == j.landed
      && Increasing(j.landed)
  {
    hide Check, Split, Lawful, Chained, Increasing;
    HistoriesAreIntact(c, attempts);
    ChainedHasNoBreaks(c, Split(History(c, attempts).file));
  }

  lemma AppendTakesNext(c: Codec, file: Bytes, seqNo: int, ev: Event, budget: nat)
    ensures
      var e := AppendEffect(c, file, seqNo, ev, budget);
      && e.seqNo == (if ev.kind == "" then seqNo
                     else (if seqNo == 0 then MaxSeq(EventsOf(c, file)) else seqNo) + 1)
      && (e.landed.Some? ==> ev.kind != "" && e.landed.value.seqNo == e.seqNo)
  {
    hide EventsOf, MaxSeq, PrevFor, Healing;
  }

  lemma {:induction false} NumbersAreBounded(c: Codec, attempts: seq<Attempt>)
    requires Lawful(c)
    ensures
      var j := History(c, attempts);
      j.seqNo <= |attempts| && forall i :: 0 <= i < |j.landed| ==> j.landed[i].seqNo <= |attempts|
  {
    hide Split, Parsed, Lawful, EventsOf, MaxSeq, AppendEffect, Chained, LastLine;
    if attempts != [] {
      var j, a := History(c, attempts[..|attempts| - 1]), attempts[|attempts| - 1];
      NumbersAreBounded(c, attempts[..|attempts| - 1]);
      HistoriesAreIntact(c, attempts[..|attempts| - 1]);
      MaxSeqIsAttained(j.landed);
      AppendTakesNext(c, j.file, if a.reopened then 0 else j.seqNo, a.ev, a.budget);
    }
  }

  lemma {:induction false} MaxSeqIsAttained(events: seq<Event>)
    ensures MaxSeq(events) == 0 || exists i :: 0 <= i < |events| && events[i].seqNo == MaxSeq(events)
  {
    if events != [] {
      var init := events[..|events| - 1];
      MaxSeqIsAttained(init);
      if MaxSeq(init) != 0 && MaxSeq(events) == MaxSeq(init) {
        var i :| 0 <= i < |init| && init[i].seqNo == MaxSeq(init);
        assert events[i].seqNo == MaxSeq(events);
      }
    }
  }

  /** Numbers start at one and never run ahead of the attempts: where every attempt landed,
      the events are numbered 1, 2, 3 and so on, whichever process wrote them. */
  lemma {:induction false} NumbersAreDense(c: Codec, attempts: seq<Attempt>, i: nat)
    requires Lawful(c) && i < |History(c, attempts).landed|
    ensures
      var landed := History(c, attempts).landed;
      && i + 1 <= landed[i].seqNo <= |attempts|
      && (|landed| == |attempts| ==> landed[i].seqNo == i + 1)
  {
    hide History, Split, LastLine, Chained, EventsOf, Lawful;
    var landed := History(c, attempts).landed;
    HistoriesAreIntact(c, attempts);
    NumbersAreBounded(c, attempts);
    IncreasingClimbs(landed, i);
  }

  lemma {:induction false} IncreasingClimbs(events: seq<Event>, i: nat)
    requires Increasing(events) && i < |events| && forall k :: 0 <= k < |events| ==> 0 < events[k].seqNo
    ensures i + 1 <= events[i].seqNo && events[i].seqNo + (|events| - 1 - i) <= events[|events| - 1].seqNo
    decreases |events|
  {
    if |events| > 1 {
      var init := events[..|events| - 1];
      if i < |init| { IncreasingClimbs(init, i); }
      else { IncreasingClimbs(init, i - 1); }
    }
  }

  /** A completed append by the process that made the last one adds exactly its event. */
  lemma {:induction false} CompletedAppendLands(c: Codec, attempts: seq<Attempt>, a: Attempt)
    requires Lawful(c) && a.ev.kind != "" && c.writable(a.ev.data)
    requires
      var j := History(c, attempts);
      AppendEffect(c, j.file, if a.reopened then 0 else j.seqNo, a.ev, a.budget).outcome == Written
    ensures
      var before, after := History(c, attempts), History(c, attempts + [a]);
      && |EventsOf(c, after.file)| == |EventsOf(c, before.file)| + 1
      && EventsOf(c, after.file)[..|EventsOf(c, before.file)|] == EventsOf(c, before.file)
      && var e := EventsOf(c, after.file)[|EventsOf(c, before.file)|];
      e == a.ev.(seqNo := e.seqNo, prev := e.prev)
  {
    hide Check, Split, Lawful, Chained, Increasing, EventsOf;
    assert (attempts + [a])[..|attempts|] == attempts;
    HistoriesAreIntact(c, attempts);
    HistoriesAreIntact(c, attempts + [a]);
  }

  /** A history that left no torn line is bound by its last line: a log that ends alike but,
      blank lines aside, is no longer and not the same is reported, broken or unparseable. */
  lemma {:induction false} TamperedHistoryShows(c: Codec, attempts: seq<Attempt>, other: seq<Bytes>)
    requires Lawful(c)
    requires
      var lines := Split(History(c, attempts).file);
      && Check(c, lines).report.unparseable == 0
      && EndAlike(lines, Squeezed(other)) && |Squeezed(other)| <= |lines| && Squeezed(other) != lines
      && HashInjectiveOn(c, lines + Squeezed(other))
    ensures !Clean(c, other)
  {
    hide Check, Lawful, Split, HashInjectiveOn, Squeezed;
    var lines := Split(History(c, attempts).file);
    HistoriesAreIntact(c, attempts);
    ChainedIsFullyChained(c, lines);
    SolidIsSqueezed(lines);
    TamperingShows(c, lines, other);
  }

  lemma ChainedIsFullyChained(c: Codec, lines: seq<Bytes>)
    requires Lawful(c) && Chained(c, lines) && Check(c, lines).report.unparseable == 0
    ensures Solid(lines) && Clean(c, lines) && FullyChained(c, lines)
  {
    hide Check;
    ChainedHasNoBreaks(c, lines);
    forall i | 0 <= i < |lines|
      ensures lines[i] != []
    {
      assert LineOk(c, lines, i);
    }
    UnparseableCount(c, lines);
    forall i | 1 <= i < |lines|
      ensures PrevOf(c, lines[i]) != ""
    {
      assert LineOk(c, lines, i);
    }
  }
}

/** The line hash chain of a log: the one-pass checker, and what a clean report binds. */
module HashChain {
  import opened Values
  import opened Events
  import opened Lines

  /** How events become lines. JSON and SHA-256 stay abstract. */
  datatype Codec = Codec(
    writable: Fields -> bool,
    render: Event -> Bytes,
    parse: Bytes -> Option<Event>,
    hash: Bytes -> string)

  /** What is asked of them: a rendered event is a non-empty line without line breaks that
      parses back and no proper prefix of which parses; what parses can be rendered again;
      a hash is never the empty string. */
  ghost predicate Lawful(c: Codec) {
    && (forall e: Event :: c.writable(e.data) ==>
      && c.render(e) != [] && NL !in c.render(e) && CR !in c.render(e)
      && c.parse(c.render(e)) == Some(e))
    && (forall e: Event, k: nat :: c.writable(e.data) && k < |c.render(e)| ==> c.parse(c.render(e)[..k]) == None)
    && (forall s: Bytes :: c.parse(s).Some? ==> c.writable(c.parse(s).value.data))
    && (forall s: Bytes :: c.hash(s) != "")
  }

  datatype Break = Regression(line: nat) | Mismatch(line: nat)

  datatype Report = Report(lines: nat, breaks: seq<Break>, unparseable: nat)

  /** The checker's running state. */
  datatype Cursor = Cursor(prevHash: string, chained: bool, report: Report)

  function CheckLine(c: Codec, cur: Cursor, raw: Bytes): Cursor {
    if raw == [] then cur
    else
      var n := cur.report.lines + 1;
      match c.parse(raw)
      case None =>
        Cursor(c.hash(raw), cur.chained, cur.report.(lines := n, unparseable := cur.report.unparseable + 1))
      case Some(ev) =>
        var found :=
          if ev.prev == "" then (if n == 1 || !cur.chained then [] else [Regression(n)])
          else if ev.prev != cur.prevHash then [Mismatch(n)]
          else [];
        Cursor(c.hash(raw), cur.chained || ev.prev != "", cur.report.(lines := n, breaks := cur.report.breaks + found))
  }

  function Check(c: Codec, lines: seq<Bytes>): Cursor {
    if lines == [] then Cursor("", false, Report(0, [], 0))
    else CheckLine(c, Check(c, lines[..|lines| - 1]), lines[|lines| - 1])
  }

  /** The checker, in one pass over the scanner's lines. */
  method VerifyChain(c: Codec, file: Bytes) returns (report: Report)
    ensures report == Check(c, Split(file)).report
  {
    var lines := Split(file);
    var prevHash, chained, n := "", false, 0;
    var breaks: seq<Break>, unparseable := [], 0;
    for i := 0 to |lines|
      invariant Check(c, lines[..i]) == Cursor(prevHash, chained, Report(n, breaks, unparseable))
    {
      assert lines[..i + 1][..i] == lines[..i];
      var raw := lines[i];
      if raw == [] {
        continue;
      }
      n := n + 1;
      var parsed := c.parse(raw);
      if parsed.None? {
        unparseable := unparseable + 1;
        prevHash := c.hash(raw);
        continue;
      }
      var ev := parsed.value;
      if ev.prev == "" && n == 1 {
      } else if ev.prev == "" && !chained {
      } else if ev.prev == "" && chained {
        breaks := breaks + [Regression(n)];
      } else if ev.prev != prevHash {
        breaks := breaks + [Mismatch(n)];
      }
      if ev.prev != "" {
        chained := true;
      }
      prevHash := c.hash(raw);
    }
    assert lines[..|lines|] == lines;
    return Report(n, breaks, unparseable);
  }

  /** The events a scan of the lines yields. */
  function Parsed(c: Codec, lines: seq<Bytes>): seq<Event> {
    if lines == [] then []
    else
      var raw := lines[|lines| - 1];
      Parsed(c, lines[..|lines| - 1]) + if raw != [] && c.parse(raw).Some? then [c.parse(raw).value] else []
  }

  // ---------------------------------------------------------------------------
  // What a clean report says
  // ---------------------------------------------------------------------------

  predicate Solid(lines: seq<Bytes>) {
    forall i :: 0 <= i < |lines| ==> lines[i] != []
  }

  predicate Clean(c: Codec, lines: seq<Bytes>) {
    Check(c, lines).report.breaks == [] && Check(c, lines).report.unparseable == 0
  }

  /** The link a line carries; none when it does not parse. */
  function PrevOf(c: Codec, line: Bytes): string {
    match c.parse(line) case None => "" case Some(ev) => ev.prev
  }

  predicate Unlinked(c: Codec, lines: seq<Bytes>) {
    forall i :: 0 <= i < |lines| ==> PrevOf(c, lines[i]) == ""
  }

  /** A line names the line before it; without a link it follows only unlinked lines. */
  predicate LinkAt(c: Codec, lines: seq<Bytes>, i: nat)
    requires i < |lines|
  {
    var p := PrevOf(c, lines[i]);
    if p == "" then Unlinked(c, lines[..i])
    else i > 0 && p == c.hash(lines[i - 1])
  }

  lemma {:induction false} CursorFacts(c: Codec, lines: seq<Bytes>)
    requires Solid(lines)
    ensures
      var cur := Check(c, lines);
      && cur.report.lines == |lines|
      && cur.prevHash == (if lines == [] then "" else c.hash(lines[|lines| - 1]))
      && cur.chained == !Unlinked(c, lines)
  {
    if lines != [] {
      var init, raw := lines[..|lines| - 1], lines[|lines| - 1];
      CursorFacts(c, init);
      assert Unlinked(c, lines) <==> Unlinked(c, init) && PrevOf(c, raw) == "";
    }
  }

  predicate AllLinked(c: Codec, lines: seq<Bytes>) {
    forall i :: 0 <= i < |lines| && c.parse(lines[i]).Some? ==> LinkAt(c, lines, i)
  }

  lemma AllLinkedStep(c: Codec, lines: seq<Bytes>)
    requires lines != []
    ensures
      var k := |lines| - 1;
      AllLinked(c, lines) <==> AllLinked(c, lines[..k]) && (c.parse(lines[k]).Some? ==> LinkAt(c, lines, k))
  {
    var k := |lines| - 1;
    var init := lines[..k];
    forall i | 0 <= i < k
      ensures LinkAt(c, lines, i) == LinkAt(c, init, i) && init[i] == lines[i]
    {
      assert lines[..i] == init[..i];
    }
  }

  /** Without blank lines: no breaks exactly when every parseable line is properly linked. */
  lemma {:induction false} SolidLinked(c: Codec, lines: seq<Bytes>)
    requires Solid(lines)
    ensures Check(c, lines).report.breaks == [] <==> AllLinked(c, lines)
  {
    hide AllLinked, Unlinked;
    if lines != [] {
      SolidLinked(c, lines[..|lines| - 1]);
      CursorFacts(c, lines[..|lines| - 1]);
      AllLinkedStep(c, lines);
    } else {
      NothingToLink(c);
    }
  }

  lemma NothingToLink(c: Codec)
    ensures AllLinked(c, [])
  {
  }

  lemma {:induction false} UnparseableCount(c: Codec, lines: seq<Bytes>)
    requires Solid(lines)
    ensures Check(c, lines).report.unparseable == 0 <==>
            forall i :: 0 <= i < |lines| ==> c.parse(lines[i]).Some?
  {
    if lines != [] {
      var k := |lines| - 1;
      UnparseableCount(c, lines[..k]);
      assert forall i :: 0 <= i < k ==> lines[..k][i] == lines[i];
    }
  }

  lemma CleanIsLinked(c: Codec, lines: seq<Bytes>)
    requires Solid(lines)
    ensures Clean(c, lines) <==>
            forall i :: 0 <= i < |lines| ==> c.parse(lines[i]).Some? && LinkAt(c, lines, i)
  {
    hide LinkAt, Check;
    SolidLinked(c, lines);
    UnparseableCount(c, lines);
  }

  lemma CleanPrefix(c: Codec, lines: seq<Bytes>)
    requires Solid(lines) && lines != [] && Clean(c, lines)
    ensures Clean(c, lines[..|lines| - 1])
  {
    hide Check;
    var init := lines[..|lines| - 1];
    CleanIsLinked(c, lines);
    CleanIsLinked(c, init);
    forall i | 0 <= i < |init|
      ensures c.parse(init[i]).Some? && LinkAt(c, init, i)
    {
      assert init[..i] == lines[..i] && init[i] == lines[i];
      assert LinkAt(c, lines, i);
    }
  }

  ghost predicate HashInjectiveOn(c: Codec, lines: seq<Bytes>) {
    forall i, j :: 0 <= i < |lines| && 0 <= j < |lines| && c.hash(lines[i]) == c.hash(lines[j]) ==> lines[i] == lines[j]
  }

  lemma {:induction false} SolidBinds(c: Codec, a: seq<Bytes>, b: seq<Bytes>) returns (k: nat)
    requires Solid(a) && Solid(b) && Clean(c, a) && Clean(c, b)
    requires a != [] && b != [] && a[|a| - 1] == b[|b| - 1]
    requires HashInjectiveOn(c, a + b)
    ensures 1 <= k <= |a| && k <= |b|
    ensures a[|a| - k..] == b[|b| - k..]
    ensures Unlinked(c, a[..|a| - k + 1]) && Unlinked(c, b[..|b| - k + 1])
  {
    hide Check, Clean, PrevOf, Unlinked, HashInjectiveOn;
    var m, n := |a| - 1, |b| - 1;
    var a0, b0 := a[..m], b[..n];
    LastLinks(c, a, b);
    if PrevOf(c, a[m]) == "" {
      k := 1;
      assert a[m..] == [a[m]] && b[n..] == [b[n]];
      assert a[..m + 1] == a && b[..n + 1] == b;
    } else {
      CleanPrefix(c, a);
      CleanPrefix(c, b);
      InjectiveOnPrefixes(c, a, b);
      var j := SolidBinds(c, a0, b0);
      k := j + 1;
      SharedSuffixGrows(a, b, j);
    }
  }

  lemma LastLinks(c: Codec, a: seq<Bytes>, b: seq<Bytes>)
    requires Solid(a) && Solid(b) && Clean(c, a) && Clean(c, b)
    requires a != [] && b != [] && a[|a| - 1] == b[|b| - 1]
    requires HashInjectiveOn(c, a + b)
    ensures
      var m, n := |a| - 1, |b| - 1;
      if PrevOf(c, a[m]) == "" then Unlinked(c, a) && Unlinked(c, b)
      else m > 0 && n > 0 && a[m - 1] == b[n - 1]
  {
    hide Check;
    CleanIsLinked(c, a);
    CleanIsLinked(c, b);
    var m, n := |a| - 1, |b| - 1;
    assert LinkAt(c, a, m) && LinkAt(c, b, n);
    if m > 0 && n > 0 { assert (a + b)[m - 1] == a[m - 1] && (a + b)[|a| + n - 1] == b[n - 1]; }
    assert forall i :: 0 <= i < m ==> a[..m][i] == a[i];
    assert forall i :: 0 <= i < n ==> b[..n][i] == b[i];
  }

  lemma InjectiveOnPrefixes(c: Codec, a: seq<Bytes>, b: seq<Bytes>)
    requires a != [] && b != [] && HashInjectiveOn(c, a + b)
    ensures HashInjectiveOn(c, a[..|a| - 1] + b[..|b| - 1])
  {
    var all, some := a + b, a[..|a| - 1] + b[..|b| - 1];
    assert forall i :: 0 <= i < |some| ==> some[i] == all[if i < |a| - 1 then i else i + 1];
  }

  lemma SharedSuffixGrows(a: seq<Bytes>, b: seq<Bytes>, j: nat)
    requires a != [] && b != [] && a[|a| - 1] == b[|b| - 1] && 1 <= j < |a| && j < |b|
    requires a[..|a| - 1][|a| - 1 - j..] == b[..|b| - 1][|b| - 1 - j..]
    ensures a[|a| - 1 - j..] == b[|b| - 1 - j..]
    ensures a[..|a| - 1][..|a| - j] == a[..|a| - j] && b[..|b| - 1][..|b| - j] == b[..|b| - j]
  {
    assert a[|a| - 1 - j..] == a[..|a| - 1][|a| - 1 - j..] + [a[|a| - 1]];
    assert b[|b| - 1 - j..] == b[..|b| - 1][|b| - 1 - j..] + [b[|b| - 1]];
  }

  /** Only the first line of the log is without a link. */
  predicate FullyChained(c: Codec, lines: seq<Bytes>) {
    forall i :: 1 <= i < |lines| ==> PrevOf(c, lines[i]) != ""
  }

  lemma {:induction false} SolidIsBound(c: Codec, a: seq<Bytes>, b: seq<Bytes>)
    requires Solid(a) && Solid(b) && Clean(c, a) && Clean(c, b) && FullyChained(c, a)
    requires a != [] && b != [] && a[|a| - 1] == b[|b| - 1]
    requires HashInjectiveOn(c, a + b)
    ensures |b| >= |a| && b[|b| - |a|..] == a && Unlinked(c, b[..|b| - |a|])
  {
    hide Check, Solid, Clean, HashInjectiveOn, PrevOf;
    var k := SolidBinds(c, a, b);
    assert PrevOf(c, a[|a| - k]) == "" by { assert a[..|a| - k + 1][|a| - k] == a[|a| - k]; }
    assert k == |a|;
    var front, more := b[..|b| - |a|], b[..|b| - |a| + 1];
    assert forall i :: 0 <= i < |front| ==> front[i] == more[i];
  }

  predicate AllParse(c: Codec, lines: seq<Bytes>) {
    forall i :: 0 <= i < |lines| ==> c.parse(lines[i]).Some?
  }

  /** Parseable lines without a link are accepted in front of a fully chained log. */
  lemma {:induction false} FrontIsAccepted(c: Codec, front: seq<Bytes>, a: seq<Bytes>)
    requires Solid(front) && AllParse(c, front) && Unlinked(c, front)
    requires Solid(a) && Clean(c, a) && FullyChained(c, a)
    ensures Clean(c, front + a)
  {
    hide Check, PrevOf;
    var b, n := front + a, |front|;
    CleanIsLinked(c, a);
    CleanIsLinked(c, b);
    assert b[..n] == front;
    forall i | 0 <= i < |b|
      ensures c.parse(b[i]).Some? && LinkAt(c, b, i)
    {
      if i < n {
        assert forall k :: 0 <= k < i ==> b[..i][k] == front[k];
      } else {
        assert c.parse(a[i - n]).Some? && LinkAt(c, a, i - n);
        if i == n { assert b[..i] == front; } else { assert b[i - 1] == a[i - n - 1]; }
      }
    }
  }

  // ---------------------------------------------------------------------------
  // Blank lines
  // ---------------------------------------------------------------------------

  /** The lines without the blank ones, which the checker passes over. */
  function Squeezed(lines: seq<Bytes>): (out: seq<Bytes>)
    ensures Solid(out)
  {
    if lines == [] then []
    else Squeezed(lines[..|lines| - 1]) + if lines[|lines| - 1] != [] then [lines[|lines| - 1]] else []
  }

  lemma {:induction false} BlankLinesDoNotCount(c: Codec, lines: seq<Bytes>)
    ensures Check(c, lines) == Check(c, Squeezed(lines))
  {
    hide CheckLine;
    if lines != [] {
      var init, raw := lines[..|lines| - 1], lines[|lines| - 1];
      BlankLinesDoNotCount(c, init);
      if raw == [] {
        BlankLine(c, Check(c, init));
        assert Squeezed(lines) == Squeezed(init);
      } else {
        assert (Squeezed(init) + [raw])[..|Squeezed(init)|] == Squeezed(init);
      }
    }
  }

  lemma BlankLine(c: Codec, cur: Cursor)
    ensures CheckLine(c, cur, []) == cur
  {
  }

  lemma {:induction false} SolidIsSqueezed(lines: seq<Bytes>)
    requires Solid(lines)
    ensures Squeezed(lines) == lines
  {
    if lines != [] {
      SolidIsSqueezed(lines[..|lines| - 1]);
      assert lines == lines[..|lines| - 1] + [lines[|lines| - 1]];
    }
  }

  lemma CleanIsSqueezed(c: Codec, lines: seq<Bytes>)
    ensures Clean(c, lines) <==> Clean(c, Squeezed(lines))
  {
    hide Check;
    BlankLinesDoNotCount(c, lines);
  }

  // ---------------------------------------------------------------------------
  // What a report binds
  // ---------------------------------------------------------------------------

  /** The report has no breaks exactly when, blank lines aside, every parseable line is
      properly linked. */
  lemma NoBreaksIffLinked(c: Codec, lines: seq<Bytes>)
    ensures Check(c, lines).report.breaks == [] <==> AllLinked(c, Squeezed(lines))
  {
    hide Check, AllLinked;
    BlankLinesDoNotCount(c, lines);
    SolidLinked(c, Squeezed(lines));
  }

  /** What is wrong with line `i`: no link after linked lines, or a link that is not to the
      line before. */
  predicate Regresses(c: Codec, lines: seq<Bytes>, i: nat) {
    i < |lines| && c.parse(lines[i]).Some? && PrevOf(c, lines[i]) == "" && !Unlinked(c, lines[..i])
  }

  predicate Mismatches(c: Codec, lines: seq<Bytes>, i: nat) {
    && i < |lines| && c.parse(lines[i]).Some? && PrevOf(c, lines[i]) != ""
    && (i == 0 || PrevOf(c, lines[i]) != c.hash(lines[i - 1]))
  }

  function LineOf(b: Break): nat {
    match b case Regression(n) => n case Mismatch(n) => n
  }

  /** No line is named twice, and they are named in order. */
  predicate NamedInOrder(breaks: seq<Break>) {
    forall i, j :: 0 <= i < j < |breaks| ==> LineOf(breaks[i]) < LineOf(breaks[j])
  }

  lemma EarlierLines(c: Codec, lines: seq<Bytes>, i: nat)
    requires lines != [] && i < |lines| - 1
    ensures Regresses(c, lines, i) == Regresses(c, lines[..|lines| - 1], i)
    ensures Mismatches(c, lines, i) == Mismatches(c, lines[..|lines| - 1], i)
  {
    assert lines[..|lines| - 1][..i] == lines[..i];
  }

  lemma {:induction false} LastBreak(c: Codec, lines: seq<Bytes>)
    requires Solid(lines) && lines != []
    ensures
      var n := |lines|;
      Check(c, lines).report.breaks == Check(c, lines[..n - 1]).report.breaks
      + if Regresses(c, lines, n - 1) then [Regression(n)]
        else if Mismatches(c, lines, n - 1) then [Mismatch(n)] else []
  {
    CursorFacts(c, lines[..|lines| - 1]);
    if lines[..|lines| - 1] == [] && PrevOf(c, lines[0]) != "" && c.parse(lines[0]).Some? {
      assert Check(c, lines[..|lines| - 1]).prevHash == "";
    }
  }

  lemma {:induction false} SolidBreaks(c: Codec, lines: seq<Bytes>)
    requires Solid(lines)
    ensures
      var breaks := Check(c, lines).report.breaks;
      && (forall b :: b in breaks <==>
          match b
          case Regression(n) => n > 0 && Regresses(c, lines, n - 1)
          case Mismatch(n) => n > 0 && Mismatches(c, lines, n - 1))
      && NamedInOrder(breaks) && forall b :: b in breaks ==> LineOf(b) <= |lines|
  {
    hide Check, Regresses, Mismatches;
    if lines == [] {
      NoLinesNoBreaks(c);
    } else {
      var init := lines[..|lines| - 1];
      SolidBreaks(c, init);
      LastBreak(c, lines);
      forall i: nat
        ensures Regresses(c, lines, i) <==> Regresses(c, init, i) || (i == |init| && Regresses(c, lines, i))
        ensures Mismatches(c, lines, i) <==> Mismatches(c, init, i) || (i == |init| && Mismatches(c, lines, i))
      {
        if i < |init| { EarlierLines(c, lines, i); }
        else if i == |init| { NoLineThere(c, init, i); }
        else { NoLineThere(c, init, i); NoLineThere(c, lines, i); }
      }
      OneProblem(c, lines, |init|);
      var before, after := Check(c, init).report.breaks, Check(c, lines).report.breaks;
      assert forall i :: 0 <= i < |before| ==> before[i] in before;
    }
  }

  lemma NoLinesNoBreaks(c: Codec)
    ensures Check(c, []).report.breaks == [] && forall i: nat :: !Regresses(c, [], i) && !Mismatches(c, [], i)
  {
  }

  lemma NoLineThere(c: Codec, lines: seq<Bytes>, i: nat)
    requires |lines| <= i
    ensures !Regresses(c, lines, i) && !Mismatches(c, lines, i)
  {
  }

  lemma OneProblem(c: Codec, lines: seq<Bytes>, i: nat)
    ensures !(Regresses(c, lines, i) && Mismatches(c, lines, i))
  {
  }

  /** The report names, in order and once each, exactly the lines that regress or mismatch,
      counting without blank lines. */
  lemma {:induction false} BreaksAreTheBadLines(c: Codec, lines: seq<Bytes>)
    ensures
      var breaks, solid := Check(c, lines).report.breaks, Squeezed(lines);
      && (forall n: nat :: Regression(n) in breaks <==> n > 0 && Regresses(c, solid, n - 1))
      && (forall n: nat :: Mismatch(n) in breaks <==> n > 0 && Mismatches(c, solid, n - 1))
      && NamedInOrder(breaks) && Check(c, lines).report.lines == |solid|
  {
    hide Check, Regresses, Mismatches;
    BlankLinesDoNotCount(c, lines);
    SolidBreaks(c, Squeezed(lines));
    CursorFacts(c, Squeezed(lines));
  }

  /** The lines that do not parse, counted. */
  lemma {:induction false} UnparseableAreCounted(c: Codec, lines: seq<Bytes>)
    ensures Check(c, lines).report.unparseable ==
            |set i | 0 <= i < |lines| && lines[i] != [] && c.parse(lines[i]).None?|
  {
    var bad := set i | 0 <= i < |lines| && lines[i] != [] && c.parse(lines[i]).None?;
    if lines != [] {
      var init, raw := lines[..|lines| - 1], lines[|lines| - 1];
      UnparseableAreCounted(c, init);
      var before := set i | 0 <= i < |init| && init[i] != [] && c.parse(init[i]).None?;
      assert bad == before + if raw != [] && c.parse(raw).None? then {|init|} else {};
    }
  }

  predicate EndAlike(a: seq<Bytes>, b: seq<Bytes>) {
    a != [] && b != [] && a[|a| - 1] == b[|b| - 1]
  }

  /** Two clean logs that end in the same line share everything back to an unlinked line;
      in front of it each may carry only unlinked lines. Blank lines do not count. */
  lemma {:induction false} LastLineBinds(c: Codec, a: seq<Bytes>, b: seq<Bytes>) returns (k: nat)
    requires Clean(c, a) && Clean(c, b) && EndAlike(Squeezed(a), Squeezed(b))
    requires HashInjectiveOn(c, Squeezed(a) + Squeezed(b))
    ensures
      var sa, sb := Squeezed(a), Squeezed(b);
      && 1 <= k <= |sa| && k <= |sb| && sa[|sa| - k..] == sb[|sb| - k..]
      && Unlinked(c, sa[..|sa| - k + 1]) && Unlinked(c, sb[..|sb| - k + 1])
  {
    hide Clean, Unlinked, HashInjectiveOn, Squeezed;
    CleanIsSqueezed(c, a);
    CleanIsSqueezed(c, b);
    k := SolidBinds(c, Squeezed(a), Squeezed(b));
  }

  /** `b` is `a` behind lines that parse and carry no link. */
  predicate Fronted(c: Codec, a: seq<Bytes>, b: seq<Bytes>) {
    |a| <= |b| && b[|b| - |a|..] == a && Unlinked(c, b[..|b| - |a|]) && AllParse(c, b[..|b| - |a|])
  }

  /** A log that ends like a clean, fully chained one is clean exactly when it is that log,
      blank lines aside, behind lines that parse and carry no link. */
  lemma {:induction false} FullyChainedBindsIff(c: Codec, a: seq<Bytes>, b: seq<Bytes>)
    requires Clean(c, a) && FullyChained(c, Squeezed(a)) && EndAlike(Squeezed(a), Squeezed(b))
    requires HashInjectiveOn(c, Squeezed(a) + Squeezed(b))
    ensures Clean(c, b) <==> Fronted(c, Squeezed(a), Squeezed(b))
  {
    hide Check, Unlinked, HashInjectiveOn, Squeezed, FullyChained, Clean, LinkAt;
    CleanIsSqueezed(c, a);
    CleanIsSqueezed(c, b);
    var sa, sb := Squeezed(a), Squeezed(b);
    if Clean(c, sb) {
      SolidIsBound(c, sa, sb);
      CleanIsLinked(c, sb);
    }
    if Fronted(c, sa, sb) {
      var front := sb[..|sb| - |sa|];
      FrontIsAccepted(c, front, sa);
      assert front + sa == sb;
    }
  }

  /** Changing, deleting or emptying lines of a fully chained log, short of its last one,
      shows. */
  lemma TamperingShows(c: Codec, a: seq<Bytes>, b: seq<Bytes>)
    requires Clean(c, a) && FullyChained(c, Squeezed(a)) && EndAlike(Squeezed(a), Squeezed(b))
    requires |Squeezed(b)| <= |Squeezed(a)| && Squeezed(b) != Squeezed(a)
    requires HashInjectiveOn(c, Squeezed(a) + Squeezed(b))
    ensures !Clean(c, b)
  {
    hide Clean, HashInjectiveOn, Squeezed, FullyChained, Unlinked, AllParse;
    FullyChainedBindsIff(c, a, b);
    assert Squeezed(b)[0..] == Squeezed(b);
  }

  /** A line without a link after linked lines shows as a break. */
  lemma ForgeryShows(c: Codec, lines: seq<Bytes>, forged: Bytes)
    requires forged != [] && !Unlinked(c, Squeezed(lines))
    requires c.parse(forged).Some? && PrevOf(c, forged) == ""
    ensures Check(c, lines + [forged]).report.breaks != []
  {
    BlankLinesDoNotCount(c, lines);
    CursorFacts(c, Squeezed(lines));
    assert (lines + [forged])[..|lines|] == lines;
  }
}

/** Red-to-green evidence: how strongly a failing run and a later passing run pair up. */
module RedGreen {
  import opened Values
  import opened Events
  import opened UpdateFolding
  import opened Matching
  import opened CommandIdentity

  /** Evidence classes, by strength. */
  const NO_RED: nat := 0
  const NO_GREEN: nat := 1
  const CROSS_RUNNER: nat := 2
  const WEAK: nat := 3
  const STRICT: nat := 4

  predicate Counts(r: Record, link: string, ctx: string) {
    && ctx != "" && StrField(r.data, link) == ctx
    && BoolField(r.data, "grounded")
    && "exit" in r.data && r.data["exit"].Num?
  }

  predicate IsRed(r: Record, link: string, ctx: string) {
    Counts(r, link, ctx) && r.data["exit"].n != 0.0
  }

  predicate IsGreen(r: Record, link: string, ctx: string) {
    Counts(r, link, ctx) && r.data["exit"].n == 0.0
  }

  function Reds(rs: seq<Record>, link: string, ctx: string): seq<Record> {
    if rs == [] then []
    else Reds(rs[..|rs| - 1], link, ctx) + if IsRed(rs[|rs| - 1], link, ctx) then [rs[|rs| - 1]] else []
  }

  function Greens(rs: seq<Record>, link: string, ctx: string): seq<Record> {
    if rs == [] then []
    else Greens(rs[..|rs| - 1], link, ctx) + if IsGreen(rs[|rs| - 1], link, ctx) then [rs[|rs| - 1]] else []
  }

  function Cmd(r: Record): string {
    StrField(r.data, "cmd")
  }

  /** How strongly one red supports one green; nothing unless the red came first. */
  function PairClass(red: Record, green: Record): (cls: nat)
    ensures NO_GREEN <= cls <= STRICT
  {
    if red.order >= green.order then NO_GREEN
    else
      match Classify(Cmd(red), Cmd(green))
      case PairStrict => STRICT
      case PairWeak => WEAK
      case PairNone => CROSS_RUNNER
  }

  function Max(a: nat, b: nat): nat {
    if a < b then b else a
  }

  function BestForGreen(reds: seq<Record>, green: Record): (cls: nat)
    ensures NO_GREEN <= cls <= STRICT
  {
    if reds == [] then NO_GREEN
    else Max(BestForGreen(reds[..|reds| - 1], green), PairClass(reds[|reds| - 1], green))
  }

  function BestPair(reds: seq<Record>, greens: seq<Record>): (cls: nat)
    ensures NO_GREEN <= cls <= STRICT
  {
    if greens == [] then NO_GREEN
    else Max(BestPair(reds, greens[..|greens| - 1]), BestForGreen(reds, greens[|greens| - 1]))
  }

  function Class(runs: seq<Record>, link: string, ctx: string): nat {
    var reds := Reds(runs, link, ctx);
    if reds == [] then NO_RED else BestPair(reds, Greens(runs, link, ctx))
  }

  function RedGreenClass(env: Env, link: string, ctx: string): nat {
    Class(Records(env.events, "test-run"), link, ctx)
  }

  /** The evaluator: sorts the runs that count, then looks for the strongest pair. */
  method ClassifyEvidence(env: Env, link: string, ctx: string) returns (cls: nat)
    ensures cls == RedGreenClass(env, link, ctx)
  {
    hide Reds, Greens, BestPair, Records;
    var reds, greens := SortRuns(Records(env.events, "test-run"), link, ctx);
    if reds == [] {
      return NO_RED;
    }
    cls := StrongestPair(reds, greens);
  }

  method SortRuns(runs: seq<Record>, link: string, ctx: string) returns (reds: seq<Record>, greens: seq<Record>)
    ensures reds == Reds(runs, link, ctx) && greens == Greens(runs, link, ctx)
  {
    reds, greens := [], [];
    for i := 0 to |runs|
      invariant reds == Reds(runs[..i], link, ctx) && greens == Greens(runs[..i], link, ctx)
    {
      assert runs[..i + 1][..i] == runs[..i];
      if Counts(runs[i], link, ctx) {
        if runs[i].data["exit"].n != 0.0 {
          reds := reds + [runs[i]];
        } else {
          greens := greens + [runs[i]];
        }
      }
    }
    assert runs[..|runs|] == runs;
  }

  /** The double loop, which stops at the first strict pair. */
  method StrongestPair(reds: seq<Record>, greens: seq<Record>) returns (cls: nat)
    ensures cls == BestPair(reds, greens)
  {
    hide Classify;
    cls := NO_GREEN;
    for g := 0 to |greens|
      invariant cls == BestPair(reds, greens[..g]) && cls < STRICT
    {
      assert greens[..g + 1][..g] == greens[..g];
      for r := 0 to |reds|
        invariant cls == Max(BestPair(reds, greens[..g]), BestForGreen(reds[..r], greens[g])) && cls < STRICT
      {
        assert reds[..r + 1][..r] == reds[..r];
        if reds[r].order < greens[g].order {
          if cls < CROSS_RUNNER {
            cls := CROSS_RUNNER;
          }
          match Classify(Cmd(reds[r]), Cmd(greens[g])) {
            case PairStrict =>
              BestIsMaximum(reds, greens, r, g);
              return STRICT;
            case PairWeak => cls := WEAK;
            case PairNone =>
          }
        }
      }
      assert reds[..|reds|] == reds;
    }
    assert greens[..|greens|] == greens;
  }

  // ---------------------------------------------------------------------------

  lemma {:induction false} BestForGreenIsMaximum(reds: seq<Record>, green: Record, r: nat)
    requires r < |reds|
    ensures PairClass(reds[r], green) <= BestForGreen(reds, green)
  {
    hide PairClass;
    if r < |reds| - 1 { BestForGreenIsMaximum(reds[..|reds| - 1], green, r); }
  }

  /** No pair is stronger than the class. */
  lemma {:induction false} BestIsMaximum(reds: seq<Record>, greens: seq<Record>, r: nat, g: nat)
    requires r < |reds| && g < |greens|
    ensures PairClass(reds[r], greens[g]) <= BestPair(reds, greens)
  {
    hide PairClass;
    if g < |greens| - 1 {
      BestIsMaximum(reds, greens[..|greens| - 1], r, g);
    } else {
      BestForGreenIsMaximum(reds, greens[g], r);
    }
  }

  /** Every class above "no green" is some pair's. */
  lemma {:induction false} BestIsAttained(reds: seq<Record>, greens: seq<Record>) returns (r: nat, g: nat)
    ensures BestPair(reds, greens) > NO_GREEN ==>
              r < |reds| && g < |greens| && PairClass(reds[r], greens[g]) == BestPair(reds, greens)
  {
    hide PairClass;
    r, g := 0, 0;
    if greens != [] {
      var init, last := greens[..|greens| - 1], greens[|greens| - 1];
      if BestPair(reds, init) >= BestForGreen(reds, last) {
        r, g := BestIsAttained(reds, init);
      } else {
        r := BestForGreenIsAttained(reds, last);
        g := |greens| - 1;
      }
    }
  }

  lemma {:induction false} BestForGreenIsAttained(reds: seq<Record>, green: Record) returns (r: nat)
    ensures BestForGreen(reds, green) > NO_GREEN ==>
              r < |reds| && PairClass(reds[r], green) == BestForGreen(reds, green)
  {
    hide PairClass;
    r := 0;
    if reds != [] {
      var init, last := reds[..|reds| - 1], reds[|reds| - 1];
      if BestForGreen(init, green) >= PairClass(last, green) {
        r := BestForGreenIsAttained(init, green);
      } else {
        r := |reds| - 1;
      }
    }
  }

  lemma {:induction false} RedsAndGreensAreRuns(rs: seq<Record>, link: string, ctx: string)
    ensures forall x :: x in Reds(rs, link, ctx) <==> x in rs && IsRed(x, link, ctx)
    ensures forall x :: x in Greens(rs, link, ctx) <==> x in rs && IsGreen(x, link, ctx)
  {
    hide IsRed, IsGreen;
    if rs != [] {
      RedsAndGreensAreRuns(rs[..|rs| - 1], link, ctx);
      assert rs == rs[..|rs| - 1] + [rs[|rs| - 1]];
    }
  }

  /** A run that is tagged, grounded, and has an exit code. */
  predicate Evidence(r: Record, link: string, ctx: string) {
    && ctx != "" && link in r.data && r.data[link] == Str(ctx)
    && "grounded" in r.data && r.data["grounded"] == Bool(true)
    && "exit" in r.data && r.data["exit"].Num?
  }

  /** Proof of test-first work: a grounded failing run and a later grounded passing one of the
      same tag whose normalised commands start with the same token. */
  ghost predicate Proven(env: Env, link: string, ctx: string, red: Record, green: Record) {
    && red in Records(env.events, "test-run") && green in Records(env.events, "test-run")
    && Evidence(red, link, ctx) && red.data["exit"].n != 0.0
    && Evidence(green, link, ctx) && green.data["exit"].n == 0.0
    && red.order < green.order
    && Tokens(StrField(red.data, "cmd")) != [] && Tokens(StrField(green.data, "cmd")) != []
    && Tokens(StrField(red.data, "cmd"))[0] == Tokens(StrField(green.data, "cmd"))[0]
  }

  lemma EvidenceIff(r: Record, link: string, ctx: string)
    ensures IsRed(r, link, ctx) <==> Evidence(r, link, ctx) && r.data["exit"].n != 0.0
    ensures IsGreen(r, link, ctx) <==> Evidence(r, link, ctx) && r.data["exit"].n == 0.0
  {
  }

  /** The predicate passes exactly when such a pair is on record. */
  lemma {:induction false} PassesIffProven(env: Env, link: string, ctx: string)
    ensures RedGreenClass(env, link, ctx) >= WEAK <==>
            exists red, green :: Proven(env, link, ctx, red, green)
  {
    hide Classify, IsRed, IsGreen, Tokens, Evidence;
    var runs := Records(env.events, "test-run");
    var reds, greens := Reds(runs, link, ctx), Greens(runs, link, ctx);
    RedsAndGreensAreRuns(runs, link, ctx);
    if RedGreenClass(env, link, ctx) >= WEAK {
      var r, g := BestIsAttained(reds, greens);
      PairsByRunner(Cmd(reds[r]), Cmd(greens[g]));
      assert reds[r] in reds && greens[g] in greens;
      EvidenceIff(reds[r], link, ctx);
      EvidenceIff(greens[g], link, ctx);
      assert Proven(env, link, ctx, reds[r], greens[g]);
    }
    forall red, green | Proven(env, link, ctx, red, green)
      ensures RedGreenClass(env, link, ctx) >= WEAK
    {
      EvidenceIff(red, link, ctx);
      EvidenceIff(green, link, ctx);
      var r :| 0 <= r < |reds| && reds[r] == red;
      var g :| 0 <= g < |greens| && greens[g] == green;
      PairsByRunner(Cmd(red), Cmd(green));
      BestIsMaximum(reds, greens, r, g);
    }
  }

  lemma {:induction false} RedsAndGreensPrefix(a: seq<Record>, b: seq<Record>, link: string, ctx: string)
    requires a <= b
    ensures Reds(a, link, ctx) <= Reds(b, link, ctx) && Greens(a, link, ctx) <= Greens(b, link, ctx)
    decreases |b|
  {
    hide IsRed, IsGreen;
    if |a| == |b| {
      assert a == b;
    } else {
      RedsAndGreensPrefix(a, b[..|b| - 1], link, ctx);
    }
  }

  /** Evidence only accumulates: appending events that are not updates never weakens it. */
  lemma {:induction false} ClassNeverDrops(env: Env, more: seq<Event>, link: string, ctx: string)
    requires NoUpdates(more)
    ensures RedGreenClass(env, link, ctx) <= RedGreenClass(env.(events := env.events + more), link, ctx)
  {
    hide PairClass;
    AppendOnlyAdds(env.events, more, "test-run");
    var a, b := Records(env.events, "test-run"), Records(env.events + more, "test-run");
    RedsAndGreensPrefix(a, b, link, ctx);
    var r, g := BestIsAttained(Reds(a, link, ctx), Greens(a, link, ctx));
    if Reds(a, link, ctx) != [] && BestPair(Reds(a, link, ctx), Greens(a, link, ctx)) > NO_GREEN {
      BestIsMaximum(Reds(b, link, ctx), Greens(b, link, ctx), r, g);
    }
  }
}

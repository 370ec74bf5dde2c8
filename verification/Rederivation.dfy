/** Where re-derivation parts from the live snapshot: exactly when, and on which runs. */
module Rederivation {
  import opened Values
  import opened Events
  import opened WorkflowSpec
  import opened PhaseOrder
  import opened RunState
  import opened RunTheory
  import opened RunInvariant
  import opened RunSafety
  import opened SampleRuns
  import opened LoopTargets

  predicate Begins(e: Event) {
    e.kind == "run" && e.Text("action") in {"start", "branch", "adopt"}
  }

  /** A phase event of the run being re-derived. */
  predicate OfRunDerived(log: seq<Event>, e: Event) {
    e.kind == "phase" && Derive(log).Some? && Derive(log).value.id == e.run
  }

  /** The run has left its last phase and entered no other. */
  predicate Left(log: seq<Event>) {
    if log == [] then false
    else
      var init, e := log[..|log| - 1], log[|log| - 1];
      if Begins(e) then false
      else if OfRunDerived(init, e) && e.Text("action") in {"exit", "force"} then true
      else if OfRunDerived(init, e) && e.Text("action") in {"enter", "loop"} then false
      else Left(init)
  }

  /** Where the run was last taken, by an entry or a loop. */
  function LastTarget(log: seq<Event>): string {
    if log == [] then ""
    else
      var init, e := log[..|log| - 1], log[|log| - 1];
      if Begins(e) then ""
      else if OfRunDerived(init, e) && e.Text("action") in {"enter", "loop"} then e.Text("target")
      else LastTarget(init)
  }

  lemma {:induction false} DerivedPhaseIsLastTarget(log: seq<Event>)
    requires Derive(log).Some?
    ensures Derive(log).value.phase == LastTarget(log)
  {
    var init := log[..|log| - 1];
    if Derive(init).Some? { DerivedPhaseIsLastTarget(init); }
  }

  /** Some loop of the run led back to a phase it had exited. */
  predicate Reopened(log: seq<Event>) {
    if log == [] then false
    else
      var init, e := log[..|log| - 1], log[|log| - 1];
      if Begins(e) then false
      else
        || Reopened(init)
        || (OfRunDerived(init, e) && e.Text("action") == "loop"
            && Retell(init).Some? && e.Text("target") in Retell(init).value.exited)
  }

  /** Some loop of the run was a slip. */
  predicate Slipped(log: seq<Event>) {
    if log == [] then false
    else
      var init, e := log[..|log| - 1], log[|log| - 1];
      if Begins(e) then false
      else Slipped(init) || (OfRunDerived(init, e) && e.Text("action") == "loop" && e.Text("reason") == "slip")
  }

  lemma {:induction false} WithoutShrinks(xs: seq<string>, x: string)
    ensures |Without(xs, x)| <= |xs|
    ensures x in xs ==> |Without(xs, x)| < |xs|
    ensures x !in xs ==> Without(xs, x) == xs
  {
    if xs != [] {
      WithoutShrinks(xs[..|xs| - 1], x);
      assert xs == xs[..|xs| - 1] + [xs[|xs| - 1]];
    }
  }

  /** How the two accounts of one log relate. */
  ghost predicate Related(log: seq<Event>, d: Run, r: Run) {
    && r == d.(phase := if Left(log) then "" else d.phase, exited := r.exited, slipByAC := r.slipByAC)
    && d.slipByAC == map[] && (Slipped(log) <==> r.slipByAC != map[])
    && (if Reopened(log) then |r.exited| < |d.exited| else r.exited == d.exited)
  }

  lemma MendedEvent(d: Run, r: Run, ac: string, e: Event)
    requires d.id == r.id && e.run == d.id && e.kind == "phase" && |r.exited| <= |d.exited|
    requires r == d.(phase := r.phase, exited := r.exited, slipByAC := r.slipByAC) && d.slipByAC == map[]
    ensures
      var d', r', action := Replay(Some(d), e), Mended(Some(r), ac, e), e.Text("action");
      && d'.Some? && r'.Some? && d'.value.id == d.id && d'.value.slipByAC == map[]
      && r'.value == d'.value.(phase := r'.value.phase, exited := r'.value.exited, slipByAC := r'.value.slipByAC)
      && r'.value.phase == (if action in {"exit", "force"} then ""
                            else if action in {"enter", "loop"} then d'.value.phase else r.phase)
      && (action !in {"exit", "force", "enter", "loop"} ==> d'.value.phase == d.phase)
      && (action != "loop" ==> r'.value.slipByAC == r.slipByAC)
      && (action == "loop" ==>
        d'.value.exited == d.exited && r'.value.exited == Without(r.exited, e.Text("target"))
        && (e.Text("reason") == "slip" ==> r'.value.slipByAC != map[])
        && (e.Text("reason") != "slip" ==> r'.value.slipByAC == r.slipByAC))
      && (action != "loop" ==>
        && r.exited <= r'.value.exited && d.exited <= d'.value.exited
        && r'.value.exited[|r.exited|..] == d'.value.exited[|d.exited|..])
  {
    hide SlipsOn, Without;
    if e.Text("action") == "loop" && e.Text("reason") == "slip" { assert ac in Mended(Some(r), ac, e).value.slipByAC; }
  }

  /** On every log: both accounts exist together and differ in nothing but the phase a run
      has left, the exits loops re-opened, and the slips. */
  lemma {:induction false} AccountsRelate(log: seq<Event>)
    ensures Derive(log).Some? <==> Retell(log).Some?
    ensures Derive(log).Some? ==> Related(log, Derive(log).value, Retell(log).value)
  {
    if log != [] {
      var init, e := log[..|log| - 1], log[|log| - 1];
      AccountsRelate(init);
      if OfRunDerived(init, e) {
        hide Replay, Mended, Without;
        var d, r := Derive(init).value, Retell(init).value;
        MendedEvent(d, r, LastAC(init), e);
        WithoutShrinks(r.exited, e.Text("target"));
      } else {
        hide Without;
      }
    }
  }

  /** Re-derivation gives back, of a live run's snapshot: the phase unless the run has left
      the named one it was last taken to and entered no other; the exits unless a loop re-opened
      one; the slips unless there were any; and everything else always. */
  lemma {:induction false} RederivedIff(en: Engine, st: State)
    requires PhasesOk(en.spec) && Reachable(en, st) && st.run.Some?
    ensures Derive(st.log).Some?
    ensures
      var d, r := Derive(st.log).value, st.run.value;
      && d.(phase := "", exited := [], slipByAC := map[]) == r.(phase := "", exited := [], slipByAC := map[])
      && (d.phase == r.phase <==> !Left(st.log) || LastTarget(st.log) == "")
      && (d.exited == r.exited <==> !Reopened(st.log))
      && (d.slipByAC == r.slipByAC <==> !Slipped(st.log))
  {
    hide PhasesOk, Reachable, Left, Reopened, Slipped, Derive, Retell, LastTarget;
    LogDeterminesRun(en, st);
    AccountsRelate(st.log);
    DerivedPhaseIsLastTarget(st.log);
  }

  // ---------------------------------------------------------------------------
  // On actual runs
  // ---------------------------------------------------------------------------

  /** Loops from the second of two phases back to the first. */
  function Back(): Loops {
    Loops("verify", ["build"], 1, 1, None)
  }

  lemma BackIsAccepted()
    ensures WellFormed(Sample(TwoPhases(), Back())) && PhasesOk(Sample(TwoPhases(), Back()))
  {
    hide PhasesOk;
    TwoPhasesAreOk(Back());
    var phases := TwoPhases();
    assert phases[0].id == "build" && phases[1].id == "verify";
    SampleIsAccepted(phases, Back());
  }

  lemma ExitLog(en: Engine, st: State)
    requires en.spec.contracts == [] && st.run.Some? && st.run.value.status == Active
    requires NextUnwaived(Order(en.spec, st.run.value.family), st.run.value.phase, st.run.value.waived) == ""
    ensures
      var log, r := ExitStep(en, st, false, "").0.log, st.run.value;
      |log| == |st.log| + 1 && log[..|st.log|] == st.log && IsPhaseAction(log[|st.log|], r.id, "exit")
  {
    hide Order, NextUnwaived;
    ExitMoves(en, st);
  }

  lemma LoopLog(en: Engine, st: State, ac: string, target: string)
    requires st.run.Some? && LoopTarget(en, st.log, st.run.value, "slip") == Ok(target)
    requires LoopStep(en, st, ac, "slip", "observed").1 == Done
    ensures
      var log, r := LoopStep(en, st, ac, "slip", "observed").0.log, st.run.value;
      && |log| == |st.log| + 2 && log[..|st.log|] == st.log
      && log[|st.log|].kind == "loop" && log[|st.log|].run == r.id
      && IsPhaseAction(log[|st.log| + 1], r.id, "loop")
      && log[|st.log| + 1].Text("target") == target && log[|st.log| + 1].Text("reason") == "slip"
  {
    hide LoopTarget, Blank, SlipsOn, Without;
  }

  lemma Reaches(en: Engine, cs: seq<Command>)
    requires GoingIsAllowed(en, Nothing(), cs)
    ensures Reachable(en, Going(en, Nothing(), cs))
  {
    hide AllAdmissible, After;
    assert ReachedBy(en, Nothing(), Alike(en, cs), Going(en, Nothing(), cs));
  }

  /** A run of two phases at its second one, reached by admissible commands. */
  lemma {:induction false} AtVerify(en: Engine, id: string)
    requires en.spec == Sample(TwoPhases(), Back())
    ensures
      var cs := [Start(id, "feature", ""), Exit(false, "")];
      && GoingIsAllowed(en, Nothing(), cs)
      && Going(en, Nothing(), cs).run == Some(Started(id, "feature", "verify").(exited := ["build"]))
  {
    hide Order, ExitStep, StartStep, NextUnwaived;
    TwoPhaseOrder(Back(), "feature");
    BuildThenVerify();
    var start, exit := Start(id, "feature", ""), Exit(false, "");
    var st1 := StartStep(en, Nothing(), id, "feature", "").0;
    StartMoves(en, id, "feature");
    ExitMoves(en, st1);
    GoingTwo(en, Nothing(), start, exit);
    AllowedOn(en, Nothing(), [], start);
    AllowedOn(en, Nothing(), [start], exit);
    assert [] + [start] == [start] && [start] + [exit] == [start, exit];
    assert [] + ["build"] == ["build"];
  }

  /** A run through both its phases: the snapshot has no phase, the log still tells the last. */
  lemma {:induction false} LastExitIsNotRederived(en: Engine, id: string)
    requires en.spec == Sample(TwoPhases(), Back())
    ensures
      var st := Going(en, Nothing(), [Start(id, "feature", ""), Exit(false, "")] + [Exit(false, "")]);
      && Reachable(en, st) && st.run.Some? && Left(st.log) && st.run.value.phase == ""
      && Derive(st.log).Some? && Derive(st.log).value.phase == "verify"
  {
    hide Order, ExitStep, NextUnwaived, GoingIsAllowed, Going, Reachable, PhasesOk;
    var cs, exit := [Start(id, "feature", ""), Exit(false, "")], Exit(false, "");
    AtVerify(en, id);
    BackIsAccepted();
    TwoPhaseOrder(Back(), "feature");
    BuildThenVerify();
    var before := Going(en, Nothing(), cs);
    GoingOn(en, Nothing(), cs, exit);
    AllowedOn(en, Nothing(), cs, exit);
    Reaches(en, cs);
    Reaches(en, cs + [exit]);
    SnapshotIsDerivable(en, before);
    ExitMoves(en, before);
    ExitLog(en, before);
  }

  /** A run that looped back for a slip: the log still tells the exit and not the slip. */
  lemma {:induction false} LoopIsNotRederived(en: Engine, id: string)
    requires en.spec == Sample(TwoPhases(), Back())
    ensures
      var st := Going(en, Nothing(), [Start(id, "feature", ""), Exit(false, "")]
                                     + [LoopBack("AC-1", "slip", "observed")]);
      && Reachable(en, st) && st.run.Some? && Reopened(st.log) && Slipped(st.log)
      && st.run.value.exited == [] && "AC-1" in st.run.value.slipByAC
      && Derive(st.log).Some? && "build" in Derive(st.log).value.exited && Derive(st.log).value.slipByAC == map[]
  {
    hide Order, LoopStep, GoingIsAllowed, Admissible, Going, Reachable, PhasesOk, Without, WellFormed, Derive, Retell,
      Reopened, Slipped;
    var cs, loop := [Start(id, "feature", ""), Exit(false, "")], LoopBack("AC-1", "slip", "observed");
    AtVerify(en, id);
    BackIsAccepted();
    var before := Going(en, Nothing(), cs);
    var r := before.run.value;
    SlipGoesThrough(en, before, r);
    LoopLog(en, before, "AC-1", "build");
    LoopToBuildIsSafe(en, before, r);
    GoingOn(en, Nothing(), cs, loop);
    AllowedOn(en, Nothing(), cs, loop);
    Reaches(en, cs);
    Reaches(en, cs + [loop]);
    SnapshotIsDerivable(en, before);
    LogDeterminesRun(en, before);
    var after := Going(en, Nothing(), cs + [loop]);
    SlipIsLogged(before.log, after.log, r, "build");
    AccountsRelate(after.log);
  }

  lemma SlipGoesThrough(en: Engine, st: State, r: Run)
    requires en.spec == Sample(TwoPhases(), Back()) && st.run == Some(r)
    requires r == Started(r.id, "feature", "verify").(exited := ["build"])
    ensures LoopTarget(en, st.log, r, "slip") == Ok("build")
    ensures
      var (st', reply) := LoopStep(en, st, "AC-1", "slip", "observed");
      reply == Done && st'.run.Some? && st'.run.value.exited == [] && "AC-1" in st'.run.value.slipByAC
  {
    hide LoopStep, Without;
    LoopMoves(en, st, "AC-1", "slip", "build");
    assert Without(["build"], "build") == [] by { WithoutShrinks(["build"], "build"); }
  }

  lemma LoopToBuildIsSafe(en: Engine, st: State, r: Run)
    requires en.spec == Sample(TwoPhases(), Back()) && st.run == Some(r)
    requires r == Started(r.id, "feature", "verify").(exited := ["build"])
    ensures Admissible(en, st, LoopBack("AC-1", "slip", "observed"))
  {
    hide Order, LoopStep, SafeLoop;
    TwoPhaseOrder(Back(), "feature");
    assert Precedes(["build", "verify"], "build", "verify");
    PrecedingIsSafe(["build", "verify"], r, "build");
  }

  lemma SlipIsLogged(before: seq<Event>, after: seq<Event>, r: Run, target: string)
    requires Derive(before).Some? && Derive(before).value.id == r.id && target in Derive(before).value.exited
    requires Retell(before) == Some(r) && target in r.exited
    requires |after| == |before| + 2 && after[..|before|] == before
    requires after[|before|].kind == "loop" && IsPhaseAction(after[|before| + 1], r.id, "loop")
    requires after[|before| + 1].Text("target") == target && after[|before| + 1].Text("reason") == "slip"
    ensures Reopened(after) && Slipped(after)
    ensures Derive(after).Some? && target in Derive(after).value.exited
  {
    hide Replay, Mended, Derive, Retell, Reopened, Slipped, IsPhaseAction, OfRunDerived;
    var x, e := after[|before|], after[|before| + 1];
    var mid := before + [x];
    TwoMore(before, after);
    RecordIsNoMove(before, x);
    SlipReopens(mid, e, r, target);
  }

  lemma TwoMore(before: seq<Event>, after: seq<Event>)
    requires |after| == |before| + 2 && after[..|before|] == before
    ensures after == (before + [after[|before|]]) + [after[|before| + 1]]
  {
  }

  lemma RecordIsNoMove(log: seq<Event>, x: Event)
    requires x.kind == "loop"
    ensures Derive(log + [x]) == Derive(log) && Retell(log + [x]) == Retell(log)
  {
    assert (log + [x])[..|log|] == log;
  }

  lemma SlipReopens(log: seq<Event>, e: Event, r: Run, target: string)
    requires Derive(log).Some? && Derive(log).value.id == r.id && target in Derive(log).value.exited
    requires Retell(log) == Some(r) && target in r.exited
    requires IsPhaseAction(e, r.id, "loop") && e.Text("target") == target && e.Text("reason") == "slip"
    ensures Reopened(log + [e]) && Slipped(log + [e])
    ensures Derive(log + [e]).Some? && target in Derive(log + [e]).value.exited
  {
    hide Retell;
    assert (log + [e])[..|log|] == log;
  }

  /** A recorded classification that corrects the family changes the snapshot and not what
      the log tells. */
  lemma {:induction false} CorrectionIsNotRederived(en: Engine, id: string)
    requires en.spec == Sample(TwoPhases(), Back()) && KeepsCalls(en)
    requires
      var data: Fields := map["family" := Str("fix"), "intent" := Str("bug")];
      en.validate("classification", data, false) == Some(data)
    ensures
      var data: Fields := map["family" := Str("fix"), "intent" := Str("bug")];
      var st := Going(en, Nothing(), [Start(id, "feature", "")]);
      var st' := RecordStep(en, st, "classification", data, false, "").0;
      && Reachable(en, st) && Agrees(st)
      && st'.run.Some? && st'.run.value.family == "fix" && !Agrees(st')
  {
    hide Order, StartStep, Reachable, PhasesOk, Agrees, KeepsCalls;
    var data: Fields := map["family" := Str("fix"), "intent" := Str("bug")];
    var cs := [Start(id, "feature", "")];
    BackIsAccepted();
    TwoPhaseOrder(Back(), "feature");
    StartMoves(en, id, "feature");
    var st := StartStep(en, Nothing(), id, "feature", "").0;
    GoingOne(en, Nothing(), cs[0]);
    AllowedOn(en, Nothing(), [], cs[0]);
    assert [] + cs == cs;
    Reaches(en, cs);
    SnapshotIsDerivable(en, st);
    CorrectionIsRecorded(en, st, data);
    AgreementSurvivesRecordIff(en, st, "classification", data, false, "");
  }

  lemma CorrectionIsRecorded(en: Engine, st: State, data: Fields)
    requires en.spec == Sample(TwoPhases(), Back()) && st.run.Some?
    requires data == map["family" := Str("fix"), "intent" := Str("bug")]
    requires en.validate("classification", data, false) == Some(data)
    ensures
      var (st', reply) := RecordStep(en, st, "classification", data, false, "");
      reply == Done && st'.run.Some? && st'.run.value.family == "fix"
  {
  }
}

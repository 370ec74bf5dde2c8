/** Small accepted specifications without contract items, and how runs move under them: a
    start, an exit with open gates, a loop that goes through. They serve to show on actual
    runs where a property needs its hypothesis. */
module SampleRuns {
  import opened Values
  import opened WorkflowSpec
  import opened PhaseOrder
  import opened Contracts
  import opened RunState
  import opened RunInvariant
  import opened RunHistory

  function Stage(id: string, order: int): Phase {
    Phase(id, order, "auto-advance", "skill", map["feature" := "required", "fix" := "required"])
  }

  function Sample(phases: seq<Phase>, loops: Loops): Spec {
    Spec(SCHEMA_VERSION, ["feature", "fix"], map["fix" := ["bug"]], Verdicts(["pass"], ["fail"], []),
         phases, loops, [], [RecordKind("classification", [])], [])
  }

  function TwoPhases(): seq<Phase> {
    [Stage("build", 1), Stage("verify", 2)]
  }

  function ThreePhases(): seq<Phase> {
    [Stage("verify", 1), Stage("review", 2), Stage("build", 3)]
  }

  // ---------------------------------------------------------------------------
  // They are accepted
  // ---------------------------------------------------------------------------

  lemma StageIsOk(phases: seq<Phase>, loops: Loops, id: string, order: int)
    ensures PhaseOk(Sample(phases, loops), Stage(id, order))
  {
  }

  lemma TwoPhasesAreOk(loops: Loops)
    ensures PhasesOk(Sample(TwoPhases(), loops))
  {
    hide PhaseOk;
    var phases := TwoPhases();
    StageIsOk(phases, loops, "build", 1);
    StageIsOk(phases, loops, "verify", 2);
    assert phases[0].id == "build" && phases[1].id == "verify";
    assert HasOrder(phases, 1) by { assert phases[0].order == 1; }
    assert HasOrder(phases, 2) by { assert phases[1].order == 2; }
  }

  lemma ThreePhasesAreOk(loops: Loops)
    ensures PhasesOk(Sample(ThreePhases(), loops))
  {
    hide PhaseOk;
    var phases := ThreePhases();
    StageIsOk(phases, loops, "verify", 1);
    StageIsOk(phases, loops, "review", 2);
    StageIsOk(phases, loops, "build", 3);
    assert phases[0].id == "verify" && phases[1].id == "review" && phases[2].id == "build";
    assert HasOrder(phases, 1) by { assert phases[0].order == 1; }
    assert HasOrder(phases, 2) by { assert phases[1].order == 2; }
    assert HasOrder(phases, 3) by { assert phases[2].order == 3; }
  }

  lemma SampleIsAccepted(phases: seq<Phase>, loops: Loops)
    requires PhasesOk(Sample(phases, loops))
    requires LoopsOk(Sample(phases, loops), Names(phases, (p: Phase) => p.id))
    ensures WellFormed(Sample(phases, loops))
  {
    hide PhasesOk, LoopsOk, Names, PredicateErrors;
  }

  lemma TwoPhaseOrder(loops: Loops, family: string)
    requires family in {"feature", "fix"}
    ensures Order(Sample(TwoPhases(), loops), family) == ["build", "verify"]
  {
    assert TwoPhases() == [Stage("build", 1)] + ([Stage("verify", 2)] + []);
  }

  lemma ThreePhaseOrder(loops: Loops)
    ensures Order(Sample(ThreePhases(), loops), "feature") == ["verify", "review", "build"]
  {
    assert ThreePhases() == [Stage("verify", 1)] + ([Stage("review", 2)] + ([Stage("build", 3)] + []));
  }

  // ---------------------------------------------------------------------------
  // How runs move
  // ---------------------------------------------------------------------------

  function Nothing(): State {
    State([], 0, None, map[])
  }

  function Started(id: string, family: string, phase: string): Run {
    Run(id, family, "", phase, Active, 0, map[], 0, [], [])
  }

  lemma StartMoves(en: Engine, id: string, family: string)
    requires family in en.spec.families && Order(en.spec, family) != []
    ensures StartStep(en, Nothing(), id, family, "").1 == Done
    ensures StartStep(en, Nothing(), id, family, "").0.run == Some(Started(id, family, Order(en.spec, family)[0]))
  {
    hide Order;
  }

  /** Without contract items every gate is open. */
  lemma ExitMoves(en: Engine, st: State)
    requires en.spec.contracts == [] && st.run.Some? && st.run.value.status == Active
    ensures
      var r, after := st.run.value, ExitStep(en, st, false, "");
      && after.1 == Done
      && after.0.run == Some(r.(exited := r.exited + [r.phase],
                                phase := NextUnwaived(Order(en.spec, r.family), r.phase, r.waived)))
  {
    hide Order, NextUnwaived;
    var r := st.run.value;
    var next := NextUnwaived(Order(en.spec, r.family), r.phase, r.waived);
    assert EvaluateStage(EnvOf(en, st.log, r), r.phase, false) == Ok([]);
    assert EvaluateStage(EnvOf(en, st.log, r), next, true) == Ok([]);
  }

  lemma LoopMoves(en: Engine, st: State, ac: string, cause: string, target: string)
    requires st.run.Some? && st.run.value.loops < en.spec.loops.maxPerRun
    requires LoopTarget(en, st.log, st.run.value, cause) == Ok(target)
    requires cause == "slip" ==> SlipsOn(st.run.value, ac) < en.spec.loops.maxSlipPerAC
    ensures LoopStep(en, st, ac, cause, "observed").1 == Done
    ensures LoopStep(en, st, ac, cause, "observed").0.run == Some(Looped(st.run.value, ac, cause, target))
  {
    hide Without, LoopTarget, SlipsOn;
    assert !Blank("observed");
  }

  // ---------------------------------------------------------------------------
  // Commands that all find the same
  // ---------------------------------------------------------------------------

  function Own(en: Engine): Sight {
    Sight(en.spec.contracts, en.spec.records, en.spec.roster, en.spec.verdicts, en.config, en.world, en.validate)
  }

  function Alike(en: Engine, cs: seq<Command>): seq<Turn> {
    if cs == [] then [] else Alike(en, cs[..|cs| - 1]) + [Turn(Own(en), cs[|cs| - 1])]
  }

  /** The state after commands that all find what the engine is given. */
  function Going(en: Engine, st: State, cs: seq<Command>): State {
    After(en, st, Alike(en, cs))
  }

  lemma OwnIsSame(en: Engine)
    ensures Seen(en, Own(en)) == en
  {
  }

  lemma AlikeJoin(en: Engine, cs: seq<Command>, c: Command)
    ensures Alike(en, cs + [c]) == Alike(en, cs) + [Turn(Own(en), c)]
  {
    assert (cs + [c])[..|cs|] == cs;
  }

  lemma {:induction false} GoingOn(en: Engine, st: State, cs: seq<Command>, c: Command)
    ensures Going(en, st, cs + [c]) == Step(en, Going(en, st, cs), c).0
  {
    hide Step, After, Alike;
    AlikeJoin(en, cs, c);
    AfterJoin(en, st, Alike(en, cs), Turn(Own(en), c));
    OwnIsSame(en);
  }

  lemma {:induction false} GoingOne(en: Engine, st: State, c: Command)
    ensures Going(en, st, [c]) == Step(en, st, c).0
  {
    hide Step;
    GoingOn(en, st, [], c);
    assert [] + [c] == [c];
  }

  lemma {:induction false} GoingTwo(en: Engine, st: State, a: Command, b: Command)
    ensures Going(en, st, [a, b]) == Step(en, Step(en, st, a).0, b).0
  {
    hide Step, Going;
    GoingOne(en, st, a);
    GoingOn(en, st, [a], b);
    assert [a] + [b] == [a, b];
  }

  predicate GoingIsAllowed(en: Engine, st: State, cs: seq<Command>) {
    AllAdmissible(en, st, Alike(en, cs))
  }

  lemma {:induction false} AllowedOn(en: Engine, st: State, cs: seq<Command>, c: Command)
    ensures GoingIsAllowed(en, st, cs + [c]) <==> GoingIsAllowed(en, st, cs) && Admissible(en, Going(en, st, cs), c)
  {
    hide After, Alike, AllAdmissible, Admissible;
    AlikeJoin(en, cs, c);
    AdmissibleJoin(en, st, Alike(en, cs), Turn(Own(en), c));
    OwnIsSame(en);
  }
}

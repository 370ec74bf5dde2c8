/** Which specifications make every loop safe, and what a run loses where one is not: by a loop
    ahead over phases never left, and by a loop from a finished run back to its first
    phase. */
module LoopTargets {
  import opened Values
  import opened WorkflowSpec
  import opened PhaseOrder
  import opened RunState
  import opened RunTheory
  import opened RunInvariant
  import opened RunSafety
  import opened SampleRuns

  // ---------------------------------------------------------------------------
  // Specifications under which every loop is safe
  // ---------------------------------------------------------------------------

  predicate Precedes(order: seq<string>, a: string, b: string) {
    a in order && Index(order, a) < Index(order, b)
  }

  /** Loops of the family start from a named phase and lead to earlier ones. */
  predicate LeadsBack(s: Spec, family: string) {
    var order := Order(s, family);
    && s.loops.from != ""
    && (forall t :: t in s.loops.targets && t in {"build", "design", "plan"} && s.loops.from in order ==>
      Precedes(order, t, s.loops.from))
    && (s.loops.ship.Some? && "ship" in order ==> Precedes(order, s.loops.ship.value.target, "ship"))
  }

  lemma PrecedingIsSafe(order: seq<string>, r: Run, target: string)
    requires Precedes(order, target, r.phase) && r.phase != ""
    ensures SafeLoop(order, r, target)
  {
  }

  /** Where loops lead back every loop of a run of that family is safe. */
  lemma {:induction false} LeadingBackIsSafe(en: Engine, st: State, ac: string, cause: string, evidence: string)
    requires PhasesOk(en.spec) && Sound(en, st)
    requires st.run.Some? ==> LeadsBack(en.spec, st.run.value.family)
    ensures Admissible(en, st, LoopBack(ac, cause, evidence))
  {
    hide Order, PhasesOk, Tells, Capped, ShipGrounds, Blank, SlipsOn, SafeLoop;
    if st.run.Some? && LoopTarget(en, st.log, st.run.value, cause).Ok? {
      var r := st.run.value;
      PrecedingIsSafe(Order(en.spec, r.family), r, LoopTarget(en, st.log, r, cause).value);
    }
  }

  // ---------------------------------------------------------------------------
  // A loop ahead
  // ---------------------------------------------------------------------------

  /** Loops from the first of three phases over the second to the third. */
  function Ahead(): Loops {
    Loops("verify", ["build"], 1, 1, None)
  }

  lemma AheadIsAccepted()
    ensures WellFormed(Sample(ThreePhases(), Ahead()))
  {
    hide PhasesOk;
    ThreePhasesAreOk(Ahead());
    var phases := ThreePhases();
    assert phases[0].id == "verify" && phases[2].id == "build";
    SampleIsAccepted(phases, Ahead());
  }

  /** An accepted specification alone does not protect the order: here a run loops, exits
      its last phase with all contracts met and closes, past two phases it never left. */
  lemma {:induction false} LoopAheadSkipsPhases(en: Engine, id: string)
    requires en.spec == Sample(ThreePhases(), Ahead())
    ensures WellFormed(en.spec)
    ensures
      var st := Going(en, Nothing(), [Start(id, "feature", ""), LoopBack("AC-1", "slip", "observed"), Exit(false, "")]);
      && CloseStep(en, st).1 == Done
      && st.run.Some? && Order(en.spec, st.run.value.family) == ["verify", "review", "build"]
      && !Accounted(st.run.value, "verify") && !Accounted(st.run.value, "review")
  {
    hide Order, ExitStep, LoopStep, StartStep, WellFormed, NextUnwaived;
    AheadIsAccepted();
    ThreePhaseOrder(Ahead());
    var start, loop, exit := Start(id, "feature", ""), LoopBack("AC-1", "slip", "observed"), Exit(false, "");
    var st1 := StartStep(en, Nothing(), id, "feature", "").0;
    StartMoves(en, id, "feature");
    var st2 := LoopStep(en, st1, "AC-1", "slip", "observed").0;
    LoopMoves(en, st1, "AC-1", "slip", "build");
    ExitMoves(en, st2);
    GoingTwo(en, Nothing(), start, loop);
    GoingOn(en, Nothing(), [start, loop], exit);
    assert [start, loop] + [exit] == [start, loop, exit];
    assert NextUnwaived(["verify", "review", "build"], "build", []) == "" by { LastHasNoNext(); }
  }

  lemma LastHasNoNext()
    ensures NextUnwaived(["verify", "review", "build"], "build", []) == ""
  {
  }

  // ---------------------------------------------------------------------------
  // Loops from nowhere
  // ---------------------------------------------------------------------------

  /** Loops start where no phase is current: from a run that is through. */
  function FromNowhere(): Loops {
    Loops("", ["build"], 1, 1, None)
  }

  lemma FromNowhereIsAccepted()
    ensures WellFormed(Sample(TwoPhases(), FromNowhere()))
  {
    hide PhasesOk;
    TwoPhasesAreOk(FromNowhere());
    var phases := TwoPhases();
    assert phases[0].id == "build";
    SampleIsAccepted(phases, FromNowhere());
  }

  lemma BuildThenVerify()
    ensures NextUnwaived(["build", "verify"], "build", []) == "verify"
    ensures NextUnwaived(["build", "verify"], "verify", []) == ""
  {
    assert ["build", "verify"][1..] == ["verify"];
  }

  /** A finished run under it, and what a loop from there makes of it. */
  lemma {:induction false} FinishedRun(en: Engine, id: string)
    requires en.spec == Sample(TwoPhases(), FromNowhere())
    ensures
      Going(en, Nothing(), [Start(id, "feature", ""), Exit(false, ""), Exit(false, "")]).run
      == Some(Started(id, "feature", "").(exited := ["build", "verify"]))
  {
    hide Order, ExitStep, StartStep, NextUnwaived;
    TwoPhaseOrder(FromNowhere(), "feature");
    BuildThenVerify();
    var start, exit := Start(id, "feature", ""), Exit(false, "");
    var st1 := StartStep(en, Nothing(), id, "feature", "").0;
    StartMoves(en, id, "feature");
    ExitMoves(en, st1);
    var st2 := ExitStep(en, st1, false, "").0;
    ExitMoves(en, st2);
    assert ([] + ["build"]) + ["verify"] == ["build", "verify"];
    assert ExitStep(en, st2, false, "").0.run == Some(Started(id, "feature", "").(exited := ["build", "verify"]));
    GoingTwo(en, Nothing(), start, exit);
    GoingOn(en, Nothing(), [start, exit], exit);
    assert [start, exit] + [exit] == [start, exit, exit];
  }

  /** An accepted specification with an empty loop origin: a finished run loops back over
      nothing to its first phase, keeps its exit of the last one, and closes with the first
      phase open. */
  lemma {:induction false} LoopFromNowhereReopens(en: Engine, id: string)
    requires en.spec == Sample(TwoPhases(), FromNowhere())
    ensures WellFormed(en.spec) && Order(en.spec, "feature") == ["build", "verify"]
    ensures
      var before := Going(en, Nothing(), [Start(id, "feature", ""), Exit(false, ""), Exit(false, "")]);
      var after := LoopStep(en, before, "AC-1", "slip", "observed").0;
      && before.run.Some? && NothingSkipped(["build", "verify"], before.run.value, "build")
      && !SafeLoop(["build", "verify"], before.run.value, "build")
      && after.run.Some? && after.run.value.phase == "build" && !Accounted(after.run.value, "build")
      && CloseStep(en, after).1 == Done
  {
    hide Order, LoopStep, WellFormed, Going;
    FromNowhereIsAccepted();
    TwoPhaseOrder(FromNowhere(), "feature");
    FinishedRun(en, id);
    var before := Going(en, Nothing(), [Start(id, "feature", ""), Exit(false, ""), Exit(false, "")]);
    LoopMoves(en, before, "AC-1", "slip", "build");
    assert Without(["build", "verify"], "build") == ["verify"] by { assert ["build", "verify"][..1] == ["build"]; }
    assert ["build", "verify"][..1] == ["build"];
  }

  // ---------------------------------------------------------------------------
  // A phase without a name
  // ---------------------------------------------------------------------------

  function NamelessFirst(): seq<Phase> {
    [Stage("", 1), Stage("ship", 2)]
  }

  function NoLoops(): Loops {
    Loops("", [], 0, 0, None)
  }

  lemma NamelessIsAccepted()
    ensures WellFormed(Sample(NamelessFirst(), NoLoops()))
  {
    hide PhaseOk;
    var phases := NamelessFirst();
    StageIsOk(phases, NoLoops(), "", 1);
    StageIsOk(phases, NoLoops(), "ship", 2);
    assert phases[0].id == "" && phases[1].id == "ship";
    assert HasOrder(phases, 1) by { assert phases[0].order == 1; }
    assert HasOrder(phases, 2) by { assert phases[1].order == 2; }
    hide PhasesOk;
    SampleIsAccepted(phases, NoLoops());
  }

  lemma NamelessOrder()
    ensures Order(Sample(NamelessFirst(), NoLoops()), "feature") == ["", "ship"]
    ensures NextUnwaived(["", "ship"], "", []) == "ship" && NextUnwaived(["", "ship"], "ship", []) == ""
  {
    assert NamelessFirst() == [Stage("", 1)] + ([Stage("ship", 2)] + []);
    assert ["", "ship"][1..] == ["ship"];
  }

  /** As many exits as asked for. */
  function Laps(en: Engine, n: nat): seq<Turn> {
    if n == 0 then [] else [Turn(Own(en), Exit(false, ""))] + Laps(en, n - 1)
  }

  predicate Lapping(st: State) {
    st.run.Some? &&
    var r := st.run.value;
    r.family == "feature" && r.status == Active && r.waived == [] && r.phase in {"", "ship"}
  }

  lemma {:induction false} LapOn(en: Engine, st: State)
    requires en.spec == Sample(NamelessFirst(), NoLoops()) && Lapping(st)
    ensures
      var st' := ExitStep(en, st, false, "").0;
      Lapping(st') && st'.run.value.id == st.run.value.id && st'.run.value.phase != st.run.value.phase
  {
    hide Order, ExitStep, NextUnwaived;
    NamelessOrder();
    ExitMoves(en, st);
  }

  lemma {:induction false} LapsAreMoves(en: Engine, st: State, n: nat)
    requires en.spec == Sample(NamelessFirst(), NoLoops()) && Lapping(st)
    ensures AllAdmissible(en, st, Laps(en, n)) && Moves(en, st, Laps(en, n)) == n
    decreases n
  {
    hide ExitStep;
    if n > 0 {
      OwnIsSame(en);
      LapOn(en, st);
      var st' := ExitStep(en, st, false, "").0;
      LapsAreMoves(en, st', n - 1);
      assert Laps(en, n)[1..] == Laps(en, n - 1);
      OneMove(en, st, Laps(en, n));
    }
  }

  lemma OneMove(en: Engine, st: State, ts: seq<Turn>)
    requires ts != [] && ts[0] == Turn(Own(en), Exit(false, "")) && st.run.Some?
    requires
      var st' := ExitStep(en, st, false, "").0;
      st'.run.Some? && st'.run.value.id == st.run.value.id && st'.run.value.phase != st.run.value.phase
    ensures Moves(en, st, ts) == 1 + Moves(en, ExitStep(en, st, false, "").0, ts[1..])
  {
    hide ExitStep;
    OwnIsSame(en);
  }

  /** An accepted specification without loops whose first phase has no name: leaving the last
      phase leads back to it, so a run moves on as often as it is told to exit. */
  lemma {:induction false} NamelessPhaseLaps(en: Engine, id: string, n: nat)
    requires en.spec == Sample(NamelessFirst(), NoLoops())
    ensures WellFormed(en.spec)
    ensures
      var st := StartStep(en, Nothing(), id, "feature", "").0;
      && StartStep(en, Nothing(), id, "feature", "").1 == Done
      && AllAdmissible(en, st, Laps(en, n)) && Moves(en, st, Laps(en, n)) == n
  {
    hide WellFormed, Order, StartStep, Moves, AllAdmissible, Laps;
    NamelessIsAccepted();
    NamelessOrder();
    StartMoves(en, id, "feature");
    LapsAreMoves(en, StartStep(en, Nothing(), id, "feature", "").0, n);
  }
}

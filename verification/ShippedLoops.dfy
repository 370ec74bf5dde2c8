/** The loops of the shipped specification: safe for every run, save that an assessment, which
    has no design phase, must not loop to it. What becomes of one that does: it is through
    with two phases unaccounted and can never close. */
module ShippedLoops {
  import opened Values
  import opened Events
  import opened WorkflowSpec
  import opened PhaseOrder
  import opened Contracts
  import opened Retention
  import opened RunState
  import opened RunTheory
  import opened RunInvariant
  import opened RunSafety
  import opened RunLog
  import opened RunHistory
  import opened LoopTargets
  import opened SampleRuns

  function Everywhere(id: string, order: int, mode: string): Phase {
    Phase(id, order, mode, id, map["diff" := "required", "artifact" := "required", "assessment" := "required"])
  }

  function DesignPhase(): Phase {
    Phase("design", 3, "interactive-exit", "design",
          map["diff" := "waivable", "artifact" := "required", "assessment" := "none"])
  }

  function Phases(): seq<Phase> {
    [Everywhere("frame", 1, "interactive"), Everywhere("context", 2, "interactive-exit"), DesignPhase(),
     Everywhere("plan", 4, "interactive-exit"), Everywhere("build", 5, "auto-advance"),
     Everywhere("verify", 6, "interactive-exit"), Everywhere("ship", 7, "interactive")]
  }

  /** The families, phases and loops of the shipped specification; roster, record kinds and
      contract items may be any. */
  predicate Shipped(s: Spec) {
    && s.families == ["diff", "artifact", "assessment"]
    && s.phases == Phases()
    && s.loops == Loops("verify", ["build", "design", "plan"], 10, 2, Some(ShipLoop("verify", ["audit"])))
  }

  const WHOLE: seq<string> := ["frame", "context", "design", "plan", "build", "verify", "ship"]

  const ASSESSED: seq<string> := ["frame", "context", "plan", "build", "verify", "ship"]

  // ---------------------------------------------------------------------------
  // Its phases
  // ---------------------------------------------------------------------------

  lemma PhaseIsOk(s: Spec, i: nat)
    requires Shipped(s) && i < 7
    ensures PhaseOk(s, s.phases[i]) && s.phases[i].id == WHOLE[i] && s.phases[i].order == i + 1
  {
    if i == 0 { EveryModeIsOk(s, "frame", 1, "interactive"); }
    else if i == 1 { EveryModeIsOk(s, "context", 2, "interactive-exit"); }
    else if i == 2 { DesignIsOk(s); }
    else if i == 3 { EveryModeIsOk(s, "plan", 4, "interactive-exit"); }
    else if i == 4 { EveryModeIsOk(s, "build", 5, "auto-advance"); }
    else if i == 5 { EveryModeIsOk(s, "verify", 6, "interactive-exit"); }
    else { EveryModeIsOk(s, "ship", 7, "interactive"); }
  }

  lemma EveryModeIsOk(s: Spec, id: string, order: int, mode: string)
    requires Shipped(s) && id != "" && mode in {"interactive", "interactive-exit", "auto-advance"}
    ensures PhaseOk(s, Everywhere(id, order, mode))
  {
  }

  lemma DesignIsOk(s: Spec)
    requires Shipped(s)
    ensures PhaseOk(s, DesignPhase())
  {
  }

  lemma {:induction false} ShippedIsOrdered(s: Spec)
    requires Shipped(s)
    ensures PhasesOk(s)
  {
    hide PhaseOk, Shipped;
    assert |s.phases| == 7 by { HasSeven(s); }
    forall i: nat | i < 7
      ensures PhaseOk(s, s.phases[i]) && s.phases[i].id == WHOLE[i] && s.phases[i].order == i + 1
    {
      PhaseIsOk(s, i);
    }
    forall i: nat, j: nat | i < j < 7
      ensures s.phases[i].id != s.phases[j].id && s.phases[i].id != "" && s.phases[j].id != ""
    {
    }
    forall n: int | 1 <= n <= 7
      ensures HasOrder(s.phases, n)
    {
      assert s.phases[n - 1].order == n;
    }
  }

  lemma HasSeven(s: Spec)
    requires Shipped(s)
    ensures |s.phases| == 7
  {
  }

  lemma TakesAll(phases: seq<Phase>, id: string, order: int, mode: string, family: string)
    requires phases != [] && phases[0] == Everywhere(id, order, mode)
    requires family in {"diff", "artifact", "assessment"}
    ensures Participating(phases, family) == [phases[0]] + Participating(phases[1..], family)
  {
  }

  lemma ParticipatingTail(family: string)
    requires family in {"diff", "artifact", "assessment"}
    ensures Participating(Phases()[3..], family) == Phases()[3..]
  {
    var p := Phases();
    TakesAll(p[3..], "plan", 4, "interactive-exit", family);
    TakesAll(p[4..], "build", 5, "auto-advance", family);
    TakesAll(p[5..], "verify", 6, "interactive-exit", family);
    TakesAll(p[6..], "ship", 7, "interactive", family);
    assert p[3..][1..] == p[4..] && p[4..][1..] == p[5..] && p[5..][1..] == p[6..] && p[6..][1..] == [];
    assert p[3..] == [p[3]] + ([p[4]] + ([p[5]] + ([p[6]] + [])));
  }

  lemma FirstThree()
    ensures
      var p := Phases();
      && |p| == 7 && p[0] == Everywhere("frame", 1, "interactive")
      && p[1] == Everywhere("context", 2, "interactive-exit") && p[2] == DesignPhase()
  {
  }

  lemma ParticipatingPhases(family: string)
    requires family in {"diff", "artifact", "assessment"}
    ensures Participating(Phases(), family) ==
            if family == "assessment" then Phases()[..2] + Phases()[3..] else Phases()
  {
    hide Participating;
    hide Phases, Everywhere, DesignPhase;
    var p := Phases();
    FirstThree();
    ParticipatingTail(family);
    TakesAll(p, "frame", 1, "interactive", family);
    TakesAll(p[1..], "context", 2, "interactive-exit", family);
    DesignTakes(p[2..], family);
  }

  lemma DesignTakes(phases: seq<Phase>, family: string)
    requires phases != [] && phases[0] == DesignPhase() && family in {"diff", "artifact", "assessment"}
    ensures Participating(phases, family) ==
            if family == "assessment" then Participating(phases[1..], family)
            else [phases[0]] + Participating(phases[1..], family)
  {
  }

  /** Phases listed by order sort to themselves. */
  lemma {:induction false} SortedStays(phases: seq<Phase>)
    requires forall i, j :: 0 <= i < j < |phases| ==> phases[i].order < phases[j].order
    ensures SortByOrder(phases) == phases
  {
    if phases != [] {
      SortedStays(phases[1..]);
      assert |phases| > 1 ==> phases[1..][0] == phases[1];
      assert phases == [phases[0]] + phases[1..];
    }
  }

  lemma {:induction false} ShippedOrder(s: Spec, family: string)
    requires Shipped(s) && family in s.families
    ensures Order(s, family) == if family == "assessment" then ASSESSED else WHOLE
  {
    hide Participating, SortByOrder, Ids;
    ParticipatingPhases(family);
    var p := if family == "assessment" then Phases()[..2] + Phases()[3..] else Phases();
    SortedStays(p);
    var ids := Ids(p);
    assert ids == if family == "assessment" then ASSESSED else WHOLE;
  }

  lemma ShippedIsNamed(s: Spec, family: string)
    requires Shipped(s) && family in s.families
    ensures "" !in Order(s, family)
  {
    hide Order;
    ShippedOrder(s, family);
  }

  // ---------------------------------------------------------------------------
  // Its loops
  // ---------------------------------------------------------------------------

  lemma PositionsPrecede(order: seq<string>, i: nat, j: nat)
    requires DistinctIds(order) && "" !in order && i < j < |order|
    ensures Precedes(order, order[i], order[j])
  {
    IndexIsPosition(order, i);
    IndexIsPosition(order, j);
  }

  /** Where loops lead, as the family sees it. */
  lemma TargetsPrecede(s: Spec, family: string)
    requires Shipped(s) && family in s.families
    ensures
      var order := Order(s, family);
      && Precedes(order, "build", "verify") && Precedes(order, "plan", "verify") && Precedes(order, "verify", "ship")
      && (if family == "assessment" then "design" !in order else Precedes(order, "design", "verify"))
  {
    hide Order, Precedes, DistinctIds;
    ShippedOrder(s, family);
    if family == "assessment" {
      PositionsPrecede(ASSESSED, 3, 4);
      PositionsPrecede(ASSESSED, 2, 4);
      PositionsPrecede(ASSESSED, 4, 5);
    } else {
      PositionsPrecede(WHOLE, 4, 5);
      PositionsPrecede(WHOLE, 3, 5);
      PositionsPrecede(WHOLE, 2, 5);
      PositionsPrecede(WHOLE, 5, 6);
    }
  }

  /** The shipped specification's loops are safe for every run, save that an assessment,
      which has no design phase, must not loop to it. */
  lemma {:induction false} ShippedLoopIsSafeIff(en: Engine, st: State, cause: string)
    requires Shipped(en.spec) && st.run.Some? && st.run.value.family in en.spec.families
    requires LoopTarget(en, st.log, st.run.value, cause).Ok?
    ensures
      var r := st.run.value;
      SafeLoop(Order(en.spec, r.family), r, LoopTarget(en, st.log, r, cause).value)
      <==> !(r.family == "assessment" && cause == "design")
  {
    hide Order, ShipGrounds, SafeLoop, Precedes;
    var r := st.run.value;
    TargetsPrecede(en.spec, r.family);
    var order, target := Order(en.spec, r.family), LoopTarget(en, st.log, r, cause).value;
    if r.family == "assessment" && cause == "design" {
      StrayIsUnsafe(order, r, target);
    } else {
      PrecedingIsSafe(order, r, target);
    }
  }

  lemma StrayIsUnsafe(order: seq<string>, r: Run, target: string)
    requires target != "" && target !in order
    ensures !SafeLoop(order, r, target)
  {
  }

  /** Under the shipped specification every loop command is admissible, save that one. */
  lemma {:induction false} ShippedLoopsAreAdmissible(en: Engine, st: State, ac: string, cause: string, evidence: string)
    requires Shipped(en.spec) && Sound(en, st)
    requires st.run.Some? ==> !(st.run.value.family == "assessment" && cause == "design")
    ensures Admissible(en, st, LoopBack(ac, cause, evidence))
  {
    hide Shipped, SafeLoop, LoopTarget, LoopStep, Order, Tells, Capped;
    if st.run.Some? && LoopTarget(en, st.log, st.run.value, cause).Ok? { ShippedLoopIsSafeIff(en, st, cause); }
  }

  // ---------------------------------------------------------------------------
  // An assessment that loops to design
  // ---------------------------------------------------------------------------

  lemma NothingFollowsDesign(waived: seq<string>)
    ensures NextUnwaived(ASSESSED, "design", waived) == "" && NextUnwaived(ASSESSED, "", waived) == ""
  {
    assert "design" !in ASSESSED && "" !in ASSESSED;
  }

  /** It leaves the design phase it does not have and is through, with verify and ship as
      unaccounted as before. */
  lemma {:induction false} LoopToDesignStrands(en: Engine, st: State, ac: string, force: bool, reason: string)
    requires Shipped(en.spec) && st.run.Some?
    requires
      var r := st.run.value;
      && r.family == "assessment" && r.phase == "verify" && r.status == Active && r.loops < 10
      && !Accounted(r, "verify") && !Accounted(r, "ship")
    requires ExitStep(en, LoopStep(en, st, ac, "design", "observed").0, force, reason).1 == Done
    ensures
      var st' := ExitStep(en, LoopStep(en, st, ac, "design", "observed").0, force, reason).0;
      && st'.run.Some? && st'.run.value.id == st.run.value.id && st'.run.value.family == "assessment"
      && !Accounted(st'.run.value, "verify") && !Accounted(st'.run.value, "ship") && Stranded(en.spec, st'.run.value)
  {
    hide Order, ExitGate, Contains, Blank, LoopStep, NextUnwaived;
    var r := st.run.value;
    ShippedOrder(en.spec, "assessment");
    LoopMoves(en, st, ac, "design", "design");
    NothingFollowsDesign(r.waived);
  }

  /** The run is through without having left its last phase. */
  predicate Stranded(s: Spec, r: Run) {
    var order := Order(s, r.family);
    && r.phase == "" && "" !in order && order != [] && order[|order| - 1] !in r.exited
  }

  /** A command that does not start another run leaves a stranded run stranded. */
  lemma {:induction false} StepStaysStranded(en: Engine, st: State, cmd: Command)
    requires en.spec.loops.from != "" && Admissible(en, st, cmd)
    requires st.run.Some? && Stranded(en.spec, st.run.value)
    ensures
      var st' := Step(en, st, cmd).0;
      st'.run.Some? && (st'.run.value.id == st.run.value.id ==> Stranded(en.spec, st'.run.value))
  {
    hide PhasesOk, Order, Blank, LoopIsSafe, ShipGrounds, ExitStep, WaiveStep, RecordStep, ApproveStep;
    match cmd
    case Exit(force, reason) => ExitStaysStranded(en, st, force, reason);
    case Waive(phase, why) => WaiveStaysStranded(en, st, phase, why);
    case Record(kind, data, auto, actor) => RecordsStay(en, st, kind, data, auto, actor);
    case Approve(gate, payload, carriesCode) => ApprovalsStay(en, st, gate, payload, carriesCode);
    case _ =>
  }

  lemma ExitStaysStranded(en: Engine, st: State, force: bool, reason: string)
    requires st.run.Some? && Stranded(en.spec, st.run.value)
    ensures
      var st' := ExitStep(en, st, force, reason).0;
      st'.run.Some? && Stranded(en.spec, st'.run.value)
  {
    hide PhasesOk, Order, ExitGate, NextUnwaived, Blank, Contains;
    var r := st.run.value;
    StrangerLeadsNowhere(Order(en.spec, r.family), r.phase, r.waived);
  }

  lemma WaiveStaysStranded(en: Engine, st: State, phase: string, reason: string)
    requires st.run.Some? && Stranded(en.spec, st.run.value)
    ensures
      var st' := WaiveStep(en, st, phase, reason).0;
      st'.run.Some? && Stranded(en.spec, st'.run.value)
  {
    hide PhasesOk, Order, NextUnwaived, Blank, PhaseById;
    var r := st.run.value;
    StrangerLeadsNowhere(Order(en.spec, r.family), r.phase, r.waived + [phase]);
  }

  lemma StrangerLeadsNowhere(order: seq<string>, phase: string, waived: seq<string>)
    requires phase !in order
    ensures NextUnwaived(order, phase, waived) == ""
  {
  }

  /** The run is in the log and, while it is the live one, stranded. */
  predicate Stuck(s: Spec, id: string, st: State) {
    Known(st.log, id) && (st.run.Some? && st.run.value.id == id ==> Stranded(s, st.run.value))
  }

  lemma KnownStays(log: seq<Event>, more: seq<Event>, id: string, closed: string)
    requires Known(log, id)
    ensures Known(log + more, id)
    ensures closed != id ==> Known(Retained(log + more, closed), id)
  {
    hide Retained;
    var all := log + more;
    var i :| 0 <= i < |log| && log[i].run == id;
    assert all[i] == log[i];
    SplitByRun(all, closed);
    if closed != id {
      assert all[i] in Retained(all, closed);
      var k :| 0 <= k < |Retained(all, closed)| && Retained(all, closed)[k] == all[i];
    }
  }

  lemma {:induction false} StepStaysStuck(en: Engine, st: State, cmd: Command, id: string)
    requires en.spec.loops.from != "" && Admissible(en, st, cmd) && Stuck(en.spec, id, st)
    ensures Stuck(en.spec, id, Step(en, st, cmd).0)
  {
    hide PhasesOk, Step, Admissible, Known, Stranded, Retained, Appended;
    StepsLog(en, st, cmd);
    if Closes(en, st, cmd) {
      StrandedCannotClose(en, st, cmd, id);
      KnownStays(st.log, Appended(en, st, cmd), id, st.run.value.id);
    } else {
      KnownStays(st.log, Appended(en, st, cmd), id, "");
    }
    var st' := Step(en, st, cmd).0;
    if st'.run.Some? && st'.run.value.id == id {
      if cmd.Start? { StartedIsNew(en, st, cmd, id); }
      else { RunsKeepTheirId(en, st, cmd); }
      StepStaysStranded(en, st, cmd);
    }
  }

  lemma StrandedCannotClose(en: Engine, st: State, cmd: Command, id: string)
    requires Closes(en, st, cmd) && Stuck(en.spec, id, st)
    ensures st.run.Some? && st.run.value.id != id
  {
    hide Known, Order;
  }

  lemma StuckByFrame(s: Spec, s': Spec, id: string, st: State)
    requires SameFrame(s, s')
    ensures Stuck(s', id, st) <==> Stuck(s, id, st)
  {
    hide Known;
    if st.run.Some? { OrderByFrame(s, s', st.run.value.family); }
    hide Order;
  }

  lemma {:induction false} TurnStaysStuck(en: Engine, st: State, t: Turn, id: string)
    requires en.spec.loops.from != "" && Allowed(en, st, t) && Stuck(en.spec, id, st)
    ensures Stuck(en.spec, id, Taken(en, st, t).0)
  {
    hide Stuck, Step, Admissible, Seen;
    SightKeepsFrame(en, t.sight);
    StuckByFrame(en.spec, Seen(en, t.sight).spec, id, st);
    StepStaysStuck(Seen(en, t.sight), st, t.cmd, id);
    StuckByFrame(en.spec, Seen(en, t.sight).spec, id, Taken(en, st, t).0);
  }

  lemma {:induction false} StaysStuck(en: Engine, st: State, ts: seq<Turn>, id: string)
    requires en.spec.loops.from != "" && AllAdmissible(en, st, ts) && Stuck(en.spec, id, st)
    ensures Stuck(en.spec, id, After(en, st, ts))
    decreases |ts|
  {
    hide Taken, Allowed, Stuck;
    if ts != [] {
      TurnStaysStuck(en, st, ts[0], id);
      StaysStuck(en, Taken(en, st, ts[0]).0, ts[1..], id);
    }
  }

  /** A stranded run never closes, whatever is commanded. */
  lemma {:induction false} StrandedNeverCloses(en: Engine, st: State, ts: seq<Turn>)
    requires en.spec.loops.from != "" && AllAdmissible(en, st, ts)
    requires st.run.Some? && Stranded(en.spec, st.run.value) && Known(st.log, st.run.value.id)
    ensures
      var st' := After(en, st, ts);
      st'.run.Some? && st'.run.value.id == st.run.value.id ==> CloseStep(en, st').1 != Done
  {
    hide AllAdmissible, After, Known, Order;
    StaysStuck(en, st, ts, st.run.value.id);
  }

  // ---------------------------------------------------------------------------
  // From the start
  // ---------------------------------------------------------------------------

  lemma AssessedSteps(waived: seq<string>)
    requires waived == []
    ensures NextUnwaived(ASSESSED, "frame", waived) == "context" && NextUnwaived(ASSESSED, "context", waived) == "plan"
    ensures NextUnwaived(ASSESSED, "plan", waived) == "build" && NextUnwaived(ASSESSED, "build", waived) == "verify"
  {
    NextInOrder(ASSESSED, 0);
    NextInOrder(ASSESSED, 1);
    NextInOrder(ASSESSED, 2);
    NextInOrder(ASSESSED, 3);
  }

  lemma NextInOrder(order: seq<string>, i: nat)
    requires DistinctIds(order) && "" !in order && i + 1 < |order|
    ensures NextUnwaived(order, order[i], []) == order[i + 1]
  {
    IndexIsPosition(order, i);
    assert order[i + 1..][0] == order[i + 1];
  }

  function Exits(n: nat): seq<Command> {
    if n == 0 then [] else Exits(n - 1) + [Exit(false, "")]
  }

  /** An assessment on its way: `n` phases exited one after the other. */
  lemma {:induction false} AssessmentExits(en: Engine, id: string, n: nat)
    requires Shipped(en.spec) && en.spec.contracts == [] && n <= 4
    ensures
      Going(en, Nothing(), [Start(id, "assessment", "")] + Exits(n)).run
      == Some(Started(id, "assessment", ASSESSED[n]).(exited := ASSESSED[..n]))
  {
    hide Order, ExitStep, StartStep, NextUnwaived, Shipped;
    var start := [Start(id, "assessment", "")];
    AssessmentStarts(en, id);
    if n == 0 {
      assert start + Exits(0) == start;
      GoingOne(en, Nothing(), start[0]);
    } else {
      hide Going;
      AssessmentExits(en, id, n - 1);
      AssessmentExit(en, Going(en, Nothing(), start + Exits(n - 1)), id, n - 1);
      GoingOn(en, Nothing(), start + Exits(n - 1), Exit(false, ""));
      assert start + Exits(n) == (start + Exits(n - 1)) + [Exit(false, "")];
    }
  }

  lemma {:induction false} AssessmentExit(en: Engine, st: State, id: string, n: nat)
    requires Shipped(en.spec) && en.spec.contracts == [] && n < 4
    requires st.run == Some(Started(id, "assessment", ASSESSED[n]).(exited := ASSESSED[..n]))
    ensures
      ExitStep(en, st, false, "").0.run
      == Some(Started(id, "assessment", ASSESSED[n + 1]).(exited := ASSESSED[..n + 1]))
  {
    hide Order, ExitStep, NextUnwaived, Shipped;
    AssessmentOrder(en.spec);
    ExitMoves(en, st);
    AssessedSteps([]);
    assert ASSESSED[..n + 1] == ASSESSED[..n] + [ASSESSED[n]];
  }

  lemma AssessmentOrder(s: Spec)
    requires Shipped(s)
    ensures Order(s, "assessment") == ASSESSED
  {
    hide Order;
    ShippedOrder(s, "assessment");
  }

  lemma AssessmentStarts(en: Engine, id: string)
    requires Shipped(en.spec)
    ensures StartStep(en, Nothing(), id, "assessment", "").0.run == Some(Started(id, "assessment", "frame"))
  {
    hide Order;
    AssessmentOrder(en.spec);
    StartMoves(en, id, "assessment");
  }

  /** The shipped phases and loops without contract items: an assessment that reaches verify,
      loops to design and exits is stranded with two phases unaccounted. */
  lemma {:induction false} AssessmentStrands(en: Engine, id: string)
    requires Shipped(en.spec) && en.spec.contracts == []
    ensures
      var st := Going(en, Nothing(), [Start(id, "assessment", "")] + Exits(4));
      var st' := ExitStep(en, LoopStep(en, st, "AC-1", "design", "observed").0, false, "").0;
      && st'.run.Some? && Stranded(en.spec, st'.run.value)
      && !Accounted(st'.run.value, "verify") && !Accounted(st'.run.value, "ship")
  {
    hide Order, ExitStep, LoopStep, Going, Shipped, Exits, ExitGate, Stranded;
    AssessmentExits(en, id, 4);
    var st := Going(en, Nothing(), [Start(id, "assessment", "")] + Exits(4));
    assert ASSESSED[..4] == ["frame", "context", "plan", "build"] && ASSESSED[4] == "verify";
    assert LoopTarget(en, st.log, st.run.value, "design") == Ok("design") by { DesignIsTarget(en, st); }
    MaxIsTen(en.spec);
    LoopMoves(en, st, "AC-1", "design", "design");
    ExitMoves(en, LoopStep(en, st, "AC-1", "design", "observed").0);
    LoopToDesignStrands(en, st, "AC-1", false, "");
  }

  lemma MaxIsTen(s: Spec)
    requires Shipped(s)
    ensures s.loops.maxPerRun == 10
  {
  }

  lemma DesignIsTarget(en: Engine, st: State)
    requires Shipped(en.spec) && st.run.Some? && st.run.value.phase == "verify"
    ensures LoopTarget(en, st.log, st.run.value, "design") == Ok("design")
  {
    hide ShipGrounds;
  }
}

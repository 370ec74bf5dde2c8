/** What a loop re-opens is passed again before a run closes. */
module RunPasses {
  import opened Values
  import opened Events
  import opened WorkflowSpec
  import opened PhaseOrder
  import Approvals
  import opened RunState
  import opened RunTheory
  import opened RunInvariant
  import opened RunSafety

  predicate Leaves(e: Event, run: string) {
    IsPhaseAction(e, run, "exit") || IsPhaseAction(e, run, "force")
  }

  /** The phases the run left since its last loop, or since its start without one. */
  function LeftSince(log: seq<Event>, run: string): set<string> {
    if log == [] then {}
    else
      var before, e := LeftSince(log[..|log| - 1], run), log[|log| - 1];
      if IsPhaseAction(e, run, "loop") then {} else if Leaves(e, run) then before + {e.phase} else before
  }

  /** Where the run's last loop led. */
  function LoopedTo(log: seq<Event>, run: string): Option<string> {
    if log == [] then None
    else
      var e := log[|log| - 1];
      if IsPhaseAction(e, run, "loop") then Some(e.Text("target")) else LoopedTo(log[..|log| - 1], run)
  }

  function PassFrom(order: seq<string>, log: seq<Event>, run: string): nat {
    match LoopedTo(log, run) case None => 0 case Some(target) => Index(order, target)
  }

  /** Since the last loop, from its target to the current phase, nothing was skipped. */
  predicate Passed(order: seq<string>, log: seq<Event>, r: Run) {
    forall i :: PassFrom(order, log, r.id) <= i < Index(order, r.phase) ==>
      order[i] in LeftSince(log, r.id) || order[i] in r.waived
  }

  ghost predicate LivePassed(en: Engine, st: State) {
    st.run.Some? ==>
      var order := Order(en.spec, st.run.value.family);
      "" !in order && Passed(order, st.log, st.run.value)
  }

  // ---------------------------------------------------------------------------
  // One event more, one move more
  // ---------------------------------------------------------------------------

  predicate Quiet(kind: string, data: Fields) {
    kind != "phase" || StrField(data, "action") !in {"exit", "force", "loop"}
  }

  lemma QuietPasses(
    en: Engine, st: State, writer: Run, kind: string, auto: bool, actor: string, data: Fields,
    order: seq<string>, r: Run)
    requires Passed(order, st.log, r) && Quiet(kind, data)
    ensures Passed(order, WithEvent(en, st, writer, kind, auto, actor, data).log, r)
  {
    hide Index;
    var e := Stamped(en, st.stamped, writer, kind, auto, actor, data);
    assert e.Text("action") == StrField(data, "action");
    assert (st.log + [e])[..|st.log|] == st.log;
  }

  lemma LeavingPasses(en: Engine, st: State, actor: string, data: Fields, order: seq<string>, r: Run)
    requires Passed(order, st.log, r) && StrField(data, "action") in {"exit", "force"}
    ensures
      var log := WithEvent(en, st, r, "phase", false, actor, data).log;
      Passed(order, log, r) && r.phase in LeftSince(log, r.id)
  {
    hide Index;
    var e := Stamped(en, st.stamped, r, "phase", false, actor, data);
    assert e.Text("action") == StrField(data, "action");
    assert (st.log + [e])[..|st.log|] == st.log;
  }

  lemma LoopingPasses(en: Engine, st: State, r: Run, data: Fields, order: seq<string>, r': Run)
    requires StrField(data, "action") == "loop" && StrField(data, "target") == r'.phase && r'.id == r.id
    ensures Passed(order, WithEvent(en, st, r, "phase", false, "engine", data).log, r')
  {
    hide Index;
    var e := Stamped(en, st.stamped, r, "phase", false, "engine", data);
    assert e.Text("action") == "loop" && e.Text("target") == r'.phase;
    assert LoopedTo(st.log + [e], r.id) == Some(r'.phase);
  }

  /** Going on to the next unwaived phase from one that was left or is waived. */
  lemma MovingPasses(order: seq<string>, log: seq<Event>, r: Run, r': Run)
    requires DistinctIds(order) && "" !in order && Passed(order, log, r)
    requires r.phase in LeftSince(log, r.id) || r.phase in r'.waived
    requires r'.id == r.id && r'.phase == NextUnwaived(order, r.phase, r'.waived)
    requires forall w :: w in r.waived ==> w in r'.waived
    ensures Passed(order, log, r')
  {
    hide NextUnwaived, LeftSince, LoopedTo;
    var k := NextUnwaivedSkips(order, r.phase, r'.waived);
    forall i | PassFrom(order, log, r.id) <= i < Index(order, r'.phase)
      ensures order[i] in LeftSince(log, r.id) || order[i] in r'.waived
    {
      if i == Index(order, r.phase) { assert order[i] == r.phase; }
    }
  }

  lemma MoreWaivedPasses(order: seq<string>, log: seq<Event>, r: Run, r': Run)
    requires Passed(order, log, r) && r'.id == r.id && r'.phase == r.phase
    requires forall w :: w in r.waived ==> w in r'.waived
    ensures Passed(order, log, r')
  {
    hide Index, LeftSince, LoopedTo;
  }

  lemma AdvancePasses(en: Engine, st: State, r: Run, was: Run)
    requires PhasesOk(en.spec) && was == r.(forces := was.forces) && "" !in Order(en.spec, r.family)
    requires Passed(Order(en.spec, r.family), st.log, was) && r.phase in LeftSince(st.log, r.id)
    ensures LivePassed(en, Advance(en, st, r))
  {
    hide PhasesOk, Order, NextUnwaived, Passed, LeftSince;
    var order := Order(en.spec, r.family);
    OrderIsDistinct(en.spec, r.family);
    var next := NextUnwaived(order, r.phase, r.waived);
    var entered := r.(exited := r.exited + [r.phase], phase := next);
    MovingPasses(order, st.log, was, entered);
    if next != "" {
      QuietPasses(en, st, entered, "phase", false, "engine", Aimed("enter", next), order, entered);
    }
  }

  // ---------------------------------------------------------------------------
  // One command
  // ---------------------------------------------------------------------------

  lemma {:induction false} ExitPasses(en: Engine, st: State, force: bool, reason: string)
    requires PhasesOk(en.spec) && LivePassed(en, st)
    ensures LivePassed(en, ExitStep(en, st, force, reason).0)
  {
    hide PhasesOk, Order, ExitGate, Advance, Blank, Contains, Passed, LeftSince;
    if st.run.Some? && st.run.value.status == Active {
      var r := st.run.value;
      var order := Order(en.spec, r.family);
      if !force {
        LeavingPasses(en, st, "engine", Action("exit"), order, r);
        AdvancePasses(en, WithEvent(en, st, r, "phase", false, "engine", Action("exit")), r, r);
      } else if r.forces >= 2 {
        var st1 := WithEvent(en, st, r, "escape", false, "user", ThirdForce());
        QuietPasses(en, st, r, "escape", false, "user", ThirdForce(), order, r);
        QuietPasses(en, st1, r, "phase", false, "engine", Reasoned("park", "force escalation"), order, r);
        var st2 := WithEvent(en, st1, r, "phase", false, "engine", Reasoned("park", "force escalation"));
        StatusPasses(order, st2.log, r, Parked);
      } else {
        var data := Reasoned("force", reason)["level" := Num((r.forces + 1) as real)];
        var st1 := WithEvent(en, st, r, "escape", false, "user", data);
        QuietPasses(en, st, r, "escape", false, "user", data, order, r);
        LeavingPasses(en, st1, "engine", Reasoned("force", reason), order, r);
        AdvancePasses(en, WithEvent(en, st1, r, "phase", false, "engine", Reasoned("force", reason)),
                      r.(forces := r.forces + 1), r);
      }
    }
  }

  lemma StatusPasses(order: seq<string>, log: seq<Event>, r: Run, status: Status)
    requires Passed(order, log, r)
    ensures Passed(order, log, r.(status := status))
  {
    hide Index, LeftSince, LoopedTo;
  }

  lemma {:induction false} WaivePasses(en: Engine, st: State, phase: string, reason: string)
    requires PhasesOk(en.spec) && LivePassed(en, st)
    ensures LivePassed(en, WaiveStep(en, st, phase, reason).0)
  {
    hide PhasesOk, Order, Blank, NextUnwaived, PhaseById, Passed;
    if st.run.Some? && WaiveStep(en, st, phase, reason).1 == Done {
      var r := st.run.value;
      var order := Order(en.spec, r.family);
      var data: Fields := map["action" := Str("waive"), "target" := Str(phase), "reason" := Str(reason)];
      var st1 := WithEvent(en, st, r, "phase", false, "user", data);
      QuietPasses(en, st, r, "phase", false, "user", data, order, r);
      var r1 := r.(waived := r.waived + [phase]);
      MoreWaivedPasses(order, st1.log, r, r1);
      if r.phase == phase {
        OrderIsDistinct(en.spec, r.family);
        var r2 := r1.(phase := NextUnwaived(order, r1.phase, r1.waived));
        MovingPasses(order, st1.log, r1, r2);
        QuietPasses(en, st1, r2, "phase", false, "engine", Aimed("enter", r2.phase), order, r2);
      }
    }
  }

  lemma {:induction false} LoopPasses(en: Engine, st: State, ac: string, cause: string, evidence: string)
    requires LivePassed(en, st)
    ensures LivePassed(en, LoopStep(en, st, ac, cause, evidence).0)
  {
    hide Order, Blank, LoopTarget, SlipsOn, Without, Passed;
    if st.run.Some? && LoopTarget(en, st.log, st.run.value, cause).Ok? {
      var r, target := st.run.value, LoopTarget(en, st.log, st.run.value, cause).value;
      var order := Order(en.spec, r.family);
      var parked := WithEvent(en, st, r, "phase", false, "engine", Reasoned("park", "loop cap reached"));
      QuietPasses(en, st, r, "phase", false, "engine", Reasoned("park", "loop cap reached"), order, r);
      StatusPasses(order, parked.log, r, Parked);
      var record := LoopRecord(ac, cause, evidence, target);
      var data := LoopMove(cause, target);
      var st1 := WithEvent(en, st, r, "loop", false, "agent", record);
      LoopingPasses(en, st1, r, data, order, Looped(r, ac, cause, target));
    }
  }

  lemma {:induction false} ParkPasses(en: Engine, st: State, reason: string)
    requires LivePassed(en, st)
    ensures LivePassed(en, ParkStep(en, st, reason).0)
  {
    hide Order, Blank, Passed;
    if st.run.Some? {
      var r := st.run.value;
      var order := Order(en.spec, r.family);
      var st1 := WithEvent(en, st, r, "escape", false, "user", Reasoned("park", reason));
      QuietPasses(en, st, r, "escape", false, "user", Reasoned("park", reason), order, r);
      QuietPasses(en, st1, r, "phase", false, "engine", Reasoned("park", reason), order, r);
      StatusPasses(order, WithEvent(en, st1, r, "phase", false, "engine", Reasoned("park", reason)).log, r, Parked);
    }
  }

  lemma {:induction false} ResumePasses(en: Engine, st: State)
    requires LivePassed(en, st)
    ensures LivePassed(en, ResumeStep(en, st).0)
  {
    hide Order, Passed;
    if st.run.Some? {
      var r := st.run.value;
      var order := Order(en.spec, r.family);
      QuietPasses(en, st, r, "phase", false, "engine", Action("resume"), order, r);
      StatusPasses(order, WithEvent(en, st, r, "phase", false, "engine", Action("resume")).log, r, Active);
    }
  }

  lemma {:induction false} RecordPasses(en: Engine, st: State, kind: string, data: Fields, auto: bool, actor: string)
    requires LivePassed(en, st) && Admissible(en, st, Record(kind, data, auto, actor))
    ensures LivePassed(en, RecordStep(en, st, kind, data, auto, actor).0)
  {
    hide Order, NormalisedData, ValidClassification, Passed;
    if st.run.Some? && RecordStep(en, st, kind, data, auto, actor).1 == Done {
      var r := st.run.value;
      var normalised := NormalisedData(en, st, r, RecordKindByName(en.spec.records, kind).value, data).value;
      var checked := en.validate(kind, normalised, auto).value;
      QuietPasses(en, st, Reclassified(r, kind, checked), kind, auto, if actor == "" then "agent" else actor, checked,
                  Order(en.spec, r.family), r);
    }
  }

  lemma {:induction false} ApprovePasses(
    en: Engine, st: State, gate: string, payload: string, carriesCode: string -> bool)
    requires LivePassed(en, st)
    ensures LivePassed(en, ApproveStep(en, st, gate, payload, carriesCode).0)
  {
    hide Order, Passed, Approvals.ApprovalData;
    if st.run.Some? && ApproveStep(en, st, gate, payload, carriesCode).1 == Done {
      var r := st.run.value;
      var data := Approvals.ApprovalData(OfRun(st.log, r.id), gate, payload, ApprovalSetting(en, carriesCode)).value;
      QuietPasses(en, st, r, "approval", false, "user", data, Order(en.spec, r.family), r);
    }
  }

  lemma {:induction false} NotLoopedYet(log: seq<Event>, run: string)
    requires forall i :: 0 <= i < |log| ==> log[i].run != run
    ensures LoopedTo(log, run) == None
  {
    if log != [] { NotLoopedYet(log[..|log| - 1], run); }
  }

  lemma {:induction false} StartPasses(en: Engine, st: State, id: string, family: string, intent: string)
    requires LivePassed(en, st) && Admissible(en, st, Start(id, family, intent))
    ensures LivePassed(en, StartStep(en, st, id, family, intent).0)
  {
    hide Order, Passed;
    if StartStep(en, st, id, family, intent).1 == Done {
      var order := Order(en.spec, family);
      var r := Run(id, family, intent, order[0], Active, 0, map[], 0, [], []);
      var data: Fields := map["action" := Str("start"), "family" := Str(family), "intent" := Str(intent)];
      NotLoopedYet(st.log, id);
      assert Passed(order, st.log, r) by { FirstIsPassed(order, st.log, r); }
      var st1 := WithEvent(en, st, r, "run", false, "engine", data);
      QuietPasses(en, st, r, "run", false, "engine", data, order, r);
      QuietPasses(en, st1, r, "phase", false, "engine", Aimed("enter", order[0]), order, r);
    }
  }

  lemma FirstIsPassed(order: seq<string>, log: seq<Event>, r: Run)
    requires order != [] && r.phase == order[0]
    ensures Passed(order, log, r)
  {
  }

  lemma ClosePasses(en: Engine, st: State)
    requires LivePassed(en, st)
    ensures LivePassed(en, CloseStep(en, st).0)
  {
    hide Order, Passed;
  }

  lemma {:induction false} StepPasses(en: Engine, st: State, c: Command)
    requires PhasesOk(en.spec) && LivePassed(en, st) && Admissible(en, st, c)
    ensures LivePassed(en, Step(en, st, c).0)
  {
    hide PhasesOk, LivePassed, Admissible, ExitStep, StartStep, WaiveStep, LoopStep, ParkStep, ResumeStep, RecordStep,
      ApproveStep;
    match c
    case Start(id, family, intent) => StartPasses(en, st, id, family, intent);
    case Exit(force, reason) => ExitPasses(en, st, force, reason);
    case Waive(phase, why) => WaivePasses(en, st, phase, why);
    case LoopBack(ac, cause, evidence) => LoopPasses(en, st, ac, cause, evidence);
    case Park(because) => ParkPasses(en, st, because);
    case Resume => ResumePasses(en, st);
    case Record(kind, data, auto, actor) => RecordPasses(en, st, kind, data, auto, actor);
    case Approve(gate, payload, carriesCode) => ApprovePasses(en, st, gate, payload, carriesCode);
    case Close => ClosePasses(en, st);
  }

  // ---------------------------------------------------------------------------
  // Whole runs
  // ---------------------------------------------------------------------------

  lemma {:induction false} TurnPasses(en: Engine, st: State, t: Turn)
    requires PhasesOk(en.spec) && LivePassed(en, st) && Allowed(en, st, t)
    ensures LivePassed(en, Taken(en, st, t).0)
  {
    hide PhasesOk, Step, Admissible, Passed, Seen;
    var seen := Seen(en, t.sight);
    SightKeepsFrame(en, t.sight);
    PhasesByFrame(en.spec, seen.spec);
    if st.run.Some? { OrderByFrame(en.spec, seen.spec, st.run.value.family); }
    StepPasses(seen, st, t.cmd);
    var st' := Taken(en, st, t).0;
    if st'.run.Some? { OrderByFrame(en.spec, seen.spec, st'.run.value.family); }
  }

  lemma {:induction false} RunsPass(en: Engine, st: State, ts: seq<Turn>)
    requires PhasesOk(en.spec) && LivePassed(en, st) && AllAdmissible(en, st, ts)
    ensures LivePassed(en, After(en, st, ts))
    decreases |ts|
  {
    hide PhasesOk, Taken, Allowed, LivePassed;
    if ts != [] {
      TurnPasses(en, st, ts[0]);
      RunsPass(en, Taken(en, st, ts[0]).0, ts[1..]);
    }
  }

  lemma {:induction false} ReachableHasPassed(en: Engine, st: State)
    requires PhasesOk(en.spec) && Reachable(en, st)
    ensures LivePassed(en, st)
  {
    hide PhasesOk, AllAdmissible, After, Passed;
    var start, ts :| ReachedBy(en, start, ts, st);
    RunsPass(en, start, ts);
  }

  /** Event `l` is the run's last loop. */
  predicate LastLoop(log: seq<Event>, run: string, l: nat) {
    l < |log| && IsPhaseAction(log[l], run, "loop") && forall j :: l < j < |log| ==> !IsPhaseAction(log[j], run, "loop")
  }

  ghost predicate LeftAfter(log: seq<Event>, run: string, phase: string, l: nat) {
    exists j :: l < j < |log| && LeftBy(log[j], run, phase)
  }

  lemma {:induction false} SinceIsAfter(log: seq<Event>, run: string, l: nat, phase: string)
    requires LastLoop(log, run, l)
    ensures LoopedTo(log, run) == Some(log[l].Text("target"))
    ensures phase in LeftSince(log, run) ==> LeftAfter(log, run, phase, l)
  {
    var init, e := log[..|log| - 1], log[|log| - 1];
    if l < |log| - 1 {
      assert forall j :: 0 <= j < |init| ==> init[j] == log[j];
      SinceIsAfter(init, run, l, phase);
      if phase in LeftSince(init, run) {
        var j :| l < j < |init| && LeftBy(init[j], run, phase);
        assert LeftBy(log[j], run, phase);
      } else if phase in LeftSince(log, run) {
        assert LeftBy(log[|log| - 1], run, phase);
      }
    }
  }

  /** In a run that closes, every phase from the target of its last loop on is waived, or was
      exited or forced after that loop. */
  lemma {:induction false} ReopenedPhasesArePassedAgain(en: Engine, st: State, l: nat, i: nat)
    requires PhasesOk(en.spec) && Reachable(en, st) && st.run.Some? && CloseStep(en, st).1 == Done
    requires LastLoop(st.log, st.run.value.id, l)
    requires
      var order := Order(en.spec, st.run.value.family);
      Index(order, st.log[l].Text("target")) <= i < |order|
    ensures
      var phase := Order(en.spec, st.run.value.family)[i];
      phase in st.run.value.waived || LeftAfter(st.log, st.run.value.id, phase, l)
  {
    hide PhasesOk, Reachable, Order, Tells, Capped, Index, LeftSince, LoopedTo, LeftAfter, LastLoop, CloseStep;
    ReachableIsSound(en, st);
    ReachableHasPassed(en, st);
    ClosingIsThrough(en, st);
    SinceIsAfter(st.log, st.run.value.id, l, Order(en.spec, st.run.value.family)[i]);
  }
}

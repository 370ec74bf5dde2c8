/** Every command keeps the run sound, and what soundness means over whole runs. */
module RunInvariant {
  import opened Values
  import opened Events
  import opened WorkflowSpec
  import opened PhaseOrder
  import opened Contracts
  import opened RunState
  import opened RunTheory
  import Approvals

  ghost predicate Sound(en: Engine, st: State) {
    st.run.Some? ==>
      var r := st.run.value;
      Placed(en.spec, r) && Capped(en.spec, r) && Tells(st.log, r)
  }

  /** A loop that would be let through is safe. */
  predicate LoopIsSafe(en: Engine, st: State, ac: string, cause: string, evidence: string) {
    && st.run.Some? && LoopStep(en, st, ac, cause, evidence).1 == Done
    && LoopTarget(en, st.log, st.run.value, cause).Ok?
    ==>
      SafeLoop(Order(en.spec, st.run.value.family), st.run.value, LoopTarget(en, st.log, st.run.value, cause).value)
  }

  /** New runs get new identities, in a family without a nameless phase; loops are safe; what
      is recorded is no engine transition and, where it is a classification, confirms what the
      run already is. */
  predicate Admissible(en: Engine, st: State, c: Command) {
    match c
    case Start(id, family, _) =>
      && "" !in Order(en.spec, family)
      && (forall i :: 0 <= i < |st.log| ==> st.log[i].run != id)
      && (st.run.Some? ==> st.run.value.id != id)
    case LoopBack(ac, cause, evidence) => LoopIsSafe(en, st, ac, cause, evidence)
    case Record(kind, data, auto, actor) =>
      var st' := RecordStep(en, st, kind, data, auto, actor).0;
      && kind != "run" && kind != "phase"
      && (st.run.Some? && st'.run.Some? ==>
        st'.run.value.family == st.run.value.family && st'.run.value.intent == st.run.value.intent)
    case _ => true
  }

  predicate Allowed(en: Engine, st: State, t: Turn) {
    Admissible(Seen(en, t.sight), st, t.cmd)
  }

  predicate AllAdmissible(en: Engine, st: State, ts: seq<Turn>)
    decreases |ts|
  {
    ts == [] || (Allowed(en, st, ts[0]) && AllAdmissible(en, Taken(en, st, ts[0]).0, ts[1..]))
  }

  // ---------------------------------------------------------------------------
  // One step
  // ---------------------------------------------------------------------------

  lemma {:induction false} AdvanceKeepsSound(en: Engine, st: State, r: Run, was: Run)
    requires PhasesOk(en.spec) && Placed(en.spec, was) && Capped(en.spec, r)
    requires r == was.(forces := r.forces)
    requires Tells(st.log, r.(exited := r.exited + [r.phase], phase := ""))
    ensures Sound(en, Advance(en, st, r))
  {
    hide Placed, Matches, ExitGate, Tells, NextUnwaived;
    AdvanceKeepsPlaced(en.spec, was, r.forces);
    var left := r.(exited := r.exited + [r.phase], phase := "");
    var next := NextUnwaived(Order(en.spec, r.family), r.phase, r.waived);
    if next != "" { TellEnter(en, st, left, left.(phase := next)); }
  }

  lemma {:induction false} TellEnter(en: Engine, st: State, r: Run, entered: Run)
    requires Tells(st.log, r) && entered == r.(phase := entered.phase)
    ensures Tells(WithEvent(en, st, entered, "phase", false, "engine", Aimed("enter", entered.phase)).log, entered)
  {
    hide Tells, ExitGate;
    TellAction(en, st, r, entered, "engine", Aimed("enter", entered.phase), entered);
  }

  lemma {:induction false} TellExit(en: Engine, st: State, r: Run)
    requires Tells(st.log, r)
    ensures Tells(WithEvent(en, st, r, "phase", false, "engine", Action("exit")).log,
                  r.(exited := r.exited + [r.phase], phase := ""))
  {
    hide Tells, ExitGate;
    TellAction(en, st, r, r, "engine", Action("exit"), r.(exited := r.exited + [r.phase], phase := ""));
  }

  lemma {:induction false} TellForce(en: Engine, st: State, r: Run, reason: string)
    requires Tells(st.log, r)
    ensures Tells(WithEvent(en, st, r, "phase", false, "engine", Reasoned("force", reason)).log,
                  r.(forces := r.forces + 1, exited := r.exited + [r.phase], phase := ""))
  {
    hide Tells, ExitGate;
    TellAction(en, st, r, r, "engine", Reasoned("force", reason),
               r.(forces := r.forces + 1, exited := r.exited + [r.phase], phase := ""));
  }

  lemma {:induction false} TellPark(en: Engine, st: State, r: Run, reason: string)
    requires Tells(st.log, r)
    ensures Tells(WithEvent(en, st, r, "phase", false, "engine", Reasoned("park", reason)).log, r.(status := Parked))
  {
    hide Tells, ExitGate;
    TellAction(en, st, r, r, "engine", Reasoned("park", reason), r.(status := Parked));
  }

  lemma StatusKeepsPlaced(s: Spec, r: Run, status: Status)
    requires Placed(s, r) && Capped(s, r)
    ensures Placed(s, r.(status := status)) && Capped(s, r.(status := status))
  {
    hide Order, Waivable, Index, Total;
    assert forall p :: Accounted(r, p) ==> Accounted(r.(status := status), p);
  }

  lemma {:induction false} ExitKeepsSound(en: Engine, st: State, force: bool, reason: string)
    requires PhasesOk(en.spec) && Sound(en, st)
    ensures Sound(en, ExitStep(en, st, force, reason).0)
  {
    hide Placed, Tells, ExitGate, Advance, Blank, Contains, PhasesOk;
    if st.run.Some? && st.run.value.status == Active {
      var r := st.run.value;
      if !force {
        if ExitGate(en, st.log, r) == Done {
          var st1 := WithEvent(en, st, r, "phase", false, "engine", Action("exit"));
          TellExit(en, st, r);
          AdvanceKeepsSound(en, st1, r, r);
        }
      } else if Blank(reason) {
      } else if r.forces >= 2 {
        var st1 := WithEvent(en, st, r, "escape", false, "user", ThirdForce());
        TellRecord(en, st, r, "escape", false, "user", ThirdForce());
        TellPark(en, st1, r, "force escalation");
        StatusKeepsPlaced(en.spec, r, Parked);
      } else if r.forces == 1 && !Contains(reason, "cause:") {
      } else {
        var data := Reasoned("force", reason)["level" := Num((r.forces + 1) as real)];
        var st1 := WithEvent(en, st, r, "escape", false, "user", data);
        TellRecord(en, st, r, "escape", false, "user", data);
        TellForce(en, st1, r, reason);
        var st2 := WithEvent(en, st1, r, "phase", false, "engine", Reasoned("force", reason));
        AdvanceKeepsSound(en, st2, r.(forces := r.forces + 1), r);
      }
    }
  }

  lemma {:induction false} WaiveKeepsSound(en: Engine, st: State, phase: string, reason: string)
    requires PhasesOk(en.spec) && Sound(en, st)
    ensures Sound(en, WaiveStep(en, st, phase, reason).0)
  {
    hide Placed, Tells, ExitGate, Blank, PhasesOk, NextUnwaived, PhaseById;
    if st.run.Some? && WaiveStep(en, st, phase, reason).1 == Done {
      var r := st.run.value;
      assert Waivable(en.spec, r.family, phase);
      WaiveKeepsPlaced(en.spec, r, phase);
      var data: Fields := map["action" := Str("waive"), "target" := Str(phase), "reason" := Str(reason)];
      var st1 := WithEvent(en, st, r, "phase", false, "user", data);
      var r1 := r.(waived := r.waived + [phase]);
      TellAction(en, st, r, r, "user", data, r1);
      if r.phase == phase {
        TellEnter(en, st1, r1, r1.(phase := NextUnwaived(Order(en.spec, r.family), r1.phase, r1.waived)));
      }
    }
  }

  lemma {:induction false} LoopKeepsSound(en: Engine, st: State, ac: string, cause: string, evidence: string)
    requires PhasesOk(en.spec) && Sound(en, st)
    requires Admissible(en, st, LoopBack(ac, cause, evidence))
    ensures Sound(en, LoopStep(en, st, ac, cause, evidence).0)
  {
    hide Placed, Capped, Tells, ExitGate, Blank, PhasesOk, LoopTarget, Without;
    if st.run.Some? && LoopTarget(en, st.log, st.run.value, cause).Ok? && !Blank(evidence) {
      var r := st.run.value;
      var target := LoopTarget(en, st.log, r, cause).value;
      if r.loops >= en.spec.loops.maxPerRun {
        TellPark(en, st, r, "loop cap reached");
        StatusKeepsPlaced(en.spec, r, Parked);
      } else if cause == "slip" && SlipsOn(r, ac) >= en.spec.loops.maxSlipPerAC {
      } else {
        var r' := Looped(r, ac, cause, target);
        assert LoopStep(en, st, ac, cause, evidence).0.run == Some(r');
        LoopKeepsPlacedIff(en.spec, r, ac, cause, target);
        LoopTells(en, st, ac, cause, evidence, target);
        LoopKeepsCapped(en.spec, r, ac, cause, target);
      }
    }
  }

  lemma LoopKeepsCapped(s: Spec, r: Run, ac: string, cause: string, target: string)
    requires Capped(s, r) && r.loops < s.loops.maxPerRun
    requires cause == "slip" ==> SlipsOn(r, ac) < s.loops.maxSlipPerAC
    ensures Capped(s, Looped(r, ac, cause, target))
  {
    hide Total;
    TotalUpdate(r.slipByAC, ac, SlipsOn(r, ac) + 1);
  }

  lemma {:induction false} LoopTells(en: Engine, st: State, ac: string, cause: string, evidence: string, target: string)
    requires st.run.Some? && Tells(st.log, st.run.value)
    requires LoopTarget(en, st.log, st.run.value, cause) == Ok(target) && !Blank(evidence)
    requires st.run.value.loops < en.spec.loops.maxPerRun
    requires !(cause == "slip" && SlipsOn(st.run.value, ac) >= en.spec.loops.maxSlipPerAC)
    ensures
      var st' := LoopStep(en, st, ac, cause, evidence).0;
      Tells(st'.log, st'.run.value)
  {
    hide Tells, ExitGate, Blank, LoopTarget;
    var r := st.run.value;
    var record := LoopRecord(ac, cause, evidence, target);
    var data := LoopMove(cause, target);
    var st1 := WithEvent(en, st, r, "loop", false, "agent", record);
    TellRecord(en, st, r, "loop", false, "agent", record);
    TellAction(en, st1, r, r, "engine", data, LoopStep(en, st, ac, cause, evidence).0.run.value);
  }

  lemma ParkKeepsSound(en: Engine, st: State, reason: string)
    requires Sound(en, st)
    ensures Sound(en, ParkStep(en, st, reason).0)
  {
    hide Placed, Tells, ExitGate, Blank;
    if st.run.Some? && !Blank(reason) {
      var r := st.run.value;
      TellRecord(en, st, r, "escape", false, "user", Reasoned("park", reason));
      TellPark(en, WithEvent(en, st, r, "escape", false, "user", Reasoned("park", reason)), r, reason);
      StatusKeepsPlaced(en.spec, r, Parked);
    }
  }

  lemma {:induction false} ResumeKeepsSound(en: Engine, st: State)
    requires Sound(en, st)
    ensures Sound(en, ResumeStep(en, st).0)
  {
    hide Placed, Tells, ExitGate;
    if st.run.Some? && st.run.value.status == Parked {
      var r := st.run.value;
      TellAction(en, st, r, r, "engine", Action("resume"), r.(status := Active));
      StatusKeepsPlaced(en.spec, r, Active);
    }
  }

  lemma {:induction false} ApproveKeepsSound(
    en: Engine, st: State, gate: string, payload: string, carriesCode: string -> bool)
    requires Sound(en, st)
    ensures Sound(en, ApproveStep(en, st, gate, payload, carriesCode).0)
  {
    hide Placed, Tells, ExitGate, Approvals.ApprovalData;
    if st.run.Some? && ApproveStep(en, st, gate, payload, carriesCode).1 == Done {
      var r := st.run.value;
      var data := Approvals.ApprovalData(OfRun(st.log, r.id), gate, payload, ApprovalSetting(en, carriesCode)).value;
      TellRecord(en, st, r, "approval", false, "user", data);
    }
  }

  lemma {:induction false} RecordKeepsSound(
    en: Engine, st: State, kind: string, data: Fields, auto: bool, actor: string)
    requires PhasesOk(en.spec) && Sound(en, st)
    requires Admissible(en, st, Record(kind, data, auto, actor))
    ensures Sound(en, RecordStep(en, st, kind, data, auto, actor).0)
  {
    hide Placed, Tells, ExitGate, NormalisedData;
    var st' := RecordStep(en, st, kind, data, auto, actor).0;
    if st.run.Some? && RecordStep(en, st, kind, data, auto, actor).1 == Done {
      var r := st.run.value;
      var normalised := NormalisedData(en, st, r, RecordKindByName(en.spec.records, kind).value, data).value;
      var checked := en.validate(kind, normalised, auto).value;
      assert st'.run == Some(r);
      TellRecord(en, st, r, kind, auto, if actor == "" then "agent" else actor, checked);
    }
  }

  lemma {:induction false} NoForcesYet(log: seq<Event>, run: string)
    requires forall i :: 0 <= i < |log| ==> log[i].run != run
    ensures CountForces(log, run) == 0
  {
    if log != [] { NoForcesYet(log[..|log| - 1], run); }
  }

  lemma {:induction false} StartKeepsSound(en: Engine, st: State, id: string, family: string, intent: string)
    requires PhasesOk(en.spec) && Sound(en, st)
    requires Admissible(en, st, Start(id, family, intent))
    ensures Sound(en, StartStep(en, st, id, family, intent).0)
  {
    hide Tells, ExitGate, PhasesOk, Order;
    var st' := StartStep(en, st, id, family, intent).0;
    if StartStep(en, st, id, family, intent).1 == Done {
      var r := st'.run.value;
      OrderIsDistinct(en.spec, family);
      var order := Order(en.spec, family);
      assert r.phase == order[0] && order[0] in order;
      StartTells(en, st, id, family, intent);
    }
  }

  lemma StartTells(en: Engine, st: State, id: string, family: string, intent: string)
    requires forall i :: 0 <= i < |st.log| ==> st.log[i].run != id
    requires StartStep(en, st, id, family, intent).1 == Done
    ensures
      var st' := StartStep(en, st, id, family, intent).0;
      Tells(st'.log, st'.run.value)
  {
    hide ExitGate, Order, Tells;
    var first := Order(en.spec, family)[0];
    var r := Run(id, family, intent, first, Active, 0, map[], 0, [], []);
    var data: Fields := map["action" := Str("start"), "family" := Str(family), "intent" := Str(intent)];
    TellStart(en, st, r, data);
    TellEnter(en, WithEvent(en, st, r, "run", false, "engine", data), r.(phase := ""), r);
  }

  lemma TellStart(en: Engine, st: State, r: Run, data: Fields)
    requires forall i :: 0 <= i < |st.log| ==> st.log[i].run != r.id
    requires r == Run(r.id, r.family, r.intent, r.phase, Active, 0, map[], 0, [], [])
    requires data == map["action" := Str("start"), "family" := Str(r.family), "intent" := Str(r.intent)]
    ensures Tells(WithEvent(en, st, r, "run", false, "engine", data).log, r.(phase := ""))
  {
    hide ExitGate;
    var log := WithEvent(en, st, r, "run", false, "engine", data).log;
    NoForcesYet(st.log, r.id);
    assert log[..|log| - 1] == st.log;
    assert Derive(log) == Some(r.(phase := "")) && Retell(log) == Some(r.(phase := ""));
  }

  /** Every command a caller may give keeps the run sound. */
  lemma {:induction false} StepKeepsSound(en: Engine, st: State, c: Command)
    requires PhasesOk(en.spec) && Sound(en, st) && Admissible(en, st, c)
    ensures Sound(en, Step(en, st, c).0)
  {
    hide PhasesOk, Sound, Admissible, ExitStep, StartStep, WaiveStep, LoopStep, ParkStep, ResumeStep, RecordStep,
      ApproveStep;
    match c
    case Start(id, family, intent) => StartKeepsSound(en, st, id, family, intent);
    case Exit(force, reason) => ExitKeepsSound(en, st, force, reason);
    case Waive(phase, why) => WaiveKeepsSound(en, st, phase, why);
    case LoopBack(ac, cause, evidence) => LoopKeepsSound(en, st, ac, cause, evidence);
    case Park(because) => ParkKeepsSound(en, st, because);
    case Resume => ResumeKeepsSound(en, st);
    case Record(kind, data, auto, actor) => RecordKeepsSound(en, st, kind, data, auto, actor);
    case Approve(gate, payload, carriesCode) => ApproveKeepsSound(en, st, gate, payload, carriesCode);
    case Close => CloseKeepsSound(en, st);
  }

  lemma CloseKeepsSound(en: Engine, st: State)
    requires Sound(en, st)
    ensures Sound(en, CloseStep(en, st).0)
  {
    hide Placed, Capped, Tells;
  }

  /** What no command finds changed. */
  predicate SameFrame(s: Spec, s': Spec) {
    s'.phases == s.phases && s'.families == s.families && s'.intents == s.intents && s'.loops == s.loops
  }

  lemma SightKeepsFrame(en: Engine, sight: Sight)
    ensures SameFrame(en.spec, Seen(en, sight).spec)
  {
  }

  lemma OrderByFrame(s: Spec, s': Spec, family: string)
    requires SameFrame(s, s')
    ensures Order(s', family) == Order(s, family)
  {
  }

  lemma PhasesByFrame(s: Spec, s': Spec)
    requires SameFrame(s, s')
    ensures PhasesOk(s') <==> PhasesOk(s)
  {
    assert forall p :: PhaseOk(s', p) == PhaseOk(s, p);
    hide PhaseOk;
  }

  lemma PlacedByFrame(s: Spec, s': Spec, r: Run)
    requires SameFrame(s, s')
    ensures Placed(s', r) <==> Placed(s, r)
  {
    assert forall w :: Waivable(s', r.family, w) == Waivable(s, r.family, w);
    OrderByFrame(s, s', r.family);
    hide Order, Waivable, Index;
  }

  /** Soundness is about the frame, which every command finds alike. */
  lemma {:induction false} SoundInAnySight(en: Engine, sight: Sight, st: State)
    ensures Sound(Seen(en, sight), st) <==> Sound(en, st)
    ensures PhasesOk(Seen(en, sight).spec) <==> PhasesOk(en.spec)
  {
    hide Tells, Total, Placed, PhasesOk;
    SightKeepsFrame(en, sight);
    PhasesByFrame(en.spec, Seen(en, sight).spec);
    if st.run.Some? { PlacedByFrame(en.spec, Seen(en, sight).spec, st.run.value); }
  }

  lemma {:induction false} TurnKeepsSound(en: Engine, st: State, t: Turn)
    requires PhasesOk(en.spec) && Sound(en, st) && Allowed(en, st, t)
    ensures Sound(en, Taken(en, st, t).0)
  {
    hide Sound, PhasesOk, Step, Admissible, Seen;
    SoundInAnySight(en, t.sight, st);
    StepKeepsSound(Seen(en, t.sight), st, t.cmd);
    SoundInAnySight(en, t.sight, Taken(en, st, t).0);
  }

  lemma {:induction false} RunsAreSound(en: Engine, st: State, ts: seq<Turn>)
    requires PhasesOk(en.spec) && Sound(en, st) && AllAdmissible(en, st, ts)
    ensures Sound(en, After(en, st, ts))
    decreases |ts|
  {
    hide Sound, PhasesOk, Taken, Allowed;
    if ts != [] {
      TurnKeepsSound(en, st, ts[0]);
      RunsAreSound(en, Taken(en, st, ts[0]).0, ts[1..]);
    }
  }
}

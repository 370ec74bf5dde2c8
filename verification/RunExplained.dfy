/** No silent bypass: forces, waivers and loops are explained in the log. */
module RunExplained {
  import opened Values
  import opened Events
  import opened WorkflowSpec
  import opened PhaseOrder
  import opened Contracts
  import Approvals
  import opened RunState
  import opened RunTheory
  import opened RunInvariant
  import opened RunSafety

  /** The escape record that goes with a force. */
  predicate EscapeFor(x: Event, e: Event) {
    && x.run == e.run && x.phase == e.phase && x.kind == "escape"
    && x.Text("action") == "force" && x.Text("reason") == e.Text("reason")
  }

  /** The loop record that goes with a loop transition; it carries evidence. */
  predicate LoopFor(x: Event, e: Event) {
    && x.run == e.run && x.phase == e.phase && x.kind == "loop"
    && x.Text("target") == e.Text("target") && x.Text("cause") == e.Text("reason") && !Blank(x.Text("evidence"))
  }

  predicate ForceExplained(log: seq<Event>, i: nat)
    requires i < |log|
  {
    && i > 0 && EscapeFor(log[i - 1], log[i])
    && !Blank(log[i].Text("reason"))
    && (CountForces(log[..i], log[i].run) > 0 ==> Contains(log[i].Text("reason"), "cause:"))
  }

  predicate Explained(log: seq<Event>, run: string, i: nat)
    requires i < |log|
  {
    && (IsPhaseAction(log[i], run, "force") ==> ForceExplained(log, i))
    && (IsPhaseAction(log[i], run, "waive") ==> !Blank(log[i].Text("reason")))
    && (IsPhaseAction(log[i], run, "loop") ==> i > 0 && LoopFor(log[i - 1], log[i]))
  }

  predicate AllExplained(log: seq<Event>, run: string) {
    forall i :: 0 <= i < |log| ==> Explained(log, run, i)
  }

  ghost predicate LiveExplained(st: State) {
    st.run.Some? ==> AllExplained(st.log, st.run.value.id)
  }

  // ---------------------------------------------------------------------------
  // One event more
  // ---------------------------------------------------------------------------

  lemma ExplainedGrows(log: seq<Event>, e: Event, run: string)
    requires AllExplained(log, run) && Explained(log + [e], run, |log|)
    ensures AllExplained(log + [e], run)
  {
    hide Blank, Contains, EscapeFor, LoopFor;
    forall i | 0 <= i < |log|
      ensures Explained(log + [e], run, i)
    {
      assert Explained(log, run, i) && (log + [e])[..i] == log[..i];
    }
  }

  /** Actions nothing has to explain. */
  predicate Ordinary(kind: string, data: Fields) {
    kind != "phase" || StrField(data, "action") !in {"force", "waive", "loop"}
  }

  lemma OrdinaryGrows(en: Engine, st: State, r: Run, kind: string, auto: bool, actor: string, data: Fields, run: string)
    requires AllExplained(st.log, run) && Ordinary(kind, data)
    ensures AllExplained(WithEvent(en, st, r, kind, auto, actor, data).log, run)
  {
    hide Blank, Contains, EscapeFor, LoopFor, AllExplained;
    var e := Stamped(en, st.stamped, r, kind, auto, actor, data);
    assert e.Text("action") == StrField(data, "action");
    ExplainedGrows(st.log, e, run);
  }

  lemma ForceGrows(en: Engine, st: State, r: Run, reason: string, data: Fields)
    requires AllExplained(st.log, r.id) && CountForces(st.log, r.id) == r.forces
    requires !Blank(reason) && (r.forces > 0 ==> Contains(reason, "cause:"))
    requires StrField(data, "action") == "force" && StrField(data, "reason") == reason
    ensures
      var st1 := WithEvent(en, st, r, "escape", false, "user", data);
      AllExplained(WithEvent(en, st1, r, "phase", false, "engine", Reasoned("force", reason)).log, r.id)
  {
    hide Blank, Contains, AllExplained, CountForces, Explained;
    var st1 := WithEvent(en, st, r, "escape", false, "user", data);
    OrdinaryGrows(en, st, r, "escape", false, "user", data, r.id);
    var x := Stamped(en, st.stamped, r, "escape", false, "user", data);
    var e := Stamped(en, st1.stamped, r, "phase", false, "engine", Reasoned("force", reason));
    EscapeIsNoForce(st.log, x, r.id);
    assert EscapeFor(x, e) && e.Text("reason") == reason && e.Text("action") == "force";
    ForceIsExplained(st.log, x, e);
    ExplainedGrows(st1.log, e, r.id);
  }

  lemma EscapeIsNoForce(log: seq<Event>, x: Event, run: string)
    requires x.kind == "escape"
    ensures CountForces(log + [x], run) == CountForces(log, run)
  {
    assert (log + [x])[..|log|] == log;
  }

  lemma ForceIsExplained(log: seq<Event>, x: Event, e: Event)
    requires EscapeFor(x, e) && e.Text("action") == "force" && !Blank(e.Text("reason"))
    requires CountForces(log + [x], e.run) > 0 ==> Contains(e.Text("reason"), "cause:")
    ensures Explained((log + [x]) + [e], e.run, |log + [x]|)
  {
    hide Blank, Contains, CountForces, EscapeFor;
    var mid := log + [x];
    assert (mid + [e])[..|mid|] == mid && mid[|log|] == x;
  }

  lemma WaiveGrows(en: Engine, st: State, r: Run, phase: string, reason: string)
    requires AllExplained(st.log, r.id) && !Blank(reason)
    ensures
      var data: Fields := map["action" := Str("waive"), "target" := Str(phase), "reason" := Str(reason)];
      AllExplained(WithEvent(en, st, r, "phase", false, "user", data).log, r.id)
  {
    hide Blank, AllExplained;
    var data: Fields := map["action" := Str("waive"), "target" := Str(phase), "reason" := Str(reason)];
    var e := Stamped(en, st.stamped, r, "phase", false, "user", data);
    assert e.Text("action") == "waive" && e.Text("reason") == reason;
    ExplainedGrows(st.log, e, r.id);
  }

  lemma LoopGrows(en: Engine, st: State, r: Run, ac: string, cause: string, evidence: string, target: string)
    requires AllExplained(st.log, r.id) && !Blank(evidence)
    ensures
      var record := LoopRecord(ac, cause, evidence, target);
      var data := LoopMove(cause, target);
      var st1 := WithEvent(en, st, r, "loop", false, "agent", record);
      AllExplained(WithEvent(en, st1, r, "phase", false, "engine", data).log, r.id)
  {
    hide Blank, AllExplained;
    var record := LoopRecord(ac, cause, evidence, target);
    var data := LoopMove(cause, target);
    var st1 := WithEvent(en, st, r, "loop", false, "agent", record);
    OrdinaryGrows(en, st, r, "loop", false, "agent", record, r.id);
    var x := Stamped(en, st.stamped, r, "loop", false, "agent", record);
    var e := Stamped(en, st1.stamped, r, "phase", false, "engine", data);
    assert LoopFor(x, e);
    assert e.Text("action") == "loop";
    ExplainedGrows(st1.log, e, r.id);
  }

  lemma AdvanceExplained(en: Engine, st: State, r: Run)
    requires AllExplained(st.log, r.id)
    ensures AllExplained(Advance(en, st, r).log, r.id)
  {
    hide AllExplained, NextUnwaived, Order;
    var next := NextUnwaived(Order(en.spec, r.family), r.phase, r.waived);
    var entered := r.(exited := r.exited + [r.phase], phase := next);
    OrdinaryGrows(en, st, entered, "phase", false, "engine", Aimed("enter", next), r.id);
  }

  // ---------------------------------------------------------------------------
  // One command
  // ---------------------------------------------------------------------------

  lemma ExitExplained(en: Engine, st: State, force: bool, reason: string)
    requires Sound(en, st) && LiveExplained(st)
    ensures LiveExplained(ExitStep(en, st, force, reason).0)
  {
    hide AllExplained, ExitGate, Advance, Blank, Contains, Placed, Capped;
    if st.run.Some? && st.run.value.status == Active {
      var r := st.run.value;
      if !force {
        if ExitGate(en, st.log, r) == Done {
          OrdinaryGrows(en, st, r, "phase", false, "engine", Action("exit"), r.id);
          AdvanceExplained(en, WithEvent(en, st, r, "phase", false, "engine", Action("exit")), r);
          AdvanceKeepsId(en, WithEvent(en, st, r, "phase", false, "engine", Action("exit")), r);
        }
      } else if Blank(reason) {
      } else if r.forces >= 2 {
        var st1 := WithEvent(en, st, r, "escape", false, "user", ThirdForce());
        OrdinaryGrows(en, st, r, "escape", false, "user", ThirdForce(), r.id);
        OrdinaryGrows(en, st1, r, "phase", false, "engine", Reasoned("park", "force escalation"), r.id);
      } else if r.forces == 1 && !Contains(reason, "cause:") {
      } else {
        var data := Reasoned("force", reason)["level" := Num((r.forces + 1) as real)];
        ForcesAreCounted(st.log, r);
        ForceGrows(en, st, r, reason, data);
        var st1 := WithEvent(en, st, r, "escape", false, "user", data);
        var st2 := WithEvent(en, st1, r, "phase", false, "engine", Reasoned("force", reason));
        AdvanceExplained(en, st2, r.(forces := r.forces + 1));
        AdvanceKeepsId(en, st2, r.(forces := r.forces + 1));
      }
    }
  }

  lemma AdvanceKeepsId(en: Engine, st: State, r: Run)
    ensures Advance(en, st, r).run.Some? && Advance(en, st, r).run.value.id == r.id
  {
    hide NextUnwaived, Order;
  }

  lemma WaiveExplained(en: Engine, st: State, phase: string, reason: string)
    requires LiveExplained(st)
    ensures LiveExplained(WaiveStep(en, st, phase, reason).0)
  {
    hide AllExplained, Blank, NextUnwaived, Order, PhaseById;
    if st.run.Some? && WaiveStep(en, st, phase, reason).1 == Done {
      var r := st.run.value;
      WaiveGrows(en, st, r, phase, reason);
      var data: Fields := map["action" := Str("waive"), "target" := Str(phase), "reason" := Str(reason)];
      var st1 := WithEvent(en, st, r, "phase", false, "user", data);
      var r1 := r.(waived := r.waived + [phase]);
      var r2 := r1.(phase := NextUnwaived(Order(en.spec, r.family), r1.phase, r1.waived));
      OrdinaryGrows(en, st1, r2, "phase", false, "engine", Aimed("enter", r2.phase), r.id);
    }
  }

  lemma LoopExplained(en: Engine, st: State, ac: string, cause: string, evidence: string)
    requires LiveExplained(st)
    ensures LiveExplained(LoopStep(en, st, ac, cause, evidence).0)
  {
    hide AllExplained, Blank, LoopTarget, SlipsOn, Without;
    if st.run.Some? && LoopTarget(en, st.log, st.run.value, cause).Ok? && !Blank(evidence) {
      var r := st.run.value;
      OrdinaryGrows(en, st, r, "phase", false, "engine", Reasoned("park", "loop cap reached"), r.id);
      LoopGrows(en, st, r, ac, cause, evidence, LoopTarget(en, st.log, r, cause).value);
    }
  }

  lemma ParkExplained(en: Engine, st: State, reason: string)
    requires LiveExplained(st)
    ensures LiveExplained(ParkStep(en, st, reason).0)
  {
    hide AllExplained, Blank;
    if st.run.Some? {
      var r := st.run.value;
      OrdinaryGrows(en, st, r, "escape", false, "user", Reasoned("park", reason), r.id);
      OrdinaryGrows(en, WithEvent(en, st, r, "escape", false, "user", Reasoned("park", reason)), r,
                    "phase", false, "engine", Reasoned("park", reason), r.id);
    }
  }

  lemma ResumeExplained(en: Engine, st: State)
    requires LiveExplained(st)
    ensures LiveExplained(ResumeStep(en, st).0)
  {
    hide AllExplained;
    if st.run.Some? {
      OrdinaryGrows(en, st, st.run.value, "phase", false, "engine", Action("resume"), st.run.value.id);
    }
  }

  lemma RecordExplained(en: Engine, st: State, kind: string, data: Fields, auto: bool, actor: string)
    requires LiveExplained(st) && kind != "phase"
    ensures LiveExplained(RecordStep(en, st, kind, data, auto, actor).0)
  {
    hide AllExplained, NormalisedData, ValidClassification;
    if st.run.Some? && RecordStep(en, st, kind, data, auto, actor).1 == Done {
      var r := st.run.value;
      var normalised := NormalisedData(en, st, r, RecordKindByName(en.spec.records, kind).value, data).value;
      var checked := en.validate(kind, normalised, auto).value;
      var writer := if actor == "" then "agent" else actor;
      OrdinaryGrows(en, st, Reclassified(r, kind, checked), kind, auto, writer, checked, r.id);
    }
  }

  lemma ApproveExplained(en: Engine, st: State, gate: string, payload: string, carriesCode: string -> bool)
    requires LiveExplained(st)
    ensures LiveExplained(ApproveStep(en, st, gate, payload, carriesCode).0)
  {
    hide AllExplained, Approvals.ApprovalData;
    if st.run.Some? && ApproveStep(en, st, gate, payload, carriesCode).1 == Done {
      var r := st.run.value;
      var data := Approvals.ApprovalData(OfRun(st.log, r.id), gate, payload, ApprovalSetting(en, carriesCode)).value;
      OrdinaryGrows(en, st, r, "approval", false, "user", data, r.id);
    }
  }

  lemma StartExplained(en: Engine, st: State, id: string, family: string, intent: string)
    requires LiveExplained(st) && Admissible(en, st, Start(id, family, intent))
    ensures LiveExplained(StartStep(en, st, id, family, intent).0)
  {
    hide AllExplained, Order;
    if StartStep(en, st, id, family, intent).1 == Done {
      var first := Order(en.spec, family)[0];
      var r := Run(id, family, intent, first, Active, 0, map[], 0, [], []);
      var data: Fields := map["action" := Str("start"), "family" := Str(family), "intent" := Str(intent)];
      StrangersAreExplained(st.log, id);
      OrdinaryGrows(en, st, r, "run", false, "engine", data, id);
      var st1 := WithEvent(en, st, r, "run", false, "engine", data);
      OrdinaryGrows(en, st1, r, "phase", false, "engine", Aimed("enter", first), id);
    }
  }

  lemma StrangersAreExplained(log: seq<Event>, run: string)
    requires forall i :: 0 <= i < |log| ==> log[i].run != run
    ensures AllExplained(log, run)
  {
  }

  lemma StepExplained(en: Engine, st: State, c: Command)
    requires Sound(en, st) && LiveExplained(st) && Admissible(en, st, c)
    ensures LiveExplained(Step(en, st, c).0)
  {
    hide PhasesOk, Sound, LiveExplained, ExitStep, StartStep, WaiveStep, LoopStep, ParkStep, ResumeStep, RecordStep,
      ApproveStep, LoopIsSafe;
    match c
    case Start(id, family, intent) => StartExplained(en, st, id, family, intent);
    case Exit(force, reason) => ExitExplained(en, st, force, reason);
    case Waive(phase, why) => WaiveExplained(en, st, phase, why);
    case LoopBack(ac, cause, evidence) => LoopExplained(en, st, ac, cause, evidence);
    case Park(because) => ParkExplained(en, st, because);
    case Resume => ResumeExplained(en, st);
    case Record(kind, data, auto, actor) => RecordExplained(en, st, kind, data, auto, actor);
    case Approve(gate, payload, carriesCode) => ApproveExplained(en, st, gate, payload, carriesCode);
    case Close => CloseExplained(en, st);
  }

  lemma CloseExplained(en: Engine, st: State)
    requires LiveExplained(st)
    ensures LiveExplained(CloseStep(en, st).0)
  {
    hide AllExplained, Order;
  }

  // ---------------------------------------------------------------------------
  // Whole runs
  // ---------------------------------------------------------------------------

  lemma {:induction false} RunsAreExplained(en: Engine, st: State, ts: seq<Turn>)
    requires PhasesOk(en.spec) && Sound(en, st) && LiveExplained(st) && AllAdmissible(en, st, ts)
    ensures LiveExplained(After(en, st, ts))
    decreases |ts|
  {
    hide Sound, PhasesOk, Step, Seen, Admissible, LiveExplained;
    if ts != [] {
      TurnKeepsSound(en, st, ts[0]);
      SoundInAnySight(en, ts[0].sight, st);
      StepExplained(Seen(en, ts[0].sight), st, ts[0].cmd);
      RunsAreExplained(en, Taken(en, st, ts[0]).0, ts[1..]);
    }
  }

  /** In every reachable state each force of the live run follows an escape record with the
      same non-blank reason, from the second on naming its cause; each waiver carries a
      reason; each loop follows a loop record with evidence. */
  lemma {:induction false} NoSilentBypass(en: Engine, st: State, i: nat)
    requires PhasesOk(en.spec) && Reachable(en, st) && st.run.Some? && i < |st.log|
    ensures Explained(st.log, st.run.value.id, i)
  {
    hide PhasesOk, AllAdmissible, After, Explained, Sound;
    var start, ts :| ReachedBy(en, start, ts, st);
    SoundWithoutRun(en, start);
    RunsAreExplained(en, start, ts);
  }
}

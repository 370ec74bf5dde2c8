/** What a command does to the log: it only appends, its events take the stamps that follow,
    one each, and closing then drops the run's own events. Persistence and the uniqueness of
    identities build on this. */
module RunLog {
  import opened Values
  import opened Events
  import opened Retention
  import Approvals
  import PhaseOrder
  import opened RunState

  predicate Closes(en: Engine, st: State, cmd: Command) {
    cmd.Close? && st.run.Some? && Step(en, st, cmd).1 == Done
  }

  /** The events a command writes. */
  function Appended(en: Engine, st: State, cmd: Command): seq<Event> {
    var log := if Closes(en, st, cmd) then WithEvent(en, st, st.run.value, "run", false, "engine", Action("close")).log
               else Step(en, st, cmd).0.log;
    if |st.log| <= |log| then log[|st.log|..] else []
  }

  /** `after` has more events behind those of `st`, identified by the stamps that follow. */
  predicate Extends(en: Engine, st: State, after: State) {
    && st.log <= after.log && after.stamped == st.stamped + (|after.log| - |st.log|)
    && forall k :: |st.log| <= k < |after.log| ==>
      (after.log[k].id, after.log[k].ts) == en.stamp(st.stamped + (k - |st.log|))
  }

  lemma AppendExtends(
    en: Engine, st: State, mid: State, r: Run, kind: string, auto: bool, actor: string, data: Fields)
    requires Extends(en, st, mid)
    ensures Extends(en, st, WithEvent(en, mid, r, kind, auto, actor, data))
  {
  }

  lemma {:induction false} AdvanceExtends(en: Engine, st: State, mid: State, r: Run)
    requires Extends(en, st, mid)
    ensures Extends(en, st, Advance(en, mid, r))
  {
    hide Extends, PhaseOrder.Order, NextUnwaived;
    var next := NextUnwaived(PhaseOrder.Order(en.spec, r.family), r.phase, r.waived);
    var entered := r.(exited := r.exited + [r.phase], phase := next);
    AppendExtends(en, st, mid, entered, "phase", false, "engine", Aimed("enter", next));
    RunIsNoLog(en, st, mid, Some(entered));
    RunIsNoLog(en, st, WithEvent(en, mid, entered, "phase", false, "engine", Aimed("enter", next)), Some(entered));
  }

  lemma RunIsNoLog(en: Engine, st: State, after: State, run: Option<Run>)
    ensures Extends(en, st, after.(run := run)) == Extends(en, st, after)
  {
  }

  lemma {:induction false} ExitExtends(en: Engine, st: State, force: bool, reason: string)
    ensures Extends(en, st, ExitStep(en, st, force, reason).0)
  {
    hide Extends, ExitGate, Advance, Blank, Contains;
    assert Extends(en, st, st) by { NothingMore(en, st); }
    if st.run.Some? {
      var r := st.run.value;
      var data := Reasoned("force", reason)["level" := Num((r.forces + 1) as real)];
      if !force {
        var st1 := WithEvent(en, st, r, "phase", false, "engine", Action("exit"));
        AppendExtends(en, st, st, r, "phase", false, "engine", Action("exit"));
        AdvanceExtends(en, st, st1, r);
      } else if r.forces >= 2 {
        var st1 := WithEvent(en, st, r, "escape", false, "user", ThirdForce());
        AppendExtends(en, st, st, r, "escape", false, "user", ThirdForce());
        AppendExtends(en, st, st1, r, "phase", false, "engine", Reasoned("park", "force escalation"));
        RunIsNoLog(en, st, WithEvent(en, st1, r, "phase", false, "engine", Reasoned("park", "force escalation")),
                   Some(r.(status := Parked)));
      } else {
        var st1 := WithEvent(en, st, r, "escape", false, "user", data);
        AppendExtends(en, st, st, r, "escape", false, "user", data);
        AppendExtends(en, st, st1, r, "phase", false, "engine", Reasoned("force", reason));
        var st2 := WithEvent(en, st1, r, "phase", false, "engine", Reasoned("force", reason));
        AdvanceExtends(en, st, st2, r.(forces := r.forces + 1));
      }
    }
  }

  lemma NothingMore(en: Engine, st: State)
    ensures Extends(en, st, st)
  {
  }

  lemma LoopExtends(en: Engine, st: State, ac: string, cause: string, evidence: string)
    ensures Extends(en, st, LoopStep(en, st, ac, cause, evidence).0)
  {
    hide LoopTarget, Blank, SlipsOn, Without;
  }

  lemma WaiveExtends(en: Engine, st: State, phase: string, reason: string)
    ensures Extends(en, st, WaiveStep(en, st, phase, reason).0)
  {
    hide Blank, NextUnwaived, PhaseOrder.Order, PhaseOrder.PhaseById;
  }

  lemma {:induction false} StepExtends(en: Engine, st: State, cmd: Command)
    requires !Closes(en, st, cmd)
    ensures Extends(en, st, Step(en, st, cmd).0)
  {
    hide ExitStep, LoopStep, WaiveStep, NormalisedData, Blank, PhaseOrder.Order, Reclassified, ValidClassification,
      Approvals.ApprovalData;
    match cmd
    case Exit(force, reason) => ExitExtends(en, st, force, reason);
    case LoopBack(ac, cause, evidence) => LoopExtends(en, st, ac, cause, evidence);
    case Waive(phase, why) => WaiveExtends(en, st, phase, why);
    case _ =>
  }

  /** A command writes its events behind the log; closing then drops the run's own. */
  lemma {:induction false} StepsLog(en: Engine, st: State, cmd: Command)
    ensures
      var all := st.log + Appended(en, st, cmd);
      Step(en, st, cmd).0.log == if Closes(en, st, cmd) then Retained(all, st.run.value.id) else all
  {
    hide Retained, Step;
    if Closes(en, st, cmd) {
      ClosingLog(en, st);
    } else {
      StepExtends(en, st, cmd);
    }
  }

  lemma ClosingLog(en: Engine, st: State)
    requires Closes(en, st, Close)
    ensures Step(en, st, Close).0.log == Retained(st.log + Appended(en, st, Close), st.run.value.id)
  {
    hide Retained, Archived;
    var log := WithEvent(en, st, st.run.value, "run", false, "engine", Action("close")).log;
    assert log == st.log + log[|st.log|..];
  }

  lemma ClosingHasRun(en: Engine, st: State, cmd: Command)
    requires Closes(en, st, cmd)
    ensures st.run.Some?
  {
    hide Step;
  }

  /** The events a command writes take the stamps that follow, one each. */
  lemma {:induction false} StepsStamps(en: Engine, st: State, cmd: Command)
    ensures Step(en, st, cmd).0.stamped == st.stamped + |Appended(en, st, cmd)|
    ensures
      var more := Appended(en, st, cmd);
      forall k :: 0 <= k < |more| ==> (more[k].id, more[k].ts) == en.stamp(st.stamped + k)
  {
    hide Step, Extends;
    if Closes(en, st, cmd) {
      ClosingStamps(en, st);
    } else {
      StepExtends(en, st, cmd);
      ExtensionStamps(en, st, Step(en, st, cmd).0);
    }
  }

  lemma ExtensionStamps(en: Engine, st: State, after: State)
    requires Extends(en, st, after)
    ensures
      var more := after.log[|st.log|..];
      && |st.log| <= |after.log| && after.stamped == st.stamped + |more|
      && forall k :: 0 <= k < |more| ==> (more[k].id, more[k].ts) == en.stamp(st.stamped + k)
  {
    var more := after.log[|st.log|..];
    assert forall k :: 0 <= k < |more| ==> more[k] == after.log[|st.log| + k];
  }

  lemma ClosingStamps(en: Engine, st: State)
    requires Closes(en, st, Close)
    ensures Step(en, st, Close).0.stamped == st.stamped + |Appended(en, st, Close)|
    ensures
      var more := Appended(en, st, Close);
      forall k :: 0 <= k < |more| ==> (more[k].id, more[k].ts) == en.stamp(st.stamped + k)
  {
    hide Retained, Archived;
    var log := WithEvent(en, st, st.run.value, "run", false, "engine", Action("close")).log;
    assert log[|st.log|..] == [log[|st.log|]];
  }
}

/** Histories seen from their end, one command more: the state it leaves, whether the whole is
    still admissible, whose run is live after it, and what kind of events it wrote. The
    results about whole runs that look back at the command an event came from use this. */
module RunHistory {
  import opened Values
  import opened Events
  import opened WorkflowSpec
  import opened PhaseOrder
  import opened RunState
  import opened Retention
  import opened RunLog
  import opened RunInvariant
  import opened RunSafety

  lemma {:induction false} AfterJoin(en: Engine, st: State, ts: seq<Turn>, t: Turn)
    ensures After(en, st, ts + [t]) == Taken(en, After(en, st, ts), t).0
    decreases |ts|
  {
    hide Taken;
    if ts == [] {
      assert (ts + [t])[1..] == [];
    } else {
      AfterJoin(en, Taken(en, st, ts[0]).0, ts[1..], t);
      assert (ts + [t])[1..] == ts[1..] + [t];
    }
  }

  lemma {:induction false} AdmissibleJoin(en: Engine, st: State, ts: seq<Turn>, t: Turn)
    ensures AllAdmissible(en, st, ts + [t]) <==> AllAdmissible(en, st, ts) && Allowed(en, After(en, st, ts), t)
    decreases |ts|
  {
    hide Taken, Allowed;
    if ts == [] {
      assert (ts + [t])[1..] == [];
    } else {
      AdmissibleJoin(en, Taken(en, st, ts[0]).0, ts[1..], t);
      assert (ts + [t])[1..] == ts[1..] + [t];
    }
  }

  // ---------------------------------------------------------------------------
  // Whose run it is
  // ---------------------------------------------------------------------------

  predicate SameId(a: Option<Run>, b: Option<Run>) {
    if a.Some? && b.Some? then a.value.id == b.value.id else a == b
  }

  lemma ExitKeepsId(en: Engine, st: State, force: bool, reason: string)
    ensures SameId(st.run, ExitStep(en, st, force, reason).0.run)
  {
    hide Order, ExitGate, NextUnwaived, Blank, Contains;
  }

  lemma WaiveKeepsId(en: Engine, st: State, phase: string, reason: string)
    ensures SameId(st.run, WaiveStep(en, st, phase, reason).0.run)
  {
    hide Order, NextUnwaived, Blank, PhaseById;
  }

  /** Only a start puts another run in place. */
  lemma {:induction false} RunsKeepTheirId(en: Engine, st: State, cmd: Command)
    requires !cmd.Start? && Step(en, st, cmd).0.run.Some?
    ensures st.run.Some? && Step(en, st, cmd).0.run.value.id == st.run.value.id
  {
    hide Order, Blank, LoopTarget, Without, ExitStep, WaiveStep, ApproveStep, NormalisedData, ValidClassification;
    match cmd
    case Exit(force, reason) => ExitKeepsId(en, st, force, reason);
    case Waive(phase, why) => WaiveKeepsId(en, st, phase, why);
    case Approve(gate, payload, carriesCode) => ApprovalsStay(en, st, gate, payload, carriesCode);
    case _ =>
  }

  predicate Known(log: seq<Event>, run: string) {
    exists i :: 0 <= i < |log| && log[i].run == run
  }

  lemma StartedIsNew(en: Engine, st: State, cmd: Command, id: string)
    requires cmd.Start? && Admissible(en, st, cmd) && Known(st.log, id)
    ensures
      var st' := Step(en, st, cmd).0;
      st'.run.Some? && st'.run.value.id == id ==> st'.run == st.run
  {
    hide Order;
  }

  /** Where a run is live after a command and known before it, it was live before it too. */
  lemma {:induction false} KnownWasLive(en: Engine, st: State, cmd: Command)
    requires Admissible(en, st, cmd)
    requires Step(en, st, cmd).0.run.Some? && Known(st.log, Step(en, st, cmd).0.run.value.id)
    ensures st.run.Some? && st.run.value.id == Step(en, st, cmd).0.run.value.id
  {
    hide Step, Admissible, Known;
    if cmd.Start? { StartedIsNew(en, st, cmd, Step(en, st, cmd).0.run.value.id); }
    else { RunsKeepTheirId(en, st, cmd); }
  }

  lemma LiveAfterNoClose(en: Engine, st: State, cmd: Command)
    requires Step(en, st, cmd).0.run.Some?
    ensures !Closes(en, st, cmd)
  {
    hide Retained, Archived, Order;
  }

  // ---------------------------------------------------------------------------
  // What kind of events a command writes, and for whom
  // ---------------------------------------------------------------------------

  const ENGINE_KINDS: set<string> := {"run", "phase", "escape", "loop"}

  /** From position `from` on every event is of the run and of one of the kinds. */
  predicate OfKinds(log: seq<Event>, from: nat, run: string, kinds: set<string>) {
    forall i :: from <= i < |log| ==> log[i].run == run && log[i].kind in kinds
  }

  lemma OneMoreOfKinds(
    en: Engine, st: State, from: nat, r: Run, kind: string, auto: bool, actor: string, data: Fields, kinds: set<string>)
    requires OfKinds(st.log, from, r.id, kinds) && kind in kinds
    ensures OfKinds(WithEvent(en, st, r, kind, auto, actor, data).log, from, r.id, kinds)
  {
  }

  lemma {:induction false} AdvanceOfKinds(en: Engine, st: State, from: nat, r: Run)
    requires OfKinds(st.log, from, r.id, ENGINE_KINDS)
    ensures OfKinds(Advance(en, st, r).log, from, r.id, ENGINE_KINDS)
  {
    hide OfKinds, Order, NextUnwaived;
    var next := NextUnwaived(Order(en.spec, r.family), r.phase, r.waived);
    var entered := r.(exited := r.exited + [r.phase], phase := next);
    OneMoreOfKinds(en, st, from, entered, "phase", false, "engine", Aimed("enter", next), ENGINE_KINDS);
  }

  lemma {:induction false} ExitOfKinds(en: Engine, st: State, force: bool, reason: string)
    requires st.run.Some?
    ensures OfKinds(ExitStep(en, st, force, reason).0.log, |st.log|, st.run.value.id, ENGINE_KINDS)
  {
    hide OfKinds, ExitGate, Advance, Blank, Contains;
    var r, from := st.run.value, |st.log|;
    assert OfKinds(st.log, from, r.id, ENGINE_KINDS) by { NothingNewOfKinds(st.log, r.id); }
    if !force {
      OneMoreOfKinds(en, st, from, r, "phase", false, "engine", Action("exit"), ENGINE_KINDS);
      AdvanceOfKinds(en, WithEvent(en, st, r, "phase", false, "engine", Action("exit")), from, r);
    } else if r.forces >= 2 {
      var st1 := WithEvent(en, st, r, "escape", false, "user", ThirdForce());
      OneMoreOfKinds(en, st, from, r, "escape", false, "user", ThirdForce(), ENGINE_KINDS);
      OneMoreOfKinds(en, st1, from, r, "phase", false, "engine", Reasoned("park", "force escalation"), ENGINE_KINDS);
    } else {
      var data := Reasoned("force", reason)["level" := Num((r.forces + 1) as real)];
      var st1 := WithEvent(en, st, r, "escape", false, "user", data);
      OneMoreOfKinds(en, st, from, r, "escape", false, "user", data, ENGINE_KINDS);
      OneMoreOfKinds(en, st1, from, r, "phase", false, "engine", Reasoned("force", reason), ENGINE_KINDS);
      var st2 := WithEvent(en, st1, r, "phase", false, "engine", Reasoned("force", reason));
      AdvanceOfKinds(en, st2, from, r.(forces := r.forces + 1));
    }
  }

  lemma NothingNewOfKinds(log: seq<Event>, run: string)
    ensures OfKinds(log, |log|, run, ENGINE_KINDS)
  {
  }

  lemma LoopOfKinds(en: Engine, st: State, ac: string, cause: string, evidence: string)
    requires st.run.Some?
    ensures OfKinds(LoopStep(en, st, ac, cause, evidence).0.log, |st.log|, st.run.value.id, ENGINE_KINDS)
  {
    hide LoopTarget, Blank, SlipsOn, Without;
  }

  lemma WaiveOfKinds(en: Engine, st: State, phase: string, reason: string)
    requires st.run.Some?
    ensures OfKinds(WaiveStep(en, st, phase, reason).0.log, |st.log|, st.run.value.id, ENGINE_KINDS)
  {
    hide Blank, NextUnwaived, Order, PhaseById;
  }

  lemma StartOfKinds(en: Engine, st: State, id: string, family: string, intent: string)
    requires StartStep(en, st, id, family, intent).0.run.Some?
    ensures
      var st' := StartStep(en, st, id, family, intent).0;
      OfKinds(st'.log, |st.log|, st'.run.value.id, ENGINE_KINDS)
  {
    hide Order;
  }

  /** What a command other than a record or an approval writes is the engine's own. */
  lemma {:induction false} StepsKinds(en: Engine, st: State, cmd: Command)
    requires !Closes(en, st, cmd) && !cmd.Record? && !cmd.Approve? && Step(en, st, cmd).0.run.Some?
    ensures OfKinds(Step(en, st, cmd).0.log, |st.log|, Step(en, st, cmd).0.run.value.id, ENGINE_KINDS)
  {
    hide Order, ExitStep, WaiveStep, LoopStep, StartStep, Blank;
    if !cmd.Start? { RunsKeepTheirId(en, st, cmd); }
    match cmd
    case Start(id, family, intent) => StartOfKinds(en, st, id, family, intent);
    case Exit(force, reason) => ExitOfKinds(en, st, force, reason);
    case Waive(phase, why) => WaiveOfKinds(en, st, phase, why);
    case LoopBack(ac, cause, evidence) => LoopOfKinds(en, st, ac, cause, evidence);
    case _ =>
  }
}

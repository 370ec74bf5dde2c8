/** What let each phase be left: exits and the gates found open. */
module RunGates {
  import opened Values
  import opened Events
  import opened WorkflowSpec
  import opened PhaseOrder
  import opened Contracts
  import Approvals
  import opened RunState
  import opened RunTheory
  import opened RunInvariant
  import opened RunSafety
  import opened RunLog
  import opened RunHistory

  /** Command `k` of the history wrote the exit at position `i`: a plain exit, given on the log
      before it, while the gate was open in what that command saw. */
  ghost predicate ClearedBy(
    en: Engine, start: State, ts: seq<Turn>, log: seq<Event>, run: string, i: nat, k: nat)
    requires i < |log|
  {
    k < |ts| &&
    var st, t := After(en, start, ts[..k]), ts[k];
    && t.cmd.Exit? && !t.cmd.force && st.log == log[..i]
    && st.run.Some? && st.run.value.id == run && st.run.value.phase == log[i].phase
    && ExitGate(Seen(en, t.sight), st.log, st.run.value) == Done
  }

  ghost predicate Cleared(en: Engine, start: State, ts: seq<Turn>, log: seq<Event>, run: string, i: nat)
    requires i < |log|
  {
    exists k: nat :: ClearedBy(en, start, ts, log, run, i, k)
  }

  // ---------------------------------------------------------------------------
  // Which commands write exits
  // ---------------------------------------------------------------------------

  predicate IsExit(e: Event) {
    e.kind == "phase" && e.Text("action") == "exit"
  }

  /** No event from position `from` on is an exit. */
  predicate NoExits(log: seq<Event>, from: nat) {
    forall i :: from <= i < |log| ==> !IsExit(log[i])
  }

  lemma NoExitMore(
    en: Engine, st: State, mid: State, r: Run, kind: string, auto: bool, actor: string, data: Fields)
    requires NoExits(mid.log, |st.log|) && (kind == "phase" ==> StrField(data, "action") != "exit")
    ensures NoExits(WithEvent(en, mid, r, kind, auto, actor, data).log, |st.log|)
  {
  }

  lemma {:induction false} AdvanceWritesNoExit(en: Engine, st: State, mid: State, r: Run)
    requires |st.log| <= |mid.log|
    ensures
      var log := Advance(en, mid, r).log;
      && |mid.log| <= |log| && log[..|mid.log|] == mid.log && NoExits(log, |mid.log|)
  {
    hide Order, NextUnwaived;
  }

  /** A plain exit that goes through writes one exit event, at the end of the log. */
  lemma {:induction false} PlainExitWritesOne(en: Engine, st: State, reason: string)
    requires st.run.Some? && st.run.value.status == Active && ExitGate(en, st.log, st.run.value) == Done
    ensures
      var log, r := ExitStep(en, st, false, reason).0.log, st.run.value;
      && |st.log| < |log| && log[..|st.log|] == st.log && NoExits(log, |st.log| + 1)
      && log[|st.log|].run == r.id && log[|st.log|].phase == r.phase
  {
    hide ExitGate, Advance, NoExits;
    var st1 := WithEvent(en, st, st.run.value, "phase", false, "engine", Action("exit"));
    AdvanceWritesNoExit(en, st, st1, st.run.value);
    var log := ExitStep(en, st, false, reason).0.log;
    assert log[..|st.log|] == log[..|st1.log|][..|st.log|];
    assert log[|st.log|] == log[..|st1.log|][|st.log|];
  }

  lemma {:induction false} ForceWritesNone(en: Engine, st: State, reason: string)
    ensures NoExits(ExitStep(en, st, true, reason).0.log, |st.log|)
  {
    hide Advance, Blank, Contains, NoExits;
    assert NoExits(st.log, |st.log|) by { NothingMoreHere(st.log); }
    if st.run.Some? {
      var r := st.run.value;
      var data := Reasoned("force", reason)["level" := Num((r.forces + 1) as real)];
      var st1 := WithEvent(en, st, r, "escape", false, "user", ThirdForce());
      NoExitMore(en, st, st, r, "escape", false, "user", ThirdForce());
      NoExitMore(en, st, st1, r, "phase", false, "engine", Reasoned("park", "force escalation"));
      var st2 := WithEvent(en, st, r, "escape", false, "user", data);
      NoExitMore(en, st, st, r, "escape", false, "user", data);
      NoExitMore(en, st, st2, r, "phase", false, "engine", Reasoned("force", reason));
      var st3 := WithEvent(en, st2, r, "phase", false, "engine", Reasoned("force", reason));
      AdvanceWritesNoExit(en, st, st3, r.(forces := r.forces + 1));
      StillNone(st3.log, Advance(en, st3, r.(forces := r.forces + 1)).log, |st.log|);
    }
  }

  lemma NothingMoreHere(log: seq<Event>)
    ensures NoExits(log, |log|)
  {
  }

  lemma StillNone(log: seq<Event>, more: seq<Event>, from: nat)
    requires |log| <= |more| && more[..|log|] == log && NoExits(log, from) && NoExits(more, |log|)
    ensures NoExits(more, from)
  {
    assert forall i :: 0 <= i < |log| ==> more[i] == log[i];
  }

  lemma LoopWritesNone(en: Engine, st: State, ac: string, cause: string, evidence: string)
    ensures NoExits(LoopStep(en, st, ac, cause, evidence).0.log, |st.log|)
  {
    hide LoopTarget, Blank, SlipsOn, Without;
  }

  lemma WaiveWritesNone(en: Engine, st: State, phase: string, reason: string)
    ensures NoExits(WaiveStep(en, st, phase, reason).0.log, |st.log|)
  {
    hide Blank, NextUnwaived, Order, PhaseById;
  }

  lemma RecordWritesNone(en: Engine, st: State, kind: string, data: Fields, auto: bool, actor: string)
    requires kind != "phase"
    ensures NoExits(RecordStep(en, st, kind, data, auto, actor).0.log, |st.log|)
  {
    hide NormalisedData, ValidClassification, Reclassified;
  }

  lemma ApproveWritesNone(en: Engine, st: State, gate: string, payload: string, carriesCode: string -> bool)
    ensures NoExits(ApproveStep(en, st, gate, payload, carriesCode).0.log, |st.log|)
  {
    hide Approvals.ApprovalData;
  }

  /** Nothing but a plain exit through an open gate writes an exit event. */
  lemma {:induction false} OnlyExitsWriteExits(en: Engine, st: State, c: Command, i: nat)
    requires Admissible(en, st, c) && !Closes(en, st, c)
    requires |st.log| <= i < |Step(en, st, c).0.log| && IsExit(Step(en, st, c).0.log[i])
    ensures c.Exit? && !c.force && i == |st.log| && st.run.Some?
    ensures ExitGate(en, st.log, st.run.value) == Done
    ensures
      var e := Step(en, st, c).0.log[i];
      e.run == st.run.value.id && e.phase == st.run.value.phase
  {
    hide Order, ExitStep, WaiveStep, LoopStep, RecordStep, ApproveStep, LoopIsSafe, ExitGate, Blank;
    match c
    case Exit(force, reason) =>
      if force { ForceWritesNone(en, st, reason); }
      else { PlainExit(en, st, reason, i); }
    case Waive(phase, why) => WaiveWritesNone(en, st, phase, why);
    case LoopBack(ac, cause, evidence) => LoopWritesNone(en, st, ac, cause, evidence);
    case Record(kind, data, auto, actor) => RecordWritesNone(en, st, kind, data, auto, actor);
    case Approve(gate, payload, carriesCode) => ApproveWritesNone(en, st, gate, payload, carriesCode);
    case _ =>
  }

  lemma PlainExit(en: Engine, st: State, reason: string, i: nat)
    requires |st.log| <= i < |ExitStep(en, st, false, reason).0.log| && IsExit(ExitStep(en, st, false, reason).0.log[i])
    ensures i == |st.log| && st.run.Some? && ExitGate(en, st.log, st.run.value) == Done
    ensures
      var e := ExitStep(en, st, false, reason).0.log[i];
      e.run == st.run.value.id && e.phase == st.run.value.phase
  {
    hide ExitGate, Advance, IsExit;
    if st.run.Some? && st.run.value.status == Active && ExitGate(en, st.log, st.run.value) == Done {
      PlainExitWritesOne(en, st, reason);
    }
  }

  // ---------------------------------------------------------------------------
  // Whole runs
  // ---------------------------------------------------------------------------

  lemma ClearedStays(
    en: Engine, start: State, ts: seq<Turn>, t: Turn, log: seq<Event>, more: seq<Event>, run: string, i: nat)
    requires i < |log| && Cleared(en, start, ts, log, run, i)
    ensures Cleared(en, start, ts + [t], log + more, run, i)
  {
    hide After, ExitGate, Seen;
    var k: nat :| ClearedBy(en, start, ts, log, run, i, k);
    assert (ts + [t])[..k] == ts[..k] && (log + more)[..i] == log[..i];
    assert ClearedBy(en, start, ts + [t], log + more, run, i, k);
  }

  lemma {:induction false} ClearedNow(en: Engine, start: State, ts: seq<Turn>, t: Turn, run: string, i: nat)
    requires Allowed(en, After(en, start, ts), t)
    requires
      var st := After(en, start, ts);
      var log := Taken(en, st, t).0.log;
      !Closes(Seen(en, t.sight), st, t.cmd) && |st.log| <= i < |log| && IsPhaseAction(log[i], run, "exit")
    ensures Cleared(en, start, ts + [t], Taken(en, After(en, start, ts), t).0.log, run, i)
  {
    hide After, Step, ExitGate, Admissible, Seen, Closes, Appended;
    var st := After(en, start, ts);
    var log := Taken(en, st, t).0.log;
    OnlyExitsWriteExits(Seen(en, t.sight), st, t.cmd, i);
    StepsLog(Seen(en, t.sight), st, t.cmd);
    assert log[..i] == st.log;
    assert (ts + [t])[..|ts|] == ts && (ts + [t])[|ts|] == t;
    assert ClearedBy(en, start, ts + [t], log, run, i, |ts|);
  }

  /** Every plain exit of the live run was written by a command that found its gate open. */
  lemma {:induction false} ExitsWereClear(en: Engine, start: State, ts: seq<Turn>, i: nat)
    requires start.run.None? && AllAdmissible(en, start, ts)
    requires
      var st := After(en, start, ts);
      st.run.Some? && i < |st.log| && IsPhaseAction(st.log[i], st.run.value.id, "exit")
    ensures
      var st := After(en, start, ts);
      Cleared(en, start, ts, st.log, st.run.value.id, i)
    decreases |ts|
  {
    hide Taken, Allowed, Cleared, IsPhaseAction, AllAdmissible;
    if ts == [] {
    } else {
      var init, t := ts[..|ts| - 1], ts[|ts| - 1];
      assert ts == init + [t];
      AfterJoin(en, start, init, t);
      AdmissibleJoin(en, start, init, t);
      hide After;
      LastTurn(en, start, init, t, i);
    }
  }

  lemma {:induction false} LastTurn(en: Engine, start: State, init: seq<Turn>, t: Turn, i: nat)
    requires start.run.None? && AllAdmissible(en, start, init) && Allowed(en, After(en, start, init), t)
    requires
      var st := Taken(en, After(en, start, init), t).0;
      st.run.Some? && i < |st.log| && IsPhaseAction(st.log[i], st.run.value.id, "exit")
    ensures
      var st := Taken(en, After(en, start, init), t).0;
      Cleared(en, start, init + [t], st.log, st.run.value.id, i)
    decreases |init| + 1, 0
  {
    hide After, Step, Admissible, Seen, Cleared, Closes, Appended, AllAdmissible;
    var before := After(en, start, init);
    var seen := Seen(en, t.sight);
    var st := Taken(en, before, t).0;
    LiveAfterNoClose(seen, before, t.cmd);
    StepsLog(seen, before, t.cmd);
    if i < |before.log| {
      assert before.log[i] == st.log[i];
      assert Known(before.log, st.run.value.id);
      KnownWasLive(seen, before, t.cmd);
      ExitsWereClear(en, start, init, i);
      ClearedStays(en, start, init, t, before.log, Appended(seen, before, t.cmd), st.run.value.id, i);
    } else {
      ClearedNow(en, start, init, t, st.run.value.id, i);
    }
  }

  // ---------------------------------------------------------------------------
  // Bounded bypass
  // ---------------------------------------------------------------------------

  /** At most two exits of a run were forced; every other recorded exit was written by a
      command that found the exit items of its phase and the entry items of the next without
      findings. */
  lemma {:induction false} BypassIsBounded(en: Engine, start: State, ts: seq<Turn>, i: nat)
    requires PhasesOk(en.spec) && start.run.None? && AllAdmissible(en, start, ts)
    requires After(en, start, ts).run.Some? && i < |After(en, start, ts).log|
    ensures
      var st := After(en, start, ts);
      && CountForces(st.log, st.run.value.id) <= 2
      && (IsPhaseAction(st.log[i], st.run.value.id, "exit") ==> Cleared(en, start, ts, st.log, st.run.value.id, i))
  {
    hide PhasesOk, AllAdmissible, After, Placed, Derive, Total, Cleared, IsPhaseAction, Retell;
    var st := After(en, start, ts);
    assert Reachable(en, st) by { assert ReachedBy(en, start, ts, st); }
    ReachableIsSound(en, st);
    if IsPhaseAction(st.log[i], st.run.value.id, "exit") { ExitsWereClear(en, start, ts, i); }
  }

  /** The log shows how the run got past a phase: a recorded waiver, a forced exit, or a plain
      exit through an open gate. */
  ghost predicate ShownAt(
    en: Engine, start: State, ts: seq<Turn>, log: seq<Event>, run: string, phase: string, i: nat)
    requires i < |log|
  {
    || WaivedBy(log[i], run, phase)
    || (IsPhaseAction(log[i], run, "force") && log[i].phase == phase)
    || (IsPhaseAction(log[i], run, "exit") && log[i].phase == phase && Cleared(en, start, ts, log, run, i))
  }

  ghost predicate Shown(en: Engine, start: State, ts: seq<Turn>, log: seq<Event>, run: string, phase: string) {
    exists i :: 0 <= i < |log| && ShownAt(en, start, ts, log, run, phase, i)
  }

  lemma {:induction false} AccountedIsShown(en: Engine, start: State, ts: seq<Turn>, phase: string)
    requires start.run.None? && AllAdmissible(en, start, ts)
    requires
      var st := After(en, start, ts);
      st.run.Some? && Tells(st.log, st.run.value) && Accounted(st.run.value, phase)
    ensures
      var st := After(en, start, ts);
      Shown(en, start, ts, st.log, st.run.value.id, phase)
  {
    hide AllAdmissible, After, Derive, Retell, Cleared;
    var st := After(en, start, ts);
    var run := st.run.value.id;
    DerivedPhasesAreRecorded(st.log, phase);
    if phase in st.run.value.exited {
      var i :| 0 <= i < |st.log| && LeftBy(st.log[i], run, phase);
      if IsPhaseAction(st.log[i], run, "exit") { ExitsWereClear(en, start, ts, i); }
      assert ShownAt(en, start, ts, st.log, run, phase, i);
    } else {
      var i :| 0 <= i < |st.log| && WaivedBy(st.log[i], run, phase);
      assert ShownAt(en, start, ts, st.log, run, phase, i);
    }
  }

  /** A run closes only when it is through, with every phase of its family exited, forced
      or waived and the log showing how; and at most two of them were forced. */
  lemma {:induction false} ClosedRunsAreComplete(en: Engine, start: State, ts: seq<Turn>, i: nat)
    requires PhasesOk(en.spec) && start.run.None? && AllAdmissible(en, start, ts)
    requires
      var st := After(en, start, ts);
      st.run.Some? && CloseStep(en, st).1 == Done && i < |Order(en.spec, st.run.value.family)|
    ensures
      var st := After(en, start, ts);
      var phase := Order(en.spec, st.run.value.family)[i];
      && st.run.value.phase == "" && Accounted(st.run.value, phase)
      && Shown(en, start, ts, st.log, st.run.value.id, phase)
      && CountForces(st.log, st.run.value.id) <= 2
  {
    hide PhasesOk, AllAdmissible, After, Tells, Order, Total, Shown, CloseStep;
    var st := After(en, start, ts);
    assert Reachable(en, st) by { assert ReachedBy(en, start, ts, st); }
    ReachableIsSound(en, st);
    ClosingIsThrough(en, st);
    AccountedIsShown(en, start, ts, Order(en.spec, st.run.value.family)[i]);
    ForcesAreCounted(st.log, st.run.value);
  }
}

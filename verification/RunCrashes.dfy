/** A crash between the events of one command. */
module RunCrashes {
  import opened Values
  import opened Events
  import opened WorkflowSpec
  import opened PhaseOrder
  import opened Retention
  import Approvals
  import opened RunState
  import opened RunTheory
  import opened RunInvariant
  import opened RunSafety
  import opened RunLog
  import opened RunHistory
  import opened RunReplay

  /** A re-derived run in phase order: every phase before its own was exited or waived. */
  predicate Ordered(s: Spec, d: Run) {
    var order := Order(s, d.family);
    && d.family in s.families && (d.phase == "" || d.phase in order)
    && forall i :: 0 <= i < Index(order, d.phase) ==> Accounted(d, order[i])
  }

  /** The log tells a run in phase order. */
  predicate TellsOrdered(s: Spec, log: seq<Event>) {
    Derive(log).Some? && Ordered(s, Derive(log).value)
  }

  /** Neither begins or ends a run nor takes it to a phase. */
  predicate Harmless(e: Event) {
    e.kind != "run" && (e.kind == "phase" ==> e.Text("action") != "enter" && e.Text("action") != "loop")
  }

  lemma HarmlessKeepsOrdered(s: Spec, log: seq<Event>, e: Event)
    requires TellsOrdered(s, log) && Harmless(e)
    ensures TellsOrdered(s, log + [e])
  {
    hide Order, Index;
    var d := Derive(log).value;
    assert (log + [e])[..|log|] == log;
    var d' := Replay(Some(d), e).value;
    assert d'.family == d.family && d'.phase == d.phase;
    assert forall p :: Accounted(d, p) ==> Accounted(d', p);
  }

  lemma {:induction false} AllHarmlessKeepOrdered(s: Spec, log: seq<Event>, more: seq<Event>)
    requires TellsOrdered(s, log) && forall i :: 0 <= i < |more| ==> Harmless(more[i])
    ensures TellsOrdered(s, log + more)
  {
    hide TellsOrdered, Harmless;
    if more == [] {
      assert log + more == log;
    } else {
      AllHarmlessKeepOrdered(s, log, more[..|more| - 1]);
      HarmlessKeepsOrdered(s, log + more[..|more| - 1], more[|more| - 1]);
      assert log + more == (log + more[..|more| - 1]) + [more[|more| - 1]];
    }
  }

  // ---------------------------------------------------------------------------
  // Only a command's last event moves the run
  // ---------------------------------------------------------------------------

  /** From `from` on all events but the last are harmless; the last, if not, leads the run to `phase`. */
  predicate MovesLast(log: seq<Event>, from: nat, run: string, phase: string) {
    && (forall i :: from <= i < |log| - 1 ==> Harmless(log[i]))
    && (from < |log| && !Harmless(log[|log| - 1]) ==>
      var last := log[|log| - 1];
      last.kind == "phase" && last.run == run && last.Text("target") == phase)
  }

  /** No event from `from` on moves the run. */
  predicate NoMoves(log: seq<Event>, from: nat) {
    forall i :: from <= i < |log| ==> Harmless(log[i])
  }

  lemma NoMoveMore(
    en: Engine, st: State, from: nat, r: Run, kind: string, auto: bool, actor: string, data: Fields)
    requires NoMoves(st.log, from) && kind != "run"
    requires kind == "phase" ==> StrField(data, "action") != "enter" && StrField(data, "action") != "loop"
    ensures NoMoves(WithEvent(en, st, r, kind, auto, actor, data).log, from)
  {
  }

  lemma MoveAtLast(
    en: Engine, st: State, from: nat, r: Run, actor: string, data: Fields, phase: string)
    requires NoMoves(st.log, from) && StrField(data, "target") == phase
    ensures MovesLast(WithEvent(en, st, r, "phase", false, actor, data).log, from, r.id, phase)
  {
  }

  lemma NoMovesAtAll(log: seq<Event>, from: nat, run: string, phase: string)
    requires NoMoves(log, from)
    ensures MovesLast(log, from, run, phase)
  {
  }

  lemma NothingMovedYet(log: seq<Event>)
    ensures NoMoves(log, |log|)
  {
  }

  lemma {:induction false} AdvanceMovesLast(en: Engine, st: State, from: nat, r: Run)
    requires NoMoves(st.log, from)
    ensures
      var st' := Advance(en, st, r);
      && st'.run.Some? && st'.run.value.id == r.id
      && MovesLast(st'.log, from, r.id, st'.run.value.phase)
  {
    hide NoMoves, MovesLast, Order, NextUnwaived;
    var next := NextUnwaived(Order(en.spec, r.family), r.phase, r.waived);
    var entered := r.(exited := r.exited + [r.phase], phase := next);
    MoveAtLast(en, st, from, entered, "engine", Aimed("enter", next), next);
    NoMovesAtAll(st.log, from, r.id, "");
  }

  predicate StepMovesLast(st: State, st': State) {
    st'.run.Some? ==> MovesLast(st'.log, |st.log|, st'.run.value.id, st'.run.value.phase)
  }

  lemma {:induction false} ExitMovesLast(en: Engine, st: State, force: bool, reason: string)
    ensures StepMovesLast(st, ExitStep(en, st, force, reason).0)
  {
    hide NoMoves, MovesLast, ExitGate, Advance, Blank, Contains;
    var from := |st.log|;
    NothingMovedYet(st.log);
    if st.run.Some? {
      var r := st.run.value;
      NoMovesAtAll(st.log, from, r.id, r.phase);
      if !force {
        var st1 := WithEvent(en, st, r, "phase", false, "engine", Action("exit"));
        NoMoveMore(en, st, from, r, "phase", false, "engine", Action("exit"));
        AdvanceMovesLast(en, st1, from, r);
      } else if r.forces >= 2 {
        var st1 := WithEvent(en, st, r, "escape", false, "user", ThirdForce());
        NoMoveMore(en, st, from, r, "escape", false, "user", ThirdForce());
        NoMoveMore(en, st1, from, r, "phase", false, "engine", Reasoned("park", "force escalation"));
        var st2 := WithEvent(en, st1, r, "phase", false, "engine", Reasoned("park", "force escalation"));
        NoMovesAtAll(st2.log, from, r.id, r.phase);
      } else {
        var data := Reasoned("force", reason)["level" := Num((r.forces + 1) as real)];
        var st1 := WithEvent(en, st, r, "escape", false, "user", data);
        NoMoveMore(en, st, from, r, "escape", false, "user", data);
        NoMoveMore(en, st1, from, r, "phase", false, "engine", Reasoned("force", reason));
        var st2 := WithEvent(en, st1, r, "phase", false, "engine", Reasoned("force", reason));
        AdvanceMovesLast(en, st2, from, r.(forces := r.forces + 1));
      }
    }
  }

  lemma WaiveMovesLast(en: Engine, st: State, phase: string, reason: string)
    ensures StepMovesLast(st, WaiveStep(en, st, phase, reason).0)
  {
    hide NoMoves, MovesLast, Blank, NextUnwaived, Order, PhaseById;
    var from := |st.log|;
    NothingMovedYet(st.log);
    if st.run.Some? {
      var r := st.run.value;
      NoMovesAtAll(st.log, from, r.id, r.phase);
      var data: Fields := map["action" := Str("waive"), "target" := Str(phase), "reason" := Str(reason)];
      var st1 := WithEvent(en, st, r, "phase", false, "user", data);
      NoMoveMore(en, st, from, r, "phase", false, "user", data);
      NoMovesAtAll(st1.log, from, r.id, r.phase);
      var r1 := r.(waived := r.waived + [phase]);
      var r2 := r1.(phase := NextUnwaived(Order(en.spec, r.family), r1.phase, r1.waived));
      MoveAtLast(en, st1, from, r2, "engine", Aimed("enter", r2.phase), r2.phase);
    }
  }

  lemma LoopMovesLast(en: Engine, st: State, ac: string, cause: string, evidence: string)
    ensures StepMovesLast(st, LoopStep(en, st, ac, cause, evidence).0)
  {
    hide LoopTarget, Blank, SlipsOn, Without;
  }

  lemma RecordMovesLast(en: Engine, st: State, kind: string, data: Fields, auto: bool, actor: string)
    requires kind != "run" && kind != "phase"
    ensures StepMovesLast(st, RecordStep(en, st, kind, data, auto, actor).0)
  {
    hide NormalisedData, ValidClassification;
  }

  lemma ApproveMovesLast(en: Engine, st: State, gate: string, payload: string, carriesCode: string -> bool)
    ensures StepMovesLast(st, ApproveStep(en, st, gate, payload, carriesCode).0)
  {
    hide Approvals.ApprovalData;
  }

  /** A command on a live run writes at most one move, and last. */
  lemma {:induction false} CommandsMoveLast(en: Engine, st: State, c: Command)
    requires Admissible(en, st, c) && !c.Start? && Step(en, st, c).0.run.Some?
    ensures StepMovesLast(st, Step(en, st, c).0)
  {
    hide Order, ExitStep, WaiveStep, LoopStep, RecordStep, ApproveStep, LoopIsSafe, StepMovesLast;
    match c
    case Exit(force, reason) => ExitMovesLast(en, st, force, reason);
    case Waive(phase, why) => WaiveMovesLast(en, st, phase, why);
    case LoopBack(ac, cause, evidence) => LoopMovesLast(en, st, ac, cause, evidence);
    case Record(kind, data, auto, actor) => RecordMovesLast(en, st, kind, data, auto, actor);
    case Approve(gate, payload, carriesCode) => ApproveMovesLast(en, st, gate, payload, carriesCode);
    case Park(because) => ParkMovesLast(en, st, because);
    case Resume => ResumeMovesLast(en, st);
    case Close => CloseMovesNothing(en, st);
  }

  lemma ParkMovesLast(en: Engine, st: State, because: string)
    ensures StepMovesLast(st, ParkStep(en, st, because).0)
  {
    hide Blank;
  }

  lemma ResumeMovesLast(en: Engine, st: State)
    ensures StepMovesLast(st, ResumeStep(en, st).0)
  {
  }

  lemma CloseMovesNothing(en: Engine, st: State)
    ensures StepMovesLast(st, CloseStep(en, st).0)
  {
    hide Order, Retained, Archived;
  }

  // ---------------------------------------------------------------------------
  // Every prefix of what a command writes
  // ---------------------------------------------------------------------------

  /** The log a sound run and its derived account are told from is in phase order as soon as
      the derived phase is a phase of the run. */
  lemma MatchedIsOrdered(s: Spec, d: Run, r: Run)
    requires Placed(s, r) && Matches(d, r) && d.phase == r.phase
    ensures Ordered(s, d)
  {
    hide Order, Index, Waivable;
    assert forall p :: Accounted(r, p) ==> Accounted(d, p);
  }

  /** Wherever a command on a live run is cut short, the log tells a run in phase order. */
  lemma {:induction false} CutShortIsOrdered(en: Engine, st: State, c: Command, k: nat)
    requires PhasesOk(en.spec) && Sound(en, st) && Admissible(en, st, c) && !c.Start?
    requires st.run.Some? && TellsOrdered(en.spec, st.log)
    requires Step(en, st, c).0.run.Some? && k <= |Appended(en, st, c)|
    ensures TellsOrdered(en.spec, st.log + Appended(en, st, c)[..k])
  {
    hide PhasesOk, Sound, Admissible, Step, TellsOrdered, Appended, Closes, Harmless;
    var st', more := Step(en, st, c).0, Appended(en, st, c);
    OnlyLastMoves(en, st, c);
    if k < |more| || more == [] || Harmless(more[|more| - 1]) {
      AllHarmlessKeepOrdered(en.spec, st.log, more[..k]);
    } else {
      assert more[..k] == more;
      StepKeepsSound(en, st, c);
      LastMoveIsOrdered(en, st, st');
    }
  }

  /** All events a command writes but the last are harmless. */
  lemma {:induction false} OnlyLastMoves(en: Engine, st: State, c: Command)
    requires Admissible(en, st, c) && !c.Start? && st.run.Some? && Step(en, st, c).0.run.Some?
    ensures
      var st', more := Step(en, st, c).0, Appended(en, st, c);
      && st'.log == st.log + more && StepMovesLast(st, st')
      && forall i :: 0 <= i < |more| - 1 ==> Harmless(more[i])
  {
    hide Step, Appended, Closes, Harmless, Admissible;
    LiveAfterNoClose(en, st, c);
    StepsLog(en, st, c);
    CommandsMoveLast(en, st, c);
    var st', more := Step(en, st, c).0, Appended(en, st, c);
    assert forall i :: 0 <= i < |more| ==> more[i] == st'.log[|st.log| + i];
  }

  lemma {:induction false} LastMoveIsOrdered(en: Engine, st: State, st': State)
    requires Sound(en, st') && st'.run.Some? && st.log < st'.log
    requires StepMovesLast(st, st') && !Harmless(st'.log[|st'.log| - 1])
    ensures TellsOrdered(en.spec, st'.log)
  {
    hide Placed, Capped, Retell, CountForces;
    var r, d := st'.run.value, Derive(st'.log).value;
    LastMoveTells(st'.log, r);
    MatchedIsOrdered(en.spec, d, r);
  }

  lemma LastMoveTells(log: seq<Event>, r: Run)
    requires log != [] && Derive(log).Some? && Matches(Derive(log).value, r)
    requires
      var last := log[|log| - 1];
      && last.kind == "phase" && last.run == r.id && last.Text("target") == r.phase
      && (last.Text("action") == "enter" || last.Text("action") == "loop")
    ensures Derive(log).value.phase == r.phase
  {
  }

  // ---------------------------------------------------------------------------
  // Starts
  // ---------------------------------------------------------------------------

  lemma StartWritesTwo(en: Engine, st: State, id: string, family: string, intent: string)
    requires StartStep(en, st, id, family, intent).1 == Done
    ensures
      var more := Appended(en, st, Start(id, family, intent));
      && |more| == 2
      && more[0].kind == "run" && more[0].run == id && more[0].Text("action") == "start"
      && more[0].Text("family") == family && more[0].Text("intent") == intent
      && IsPhaseAction(more[1], id, "enter") && more[1].Text("target") == Order(en.spec, family)[0]
  {
    hide Order;
  }

  lemma FirstIsFirst(order: seq<string>)
    requires order != []
    ensures Index(order, order[0]) == 0
  {
  }

  /** A start cut short after its first event leaves a log that tells a run through all its
      phases, none of which it left. */
  lemma {:induction false} StartCutShort(en: Engine, st: State, id: string, family: string, intent: string, k: nat)
    requires StartStep(en, st, id, family, intent).1 == Done && "" !in Order(en.spec, family) && 1 <= k <= 2
    ensures TellsOrdered(en.spec, st.log + Appended(en, st, Start(id, family, intent))[..k]) <==> k == 2
  {
    hide Order, Appended;
    var more, order := Appended(en, st, Start(id, family, intent)), Order(en.spec, family);
    StartWritesTwo(en, st, id, family, intent);
    var log1, log2 := st.log + [more[0]], (st.log + [more[0]]) + [more[1]];
    assert more[..1] == [more[0]] && more[..2] == more && st.log + more == log2;
    assert log1[..|st.log|] == st.log && log2[..|log1|] == log1;
    var d := Run(id, family, intent, "", Active, 0, map[], 0, [], []);
    assert Derive(log1) == Some(d);
    assert Derive(log2) == Some(d.(phase := order[0]));
    FirstIsFirst(order);
    assert Index(order, "") == |order| && !Accounted(d, order[0]);
  }

  // ---------------------------------------------------------------------------
  // Whole runs
  // ---------------------------------------------------------------------------

  ghost predicate LiveOrdered(en: Engine, st: State) {
    st.run.Some? ==> TellsOrdered(en.spec, st.log)
  }

  lemma {:induction false} StepKeepsOrdered(en: Engine, st: State, c: Command)
    requires PhasesOk(en.spec) && Sound(en, st) && Admissible(en, st, c) && LiveOrdered(en, st)
    ensures LiveOrdered(en, Step(en, st, c).0)
  {
    hide PhasesOk, Sound, Step, TellsOrdered, Appended, Closes;
    if Step(en, st, c).0.run.Some? {
      LiveAfterNoClose(en, st, c);
      StepsLog(en, st, c);
      if c.Start? {
        StartKeepsOrdered(en, st, c);
      } else {
        RunsKeepTheirId(en, st, c);
        CutShortIsOrdered(en, st, c, |Appended(en, st, c)|);
        assert Appended(en, st, c)[..|Appended(en, st, c)|] == Appended(en, st, c);
      }
    }
  }

  lemma {:induction false} StartKeepsOrdered(en: Engine, st: State, c: Command)
    requires c.Start? && Admissible(en, st, c) && LiveOrdered(en, st)
    ensures LiveOrdered(en, Step(en, st, c).0)
  {
    hide Order, TellsOrdered, Appended, StartStep;
    if StartStep(en, st, c.id, c.family, c.intent).1 == Done {
      StepsLog(en, st, c);
      StartWritesTwo(en, st, c.id, c.family, c.intent);
      StartCutShort(en, st, c.id, c.family, c.intent, 2);
      assert Appended(en, st, c)[..2] == Appended(en, st, c);
    } else {
      RefusedStart(en, st, c);
    }
  }

  lemma RefusedStart(en: Engine, st: State, c: Command)
    requires c.Start? && StartStep(en, st, c.id, c.family, c.intent).1 != Done
    ensures Step(en, st, c).0 == st
  {
    hide Order;
  }

  lemma TellsOrderedByFrame(s: Spec, s': Spec, log: seq<Event>)
    requires SameFrame(s, s')
    ensures TellsOrdered(s', log) <==> TellsOrdered(s, log)
  {
    if Derive(log).Some? { OrderByFrame(s, s', Derive(log).value.family); }
    hide Order, Index;
  }

  lemma {:induction false} TurnKeepsOrdered(en: Engine, st: State, t: Turn)
    requires PhasesOk(en.spec) && Sound(en, st) && Allowed(en, st, t) && LiveOrdered(en, st)
    ensures LiveOrdered(en, Taken(en, st, t).0)
  {
    hide PhasesOk, Sound, Step, Admissible, Seen, TellsOrdered;
    var seen := Seen(en, t.sight);
    SoundInAnySight(en, t.sight, st);
    SightKeepsFrame(en, t.sight);
    TellsOrderedByFrame(en.spec, seen.spec, st.log);
    StepKeepsOrdered(seen, st, t.cmd);
    TellsOrderedByFrame(en.spec, seen.spec, Taken(en, st, t).0.log);
  }

  lemma {:induction false} RunsStayOrdered(en: Engine, st: State, ts: seq<Turn>)
    requires PhasesOk(en.spec) && Sound(en, st) && LiveOrdered(en, st) && AllAdmissible(en, st, ts)
    ensures LiveOrdered(en, After(en, st, ts))
    decreases |ts|
  {
    hide PhasesOk, Sound, Taken, Allowed, LiveOrdered;
    if ts != [] {
      TurnKeepsSound(en, st, ts[0]);
      TurnKeepsOrdered(en, st, ts[0]);
      RunsStayOrdered(en, Taken(en, st, ts[0]).0, ts[1..]);
    }
  }

  /** A command on a reachable state cut short after any of its events: as long as a run is
      still told, it is told in phase order, so that no phase comes before an earlier one was
      exited or waived. The exception is a start cut short between its two events. */
  lemma {:induction false} CrashesKeepPhaseOrder(en: Engine, start: State, ts: seq<Turn>, t: Turn, k: nat)
    requires PhasesOk(en.spec) && start.run.None? && AllAdmissible(en, start, ts)
    requires Allowed(en, After(en, start, ts), t) && Taken(en, After(en, start, ts), t).0.run.Some?
    requires
      var st := After(en, start, ts);
      (st.run.Some? || k > 0) && k <= |Appended(Seen(en, t.sight), st, t.cmd)|
    ensures
      var st := After(en, start, ts);
      var log := st.log + Appended(Seen(en, t.sight), st, t.cmd)[..k];
      TellsOrdered(en.spec, log) <==> !(t.cmd.Start? && k == 1)
  {
    hide PhasesOk, Sound, AllAdmissible, After, Step, Admissible, Seen, TellsOrdered, Appended;
    var st, seen := After(en, start, ts), Seen(en, t.sight);
    SoundWithoutRun(en, start);
    RunsAreSound(en, start, ts);
    RunsStayOrdered(en, start, ts);
    SoundInAnySight(en, t.sight, st);
    SightKeepsFrame(en, t.sight);
    TellsOrderedByFrame(en.spec, seen.spec, st.log);
    TellsOrderedByFrame(en.spec, seen.spec, st.log + Appended(seen, st, t.cmd)[..k]);
    if t.cmd.Start? {
      StartedCrash(seen, st, t.cmd, k);
    } else {
      RunsKeepTheirId(seen, st, t.cmd);
      CutShortIsOrdered(seen, st, t.cmd, k);
    }
  }

  lemma {:induction false} StartedCrash(en: Engine, st: State, c: Command, k: nat)
    requires c.Start? && Admissible(en, st, c) && LiveOrdered(en, st)
    requires (st.run.Some? || k > 0) && k <= |Appended(en, st, c)|
    ensures TellsOrdered(en.spec, st.log + Appended(en, st, c)[..k]) <==> k != 1
  {
    hide Order, TellsOrdered, StartStep;
    if k == 0 {
      assert st.log + Appended(en, st, c)[..0] == st.log;
    } else {
      hide Appended;
      if StartStep(en, st, c.id, c.family, c.intent).1 == Done {
        StartWritesTwo(en, st, c.id, c.family, c.intent);
        StartCutShort(en, st, c.id, c.family, c.intent, k);
      } else {
        RefusedWritesNothing(en, st, c);
      }
    }
  }

  lemma RefusedWritesNothing(en: Engine, st: State, c: Command)
    requires c.Start? && StartStep(en, st, c.id, c.family, c.intent).1 != Done
    ensures Appended(en, st, c) == []
  {
    hide StartStep;
    RefusedStart(en, st, c);
  }

  lemma ClosingEvent(en: Engine, st: State)
    requires Closes(en, st, Close)
    ensures
      var more := Appended(en, st, Close);
      && |more| == 1 && more[0].kind == "run" && more[0].Text("action") == "close" && more[0].run == st.run.value.id
  {
    hide Retained, Archived, Order;
    var log := WithEvent(en, st, st.run.value, "run", false, "engine", Action("close")).log;
    assert log[|st.log|..] == [log[|st.log|]];
  }

  /** A close cut short after its event, the log not yet split, tells no run; before it, the
      run in phase order. */
  lemma {:induction false} CloseCutShort(en: Engine, start: State, ts: seq<Turn>, t: Turn, k: nat)
    requires PhasesOk(en.spec) && start.run.None? && AllAdmissible(en, start, ts)
    requires Closes(Seen(en, t.sight), After(en, start, ts), t.cmd)
    requires k <= |Appended(Seen(en, t.sight), After(en, start, ts), t.cmd)|
    ensures
      var st := After(en, start, ts);
      var log := st.log + Appended(Seen(en, t.sight), st, t.cmd)[..k];
      if k == 0 then TellsOrdered(en.spec, log) else Derive(log).None?
  {
    hide PhasesOk, Sound, AllAdmissible, After, Seen, TellsOrdered, Appended, Derive;
    var st, seen := After(en, start, ts), Seen(en, t.sight);
    SoundWithoutRun(en, start);
    RunsAreSound(en, start, ts);
    RunsStayOrdered(en, start, ts);
    var more := Appended(seen, st, t.cmd);
    ClosingEvent(seen, st);
    if k == 0 {
      assert st.log + more[..0] == st.log;
    } else {
      assert more[..k] == [more[0]];
      ClosingEnds(st.log, more[0]);
      LiveIsTold(en, st);
    }
  }

  lemma LiveIsTold(en: Engine, st: State)
    requires Sound(en, st) && st.run.Some?
    ensures Derive(st.log).Some? && Derive(st.log).value.id == st.run.value.id
  {
    hide Placed, Capped, Derive, Retell, CountForces;
  }
}

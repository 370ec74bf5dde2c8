/** What holds of every run, from any log and any admissible sequence of commands. */
module RunSafety {
  import opened Values
  import opened Events
  import opened WorkflowSpec
  import opened PhaseOrder
  import opened Contracts
  import Approvals
  import opened RunState
  import opened RunTheory
  import opened RunInvariant

  /** States reached from an arbitrary log without a live run. */
  ghost predicate Reachable(en: Engine, st: State) {
    exists start, ts :: ReachedBy(en, start, ts, st)
  }

  ghost predicate ReachedBy(en: Engine, start: State, ts: seq<Turn>, st: State) {
    start.run.None? && AllAdmissible(en, start, ts) && st == After(en, start, ts)
  }

  lemma ReachableIsSound(en: Engine, st: State)
    requires PhasesOk(en.spec) && Reachable(en, st)
    ensures Sound(en, st)
  {
    hide PhasesOk, Sound, AllAdmissible, After;
    var start, ts :| ReachedBy(en, start, ts, st);
    assert Sound(en, start) by { SoundWithoutRun(en, start); }
    RunsAreSound(en, start, ts);
  }

  lemma SoundWithoutRun(en: Engine, st: State)
    requires st.run.None?
    ensures Sound(en, st)
  {
  }

  // ---------------------------------------------------------------------------
  // Re-derivation
  // ---------------------------------------------------------------------------

  /** Re-deriving the log gives the live snapshot, as far as it is preserved. */
  predicate Agrees(st: State) {
    st.run.Some? && Derive(st.log).Some? && Matches(Derive(st.log).value, st.run.value)
  }

  /** The log of a live run tells its snapshot again. */
  lemma SnapshotIsDerivable(en: Engine, st: State)
    requires PhasesOk(en.spec) && Reachable(en, st) && st.run.Some?
    ensures Agrees(st)
  {
    hide PhasesOk, Reachable, Placed, Capped, Matches;
    ReachableIsSound(en, st);
  }

  /** The log determines the whole snapshot: mending the three omissions of re-derivation
      gives it back in every field. */
  lemma {:induction false} LogDeterminesRun(en: Engine, st: State)
    requires PhasesOk(en.spec) && Reachable(en, st) && st.run.Some?
    ensures Retell(st.log) == st.run
  {
    hide PhasesOk, Reachable, Placed, Capped, Matches, Retell;
    ReachableIsSound(en, st);
  }

  /** The write-time checks leave family and intent of a classification as they are. */
  ghost predicate KeepsCalls(en: Engine) {
    forall data: Fields, auto: bool :: en.validate("classification", data, auto).Some? ==>
      var checked := en.validate("classification", data, auto).value;
      StrField(checked, "family") == StrField(data, "family") && StrField(checked, "intent") == StrField(data, "intent")
  }

  /** The data, if of a classification, says what the run already is. */
  predicate Confirms(r: Run, kind: string, data: Fields) {
    kind == "classification" ==> StrField(data, "family") == r.family && StrField(data, "intent") == r.intent
  }

  /** A record keeps the log telling the snapshot exactly when the data given does not
      correct the run's family or intent. */
  lemma {:induction false} AgreementSurvivesRecordIff(
    en: Engine, st: State, kind: string, data: Fields, auto: bool, actor: string)
    requires st.run.Some? && Agrees(st) && kind != "run" && kind != "phase" && KeepsCalls(en)
    requires RecordStep(en, st, kind, data, auto, actor).1 == Done
    ensures Agrees(RecordStep(en, st, kind, data, auto, actor).0) <==> Confirms(st.run.value, kind, data)
  {
    hide NormalisedData, ValidClassification, Matches;
    var r := st.run.value;
    var normalised := NormalisedData(en, st, r, RecordKindByName(en.spec.records, kind).value, data).value;
    CallIsKept(en, st, r, RecordKindByName(en.spec.records, kind).value, data);
    var checked := en.validate(kind, normalised, auto).value;
    var st' := RecordStep(en, st, kind, data, auto, actor).0;
    assert st'.log[..|st'.log| - 1] == st.log;
    assert Derive(st'.log) == Derive(st.log);
    OnlyCallsMatter(Derive(st.log).value, r, Reclassified(r, kind, checked));
  }

  lemma CallIsKept(en: Engine, st: State, r: Run, k: RecordKind, data: Fields)
    requires NormalisedData(en, st, r, k, data).Ok?
    ensures
      var normalised := NormalisedData(en, st, r, k, data).value;
      && StrField(normalised, "family") == StrField(data, "family")
      && StrField(normalised, "intent") == StrField(data, "intent")
  {
    hide UpdateFolding.Resolve, Required;
  }

  lemma OnlyCallsMatter(d: Run, r: Run, r': Run)
    requires Matches(d, r) && r' == r.(family := r'.family, intent := r'.intent)
    ensures Matches(d, r') <==> r'.family == r.family && r'.intent == r.intent
  {
  }

  // ---------------------------------------------------------------------------
  // Phase order
  // ---------------------------------------------------------------------------

  /** No phase is reached before every earlier one was exited, forced or waived. */
  lemma EarlierPhasesAreAccounted(en: Engine, st: State, i: nat)
    requires PhasesOk(en.spec) && Reachable(en, st) && st.run.Some?
    requires i < Index(Order(en.spec, st.run.value.family), st.run.value.phase)
    ensures Accounted(st.run.value, Order(en.spec, st.run.value.family)[i])
  {
    hide PhasesOk, Reachable, Capped, Tells;
    ReachableIsSound(en, st);
  }

  predicate LeftBy(e: Event, run: string, phase: string) {
    (IsPhaseAction(e, run, "exit") || IsPhaseAction(e, run, "force")) && e.phase == phase
  }

  predicate WaivedBy(e: Event, run: string, phase: string) {
    IsPhaseAction(e, run, "waive") && e.Text("target") == phase
  }

  ghost predicate LeaveRecorded(log: seq<Event>, run: string, phase: string) {
    exists i :: 0 <= i < |log| && LeftBy(log[i], run, phase)
  }

  ghost predicate WaiverRecorded(log: seq<Event>, run: string, phase: string) {
    exists i :: 0 <= i < |log| && WaivedBy(log[i], run, phase)
  }

  lemma RecordedStays(log: seq<Event>, e: Event, run: string, phase: string)
    ensures LeaveRecorded(log, run, phase) || LeftBy(e, run, phase) ==> LeaveRecorded(log + [e], run, phase)
    ensures WaiverRecorded(log, run, phase) || WaivedBy(e, run, phase) ==> WaiverRecorded(log + [e], run, phase)
  {
    hide LeftBy, WaivedBy;
    var more := log + [e];
    assert forall i :: 0 <= i < |log| ==> more[i] == log[i];
    assert more[|log|] == e;
  }

  /** What an event adds to the re-derived exits and waivers, it records. */
  lemma ReplayAddsRecorded(d: Run, e: Event, phase: string)
    requires Replay(Some(d), e).Some? && Replay(Some(d), e).value.id == d.id
    ensures
      var d' := Replay(Some(d), e).value;
      && (phase in d'.exited ==> phase in d.exited || LeftBy(e, d.id, phase))
      && (phase in d'.waived ==> phase in d.waived || WaivedBy(e, d.id, phase))
  {
  }

  lemma StartsEmpty(d: Option<Run>, e: Event)
    ensures
      var d' := Replay(d, e);
      d'.Some? && (d.None? || d'.value.id != d.value.id) ==> d'.value.exited == [] && d'.value.waived == []
  {
  }

  /** Every re-derived exit or waiver has its event in the log. */
  lemma {:induction false} DerivedPhasesAreRecorded(log: seq<Event>, phase: string)
    requires Derive(log).Some?
    ensures phase in Derive(log).value.exited ==> LeaveRecorded(log, Derive(log).value.id, phase)
    ensures phase in Derive(log).value.waived ==> WaiverRecorded(log, Derive(log).value.id, phase)
  {
    hide Replay, LeaveRecorded, WaiverRecorded, LeftBy, WaivedBy;
    var init, e := log[..|log| - 1], log[|log| - 1];
    assert init + [e] == log;
    var before, after := Derive(init), Derive(log).value;
    StartsEmpty(before, e);
    if before.Some? && before.value.id == after.id {
      DerivedPhasesAreRecorded(init, phase);
      ReplayAddsRecorded(before.value, e, phase);
      RecordedStays(init, e, after.id, phase);
    }
  }

  lemma {:induction false} ClosingIsThrough(en: Engine, st: State)
    requires PhasesOk(en.spec) && st.run.Some? && Placed(en.spec, st.run.value) && CloseStep(en, st).1 == Done
    ensures st.run.value.phase == ""
    ensures
      var order := Order(en.spec, st.run.value.family);
      Index(order, st.run.value.phase) == |order|
  {
    hide PhasesOk, Order;
    OrderIsDistinct(en.spec, st.run.value.family);
  }

  lemma ForcesAreCounted(log: seq<Event>, r: Run)
    requires Tells(log, r)
    ensures CountForces(log, r.id) == r.forces
  {
  }

  // ---------------------------------------------------------------------------
  // Bounded runs
  // ---------------------------------------------------------------------------

  /** Loops left, weighed by a whole lap, plus phases left. */
  ghost function Potential(s: Spec, r: Run): int {
    var n := |Order(s, r.family)|;
    (AtLeastZero(s.loops.maxPerRun) - r.loops) * (n + 1) + (n - Index(Order(s, r.family), r.phase))
  }

  /** Either no loop was taken and the run did not go back, or one more loop was. */
  ghost predicate Progress(s: Spec, r: Run, r': Run) {
    var order := Order(s, r.family);
    && r'.family == r.family
    && ((r'.loops == r.loops && (r'.phase == r.phase || Index(order, r'.phase) > Index(order, r.phase)))
        || (r'.loops == r.loops + 1 && r.loops < AtLeastZero(s.loops.maxPerRun)))
  }

  lemma {:induction false} ProgressPays(s: Spec, r: Run, r': Run)
    requires Progress(s, r, r')
    ensures Potential(s, r') <= Potential(s, r)
    ensures r'.phase != r.phase ==> Potential(s, r') < Potential(s, r)
  {
    hide Order, Index;
    var n := |Order(s, r.family)|;
    var k := AtLeastZero(s.loops.maxPerRun);
    if r'.loops == r.loops + 1 {
      assert (k - r'.loops) * (n + 1) == (k - r.loops) * (n + 1) - (n + 1);
    }
  }

  predicate AtPhase(s: Spec, r: Run) {
    r.family in s.families && "" !in Order(s, r.family) && (r.phase == "" || r.phase in Order(s, r.family))
  }

  lemma {:induction false} NextProgresses(s: Spec, r: Run, r': Run, waived: seq<string>)
    requires PhasesOk(s) && AtPhase(s, r)
    requires r'.family == r.family && r'.loops == r.loops
    requires r'.phase == NextUnwaived(Order(s, r.family), r.phase, waived)
    ensures Progress(s, r, r')
  {
    hide Order, NextUnwaived, Index;
    OrderIsDistinct(s, r.family);
    var k := NextUnwaivedSkips(Order(s, r.family), r.phase, waived);
    if r.phase !in Order(s, r.family) { NameOfEnd(Order(s, r.family), r.phase, waived); }
  }

  lemma NameOfEnd(order: seq<string>, cur: string, waived: seq<string>)
    requires cur !in order
    ensures NextUnwaived(order, cur, waived) == ""
  {
  }

  lemma StayingProgresses(s: Spec, r: Run, r': Run)
    requires r'.family == r.family && r'.loops == r.loops && r'.phase == r.phase
    ensures Progress(s, r, r')
  {
    hide Order;
  }

  lemma ExitStaysOrAdvances(en: Engine, st: State, force: bool, reason: string)
    requires st.run.Some?
    ensures
      var r, after := st.run.value, ExitStep(en, st, force, reason).0.run;
      && after.Some? && after.value.family == r.family && after.value.loops == r.loops
      && after.value.phase in {r.phase, NextUnwaived(Order(en.spec, r.family), r.phase, r.waived)}
  {
    hide Order, NextUnwaived, ExitGate, Blank, Contains;
  }

  lemma {:induction false} ExitProgresses(en: Engine, st: State, force: bool, reason: string)
    requires PhasesOk(en.spec) && st.run.Some? && AtPhase(en.spec, st.run.value)
    ensures
      var st' := ExitStep(en, st, force, reason).0;
      st'.run.Some? && Progress(en.spec, st.run.value, st'.run.value)
  {
    hide PhasesOk, Order, NextUnwaived, ExitGate, Index, Blank, Contains, Advance, Progress;
    ExitStaysOrAdvances(en, st, force, reason);
    var r, r' := st.run.value, ExitStep(en, st, force, reason).0.run.value;
    if r'.phase != r.phase { NextProgresses(en.spec, r, r', r.waived); }
    else { StayingProgresses(en.spec, r, r'); }
  }

  lemma {:induction false} WaiveProgresses(en: Engine, st: State, phase: string, reason: string)
    requires PhasesOk(en.spec) && st.run.Some? && AtPhase(en.spec, st.run.value)
    ensures
      var st' := WaiveStep(en, st, phase, reason).0;
      st'.run.Some? && Progress(en.spec, st.run.value, st'.run.value)
  {
    hide PhasesOk, Order, NextUnwaived, Index, Blank, PhaseById;
    var r, r' := st.run.value, WaiveStep(en, st, phase, reason).0.run.value;
    if r'.phase != r.phase { NextProgresses(en.spec, r, r', r.waived + [phase]); }
  }

  lemma LoopProgresses(en: Engine, st: State, ac: string, cause: string, evidence: string)
    requires st.run.Some?
    ensures
      var st' := LoopStep(en, st, ac, cause, evidence).0;
      st'.run.Some? && Progress(en.spec, st.run.value, st'.run.value)
  {
    hide Order, LoopTarget, Blank, Index, Without;
  }

  lemma RecordsStay(en: Engine, st: State, kind: string, data: Fields, auto: bool, actor: string)
    requires st.run.Some? && Admissible(en, st, Record(kind, data, auto, actor))
    ensures RecordStep(en, st, kind, data, auto, actor).0.run == st.run
  {
    hide NormalisedData, ValidClassification;
  }

  lemma ApprovalsStay(en: Engine, st: State, gate: string, payload: string, carriesCode: string -> bool)
    ensures ApproveStep(en, st, gate, payload, carriesCode).0.run == st.run
  {
    hide Approvals.ApprovalData;
  }

  lemma {:induction false} StepProgresses(en: Engine, st: State, c: Command)
    requires PhasesOk(en.spec) && Sound(en, st) && Admissible(en, st, c) && st.run.Some?
    requires
      var st' := Step(en, st, c).0;
      st'.run.Some? && st'.run.value.id == st.run.value.id
    ensures Progress(en.spec, st.run.value, Step(en, st, c).0.run.value)
  {
    hide PhasesOk, Order, Tells, Index, ExitStep, WaiveStep, LoopStep, RecordStep, LoopIsSafe, ApproveStep, Blank;
    match c
    case Exit(force, reason) => ExitProgresses(en, st, force, reason);
    case Waive(phase, why) => WaiveProgresses(en, st, phase, why);
    case LoopBack(ac, cause, evidence) => LoopProgresses(en, st, ac, cause, evidence);
    case Record(kind, data, auto, actor) => RecordsStay(en, st, kind, data, auto, actor);
    case Approve(gate, payload, carriesCode) => ApprovalsStay(en, st, gate, payload, carriesCode);
    case _ =>
  }

  lemma {:induction false} TurnProgresses(en: Engine, st: State, t: Turn)
    requires PhasesOk(en.spec) && Sound(en, st) && Allowed(en, st, t) && st.run.Some?
    requires
      var st' := Taken(en, st, t).0;
      st'.run.Some? && st'.run.value.id == st.run.value.id
    ensures Progress(en.spec, st.run.value, Taken(en, st, t).0.run.value)
  {
    hide PhasesOk, Sound, Step, Admissible, Seen, Progress;
    SoundInAnySight(en, t.sight, st);
    StepProgresses(Seen(en, t.sight), st, t.cmd);
    SightKeepsFrame(en, t.sight);
    ProgressByFrame(en.spec, Seen(en, t.sight).spec, st.run.value, Taken(en, st, t).0.run.value);
  }

  lemma ProgressByFrame(s: Spec, s': Spec, r: Run, r': Run)
    requires SameFrame(s, s') && Progress(s', r, r')
    ensures Progress(s, r, r')
  {
    OrderByFrame(s, s', r.family);
    hide Order, Index;
  }

  /** The phase changes of the live run over a sequence of commands. */
  function Moves(en: Engine, st: State, ts: seq<Turn>): nat
    decreases |ts|
  {
    if ts == [] || st.run.None? then 0
    else
      var st' := Taken(en, st, ts[0]).0;
      if st'.run.None? || st'.run.value.id != st.run.value.id then 0
      else (if st'.run.value.phase != st.run.value.phase then 1 else 0) + Moves(en, st', ts[1..])
  }

  lemma {:induction false} MovesArePaid(en: Engine, st: State, ts: seq<Turn>)
    requires PhasesOk(en.spec) && Sound(en, st) && AllAdmissible(en, st, ts) && st.run.Some?
    ensures Moves(en, st, ts) <= Potential(en.spec, st.run.value)
    decreases |ts|
  {
    hide PhasesOk, Taken, Allowed, Progress, Placed, Tells;
    PotentialIsNatural(en.spec, st.run.value);
    if ts != [] {
      var st' := Taken(en, st, ts[0]).0;
      TurnKeepsSound(en, st, ts[0]);
      if st'.run.Some? && st'.run.value.id == st.run.value.id {
        TurnProgresses(en, st, ts[0]);
        ProgressPays(en.spec, st.run.value, st'.run.value);
        MovesArePaid(en, st', ts[1..]);
      }
    }
  }

  lemma {:induction false} PotentialIsNatural(s: Spec, r: Run)
    requires Capped(s, r)
    ensures Potential(s, r) >= 0
  {
    hide Order;
    assert (AtLeastZero(s.loops.maxPerRun) - r.loops) * (|Order(s, r.family)| + 1) >= 0;
  }

  /** A run over n phases with at most K loops changes phase at most (K+1)*n + K times,
      however it is parked, resumed, waived, forced or looped. */
  lemma {:induction false} MovesAreBounded(
    en: Engine, st: State, sight: Sight, id: string, family: string, intent: string, ts: seq<Turn>)
    requires PhasesOk(en.spec) && Sound(en, st)
    requires AllAdmissible(en, st, [Turn(sight, Start(id, family, intent))] + ts)
    requires StartStep(Seen(en, sight), st, id, family, intent).1 == Done
    ensures
      var n, k := |Order(en.spec, family)|, AtLeastZero(en.spec.loops.maxPerRun);
      Moves(en, StartStep(Seen(en, sight), st, id, family, intent).0, ts) <= (k + 1) * n + k
  {
    hide PhasesOk, Sound, Order, Moves, Admissible, Seen;
    var start := Turn(sight, Start(id, family, intent));
    assert ([start] + ts)[0] == start && ([start] + ts)[1..] == ts;
    var st' := Taken(en, st, start).0;
    TurnKeepsSound(en, st, start);
    MovesArePaid(en, st', ts);
    SightKeepsFrame(en, sight);
    OrderByFrame(en.spec, Seen(en, sight).spec, family);
    var n, k := |Order(en.spec, family)|, AtLeastZero(en.spec.loops.maxPerRun);
    assert Index(Order(en.spec, family), st'.run.value.phase) == 0;
    assert k * (n + 1) + n == (k + 1) * n + k;
  }

  /** Slip loops stay under their per-criterion cap and within the loops of the run. */
  lemma SlipsAreCapped(en: Engine, st: State, ac: string)
    requires PhasesOk(en.spec) && Reachable(en, st) && st.run.Some?
    ensures ac in st.run.value.slipByAC ==> st.run.value.slipByAC[ac] <= en.spec.loops.maxSlipPerAC
    ensures Total(st.run.value.slipByAC) <= st.run.value.loops <= AtLeastZero(en.spec.loops.maxPerRun)
  {
    hide PhasesOk, Reachable, Placed, Tells, Total;
    ReachableIsSound(en, st);
  }
}

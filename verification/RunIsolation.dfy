/** A run goes by its own events: what other runs left in the log changes nothing. */
module RunIsolation {
  import opened Values
  import opened Sifting
  import opened Events
  import opened WorkflowSpec
  import opened PhaseOrder
  import opened RunState
  import opened Retention
  import opened RunLog
  import Approvals

  // ---------------------------------------------------------------------------
  // The events of a run
  // ---------------------------------------------------------------------------

  /** `own` lists, in order and without omission, the events of the run. */
  ghost predicate OwnEvents(log: seq<Event>, run: string, own: seq<Event>) {
    Sifted(log, (e: Event) => e.run == run, own)
  }

  lemma {:induction false} OfRunIsOwn(log: seq<Event>, run: string)
    ensures OwnEvents(log, run, OfRun(log, run))
  {
    if log == [] {
      NothingSifted((e: Event) => e.run == run);
    } else {
      OfRunIsOwn(log[..|log| - 1], run);
      SiftOneMore(log, (e: Event) => e.run == run, OfRun(log[..|log| - 1], run));
      assert OfRun(log[..|log| - 1], run) + [] == OfRun(log[..|log| - 1], run);
    }
  }

  lemma OwnIsOfRun(log: seq<Event>, run: string, own: seq<Event>)
    requires OwnEvents(log, run, own)
    ensures own == OfRun(log, run)
  {
    OfRunIsOwn(log, run);
    SiftedIsUnique(log, (e: Event) => e.run == run, own, OfRun(log, run));
  }

  lemma {:induction false} StrangerInserted(x: seq<Event>, e: Event, y: seq<Event>, run: string)
    requires e.run != run
    ensures OfRun((x + [e]) + y, run) == OfRun(x + y, run)
  {
    if y == [] {
      assert (x + [e]) + y == x + [e] && x + y == x;
      assert (x + [e])[..|x|] == x;
    } else {
      var init := y[..|y| - 1];
      StrangerInserted(x, e, init, run);
      assert ((x + [e]) + y)[..|x| + |y|] == (x + [e]) + init && (x + y)[..|x| + |init|] == x + init;
    }
  }

  // ---------------------------------------------------------------------------
  // Steps
  // ---------------------------------------------------------------------------

  /** What a step left, had it begun on another log. */
  function Rebased(before: seq<Event>, after: State, log: seq<Event>): State {
    after.(log := log + if |before| <= |after.log| then after.log[|before|..] else [])
  }

  lemma EventRebased(
    en: Engine, before: seq<Event>, mid: State, log: seq<Event>, r: Run, kind: string, auto: bool, actor: string,
    data: Fields)
    requires |before| <= |mid.log|
    ensures
      WithEvent(en, Rebased(before, mid, log), r, kind, auto, actor, data)
      == Rebased(before, WithEvent(en, mid, r, kind, auto, actor, data), log)
  {
    var after := WithEvent(en, mid, r, kind, auto, actor, data);
    assert after.log[|before|..] == mid.log[|before|..] + [after.log[|mid.log|]];
  }

  lemma NothingRebased(st: State, log: seq<Event>)
    ensures Rebased(st.log, st, log) == st.(log := log)
  {
    assert log + [] == log;
  }

  lemma RunRebased(before: seq<Event>, mid: State, log: seq<Event>, run: Option<Run>)
    ensures Rebased(before, mid.(run := run), log) == Rebased(before, mid, log).(run := run)
  {
  }

  lemma {:induction false} AdvanceRebased(en: Engine, before: seq<Event>, mid: State, log: seq<Event>, r: Run)
    requires |before| <= |mid.log|
    ensures Advance(en, Rebased(before, mid, log), r) == Rebased(before, Advance(en, mid, r), log)
  {
    hide Order, NextUnwaived, Rebased;
    var left := r.(exited := r.exited + [r.phase]);
    var next := NextUnwaived(Order(en.spec, r.family), r.phase, r.waived);
    var entered := left.(phase := next);
    EventRebased(en, before, mid, log, entered, "phase", false, "engine", Aimed("enter", next));
    RunRebased(before, mid, log, Some(entered));
    RunRebased(before, WithEvent(en, mid, entered, "phase", false, "engine", Aimed("enter", next)), log, Some(entered));
  }

  predicate SameOwn(st: State, log: seq<Event>) {
    st.run.Some? && OfRun(log, st.run.value.id) == OfRun(st.log, st.run.value.id)
  }

  /** The step on the other log does the same. */
  predicate Same(st: State, log: seq<Event>, a: Outcome, b: Outcome) {
    b == (Rebased(st.log, a.0, log), a.1)
  }

  lemma GateIsSame(en: Engine, st: State, log: seq<Event>)
    requires SameOwn(st, log)
    ensures ExitGate(en, log, st.run.value) == ExitGate(en, st.log, st.run.value)
  {
    hide OfRun, Order, NextUnwaived;
  }

  lemma {:induction false} ExitIsSame(en: Engine, st: State, log: seq<Event>, force: bool, reason: string)
    requires SameOwn(st, log)
    ensures Same(st, log, ExitStep(en, st, force, reason), ExitStep(en, st.(log := log), force, reason))
  {
    hide Advance, Rebased, Order, NextUnwaived, Blank, Contains, OfRun;
    var r := st.run.value;
    NothingRebased(st, log);
    var data := Reasoned("force", reason)["level" := Num((r.forces + 1) as real)];
    if r.status != Active {
    } else if !force {
      GateIsSame(en, st, log);
      hide ExitGate;
      EventRebased(en, st.log, st, log, r, "phase", false, "engine", Action("exit"));
      AdvanceRebased(en, st.log, WithEvent(en, st, r, "phase", false, "engine", Action("exit")), log, r);
    } else if r.forces >= 2 {
      var st1 := WithEvent(en, st, r, "escape", false, "user", ThirdForce());
      EventRebased(en, st.log, st, log, r, "escape", false, "user", ThirdForce());
      EventRebased(en, st.log, st1, log, r, "phase", false, "engine", Reasoned("park", "force escalation"));
      RunRebased(st.log, WithEvent(en, st1, r, "phase", false, "engine", Reasoned("park", "force escalation")), log,
                 Some(r.(status := Parked)));
    } else {
      var st1 := WithEvent(en, st, r, "escape", false, "user", data);
      EventRebased(en, st.log, st, log, r, "escape", false, "user", data);
      EventRebased(en, st.log, st1, log, r, "phase", false, "engine", Reasoned("force", reason));
      var st2 := WithEvent(en, st1, r, "phase", false, "engine", Reasoned("force", reason));
      AdvanceRebased(en, st.log, st2, log, r.(forces := r.forces + 1));
    }
  }

  lemma {:induction false} TargetIsSame(en: Engine, st: State, log: seq<Event>, cause: string)
    requires SameOwn(st, log)
    ensures LoopTarget(en, log, st.run.value, cause) == LoopTarget(en, st.log, st.run.value, cause)
  {
    hide OfRun, ShipGrounds;
  }

  lemma {:induction false} LoopIsSame(
    en: Engine, st: State, log: seq<Event>, ac: string, cause: string, evidence: string)
    requires SameOwn(st, log)
    ensures Same(st, log, LoopStep(en, st, ac, cause, evidence), LoopStep(en, st.(log := log), ac, cause, evidence))
  {
    TargetIsSame(en, st, log, cause);
    hide LoopTarget, Rebased, Blank, OfRun, Looped, SlipsOn;
    var r := st.run.value;
    NothingRebased(st, log);
    if LoopTarget(en, st.log, r, cause).Ok? {
      var target := LoopTarget(en, st.log, r, cause).value;
      EventRebased(en, st.log, st, log, r, "phase", false, "engine", Reasoned("park", "loop cap reached"));
      RunRebased(st.log, WithEvent(en, st, r, "phase", false, "engine", Reasoned("park", "loop cap reached")), log,
                 Some(r.(status := Parked)));
      var st1 := WithEvent(en, st, r, "loop", false, "agent", LoopRecord(ac, cause, evidence, target));
      EventRebased(en, st.log, st, log, r, "loop", false, "agent", LoopRecord(ac, cause, evidence, target));
      EventRebased(en, st.log, st1, log, r, "phase", false, "engine", LoopMove(cause, target));
      RunRebased(st.log, WithEvent(en, st1, r, "phase", false, "engine", LoopMove(cause, target)), log,
                 Some(Looped(r, ac, cause, target)));
    }
  }

  lemma {:induction false} WaiveIsSame(en: Engine, st: State, log: seq<Event>, phase: string, reason: string)
    requires st.run.Some?
    ensures Same(st, log, WaiveStep(en, st, phase, reason), WaiveStep(en, st.(log := log), phase, reason))
  {
    hide Rebased, Blank, PhaseById, Order, NextUnwaived;
    var r := st.run.value;
    NothingRebased(st, log);
    var data: Fields := map["action" := Str("waive"), "target" := Str(phase), "reason" := Str(reason)];
    var st1 := WithEvent(en, st, r, "phase", false, "user", data);
    var r1 := r.(waived := r.waived + [phase]);
    var r2 := r1.(phase := NextUnwaived(Order(en.spec, r.family), r1.phase, r1.waived));
    EventRebased(en, st.log, st, log, r, "phase", false, "user", data);
    RunRebased(st.log, st1, log, Some(r1));
    EventRebased(en, st.log, st1, log, r2, "phase", false, "engine", Aimed("enter", r2.phase));
    RunRebased(st.log, WithEvent(en, st1, r2, "phase", false, "engine", Aimed("enter", r2.phase)), log, Some(r2));
  }

  lemma {:induction false} RecordIsSame(
    en: Engine, st: State, log: seq<Event>, kind: string, data: Fields, auto: bool, actor: string)
    requires SameOwn(st, log)
    ensures
      Same(st, log, RecordStep(en, st, kind, data, auto, actor),
           RecordStep(en, st.(log := log), kind, data, auto, actor))
  {
    var r, k := st.run.value, RecordKindByName(en.spec.records, kind);
    NothingRebased(st, log);
    if k.Some? {
      assert NormalisedData(en, st.(log := log), r, k.value, data) == NormalisedData(en, st, r, k.value, data);
      hide NormalisedData, Rebased, ValidClassification, Reclassified, OfRun, RecordKindByName;
      var given := NormalisedData(en, st, r, k.value, data);
      if given.Ok? && en.validate(kind, given.value, auto).Some? {
        var checked := en.validate(kind, given.value, auto).value;
        var r1, writer := Reclassified(r, kind, checked), if actor == "" then "agent" else actor;
        EventRebased(en, st.log, st, log, r1, kind, auto, writer, checked);
        RunRebased(st.log, WithEvent(en, st, r1, kind, auto, writer, checked), log, Some(r1));
      }
    }
  }

  lemma {:induction false} ApproveIsSame(
    en: Engine, st: State, log: seq<Event>, gate: string, payload: string, carriesCode: string -> bool)
    requires SameOwn(st, log)
    ensures
      Same(st, log, ApproveStep(en, st, gate, payload, carriesCode),
           ApproveStep(en, st.(log := log), gate, payload, carriesCode))
  {
    hide Rebased, Approvals.ApprovalData, ApprovalSetting, OfRun;
    var r, how := st.run.value, ApprovalSetting(en, carriesCode);
    NothingRebased(st, log);
    var data := Approvals.ApprovalData(OfRun(st.log, r.id), gate, payload, how);
    if data.Some? { EventRebased(en, st.log, st, log, r, "approval", false, "user", data.value); }
  }

  lemma {:induction false} ParkIsSame(en: Engine, st: State, log: seq<Event>, reason: string)
    requires st.run.Some?
    ensures Same(st, log, ParkStep(en, st, reason), ParkStep(en, st.(log := log), reason))
    ensures Same(st, log, ResumeStep(en, st), ResumeStep(en, st.(log := log)))
  {
    hide Rebased, Blank;
    var r := st.run.value;
    NothingRebased(st, log);
    var st1 := WithEvent(en, st, r, "escape", false, "user", Reasoned("park", reason));
    EventRebased(en, st.log, st, log, r, "escape", false, "user", Reasoned("park", reason));
    EventRebased(en, st.log, st1, log, r, "phase", false, "engine", Reasoned("park", reason));
    RunRebased(st.log, WithEvent(en, st1, r, "phase", false, "engine", Reasoned("park", reason)), log,
               Some(r.(status := Parked)));
    EventRebased(en, st.log, st, log, r, "phase", false, "engine", Action("resume"));
    RunRebased(st.log, WithEvent(en, st, r, "phase", false, "engine", Action("resume")), log,
               Some(r.(status := Active)));
  }

  /** A command on a live run, short of starting another or closing, does the same on any log
      that holds the same events of the run: same answer, same snapshot, same events. */
  lemma {:induction false} StepIsSame(en: Engine, st: State, log: seq<Event>, c: Command)
    requires SameOwn(st, log) && !c.Start? && !c.Close?
    ensures Same(st, log, Step(en, st, c), Step(en, st.(log := log), c))
  {
    hide Same, ExitStep, WaiveStep, LoopStep, ParkStep, ResumeStep, RecordStep, ApproveStep;
    match c
    case Exit(force, reason) => ExitIsSame(en, st, log, force, reason);
    case Waive(phase, why) => WaiveIsSame(en, st, log, phase, why);
    case LoopBack(ac, cause, evidence) => LoopIsSame(en, st, log, ac, cause, evidence);
    case Park(because) => ParkIsSame(en, st, log, because);
    case Resume => ParkIsSame(en, st, log, "");
    case Record(kind, data, auto, actor) => RecordIsSame(en, st, log, kind, data, auto, actor);
    case Approve(gate, payload, carriesCode) => ApproveIsSame(en, st, log, gate, payload, carriesCode);
  }

  lemma {:induction false} ArchivedIsOwn(log: seq<Event>, run: string)
    ensures Archived(log, run) == Archived(OfRun(log, run), run)
  {
    hide KeepLive;
    if log != [] {
      var init, last := log[..|log| - 1], log[|log| - 1];
      ArchivedIsOwn(init, run);
      var own := OfRun(init, run);
      assert own + [] == own && (own + [last])[..|own|] == own;
      assert Archived(init, run) + [] == Archived(init, run);
    }
  }

  lemma {:induction false} CloseIsSame(en: Engine, st: State, log: seq<Event>)
    requires SameOwn(st, log)
    ensures
      var a, b := CloseStep(en, st), CloseStep(en, st.(log := log));
      && b.1 == a.1 && b.0.run == a.0.run && b.0.stamped == a.0.stamped && b.0.archives == a.0.archives
  {
    hide OfRun, Archived, Retained, Order;
    var run := st.run.value.id;
    var closing := WithEvent(en, st, st.run.value, "run", false, "engine", Action("close")).log[|st.log|];
    ArchivedIsOwn(st.log + [closing], run);
    ArchivedIsOwn(log + [closing], run);
    OfRunSnoc(st.log, closing, run);
    OfRunSnoc(log, closing, run);
  }

  lemma OfRunSnoc(log: seq<Event>, e: Event, run: string)
    ensures OfRun(log + [e], run) == OfRun(log, run) + if e.run == run then [e] else []
  {
    assert (log + [e])[..|log|] == log;
  }

  // ---------------------------------------------------------------------------
  // What decides a command
  // ---------------------------------------------------------------------------

  /** Any command on a live run but the start of another: two logs that hold the same events
      of the run, in the same order, get the same answer, the same snapshot and archives, and,
      short of closing, the same events. */
  lemma {:induction false} OwnEventsDecide(en: Engine, st: State, log: seq<Event>, own: seq<Event>, c: Command)
    requires st.run.Some? && !c.Start?
    requires OwnEvents(st.log, st.run.value.id, own) && OwnEvents(log, st.run.value.id, own)
    ensures
      var a, b := Step(en, st, c), Step(en, st.(log := log), c);
      && b.1 == a.1 && b.0.run == a.0.run && b.0.stamped == a.0.stamped && b.0.archives == a.0.archives
      && (!c.Close? ==> st.log <= a.0.log && log <= b.0.log && b.0.log[|log|..] == a.0.log[|st.log|..])
  {
    hide OwnEvents, ExitStep, WaiveStep, LoopStep, ParkStep, ResumeStep, RecordStep, ApproveStep, CloseStep, OfRun;
    OwnIsOfRun(st.log, st.run.value.id, own);
    OwnIsOfRun(log, st.run.value.id, own);
    if c.Close? {
      CloseIsSame(en, st, log);
    } else {
      StepIsSame(en, st, log, c);
      StepExtends(en, st, c);
    }
  }

  /** An event of another run, anywhere in the log, changes neither the answer to a command
      nor what the command does to the run. */
  lemma {:induction false} StrangersDoNotMatter(
    en: Engine, st: State, x: seq<Event>, e: Event, y: seq<Event>, c: Command)
    requires st.run.Some? && !c.Start? && st.log == x + y && e.run != st.run.value.id
    ensures
      var a, b := Step(en, st, c), Step(en, st.(log := (x + [e]) + y), c);
      && b.1 == a.1 && b.0.run == a.0.run && b.0.archives == a.0.archives
      && (!c.Close? ==> st.log <= a.0.log && b.0.log == ((x + [e]) + y) + a.0.log[|st.log|..])
  {
    hide Step, OfRun;
    var run, log := st.run.value.id, (x + [e]) + y;
    StrangerInserted(x, e, y, run);
    OfRunIsOwn(st.log, run);
    OfRunIsOwn(log, run);
    OwnEventsDecide(en, st, log, OfRun(st.log, run), c);
    if !c.Close? {
      var b := Step(en, st.(log := log), c).0.log;
      assert b == b[..|log|] + b[|log|..];
    }
  }
}

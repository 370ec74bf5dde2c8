/** The run commands as the engine executes them. */
module RunControl {
  import opened Values
  import opened Events
  import opened UpdateFolding
  import opened WorkflowSpec
  import opened PhaseOrder
  import opened Matching
  import opened Contracts
  import opened RunState
  import opened Retention
  import Approvals
  import RunCommands

  class Ctl {
    const en: Engine
    var log: seq<Event>
    var stamped: nat
    var run: Option<Run>
    var archives: map<string, seq<Event>>

    ghost function Now(): State
      reads this
    {
      State(log, stamped, run, archives)
    }

    constructor (en: Engine, log: seq<Event>, stamped: nat)
      ensures this.en == en && Now() == State(log, stamped, None, map[])
    {
      this.en, this.log, this.stamped := en, log, stamped;
      run, archives := None, map[];
    }

    method AppendEvent(r: Run, kind: string, auto: bool, actor: string, data: Fields)
      modifies this
      ensures Now() == WithEvent(en, old(Now()), r, kind, auto, actor, data)
    {
      var (id, ts) := en.stamp(stamped);
      log := log + [Event(id, 0, "", ts, r.id, r.phase, kind, auto, actor, data)];
      stamped := stamped + 1;
    }

    method RunStart(id: string, family: string, intent: string) returns (reply: Reply)
      modifies this
      ensures (Now(), reply) == StartStep(en, old(Now()), id, family, intent)
    {
      if run.Some? && run.value.status == Active {
        return Refused("a run is already active");
      }
      if family !in en.spec.families {
        return Refused("unknown family");
      }
      if intent != "" && !(family in en.spec.intents && intent in en.spec.intents[family]) {
        return Refused("intent not valid for family");
      }
      var order := Order(en.spec, family);
      if order == [] {
        return Refused("family without phases");
      }
      var r := Run(id, family, intent, order[0], Active, 0, map[], 0, [], []);
      AppendEvent(r, "run", false, "engine",
                  map["action" := Str("start"), "family" := Str(family), "intent" := Str(intent)]);
      AppendEvent(r, "phase", false, "engine", Aimed("enter", order[0]));
      run := Some(r);
      return Done;
    }

    /** Steps over waived phases, one `NextPhase` at a time. */
    method NextUnwaivedPhase(r: Run) returns (next: string)
      requires PhasesOk(en.spec)
      ensures next == NextUnwaived(Order(en.spec, r.family), r.phase, r.waived)
    {
      hide Order, PhasesOk, Index;
      var order := Order(en.spec, r.family);
      OrderIsDistinct(en.spec, r.family);
      next := NextPhase(en.spec, r.family, r.phase);
      if r.phase !in order {
        NextOfStranger(order, r.phase);
        return;
      }
      ghost var i: nat := Index(order, r.phase) + 1;
      NextIsSuccessor(order, i - 1);
      while next != "" && next in r.waived
        invariant i <= |order| && next == if i < |order| then order[i] else ""
        invariant FirstUnwaived(order[i..], r.waived) == NextUnwaived(order, r.phase, r.waived)
        decreases |order| - i
      {
        NextIsSuccessor(order, i);
        assert order[i..][1..] == order[i + 1..];
        next := NextPhase(en.spec, r.family, next);
        i := i + 1;
      }
      assert i < |order| ==> order[i..][0] == next;
    }

    method PhaseExit(force: bool, reason: string) returns (reply: Reply)
      requires PhasesOk(en.spec)
      modifies this
      ensures (Now(), reply) == ExitStep(en, old(Now()), force, reason)
    {
      hide Order, EvaluateStage, NextUnwaived, PhasesOk, Blank, Contains;
      if run.None? {
        return Refused("no active run");
      }
      var r := run.value;
      if r.status != Active {
        return Refused("run is parked");
      }
      if !force {
        var env := EnvOf(en, log, r);
        var findings := EvaluateStage(env, r.phase, false);
        if findings.Err? {
          return BrokenContract(findings.error);
        }
        if findings.value != [] {
          return Gaps(findings.value);
        }
        var upcoming := NextUnwaivedPhase(r);
        if upcoming != "" {
          var entry := EvaluateStage(env, upcoming, true);
          if entry.Err? {
            return BrokenContract(entry.error);
          }
          if entry.value != [] {
            return Gaps(entry.value);
          }
        }
        AppendEvent(r, "phase", false, "engine", Action("exit"));
      } else {
        var refusal := ForceEscalation(r, reason);
        if refusal.Some? {
          return refusal.value;
        }
        AppendEvent(r, "phase", false, "engine", Reasoned("force", reason));
        r := r.(forces := r.forces + 1);
      }
      LeavePhase(r);
      return Done;
    }

    /** Records the exit in the snapshot and enters the next phase, if there is one. */
    method LeavePhase(was: Run)
      requires PhasesOk(en.spec)
      modifies this
      ensures Now() == Advance(en, old(Now()), was)
    {
      hide Order, NextUnwaived, PhasesOk;
      var r := was.(exited := was.exited + [was.phase]);
      var next := NextUnwaivedPhase(r);
      r := r.(phase := next);
      if next != "" {
        AppendEvent(r, "phase", false, "engine", Aimed("enter", next));
      }
      run := Some(r);
    }

    /** The first force needs a reason, the second a cause, the third parks the run. */
    method ForceEscalation(r: Run, reason: string) returns (refusal: Option<Reply>)
      requires run == Some(r) && r.status == Active
      modifies this
      ensures refusal.Some? ==> (Now(), refusal.value) == ExitStep(en, old(Now()), true, reason)
      ensures refusal.None? ==>
                && !Blank(reason) && r.forces < 2 && (r.forces == 1 ==> Contains(reason, "cause:"))
                && Now() == WithEvent(en, old(Now()), r, "escape", false, "user",
                                   Reasoned("force", reason)["level" := Num((r.forces + 1) as real)])
    {
      hide Blank, Contains, Advance;
      if Blank(reason) {
        return Some(Refused("force requires a reason"));
      }
      if r.forces >= 2 {
        AppendEvent(r, "escape", false, "user", ThirdForce());
        AppendEvent(r, "phase", false, "engine", Reasoned("park", "force escalation"));
        run := Some(r.(status := Parked));
        return Some(Refused("3rd force in this run: auto-parked"));
      }
      if r.forces == 1 && !Contains(reason, "cause:") {
        return Some(Refused("2nd force requires naming the structural cause"));
      }
      AppendEvent(r, "escape", false, "user", Reasoned("force", reason)["level" := Num((r.forces + 1) as real)]);
      return None;
    }

    method PhaseWaive(phase: string, reason: string) returns (reply: Reply)
      requires PhasesOk(en.spec)
      modifies this
      ensures (Now(), reply) == WaiveStep(en, old(Now()), phase, reason)
    {
      hide Order, NextUnwaived, PhasesOk, Blank, PhaseById;
      if run.None? {
        return Refused("no active run");
      }
      var r := run.value;
      var p := PhaseById(en.spec, phase);
      if p.None? {
        return Refused("unknown phase");
      }
      if Participation(p.value, r.family) != "waivable" {
        return Refused("phase is not waivable");
      }
      if Blank(reason) {
        return Refused("waiving a phase requires a reason");
      }
      if phase in r.exited {
        return Refused("phase already exited");
      }
      AppendEvent(r, "phase", false, "user",
                  map["action" := Str("waive"), "target" := Str(phase), "reason" := Str(reason)]);
      r := r.(waived := r.waived + [phase]);
      if r.phase == phase {
        var next := NextUnwaivedPhase(r);
        r := r.(phase := next);
        AppendEvent(r, "phase", false, "engine", Aimed("enter", next));
      }
      run := Some(r);
      return Done;
    }

    /** Is there an open trace finding, or did the newest audit fail? */
    method ShipLoopGrounds(env: Env) returns (grounds: bool)
      ensures grounds == ShipGrounds(env)
      ensures grounds <==> RunCommands.Grounds(env.spec, env.events)
    {
      RunCommands.GroundsIff(env);
      var findings := Records(env.events, "trace-finding");
      for i := 0 to |findings|
        invariant forall j :: 0 <= j < i ==> StrField(findings[j].data, "status") != "open"
      {
        if StrField(findings[i].data, "status") == "open" {
          return true;
        }
      }
      var last := "";
      var verdicts := Records(env.events, "verdict");
      for i := 0 to |verdicts|
        invariant last == LastStatus(verdicts[..i], "auditor")
      {
        assert verdicts[..i + 1][..i] == verdicts[..i];
        if StrField(verdicts[i].data, "agent") == "auditor" {
          last := StrField(verdicts[i].data, "status");
        }
      }
      assert verdicts[..|verdicts|] == verdicts;
      return last in env.spec.verdicts.fail;
    }

    /** Filters one phase out of a list. */
    method Remove(xs: seq<string>, x: string) returns (out: seq<string>)
      ensures out == Without(xs, x)
    {
      out := [];
      for i := 0 to |xs|
        invariant out == Without(xs[..i], x)
      {
        assert xs[..i + 1][..i] == xs[..i];
        if xs[i] != x {
          out := out + [xs[i]];
        }
      }
      assert xs[..|xs|] == xs;
    }

    method Loop(ac: string, cause: string, evidence: string) returns (reply: Reply)
      modifies this
      ensures (Now(), reply) == LoopStep(en, old(Now()), ac, cause, evidence)
    {
      hide ShipGrounds, Blank, Without;
      if run.None? {
        return Refused("no active run");
      }
      var r := run.value;
      var target: string;
      if IsShipLoop(en, r, cause) {
        var grounds := ShipLoopGrounds(EnvOf(en, log, r));
        if !grounds {
          return Refused("nothing at ship to loop on");
        }
        target := en.spec.loops.ship.value.target;
      } else {
        if r.phase != en.spec.loops.from {
          return Refused("loops do not start here");
        }
        if cause == "slip" {
          target := "build";
        } else if cause == "design" {
          target := "design";
        } else if cause == "plan" {
          target := "plan";
        } else {
          return Refused("unknown cause");
        }
        if target !in en.spec.loops.targets {
          return Refused("not a legal loop target");
        }
      }
      if Blank(evidence) {
        return Refused("loop requires evidence");
      }
      if r.loops >= en.spec.loops.maxPerRun {
        AppendEvent(r, "phase", false, "engine", Reasoned("park", "loop cap reached"));
        run := Some(r.(status := Parked));
        return Refused("loop cap reached: run auto-parked");
      }
      if cause == "slip" && SlipsOn(r, ac) >= en.spec.loops.maxSlipPerAC {
        return Refused("the defect is structural");
      }
      AppendEvent(r, "loop", false, "agent", LoopRecord(ac, cause, evidence, target));
      AppendEvent(r, "phase", false, "engine", LoopMove(cause, target));
      r := r.(loops := r.loops + 1);
      if cause == "slip" {
        r := r.(slipByAC := r.slipByAC[ac := SlipsOn(r, ac) + 1]);
      }
      var exited := Remove(r.exited, target);
      run := Some(r.(exited := exited, phase := target));
      return Done;
    }

    method Park(reason: string) returns (reply: Reply)
      modifies this
      ensures (Now(), reply) == ParkStep(en, old(Now()), reason)
    {
      if run.None? {
        return Refused("no active run");
      }
      if Blank(reason) {
        return Refused("park requires a reason");
      }
      var r := run.value;
      AppendEvent(r, "escape", false, "user", Reasoned("park", reason));
      AppendEvent(r, "phase", false, "engine", Reasoned("park", reason));
      run := Some(r.(status := Parked));
      return Done;
    }

    method Resume() returns (reply: Reply)
      modifies this
      ensures (Now(), reply) == ResumeStep(en, old(Now()))
    {
      if run.None? {
        return Refused("no active run");
      }
      var r := run.value;
      if r.status != Parked {
        return Refused("run is not parked");
      }
      AppendEvent(r, "phase", false, "engine", Action("resume"));
      run := Some(r.(status := Active));
      return Done;
    }

    /** Re-aims an update at the record it finally refers to; checks required fields of
        anything else. */
    method Normalise(r: Run, k: RecordKind, data: Fields) returns (normalised: Result<Fields, string>)
      requires UniqueIds(log)
      ensures normalised == NormalisedData(en, Now(), r, k, data)
    {
      hide Required, OfRun, Resolve;
      if HasStr(data, "updates") {
        OfRunIsUnique(log, r.id);
        var env := new FoldedLog(OfRun(log, r.id));
        var original := env.ResolveRecordId(data["updates"].s);
        if original.None? {
          return Err("updates does not reference any record in this run");
        }
        return Ok(data["updates" := Str(original.value)]);
      }
      if forall f :: f in Required(k.fields) ==> f in data {
        return Ok(data);
      }
      return Err("required field missing");
    }

    /** Writes a record. */
    method RecordEvent(kind: string, given: Fields, auto: bool, actor: string) returns (reply: Reply)
      requires UniqueIds(log)
      modifies this
      ensures (Now(), reply) == RecordStep(en, old(Now()), kind, given, auto, actor)
    {
      hide NormalisedData, ValidClassification;
      if run.None? {
        return Refused("no active run");
      }
      var r := run.value;
      var k := RecordKindByName(en.spec.records, kind);
      if k.None? {
        return Refused("unknown record kind");
      }
      var normalised := Normalise(r, k.value, given);
      if normalised.Err? {
        return Refused(normalised.error);
      }
      var checked := en.validate(kind, normalised.value, auto);
      if checked.None? {
        return Refused("record refused");
      }
      if kind == "classification" {
        if !ValidClassification(en.spec, checked.value) {
          return Refused("classification invalid");
        }
        r := Reclassified(r, kind, checked.value);
      }
      AppendEvent(r, kind, auto, if actor == "" then "agent" else actor, checked.value);
      run := Some(r);
      return Done;
    }

    /** Records an approval, bound to what is in scope and anchored in an answer. */
    method Approve(gate: string, payload: string, carriesCode: string -> bool) returns (reply: Reply)
      modifies this
      ensures (Now(), reply) == ApproveStep(en, old(Now()), gate, payload, carriesCode)
    {
      hide Approvals.ApprovalData, OfRun;
      if run.None? {
        return Refused("no active run");
      }
      var r := run.value;
      var data := Approvals.ComposeApproval(OfRun(log, r.id), gate, payload, ApprovalSetting(en, carriesCode));
      if data.None? {
        return Refused("approvals need a captured answer");
      }
      AppendEvent(r, "approval", false, "user", data.value);
      return Done;
    }

    method RunClose() returns (reply: Reply)
      modifies this
      ensures (Now(), reply) == CloseStep(en, old(Now()))
    {
      hide Order;
      if run.None? {
        return Refused("no active run");
      }
      var r := run.value;
      var order := Order(en.spec, r.family);
      if order == [] || order[|order| - 1] !in r.exited {
        return Refused("last phase not exited");
      }
      AppendEvent(r, "run", false, "engine", Action("close"));
      archives := archives[r.id := Archived(log, r.id)];
      log := Retained(log, r.id);
      run := None;
      return Done;
    }

    /** Rebuilds the snapshot from the log, event by event. */
    method DeriveRun() returns (d: Option<Run>)
      ensures d == Derive(log)
    {
      d := None;
      for i := 0 to |log|
        invariant d == Derive(log[..i])
      {
        var e := log[i];
        assert log[..i + 1][..i] == log[..i];
        var action := e.Text("action");
        if e.kind == "run" {
          if action in {"start", "branch", "adopt"} {
            d := Some(Run(e.run, e.Text("family"), e.Text("intent"), "", Active, 0, map[], 0, [], []));
          } else if action == "close" && d.Some? && d.value.id == e.run {
            d := None;
          }
        } else if e.kind == "phase" && d.Some? && d.value.id == e.run {
          var r := d.value;
          match action {
            case "enter" => d := Some(r.(phase := e.Text("target")));
            case "exit" => d := Some(r.(exited := r.exited + [e.phase]));
            case "waive" => d := Some(r.(waived := r.waived + [e.Text("target")]));
            case "loop" => d := Some(r.(loops := r.loops + 1, phase := e.Text("target")));
            case "force" => d := Some(r.(forces := r.forces + 1, exited := r.exited + [e.phase]));
            case "park" => d := Some(r.(status := Parked));
            case "resume" => d := Some(r.(status := Active));
            case _ =>
          }
        }
      }
      assert log[..|log|] == log;
    }
  }

  lemma {:induction false} OfRunIsUnique(log: seq<Event>, run: string)
    requires UniqueIds(log)
    ensures UniqueIds(OfRun(log, run))
    ensures forall e :: e in OfRun(log, run) ==> e in log
  {
    if log != [] {
      var init, last := log[..|log| - 1], log[|log| - 1];
      OfRunIsUnique(init, run);
      var rest := OfRun(init, run);
      forall i | 0 <= i < |rest|
        ensures rest[i].id != last.id
      {
        assert rest[i] in init;
      }
    }
  }
}

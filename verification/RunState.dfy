/** The run state machine: what each command does to the log and the run snapshot. */
module RunState {
  import opened Values
  import opened Events
  import opened UpdateFolding
  import opened WorkflowSpec
  import opened PhaseOrder
  import opened Matching
  import opened Contracts
  import CommandIdentity
  import Approvals
  import opened Retention

  datatype Status = Active | Parked

  datatype Run = Run(
    id: string, family: string, intent: string, phase: string, status: Status,
    loops: nat, slipByAC: map<string, nat>, forces: nat, waived: seq<string>, exited: seq<string>)

  /** What the engine is given: the specification, the configuration and the files on disk as
      it finds them; the write-time checks of a record (kind, data, captured or not), which may
      rewrite the data or refuse it; the stamps (identity, time) of successive events, and the
      fingerprint of a text. */
  datatype Engine = Engine(
    spec: Spec, config: Config, world: World,
    stamp: nat -> (string, string),
    validate: (string, Fields, bool) -> Option<Fields>,
    hash: string -> string)

  /** `log` is what a read of the live log yields; sequence numbers and hash links are the
      ledger's business and stay blank here. */
  datatype State = State(log: seq<Event>, stamped: nat, run: Option<Run>, archives: map<string, seq<Event>>)

  datatype Reply = Done | Gaps(findings: seq<Finding>) | Refused(why: string) | BrokenContract(item: string)

  datatype Command =
    | Start(id: string, family: string, intent: string)
    | Exit(force: bool, reason: string)
    | Waive(phase: string, why: string)
    | LoopBack(ac: string, cause: string, evidence: string)
    | Park(because: string)
    | Resume
    | Record(kind: string, data: Fields, auto: bool, actor: string)
    | Approve(gate: string, payload: string, carriesCode: string -> bool)
    | Close

  // ---------------------------------------------------------------------------
  // Parts
  // ---------------------------------------------------------------------------

  predicate Blank(s: string) {
    CommandIdentity.TrimSpace(s) == ""
  }

  predicate Contains(s: string, part: string) {
    part <= s || (s != "" && Contains(s[1..], part))
  }

  function WithEvent(en: Engine, st: State, r: Run, kind: string, auto: bool, actor: string, data: Fields): State {
    var (id, ts) := en.stamp(st.stamped);
    st.(log := st.log + [Event(id, 0, "", ts, r.id, r.phase, kind, auto, actor, data)], stamped := st.stamped + 1)
  }

  function Action(name: string): Fields {
    map["action" := Str(name)]
  }

  function Aimed(name: string, target: string): Fields {
    map["action" := Str(name), "target" := Str(target)]
  }

  function Reasoned(name: string, reason: string): Fields {
    map["action" := Str(name), "reason" := Str(reason)]
  }

  function LoopRecord(ac: string, cause: string, evidence: string, target: string): Fields {
    map["ac" := Str(ac), "cause" := Str(cause), "evidence" := Str(evidence), "target" := Str(target)]
  }

  function LoopMove(cause: string, target: string): Fields {
    map["action" := Str("loop"), "target" := Str(target), "reason" := Str(cause)]
  }

  function ThirdForce(): Fields {
    Reasoned("park", "3rd force in run \U{2014} auto-parked")["level" := Num(3.0)]
  }

  function EnvOf(en: Engine, log: seq<Event>, r: Run): Env {
    Env(en.spec, en.config, r.family, r.intent, OfRun(log, r.id), en.world)
  }

  /** The position of a phase in the order; the end of it when it is not listed. */
  function Index(order: seq<string>, id: string): (i: nat)
    ensures i <= |order|
    ensures i < |order| ==> order[i] == id
    ensures i == |order| <==> id !in order
  {
    if order == [] || order[0] == id then 0 else 1 + Index(order[1..], id)
  }

  /** The first listed phase that is not waived; a phase without a name ends the search. */
  function FirstUnwaived(phases: seq<string>, waived: seq<string>): string {
    if phases == [] || phases[0] == "" then ""
    else if phases[0] in waived then FirstUnwaived(phases[1..], waived)
    else phases[0]
  }

  /** The first phase after `cur` that is not waived, or "". */
  function NextUnwaived(order: seq<string>, cur: string, waived: seq<string>): string {
    if cur in order then FirstUnwaived(order[Index(order, cur) + 1..], waived) else ""
  }

  function Without(xs: seq<string>, x: string): (out: seq<string>)
    ensures forall y :: y in out <==> y in xs && y != x
  {
    if xs == [] then []
    else Without(xs[..|xs| - 1], x) + if xs[|xs| - 1] != x then [xs[|xs| - 1]] else []
  }

  function SlipsOn(r: Run, ac: string): nat {
    if ac in r.slipByAC then r.slipByAC[ac] else 0
  }

  /** The status of the newest verdict by `agent`, "" without one. */
  function LastStatus(verdicts: seq<UpdateFolding.Record>, agent: string): string {
    if verdicts == [] then ""
    else
      var last := verdicts[|verdicts| - 1];
      if StrField(last.data, "agent") == agent then StrField(last.data, "status")
      else LastStatus(verdicts[..|verdicts| - 1], agent)
  }

  /** Something at ship to loop on: an open trace finding or a failing newest audit. */
  predicate ShipGrounds(env: Env) {
    || AnyHas(Records(env.events, "trace-finding"), "status", "open")
    || LastStatus(Records(env.events, "verdict"), "auditor") in env.spec.verdicts.fail
  }

  function Required(fields: seq<string>): seq<string> {
    if fields == [] then []
    else
      (if fields[0] != "" && fields[0][|fields[0]| - 1] == '?' then [] else [fields[0]])
      + Required(fields[1..])
  }

  // ---------------------------------------------------------------------------
  // Steps
  // ---------------------------------------------------------------------------

  type Outcome = (State, Reply)

  function StartStep(en: Engine, st: State, id: string, family: string, intent: string): Outcome {
    if st.run.Some? && st.run.value.status == Active then (st, Refused("a run is already active"))
    else if family !in en.spec.families then (st, Refused("unknown family"))
    else if intent != "" && !(family in en.spec.intents && intent in en.spec.intents[family]) then
      (st, Refused("intent not valid for family"))
    else if Order(en.spec, family) == [] then (st, Refused("family without phases"))
    else
      var first := Order(en.spec, family)[0];
      var r := Run(id, family, intent, first, Active, 0, map[], 0, [], []);
      var st1 := WithEvent(en, st, r, "run", false, "engine",
                        map["action" := Str("start"), "family" := Str(family), "intent" := Str(intent)]);
      var st2 := WithEvent(en, st1, r, "phase", false, "engine", Aimed("enter", first));
      (st2.(run := Some(r)), Done)
  }

  /** What still stands between the run and leaving its phase. */
  function ExitGate(en: Engine, log: seq<Event>, r: Run): Reply {
    var env := EnvOf(en, log, r);
    match EvaluateStage(env, r.phase, false)
    case Err(item) => BrokenContract(item)
    case Ok(findings) =>
      if findings != [] then Gaps(findings)
      else
        var next := NextUnwaived(Order(en.spec, r.family), r.phase, r.waived);
        if next == "" then Done
        else
          match EvaluateStage(env, next, true)
          case Err(item) => BrokenContract(item)
          case Ok(entry) => if entry != [] then Gaps(entry) else Done
  }

  /** Moves the run past its phase, the exit itself being recorded already. */
  function Advance(en: Engine, st: State, r: Run): State {
    var left := r.(exited := r.exited + [r.phase]);
    var next := NextUnwaived(Order(en.spec, r.family), r.phase, r.waived);
    if next == "" then st.(run := Some(left.(phase := "")))
    else
      var entered := left.(phase := next);
      WithEvent(en, st, entered, "phase", false, "engine", Aimed("enter", next)).(run := Some(entered))
  }

  function ExitStep(en: Engine, st: State, force: bool, reason: string): Outcome {
    if st.run.None? then (st, Refused("no active run"))
    else
      var r := st.run.value;
      if r.status != Active then (st, Refused("run is parked"))
      else if !force then
        var gate := ExitGate(en, st.log, r);
        if gate != Done then (st, gate)
        else (Advance(en, WithEvent(en, st, r, "phase", false, "engine", Action("exit")), r), Done)
      else if Blank(reason) then (st, Refused("force requires a reason"))
      else if r.forces >= 2 then
        var st1 := WithEvent(en, st, r, "escape", false, "user", ThirdForce());
        var st2 := WithEvent(en, st1, r, "phase", false, "engine", Reasoned("park", "force escalation"));
        (st2.(run := Some(r.(status := Parked))), Refused("3rd force in this run: auto-parked"))
      else if r.forces == 1 && !Contains(reason, "cause:") then
        (st, Refused("2nd force requires naming the structural cause"))
      else
        var st1 := WithEvent(en, st, r, "escape", false, "user",
                          Reasoned("force", reason)["level" := Num((r.forces + 1) as real)]);
        var st2 := WithEvent(en, st1, r, "phase", false, "engine", Reasoned("force", reason));
        (Advance(en, st2, r.(forces := r.forces + 1)), Done)
  }

  function WaiveStep(en: Engine, st: State, phase: string, reason: string): Outcome {
    if st.run.None? then (st, Refused("no active run"))
    else
      var r := st.run.value;
      var p := PhaseById(en.spec, phase);
      if p.None? then (st, Refused("unknown phase"))
      else if Participation(p.value, r.family) != "waivable" then (st, Refused("phase is not waivable"))
      else if Blank(reason) then (st, Refused("waiving a phase requires a reason"))
      else if phase in r.exited then (st, Refused("phase already exited"))
      else
        var st1 := WithEvent(en, st, r, "phase", false, "user",
                          map["action" := Str("waive"), "target" := Str(phase), "reason" := Str(reason)]);
        var r1 := r.(waived := r.waived + [phase]);
        if r.phase != phase then (st1.(run := Some(r1)), Done)
        else
          var r2 := r1.(phase := NextUnwaived(Order(en.spec, r.family), r1.phase, r1.waived));
          (WithEvent(en, st1, r2, "phase", false, "engine", Aimed("enter", r2.phase)).(run := Some(r2)), Done)
  }

  function CauseTarget(cause: string): Option<string> {
    if cause == "slip" then Some("build")
    else if cause == "design" then Some("design")
    else if cause == "plan" then Some("plan")
    else None
  }

  predicate IsShipLoop(en: Engine, r: Run, cause: string) {
    en.spec.loops.ship.Some? && r.phase == "ship" && cause in en.spec.loops.ship.value.causes
  }

  function LoopTarget(en: Engine, log: seq<Event>, r: Run, cause: string): Result<string, string> {
    if IsShipLoop(en, r, cause) then
      if ShipGrounds(EnvOf(en, log, r)) then Ok(en.spec.loops.ship.value.target)
      else Err("nothing at ship to loop on")
    else if r.phase != en.spec.loops.from then Err("loops do not start here")
    else
      match CauseTarget(cause)
      case None => Err("unknown cause")
      case Some(target) =>
        if target in en.spec.loops.targets then Ok(target) else Err("not a legal loop target")
  }

  /** The run after a loop that was let through. */
  function Looped(r: Run, ac: string, cause: string, target: string): Run {
    r.(loops := r.loops + 1,
       slipByAC := if cause == "slip" then r.slipByAC[ac := SlipsOn(r, ac) + 1] else r.slipByAC,
       exited := Without(r.exited, target), phase := target)
  }

  function LoopStep(en: Engine, st: State, ac: string, cause: string, evidence: string): Outcome {
    if st.run.None? then (st, Refused("no active run"))
    else
      var r := st.run.value;
      match LoopTarget(en, st.log, r, cause)
      case Err(why) => (st, Refused(why))
      case Ok(target) =>
        if Blank(evidence) then (st, Refused("loop requires evidence"))
        else if r.loops >= en.spec.loops.maxPerRun then
          (WithEvent(en, st, r, "phase", false, "engine", Reasoned("park", "loop cap reached"))
            .(run := Some(r.(status := Parked))),
           Refused("loop cap reached: run auto-parked"))
        else if cause == "slip" && SlipsOn(r, ac) >= en.spec.loops.maxSlipPerAC then
          (st, Refused("the defect is structural"))
        else
          var st1 := WithEvent(en, st, r, "loop", false, "agent", LoopRecord(ac, cause, evidence, target));
          var st2 := WithEvent(en, st1, r, "phase", false, "engine", LoopMove(cause, target));
          (st2.(run := Some(Looped(r, ac, cause, target))), Done)
  }

  function ParkStep(en: Engine, st: State, reason: string): Outcome {
    if st.run.None? then (st, Refused("no active run"))
    else if Blank(reason) then (st, Refused("park requires a reason"))
    else
      var r := st.run.value;
      var st1 := WithEvent(en, st, r, "escape", false, "user", Reasoned("park", reason));
      var st2 := WithEvent(en, st1, r, "phase", false, "engine", Reasoned("park", reason));
      (st2.(run := Some(r.(status := Parked))), Done)
  }

  function ResumeStep(en: Engine, st: State): Outcome {
    if st.run.None? then (st, Refused("no active run"))
    else if st.run.value.status != Parked then (st, Refused("run is not parked"))
    else
      var r := st.run.value;
      (WithEvent(en, st, r, "phase", false, "engine", Action("resume")).(run := Some(r.(status := Active))), Done)
  }

  /** A classification that corrects family or intent corrects the snapshot with it. */
  function Reclassified(r: Run, kind: string, data: Fields): Run {
    if kind == "classification" then r.(family := StrField(data, "family"), intent := StrField(data, "intent")) else r
  }

  function NormalisedData(en: Engine, st: State, r: Run, kind: RecordKind, data: Fields): Result<Fields, string> {
    if HasStr(data, "updates") then
      match Resolve(OfRun(st.log, r.id), data["updates"].s)
      case None => Err("updates does not reference any record in this run")
      case Some(original) => Ok(data["updates" := Str(original)])
    else if forall f :: f in Required(kind.fields) ==> f in data then Ok(data)
    else Err("required field missing")
  }

  function RecordStep(en: Engine, st: State, kind: string, data: Fields, auto: bool, actor: string): Outcome {
    if st.run.None? then (st, Refused("no active run"))
    else
      var r := st.run.value;
      var k := RecordKindByName(en.spec.records, kind);
      if k.None? then (st, Refused("unknown record kind"))
      else
        match NormalisedData(en, st, r, k.value, data)
        case Err(why) => (st, Refused(why))
        case Ok(normalised) =>
          match en.validate(kind, normalised, auto)
          case None => (st, Refused("record refused"))
          case Some(checked) =>
            if kind == "classification" && !ValidClassification(en.spec, checked) then
              (st, Refused("classification invalid"))
            else
              var r1 := Reclassified(r, kind, checked);
              var writer := if actor == "" then "agent" else actor;
              (WithEvent(en, st, r1, kind, auto, writer, checked).(run := Some(r1)), Done)
  }

  /** How the configuration secures approvals. */
  function ApprovalSetting(en: Engine, carriesCode: string -> bool): Approvals.Setting {
    var flag := ConfigFlag(en.config, "approvals");
    Approvals.Setting(
      if flag == Str("challenge") then Approvals.Challenge(carriesCode)
      else if flag == Str("hardened") then Approvals.Hardened
      else Approvals.Lenient,
      en.hash)
  }

  function ApproveStep(en: Engine, st: State, gate: string, payload: string, carriesCode: string -> bool): Outcome {
    if st.run.None? then (st, Refused("no active run"))
    else
      var r := st.run.value;
      match Approvals.ApprovalData(OfRun(st.log, r.id), gate, payload, ApprovalSetting(en, carriesCode))
      case None => (st, Refused("approvals need a captured answer"))
      case Some(data) => (WithEvent(en, st, r, "approval", false, "user", data), Done)
  }

  predicate ValidClassification(s: Spec, data: Fields) {
    var family := StrField(data, "family");
    family in s.families && family in s.intents && StrField(data, "intent") in s.intents[family]
  }

  function CloseStep(en: Engine, st: State): Outcome {
    if st.run.None? then (st, Refused("no active run"))
    else
      var r := st.run.value;
      var order := Order(en.spec, r.family);
      if order == [] || order[|order| - 1] !in r.exited then (st, Refused("last phase not exited"))
      else
        var st1 := WithEvent(en, st, r, "run", false, "engine", Action("close"));
        (st1.(log := Retained(st1.log, r.id), run := None,
              archives := st1.archives[r.id := Archived(st1.log, r.id)]), Done)
  }

  function Step(en: Engine, st: State, c: Command): Outcome {
    match c
    case Start(id, family, intent) => StartStep(en, st, id, family, intent)
    case Exit(force, reason) => ExitStep(en, st, force, reason)
    case Waive(phase, why) => WaiveStep(en, st, phase, why)
    case LoopBack(ac, cause, evidence) => LoopStep(en, st, ac, cause, evidence)
    case Park(because) => ParkStep(en, st, because)
    case Resume => ResumeStep(en, st)
    case Record(kind, data, auto, actor) => RecordStep(en, st, kind, data, auto, actor)
    case Approve(gate, payload, carriesCode) => ApproveStep(en, st, gate, payload, carriesCode)
    case Close => CloseStep(en, st)
  }

  // ---------------------------------------------------------------------------
  // Runs
  // ---------------------------------------------------------------------------

  /** What a command finds when it is given: contract items, record kinds, roster and verdict
      vocabulary, the configuration, the files on disk, and what the write-time checks say on
      the log as it is. All of it may change from one command to the next. */
  datatype Sight = Sight(
    contracts: seq<ContractItem>, records: seq<RecordKind>, roster: seq<Agent>, verdicts: WorkflowSpec.Verdicts,
    config: Config, world: World, validate: (string, Fields, bool) -> Option<Fields>)

  /** The engine as one command opens it; families, intents, phases and loops stay. */
  function Seen(en: Engine, sight: Sight): Engine {
    en.(spec := en.spec.(contracts := sight.contracts, records := sight.records, roster := sight.roster,
                         verdicts := sight.verdicts),
        config := sight.config, world := sight.world, validate := sight.validate)
  }

  datatype Turn = Turn(sight: Sight, cmd: Command)

  function Taken(en: Engine, st: State, t: Turn): Outcome {
    Step(Seen(en, t.sight), st, t.cmd)
  }

  /** The state after a sequence of commands, each in its own sight. */
  function After(en: Engine, st: State, ts: seq<Turn>): State
    decreases |ts|
  {
    if ts == [] then st else After(en, Taken(en, st, ts[0]).0, ts[1..])
  }

  // ---------------------------------------------------------------------------
  // Re-derivation
  // ---------------------------------------------------------------------------

  /** One event's effect on the snapshot being rebuilt. */
  function Replay(d: Option<Run>, e: Event): Option<Run> {
    var action := e.Text("action");
    if e.kind == "run" then
      if action in {"start", "branch", "adopt"} then
        Some(Run(e.run, e.Text("family"), e.Text("intent"), "", Active, 0, map[], 0, [], []))
      else if action == "close" && d.Some? && d.value.id == e.run then None
      else d
    else if e.kind != "phase" || d.None? || d.value.id != e.run then d
    else
      var r := d.value;
      if action == "enter" then Some(r.(phase := e.Text("target")))
      else if action == "exit" then Some(r.(exited := r.exited + [e.phase]))
      else if action == "waive" then Some(r.(waived := r.waived + [e.Text("target")]))
      else if action == "loop" then Some(r.(loops := r.loops + 1, phase := e.Text("target")))
      else if action == "force" then Some(r.(forces := r.forces + 1, exited := r.exited + [e.phase]))
      else if action == "park" then Some(r.(status := Parked))
      else if action == "resume" then Some(r.(status := Active))
      else d
  }

  /** The snapshot the log tells. */
  function Derive(log: seq<Event>): Option<Run> {
    if log == [] then None else Replay(Derive(log[..|log| - 1]), log[|log| - 1])
  }
}

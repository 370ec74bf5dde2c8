/** The contract language: evaluation of phase items against the record stream. */
module Contracts {
  import opened Values
  import opened UpdateFolding
  import opened WorkflowSpec
  import opened PhaseOrder
  import opened Matching
  import Verdicts
  import RedGreen

  /** The outcome of one predicate; Broken is the evaluator's error. */
  datatype Eval = Met | Unmet | Broken

  datatype Finding = Finding(id: string, remediation: string, userBlocked: bool, waivable: bool)

  function FromBool(b: bool): Eval {
    if b then Met else Unmet
  }

  // ---------------------------------------------------------------------------
  // Predicates
  // ---------------------------------------------------------------------------

  function Candidates(env: Env, params: Fields): seq<Record> {
    MatchRecords(env, StrField(params, "kind"), ObjField(params, "filter"))
  }

  predicate RecordExists(env: Env, params: Fields) {
    var matched := Candidates(env, params);
    && |matched| >= IntField(params, "min", 1)
    && ("elements" in params && params["elements"].Obj? ==>
      var el := params["elements"].fields;
      CountElements(matched, StrField(el, "field")) >= IntField(el, "min", 1))
  }

  predicate LinkedRecord(env: Env, params: Fields, ctx: string) {
    ctx != "" && AnyHas(Candidates(env, params), StrField(params, "link"), ctx)
  }

  predicate Approved(env: Env, params: Fields) {
    AnyHas(Records(env.events, "approval"), "gate", StrField(params, "gate"))
  }

  predicate NoneOpen(env: Env, params: Fields) {
    var matched := Candidates(env, params);
    var field := StrField(params, "field");
    forall i :: 0 <= i < |matched| ==>
      env.world.show(if field in matched[i].data then matched[i].data[field] else Null)
      !in StrList(ListField(params, "open"))
  }

  function ArtifactFilter(params: Fields): Fields {
    var a: Fields := if StrField(params, "template") != "" then map["template" := params["template"]] else map[];
    if StrField(params, "role") != "" then a["role" := params["role"]] else a
  }

  function IdsNamed(rs: seq<Record>, field: string): seq<string> {
    if rs == [] then []
    else
      var init := IdsNamed(rs[..|rs| - 1], field);
      var id := StrField(rs[|rs| - 1].data, field);
      if id != "" && id !in init then init + [id] else init
  }

  function MentionIds(env: Env, params: Fields): seq<string> {
    var m := ObjField(params, "mentions");
    if StrField(m, "kind") == "" || StrField(m, "field") == "" then []
    else IdsNamed(Records(env.events, StrField(m, "kind")), StrField(m, "field"))
  }

  /** The record claims a file, and the file is authored and names what it must. */
  predicate Backed(world: World, r: Record, required: seq<string>) {
    var path := StrField(r.data, "path");
    && StrField(r.data, "status") != "missing"
    && world.authored(path, StrField(r.data, "template"))
    && (required == [] || path == "" || world.mentionsAll(path, required))
  }

  predicate ArtifactPresent(env: Env, params: Fields) {
    AnyBacked(env.world, MatchRecords(env, "artifact", ArtifactFilter(params)), MentionIds(env, params))
  }

  predicate AnyBacked(world: World, candidates: seq<Record>, required: seq<string>) {
    exists i :: 0 <= i < |candidates| && Backed(world, candidates[i], required)
  }

  /** One predicate expression in the context of an element identity. */
  function EvalPredicate(env: Env, pred: string, params: Fields, ctx: string): Eval
    decreases Height(Obj(params)), 2, 0
  {
    if pred == RECORD_EXISTS then FromBool(RecordExists(env, params))
    else if pred == LINKED_RECORD then FromBool(LinkedRecord(env, params, ctx))
    else if pred == VERDICT_IN then
      FromBool(Verdicts.VerdictIn(env, StrField(params, "agent"), StrField(params, "scope"),
                                  StrList(ListField(params, "statuses")), BoolField(params, "risky_with_dispositions")))
    else if pred == APPROVAL then FromBool(Approved(env, params))
    else if pred == NO_OPEN then FromBool(NoneOpen(env, params))
    else if pred == PER_EACH then
      match SubItem(ObjField(params, "item"))
      case None => Broken
      case Some((p, prm)) =>
        ItemBelow(params);
        SubItemShrinks(ObjField(params, "item"));
        var ids := AllElementIds(Candidates(env, params), StrField(params, "each"));
        var each := EvalEach(env, p, prm, ids);
        if each == Met && |ids| < IntField(params, "min", 0) then Unmet else each
    else if pred == ANY_OF then
      ItemsBelow(params);
      EvalAny(env, params, ListField(params, "items"), ctx)
    else if pred == RED_GREEN then
      FromBool(RedGreen.RedGreenClass(env, StrField(params, "link"), ctx) >= RedGreen.WEAK)
    else if pred == ARTIFACT_PRESENT then FromBool(ArtifactPresent(env, params))
    else Broken
  }

  /** The nested predicate for every element; an error of one is an error of all. */
  function EvalEach(env: Env, pred: string, params: Fields, ids: seq<string>): Eval
    decreases Height(Obj(params)), 3, |ids|
  {
    if ids == [] then Met
    else
      match EvalPredicate(env, pred, params, ids[0])
      case Broken => Broken
      case Met => EvalEach(env, pred, params, ids[1..])
      case Unmet => if EvalEach(env, pred, params, ids[1..]) == Broken then Broken else Unmet
  }

  /** The first item that is met decides; an error before it is an error. */
  function EvalAny(env: Env, ghost params: Fields, items: seq<Value>, ctx: string): Eval
    requires Below(items, params)
    decreases Height(Obj(params)), 1, |items|
  {
    if items == [] then Unmet
    else if !items[0].Obj? then EvalAny(env, params, items[1..], ctx)
    else
      match SubItem(items[0].fields)
      case None => Broken
      case Some((p, prm)) =>
        SubItemShrinks(items[0].fields);
        match EvalPredicate(env, p, prm, ctx)
        case Broken => Broken
        case Met => Met
        case Unmet => EvalAny(env, params, items[1..], ctx)
  }

  // ---------------------------------------------------------------------------
  // Items
  // ---------------------------------------------------------------------------

  predicate HasSignal(signals: seq<Value>, want: seq<string>) {
    exists i :: 0 <= i < |signals| &&
      (match signals[i]
       case Str(s) => s
       case Obj(m) => StrField(m, "signal")
       case _ => "") in want
  }

  predicate RunHasSignal(env: Env, want: seq<string>) {
    var risks := Records(env.events, "risk");
    exists i :: 0 <= i < |risks| && HasSignal(ListField(risks[i].data, "signals"), want)
  }

  predicate WhenApplies(env: Env, when: Option<When>) {
    when.Some? ==>
      var w := when.value;
      && (w.intents != [] ==> env.intent in w.intents)
      && (forall key :: key in w.config ==> ValueEq(env.world.show, ConfigFlag(env.config, key), w.config[key]))
      && (w.signals != [] ==> RunHasSignal(env, w.signals))
      && (w.records.Some? ==> MatchRecords(env, w.records.value.kind, w.records.value.filter) != [])
  }

  predicate Waived(env: Env, item: string) {
    AnyHas(Records(env.events, "waiver"), "item", item)
  }

  predicate Skipped(env: Env, it: ContractItem) {
    !WhenApplies(env, it.when) || (it.waivable && Waived(env, it.id))
  }

  function FindingOf(it: ContractItem): Finding {
    Finding(it.id, it.remediation, it.predicateName == APPROVAL, it.waivable)
  }

  type Evaluation = Result<seq<Finding>, string>

  /** The unmet items, in order, or the first item that is broken. */
  function EvaluateItems(env: Env, items: seq<ContractItem>): Evaluation {
    if items == [] then Ok([])
    else if Skipped(env, items[0]) then EvaluateItems(env, items[1..])
    else
      match EvalPredicate(env, items[0].predicateName, items[0].params, "")
      case Broken => Err(items[0].id)
      case Met => EvaluateItems(env, items[1..])
      case Unmet => Then(Ok([FindingOf(items[0])]), EvaluateItems(env, items[1..]))
  }

  /** Findings of one list of items followed by those of another. */
  function Then(a: Evaluation, b: Evaluation): Evaluation {
    if a.Err? then a else if b.Err? then b else Ok(a.value + b.value)
  }

  function EvaluateStage(env: Env, phase: string, entry: bool): Evaluation {
    EvaluateItems(env, ContractsForStage(env.spec.contracts, phase, env.family, entry))
  }

  /** May `phase` be left for `next` ("" when nothing follows)? */
  predicate ExitAllowed(env: Env, phase: string, next: string) {
    && EvaluateStage(env, phase, false) == Ok([])
    && (next != "" ==> EvaluateStage(env, next, true) == Ok([]))
  }
}

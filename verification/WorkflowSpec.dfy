/** The declarative workflow specification and its type checker. */
module WorkflowSpec {
  import opened Values

  datatype Result<+T, +E> = Ok(value: T) | Err(error: E)

  datatype Verdicts = Verdicts(pass: seq<string>, fail: seq<string>, conditional: seq<string>)

  datatype Phase = Phase(id: string, order: int, mode: string, skill: string, participation: map<string, string>)

  datatype ShipLoop = ShipLoop(target: string, causes: seq<string>)

  datatype Loops = Loops(
    from: string, targets: seq<string>, maxPerRun: int, maxSlipPerAC: int, ship: Option<ShipLoop>)

  datatype Agent = Agent(name: string, gating: bool, phases: seq<string>, corpus: seq<string>)

  /** `fields` carry a trailing '?' when optional. */
  datatype RecordKind = RecordKind(kind: string, fields: seq<string>)

  datatype RecordMatch = RecordMatch(kind: string, filter: Fields)

  datatype When = When(
    intents: seq<string>, config: Fields, signals: seq<string>, records: Option<RecordMatch>)

  datatype ContractItem = ContractItem(
    id: string, phase: string, families: seq<string>, stage: string, when: Option<When>,
    predicateName: string, params: Fields, waivable: bool, remediation: string, source: string)

  datatype Spec = Spec(
    schema: int, families: seq<string>, intents: map<string, seq<string>>, verdicts: Verdicts,
    phases: seq<Phase>, loops: Loops, roster: seq<Agent>, records: seq<RecordKind>,
    contracts: seq<ContractItem>)

  const SCHEMA_VERSION := 1

  const RECORD_EXISTS := "record-exists"
  const LINKED_RECORD := "linked-record"
  const VERDICT_IN := "verdict-in"
  const APPROVAL := "approval"
  const NO_OPEN := "no-open"
  const PER_EACH := "per-each"
  const ANY_OF := "any-of"
  const RED_GREEN := "red-green"
  const ARTIFACT_PRESENT := "artifact-present"

  const PREDICATES: set<string> := {
    RECORD_EXISTS, LINKED_RECORD, VERDICT_IN, APPROVAL, NO_OPEN, PER_EACH, ANY_OF, RED_GREEN,
    ARTIFACT_PRESENT}

  // ---------------------------------------------------------------------------
  // Nested items
  // ---------------------------------------------------------------------------

  /** A nested predicate and its parameters, or None when it names no predicate. */
  function SubItem(item: Fields): Option<(string, Fields)> {
    var p := StrField(item, "predicate");
    if p == "" then None else Some((p, ObjField(item, "params")))
  }

  lemma SubItemShrinks(item: Fields)
    requires SubItem(item).Some?
    ensures Height(Obj(SubItem(item).value.1)) < Height(Obj(item))
  {
    HeightOfField(item, "predicate");
    if "params" in item { HeightOfField(item, "params"); }
  }

  ghost predicate Below(items: seq<Value>, params: Fields) {
    forall i :: 0 <= i < |items| ==> Height(items[i]) < Height(Obj(params))
  }

  lemma ItemsBelow(params: Fields)
    ensures Below(ListField(params, "items"), params)
  {
    if "items" in params {
      HeightOfField(params, "items");
      forall i | 0 <= i < |ListField(params, "items")|
        ensures Height(ListField(params, "items")[i]) < Height(Obj(params))
      {
        HeightOfItem(ListField(params, "items"), i);
      }
    }
  }

  lemma ItemBelow(params: Fields)
    requires SubItem(ObjField(params, "item")).Some?
    ensures Height(Obj(ObjField(params, "item"))) < Height(Obj(params))
  {
    HeightOfField(params, "item");
  }

  // ---------------------------------------------------------------------------
  // The type checker
  // ---------------------------------------------------------------------------

  /** One complaint of the type checker: what it is about and what is wrong. */
  datatype Complaint = Complaint(subject: string, reason: string)

  /** The names contract items may refer to. */
  datatype Scope = Scope(kinds: set<string>, agents: set<string>, verdicts: set<string>)

  function Unless(ok: bool, subject: string, reason: string): seq<Complaint> {
    if ok then [] else [Complaint(subject, reason)]
  }

  predicate HasStr(m: Fields, key: string) {
    key in m && m[key].Str?
  }

  function KindErrors(id: string, params: Fields, scope: Scope): seq<Complaint> {
    if !HasStr(params, "kind") then [Complaint(id, "requires string param kind")]
    else Unless(params["kind"].s in scope.kinds, id, "undeclared record kind")
  }

  function StatusErrors(id: string, statuses: seq<Value>, scope: Scope): seq<Complaint> {
    if statuses == [] then []
    else
      Unless((if statuses[0].Str? then statuses[0].s else "") in scope.verdicts, id, "status not in verdict vocabulary")
      + StatusErrors(id, statuses[1..], scope)
  }

  function ElementsErrors(id: string, params: Fields): seq<Complaint> {
    if "elements" !in params then []
    else if !params["elements"].Obj? then [Complaint(id, "elements must be {field, min}")]
    else Unless(StrField(params["elements"].fields, "field") != "", id, "elements requires field")
  }

  function MentionsErrors(id: string, params: Fields, scope: Scope): seq<Complaint> {
    if "mentions" !in params then []
    else if !params["mentions"].Obj? then [Complaint(id, "mentions must be {kind, field}")]
    else
      var m := params["mentions"].fields;
      Unless(StrField(m, "kind") in scope.kinds, id, "mentions kind undeclared")
      + Unless(StrField(m, "field") != "", id, "mentions requires field")
  }

  /** The complaints about one predicate expression, nested items included. */
  function PredicateErrors(id: string, pred: string, params: Fields, scope: Scope): seq<Complaint>
    decreases Height(Obj(params)), 1, 0
  {
    if pred !in PREDICATES then [Complaint(id, "unknown predicate")]
    else if pred == RECORD_EXISTS then KindErrors(id, params, scope) + ElementsErrors(id, params)
    else if pred == NO_OPEN then
      KindErrors(id, params, scope)
      + Unless(HasStr(params, "field"), id, "no-open requires field")
      + Unless("open" in params && params["open"].List?, id, "no-open requires open list")
    else if pred == LINKED_RECORD then
      KindErrors(id, params, scope) + Unless(HasStr(params, "link"), id, "linked-record requires link")
    else if pred == VERDICT_IN then
      Unless(StrField(params, "agent") in scope.agents, id, "undeclared agent")
      + Unless(ListField(params, "statuses") != [], id, "verdict-in requires statuses")
      + StatusErrors(id, ListField(params, "statuses"), scope)
    else if pred == APPROVAL then Unless(HasStr(params, "gate"), id, "approval requires gate")
    else if pred == RED_GREEN then Unless(HasStr(params, "link"), id, "red-green requires link")
    else if pred == ARTIFACT_PRESENT then
      Unless("template" in params ==> params["template"].Str?, id, "template must be a string")
      + Unless("role" in params ==> params["role"].Str?, id, "role must be a string")
      + MentionsErrors(id, params, scope)
    else if pred == PER_EACH then
      KindErrors(id, params, scope)
      + Unless("min" in params ==> params["min"].Num?, id, "per-each min must be an integer")
      + if !("item" in params && params["item"].Obj?) then [Complaint(id, "per-each requires item")]
        else
          match SubItem(params["item"].fields)
          case None => [Complaint(id, "nested item missing predicate")]
          case Some((p, prm)) =>
            ItemBelow(params);
            SubItemShrinks(params["item"].fields);
            PredicateErrors(id, p, prm, scope)
    else
      assert pred == ANY_OF;
      if ListField(params, "items") == [] then [Complaint(id, "any-of requires items")]
      else
        ItemsBelow(params);
        ItemErrors(id, params, ListField(params, "items"), scope)
  }

  function ItemErrors(id: string, ghost params: Fields, items: seq<Value>, scope: Scope): seq<Complaint>
    requires Below(items, params)
    decreases Height(Obj(params)), 0, |items|
  {
    if items == [] then []
    else
      (if !items[0].Obj? then [Complaint(id, "any-of item malformed")]
       else
         match SubItem(items[0].fields)
         case None => [Complaint(id, "nested item missing predicate")]
         case Some((p, prm)) =>
           SubItemShrinks(items[0].fields);
           PredicateErrors(id, p, prm, scope))
      + ItemErrors(id, params, items[1..], scope)
  }

  // --- what a well-typed item is -----------------------------------------------

  predicate ElementsOk(params: Fields) {
    "elements" in params ==> params["elements"].Obj? && StrField(params["elements"].fields, "field") != ""
  }

  predicate MentionsOk(params: Fields, scope: Scope) {
    "mentions" in params ==>
      && params["mentions"].Obj?
      && StrField(params["mentions"].fields, "kind") in scope.kinds
      && StrField(params["mentions"].fields, "field") != ""
  }

  predicate StatusesOk(statuses: seq<Value>, scope: Scope) {
    forall i :: 0 <= i < |statuses| ==> (if statuses[i].Str? then statuses[i].s else "") in scope.verdicts
  }

  predicate Nested(item: Value) {
    item.Obj? && SubItem(item.fields).Some?
  }

  /** The parameters one predicate needs, nested items left aside. */
  predicate Fits(pred: string, params: Fields, scope: Scope) {
    && pred in PREDICATES
    && (pred in {RECORD_EXISTS, NO_OPEN, LINKED_RECORD, PER_EACH} ==>
      HasStr(params, "kind") && params["kind"].s in scope.kinds)
    && (pred == RECORD_EXISTS ==> ElementsOk(params))
    && (pred == NO_OPEN ==> HasStr(params, "field") && "open" in params && params["open"].List?)
    && (pred in {LINKED_RECORD, RED_GREEN} ==> HasStr(params, "link"))
    && (pred == VERDICT_IN ==>
      && StrField(params, "agent") in scope.agents && ListField(params, "statuses") != []
      && StatusesOk(ListField(params, "statuses"), scope))
    && (pred == APPROVAL ==> HasStr(params, "gate"))
    && (pred == ARTIFACT_PRESENT ==>
      && ("template" in params ==> params["template"].Str?) && ("role" in params ==> params["role"].Str?)
      && MentionsOk(params, scope))
    && (pred == PER_EACH ==>
      ("min" in params ==> params["min"].Num?) && "item" in params && Nested(params["item"]))
    && (pred == ANY_OF ==>
      var items := ListField(params, "items");
      items != [] && forall i :: 0 <= i < |items| ==> Nested(items[i]))
  }

  /** The item nested at position `i`. */
  function Child(pred: string, params: Fields, i: nat): Option<(string, Fields)> {
    if pred == PER_EACH && i == 0 then SubItem(ObjField(params, "item"))
    else if pred == ANY_OF && i < |ListField(params, "items")| && ListField(params, "items")[i].Obj? then
      SubItem(ListField(params, "items")[i].fields)
    else None
  }

  /** The item nested at the end of a path of positions. */
  function At(pred: string, params: Fields, path: seq<nat>): Option<(string, Fields)>
    decreases |path|
  {
    if path == [] then Some((pred, params))
    else
      match Child(pred, params, path[0])
      case None => None
      case Some((p, prm)) => At(p, prm, path[1..])
  }

  predicate FitsAt(pred: string, params: Fields, scope: Scope, path: seq<nat>) {
    var part := At(pred, params, path);
    part.Some? ==> Fits(part.value.0, part.value.1, scope)
  }

  /** Every part of the item, however deeply nested, fits its predicate. */
  ghost predicate WellTyped(pred: string, params: Fields, scope: Scope) {
    forall path: seq<nat> :: FitsAt(pred, params, scope, path)
  }

  ghost predicate ChildrenTyped(pred: string, params: Fields, scope: Scope) {
    forall i: nat :: Child(pred, params, i).Some? ==>
      WellTyped(Child(pred, params, i).value.0, Child(pred, params, i).value.1, scope)
  }

  lemma TypedByParts(pred: string, params: Fields, scope: Scope)
    ensures WellTyped(pred, params, scope) <==> Fits(pred, params, scope) && ChildrenTyped(pred, params, scope)
  {
    hide Fits, Child;
    if WellTyped(pred, params, scope) {
      assert FitsAt(pred, params, scope, []);
      forall i: nat, path: seq<nat> | Child(pred, params, i).Some?
        ensures FitsAt(Child(pred, params, i).value.0, Child(pred, params, i).value.1, scope, path)
      {
        assert ([i] + path)[1..] == path;
        assert FitsAt(pred, params, scope, [i] + path);
      }
    }
    if Fits(pred, params, scope) && ChildrenTyped(pred, params, scope) {
      forall path: seq<nat>
        ensures FitsAt(pred, params, scope, path)
      {
        if path != [] && Child(pred, params, path[0]).Some? {
          var part := Child(pred, params, path[0]).value;
          assert FitsAt(part.0, part.1, scope, path[1..]);
        }
      }
    }
  }

  lemma {:induction false} StatusesChecked(id: string, statuses: seq<Value>, scope: Scope)
    ensures StatusErrors(id, statuses, scope) == [] <==> StatusesOk(statuses, scope)
  {
    if statuses != [] {
      StatusesChecked(id, statuses[1..], scope);
      assert forall i :: 1 <= i < |statuses| ==> statuses[i] == statuses[1..][i - 1];
    }
  }

  lemma NoChildren(pred: string, params: Fields, scope: Scope)
    requires pred != PER_EACH && pred != ANY_OF
    ensures ChildrenTyped(pred, params, scope)
  {
  }

  lemma {:induction false} OneChild(params: Fields, scope: Scope)
    requires "item" in params && Nested(params["item"])
    ensures
      var (p, prm) := SubItem(params["item"].fields).value;
      ChildrenTyped(PER_EACH, params, scope) <==> WellTyped(p, prm, scope)
  {
    hide WellTyped;
    assert Child(PER_EACH, params, 0) == SubItem(params["item"].fields);
  }

  ghost predicate TypedAt(items: seq<Value>, i: nat, scope: Scope)
    requires i < |items|
  {
    Nested(items[i]) && WellTyped(SubItem(items[i].fields).value.0, SubItem(items[i].fields).value.1, scope)
  }

  lemma {:induction false} ListedChildren(params: Fields, scope: Scope)
    ensures
      var items := ListField(params, "items");
      (forall i :: 0 <= i < |items| ==> Nested(items[i])) && ChildrenTyped(ANY_OF, params, scope)
      <==> forall i :: 0 <= i < |items| ==> TypedAt(items, i, scope)
  {
    hide WellTyped, SubItem;
    var items := ListField(params, "items");
    forall i | 0 <= i < |items| && Nested(items[i])
      ensures Child(ANY_OF, params, i) == SubItem(items[i].fields)
    {
    }
    if forall i :: 0 <= i < |items| ==> TypedAt(items, i, scope) {
      forall i | 0 <= i < |items|
        ensures Nested(items[i])
      {
        assert TypedAt(items, i, scope);
      }
      forall i: nat | Child(ANY_OF, params, i).Some?
        ensures WellTyped(Child(ANY_OF, params, i).value.0, Child(ANY_OF, params, i).value.1, scope)
      {
        assert TypedAt(items, i, scope);
      }
    }
  }

  /** The checker has no complaints about an item exactly when it is well-typed. */
  lemma {:induction false} CheckedIffTyped(id: string, pred: string, params: Fields, scope: Scope)
    ensures PredicateErrors(id, pred, params, scope) == [] <==> WellTyped(pred, params, scope)
    decreases Height(Obj(params)), 1, 0
  {
    hide WellTyped, ChildrenTyped, ItemErrors, Child;
    TypedByParts(pred, params, scope);
    if pred != PER_EACH && pred != ANY_OF {
      hide Fits, PredicateErrors;
      NoChildren(pred, params, scope);
      FlatChecked(id, pred, params, scope);
    } else if pred == PER_EACH {
      if "item" in params && Nested(params["item"]) {
        OneChild(params, scope);
        ItemBelow(params);
        SubItemShrinks(params["item"].fields);
        var (p, prm) := SubItem(params["item"].fields).value;
        CheckedIffTyped(id, p, prm, scope);
      }
    } else {
      ItemsBelow(params);
      ListedChildren(params, scope);
      ItemsCheckedIffTyped(id, params, ListField(params, "items"), scope);
    }
  }

  lemma {:induction false} FlatChecked(id: string, pred: string, params: Fields, scope: Scope)
    requires pred != PER_EACH && pred != ANY_OF
    ensures PredicateErrors(id, pred, params, scope) == [] <==> Fits(pred, params, scope)
  {
    hide StatusErrors, StatusesOk;
    StatusesChecked(id, ListField(params, "statuses"), scope);
  }

  lemma {:induction false} ItemsCheckedIffTyped(id: string, params: Fields, items: seq<Value>, scope: Scope)
    requires Below(items, params)
    ensures ItemErrors(id, params, items, scope) == [] <==> forall i :: 0 <= i < |items| ==> TypedAt(items, i, scope)
    decreases Height(Obj(params)), 0, |items|
  {
    hide WellTyped, PredicateErrors, SubItem;
    if items != [] {
      if Nested(items[0]) {
        SubItemShrinks(items[0].fields);
        var (p, prm) := SubItem(items[0].fields).value;
        CheckedIffTyped(id, p, prm, scope);
      }
      ItemsCheckedIffTyped(id, params, items[1..], scope);
      assert ItemErrors(id, params, items, scope) == [] <==>
             TypedAt(items, 0, scope) && ItemErrors(id, params, items[1..], scope) == [];
      hide ItemErrors;
      TypedFromFirst(items, scope);
    }
  }

  lemma TypedFromFirst(items: seq<Value>, scope: Scope)
    requires items != []
    ensures (forall i :: 0 <= i < |items| ==> TypedAt(items, i, scope)) <==>
            TypedAt(items, 0, scope) && forall i :: 0 <= i < |items[1..]| ==> TypedAt(items[1..], i, scope)
  {
    hide WellTyped, SubItem;
    forall i | 1 <= i < |items|
      ensures TypedAt(items, i, scope) == TypedAt(items[1..], i - 1, scope)
    {
      assert items[i] == items[1..][i - 1];
    }
    if forall i :: 0 <= i < |items| ==> TypedAt(items, i, scope) {
      forall i | 0 <= i < |items[1..]|
        ensures TypedAt(items[1..], i, scope)
      {
        assert TypedAt(items, i + 1, scope);
      }
    }
  }

  function Names<T>(xs: seq<T>, name: T -> string): set<string> {
    set i | 0 <= i < |xs| :: name(xs[i])
  }

  function ScopeOf(s: Spec): Scope {
    Scope(
      Names(s.records, (r: RecordKind) => r.kind),
      Names(s.roster, (a: Agent) => a.name),
      Names(s.verdicts.pass + s.verdicts.fail + s.verdicts.conditional, (v: string) => v))
  }

  // --- what an accepted specification is -------------------------------------------------

  ghost predicate Distinct<T(!new)>(xs: seq<T>, name: T -> string) {
    forall i, j :: 0 <= i < j < |xs| ==> name(xs[i]) != name(xs[j])
  }

  predicate PhaseOk(s: Spec, p: Phase) {
    && p.mode in {"interactive", "interactive-exit", "auto-advance"}
    && p.skill != ""
    && forall f :: f in s.families ==>
      f in p.participation && p.participation[f] in {"required", "waivable", "none"}
  }

  predicate LoopsOk(s: Spec, phaseIds: set<string>) {
    && (s.loops.from == "" || s.loops.from in phaseIds)
    && (forall t :: t in s.loops.targets ==> t in phaseIds)
    && (s.loops.ship.Some? ==> s.loops.ship.value.target in phaseIds && s.loops.ship.value.causes != [])
  }

  ghost predicate ContractOk(s: Spec, phaseIds: set<string>, scope: Scope, c: ContractItem) {
    && c.phase in phaseIds
    && (forall f :: f in c.families ==> f in s.families)
    && c.remediation != ""
    && c.stage in {"", "exit", "entry"}
    && (c.when.Some? && c.when.value.records.Some? ==> c.when.value.records.value.kind in scope.kinds)
    && WellTyped(c.predicateName, c.params, scope)
  }

  ghost predicate PhasesOk(s: Spec) {
    && Distinct(s.phases, (p: Phase) => p.id)
    && ContiguousOrders(s.phases)
    && forall i :: 0 <= i < |s.phases| ==> PhaseOk(s, s.phases[i])
  }

  predicate AgentOk(a: Agent, phaseIds: set<string>) {
    forall p :: p in a.phases ==> p in phaseIds
  }

  ghost predicate RosterOk(s: Spec, phaseIds: set<string>) {
    && Distinct(s.roster, (a: Agent) => a.name)
    && forall i :: 0 <= i < |s.roster| ==> AgentOk(s.roster[i], phaseIds)
  }

  /** What an accepted specification is. */
  ghost predicate WellFormed(s: Spec) {
    var phaseIds := Names(s.phases, (p: Phase) => p.id);
    && s.schema == SCHEMA_VERSION
    && s.families != []
    && (forall f :: f in s.intents ==> f in s.families)
    && PhasesOk(s)
    && LoopsOk(s, phaseIds)
    && RosterOk(s, phaseIds)
    && Distinct(s.records, (r: RecordKind) => r.kind)
    && s.verdicts.pass != [] && s.verdicts.fail != []
    && Distinct(s.contracts, (c: ContractItem) => c.id)
    && (forall i :: 0 <= i < |s.contracts| ==> ContractOk(s, phaseIds, ScopeOf(s), s.contracts[i]))
  }

  /** The phase orders are a permutation of 1..n. */
  ghost predicate ContiguousOrders(phases: seq<Phase>) {
    && (forall i, j :: 0 <= i < j < |phases| ==> phases[i].order != phases[j].order)
    && (forall i :: 0 <= i < |phases| ==> 1 <= phases[i].order <= |phases|)
    && forall n :: 1 <= n <= |phases| ==> HasOrder(phases, n)
  }

  predicate HasOrder(phases: seq<Phase>, n: int) {
    exists i :: 0 <= i < |phases| && phases[i].order == n
  }

  // --- the checker ---------------------------------------------------------

  /** Reports the repetitions in a list of names, growing a seen-set. */
  method Repetitions<T(!new)>(xs: seq<T>, name: T -> string, reason: string)
    returns (errs: seq<Complaint>, seen: set<string>)
    ensures errs == [] <==> Distinct(xs, name)
    ensures seen == Names(xs, name)
  {
    errs, seen := [], {};
    for i := 0 to |xs|
      invariant seen == Names(xs[..i], name)
      invariant errs == [] <==> Distinct(xs[..i], name)
    {
      assert xs[..i + 1] == xs[..i] + [xs[i]];
      var known := name(xs[i]) in seen;
      if known {
        var j :| 0 <= j < i && name(xs[j]) == name(xs[i]);
        assert !Distinct(xs[..i + 1], name) by {
          assert name(xs[..i + 1][j]) == name(xs[..i + 1][i]);
        }
        errs := errs + [Complaint(name(xs[i]), reason)];
      }
      NamesGrow(xs, name, i);
      seen := seen + {name(xs[i])};
    }
    assert xs[..|xs|] == xs;
  }

  lemma NamesGrow<T(!new)>(xs: seq<T>, name: T -> string, i: nat)
    requires i < |xs|
    ensures Names(xs[..i + 1], name) == Names(xs[..i], name) + {name(xs[i])}
  {
    assert forall j :: 0 <= j < i ==> xs[..i][j] == xs[..i + 1][j];
    forall x | x in Names(xs[..i], name)
      ensures x in Names(xs[..i + 1], name)
    {
      var j :| 0 <= j < i && name(xs[..i][j]) == x;
      assert name(xs[..i + 1][j]) == x;
    }
    assert xs[..i + 1][i] == xs[i];
  }

  /** Where a reference tree is bundled, every path an agent reads from is in it. */
  predicate CorpusOk(roster: seq<Agent>, bundled: Option<string -> bool>) {
    bundled.Some? ==> forall i, c :: 0 <= i < |roster| && c in roster[i].corpus ==> bundled.value(c)
  }

  predicate AgentReads(a: Agent, bundled: Option<string -> bool>) {
    bundled.Some? ==> forall c :: c in a.corpus ==> bundled.value(c)
  }

  /** The checker; `bundled` tells which paths a bundled reference tree holds. */
  method Validate(s: Spec, bundled: Option<string -> bool>) returns (errs: seq<Complaint>)
    ensures errs == [] <==> WellFormed(s) && CorpusOk(s.roster, bundled)
  {
    hide PredicateErrors, WellTyped, CorpusOk;
    var phaseErrs, phaseIds := PhaseErrors(s);
    var rosterErrs := RosterErrors(s, phaseIds, bundled);
    var kindErrs, kinds := Repetitions(s.records, (r: RecordKind) => r.kind, "duplicate record kind");
    var idErrs, ids := Repetitions(s.contracts, (c: ContractItem) => c.id, "duplicate contract");
    var contractErrs := ContractErrors(s, phaseIds, ScopeOf(s));
    errs := Unless(s.schema == SCHEMA_VERSION, "schema", "not supported")
    + Unless(s.families != [], "families", "none declared")
    + Unless(forall f :: f in s.intents ==> f in s.families, "intents", "unknown family")
    + phaseErrs
    + Unless(LoopsOk(s, phaseIds), "loops", "unresolved phase")
    + rosterErrs
    + kindErrs
    + Unless(s.verdicts.pass != [] && s.verdicts.fail != [], "verdicts", "incomplete")
    + idErrs
    + contractErrs;
  }

  method PhaseErrors(s: Spec) returns (errs: seq<Complaint>, phaseIds: set<string>)
    ensures errs == [] <==> PhasesOk(s)
    ensures phaseIds == Names(s.phases, (p: Phase) => p.id)
  {
    errs, phaseIds := Repetitions(s.phases, (p: Phase) => p.id, "duplicate phase");
    var orderErrs := OrderErrors(s.phases);
    errs := errs + orderErrs;
    ghost var before := errs;
    for i := 0 to |s.phases|
      invariant errs == [] <==> before == [] && forall j :: 0 <= j < i ==> PhaseOk(s, s.phases[j])
    {
      errs := errs + Unless(PhaseOk(s, s.phases[i]), s.phases[i].id, "phase malformed");
    }
  }

  method RosterErrors(s: Spec, phaseIds: set<string>, bundled: Option<string -> bool>) returns (errs: seq<Complaint>)
    ensures errs == [] <==> RosterOk(s, phaseIds) && CorpusOk(s.roster, bundled)
  {
    var agents;
    errs, agents := Repetitions(s.roster, (a: Agent) => a.name, "duplicate agent");
    ghost var before := errs;
    for i := 0 to |s.roster|
      invariant errs == [] <==>
        && before == [] && forall j :: 0 <= j < i ==> AgentOk(s.roster[j], phaseIds) && AgentReads(s.roster[j], bundled)
    {
      errs := errs + Unless(AgentOk(s.roster[i], phaseIds), s.roster[i].name, "unknown phase")
      + Unless(AgentReads(s.roster[i], bundled), s.roster[i].name, "corpus path not found");
    }
    assert CorpusOk(s.roster, bundled) <==> forall j :: 0 <= j < |s.roster| ==> AgentReads(s.roster[j], bundled);
  }

  method ContractErrors(s: Spec, phaseIds: set<string>, scope: Scope) returns (errs: seq<Complaint>)
    ensures errs == [] <==>
            forall i :: 0 <= i < |s.contracts| ==> ContractOk(s, phaseIds, scope, s.contracts[i])
  {
    errs := [];
    for i := 0 to |s.contracts|
      invariant errs == [] <==> forall j :: 0 <= j < i ==> ContractOk(s, phaseIds, scope, s.contracts[j])
    {
      hide ContractComplaints, ContractOk;
      ComplaintsIff(s, phaseIds, scope, s.contracts[i]);
      errs := errs + ContractComplaints(s, phaseIds, scope, s.contracts[i]);
    }
  }

  function ContractComplaints(s: Spec, phaseIds: set<string>, scope: Scope, c: ContractItem): seq<Complaint> {
    Unless(c.phase in phaseIds, c.id, "unknown phase")
    + Unless(forall f :: f in c.families ==> f in s.families, c.id, "unknown family")
    + Unless(c.remediation != "", c.id, "remediation required")
    + Unless(c.stage in {"", "exit", "entry"}, c.id, "unknown stage")
    + Unless(c.when.Some? && c.when.value.records.Some? ==> c.when.value.records.value.kind in scope.kinds,
      c.id, "when.records kind undeclared")
    + PredicateErrors(c.id, c.predicateName, c.params, scope)
  }

  lemma ComplaintsIff(s: Spec, phaseIds: set<string>, scope: Scope, c: ContractItem)
    ensures ContractComplaints(s, phaseIds, scope, c) == [] <==> ContractOk(s, phaseIds, scope, c)
  {
    hide PredicateErrors, WellTyped;
    CheckedIffTyped(c.id, c.predicateName, c.params, scope);
  }

  /** No order twice, and none of 1..n missing. */
  method OrderErrors(phases: seq<Phase>) returns (errs: seq<Complaint>)
    ensures errs == [] <==> ContiguousOrders(phases)
  {
    errs := [];
    var orders: set<int> := {};
    for i := 0 to |phases|
      invariant orders == set j | 0 <= j < i :: phases[j].order
      invariant errs == [] <==> forall a, b :: 0 <= a < b < i ==> phases[a].order != phases[b].order
    {
      if phases[i].order in orders {
        errs := errs + [Complaint(phases[i].id, "duplicate phase order")];
      }
      orders := orders + {phases[i].order};
    }
    assert forall m :: m in orders <==> HasOrder(phases, m);
    ghost var repeated := errs;
    for n := 1 to |phases| + 1
      invariant errs == [] <==>
                repeated == [] && forall m :: 1 <= m < n ==> HasOrder(phases, m)
    {
      if n !in orders {
        errs := errs + [Complaint("phases", "orders not contiguous")];
      }
    }
    if errs == [] {
      OrdersFill(phases);
    }
  }

  /** Pigeonhole: n distinct numbers that include 1..n lie within 1..n. */
  lemma OrdersFill(phases: seq<Phase>)
    requires forall i, j :: 0 <= i < j < |phases| ==> phases[i].order != phases[j].order
    requires forall n :: 1 <= n <= |phases| ==> HasOrder(phases, n)
    ensures forall i :: 0 <= i < |phases| ==> 1 <= phases[i].order <= |phases|
  {
    var orders := OrderSet(phases, |phases|);
    var wanted := UpTo(|phases|);
    assert wanted <= orders by {
      forall n | n in wanted ensures n in orders { assert HasOrder(phases, n); }
    }
    SubsetOfSameSize(wanted, orders);
  }

  ghost function OrderSet(phases: seq<Phase>, n: nat): (s: set<int>)
    requires n <= |phases|
    requires forall i, j :: 0 <= i < j < |phases| ==> phases[i].order != phases[j].order
    ensures |s| == n
    ensures forall i :: 0 <= i < n ==> phases[i].order in s
    ensures forall x :: x in s ==> exists i :: 0 <= i < n && phases[i].order == x
  {
    if n == 0 then {} else OrderSet(phases, n - 1) + {phases[n - 1].order}
  }

  ghost function UpTo(n: nat): (s: set<int>)
    ensures |s| == n && forall k :: k in s <==> 1 <= k <= n
  {
    if n == 0 then {} else UpTo(n - 1) + {n}
  }

  lemma SubsetOfSameSize<T>(a: set<T>, b: set<T>)
    requires a <= b && |a| == |b|
    ensures a == b
  {
    if a != b {
      var x :| x in b && x !in a;
      assert a <= b - {x};
      SubsetSize(a, b - {x});
    }
  }

  lemma {:induction false} SubsetSize<T>(a: set<T>, b: set<T>)
    requires a <= b
    ensures |a| <= |b|
  {
    if a != {} {
      var x :| x in a;
      SubsetSize(a - {x}, b - {x});
    }
  }
}

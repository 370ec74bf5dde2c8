/** What the evaluator's answers mean, item by item and record by record. */
module ContractMeaning {
  import opened Values
  import opened UpdateFolding
  import opened WorkflowSpec
  import opened PhaseOrder
  import opened Matching
  import opened Contracts
  import opened ItemMeaning

  function EvalItem(env: Env, it: ContractItem): Eval {
    EvalPredicate(env, it.predicateName, it.params, "")
  }

  /** The item belongs to the stage of a phase and to the run's family. */
  predicate Due(env: Env, it: ContractItem, phase: string, entry: bool) {
    it.phase == phase && (entry <==> it.stage == "entry") && (env.family in it.families || it.families == [])
  }

  ghost predicate Breaks(env: Env, it: ContractItem, phase: string, entry: bool) {
    Due(env, it, phase, entry) && !PassedOver(env, it) && EvalItem(env, it) == Broken
  }

  ghost predicate Gap(env: Env, it: ContractItem, phase: string, entry: bool) {
    Due(env, it, phase, entry) && !PassedOver(env, it) && EvalItem(env, it) == Unmet
  }

  ghost predicate GapsAt(env: Env, items: seq<ContractItem>, phase: string, entry: bool, at: seq<nat>) {
    forall k :: 0 <= k < |at| ==> at[k] < |items| && Gap(env, items[at[k]], phase, entry)
  }

  ghost predicate NoneMissed(env: Env, items: seq<ContractItem>, phase: string, entry: bool, at: seq<nat>) {
    forall i :: 0 <= i < |items| && Gap(env, items[i], phase, entry) ==> i in at
  }

  /** Positions of unmet items, in order and without omission. */
  ghost predicate Lists(env: Env, items: seq<ContractItem>, phase: string, entry: bool, at: seq<nat>) {
    Rising(at) && GapsAt(env, items, phase, entry, at) && NoneMissed(env, items, phase, entry, at)
  }

  function Evaluated(env: Env, items: seq<ContractItem>, phase: string, entry: bool): Evaluation {
    EvaluateItems(env, ContractsForStage(items, phase, env.family, entry))
  }

  // ---------------------------------------------------------------------------
  // Items
  // ---------------------------------------------------------------------------

  /** The first item is not due, passed over, met, unmet or broken, and the others follow. */
  lemma FirstItem(env: Env, items: seq<ContractItem>, phase: string, entry: bool)
    requires items != []
    ensures
      var it, whole, rest := items[0], Evaluated(env, items, phase, entry), Evaluated(env, items[1..], phase, entry);
      if Breaks(env, it, phase, entry) then whole == Err(it.id)
      else if Gap(env, it, phase, entry) then
        if rest.Ok? then
          whole == Ok([Finding(it.id, it.remediation, it.predicateName == "approval", it.waivable)] + rest.value)
        else whole == rest
      else whole == rest
  {
    hide EvalPredicate, Skipped, PassedOver;
    SkippedIff(env, items[0]);
    var due, later := ContractsForStage(items, phase, env.family, entry),
                      ContractsForStage(items[1..], phase, env.family, entry);
    if Due(env, items[0], phase, entry) {
      assert due == [items[0]] + later;
      assert due[1..] == later;
    } else {
      assert due == later;
    }
  }

  /** An evaluation fails exactly when some item that is due breaks, and names the first. */
  lemma {:induction false} FailureNamesFirstBroken(
    env: Env, items: seq<ContractItem>, phase: string, entry: bool) returns (i: nat)
    ensures
      var result := EvaluateItems(env, ContractsForStage(items, phase, env.family, entry));
      && (result.Ok? <==> forall k :: 0 <= k < |items| ==> !Breaks(env, items[k], phase, entry))
      && (result.Err? ==>
        && i < |items| && result.error == items[i].id
        && Breaks(env, items[i], phase, entry) && forall k :: 0 <= k < i ==> !Breaks(env, items[k], phase, entry))
  {
    hide EvaluateItems, Breaks, Gap, ContractsForStage;
    i := 0;
    if items != [] {
      FirstItem(env, items, phase, entry);
      if !Breaks(env, items[0], phase, entry) {
        var j := FailureNamesFirstBroken(env, items[1..], phase, entry);
        i := j + 1;
        assert forall k :: 1 <= k < |items| ==> items[k] == items[1..][k - 1];
      }
    } else {
      NothingDue(env, phase, entry);
    }
  }

  lemma NothingDue(env: Env, phase: string, entry: bool)
    ensures EvaluateItems(env, ContractsForStage([], phase, env.family, entry)) == Ok([])
  {
  }

  /** The findings of a stage are the unmet items that are due and not passed over, each
      once, in the order of the specification, with what the item says of itself. */
  lemma {:induction false} FindingsAreTheGaps(
    env: Env, items: seq<ContractItem>, phase: string, entry: bool) returns (at: seq<nat>)
    requires EvaluateItems(env, ContractsForStage(items, phase, env.family, entry)).Ok?
    ensures
      var found := EvaluateItems(env, ContractsForStage(items, phase, env.family, entry)).value;
      && Lists(env, items, phase, entry, at) && |found| == |at|
      && forall k :: 0 <= k < |at| && at[k] < |items| ==>
        var it := items[at[k]];
        found[k] == Finding(it.id, it.remediation, it.predicateName == "approval", it.waivable)
  {
    hide EvaluateItems, ContractsForStage, Gap, Breaks, Lists;
    if items == [] {
      at := [];
      NothingDue(env, phase, entry);
      assert Lists(env, items, phase, entry, at) by { NothingToList(env, phase, entry); }
    } else {
      FirstItem(env, items, phase, entry);
      var later := FindingsAreTheGaps(env, items[1..], phase, entry);
      at := Shifted(later);
      if Gap(env, items[0], phase, entry) { at := [0] + at; }
      ShiftedLists(env, items, phase, entry, later);
    }
  }

  /** Whatever waivers are on record, an unmet item without the waivable mark whose condition
      holds is found. */
  lemma {:induction false} UnwaivableIsFound(
    env: Env, items: seq<ContractItem>, phase: string, entry: bool, i: nat)
    requires EvaluateItems(env, ContractsForStage(items, phase, env.family, entry)).Ok? && i < |items|
    requires Due(env, items[i], phase, entry) && !items[i].waivable && EvalItem(env, items[i]) == Unmet
    requires items[i].when.Some? ==> Holds(env, items[i].when.value)
    ensures
      var it := items[i];
      Finding(it.id, it.remediation, it.predicateName == "approval", false)
      in EvaluateItems(env, ContractsForStage(items, phase, env.family, entry)).value
  {
    hide EvaluateItems, ContractsForStage, EvalPredicate, Holds;
    var at := FindingsAreTheGaps(env, items, phase, entry);
    assert Gap(env, items[i], phase, entry);
    var k :| 0 <= k < |at| && at[k] == i;
    assert EvaluateItems(env, ContractsForStage(items, phase, env.family, entry)).value[k].id == items[i].id;
  }

  /** Under an accepted specification every finding says how to mend it. */
  lemma {:induction false} FindingsHaveRemedies(env: Env, phase: string, entry: bool)
    requires WellFormed(env.spec) && EvaluateStage(env, phase, entry).Ok?
    ensures forall f :: f in EvaluateStage(env, phase, entry).value ==> f.remediation != ""
  {
    hide EvaluateItems, ContractsForStage, Gap, NoneMissed, WellTyped, PhasesOk, RosterOk, LoopsOk, Distinct;
    var at := FindingsAreTheGaps(env, env.spec.contracts, phase, entry);
    var found := EvaluateStage(env, phase, entry).value;
    forall f | f in found
      ensures f.remediation != ""
    {
      var k :| 0 <= k < |found| && found[k] == f;
      assert env.spec.contracts[at[k]].remediation != "";
    }
  }

  lemma NothingToList(env: Env, phase: string, entry: bool)
    ensures Lists(env, [], phase, entry, [])
  {
  }

  function Shifted(at: seq<nat>): (out: seq<nat>)
    ensures |out| == |at| && forall k :: 0 <= k < |at| ==> out[k] == at[k] + 1
  {
    if at == [] then [] else [at[0] + 1] + Shifted(at[1..])
  }

  lemma ShiftedLists(env: Env, items: seq<ContractItem>, phase: string, entry: bool, later: seq<nat>)
    requires items != [] && Lists(env, items[1..], phase, entry, later)
    ensures Lists(env, items, phase, entry,
                  if Gap(env, items[0], phase, entry) then [0] + Shifted(later) else Shifted(later))
  {
    hide Gap, Shifted, NoneMissed;
    assert GapsAt(env, items, phase, entry, Shifted(later));
    ShiftMissesNone(env, items, phase, entry, later);
  }

  lemma ShiftMissesNone(env: Env, items: seq<ContractItem>, phase: string, entry: bool, later: seq<nat>)
    requires items != [] && NoneMissed(env, items[1..], phase, entry, later)
    ensures NoneMissed(env, items, phase, entry,
                       if Gap(env, items[0], phase, entry) then [0] + Shifted(later) else Shifted(later))
  {
    hide Gap;
    forall i | 1 <= i < |items| && Gap(env, items[i], phase, entry)
      ensures i in Shifted(later)
    {
      assert items[1..][i - 1] == items[i];
      ShiftedContains(later, i - 1);
    }
  }

  lemma ShiftedContains(at: seq<nat>, i: nat)
    requires i in at
    ensures i + 1 in Shifted(at)
  {
    hide Shifted;
    var k :| 0 <= k < |at| && at[k] == i;
    assert Shifted(at)[k] == i + 1;
  }

  ghost predicate Satisfied(env: Env, it: ContractItem) {
    PassedOver(env, it) || EvalItem(env, it) == Met
  }

  /** Every item of a stage that is due to the run's family is satisfied. */
  ghost predicate StageSatisfied(env: Env, phase: string, entry: bool) {
    forall i :: 0 <= i < |env.spec.contracts| && Due(env, env.spec.contracts[i], phase, entry) ==>
      Satisfied(env, env.spec.contracts[i])
  }

  lemma {:induction false} NothingFoundIff(env: Env, items: seq<ContractItem>, phase: string, entry: bool)
    ensures Evaluated(env, items, phase, entry) == Ok([]) <==>
            forall c :: c in items && Due(env, c, phase, entry) ==> Satisfied(env, c)
  {
    hide EvalPredicate, EvaluateItems, ContractsForStage, PassedOver;
    if items != [] {
      FirstItem(env, items, phase, entry);
      NothingFoundIff(env, items[1..], phase, entry);
      assert items[0] in items && forall c :: c in items <==> c == items[0] || c in items[1..];
    } else {
      NothingDue(env, phase, entry);
    }
  }

  lemma StageOpensIff(env: Env, phase: string, entry: bool)
    ensures EvaluateStage(env, phase, entry) == Ok([]) <==> StageSatisfied(env, phase, entry)
  {
    hide EvaluateItems, Satisfied, Due;
    NothingFoundIff(env, env.spec.contracts, phase, entry);
    assert forall i :: 0 <= i < |env.spec.contracts| ==> env.spec.contracts[i] in env.spec.contracts;
  }

  /** A phase may be left exactly when every exit item of it and every entry item of the
      next that applies to the family is waived, switched off by its condition, or met. */
  lemma ExitAllowedIff(env: Env, phase: string, next: string)
    ensures ExitAllowed(env, phase, next) <==>
            StageSatisfied(env, phase, false) && (next != "" ==> StageSatisfied(env, next, true))
  {
    hide EvaluateStage, StageSatisfied;
    StageOpensIff(env, phase, false);
    StageOpensIff(env, next, true);
  }

  // ---------------------------------------------------------------------------
  // Nested items
  // ---------------------------------------------------------------------------

  lemma {:induction false} EachMeansAll(env: Env, pred: string, params: Fields, ids: seq<string>)
    ensures EvalEach(env, pred, params, ids) == Met <==>
            forall id :: id in ids ==> EvalPredicate(env, pred, params, id) == Met
    ensures EvalEach(env, pred, params, ids) == Broken <==>
            exists id :: id in ids && EvalPredicate(env, pred, params, id) == Broken
    decreases |ids|
  {
    hide EvalPredicate;
    if ids != [] {
      EachMeansAll(env, pred, params, ids[1..]);
      assert ids[0] in ids && forall id :: id in ids <==> id == ids[0] || id in ids[1..];
    }
  }

  ghost predicate ElementOf(rs: seq<Record>, each: string, id: string) {
    exists r :: r in rs && id in ElementIds(r, each)
  }

  lemma {:induction false} ElementsOfAll(rs: seq<Record>, each: string)
    ensures forall id :: id in AllElementIds(rs, each) <==> ElementOf(rs, each, id)
  {
    hide ElementIds;
    if rs != [] {
      var init, last := rs[..|rs| - 1], rs[|rs| - 1];
      ElementsOfAll(init, each);
      assert rs == init + [last];
      forall id
        ensures ElementOf(rs, each, id) <==> ElementOf(init, each, id) || id in ElementIds(last, each)
      {
        if ElementOf(init, each, id) {
          var r :| r in init && id in ElementIds(r, each);
          assert r in rs;
        }
        if id in ElementIds(last, each) { assert last in rs; }
      }
    }
  }

  /** Per-each is met exactly when there are enough elements and the nested predicate is
      met for every element of every matching record. */
  lemma PerEachMeansAll(env: Env, params: Fields, ctx: string)
    requires SubItem(ObjField(params, "item")).Some?
    ensures
      var (pred, prm) := SubItem(ObjField(params, "item")).value;
      var rs, each := Candidates(env, params), StrField(params, "each");
      EvalPredicate(env, PER_EACH, params, ctx) == Met <==>
      && |AllElementIds(rs, each)| >= IntField(params, "min", 0)
      && forall id :: ElementOf(rs, each, id) ==> EvalPredicate(env, pred, prm, id) == Met
  {
    hide SubItem, Candidates, EvalEach, AllElementIds, ElementOf;
    var (pred, prm) := SubItem(ObjField(params, "item")).value;
    var rs, each := Candidates(env, params), StrField(params, "each");
    ElementsOfAll(rs, each);
    EachMeansAll(env, pred, prm, AllElementIds(rs, each));
  }

  /** One alternative of an any-of; what is no object is passed over, and an object that names
      no predicate is an error. */
  function EvalAlternative(env: Env, item: Value, ctx: string): Eval {
    if !item.Obj? then Unmet
    else if StrField(item.fields, "predicate") == "" then Broken
    else EvalPredicate(env, StrField(item.fields, "predicate"), ObjField(item.fields, "params"), ctx)
  }

  /** Alternative `i` decides: it is the first that is not just unmet. */
  predicate Decides(env: Env, items: seq<Value>, ctx: string, i: nat)
    requires i < |items|
  {
    && EvalAlternative(env, items[i], ctx) != Unmet
    && forall k :: 0 <= k < i ==> EvalAlternative(env, items[k], ctx) == Unmet
  }

  /** Any-of answers as its first alternative that is met or broken, unmet without one. */
  lemma {:induction false} AnyMeansFirst(env: Env, params: Fields, items: seq<Value>, ctx: string)
    requires Below(items, params)
    ensures forall i :: 0 <= i < |items| && Decides(env, items, ctx, i) ==>
              EvalAny(env, params, items, ctx) == EvalAlternative(env, items[i], ctx)
    ensures EvalAny(env, params, items, ctx) == Unmet <==>
            forall i :: 0 <= i < |items| ==> EvalAlternative(env, items[i], ctx) == Unmet
    decreases |items|
  {
    hide EvalPredicate;
    if items != [] {
      AnyMeansFirst(env, params, items[1..], ctx);
      assert forall k :: 1 <= k < |items| ==> items[k] == items[1..][k - 1];
      hide EvalAny, EvalAlternative;
      forall i | 0 < i < |items| && Decides(env, items, ctx, i)
        ensures Decides(env, items[1..], ctx, i - 1)
      {
      }
    }
  }
}

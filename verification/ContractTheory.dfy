/** Metatheory of the contract language. */
module ContractTheory {
  import opened Values
  import opened Events
  import opened UpdateFolding
  import opened WorkflowSpec
  import opened PhaseOrder
  import opened Matching
  import opened Extensions
  import opened Contracts
  import RedGreen
  import Verdicts

  // ---------------------------------------------------------------------------
  // Type soundness
  // ---------------------------------------------------------------------------

  lemma {:induction false} CheckedPredicateNeverBreaks(
    env: Env, id: string, pred: string, params: Fields, scope: Scope, ctx: string)
    requires PredicateErrors(id, pred, params, scope) == []
    ensures EvalPredicate(env, pred, params, ctx) != Broken
    decreases Height(Obj(params)), 2, 0
  {
    hide RecordExists, LinkedRecord, Approved, NoneOpen, ArtifactPresent;
    if pred == PER_EACH {
      var item := ObjField(params, "item");
      ItemBelow(params);
      SubItemShrinks(item);
      var (p, prm) := SubItem(item).value;
      EachNeverBreaks(env, id, p, prm, scope, AllElementIds(Candidates(env, params), StrField(params, "each")));
    } else if pred == ANY_OF {
      ItemsBelow(params);
      AnyNeverBreaks(env, id, params, ListField(params, "items"), scope, ctx);
    }
  }

  lemma {:induction false} EachNeverBreaks(
    env: Env, id: string, pred: string, params: Fields, scope: Scope, ids: seq<string>)
    requires PredicateErrors(id, pred, params, scope) == []
    ensures EvalEach(env, pred, params, ids) != Broken
    decreases Height(Obj(params)), 3, |ids|
  {
    hide PredicateErrors, EvalPredicate;
    if ids != [] {
      CheckedPredicateNeverBreaks(env, id, pred, params, scope, ids[0]);
      EachNeverBreaks(env, id, pred, params, scope, ids[1..]);
    }
  }

  lemma {:induction false} AnyNeverBreaks(
    env: Env, id: string, params: Fields, items: seq<Value>, scope: Scope, ctx: string)
    requires Below(items, params) && ItemErrors(id, params, items, scope) == []
    ensures EvalAny(env, params, items, ctx) != Broken
    decreases Height(Obj(params)), 1, |items|
  {
    hide PredicateErrors, EvalPredicate;
    if items != [] {
      var (p, prm) := SubItem(items[0].fields).value;
      SubItemShrinks(items[0].fields);
      CheckedPredicateNeverBreaks(env, id, p, prm, scope, ctx);
      AnyNeverBreaks(env, id, params, items[1..], scope, ctx);
    }
  }

  lemma {:induction false} CheckedItemsNeverBreak(env: Env, items: seq<ContractItem>, scope: Scope)
    requires forall i :: 0 <= i < |items| ==>
      PredicateErrors(items[i].id, items[i].predicateName, items[i].params, scope) == []
    ensures EvaluateItems(env, items).Ok?
  {
    hide PredicateErrors, EvalPredicate, Skipped;
    if items != [] {
      CheckedPredicateNeverBreaks(env, items[0].id, items[0].predicateName, items[0].params, scope, "");
      CheckedItemsNeverBreak(env, items[1..], scope);
    }
  }

  lemma {:induction false} StageItemsAreItems(items: seq<ContractItem>, phase: string, family: string, entry: bool)
    ensures forall c :: c in ContractsForStage(items, phase, family, entry) <==>
              c in items && AppliesTo(c, phase, family, entry)
  {
    hide AppliesTo;
    if items != [] {
      StageItemsAreItems(items[1..], phase, family, entry);
      assert forall c :: c in items <==> c == items[0] || c in items[1..];
    }
  }

  /** A specification the type checker accepts evaluates without error: any stage of any
      phase, for any family, on any log and in any world. */
  lemma AcceptedSpecNeverBreaks(env: Env, phase: string, entry: bool)
    requires WellFormed(env.spec)
    ensures EvaluateStage(env, phase, entry).Ok?
  {
    hide PredicateErrors, WellTyped, EvaluateItems;
    var items := ContractsForStage(env.spec.contracts, phase, env.family, entry);
    StageItemsAreItems(env.spec.contracts, phase, env.family, entry);
    var scope := ScopeOf(env.spec);
    forall i | 0 <= i < |items|
      ensures PredicateErrors(items[i].id, items[i].predicateName, items[i].params, scope) == []
    {
      assert items[i] in env.spec.contracts;
      var j :| 0 <= j < |env.spec.contracts| && env.spec.contracts[j] == items[i];
      assert ContractOk(env.spec, Names(env.spec.phases, (p: Phase) => p.id), scope, env.spec.contracts[j]);
      CheckedIffTyped(items[i].id, items[i].predicateName, items[i].params, scope);
    }
    CheckedItemsNeverBreak(env, items, scope);
  }

  // ---------------------------------------------------------------------------
  // Monotonicity of the positive fragment
  // ---------------------------------------------------------------------------

  /** Predicates that only ask for evidence; a per-each must not range over a kind that
      may still grow. */
  predicate Positive(pred: string, params: Fields, growing: set<string>)
    decreases Height(Obj(params)), 1, 0
  {
    if pred == PER_EACH then
      && StrField(params, "kind") !in growing
      && match SubItem(ObjField(params, "item"))
         case None => true
         case Some((p, prm)) =>
           ItemBelow(params);
           SubItemShrinks(ObjField(params, "item"));
           Positive(p, prm, growing)
    else if pred == ANY_OF then
      ItemsBelow(params);
      AllPositive(params, ListField(params, "items"), growing)
    else pred in {RECORD_EXISTS, LINKED_RECORD, APPROVAL, RED_GREEN}
  }

  predicate AllPositive(ghost params: Fields, items: seq<Value>, growing: set<string>)
    requires Below(items, params)
    decreases Height(Obj(params)), 0, |items|
  {
    if items == [] then true
    else if items[0].Obj? && SubItem(items[0].fields).Some? then
      SubItemShrinks(items[0].fields);
      var (p, prm) := SubItem(items[0].fields).value;
      Positive(p, prm, growing) && AllPositive(params, items[1..], growing)
    else AllPositive(params, items[1..], growing)
  }

  /** Evidence only improves: what evaluated goes on evaluating, what was met stays met. */
  predicate NoWorse(before: Eval, after: Eval) {
    && (before != Broken ==> after != Broken)
    && (before == Met ==> after == Met)
  }

  function Grown(env: Env, more: seq<Event>): Env {
    env.(events := env.events + more)
  }

  function KindsOf(events: seq<Event>): set<string> {
    set i | 0 <= i < |events| :: events[i].kind
  }

  lemma CandidatesGrow(env: Env, more: seq<Event>, params: Fields)
    requires NoUpdates(more)
    ensures Candidates(env, params) <= Candidates(Grown(env, more), params)
  {
    var kind := StrField(params, "kind");
    AppendOnlyAdds(env.events, more, kind);
    MatchedPrefix(env.world.show, Records(env.events, kind), Records(env.events + more, kind),
                  ObjField(params, "filter"));
  }

  lemma BasicEvidenceStays(env: Env, more: seq<Event>, pred: string, params: Fields, ctx: string)
    requires NoUpdates(more) && pred in {RECORD_EXISTS, LINKED_RECORD, APPROVAL, RED_GREEN}
    ensures NoWorse(EvalPredicate(env, pred, params, ctx), EvalPredicate(Grown(env, more), pred, params, ctx))
  {
    hide Records, AnyHas, Candidates;
    var env' := Grown(env, more);
    CandidatesGrow(env, more, params);
    var a, b := Candidates(env, params), Candidates(env', params);
    if pred == RECORD_EXISTS {
      CountPrefix(a, b, StrField(ObjField(params, "elements"), "field"));
    } else if pred == LINKED_RECORD {
      if AnyHas(a, StrField(params, "link"), ctx) { AnyHasPrefix(a, b, StrField(params, "link"), ctx); }
    } else if pred == APPROVAL {
      AppendOnlyAdds(env.events, more, "approval");
      var gate := StrField(params, "gate");
      var ra, rb := Records(env.events, "approval"), Records(env'.events, "approval");
      if AnyHas(ra, "gate", gate) { AnyHasPrefix(ra, rb, "gate", gate); }
    } else {
      RedGreen.ClassNeverDrops(env, more, StrField(params, "link"), ctx);
    }
  }

  /** Appending events that are neither updates nor of a kind a per-each ranges over
      never takes a positive predicate back, however deeply it is nested. */
  lemma {:induction false} PositiveIsMonotone(env: Env, more: seq<Event>, pred: string, params: Fields, ctx: string)
    requires NoUpdates(more) && Positive(pred, params, KindsOf(more))
    ensures NoWorse(EvalPredicate(env, pred, params, ctx), EvalPredicate(Grown(env, more), pred, params, ctx))
    decreases Height(Obj(params)), 2, 0
  {
    hide NoWorse;
    var env' := Grown(env, more);
    if pred == PER_EACH {
      PerEachIsMonotone(env, more, params, ctx);
    } else if pred == ANY_OF {
      ItemsBelow(params);
      AnyIsMonotone(env, more, params, ListField(params, "items"), ctx);
      AnyOfUnfolds(env, params, ctx);
      AnyOfUnfolds(env', params, ctx);
    } else {
      BasicEvidenceStays(env, more, pred, params, ctx);
    }
  }

  lemma AnyOfUnfolds(env: Env, params: Fields, ctx: string)
    requires Below(ListField(params, "items"), params)
    ensures EvalPredicate(env, ANY_OF, params, ctx) == EvalAny(env, params, ListField(params, "items"), ctx)
  {
  }

  lemma {:induction false} PerEachIsMonotone(env: Env, more: seq<Event>, params: Fields, ctx: string)
    requires NoUpdates(more) && Positive(PER_EACH, params, KindsOf(more))
    ensures NoWorse(EvalPredicate(env, PER_EACH, params, ctx), EvalPredicate(Grown(env, more), PER_EACH, params, ctx))
    decreases Height(Obj(params)), 1, 0
  {
    hide Records;
    var env' := Grown(env, more);
    var item := ObjField(params, "item");
    if SubItem(item).Some? {
      ItemBelow(params);
      SubItemShrinks(item);
      var (p, prm) := SubItem(item).value;
      assert forall i :: 0 <= i < |more| ==> more[i].kind in KindsOf(more);
      OtherKindsAddNothing(env.events, more, StrField(params, "kind"));
      assert Candidates(env', params) == Candidates(env, params);
      EachIsMonotone(env, more, p, prm, AllElementIds(Candidates(env, params), StrField(params, "each")));
    }
  }

  lemma {:induction false} EachIsMonotone(env: Env, more: seq<Event>, pred: string, params: Fields, ids: seq<string>)
    requires NoUpdates(more) && Positive(pred, params, KindsOf(more))
    ensures NoWorse(EvalEach(env, pred, params, ids), EvalEach(Grown(env, more), pred, params, ids))
    decreases Height(Obj(params)), 3, |ids|
  {
    hide EvalPredicate, Positive;
    if ids != [] {
      PositiveIsMonotone(env, more, pred, params, ids[0]);
      EachIsMonotone(env, more, pred, params, ids[1..]);
    }
  }

  lemma {:induction false} AnyIsMonotone(env: Env, more: seq<Event>, params: Fields, items: seq<Value>, ctx: string)
    requires Below(items, params) && NoUpdates(more) && AllPositive(params, items, KindsOf(more))
    ensures NoWorse(EvalAny(env, params, items, ctx), EvalAny(Grown(env, more), params, items, ctx))
    decreases Height(Obj(params)), 1, |items|
  {
    hide EvalPredicate, Positive;
    if items != [] {
      AnyIsMonotone(env, more, params, items[1..], ctx);
      if items[0].Obj? && SubItem(items[0].fields).Some? {
        var (p, prm) := SubItem(items[0].fields).value;
        SubItemShrinks(items[0].fields);
        PositiveIsMonotone(env, more, p, prm, ctx);
      }
    }
  }

  // ---------------------------------------------------------------------------
  // Extensions
  // ---------------------------------------------------------------------------

  /** The evaluator looks at the roster and the verdict vocabulary of a specification,
      and at nothing an extension can touch. */
  ghost predicate SameVocabulary(s: Spec, s': Spec) {
    s'.roster == s.roster && s'.verdicts == s.verdicts
  }

  lemma SameVerdict(env: Env, s: Spec, agent: string, scope: string, statuses: seq<string>, riskyOk: bool)
    requires SameVocabulary(env.spec, s)
    ensures Verdicts.VerdictIn(env.(spec := s), agent, scope, statuses, riskyOk) ==
            Verdicts.VerdictIn(env, agent, scope, statuses, riskyOk)
  {
    hide Records;
    var env' := env.(spec := s);
    assert Verdicts.EffectiveVerdict(env', agent, scope) == Verdicts.EffectiveVerdict(env, agent, scope);
  }

  lemma BasicVocabularySuffices(env: Env, s: Spec, pred: string, params: Fields, ctx: string)
    requires SameVocabulary(env.spec, s) && pred != PER_EACH && pred != ANY_OF
    ensures EvalPredicate(env.(spec := s), pred, params, ctx) == EvalPredicate(env, pred, params, ctx)
  {
    hide Records, AnyBacked, Verdicts.VerdictIn;
    var env' := env.(spec := s);
    assert Candidates(env', params) == Candidates(env, params);
    if pred == VERDICT_IN {
      SameVerdict(env, s, StrField(params, "agent"), StrField(params, "scope"), StrList(ListField(params, "statuses")),
                  BoolField(params, "risky_with_dispositions"));
    } else if pred == ARTIFACT_PRESENT {
      assert MentionIds(env', params) == MentionIds(env, params);
    }
  }

  lemma {:induction false} VocabularySuffices(env: Env, s: Spec, pred: string, params: Fields, ctx: string)
    requires SameVocabulary(env.spec, s)
    ensures EvalPredicate(env.(spec := s), pred, params, ctx) == EvalPredicate(env, pred, params, ctx)
    decreases Height(Obj(params)), 2, 0
  {
    hide Records;
    if pred == PER_EACH {
      var item := ObjField(params, "item");
      if SubItem(item).Some? {
        ItemBelow(params);
        SubItemShrinks(item);
        var (p, prm) := SubItem(item).value;
        EachVocabulary(env, s, p, prm, AllElementIds(Candidates(env, params), StrField(params, "each")));
      }
    } else if pred == ANY_OF {
      ItemsBelow(params);
      AnyVocabulary(env, s, params, ListField(params, "items"), ctx);
    } else {
      BasicVocabularySuffices(env, s, pred, params, ctx);
    }
  }

  lemma {:induction false} EachVocabulary(env: Env, s: Spec, pred: string, params: Fields, ids: seq<string>)
    requires SameVocabulary(env.spec, s)
    ensures EvalEach(env.(spec := s), pred, params, ids) == EvalEach(env, pred, params, ids)
    decreases Height(Obj(params)), 3, |ids|
  {
    hide EvalPredicate;
    if ids != [] {
      VocabularySuffices(env, s, pred, params, ids[0]);
      EachVocabulary(env, s, pred, params, ids[1..]);
    }
  }

  lemma {:induction false} AnyVocabulary(env: Env, s: Spec, params: Fields, items: seq<Value>, ctx: string)
    requires SameVocabulary(env.spec, s) && Below(items, params)
    ensures EvalAny(env.(spec := s), params, items, ctx) == EvalAny(env, params, items, ctx)
    decreases Height(Obj(params)), 1, |items|
  {
    hide EvalPredicate;
    if items != [] {
      AnyVocabulary(env, s, params, items[1..], ctx);
      if items[0].Obj? && SubItem(items[0].fields).Some? {
        var (p, prm) := SubItem(items[0].fields).value;
        SubItemShrinks(items[0].fields);
        VocabularySuffices(env, s, p, prm, ctx);
      }
    }
  }

  lemma {:induction false} ItemsVocabulary(env: Env, s: Spec, items: seq<ContractItem>)
    requires SameVocabulary(env.spec, s)
    ensures EvaluateItems(env.(spec := s), items) == EvaluateItems(env, items)
  {
    hide EvalPredicate, Records;
    if items != [] {
      VocabularySuffices(env, s, items[0].predicateName, items[0].params, "");
      ItemsVocabulary(env, s, items[1..]);
    }
  }

  lemma {:induction false} ItemsInSequence(env: Env, a: seq<ContractItem>, b: seq<ContractItem>)
    ensures EvaluateItems(env, a + b) == Then(EvaluateItems(env, a), EvaluateItems(env, b))
  {
    hide EvalPredicate, Skipped;
    if a == [] {
      assert a + b == b;
      var last := EvaluateItems(env, b);
      if last.Ok? { assert [] + last.value == last.value; }
    } else {
      ItemsInSequence(env, a[1..], b);
      ThenIsAssociative(Ok([FindingOf(a[0])]), EvaluateItems(env, a[1..]), EvaluateItems(env, b));
      assert (a + b)[0] == a[0] && (a + b)[1..] == a[1..] + b;
    }
  }

  lemma ThenIsAssociative(a: Evaluation, b: Evaluation, c: Evaluation)
    ensures Then(Then(a, b), c) == Then(a, Then(b, c))
  {
    if a.Ok? && b.Ok? && c.Ok? {
      assert (a.value + b.value) + c.value == a.value + (b.value + c.value);
    }
  }

  lemma {:induction false} StageInSequence(
    a: seq<ContractItem>, b: seq<ContractItem>, phase: string, family: string, entry: bool)
    ensures ContractsForStage(a + b, phase, family, entry) ==
            ContractsForStage(a, phase, family, entry) + ContractsForStage(b, phase, family, entry)
  {
    hide AppliesTo;
    if a == [] {
      assert a + b == b;
    } else {
      StageInSequence(a[1..], b, phase, family, entry);
      assert (a + b)[0] == a[0] && (a + b)[1..] == a[1..] + b;
      HeadFirst(if AppliesTo(a[0], phase, family, entry) then [a[0]] else [],
                ContractsForStage(a[1..], phase, family, entry), ContractsForStage(b, phase, family, entry));
    }
  }

  lemma HeadFirst(head: seq<ContractItem>, rest: seq<ContractItem>, more: seq<ContractItem>)
    ensures head + (rest + more) == (head + rest) + more
  {
  }

  function Merged(s: Spec, files: seq<Extension>): Spec {
    s.(records := s.records + AddedKinds(files), contracts := s.contracts + AddedItems(files))
  }

  /** Under the merged specification every stage reports exactly what it reported before
      the merge, followed by what the added items report. */
  lemma MergeOnlyAddsFindings(env: Env, files: seq<Extension>, phase: string, entry: bool)
    ensures EvaluateStage(env.(spec := Merged(env.spec, files)), phase, entry) ==
            Then(EvaluateStage(env, phase, entry),
                 EvaluateItems(env, ContractsForStage(AddedItems(files), phase, env.family, entry)))
  {
    hide EvaluateItems, ContractsForStage;
    var s := Merged(env.spec, files);
    StageInSequence(env.spec.contracts, AddedItems(files), phase, env.family, entry);
    ItemsVocabulary(env, s, ContractsForStage(s.contracts, phase, env.family, entry));
    ItemsInSequence(env, ContractsForStage(env.spec.contracts, phase, env.family, entry),
                    ContractsForStage(AddedItems(files), phase, env.family, entry));
  }

  /** An exit the merged specification allows, the shipped one allows too. */
  lemma ExtensionsNeverWeaken(env: Env, files: seq<Extension>, phase: string, next: string)
    requires ExitAllowed(env.(spec := Merged(env.spec, files)), phase, next)
    ensures ExitAllowed(env, phase, next)
  {
    hide EvaluateStage, EvaluateItems;
    MergeOnlyAddsFindings(env, files, phase, false);
    MergeOnlyAddsFindings(env, files, next, true);
  }

  /** In an accepted merge the shipped items come first, unchanged, and no added item
      carries a shipped or a repeated identity. */
  lemma MergedIdsAreUnique(s: Spec, files: seq<Extension>)
    requires Mergeable(s, files) && WellFormed(s)
    ensures Merged(s, files).contracts[..|s.contracts|] == s.contracts
    ensures Distinct(Merged(s, files).contracts, ItemId)
    ensures Distinct(Merged(s, files).records, KindName)
  {
    DistinctJoin(s.contracts, AddedItems(files), ItemId);
    DistinctJoin(s.records, AddedKinds(files), KindName);
  }

  lemma DistinctJoin<T(!new)>(a: seq<T>, b: seq<T>, name: T -> string)
    requires forall i, j :: 0 <= i < j < |a| ==> name(a[i]) != name(a[j])
    requires Distinct(b, name)
    requires forall i :: 0 <= i < |b| ==> name(b[i]) !in Names(a, name)
    ensures Distinct(a + b, name)
  {
    forall i, j | 0 <= i < j < |a + b|
      ensures name((a + b)[i]) != name((a + b)[j])
    {
      if i < |a| { assert name(a[i]) in Names(a, name); }
    }
  }
}

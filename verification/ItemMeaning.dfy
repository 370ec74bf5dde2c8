/** When a contract item counts: conditions, waivers, filters, told by what is on record. */
module ItemMeaning {
  import opened Values
  import opened UpdateFolding
  import opened WorkflowSpec
  import opened Matching
  import opened Contracts

  /** Some record of a kind carries a text in a field. */
  ghost predicate SomeSays(env: Env, kind: string, field: string, text: string) {
    exists i :: 0 <= i < |Records(env.events, kind)| && StrField(Records(env.events, kind)[i].data, field) == text
  }

  // ---------------------------------------------------------------------------
  // Filters
  // ---------------------------------------------------------------------------

  /** Two scalars count as the same: equal numbers, equal truth values, or, where they are
      not both numbers and not both truth values, equal in print. */
  predicate SameScalar(show: Value -> string, got: Value, want: Value) {
    || (got.Num? && want.Num? && got.n == want.n)
    || (got.Bool? && want.Bool? && got.b == want.b)
    || (!(got.Num? && want.Num?) && !(got.Bool? && want.Bool?) && show(got) == show(want))
  }

  /** The field is present and like what is wanted, or like one of a list of wants. */
  ghost predicate FieldFits(show: Value -> string, data: Fields, key: string, want: Value) {
    && key in data
    && (!want.List? ==> SameScalar(show, data[key], want))
    && (want.List? ==> exists w :: w in want.items && SameScalar(show, data[key], w))
  }

  ghost predicate FitsAll(show: Value -> string, data: Fields, filter: Fields) {
    forall key :: key in filter ==> FieldFits(show, data, key, filter[key])
  }

  lemma FieldIff(show: Value -> string, data: Fields, key: string, want: Value)
    ensures FieldFits(show, data, key, want) <==>
            key in data
            && if want.List?
               then exists i :: 0 <= i < |want.items| && ValueEq(show, data[key], want.items[i])
               else ValueEq(show, data[key], want)
  {
    if want.List? && key in data {
      forall i | 0 <= i < |want.items|
        ensures ValueEq(show, data[key], want.items[i]) == SameScalar(show, data[key], want.items[i])
        ensures want.items[i] in want.items
      {
      }
    }
  }

  lemma FilterIff(show: Value -> string, data: Fields, filter: Fields)
    ensures MatchesFilter(show, data, filter) <==> FitsAll(show, data, filter)
  {
    hide FieldFits, ValueEq;
    forall key | key in filter
      ensures FieldFits(show, data, key, filter[key]) <==>
              key in data
              && if filter[key].List?
                 then exists i :: 0 <= i < |filter[key].items| && ValueEq(show, data[key], filter[key].items[i])
                 else ValueEq(show, data[key], filter[key])
    {
      FieldIff(show, data, key, filter[key]);
    }
  }

  /** The matching records are exactly those whose data fits the filter field by field. */
  lemma {:induction false} MatchedIsFilter(show: Value -> string, rs: seq<Record>, filter: Fields)
    ensures forall r :: r in Matched(show, rs, filter) <==> r in rs && FitsAll(show, r.data, filter)
  {
    hide MatchesFilter, FitsAll;
    if rs != [] {
      MatchedIsFilter(show, rs[..|rs| - 1], filter);
      FilterIff(show, rs[|rs| - 1].data, filter);
      assert rs == rs[..|rs| - 1] + [rs[|rs| - 1]];
    }
  }

  /** Some record of a kind fits a filter. */
  ghost predicate SomeFits(env: Env, kind: string, filter: Fields) {
    exists i :: 0 <= i < |Records(env.events, kind)|
                && FitsAll(env.world.show, Records(env.events, kind)[i].data, filter)
  }

  // ---------------------------------------------------------------------------
  // Conditions
  // ---------------------------------------------------------------------------

  /** The configuration says what is wanted under a key; one it does not know reads as null. */
  predicate Configured(env: Env, key: string, want: Value) {
    && (key == "ux" ==> SameScalar(env.world.show, Bool(env.config.ux), want))
    && (key == "thresholds" ==> SameScalar(env.world.show, Bool(|env.config.thresholds| > 0), want))
    && (key != "ux" && key != "thresholds" && key in env.config.flags ==>
      SameScalar(env.world.show, env.config.flags[key], want))
    && (key != "ux" && key != "thresholds" && key !in env.config.flags ==> SameScalar(env.world.show, Null, want))
  }

  /** A signal, plain or with details, is one of those wanted; what is neither counts as the
      signal without a name. */
  predicate Raises(v: Value, want: seq<string>) {
    || (v.Str? && v.s in want)
    || (v.Obj? && StrField(v.fields, "signal") in want)
    || (!v.Str? && !v.Obj? && "" in want)
  }

  ghost predicate SignalRaised(env: Env, want: seq<string>) {
    exists i, v :: 0 <= i < |Records(env.events, "risk")|
                   && v in ListField(Records(env.events, "risk")[i].data, "signals") && Raises(v, want)
  }

  /** The run's intent is listed, the configuration agrees, a signal is raised and a record
      is there, as far as the condition asks for each. */
  ghost predicate Holds(env: Env, w: When) {
    && (w.intents == [] || env.intent in w.intents)
    && (forall key :: key in w.config ==> Configured(env, key, w.config[key]))
    && (w.signals == [] || SignalRaised(env, w.signals))
    && (w.records.Some? ==> SomeFits(env, w.records.value.kind, w.records.value.filter))
  }

  lemma {:induction false} SignalsIff(env: Env, want: seq<string>)
    ensures RunHasSignal(env, want) <==> SignalRaised(env, want)
  {
    hide Records, HasSignal, Raises;
    var risks := Records(env.events, "risk");
    if RunHasSignal(env, want) {
      var i :| 0 <= i < |risks| && HasSignal(ListField(risks[i].data, "signals"), want);
      ListIff(ListField(risks[i].data, "signals"), want);
      var v :| v in ListField(risks[i].data, "signals") && Raises(v, want);
    }
    if SignalRaised(env, want) {
      var i, v :| 0 <= i < |risks| && v in ListField(risks[i].data, "signals") && Raises(v, want);
      ListIff(ListField(risks[i].data, "signals"), want);
    }
  }

  lemma ListIff(signals: seq<Value>, want: seq<string>)
    ensures HasSignal(signals, want) <==> exists v :: v in signals && Raises(v, want)
  {
    if HasSignal(signals, want) {
      var i :| 0 <= i < |signals| &&
        (match signals[i]
         case Str(s) => s
         case Obj(m) => StrField(m, "signal")
         case _ => "") in want;
      assert signals[i] in signals && Raises(signals[i], want);
    }
    forall v | v in signals && Raises(v, want)
      ensures HasSignal(signals, want)
    {
      var i :| 0 <= i < |signals| && signals[i] == v;
    }
  }

  lemma MatchingIff(env: Env, kind: string, filter: Fields)
    ensures MatchRecords(env, kind, filter) != [] <==> SomeFits(env, kind, filter)
  {
    hide Records, FitsAll;
    var rs := Records(env.events, kind);
    MatchedIsFilter(env.world.show, rs, filter);
    var found := MatchRecords(env, kind, filter);
    if found != [] { assert found[0] in found; }
    if SomeFits(env, kind, filter) {
      var i :| 0 <= i < |rs| && FitsAll(env.world.show, rs[i].data, filter);
      assert rs[i] in found;
    }
  }

  lemma ConfiguredIff(env: Env, key: string, want: Value)
    ensures ValueEq(env.world.show, ConfigFlag(env.config, key), want) <==> Configured(env, key, want)
  {
  }

  lemma {:induction false} ConditionIff(env: Env, w: When)
    ensures WhenApplies(env, Some(w)) <==> Holds(env, w)
  {
    hide RunHasSignal, SignalRaised, MatchRecords, SomeFits, ValueEq, Configured;
    SignalsIff(env, w.signals);
    if w.records.Some? { MatchingIff(env, w.records.value.kind, w.records.value.filter); }
    forall key | key in w.config
      ensures ValueEq(env.world.show, ConfigFlag(env.config, key), w.config[key]) <==>
              Configured(env, key, w.config[key])
    {
      ConfiguredIff(env, key, w.config[key]);
    }
  }

  // ---------------------------------------------------------------------------
  // Items
  // ---------------------------------------------------------------------------

  /** The item's condition fails, or the item is waivable and a waiver names it. */
  ghost predicate PassedOver(env: Env, it: ContractItem) {
    || (it.when.Some? && !Holds(env, it.when.value))
    || (it.waivable && SomeSays(env, "waiver", "item", it.id))
  }

  lemma SkippedIff(env: Env, it: ContractItem)
    ensures Skipped(env, it) <==> PassedOver(env, it)
  {
    hide WhenApplies, Holds;
    if it.when.Some? { ConditionIff(env, it.when.value); }
    else { NoCondition(env); }
  }

  lemma NoCondition(env: Env)
    ensures WhenApplies(env, None)
  {
  }
}

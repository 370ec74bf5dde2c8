/** What each predicate of a contract item asks of the records. */
module PredicateMeaning {
  import opened Values
  import opened UpdateFolding
  import opened WorkflowSpec
  import opened Matching
  import opened Contracts
  import opened ItemMeaning
  import opened ContractMeaning
  import Verdicts
  import RedGreen

  /** Positions of the records that fit a filter. */
  ghost function Fitting(show: Value -> string, rs: seq<Record>, filter: Fields): set<nat> {
    set i: nat | i < |rs| && FitsAll(show, rs[i].data, filter)
  }

  lemma LastFitting(show: Value -> string, rs: seq<Record>, filter: Fields)
    requires rs != []
    ensures
      var init, last := rs[..|rs| - 1], rs[|rs| - 1];
      |Fitting(show, rs, filter)| == |Fitting(show, init, filter)| + if FitsAll(show, last.data, filter) then 1 else 0
  {
    hide FitsAll;
    var init, last := rs[..|rs| - 1], rs[|rs| - 1];
    assert forall i :: 0 <= i < |init| ==> init[i] == rs[i];
    var more: set<nat> := if FitsAll(show, last.data, filter) then {|init|} else {};
    forall i: nat
      ensures i in Fitting(show, rs, filter) <==> i in Fitting(show, init, filter) || i in more
    {
      if i < |init| { assert init[i] == rs[i]; }
    }
    assert Fitting(show, rs, filter) == Fitting(show, init, filter) + more;
  }

  lemma {:induction false} MatchedAreFitting(show: Value -> string, rs: seq<Record>, filter: Fields)
    ensures |Matched(show, rs, filter)| == |Fitting(show, rs, filter)|
  {
    hide MatchesFilter, FitsAll;
    if rs != [] {
      MatchedAreFitting(show, rs[..|rs| - 1], filter);
      FilterIff(show, rs[|rs| - 1].data, filter);
      LastFitting(show, rs, filter);
    }
  }

  // ---------------------------------------------------------------------------
  // Elements
  // ---------------------------------------------------------------------------

  /** Record and position of every element of a list field that counts, over the records
      that fit. */
  ghost function Elements(
    show: Value -> string, rs: seq<Record>, filter: Fields, field: string, counts: Value -> bool): set<(nat, nat)>
  {
    set i: nat, j: nat | i < |rs| && FitsAll(show, rs[i].data, filter)
                         && j < |ListField(rs[i].data, field)| && counts(ListField(rs[i].data, field)[j]) :: (i, j)
  }

  ghost function Row(i: nat, items: seq<Value>, counts: Value -> bool): (row: set<(nat, nat)>)
    ensures forall p :: p in row <==> p.0 == i && p.1 < |items| && counts(items[p.1])
  {
    if items == [] then {}
    else
      Row(i, items[..|items| - 1], counts) + if counts(items[|items| - 1]) then {(i, |items| - 1)} else {}
  }

  lemma ElementOfLast(
    show: Value -> string, rs: seq<Record>, filter: Fields, field: string, counts: Value -> bool, p: (nat, nat))
    requires rs != []
    ensures
      var init, last := rs[..|rs| - 1], rs[|rs| - 1];
      p in Elements(show, rs, filter, field, counts) <==>
      || p in Elements(show, init, filter, field, counts)
      || (FitsAll(show, last.data, filter) && p in Row(|init|, ListField(last.data, field), counts))
  {
    hide FitsAll;
    if p.0 < |rs| - 1 { assert rs[..|rs| - 1][p.0] == rs[p.0]; }
  }

  lemma LastElements(show: Value -> string, rs: seq<Record>, filter: Fields, field: string, counts: Value -> bool)
    requires rs != []
    ensures
      var init, last := rs[..|rs| - 1], rs[|rs| - 1];
      |Elements(show, rs, filter, field, counts)| == |Elements(show, init, filter, field, counts)|
      + if FitsAll(show, last.data, filter) then |Row(|init|, ListField(last.data, field), counts)| else 0
  {
    hide FitsAll, Elements;
    var init, last := rs[..|rs| - 1], rs[|rs| - 1];
    var before := Elements(show, init, filter, field, counts);
    var row := if FitsAll(show, last.data, filter) then Row(|init|, ListField(last.data, field), counts) else {};
    forall p
      ensures p in Elements(show, rs, filter, field, counts) <==> p in before || p in row
    {
      ElementOfLast(show, rs, filter, field, counts, p);
    }
    assert Elements(show, rs, filter, field, counts) == before + row;
    assert before !! row by { ElementsAreEarlier(show, init, filter, field, counts); }
  }

  lemma ElementsAreEarlier(
    show: Value -> string, rs: seq<Record>, filter: Fields, field: string, counts: Value -> bool)
    ensures forall p :: p in Elements(show, rs, filter, field, counts) ==> p.0 < |rs|
  {
  }

  lemma {:induction false} EveryElementCounts(i: nat, items: seq<Value>)
    ensures |Row(i, items, v => true)| == |items|
  {
    if items != [] { EveryElementCounts(i, items[..|items| - 1]); }
  }

  lemma {:induction false} ElementsAreCounted(show: Value -> string, rs: seq<Record>, filter: Fields, field: string)
    ensures CountElements(Matched(show, rs, filter), field) == |Elements(show, rs, filter, field, v => true)|
  {
    hide MatchesFilter, FitsAll, Elements;
    if rs != [] {
      var init, last := rs[..|rs| - 1], rs[|rs| - 1];
      ElementsAreCounted(show, init, filter, field);
      FilterIff(show, last.data, filter);
      LastElements(show, rs, filter, field, v => true);
      EveryElementCounts(|init|, ListField(last.data, field));
      var found := Matched(show, init, filter);
      assert found + [] == found && (found + [last])[..|found|] == found;
    } else {
      NoElements(show, filter, field, v => true);
    }
  }

  lemma NoElements(show: Value -> string, filter: Fields, field: string, counts: Value -> bool)
    ensures Elements(show, [], filter, field, counts) == {}
  {
  }

  /** Met exactly when enough records fit and, where elements are asked for, the list fields
      of those that fit have enough between them. */
  lemma RecordExistsIff(env: Env, params: Fields, ctx: string)
    ensures
      var show, rs, filter := env.world.show, Records(env.events, StrField(params, "kind")), ObjField(params, "filter");
      EvalPredicate(env, "record-exists", params, ctx) ==
      if && |Fitting(show, rs, filter)| >= IntField(params, "min", 1)
         && ("elements" in params && params["elements"].Obj? ==>
           var el := params["elements"].fields;
           |Elements(show, rs, filter, StrField(el, "field"), v => true)| >= IntField(el, "min", 1))
      then Met else Unmet
  {
    hide Records, Fitting, Elements;
    var show, rs, filter := env.world.show, Records(env.events, StrField(params, "kind")), ObjField(params, "filter");
    MatchedAreFitting(show, rs, filter);
    if "elements" in params && params["elements"].Obj? {
      ElementsAreCounted(show, rs, filter, StrField(params["elements"].fields, "field"));
    }
  }

  // ---------------------------------------------------------------------------
  // Per-each
  // ---------------------------------------------------------------------------

  /** A text, or an object with an identity. */
  predicate HasId(v: Value) {
    v.Str? || (v.Obj? && "id" in v.fields && v.fields["id"].Str? && v.fields["id"].s != "")
  }

  function IdOf(v: Value): string
    requires HasId(v)
  {
    if v.Str? then v.s else v.fields["id"].s
  }

  lemma {:induction false} LastItemId(items: seq<Value>)
    requires items != []
    ensures
      var init, last := items[..|items| - 1], items[|items| - 1];
      ItemIds(items) == ItemIds(init) + if HasId(last) then [IdOf(last)] else []
  {
    if |items| > 1 {
      LastItemId(items[1..]);
      assert items[1..][..|items| - 2] == items[..|items| - 1][1..];
    }
  }

  lemma LastInRow(i: nat, items: seq<Value>)
    requires items != []
    ensures |Row(i, items, HasId)| == |Row(i, items[..|items| - 1], HasId)| + if HasId(items[|items| - 1]) then 1 else 0
  {
    hide HasId;
    assert (i, |items| - 1) !in Row(i, items[..|items| - 1], HasId);
  }

  lemma {:induction false} NamedElementsCount(i: nat, items: seq<Value>)
    ensures |ItemIds(items)| == |Row(i, items, HasId)|
  {
    hide ItemIds, HasId, IdOf;
    if items != [] {
      NamedElementsCount(i, items[..|items| - 1]);
      LastItemId(items);
      LastInRow(i, items);
    } else {
      NoItemIds();
    }
  }

  lemma {:induction false} NamedElementsAre(items: seq<Value>, id: string)
    ensures id in ItemIds(items) <==> exists v :: v in items && HasId(v) && IdOf(v) == id
  {
    hide ItemIds, HasId, IdOf;
    if items != [] {
      var init, last := items[..|items| - 1], items[|items| - 1];
      NamedElementsAre(init, id);
      LastItemId(items);
      assert items == init + [last];
    } else {
      NoItemIds();
    }
  }

  lemma NoItemIds()
    ensures ItemIds([]) == []
  {
  }

  /** How many elements a per-each visits: the records that fit or, where it names a list
      field, the elements of it that have an identity. */
  ghost function Visited(show: Value -> string, rs: seq<Record>, filter: Fields, each: string): nat {
    if each == "" then |Fitting(show, rs, filter)| else |Elements(show, rs, filter, each, HasId)|
  }

  lemma {:induction false} VisitsAreCounted(show: Value -> string, rs: seq<Record>, filter: Fields, each: string)
    ensures |AllElementIds(Matched(show, rs, filter), each)| == Visited(show, rs, filter, each)
  {
    hide MatchesFilter, FitsAll, Elements, ItemIds, RecordIdentity;
    if rs != [] {
      var init, last := rs[..|rs| - 1], rs[|rs| - 1];
      VisitsAreCounted(show, init, filter, each);
      FilterIff(show, last.data, filter);
      LastElements(show, rs, filter, each, HasId);
      NamedElementsCount(|init|, ListField(last.data, each));
      LastFitting(show, rs, filter);
      hide Fitting, HasId, Row;
      var found := Matched(show, init, filter);
      assert found + [] == found && (found + [last])[..|found|] == found;
    } else {
      NoElements(show, filter, each, HasId);
    }
  }

  /** What a record goes by: the first of four fields that is not empty, its own identity
      failing that. */
  predicate GoesBy(r: Record, id: string) {
    var tid, rid, ac, own := StrField(r.data, "tid"), StrField(r.data, "rid"), StrField(r.data, "ac"),
                             StrField(r.data, "id");
    || (tid != "" && id == tid)
    || (tid == "" && rid != "" && id == rid)
    || (tid == "" && rid == "" && ac != "" && id == ac)
    || (tid == "" && rid == "" && ac == "" && own != "" && id == own)
    || (tid == "" && rid == "" && ac == "" && own == "" && id == r.id)
  }

  /** A per-each visits `id` at this record. */
  ghost predicate Visits(r: Record, each: string, id: string) {
    if each == "" then GoesBy(r, id) else exists v :: v in ListField(r.data, each) && HasId(v) && IdOf(v) == id
  }

  lemma ElementIdsAreVisits(r: Record, each: string, id: string)
    ensures id in ElementIds(r, each) <==> Visits(r, each, id)
  {
    NamedElementsAre(ListField(r.data, each), id);
  }

  /** Met exactly when enough elements are visited and the nested predicate is met for every
      one of them; broken when the nested item names no predicate. */
  lemma {:induction false} PerEachIff(env: Env, params: Fields, ctx: string)
    ensures
      var rs, filter, each := Records(env.events, StrField(params, "kind")), ObjField(params, "filter"),
                              StrField(params, "each");
      var item := ObjField(params, "item");
      if StrField(item, "predicate") == "" then EvalPredicate(env, "per-each", params, ctx) == Broken
      else
        (EvalPredicate(env, "per-each", params, ctx) == Met <==>
         && Visited(env.world.show, rs, filter, each) >= IntField(params, "min", 0)
         && forall r, id :: r in rs && FitsAll(env.world.show, r.data, filter) && Visits(r, each, id) ==>
           EvalPredicate(env, StrField(item, "predicate"), ObjField(item, "params"), id) == Met)
  {
    hide Records, FitsAll, Visits, ElementIds, AllElementIds, Visited, EvalEach;
    var rs, filter, each := Records(env.events, StrField(params, "kind")), ObjField(params, "filter"),
                            StrField(params, "each");
    var item := ObjField(params, "item");
    if StrField(item, "predicate") != "" {
      PerEachMeansAll(env, params, ctx);
      VisitsAreCounted(env.world.show, rs, filter, each);
      MatchedIsFilter(env.world.show, rs, filter);
      forall id
        ensures ElementOf(Candidates(env, params), each, id) <==>
                exists r :: r in rs && FitsAll(env.world.show, r.data, filter) && Visits(r, each, id)
      {
        VisitedIff(env, params, id);
      }
    }
  }

  lemma VisitedIff(env: Env, params: Fields, id: string)
    ensures
      var rs, filter, each := Records(env.events, StrField(params, "kind")), ObjField(params, "filter"),
                              StrField(params, "each");
      ElementOf(Candidates(env, params), each, id) <==>
      exists r :: r in rs && FitsAll(env.world.show, r.data, filter) && Visits(r, each, id)
  {
    hide Records, FitsAll, Visits, ElementIds;
    MatchedIsFilter(env.world.show, Records(env.events, StrField(params, "kind")), ObjField(params, "filter"));
    forall r
      ensures id in ElementIds(r, StrField(params, "each")) <==> Visits(r, StrField(params, "each"), id)
    {
      ElementIdsAreVisits(r, StrField(params, "each"), id);
    }
  }

  // ---------------------------------------------------------------------------
  // Simple predicates
  // ---------------------------------------------------------------------------

  /** Some record fits and links to the element at hand, which has an identity. */
  lemma LinkedRecordIff(env: Env, params: Fields, ctx: string)
    ensures
      var rs := Records(env.events, StrField(params, "kind"));
      EvalPredicate(env, "linked-record", params, ctx) ==
      if ctx != "" && exists r :: r in rs && FitsAll(env.world.show, r.data, ObjField(params, "filter"))
                                  && StrField(r.data, StrField(params, "link")) == ctx
      then Met else Unmet
  {
    hide Records, FitsAll;
    var rs := Records(env.events, StrField(params, "kind"));
    MatchedIsFilter(env.world.show, rs, ObjField(params, "filter"));
    var found := Candidates(env, params);
    assert forall i :: 0 <= i < |found| ==> found[i] in found;
  }

  lemma ApprovalIff(env: Env, params: Fields, ctx: string)
    ensures EvalPredicate(env, "approval", params, ctx) ==
            if SomeSays(env, "approval", "gate", StrField(params, "gate")) then Met else Unmet
  {
    hide Records;
  }

  /** No record that fits shows one of the open values; a missing field shows as null. */
  lemma NoOpenIff(env: Env, params: Fields, ctx: string)
    ensures
      var rs, field := Records(env.events, StrField(params, "kind")), StrField(params, "field");
      EvalPredicate(env, "no-open", params, ctx) ==
      if exists r :: r in rs && FitsAll(env.world.show, r.data, ObjField(params, "filter"))
                     && Str(env.world.show(if field in r.data then r.data[field] else Null))
                        in ListField(params, "open")
      then Unmet else Met
  {
    hide Records, FitsAll;
    var rs, field := Records(env.events, StrField(params, "kind")), StrField(params, "field");
    MatchedIsFilter(env.world.show, rs, ObjField(params, "filter"));
    var found := Candidates(env, params);
    assert forall i :: 0 <= i < |found| ==> found[i] in found;
    forall s
      ensures s in StrList(ListField(params, "open")) <==> Str(s) in ListField(params, "open")
    {
      StrListIff(ListField(params, "open"), s);
    }
  }

  /** The identities an artifact must name: those the records of a kind carry in a field. */
  lemma MentionsAre(env: Env, params: Fields, id: string)
    ensures
      var m := ObjField(params, "mentions");
      id in MentionIds(env, params) <==>
      && StrField(m, "kind") != "" && StrField(m, "field") != "" && id != ""
      && SomeSays(env, StrField(m, "kind"), StrField(m, "field"), id)
  {
    hide Records;
    var m := ObjField(params, "mentions");
    IdsNamedIff(Records(env.events, StrField(m, "kind")), StrField(m, "field"), id);
  }

  lemma {:induction false} IdsNamedIff(rs: seq<Record>, field: string, id: string)
    ensures id in IdsNamed(rs, field) <==>
            id != "" && exists i :: 0 <= i < |rs| && StrField(rs[i].data, field) == id
  {
    if rs != [] {
      IdsNamedIff(rs[..|rs| - 1], field, id);
      assert forall i :: 0 <= i < |rs| - 1 ==> rs[i] == rs[..|rs| - 1][i];
    }
  }

  /** The artifact on record is what the item asks for and its file is authored and names
      what it must. */
  ghost predicate Delivers(env: Env, params: Fields, r: Record) {
    var template, role, path := StrField(params, "template"), StrField(params, "role"), StrField(r.data, "path");
    && (template == "" || FieldFits(env.world.show, r.data, "template", Str(template)))
    && (role == "" || FieldFits(env.world.show, r.data, "role", Str(role)))
    && !("status" in r.data && r.data["status"] == Str("missing"))
    && env.world.authored(path, StrField(r.data, "template"))
    && (path == "" || MentionIds(env, params) == [] || env.world.mentionsAll(path, MentionIds(env, params)))
  }

  lemma ArtifactPresentIff(env: Env, params: Fields, ctx: string)
    ensures EvalPredicate(env, "artifact-present", params, ctx) ==
            if exists r :: r in Records(env.events, "artifact") && Delivers(env, params, r) then Met else Unmet
  {
    hide Records, FitsAll, MentionIds, FieldFits, ArtifactFilter;
    var rs, filter := Records(env.events, "artifact"), ArtifactFilter(params);
    MatchedIsFilter(env.world.show, rs, filter);
    var found := MatchRecords(env, "artifact", filter);
    assert forall i :: 0 <= i < |found| ==> found[i] in found;
    forall r
      ensures Delivers(env, params, r) <==>
              FitsAll(env.world.show, r.data, filter) && Backed(env.world, r, MentionIds(env, params))
    {
      ArtifactFits(env, params, r);
    }
  }

  lemma ArtifactFits(env: Env, params: Fields, r: Record)
    ensures Delivers(env, params, r) <==>
            && FitsAll(env.world.show, r.data, ArtifactFilter(params))
            && Backed(env.world, r, MentionIds(env, params))
  {
    hide MentionIds, FieldFits;
    var filter := ArtifactFilter(params);
    var template, role := StrField(params, "template"), StrField(params, "role");
    assert forall key :: key in filter <==> (key == "template" && template != "") || (key == "role" && role != "");
    assert template != "" ==> filter["template"] == Str(template);
    assert role != "" ==> filter["role"] == Str(role);
  }

  // ---------------------------------------------------------------------------
  // Verdicts, test runs, alternatives
  // ---------------------------------------------------------------------------

  ghost predicate Approves(env: Env, params: Fields, i: nat) {
    var rs, agent, scope := Records(env.events, "verdict"), StrField(params, "agent"), StrField(params, "scope");
    && i < |rs| && Verdicts.Decisive(env, rs, agent, scope, i) && !Verdicts.Barred(env, rs, agent, scope, i)
    && (|| Str(StrField(rs[i].data, "status")) in ListField(params, "statuses")
        || (&& StrField(rs[i].data, "status") == "risky" && BoolField(params, "risky_with_dispositions")
            && Verdicts.Disposed(env, rs[i])))
  }

  /** Met exactly when the decisive verdict is not barred and has a status the item lists, or
      is risky, dispositioned, and allowed to be. */
  lemma {:induction false} VerdictIff(env: Env, params: Fields, ctx: string)
    ensures EvalPredicate(env, "verdict-in", params, ctx) ==
            if exists i: nat :: Approves(env, params, i) then Met else Unmet
  {
    hide Records, Verdicts.VerdictIn, Verdicts.Decisive, Verdicts.Barred, Verdicts.Disposed;
    var rs := Records(env.events, "verdict");
    var statuses, risky := ListField(params, "statuses"), BoolField(params, "risky_with_dispositions");
    Verdicts.VerdictInIff(env, StrField(params, "agent"), StrField(params, "scope"), StrList(statuses), risky);
    forall i: nat
      ensures Approves(env, params, i) <==>
              && i < |rs| && Verdicts.Decisive(env, rs, StrField(params, "agent"), StrField(params, "scope"), i)
              && !Verdicts.Barred(env, rs, StrField(params, "agent"), StrField(params, "scope"), i)
              && Verdicts.Accepted(env, rs, StrList(statuses), risky, i)
    {
      if i < |rs| { StrListIff(statuses, StrField(rs[i].data, "status")); }
    }
    hide Approves, Verdicts.Accepted;
    var met := Verdicts.VerdictIn(env, StrField(params, "agent"), StrField(params, "scope"), StrList(statuses), risky);
    assert EvalPredicate(env, "verdict-in", params, ctx) == FromBool(met);
  }

  /** Met exactly when a failing run and a later passing one of the same runner are on record
      for the element at hand. */
  lemma {:induction false} RedGreenIff(env: Env, params: Fields, ctx: string)
    ensures EvalPredicate(env, "red-green", params, ctx) ==
            if exists red, green :: RedGreen.Proven(env, StrField(params, "link"), ctx, red, green)
            then Met else Unmet
  {
    hide Records, RedGreen.RedGreenClass, RedGreen.Proven;
    RedGreen.PassesIffProven(env, StrField(params, "link"), ctx);
  }

  /** The first alternative that is met or broken decides. */
  lemma {:induction false} AnyOfIff(env: Env, params: Fields, ctx: string)
    ensures
      var items := ListField(params, "items");
      && (forall i :: 0 <= i < |items| && Decides(env, items, ctx, i) ==>
        EvalPredicate(env, "any-of", params, ctx) == EvalAlternative(env, items[i], ctx))
      && ((forall i :: 0 <= i < |items| ==> EvalAlternative(env, items[i], ctx) == Unmet) <==>
          EvalPredicate(env, "any-of", params, ctx) == Unmet)
  {
    hide EvalAny, EvalAlternative, Decides;
    ItemsBelow(params);
    AnyMeansFirst(env, params, ListField(params, "items"), ctx);
  }

  /** What is none of the nine is an error. */
  lemma UnknownBreaks(env: Env, pred: string, params: Fields, ctx: string)
    requires pred !in {"record-exists", "linked-record", "verdict-in", "approval", "no-open", "per-each", "any-of",
                       "red-green", "artifact-present"}
    ensures EvalPredicate(env, pred, params, ctx) == Broken
  {
  }
}

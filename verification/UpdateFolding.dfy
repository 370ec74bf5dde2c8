/** Update folding: the one-pass construction and the meaning it refines. */
module UpdateFolding {
  import opened Values
  import opened Events

  datatype Record = Record(id: string, order: nat, auto: bool, data: Fields)

  // ---------------------------------------------------------------------------
  // Declarative meaning
  // ---------------------------------------------------------------------------

  /** Where, among the first `n` events, the identity `id` was last used. */
  function FindId(events: seq<Event>, id: string, n: nat): (at: Option<nat>)
    requires n <= |events|
    ensures at.Some? ==> at.value < n && events[at.value].id == id
    ensures at.None? ==> forall i :: 0 <= i < n ==> events[i].id != id
  {
    if n == 0 then None
    else if events[n - 1].id == id then Some(n - 1)
    else FindId(events, id, n - 1)
  }

  /** The record event `i` finally speaks about: itself when it opens a record, else
      whatever the earlier event it names speaks about. */
  function Origin(events: seq<Event>, i: nat): (r: Option<nat>)
    requires i < |events|
    ensures r.Some? ==> r.value <= i && IsOriginal(events[r.value])
  {
    if IsTransition(events[i]) then None
    else
      match UpdateTarget(events[i])
      case None => Some(i)
      case Some(target) =>
        match FindId(events, target, i)
        case None => None
        case Some(j) => Origin(events, j)
  }

  /** A record in its own right: no move of the engine, and naming no event to update. */
  predicate Opens(e: Event) {
    e.kind !in {"run", "phase"} && ("updates" !in e.data || !e.data["updates"].Str? || e.data["updates"] == Str(""))
  }

  predicate Updates(e: Event, id: string) {
    e.kind !in {"run", "phase"} && "updates" in e.data && e.data["updates"] == Str(id) && id != ""
  }

  /** A backward `updates` chain, oldest link first. */
  ghost predicate IsChain(events: seq<Event>, path: seq<nat>) {
    && path != []
    && (forall k :: 0 <= k < |path| ==> path[k] < |events|)
    && Opens(events[path[0]])
    && forall k :: 1 <= k < |path| ==> path[k - 1] < path[k] && Updates(events[path[k]], events[path[k - 1]].id)
  }

  /** Record `r` as the first `n` events leave it. */
  function RecordAt(events: seq<Event>, r: nat, n: nat): Record
    requires r < n <= |events|
  {
    if n == r + 1 then
      Record(events[r].id, r, events[r].auto, events[r].data)
    else
      var before := RecordAt(events, r, n - 1);
      var e := events[n - 1];
      if Origin(events, n - 1) == Some(r)
      then Overlaid(before, e)
      else before
  }

  function RecordsUpTo(events: seq<Event>, kind: string, n: nat): seq<Record>
    requires n <= |events|
  {
    if n == 0 then []
    else
      RecordsUpTo(events, kind, n - 1) +
      if IsOriginal(events[n - 1]) && events[n - 1].kind == kind
      then [RecordAt(events, n - 1, |events|)]
      else []
  }

  /** The effective records of a kind, in stream order. */
  function Records(events: seq<Event>, kind: string): seq<Record> {
    RecordsUpTo(events, kind, |events|)
  }

  /** The identity of the record that `id` stands for, looking at the first `n` events. */
  function AliasOf(events: seq<Event>, id: string, n: nat): Option<string>
    requires n <= |events|
  {
    match FindId(events, id, n)
    case None => None
    case Some(i) =>
      match Origin(events, i)
      case None => None
      case Some(r) => Some(events[r].id)
  }

  function Resolve(events: seq<Event>, id: string): Option<string> {
    AliasOf(events, id, |events|)
  }

  // ---------------------------------------------------------------------------
  // The construction
  // ---------------------------------------------------------------------------

  /** The folding part of the evaluation environment: records and aliases are built
      on first use and then kept. */
  class FoldedLog {
    const events: seq<Event>
    var built: bool
    var records: map<string, seq<Record>>
    var alias: map<string, string>

    ghost predicate Valid()
      reads this
    {
      built ==> Grouped(events, records, |events|) && AliasUpTo(events, alias, |events|)
    }

    constructor (events: seq<Event>)
      ensures Valid() && this.events == events && !built
    {
      this.events := events;
      built, records, alias := false, map[], map[];
    }

    method Build()
      requires Valid() && UniqueIds(events)
      modifies this
      ensures Valid() && built
    {
      if built {
        return;
      }
      hide RecordAt, RecordsUpTo, Origin;
      var byId: map<string, Record> := map[];
      var kindOf: map<string, string> := map[];
      alias := map[];
      for i := 0 to |events|
        invariant AliasUpTo(events, alias, i) && ByIdUpTo(events, byId, kindOf, i)
        invariant !built
      {
        var ev := events[i];
        if !IsTransition(ev) {
          var updates := UpdateTarget(ev);
          if updates.Some? {
            var target := if updates.value in alias then alias[updates.value] else updates.value;
            UpdateStep(events, i, alias, byId, kindOf);
            if target in byId {
              var rec := byId[target];
              byId := byId[target := Overlaid(rec, ev)];
              alias := alias[ev.id := target];
            }
          } else {
            OriginalStep(events, i, alias, byId, kindOf);
            alias := alias[ev.id := ev.id];
            byId := byId[ev.id := Record(ev.id, i, ev.auto, ev.data)];
            kindOf := kindOf[ev.id := ev.kind];
          }
        } else {
          TransitionStep(events, i, alias, byId, kindOf);
        }
      }
      TablesIndex(events, byId, kindOf);
      var ids := SortedIds(byId);
      records := Group(events, byId, kindOf, ids);
      built := true;
    }

    method RecordsOf(kind: string) returns (rs: seq<Record>)
      requires Valid() && UniqueIds(events)
      modifies this
      ensures Valid() && rs == Records(events, kind)
    {
      Build();
      rs := Bucket(records, kind);
    }

    method ResolveRecordId(id: string) returns (original: Option<string>)
      requires Valid() && UniqueIds(events)
      modifies this
      ensures Valid() && original == Resolve(events, id)
    {
      Build();
      original := Get(alias, id);
    }
  }

  /** The record identities by stream position, whatever order the map yields them in. */
  method SortedIds(byId: map<string, Record>) returns (ids: seq<string>)
    requires forall x, y :: x in byId && y in byId && byId[x].order == byId[y].order ==> x == y
    ensures forall id :: id in ids <==> id in byId
    ensures ByPosition(byId, ids)
  {
    ids := [];
    var pending := byId.Keys;
    while pending != {}
      invariant pending <= byId.Keys
      invariant forall id :: id in ids <==> id in byId.Keys - pending
      invariant ByPosition(byId, ids)
      invariant forall a, x :: 0 <= a < |ids| && x in pending ==> byId[ids[a]].order < byId[x].order
      decreases |pending|
    {
      HasEarliest(byId, pending);
      var id :| id in pending && forall x :: x in pending ==> byId[id].order <= byId[x].order;
      AscendingGrows(byId, ids, id);
      pending := pending - {id};
      ids := ids + [id];
    }
  }

  lemma AscendingGrows(byId: map<string, Record>, ids: seq<string>, id: string)
    requires ByPosition(byId, ids) && id in byId
    requires forall a :: 0 <= a < |ids| ==> ids[a] in byId && byId[ids[a]].order < byId[id].order
    ensures ByPosition(byId, ids + [id])
  {
  }

  lemma HasEarliest(byId: map<string, Record>, pending: set<string>)
    requires pending != {} && pending <= byId.Keys
    ensures exists id :: id in pending && forall x :: x in pending ==> byId[id].order <= byId[x].order
  {
    var y :| y in pending;
    var rest := pending - {y};
    assert forall x :: x in pending ==> x == y || x in rest;
    var least := y;
    if rest != {} {
      HasEarliest(byId, rest);
      var z :| z in rest && forall x :: x in rest ==> byId[z].order <= byId[x].order;
      if byId[z].order < byId[y].order { least := z; }
    }
    assert least in pending;
  }

  method Group(events: seq<Event>, byId: map<string, Record>, kindOf: map<string, string>, ids: seq<string>)
    returns (records: map<string, seq<Record>>)
    requires Indexed(events, byId, kindOf)
    requires forall id :: id in ids <==> id in byId
    requires ByPosition(byId, ids)
    ensures Grouped(events, records, |events|)
  {
    records := map[];
    for j := 0 to |ids|
      invariant NextPosition(byId, ids, j) <= |events| && Grouped(events, records, NextPosition(byId, ids, j))
    {
      var id := ids[j];
      GroupStep(events, byId, kindOf, ids, j, records);
      var k := kindOf[id];
      records := records[k := Bucket(records, k) + [byId[id]]];
    }
    Skip(events, byId, kindOf, ids, |ids|, records, |events|);
  }

  // ---------------------------------------------------------------------------
  // Why the construction is right
  // ---------------------------------------------------------------------------

  function Overlaid(rec: Record, e: Event): Record {
    rec.(auto := rec.auto || e.auto, data := rec.data + (e.data - {"updates"}))
  }

  ghost function NextPosition(byId: map<string, Record>, ids: seq<string>, j: nat): nat
    requires j <= |ids| && ByPosition(byId, ids)
  {
    if j == 0 then 0 else byId[ids[j - 1]].order + 1
  }

  function Bucket(records: map<string, seq<Record>>, kind: string): seq<Record> {
    if kind in records then records[kind] else []
  }

  ghost predicate Grouped(events: seq<Event>, records: map<string, seq<Record>>, n: nat)
    requires n <= |events|
  {
    forall kind :: Bucket(records, kind) == RecordsUpTo(events, kind, n)
  }

  ghost predicate ByPosition(byId: map<string, Record>, ids: seq<string>) {
    && (forall a :: 0 <= a < |ids| ==> ids[a] in byId)
    && forall a, b :: 0 <= a < b < |ids| ==> byId[ids[a]].order < byId[ids[b]].order
  }

  ghost function RecordOf(events: seq<Event>, id: string, n: nat): Option<Record>
    requires n <= |events|
  {
    match FindId(events, id, n)
    case None => None
    case Some(i) => if IsOriginal(events[i]) then Some(RecordAt(events, i, n)) else None
  }

  ghost function KindOf(events: seq<Event>, id: string, n: nat): Option<string>
    requires n <= |events|
  {
    match FindId(events, id, n)
    case None => None
    case Some(i) => if IsOriginal(events[i]) then Some(events[i].kind) else None
  }

  ghost predicate AliasUpTo(events: seq<Event>, alias: map<string, string>, n: nat)
    requires n <= |events|
  {
    forall id :: Get(alias, id) == AliasOf(events, id, n)
  }

  ghost predicate ByIdUpTo(events: seq<Event>, byId: map<string, Record>, kindOf: map<string, string>, n: nat)
    requires n <= |events|
  {
    && (forall id :: Get(byId, id) == RecordOf(events, id, n))
    && (forall id :: Get(kindOf, id) == KindOf(events, id, n))
  }

  lemma FindUnique(events: seq<Event>, i: nat, n: nat)
    requires UniqueIds(events) && i < |events| && n <= |events|
    ensures FindId(events, events[i].id, n) == if i < n then Some(i) else None
  {
  }

  lemma TransitionStep(
    events: seq<Event>, i: nat, alias: map<string, string>, byId: map<string, Record>, kindOf: map<string, string>)
    requires UniqueIds(events) && i < |events| && IsTransition(events[i])
    requires AliasUpTo(events, alias, i) && ByIdUpTo(events, byId, kindOf, i)
    ensures AliasUpTo(events, alias, i + 1) && ByIdUpTo(events, byId, kindOf, i + 1)
  {
    FindUnique(events, i, i);
    forall id
      ensures Get(alias, id) == AliasOf(events, id, i + 1)
      ensures Get(byId, id) == RecordOf(events, id, i + 1)
      ensures Get(kindOf, id) == KindOf(events, id, i + 1)
    {
      assert Get(alias, id) == AliasOf(events, id, i);
      assert Get(byId, id) == RecordOf(events, id, i);
      assert Get(kindOf, id) == KindOf(events, id, i);
    }
  }

  lemma OriginalStep(
    events: seq<Event>, i: nat, alias: map<string, string>, byId: map<string, Record>, kindOf: map<string, string>)
    requires UniqueIds(events) && i < |events| && IsOriginal(events[i])
    requires AliasUpTo(events, alias, i) && ByIdUpTo(events, byId, kindOf, i)
    ensures
      var e := events[i];
      && AliasUpTo(events, alias[e.id := e.id], i + 1)
      && ByIdUpTo(events, byId[e.id := Record(e.id, i, e.auto, e.data)], kindOf[e.id := e.kind], i + 1)
  {
    var e := events[i];
    FindUnique(events, i, i);
    var alias', byId', kindOf' :=
      alias[e.id := e.id], byId[e.id := Record(e.id, i, e.auto, e.data)], kindOf[e.id := e.kind];
    forall id
      ensures Get(alias', id) == AliasOf(events, id, i + 1)
      ensures Get(byId', id) == RecordOf(events, id, i + 1)
      ensures Get(kindOf', id) == KindOf(events, id, i + 1)
    {
      assert Get(alias, id) == AliasOf(events, id, i);
      assert Get(byId, id) == RecordOf(events, id, i);
      assert Get(kindOf, id) == KindOf(events, id, i);
    }
  }

  /** The pass's two look-ups find exactly the record the backward chain reaches. */
  lemma UpdateReaches(
    events: seq<Event>, i: nat, alias: map<string, string>, byId: map<string, Record>, kindOf: map<string, string>)
    requires UniqueIds(events) && i < |events|
    requires !IsTransition(events[i]) && UpdateTarget(events[i]).Some?
    requires AliasUpTo(events, alias, i) && ByIdUpTo(events, byId, kindOf, i)
    ensures
      var t := UpdateTarget(events[i]).value;
      var target := if t in alias then alias[t] else t;
      if target in byId
      then Origin(events, i).Some? && events[Origin(events, i).value].id == target
      else Origin(events, i).None?
  {
    var t := UpdateTarget(events[i]).value;
    assert Get(alias, t) == AliasOf(events, t, i);
    assert Get(byId, t) == RecordOf(events, t, i);
    match FindId(events, t, i)
    case None =>
    case Some(j) =>
      match Origin(events, j)
      case None =>
      case Some(r) =>
        FindUnique(events, r, i);
        assert Get(byId, events[r].id) == RecordOf(events, events[r].id, i);
  }

  lemma UpdateStep(
    events: seq<Event>, i: nat, alias: map<string, string>, byId: map<string, Record>, kindOf: map<string, string>)
    requires UniqueIds(events) && i < |events|
    requires !IsTransition(events[i]) && UpdateTarget(events[i]).Some?
    requires AliasUpTo(events, alias, i) && ByIdUpTo(events, byId, kindOf, i)
    ensures
      var e := events[i];
      var t := UpdateTarget(e).value;
      var target := if t in alias then alias[t] else t;
      if target in byId then
        && AliasUpTo(events, alias[e.id := target], i + 1)
        && ByIdUpTo(events, byId[target := Overlaid(byId[target], e)], kindOf, i + 1)
      else
        && AliasUpTo(events, alias, i + 1)
        && ByIdUpTo(events, byId, kindOf, i + 1)
  {
    var e := events[i];
    var t := UpdateTarget(e).value;
    var target := if t in alias then alias[t] else t;
    UpdateReaches(events, i, alias, byId, kindOf);
    FindUnique(events, i, i);
    var alias', byId' := if target in byId then alias[e.id := target] else alias,
                         if target in byId then byId[target := Overlaid(byId[target], e)] else byId;
    forall id
      ensures Get(alias', id) == AliasOf(events, id, i + 1)
      ensures Get(byId', id) == RecordOf(events, id, i + 1)
      ensures Get(kindOf, id) == KindOf(events, id, i + 1)
    {
      assert Get(alias, id) == AliasOf(events, id, i);
      assert Get(byId, id) == RecordOf(events, id, i);
      assert Get(kindOf, id) == KindOf(events, id, i);
      if Origin(events, i).Some? { FindUnique(events, Origin(events, i).value, i); }
    }
  }

  /** What the tables hold once the whole log has been read. */
  ghost predicate Indexed(events: seq<Event>, byId: map<string, Record>, kindOf: map<string, string>) {
    && (forall id :: id in byId ==> IndexedAt(events, byId, kindOf, id, byId[id].order))
    && (forall r :: 0 <= r < |events| && IsOriginal(events[r]) ==>
      events[r].id in byId && byId[events[r].id].order == r)
  }

  ghost predicate IndexedAt(
    events: seq<Event>, byId: map<string, Record>, kindOf: map<string, string>, id: string, r: nat)
    requires id in byId
  {
    && r < |events| && IsOriginal(events[r]) && events[r].id == id
    && byId[id] == RecordAt(events, r, |events|)
    && id in kindOf && kindOf[id] == events[r].kind
  }

  lemma TablesIndex(events: seq<Event>, byId: map<string, Record>, kindOf: map<string, string>)
    requires UniqueIds(events) && ByIdUpTo(events, byId, kindOf, |events|)
    ensures Indexed(events, byId, kindOf)
    ensures forall x, y :: x in byId && y in byId && byId[x].order == byId[y].order ==> x == y
  {
    forall id | id in byId
      ensures IndexedAt(events, byId, kindOf, id, byId[id].order)
    {
      assert Get(byId, id) == RecordOf(events, id, |events|);
      assert Get(kindOf, id) == KindOf(events, id, |events|);
      RecordAtIsAt(events, FindId(events, id, |events|).value, |events|);
    }
    forall r | 0 <= r < |events| && IsOriginal(events[r])
      ensures events[r].id in byId && byId[events[r].id].order == r
    {
      FindUnique(events, r, |events|);
      assert Get(byId, events[r].id) == RecordOf(events, events[r].id, |events|);
      RecordAtIsAt(events, r, |events|);
    }
  }

  lemma RecordAtIsAt(events: seq<Event>, r: nat, n: nat)
    requires r < n <= |events|
    ensures RecordAt(events, r, n).order == r && RecordAt(events, r, n).id == events[r].id
  {
  }

  lemma {:induction false} GroupStep(
    events: seq<Event>, byId: map<string, Record>, kindOf: map<string, string>, ids: seq<string>,
    j: nat, records: map<string, seq<Record>>)
    requires Indexed(events, byId, kindOf)
    requires forall id :: id in ids <==> id in byId
    requires ByPosition(byId, ids) && j < |ids|
    requires NextPosition(byId, ids, j) <= |events| && Grouped(events, records, NextPosition(byId, ids, j))
    ensures ids[j] in byId && ids[j] in kindOf && NextPosition(byId, ids, j + 1) <= |events|
    ensures
      var k := kindOf[ids[j]];
      Grouped(events, records[k := Bucket(records, k) + [byId[ids[j]]]], NextPosition(byId, ids, j + 1))
  {
    hide RecordAt, RecordsUpTo;
    assert IndexedAt(events, byId, kindOf, ids[j], byId[ids[j]].order);
    Skip(events, byId, kindOf, ids, j, records, byId[ids[j]].order);
    Deposit(events, records, byId[ids[j]].order);
  }

  lemma Deposit(events: seq<Event>, records: map<string, seq<Record>>, r: nat)
    requires r < |events| && IsOriginal(events[r]) && Grouped(events, records, r)
    ensures
      var k := events[r].kind;
      Grouped(events, records[k := Bucket(records, k) + [RecordAt(events, r, |events|)]], r + 1)
  {
    var k := events[r].kind;
    var records' := records[k := Bucket(records, k) + [RecordAt(events, r, |events|)]];
    forall kind
      ensures Bucket(records', kind) == RecordsUpTo(events, kind, r + 1)
    {
      assert Bucket(records, kind) == RecordsUpTo(events, kind, r);
    }
  }

  /** Between two neighbours of the sorted identities no record opens. */
  lemma Skip(
    events: seq<Event>, byId: map<string, Record>, kindOf: map<string, string>, ids: seq<string>,
    j: nat, records: map<string, seq<Record>>, hi: nat)
    requires Indexed(events, byId, kindOf)
    requires forall id :: id in ids <==> id in byId
    requires ByPosition(byId, ids) && j <= |ids|
    requires hi == if j < |ids| then byId[ids[j]].order else |events|
    requires NextPosition(byId, ids, j) <= |events| && Grouped(events, records, NextPosition(byId, ids, j))
    ensures NextPosition(byId, ids, j) <= hi <= |events| && Grouped(events, records, hi)
  {
    var lo := NextPosition(byId, ids, j);
    if 0 < j < |ids| { assert byId[ids[j - 1]].order < byId[ids[j]].order; }
    assert forall a :: 0 <= a < |ids| ==> (a < j <==> byId[ids[a]].order < lo);
    if j < |ids| { assert IndexedAt(events, byId, kindOf, ids[j], hi); }
    assert forall r :: lo <= r < hi && IsOriginal(events[r]) ==> events[r].id in ids;
    assert forall r :: lo <= r < hi ==> !IsOriginal(events[r]);
    forall kind
      ensures Bucket(records, kind) == RecordsUpTo(events, kind, hi)
    {
      NoOriginals(events, kind, lo, hi);
    }
  }

  lemma NoOriginals(events: seq<Event>, kind: string, lo: nat, hi: nat)
    requires lo <= hi <= |events|
    requires forall r :: lo <= r < hi ==> !IsOriginal(events[r]) || events[r].kind != kind
    ensures RecordsUpTo(events, kind, lo) == RecordsUpTo(events, kind, hi)
  {
    if lo < hi { NoOriginals(events, kind, lo, hi - 1); }
  }

  // ---------------------------------------------------------------------------
  // What the declarative meaning promises
  // ---------------------------------------------------------------------------

  /** An event speaks about a record exactly when some backward `updates` chain leads
      from the event to that record. */
  lemma {:induction false} OriginIsChain(events: seq<Event>, i: nat, r: nat)
    requires UniqueIds(events) && i < |events|
    ensures Origin(events, i) == Some(r) <==>
            exists path :: IsChain(events, path) && path[0] == r && path[|path| - 1] == i
  {
    if Origin(events, i) == Some(r) {
      var path := ChainTo(events, i);
    }
    forall path | IsChain(events, path) && path[0] == r && path[|path| - 1] == i
      ensures Origin(events, i) == Some(r)
    {
      ChainReaches(events, path);
    }
  }

  lemma {:induction false} ChainTo(events: seq<Event>, i: nat) returns (path: seq<nat>)
    requires i < |events| && Origin(events, i).Some?
    ensures IsChain(events, path) && Some(path[0]) == Origin(events, i) && path[|path| - 1] == i
    decreases i
  {
    if UpdateTarget(events[i]).None? {
      path := [i];
    } else {
      var j := FindId(events, UpdateTarget(events[i]).value, i).value;
      var shorter := ChainTo(events, j);
      path := shorter + [i];
    }
  }

  lemma {:induction false} ChainReaches(events: seq<Event>, path: seq<nat>)
    requires UniqueIds(events) && IsChain(events, path)
    ensures Origin(events, path[|path| - 1]) == Some(path[0])
    decreases |path|
  {
    if |path| > 1 {
      ChainReaches(events, path[..|path| - 1]);
      FindUnique(events, path[|path| - 2], path[|path| - 1]);
    }
  }

  /** An identity stands for the record that a chain ending in it begins with. */
  lemma {:induction false} ResolvesIff(events: seq<Event>, id: string, original: string)
    requires UniqueIds(events)
    ensures Resolve(events, id) == Some(original) <==>
            exists path :: IsChain(events, path) && events[path[0]].id == original && events[path[|path| - 1]].id == id
  {
    if Resolve(events, id) == Some(original) {
      var path := ChainTo(events, FindId(events, id, |events|).value);
    }
    forall path | IsChain(events, path) && events[path[0]].id == original && events[path[|path| - 1]].id == id
      ensures Resolve(events, id) == Some(original)
    {
      ChainReaches(events, path);
      FindUnique(events, path[|path| - 1], |events|);
    }
  }

  /** Following an alias twice leads no further than following it once. */
  lemma AliasIsIdempotent(events: seq<Event>, id: string)
    requires UniqueIds(events) && Resolve(events, id).Some?
    ensures Resolve(events, Resolve(events, id).value) == Resolve(events, id)
  {
    var i := FindId(events, id, |events|).value;
    FindUnique(events, Origin(events, i).value, |events|);
  }

  /** The records of a kind are exactly the events that open one, in stream order. */
  lemma {:induction false} RecordsInStreamOrder(events: seq<Event>, kind: string, n: nat)
    requires n <= |events|
    ensures
      var rs := RecordsUpTo(events, kind, n);
      && (forall a :: 0 <= a < |rs| ==>
        && rs[a].order < n && IsOriginal(events[rs[a].order]) && events[rs[a].order].kind == kind
        && rs[a] == RecordAt(events, rs[a].order, |events|))
      && (forall a, b :: 0 <= a < b < |rs| ==> rs[a].order < rs[b].order)
      && (forall r :: 0 <= r < n && IsOriginal(events[r]) && events[r].kind == kind ==>
        RecordAt(events, r, |events|) in rs)
  {
    hide RecordAt;
    if n > 0 {
      RecordsInStreamOrder(events, kind, n - 1);
      RecordAtIsAt(events, n - 1, |events|);
    }
  }

  /** The events that write a record: the one that opens it and those that speak about it. */
  ghost predicate Writes(events: seq<Event>, w: nat, r: nat)
    requires w < |events|
  {
    w == r || Origin(events, w) == Some(r)
  }

  ghost predicate Unwritten(events: seq<Event>, r: nat, lo: nat, hi: nat, key: string)
    requires hi <= |events|
  {
    forall u :: lo <= u < hi && Writes(events, u, r) ==> key !in events[u].data
  }

  /** Every field of an effective record holds what the newest event writing it put there,
      and a field no such event wrote is absent. */
  lemma {:induction false} FieldIsLastWrite(events: seq<Event>, r: nat, n: nat, key: string)
    requires r < n <= |events| && key != "updates"
    ensures
      var data := RecordAt(events, r, n).data;
      if key in data
      then exists w :: r <= w < n && Writes(events, w, r) && key in events[w].data
                       && data[key] == events[w].data[key] && Unwritten(events, r, w + 1, n, key)
      else Unwritten(events, r, r, n, key)
  {
    hide Origin;
    var data := RecordAt(events, r, n).data;
    if n == r + 1 {
      if key in data { assert Writes(events, r, r) && Unwritten(events, r, r + 1, n, key); }
    } else {
      FieldIsLastWrite(events, r, n - 1, key);
      var before := RecordAt(events, r, n - 1).data;
      if Origin(events, n - 1) == Some(r) && key in events[n - 1].data {
        assert Writes(events, n - 1, r) && Unwritten(events, r, n, n, key);
      } else if key in before {
        var w :| r <= w < n - 1 && Writes(events, w, r) && key in events[w].data
                 && before[key] == events[w].data[key] && Unwritten(events, r, w + 1, n - 1, key);
        assert Unwritten(events, r, w + 1, n, key);
      }
    }
  }

  /** Whose update it was is no field of the record. */
  lemma {:induction false} UpdatesIsNoField(events: seq<Event>, r: nat, n: nat)
    requires r < n <= |events|
    ensures Get(RecordAt(events, r, n).data, "updates") == Get(events[r].data, "updates")
  {
    hide Origin;
    if n > r + 1 { UpdatesIsNoField(events, r, n - 1); }
  }

  /** A record counts as captured exactly when some event that writes it was: a hand-made
      record becomes captured by one captured update. */
  lemma {:induction false} AutoIffSomeWriteWas(events: seq<Event>, r: nat, n: nat)
    requires r < n <= |events|
    ensures RecordAt(events, r, n).auto <==> exists w :: r <= w < n && Writes(events, w, r) && events[w].auto
  {
    hide Origin;
    if n == r + 1 {
      assert Writes(events, r, r);
    } else {
      AutoIffSomeWriteWas(events, r, n - 1);
      assert Origin(events, n - 1) == Some(r) <==> Writes(events, n - 1, r);
    }
  }

  /** The log with some update events re-aimed at the record they finally speak about,
      as `Record` does when it writes them. */
  ghost predicate Reaimed(events: seq<Event>, events': seq<Event>) {
    && |events| == |events'|
    && forall i :: 0 <= i < |events| ==> events'[i] == events[i] || ReaimedAt(events, events', i)
  }

  ghost predicate ReaimedAt(events: seq<Event>, events': seq<Event>, i: nat)
    requires i < |events| == |events'|
  {
    && !IsTransition(events[i]) && UpdateTarget(events[i]).Some?
    && Origin(events, i).Some?
    && events[Origin(events, i).value].id != ""
    && events'[i] == events[i].(data :=
      events[i].data["updates" := Str(events[Origin(events, i).value].id)])
  }

  lemma {:induction false} ReaimedOrigin(events: seq<Event>, events': seq<Event>, i: nat)
    requires UniqueIds(events) && Reaimed(events, events') && i < |events|
    ensures Origin(events', i) == Origin(events, i)
    ensures IsOriginal(events'[i]) == IsOriginal(events[i])
    decreases i
  {
    if ReaimedAt(events, events', i) {
      var r := Origin(events, i).value;
      OriginIsEarlier(events, i);
      assert events'[r] == events[r] by { assert IsOriginal(events[r]); }
      FindUnique(events', r, i);
    } else {
      assert events'[i] == events[i];
      if UpdateTarget(events[i]).Some? {
        SameFind(events, events', UpdateTarget(events[i]).value, i);
        var at := FindId(events, UpdateTarget(events[i]).value, i);
        if at.Some? { ReaimedOrigin(events, events', at.value); }
      }
    }
  }

  lemma OriginIsEarlier(events: seq<Event>, i: nat)
    requires i < |events| && Origin(events, i).Some?
    ensures UpdateTarget(events[i]).Some? ==> Origin(events, i).value < i
  {
  }

  lemma SameFind(events: seq<Event>, events': seq<Event>, id: string, n: nat)
    requires n <= |events| && n <= |events'|
    requires forall i :: 0 <= i < n ==> events[i].id == events'[i].id
    ensures FindId(events, id, n) == FindId(events', id, n)
  {
  }

  lemma OriginalsStay(events: seq<Event>, events': seq<Event>, r: nat)
    requires Reaimed(events, events') && r < |events| && IsOriginal(events[r])
    ensures events'[r] == events[r]
  {
    hide Origin;
  }

  lemma ReaimedEvent(events: seq<Event>, events': seq<Event>, i: nat)
    requires Reaimed(events, events') && i < |events|
    ensures events'[i].auto == events[i].auto
    ensures events'[i].data - {"updates"} == events[i].data - {"updates"}
  {
    hide Origin;
  }

  lemma {:induction false} ReaimedRecord(events: seq<Event>, events': seq<Event>, r: nat, n: nat)
    requires UniqueIds(events) && Reaimed(events, events') && r < n <= |events| && IsOriginal(events[r])
    ensures RecordAt(events', r, n) == RecordAt(events, r, n)
  {
    hide Origin, Reaimed;
    if n == r + 1 {
      OriginalsStay(events, events', r);
    } else {
      ReaimedRecord(events, events', r, n - 1);
      ReaimedOrigin(events, events', n - 1);
      ReaimedEvent(events, events', n - 1);
    }
  }

  /** Re-aiming updates at their original record changes neither the effective records
      nor what any identity resolves to. */
  lemma {:induction false} ReaimingKeepsMeaning(events: seq<Event>, events': seq<Event>, kind: string, id: string)
    requires UniqueIds(events) && Reaimed(events, events')
    ensures Records(events', kind) == Records(events, kind)
    ensures Resolve(events', id) == Resolve(events, id)
  {
    ReaimedRecords(events, events', kind, |events|);
    SameFind(events, events', id, |events|);
    var at := FindId(events, id, |events|);
    if at.Some? { ReaimedOrigin(events, events', at.value); }
  }

  lemma {:induction false} ReaimedRecords(events: seq<Event>, events': seq<Event>, kind: string, n: nat)
    requires UniqueIds(events) && Reaimed(events, events') && n <= |events|
    ensures RecordsUpTo(events', kind, n) == RecordsUpTo(events, kind, n)
  {
    hide Origin, RecordAt;
    if n > 0 {
      ReaimedRecords(events, events', kind, n - 1);
      ReaimedOrigin(events, events', n - 1);
      if IsOriginal(events[n - 1]) {
        OriginalsStay(events, events', n - 1);
        ReaimedRecord(events, events', n - 1, |events|);
      }
    }
  }

  // ---------------------------------------------------------------------------
  // Appending to the log
  // ---------------------------------------------------------------------------

  ghost predicate NoUpdates(events: seq<Event>) {
    forall i :: 0 <= i < |events| ==> IsTransition(events[i]) || UpdateTarget(events[i]).None?
  }

  lemma {:induction false} PrefixOrigin(events: seq<Event>, more: seq<Event>, i: nat)
    requires i < |events|
    ensures Origin(events + more, i) == Origin(events, i)
    decreases i
  {
    assert (events + more)[i] == events[i];
    if UpdateTarget(events[i]).Some? {
      SameFind(events, events + more, UpdateTarget(events[i]).value, i);
      var at := FindId(events, UpdateTarget(events[i]).value, i);
      if at.Some? { PrefixOrigin(events, more, at.value); }
    }
  }

  lemma {:induction false} PrefixRecord(events: seq<Event>, more: seq<Event>, r: nat, n: nat)
    requires r < n <= |events|
    ensures RecordAt(events + more, r, n) == RecordAt(events, r, n)
  {
    if n > r + 1 {
      PrefixRecord(events, more, r, n - 1);
      PrefixOrigin(events, more, n - 1);
    }
  }

  /** Events that are not updates leave every existing record as it was. */
  lemma {:induction false} UntouchedRecord(events: seq<Event>, more: seq<Event>, r: nat, n: nat)
    requires NoUpdates(more) && r < |events| <= n <= |events| + |more|
    ensures RecordAt(events + more, r, n) == RecordAt(events, r, |events|)
  {
    if n == |events| {
      PrefixRecord(events, more, r, n);
    } else {
      UntouchedRecord(events, more, r, n - 1);
      assert (events + more)[n - 1] == more[n - 1 - |events|];
      assert Origin(events + more, n - 1) != Some(r);
    }
  }

  lemma {:induction false} UntouchedRecords(events: seq<Event>, more: seq<Event>, kind: string, n: nat)
    requires NoUpdates(more) && n <= |events|
    ensures RecordsUpTo(events + more, kind, n) == RecordsUpTo(events, kind, n)
  {
    if n > 0 {
      UntouchedRecords(events, more, kind, n - 1);
      assert (events + more)[n - 1] == events[n - 1];
      if IsOriginal(events[n - 1]) { UntouchedRecord(events, more, n - 1, |events + more|); }
    }
  }

  lemma {:induction false} LaterRecords(events: seq<Event>, kind: string, m: nat, n: nat)
    requires m <= n <= |events|
    ensures |RecordsUpTo(events, kind, m)| <= |RecordsUpTo(events, kind, n)|
    ensures RecordsUpTo(events, kind, m) == RecordsUpTo(events, kind, n)[..|RecordsUpTo(events, kind, m)|]
    ensures forall a :: |RecordsUpTo(events, kind, m)| <= a < |RecordsUpTo(events, kind, n)| ==>
              var r := RecordsUpTo(events, kind, n)[a];
              m <= r.order < n && IsOriginal(events[r.order]) && events[r.order].kind == kind
              && r == RecordAt(events, r.order, |events|)
    decreases n - m
  {
    if m < n {
      LaterRecords(events, kind, m, n - 1);
      RecordAtIsAt(events, n - 1, |events|);
    }
  }

  lemma {:induction false} FreshRecord(events: seq<Event>, more: seq<Event>, r: nat, n: nat)
    requires NoUpdates(more) && |events| <= r < n <= |events| + |more|
    ensures
      var e := (events + more)[r];
      RecordAt(events + more, r, n) == Record(e.id, r, e.auto, e.data)
  {
    if n > r + 1 {
      FreshRecord(events, more, r, n - 1);
      assert (events + more)[n - 1] == more[n - 1 - |events|];
    }
  }

  /** Appending events that are not updates only appends records: the old ones keep
      their place and content, the new ones carry just what their event carries. */
  lemma {:induction false} AppendOnlyAdds(events: seq<Event>, more: seq<Event>, kind: string)
    requires NoUpdates(more)
    ensures
      var before, after := Records(events, kind), Records(events + more, kind);
      && |before| <= |after| && before == after[..|before|]
      && forall a :: |before| <= a < |after| ==>
        var at := after[a].order;
        && |events| <= at < |events + more|
        && (events + more)[at].kind == kind && IsOriginal((events + more)[at])
        && after[a] == Record((events + more)[at].id, at, (events + more)[at].auto, (events + more)[at].data)
  {
    var all := events + more;
    UntouchedRecords(events, more, kind, |events|);
    LaterRecords(all, kind, |events|, |all|);
    var before, after := Records(events, kind), Records(all, kind);
    forall a | |before| <= a < |after|
      ensures
        var at := after[a].order;
        && |events| <= at < |all| && all[at].kind == kind && IsOriginal(all[at])
        && after[a] == Record(all[at].id, at, all[at].auto, all[at].data)
    {
      FreshRecord(events, more, after[a].order, |all|);
    }
  }

  /** Records of a kind none of the appended events opens stay exactly as they were. */
  lemma OtherKindsAddNothing(events: seq<Event>, more: seq<Event>, kind: string)
    requires NoUpdates(more)
    requires forall i :: 0 <= i < |more| ==> more[i].kind != kind || IsTransition(more[i])
    ensures Records(events + more, kind) == Records(events, kind)
  {
    UntouchedRecords(events, more, kind, |events|);
    NoOriginals(events + more, kind, |events|, |events + more|);
  }

  /** A log without updates: every record is the event that opened it. */
  lemma PlainRecords(events: seq<Event>, kind: string)
    requires NoUpdates(events)
    ensures
      var rs := Records(events, kind);
      && (forall a :: 0 <= a < |rs| ==>
        && rs[a].order < |events| && IsOriginal(events[rs[a].order]) && events[rs[a].order].kind == kind
        && rs[a] == Record(events[rs[a].order].id, rs[a].order, events[rs[a].order].auto, events[rs[a].order].data))
      && (forall i :: 0 <= i < |events| && IsOriginal(events[i]) && events[i].kind == kind ==>
        Record(events[i].id, i, events[i].auto, events[i].data) in rs)
  {
    hide RecordAt;
    RecordsInStreamOrder(events, kind, |events|);
    forall r | 0 <= r < |events| && IsOriginal(events[r])
      ensures RecordAt(events, r, |events|) == Record(events[r].id, r, events[r].auto, events[r].data)
    {
      FreshRecord([], events, r, |events|);
      assert [] + events == events;
    }
  }

  /** Records of one kind carry different identities. */
  lemma RecordIdsDiffer(events: seq<Event>, kind: string)
    requires UniqueIds(events)
    ensures
      var rs := Records(events, kind);
      forall a, b :: 0 <= a < b < |rs| ==> rs[a].id != rs[b].id
  {
    hide RecordAt;
    RecordsInStreamOrder(events, kind, |events|);
    var rs := Records(events, kind);
    forall a, b | 0 <= a < b < |rs|
      ensures rs[a].id != rs[b].id
    {
      RecordAtIsAt(events, rs[a].order, |events|);
      RecordAtIsAt(events, rs[b].order, |events|);
    }
  }

  /** Two lists of records that differ in nothing but fields outside `keys`. */
  ghost predicate SameFields(a: seq<Record>, b: seq<Record>, key: string) {
    && |a| == |b|
    && forall i :: 0 <= i < |a| ==> a[i].id == b[i].id && Get(a[i].data, key) == Get(b[i].data, key)
  }

  /** An update that does not write a field leaves that field of every record alone. */
  lemma {:induction false} UpdateSparesField(events: seq<Event>, e: Event, kind: string, key: string)
    requires !IsOriginal(e) && key !in e.data
    ensures SameFields(Records(events, kind), Records(events + [e], kind), key)
  {
    UpdateSparesFieldUpTo(events, e, kind, key, |events|);
  }

  lemma {:induction false} UpdateSparesFieldUpTo(events: seq<Event>, e: Event, kind: string, key: string, n: nat)
    requires !IsOriginal(e) && key !in e.data && n <= |events|
    ensures SameFields(RecordsUpTo(events, kind, n), RecordsUpTo(events + [e], kind, n), key)
  {
    hide RecordAt;
    if n > 0 {
      UpdateSparesFieldUpTo(events, e, kind, key, n - 1);
      assert (events + [e])[n - 1] == events[n - 1];
      UpdatedRecord(events, e, n - 1, key);
    }
  }

  lemma UpdatedRecord(events: seq<Event>, e: Event, r: nat, key: string)
    requires r < |events| && key !in e.data
    ensures
      var before, after := RecordAt(events, r, |events|), RecordAt(events + [e], r, |events| + 1);
      before.id == after.id && Get(before.data, key) == Get(after.data, key)
  {
    PrefixRecord(events, [e], r, |events|);
  }
}

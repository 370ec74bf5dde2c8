/** The add-only merge of project extensions into the shipped specification. */
module Extensions {
  import opened Values
  import opened WorkflowSpec

  /** One extension file: additional record kinds and contract items only. */
  datatype Extension = Extension(name: string, records: seq<RecordKind>, contracts: seq<ContractItem>)

  predicate HasPrefix(s: string, prefix: string) {
    prefix <= s
  }

  predicate KindNamespaced(kind: string) {
    HasPrefix(kind, "x-")
  }

  predicate IdNamespaced(id: string) {
    HasPrefix(id, "local.") || HasPrefix(id, "lesson.")
  }

  function Sourced(items: seq<ContractItem>, name: string): (out: seq<ContractItem>)
    ensures |out| == |items|
    ensures forall i :: 0 <= i < |out| ==> out[i] == items[i].(source := name)
  {
    if items == [] then [] else [items[0].(source := name)] + Sourced(items[1..], name)
  }

  function AddedKinds(files: seq<Extension>): seq<RecordKind> {
    if files == [] then [] else AddedKinds(files[..|files| - 1]) + files[|files| - 1].records
  }

  function AddedItems(files: seq<Extension>): seq<ContractItem> {
    if files == [] then []
    else AddedItems(files[..|files| - 1]) + Sourced(files[|files| - 1].contracts, files[|files| - 1].name)
  }

  function ItemId(c: ContractItem): string { c.id }

  function KindName(r: RecordKind): string { r.kind }

  /** Every added name is namespaced, new to the specification and not repeated. */
  ghost predicate Fresh<T(!new)>(shipped: seq<T>, added: seq<T>, name: T -> string, namespaced: string -> bool) {
    && (forall i :: 0 <= i < |added| ==> namespaced(name(added[i])) && name(added[i]) !in Names(shipped, name))
    && Distinct(added, name)
  }

  ghost predicate Mergeable(s: Spec, files: seq<Extension>) {
    && Fresh(s.records, AddedKinds(files), KindName, KindNamespaced)
    && Fresh(s.contracts, AddedItems(files), ItemId, IdNamespaced)
  }

  /** Extends `s` by the files in name order, or reports the first offending name. */
  method MergeContractsDir(s: Spec, files: seq<Extension>) returns (r: Result<Spec, string>)
    ensures r.Ok? <==> Mergeable(s, files)
    ensures r.Ok? ==> r.value == s.(
      records := s.records + AddedKinds(files), contracts := s.contracts + AddedItems(files))
  {
    var shippedIds := Names(s.contracts, ItemId);
    var shippedKinds := Names(s.records, KindName);
    var kinds, items := [], [];
    var knownKinds, knownIds := shippedKinds, shippedIds;
    for i := 0 to |files|
      invariant kinds == AddedKinds(files[..i]) && items == AddedItems(files[..i])
      invariant Fresh(s.records, kinds, KindName, KindNamespaced)
      invariant Fresh(s.contracts, items, ItemId, IdNamespaced)
      invariant knownKinds == shippedKinds + Names(kinds, KindName)
      invariant knownIds == shippedIds + Names(items, ItemId)
    {
      assert files[..i + 1][..i] == files[..i];
      var sourced := Sourced(files[i].contracts, files[i].name);
      var ok;
      ok, knownKinds := AddAll(s.records, kinds, files[i].records, KindName, KindNamespaced, knownKinds);
      if !ok {
        StaysMalformed(s, files, i + 1);
        return Err("record kind not namespaced or already defined");
      }
      kinds := kinds + files[i].records;
      ok, knownIds := AddAll(s.contracts, items, sourced, ItemId, IdNamespaced, knownIds);
      if !ok {
        StaysMalformed(s, files, i + 1);
        return Err("contract not namespaced or already defined");
      }
      items := items + sourced;
    }
    assert files[..|files|] == files;
    return Ok(s.(records := s.records + kinds, contracts := s.contracts + items));
  }

  /** Adds one file's entries to the names already known, stopping at the first that is
      not namespaced or not new. */
  method AddAll<T(!new)>(
    shipped: seq<T>, before: seq<T>, more: seq<T>, name: T -> string, namespaced: string -> bool, known: set<string>)
    returns (ok: bool, known': set<string>)
    requires Fresh(shipped, before, name, namespaced)
    requires known == Names(shipped, name) + Names(before, name)
    ensures ok <==> Fresh(shipped, before + more, name, namespaced)
    ensures ok ==> known' == Names(shipped, name) + Names(before + more, name)
  {
    known' := known;
    assert before + more[..0] == before;
    for i := 0 to |more|
      invariant Fresh(shipped, before + more[..i], name, namespaced)
      invariant known' == Names(shipped, name) + Names(before + more[..i], name)
    {
      var n := name(more[i]);
      assert before + more[..i + 1] == (before + more[..i]) + [more[i]];
      FreshGrows(shipped, before + more[..i], more[i], name, namespaced);
      if !namespaced(n) || n in known' {
        if Fresh(shipped, before + more, name, namespaced) {
          FreshPrefix(shipped, before + more[..i + 1], before + more, name, namespaced);
        }
        return false, known';
      }
      known' := known' + {n};
    }
    assert more[..|more|] == more;
    return true, known';
  }

  lemma FreshGrows<T(!new)>(shipped: seq<T>, added: seq<T>, x: T, name: T -> string, namespaced: string -> bool)
    requires Fresh(shipped, added, name, namespaced)
    ensures Fresh(shipped, added + [x], name, namespaced) <==>
            namespaced(name(x)) && name(x) !in Names(shipped, name) + Names(added, name)
    ensures Names(added + [x], name) == Names(added, name) + {name(x)}
  {
    var all := added + [x];
    NamesGrow(all, name, |added|);
    assert all[..|added|] == added && all[..|added| + 1] == all;
    assert forall i :: 0 <= i < |added| ==> all[i] == added[i];
    DistinctAppend(added, x, name);
  }

  lemma DistinctAppend<T(!new)>(added: seq<T>, x: T, name: T -> string)
    requires Distinct(added, name)
    ensures Distinct(added + [x], name) <==> name(x) !in Names(added, name)
  {
    var all := added + [x];
    if name(x) in Names(added, name) {
      var i :| 0 <= i < |added| && name(added[i]) == name(x);
      assert name(all[i]) == name(all[|added|]);
    } else {
      forall i, j | 0 <= i < j < |all|
        ensures name(all[i]) != name(all[j])
      {
        assert all[i] == added[i];
        if j < |added| { assert all[j] == added[j]; }
      }
    }
  }

  lemma FreshPrefix<T(!new)>(shipped: seq<T>, a: seq<T>, b: seq<T>, name: T -> string, namespaced: string -> bool)
    requires a <= b && Fresh(shipped, b, name, namespaced)
    ensures Fresh(shipped, a, name, namespaced)
  {
    assert forall i :: 0 <= i < |a| ==> a[i] == b[i];
  }

  lemma {:induction false} AddedGrow(files: seq<Extension>, n: nat)
    requires n <= |files|
    ensures AddedKinds(files[..n]) <= AddedKinds(files) && AddedItems(files[..n]) <= AddedItems(files)
    decreases |files|
  {
    if n < |files| {
      var shorter := files[..|files| - 1];
      AddedGrow(shorter, n);
      assert shorter[..n] == files[..n];
    } else {
      assert files[..n] == files;
    }
  }

  lemma StaysMalformed(s: Spec, files: seq<Extension>, n: nat)
    requires n <= |files| && !Mergeable(s, files[..n])
    ensures !Mergeable(s, files)
  {
    AddedGrow(files, n);
    if Mergeable(s, files) {
      FreshPrefix(s.records, AddedKinds(files[..n]), AddedKinds(files), KindName, KindNamespaced);
      FreshPrefix(s.contracts, AddedItems(files[..n]), AddedItems(files), ItemId, IdNamespaced);
    }
  }

  // ---------------------------------------------------------------------------
  // What may be merged, and in what order
  // ---------------------------------------------------------------------------

  predicate OwnKind(kind: string) {
    |kind| >= 2 && kind[0] == 'x' && kind[1] == '-'
  }

  predicate OwnId(id: string) {
    (|id| >= 6 && id[..6] == "local.") || (|id| >= 7 && id[..7] == "lesson.")
  }

  lemma NamespacesAre(name: string)
    ensures KindNamespaced(name) <==> OwnKind(name)
    ensures IdNamespaced(name) <==> OwnId(name)
  {
    if OwnKind(name) { assert name[..2] == "x-"; }
  }

  lemma FreshIff<T(!new)>(shipped: seq<T>, added: seq<T>, name: T -> string, namespaced: string -> bool)
    ensures Fresh(shipped, added, name, namespaced) <==>
            && (forall i :: 0 <= i < |added| ==> namespaced(name(added[i])))
            && (forall i, j :: 0 <= i < |added| && 0 <= j < |shipped| ==> name(added[i]) != name(shipped[j]))
            && (forall i, j :: 0 <= i < j < |added| ==> name(added[i]) != name(added[j]))
  {
  }

  ghost predicate AddsKinds(s: Spec, kinds: seq<RecordKind>) {
    && (forall i :: 0 <= i < |kinds| ==> OwnKind(kinds[i].kind))
    && (forall i, j :: 0 <= i < |kinds| && 0 <= j < |s.records| ==> kinds[i].kind != s.records[j].kind)
    && (forall i, j :: 0 <= i < j < |kinds| ==> kinds[i].kind != kinds[j].kind)
  }

  ghost predicate AddsItems(s: Spec, items: seq<ContractItem>) {
    && (forall i :: 0 <= i < |items| ==> OwnId(items[i].id))
    && (forall i, j :: 0 <= i < |items| && 0 <= j < |s.contracts| ==> items[i].id != s.contracts[j].id)
    && (forall i, j :: 0 <= i < j < |items| ==> items[i].id != items[j].id)
  }

  lemma KindsIff(s: Spec, kinds: seq<RecordKind>)
    ensures Fresh(s.records, kinds, KindName, KindNamespaced) <==> AddsKinds(s, kinds)
  {
    hide Fresh, KindNamespaced, OwnKind;
    FreshIff(s.records, kinds, KindName, KindNamespaced);
    forall i | 0 <= i < |kinds|
      ensures KindNamespaced(KindName(kinds[i])) <==> OwnKind(kinds[i].kind)
    {
      NamespacesAre(kinds[i].kind);
    }
  }

  lemma ItemsIff(s: Spec, items: seq<ContractItem>)
    ensures Fresh(s.contracts, items, ItemId, IdNamespaced) <==> AddsItems(s, items)
  {
    hide Fresh, IdNamespaced, OwnId;
    FreshIff(s.contracts, items, ItemId, IdNamespaced);
    forall i | 0 <= i < |items|
      ensures IdNamespaced(ItemId(items[i])) <==> OwnId(items[i].id)
    {
      NamespacesAre(items[i].id);
    }
  }

  /** Extensions merge exactly when every added kind begins with "x-" and every added item
      with "local." or "lesson.", and none is shipped or added twice. */
  lemma {:induction false} MergeableIff(s: Spec, files: seq<Extension>)
    ensures Mergeable(s, files) <==> AddsKinds(s, AddedKinds(files)) && AddsItems(s, AddedItems(files))
  {
    hide AddedKinds, AddedItems, Fresh, AddsKinds, AddsItems;
    KindsIff(s, AddedKinds(files));
    ItemsIff(s, AddedItems(files));
  }

  lemma AddedLast(files: seq<Extension>, f: Extension)
    ensures AddedKinds(files + [f]) == AddedKinds(files) + f.records
    ensures AddedItems(files + [f]) == AddedItems(files) + Sourced(f.contracts, f.name)
  {
    hide Sourced;
    assert (files + [f])[..|files|] == files;
  }

  /** The files add their kinds and items one file after the other. */
  lemma {:induction false} AddedInFileOrder(files: seq<Extension>, more: seq<Extension>)
    ensures AddedKinds(files + more) == AddedKinds(files) + AddedKinds(more)
    ensures AddedItems(files + more) == AddedItems(files) + AddedItems(more)
  {
    hide AddedKinds, AddedItems, Sourced;
    if more == [] {
      NothingAdded();
      assert files + more == files;
    } else {
      var init, f := more[..|more| - 1], more[|more| - 1];
      AddedInFileOrder(files, init);
      AddedLast(files + init, f);
      AddedLast(init, f);
      assert files + more == (files + init) + [f] && more == init + [f];
    }
  }

  lemma NothingAdded()
    ensures AddedKinds([]) == [] && AddedItems([]) == []
  {
  }

  /** One file adds its kinds as they are and its items marked with the file. */
  lemma OneFileAdds(file: Extension)
    ensures AddedKinds([file]) == file.records && |AddedItems([file])| == |file.contracts|
    ensures forall i :: 0 <= i < |file.contracts| ==>
              AddedItems([file])[i] == file.contracts[i].(source := file.name)
  {
    assert [file][..0] == [];
  }
}

/** The close-out trace: which findings the record stream asks for, and why writing them
    is idempotent. */
module Trace {
  import opened Values
  import opened Events
  import opened UpdateFolding
  import opened WorkflowSpec
  import Approvals
  import Paths
  import Verdicts
  import opened Matching

  /** What the trace needs beside the environment: which paths a glob matches, and the wording
      and severity of a finding. */
  datatype Wording = Wording(glob: (string, string) -> bool, text: string -> string, severity: string -> string)

  /** The findings of one category: a tag, and what each finding is about. */
  datatype Section = Section(tag: string, ids: seq<string>)

  // ---------------------------------------------------------------------------
  // What is wanted
  // ---------------------------------------------------------------------------

  predicate IsForce(e: Event) {
    e.kind == "phase" && e.Text("action") == "force"
  }

  function ForcedExits(events: seq<Event>): seq<string> {
    if events == [] then []
    else
      var last := events[|events| - 1];
      ForcedExits(events[..|events| - 1]) + if IsForce(last) then [last.id] else []
  }

  function FirstForcedFrame(events: seq<Event>): seq<string> {
    if events == [] then []
    else if IsForce(events[0]) && events[0].phase == "frame" then [events[0].id]
    else FirstForcedFrame(events[1..])
  }

  /** The records whose field holds one of the given values. */
  function Having(rs: seq<Record>, field: string, values: set<string>): seq<string> {
    if rs == [] then []
    else
      var r := rs[|rs| - 1];
      Having(rs[..|rs| - 1], field, values) + if StrField(r.data, field) in values then [r.id] else []
  }

  function Invalidated(rs: seq<Record>): seq<string> {
    if rs == [] then []
    else
      var r := rs[|rs| - 1];
      Invalidated(rs[..|rs| - 1])
      + if BoolField(r.data, "high_risk") && StrField(r.data, "status") == "invalidated" then [r.id] else []
  }

  /** What the gate's newest approval with bound references bound, if any did. */
  function LatestApprovedRefs(approvals: seq<Record>, gate: string): Option<set<string>> {
    if approvals == [] then None
    else
      var data := approvals[|approvals| - 1].data;
      if StrField(data, "gate") == gate && "approved_refs" in data && data["approved_refs"].List? then
        Some(set s | s in StrList(data["approved_refs"].items))
      else LatestApprovedRefs(approvals[..|approvals| - 1], gate)
  }

  function Unapproved(refs: seq<string>, gate: string, approved: set<string>): seq<string> {
    if refs == [] then []
    else
      var ref := refs[|refs| - 1];
      Unapproved(refs[..|refs| - 1], gate, approved) + if ref in approved then [] else [gate + ":" + ref]
  }

  function Drift(events: seq<Event>, gate: string): seq<string> {
    match LatestApprovedRefs(Records(events, "approval"), gate)
    case None => []
    case Some(approved) => Unapproved(Approvals.ApprovalRefs(events, gate), gate, approved)
  }

  /** The edits one boundary entry covers that no earlier entry did. */
  function CoveredEdits(w: Wording, entry: string, edits: seq<Record>, seen: set<string>): (hits: seq<string>)
    ensures forall h :: h in hits ==> h !in seen
  {
    if edits == [] then []
    else
      var before := CoveredEdits(w, entry, edits[..|edits| - 1], seen);
      var ed := edits[|edits| - 1];
      var path := StrField(ed.data, "path");
      if path != "" && ed.id !in seen && ed.id !in before && Paths.Covers(w.glob, entry, path)
      then before + [ed.id] else before
  }

  function CoveredByEntries(w: Wording, entries: seq<Value>, edits: seq<Record>, seen: set<string>): (hits: seq<string>)
    ensures forall h :: h in hits ==> h !in seen
  {
    if entries == [] then []
    else
      var before := CoveredByEntries(w, entries[..|entries| - 1], edits, seen);
      var entry := entries[|entries| - 1];
      if entry.Str? then before + CoveredEdits(w, entry.s, edits, seen + (set h | h in before)) else before
  }

  function OutOfScope(w: Wording, boundaries: seq<Record>, edits: seq<Record>): seq<string> {
    if boundaries == [] then []
    else
      var before := OutOfScope(w, boundaries[..|boundaries| - 1], edits);
      var entries := ListField(boundaries[|boundaries| - 1].data, "out_of_scope");
      before + CoveredByEntries(w, entries, edits, set h | h in before)
  }

  function LastGatingVerdict(env: Env, verdicts: seq<Record>): int {
    if verdicts == [] then -1
    else
      var before, v := LastGatingVerdict(env, verdicts[..|verdicts| - 1]), verdicts[|verdicts| - 1];
      if Verdicts.GatingAgent(env, StrField(v.data, "agent")) && v.order > before then v.order else before
  }

  predicate EditedSince(edits: seq<Record>, order: int) {
    exists i :: 0 <= i < |edits| && edits[i].order > order
  }

  function StaleVerdicts(env: Env): seq<string> {
    var last := LastGatingVerdict(env, Records(env.events, "verdict"));
    if last >= 0 && EditedSince(Records(env.events, "edit"), last) then [""] else []
  }

  /** Every category of findings, in the order they are looked for. */
  function Wanted(env: Env, w: Wording): seq<Section> {
    Sections(env, OutOfScope(w, Records(env.events, "scope-boundary"), Records(env.events, "edit")))
  }

  function Sections(env: Env, outOfScope: seq<string>): seq<Section> {
    var evs := env.events;
    [ Section("force:", ForcedExits(evs)),
      Section("followup:", Having(Records(evs, "followup"), "status", {"open"})),
      Section("deviation:", Having(Records(evs, "deviation"), "status", {"pending"})),
      Section("ambiguity:", Having(Records(evs, "ambiguity"), "disposition", {"deferred", "open"})),
      Section("drift:", Drift(evs, "scope") + Drift(evs, "design") + Drift(evs, "plan")),
      Section("scope:", outOfScope),
      Section("stale-verdicts", StaleVerdicts(env)),
      Section("vacated-signals:", if Records(evs, "risk") == [] then FirstForcedFrame(evs) else []),
      Section("assumption-invalidated:", Invalidated(Records(evs, "assumption"))) ]
  }

  function Tagged(tag: string, ids: seq<string>): (keys: seq<string>)
    ensures |keys| == |ids| && forall i :: 0 <= i < |keys| ==> keys[i] == tag + ids[i]
  {
    if ids == [] then [] else Tagged(tag, ids[..|ids| - 1]) + [tag + ids[|ids| - 1]]
  }

  function KeysOf(sections: seq<Section>): seq<string> {
    if sections == [] then []
    else
      var last := sections[|sections| - 1];
      KeysOf(sections[..|sections| - 1]) + Tagged(last.tag, last.ids)
  }

  // ---------------------------------------------------------------------------
  // Writing them
  // ---------------------------------------------------------------------------

  function KnownKeys(findings: seq<Record>): set<string> {
    set i | 0 <= i < |findings| && StrField(findings[i].data, "key") != "" :: StrField(findings[i].data, "key")
  }

  function Missing(keys: seq<string>, known: set<string>): seq<string> {
    if keys == [] then []
    else
      var last := keys[|keys| - 1];
      Missing(keys[..|keys| - 1], known) + if last in known then [] else [last]
  }

  function FindingData(w: Wording, key: string): Fields {
    map["key" := Str(key), "text" := Str(w.text(key)), "severity" := Str(w.severity(key)), "status" := Str("open")]
  }

  function FindingEvent(w: Wording, id: string, key: string): Event {
    Event(id, 0, "", "", "", "", "trace-finding", true, "engine", FindingData(w, key))
  }

  /** One new finding per missing key; `mint` gives the identities. */
  function Findings(w: Wording, mint: nat -> string, from: nat, keys: seq<string>): (evs: seq<Event>)
    ensures |evs| == |keys|
    ensures forall i :: 0 <= i < |evs| ==> evs[i] == FindingEvent(w, mint(from + i), keys[i])
  {
    if keys == [] then []
    else
      Findings(w, mint, from, keys[..|keys| - 1]) + [FindingEvent(w, mint(from + |keys| - 1), keys[|keys| - 1])]
  }

  function NewFindings(env: Env, w: Wording, mint: nat -> string, from: nat): seq<Event> {
    Findings(w, mint, from,
             Missing(KeysOf(Wanted(env, w)), KnownKeys(Records(env.events, "trace-finding"))))
  }

  /** The trace command: looks for findings category by category, then records those whose
      key is not on record yet. */
  method RunTrace(env: Env, w: Wording, mint: nat -> string, from: nat) returns (recorded: seq<Event>)
    ensures recorded == NewFindings(env, w, mint, from)
  {
    hide Records, KeysOf, Sections, OutOfScope, KnownKeys, Missing, Findings;
    var scope := EditsOutOfScope(w, Records(env.events, "scope-boundary"), Records(env.events, "edit"));
    var wants := AllKeys(Sections(env, scope));
    var existing := ExistingKeys(Records(env.events, "trace-finding"));
    recorded := RecordMissing(w, mint, from, wants, existing);
  }

  method AllKeys(sections: seq<Section>) returns (wants: seq<string>)
    ensures wants == KeysOf(sections)
  {
    wants := [];
    for i := 0 to |sections|
      invariant wants == KeysOf(sections[..i])
    {
      assert sections[..i + 1][..i] == sections[..i];
      wants := wants + Tagged(sections[i].tag, sections[i].ids);
    }
    assert sections[..|sections|] == sections;
  }

  method ExistingKeys(findings: seq<Record>) returns (existing: set<string>)
    ensures existing == KnownKeys(findings)
  {
    hide KnownKeys;
    existing := {};
    NoKnownKeys();
    for i := 0 to |findings|
      invariant existing == KnownKeys(findings[..i])
    {
      assert findings[..i + 1] == findings[..i] + [findings[i]];
      KnownKeysAppend(findings[..i], findings[i]);
      var key := StrField(findings[i].data, "key");
      if key != "" {
        existing := existing + {key};
      }
    }
    assert findings[..|findings|] == findings;
  }

  method RecordMissing(w: Wording, mint: nat -> string, from: nat, wants: seq<string>, existing: set<string>)
    returns (recorded: seq<Event>)
    ensures recorded == Findings(w, mint, from, Missing(wants, existing))
  {
    hide FindingEvent, Findings, Missing;
    recorded := [];
    NothingToRecord(w, mint, from, existing);
    for i := 0 to |wants|
      invariant recorded == Findings(w, mint, from, Missing(wants[..i], existing))
    {
      assert wants[..i + 1] == wants[..i] + [wants[i]];
      MissingAppend(wants[..i], wants[i], existing);
      if wants[i] !in existing {
        recorded := recorded + [FindingEvent(w, mint(from + |recorded|), wants[i])];
      }
    }
    assert wants[..|wants|] == wants;
  }

  lemma NothingToRecord(w: Wording, mint: nat -> string, from: nat, existing: set<string>)
    ensures Findings(w, mint, from, Missing([], existing)) == []
  {
  }

  lemma MissingAppend(keys: seq<string>, key: string, known: set<string>)
    ensures Missing(keys + [key], known) == if key in known then Missing(keys, known) else Missing(keys, known) + [key]
  {
    assert (keys + [key])[..|keys|] == keys;
  }

  lemma NoKnownKeys()
    ensures KnownKeys([]) == {}
  {
  }

  lemma KnownKeysAppend(findings: seq<Record>, r: Record)
    ensures KnownKeys(findings + [r]) ==
            KnownKeys(findings) + if StrField(r.data, "key") != "" then {StrField(r.data, "key")} else {}
  {
    var all := findings + [r];
    assert forall i :: 0 <= i < |findings| ==> all[i] == findings[i];
    assert all[|findings|] == r;
    forall k | k in KnownKeys(findings)
      ensures k in KnownKeys(all)
    {
      var i :| 0 <= i < |findings| && StrField(findings[i].data, "key") != "" && StrField(findings[i].data, "key") == k;
      assert StrField(all[i].data, "key") == k;
    }
  }

  /** Boundary by boundary, entry by entry, edit by edit; no edit is reported twice. */
  method EditsOutOfScope(w: Wording, boundaries: seq<Record>, edits: seq<Record>) returns (hits: seq<string>)
    ensures hits == OutOfScope(w, boundaries, edits)
  {
    hide CoveredByEntries;
    hits := [];
    var seenEdits: set<string> := {};
    for b := 0 to |boundaries|
      invariant hits == OutOfScope(w, boundaries[..b], edits) && seenEdits == set h | h in hits
    {
      assert boundaries[..b + 1][..b] == boundaries[..b];
      var more := CoveredByBoundary(w, ListField(boundaries[b].data, "out_of_scope"), edits, seenEdits);
      hits := hits + more;
      seenEdits := seenEdits + set h | h in more;
    }
    assert boundaries[..|boundaries|] == boundaries;
  }

  method CoveredByBoundary(w: Wording, entries: seq<Value>, edits: seq<Record>, seen: set<string>)
    returns (hits: seq<string>)
    ensures hits == CoveredByEntries(w, entries, edits, seen)
  {
    hide CoveredEdits;
    hits := [];
    for e := 0 to |entries|
      invariant hits == CoveredByEntries(w, entries[..e], edits, seen)
    {
      assert entries[..e + 1][..e] == entries[..e];
      if entries[e].Str? {
        var more := CoveredBy(w, entries[e].s, edits, seen + set h | h in hits);
        hits := hits + more;
      }
    }
    assert entries[..|entries|] == entries;
  }

  method CoveredBy(w: Wording, entry: string, edits: seq<Record>, seen: set<string>) returns (hits: seq<string>)
    ensures hits == CoveredEdits(w, entry, edits, seen)
  {
    hits := [];
    var seenEdits := seen;
    for i := 0 to |edits|
      invariant hits == CoveredEdits(w, entry, edits[..i], seen)
      invariant seenEdits == seen + set h | h in hits
    {
      assert edits[..i + 1][..i] == edits[..i];
      var path := StrField(edits[i].data, "path");
      if path == "" || edits[i].id in seenEdits || !Paths.Covers(w.glob, entry, path) {
        continue;
      }
      seenEdits := seenEdits + {edits[i].id};
      hits := hits + [edits[i].id];
    }
    assert edits[..|edits|] == edits;
  }

  // ---------------------------------------------------------------------------
  // Keys never repeat
  // ---------------------------------------------------------------------------

  predicate NoRepeats(xs: seq<string>) {
    forall i, j :: 0 <= i < j < |xs| ==> xs[i] != xs[j]
  }

  lemma NoRepeatsJoin(a: seq<string>, b: seq<string>)
    requires NoRepeats(a) && NoRepeats(b) && forall x :: x in a ==> x !in b
    ensures NoRepeats(a + b)
  {
    forall i, j | 0 <= i < j < |a + b|
      ensures (a + b)[i] != (a + b)[j]
    {
      if i < |a| { assert a[i] in a; }
      if j >= |a| { assert b[j - |a|] in b; }
    }
  }

  lemma NoRepeatsSnoc(a: seq<string>, x: string)
    requires NoRepeats(a) && x !in a
    ensures NoRepeats(a + [x])
  {
    NoRepeatsJoin(a, [x]);
  }

  ghost predicate OneOf(rs: seq<Record>, id: string) {
    exists i :: 0 <= i < |rs| && rs[i].id == id
  }

  ghost predicate IdsDiffer(rs: seq<Record>) {
    forall i, j :: 0 <= i < j < |rs| ==> rs[i].id != rs[j].id
  }

  lemma {:induction false} HavingIds(rs: seq<Record>, field: string, values: set<string>)
    requires IdsDiffer(rs)
    ensures NoRepeats(Having(rs, field, values))
    ensures forall x :: x in Having(rs, field, values) ==> OneOf(rs, x)
  {
    if rs != [] {
      var init, last := rs[..|rs| - 1], rs[|rs| - 1];
      HavingIds(init, field, values);
      NoRepeatsSnoc(Having(init, field, values), last.id);
      assert OneOf(rs, last.id);
    }
  }

  lemma {:induction false} InvalidatedIds(rs: seq<Record>)
    requires IdsDiffer(rs)
    ensures NoRepeats(Invalidated(rs))
    ensures forall x :: x in Invalidated(rs) ==> OneOf(rs, x)
  {
    if rs != [] {
      var init := rs[..|rs| - 1];
      InvalidatedIds(init);
      NoRepeatsSnoc(Invalidated(init), rs[|rs| - 1].id);
      assert OneOf(rs, rs[|rs| - 1].id);
    }
  }

  lemma {:induction false} ForcedIds(events: seq<Event>)
    requires UniqueIds(events)
    ensures NoRepeats(ForcedExits(events))
    ensures forall x :: x in ForcedExits(events) ==> exists i :: 0 <= i < |events| && events[i].id == x
  {
    hide IsForce;
    if events != [] {
      var init := events[..|events| - 1];
      ForcedIds(init);
      forall x | x in ForcedExits(init)
        ensures x != events[|events| - 1].id && exists i :: 0 <= i < |events| && events[i].id == x
      {
        var i :| 0 <= i < |init| && init[i].id == x;
        assert events[i].id == x;
      }
      NoRepeatsSnoc(ForcedExits(init), events[|events| - 1].id);
    }
  }

  lemma AtMostOneFrame(events: seq<Event>)
    ensures |FirstForcedFrame(events)| <= 1
  {
  }

  lemma {:induction false} UnapprovedRefs(refs: seq<string>, gate: string, approved: set<string>)
    requires NoRepeats(refs)
    ensures NoRepeats(Unapproved(refs, gate, approved))
    ensures forall x :: x in Unapproved(refs, gate, approved) ==>
              exists i :: 0 <= i < |refs| && x == gate + ":" + refs[i]
  {
    if refs != [] {
      var init, last := refs[..|refs| - 1], refs[|refs| - 1];
      UnapprovedRefs(init, gate, approved);
      forall x | x in Unapproved(init, gate, approved)
        ensures x != gate + ":" + last && exists i :: 0 <= i < |refs| && x == gate + ":" + refs[i]
      {
        var i :| 0 <= i < |init| && x == gate + ":" + init[i];
        assert x == gate + ":" + refs[i];
        if x == gate + ":" + last { PrefixInjective(gate + ":", refs[i], last); }
      }
      NoRepeatsSnoc(Unapproved(init, gate, approved), gate + ":" + last);
    }
  }

  lemma PrefixInjective(p: string, a: string, b: string)
    requires p + a == p + b
    ensures a == b
  {
    assert (p + a)[|p|..] == a && (p + b)[|p|..] == b;
  }

  lemma DriftRefs(events: seq<Event>, gate: string)
    requires gate != ""
    ensures NoRepeats(Drift(events, gate))
    ensures forall x :: x in Drift(events, gate) ==> x != "" && x[0] == gate[0]
  {
    hide Approvals.ApprovalRefs, Records;
    Approvals.RefsAreSortedSet(events, gate);
    var refs := Approvals.ApprovalRefs(events, gate);
    assert NoRepeats(refs) by {
      forall i, j | 0 <= i < j < |refs| ensures refs[i] != refs[j] { LessIsTotal(refs[i], refs[j]); }
    }
    var approved := LatestApprovedRefs(Records(events, "approval"), gate);
    if approved.Some? { UnapprovedRefs(refs, gate, approved.value); }
  }

  lemma AllDrift(events: seq<Event>)
    ensures NoRepeats(Drift(events, "scope") + Drift(events, "design") + Drift(events, "plan"))
  {
    hide Drift;
    var s, d, p := Drift(events, "scope"), Drift(events, "design"), Drift(events, "plan");
    DriftRefs(events, "scope");
    DriftRefs(events, "design");
    DriftRefs(events, "plan");
    NoRepeatsJoin(s, d);
    NoRepeatsJoin(s + d, p);
  }

  lemma {:induction false} CoveredOnce(w: Wording, entry: string, edits: seq<Record>, seen: set<string>)
    ensures NoRepeats(CoveredEdits(w, entry, edits, seen))
  {
    if edits != [] { CoveredOnce(w, entry, edits[..|edits| - 1], seen); }
  }

  lemma {:induction false} CoveredByEntriesOnce(w: Wording, entries: seq<Value>, edits: seq<Record>, seen: set<string>)
    ensures NoRepeats(CoveredByEntries(w, entries, edits, seen))
  {
    hide CoveredEdits;
    if entries != [] {
      var init, entry := entries[..|entries| - 1], entries[|entries| - 1];
      CoveredByEntriesOnce(w, init, edits, seen);
      if entry.Str? {
        var before := CoveredByEntries(w, init, edits, seen);
        CoveredOnce(w, entry.s, edits, seen + set h | h in before);
        NoRepeatsJoin(before, CoveredEdits(w, entry.s, edits, seen + set h | h in before));
      }
    }
  }

  lemma {:induction false} OutOfScopeOnce(w: Wording, boundaries: seq<Record>, edits: seq<Record>)
    ensures NoRepeats(OutOfScope(w, boundaries, edits))
  {
    hide CoveredByEntries;
    if boundaries != [] {
      var init := boundaries[..|boundaries| - 1];
      var entries := ListField(boundaries[|boundaries| - 1].data, "out_of_scope");
      OutOfScopeOnce(w, init, edits);
      var before := OutOfScope(w, init, edits);
      CoveredByEntriesOnce(w, entries, edits, set h | h in before);
      NoRepeatsJoin(before, CoveredByEntries(w, entries, edits, set h | h in before));
    }
  }

  /** Tags that differ within their first three characters give keys that differ. */
  predicate Apart(sections: seq<Section>) {
    && (forall i :: 0 <= i < |sections| ==> |sections[i].tag| >= 3)
    && forall i, j :: 0 <= i < j < |sections| ==> sections[i].tag[..3] != sections[j].tag[..3]
  }

  lemma {:induction false} KeysDiffer(sections: seq<Section>)
    requires Apart(sections) && forall i :: 0 <= i < |sections| ==> NoRepeats(sections[i].ids)
    ensures NoRepeats(KeysOf(sections))
    ensures forall k :: k in KeysOf(sections) ==>
              |k| >= 3 && exists i :: 0 <= i < |sections| && k[..3] == sections[i].tag[..3]
  {
    if sections != [] {
      var init, last := sections[..|sections| - 1], sections[|sections| - 1];
      KeysDiffer(init);
      TaggedDiffer(last.tag, last.ids);
      var keys, more := KeysOf(init), Tagged(last.tag, last.ids);
      forall k | k in keys
        ensures k !in more && |k| >= 3 && exists i :: 0 <= i < |sections| && k[..3] == sections[i].tag[..3]
      {
        var i :| 0 <= i < |init| && k[..3] == init[i].tag[..3];
        assert k[..3] == sections[i].tag[..3] && sections[i].tag[..3] != last.tag[..3];
      }
      NoRepeatsJoin(keys, more);
    }
  }

  lemma TaggedDiffer(tag: string, ids: seq<string>)
    requires |tag| >= 3 && NoRepeats(ids)
    ensures NoRepeats(Tagged(tag, ids))
    ensures forall k :: k in Tagged(tag, ids) ==> |k| >= 3 && k[..3] == tag[..3]
  {
    hide Tagged;
    var keys := Tagged(tag, ids);
    forall i, j | 0 <= i < j < |keys|
      ensures keys[i] != keys[j]
    {
      if keys[i] == keys[j] { PrefixInjective(tag, ids[i], ids[j]); }
    }
  }

  /** One trace never asks for the same key twice. */
  lemma {:induction false} WantedKeysDiffer(env: Env, w: Wording)
    requires UniqueIds(env.events)
    ensures NoRepeats(KeysOf(Wanted(env, w)))
    ensures forall k :: k in KeysOf(Wanted(env, w)) ==> k != ""
  {
    hide Records, ForcedExits, Having, Invalidated, OutOfScope, FirstForcedFrame, Drift, KeysOf;
    var evs := env.events;
    var sections := Wanted(env, w);
    RecordIdsDiffer(evs, "followup");
    RecordIdsDiffer(evs, "deviation");
    RecordIdsDiffer(evs, "ambiguity");
    RecordIdsDiffer(evs, "assumption");
    ForcedIds(evs);
    HavingIds(Records(evs, "followup"), "status", {"open"});
    HavingIds(Records(evs, "deviation"), "status", {"pending"});
    HavingIds(Records(evs, "ambiguity"), "disposition", {"deferred", "open"});
    AllDrift(evs);
    OutOfScopeOnce(w, Records(evs, "scope-boundary"), Records(evs, "edit"));
    AtMostOneFrame(evs);
    InvalidatedIds(Records(evs, "assumption"));
    TagsApart(env, OutOfScope(w, Records(evs, "scope-boundary"), Records(evs, "edit")));
    KeysDiffer(sections);
  }

  lemma {:induction false} TagsApart(env: Env, outOfScope: seq<string>)
    ensures Apart(Sections(env, outOfScope))
  {
    hide Records, ForcedExits, Having, Invalidated, FirstForcedFrame, Drift, StaleVerdicts;
    var sections := Sections(env, outOfScope);
    var heads := ["for", "fol", "dev", "amb", "dri", "sco", "sta", "vac", "ass"];
    assert forall i :: 0 <= i < 9 ==> sections[i].tag[..3] == heads[i];
  }

  // ---------------------------------------------------------------------------
  // Interleavings
  // ---------------------------------------------------------------------------

  /** Something else is recorded, or the trace runs with fresh identities. */
  datatype TraceAct = Note(event: Event) | TraceNow(ids: nat -> string)

  function With(env: Env, events: seq<Event>): Env {
    env.(events := events)
  }

  function TraceActed(env: Env, w: Wording, events: seq<Event>, a: TraceAct): seq<Event> {
    match a
    case Note(e) => events + [e]
    case TraceNow(ids) => events + NewFindings(With(env, events), w, ids, 0)
  }

  ghost predicate FreshIds(events: seq<Event>, ids: nat -> string) {
    && (forall k: nat, i :: 0 <= i < |events| ==> events[i].id != ids(k))
    && forall k: nat, l: nat :: k != l ==> ids(k) != ids(l)
  }

  /** Identities are new; whatever else is recorded opens no trace finding and, where it
      updates one, leaves its key alone. */
  ghost predicate TraceAdmits(events: seq<Event>, a: TraceAct) {
    match a
    case Note(e) =>
      && (forall i :: 0 <= i < |events| ==> events[i].id != e.id)
      && (IsOriginal(e) ==> e.kind != "trace-finding")
      && (!IsOriginal(e) ==> "key" !in e.data)
    case TraceNow(ids) => FreshIds(events, ids)
  }

  function TraceLog(env: Env, w: Wording, acts: seq<TraceAct>): seq<Event> {
    if acts == [] then [] else TraceActed(env, w, TraceLog(env, w, acts[..|acts| - 1]), acts[|acts| - 1])
  }

  ghost predicate TraceProper(env: Env, w: Wording, acts: seq<TraceAct>) {
    acts == [] ||
    (TraceProper(env, w, acts[..|acts| - 1]) && TraceAdmits(TraceLog(env, w, acts[..|acts| - 1]), acts[|acts| - 1]))
  }

  function Key(r: Record): string {
    StrField(r.data, "key")
  }

  predicate KeysUnique(rs: seq<Record>) {
    forall i, j :: 0 <= i < j < |rs| && Key(rs[i]) != "" ==> Key(rs[i]) != Key(rs[j])
  }

  ghost predicate Tidy(events: seq<Event>) {
    UniqueIds(events) && KeysUnique(Records(events, "trace-finding"))
  }

  lemma {:induction false} MissingKeys(keys: seq<string>, known: set<string>)
    requires NoRepeats(keys)
    ensures NoRepeats(Missing(keys, known))
    ensures forall k :: k in Missing(keys, known) <==> k in keys && k !in known
  {
    if keys != [] {
      var init, last := keys[..|keys| - 1], keys[|keys| - 1];
      MissingKeys(init, known);
      assert keys == init + [last];
      assert last !in init;
      if last !in known { NoRepeatsSnoc(Missing(init, known), last); }
    }
  }

  /** A record of the given position stands at index `lo` or later. */
  ghost predicate OnRecord(rs: seq<Record>, lo: nat, order: int) {
    exists a :: lo <= a < |rs| && rs[a].order == order
  }

  ghost predicate InOrder(rs: seq<Record>) {
    forall a, b :: 0 <= a < b < |rs| ==> rs[a].order < rs[b].order
  }

  /** The records from `lo` on carry the keys, each at the position its event got. */
  ghost predicate Carry(rs: seq<Record>, lo: nat, from: nat, keys: seq<string>) {
    forall a :: lo <= a < |rs| ==> from <= rs[a].order < from + |keys| && Key(rs[a]) == keys[rs[a].order - from]
  }

  /** The records of freshly written findings, behind the ones already there. */
  lemma FindingsOnRecord(events: seq<Event>, w: Wording, ids: nat -> string, keys: seq<string>)
    ensures
      var before := Records(events, "trace-finding");
      var after := Records(events + Findings(w, ids, 0, keys), "trace-finding");
      && |before| <= |after| && before == after[..|before|]
      && InOrder(after) && Carry(after, |before|, |events|, keys)
      && forall at :: |events| <= at < |events| + |keys| ==> OnRecord(after, |before|, at)
  {
    hide Records, Findings, RecordAt, Carry, InOrder, OnRecord;
    var more := Findings(w, ids, 0, keys);
    var all := events + more;
    AppendOnlyAdds(events, more, "trace-finding");
    var before, after := Records(events, "trace-finding"), Records(all, "trace-finding");
    RecordsOrdered(all);
    NewOnesCarry(events, w, ids, keys);
    forall at | |events| <= at < |events| + |keys|
      ensures OnRecord(after, |before|, at)
    {
      assert all[at] == more[at - |events|];
      EventIsOnRecord(all, at);
      EarlierOnes(events, before, after, at);
    }
  }

  lemma RecordsOrdered(events: seq<Event>)
    ensures InOrder(Records(events, "trace-finding"))
  {
    hide RecordAt;
    RecordsInStreamOrder(events, "trace-finding", |events|);
  }

  lemma EventIsOnRecord(events: seq<Event>, r: nat)
    requires r < |events| && IsOriginal(events[r]) && events[r].kind == "trace-finding"
    ensures OnRecord(Records(events, "trace-finding"), 0, r)
  {
    hide RecordAt;
    RecordsInStreamOrder(events, "trace-finding", |events|);
    RecordAtIsAt(events, r, |events|);
    var rs := RecordsUpTo(events, "trace-finding", |events|);
    assert RecordAt(events, r, |events|) in rs;
    var a :| 0 <= a < |rs| && rs[a] == RecordAt(events, r, |events|);
    assert rs[a].order == r;
  }

  lemma EarlierOnes(events: seq<Event>, before: seq<Record>, after: seq<Record>, order: int)
    requires before == Records(events, "trace-finding") && |before| <= |after| && before == after[..|before|]
    requires order >= |events| && OnRecord(after, 0, order)
    ensures OnRecord(after, |before|, order)
  {
    hide Records;
    var a :| 0 <= a < |after| && after[a].order == order;
    BeforeTheEnd(events);
    assert forall b :: 0 <= b < |before| ==> after[b] == before[b];
    assert a >= |before|;
  }

  lemma BeforeTheEnd(events: seq<Event>)
    ensures
      var rs := Records(events, "trace-finding");
      forall a :: 0 <= a < |rs| ==> rs[a].order < |events|
  {
    hide RecordAt;
    RecordsInStreamOrder(events, "trace-finding", |events|);
  }

  lemma NewOnesCarry(events: seq<Event>, w: Wording, ids: nat -> string, keys: seq<string>)
    ensures
      var before, all := Records(events, "trace-finding"), events + Findings(w, ids, 0, keys);
      Carry(Records(all, "trace-finding"), |before|, |events|, keys)
  {
    hide Records, Findings;
    var more := Findings(w, ids, 0, keys);
    AppendOnlyAdds(events, more, "trace-finding");
    var before, after := Records(events, "trace-finding"), Records(events + more, "trace-finding");
    forall a | |before| <= a < |after|
      ensures |events| <= after[a].order < |events| + |keys| && Key(after[a]) == keys[after[a].order - |events|]
    {
      assert (events + more)[after[a].order] == more[after[a].order - |events|];
    }
  }

  lemma TraceKeepsTidy(env: Env, w: Wording, events: seq<Event>, ids: nat -> string)
    requires Tidy(events) && FreshIds(events, ids)
    ensures Tidy(events + NewFindings(With(env, events), w, ids, 0))
  {
    hide Records, Findings, Missing, KeysOf, Wanted;
    var wants := KeysOf(Wanted(With(env, events), w));
    var before := Records(events, "trace-finding");
    var keys := Missing(wants, KnownKeys(before));
    WantedKeysDiffer(With(env, events), w);
    MissingKeys(wants, KnownKeys(before));
    FindingsOnRecord(events, w, ids, keys);
    var after := Records(events + Findings(w, ids, 0, keys), "trace-finding");
    forall i, j | 0 <= i < j < |after| && Key(after[i]) != ""
      ensures Key(after[i]) != Key(after[j])
    {
      if j < |before| {
        assert after[i] == before[i] && after[j] == before[j];
      } else if i < |before| {
        assert after[i] == before[i] && Key(before[i]) in KnownKeys(before);
        assert Key(after[j]) in keys;
      }
    }
  }

  lemma NoteKeepsTidy(events: seq<Event>, e: Event)
    requires Tidy(events) && TraceAdmits(events, Note(e))
    ensures Tidy(events + [e])
  {
    hide Records;
    if IsOriginal(e) {
      OtherKindsAddNothing(events, [e], "trace-finding");
    } else {
      UpdateSparesField(events, e, "trace-finding", "key");
      var before, after := Records(events, "trace-finding"), Records(events + [e], "trace-finding");
      assert forall i :: 0 <= i < |before| ==> Get(before[i].data, "key") == Get(after[i].data, "key");
      assert forall i :: 0 <= i < |before| ==> Key(before[i]) == Key(after[i]);
    }
  }

  /** However traces interleave with other records, updates of findings included, no two
      trace findings ever share a key. */
  lemma {:induction false} KeysStayUnique(env: Env, w: Wording, acts: seq<TraceAct>)
    requires TraceProper(env, w, acts)
    ensures UniqueIds(TraceLog(env, w, acts))
    ensures KeysUnique(Records(TraceLog(env, w, acts), "trace-finding"))
  {
    if acts != [] {
      hide NewFindings, Records, KeysUnique, TraceAdmits;
      var before, a := TraceLog(env, w, acts[..|acts| - 1]), acts[|acts| - 1];
      KeysStayUnique(env, w, acts[..|acts| - 1]);
      match a
      case Note(e) => NoteKeepsTidy(before, e);
      case TraceNow(ids) =>
        assert FreshIds(before, ids);
        TraceKeepsTidy(env, w, before, ids);
    }
  }

  ghost predicate SameRecords(a: seq<Event>, b: seq<Event>, kind: string) {
    Records(b, kind) == Records(a, kind)
  }

  /** Trace findings are not what a trace looks at. */
  lemma FindingsChangeNoWants(env: Env, w: Wording, ids: nat -> string, keys: seq<string>)
    ensures Wanted(With(env, env.events + Findings(w, ids, 0, keys)), w) == Wanted(env, w)
  {
    hide Records, Findings, OutOfScope, Having, Invalidated, ForcedExits, FirstForcedFrame, StaleVerdicts, Drift;
    var evs, more := env.events, Findings(w, ids, 0, keys);
    ForcedUnchanged(evs, more);
    OtherKindsSame(evs, w, ids, keys, "followup");
    OtherKindsSame(evs, w, ids, keys, "deviation");
    OtherKindsSame(evs, w, ids, keys, "ambiguity");
    OtherKindsSame(evs, w, ids, keys, "scope-boundary");
    OtherKindsSame(evs, w, ids, keys, "edit");
    OtherKindsSame(evs, w, ids, keys, "verdict");
    OtherKindsSame(evs, w, ids, keys, "risk");
    OtherKindsSame(evs, w, ids, keys, "assumption");
    StaleSame(env, evs + more);
    DriftUnchanged(evs, w, ids, keys);
  }

  lemma OtherKindsSame(events: seq<Event>, w: Wording, ids: nat -> string, keys: seq<string>, kind: string)
    requires kind != "trace-finding"
    ensures SameRecords(events, events + Findings(w, ids, 0, keys), kind)
  {
    hide Records, Findings;
    OtherKindsAddNothing(events, Findings(w, ids, 0, keys), kind);
  }

  lemma StaleSame(env: Env, events: seq<Event>)
    requires SameRecords(env.events, events, "verdict") && SameRecords(env.events, events, "edit")
    ensures StaleVerdicts(With(env, events)) == StaleVerdicts(env)
  {
    hide Records;
    LastGatingSame(env, With(env, events), Records(env.events, "verdict"));
  }

  lemma {:induction false} DriftUnchanged(events: seq<Event>, w: Wording, ids: nat -> string, keys: seq<string>)
    ensures
      var all := events + Findings(w, ids, 0, keys);
      && Drift(all, "scope") == Drift(events, "scope")
      && Drift(all, "design") == Drift(events, "design")
      && Drift(all, "plan") == Drift(events, "plan")
  {
    hide Records, Findings, Drift;
    OtherKindsSame(events, w, ids, keys, "approval");
    OtherKindsSame(events, w, ids, keys, "requirement");
    OtherKindsSame(events, w, ids, keys, "assumption");
    OtherKindsSame(events, w, ids, keys, "option-set");
    OtherKindsSame(events, w, ids, keys, "task");
    OtherKindsSame(events, w, ids, keys, "verification-strategy");
    var all := events + Findings(w, ids, 0, keys);
    RefsUnchanged(events, all, "scope");
    RefsUnchanged(events, all, "design");
    RefsUnchanged(events, all, "plan");
  }

  lemma RefsUnchanged(a: seq<Event>, b: seq<Event>, gate: string)
    requires SameRecords(a, b, "approval")
    requires SameRecords(a, b, "requirement") && SameRecords(a, b, "assumption") && SameRecords(a, b, "option-set")
    requires SameRecords(a, b, "task") && SameRecords(a, b, "verification-strategy")
    ensures Drift(b, gate) == Drift(a, gate)
  {
    hide Records, Approvals.SortStrings, Approvals.Dedupe, LatestApprovedRefs, Unapproved;
    hide Approvals.RequirementRefs, Approvals.AssumptionRefs, Approvals.OptionRefs, Approvals.FieldRefs;
    assert Approvals.CollectedRefs(b, gate) == Approvals.CollectedRefs(a, gate);
  }

  lemma {:induction false} LastGatingSame(env: Env, env': Env, verdicts: seq<Record>)
    requires env'.spec == env.spec
    ensures LastGatingVerdict(env', verdicts) == LastGatingVerdict(env, verdicts)
  {
    if verdicts != [] { LastGatingSame(env, env', verdicts[..|verdicts| - 1]); }
  }

  lemma {:induction false} ForcedUnchanged(events: seq<Event>, more: seq<Event>)
    requires forall i :: 0 <= i < |more| ==> !IsForce(more[i])
    ensures ForcedExits(events + more) == ForcedExits(events)
    ensures FirstForcedFrame(events + more) == FirstForcedFrame(events)
  {
    hide IsForce;
    ForcedUnchangedLast(events, more);
    FrameUnchanged(events, more);
  }

  lemma {:induction false} ForcedUnchangedLast(events: seq<Event>, more: seq<Event>)
    requires forall i :: 0 <= i < |more| ==> !IsForce(more[i])
    ensures ForcedExits(events + more) == ForcedExits(events)
  {
    hide IsForce;
    if more == [] {
      assert events + more == events;
    } else {
      var init := more[..|more| - 1];
      ForcedUnchangedLast(events, init);
      assert (events + more)[..|events + more| - 1] == events + init;
    }
  }

  lemma {:induction false} FrameUnchanged(events: seq<Event>, more: seq<Event>)
    requires forall i :: 0 <= i < |more| ==> !IsForce(more[i])
    ensures FirstForcedFrame(events + more) == FirstForcedFrame(events)
    decreases |events| + |more|
  {
    hide IsForce;
    if events != [] {
      assert (events + more)[1..] == events[1..] + more;
      FrameUnchanged(events[1..], more);
    } else if more != [] {
      assert events + more == more && ([] + more[1..]) == more[1..];
      FrameUnchanged([], more[1..]);
    }
  }

  /** After a trace every key it looked for is on record. */
  lemma {:induction false} EveryWantIsOnRecord(env: Env, w: Wording, ids: nat -> string, k: string)
    requires UniqueIds(env.events) && k in KeysOf(Wanted(env, w))
    ensures
      var after := env.events + NewFindings(env, w, ids, 0);
      k in KnownKeys(Records(after, "trace-finding"))
  {
    hide Records, Findings, Missing, KeysOf, Wanted;
    var wants := KeysOf(Wanted(env, w));
    var before := Records(env.events, "trace-finding");
    var keys := Missing(wants, KnownKeys(before));
    WantedKeysDiffer(env, w);
    MissingKeys(wants, KnownKeys(before));
    FindingsOnRecord(env.events, w, ids, keys);
    var after := Records(env.events + Findings(w, ids, 0, keys), "trace-finding");
    if k in KnownKeys(before) {
      var i :| 0 <= i < |before| && StrField(before[i].data, "key") != "" && StrField(before[i].data, "key") == k;
      assert after[i] == before[i];
    } else {
      var i :| 0 <= i < |keys| && keys[i] == k;
      assert OnRecord(after, |before|, |env.events| + i);
      var a :| |before| <= a < |after| && after[a].order == |env.events| + i;
      assert Key(after[a]) == k;
    }
  }

  /** A trace directly after a trace finds every key on record and writes nothing. */
  lemma {:induction false} SecondTraceIsSilent(env: Env, w: Wording, ids: nat -> string, ids': nat -> string)
    requires UniqueIds(env.events)
    ensures
      var after := With(env, env.events + NewFindings(env, w, ids, 0));
      NewFindings(after, w, ids', 0) == []
  {
    hide Records, Findings, Missing, KeysOf, Wanted, KnownKeys;
    var wants := KeysOf(Wanted(env, w));
    var keys := Missing(wants, KnownKeys(Records(env.events, "trace-finding")));
    var env' := With(env, env.events + Findings(w, ids, 0, keys));
    FindingsChangeNoWants(env, w, ids, keys);
    forall k | k in wants
      ensures k in KnownKeys(Records(env'.events, "trace-finding"))
    {
      EveryWantIsOnRecord(env, w, ids, k);
    }
    NothingMissing(wants, KnownKeys(Records(env'.events, "trace-finding")));
    assert Findings(w, ids', 0, []) == [];
  }

  lemma {:induction false} NothingMissing(keys: seq<string>, known: set<string>)
    requires forall k :: k in keys ==> k in known
    ensures Missing(keys, known) == []
  {
    if keys != [] {
      assert keys[|keys| - 1] in keys;
      NothingMissing(keys[..|keys| - 1], known);
    }
  }

  // ---------------------------------------------------------------------------
  // What is looked for
  // ---------------------------------------------------------------------------

  ghost predicate InSome(sections: seq<Section>, k: string) {
    exists i :: 0 <= i < |sections| && k in Tagged(sections[i].tag, sections[i].ids)
  }

  /** A key is wanted exactly when some category asks for it. */
  lemma {:induction false} KeyOfSection(sections: seq<Section>, k: string)
    ensures k in KeysOf(sections) <==> InSome(sections, k)
  {
    hide Tagged, InSome;
    if sections == [] {
      assert !InSome(sections, k) by { NoneInNothing(k); }
    } else {
      KeyOfSection(sections[..|sections| - 1], k);
      LastSection(sections, k);
    }
  }

  lemma NoneInNothing(k: string)
    ensures !InSome([], k)
  {
  }

  lemma LastSection(sections: seq<Section>, k: string)
    requires sections != []
    ensures
      var last := sections[|sections| - 1];
      InSome(sections, k) <==> InSome(sections[..|sections| - 1], k) || k in Tagged(last.tag, last.ids)
  {
    hide Tagged;
    var init := sections[..|sections| - 1];
    if InSome(init, k) {
      var i :| 0 <= i < |init| && k in Tagged(init[i].tag, init[i].ids);
      assert k in Tagged(sections[i].tag, sections[i].ids);
    }
    assert forall i :: 0 <= i < |init| ==> init[i] == sections[i];
  }

  lemma {:induction false} ForcedIsListed(events: seq<Event>, i: nat)
    requires i < |events| && IsForce(events[i])
    ensures events[i].id in ForcedExits(events)
  {
    hide IsForce;
    if i < |events| - 1 {
      assert events[..|events| - 1][i] == events[i];
      ForcedIsListed(events[..|events| - 1], i);
    }
  }

  /** No forced exit escapes the close-out: after a trace each has a finding on record. */
  lemma {:induction false} ForcesAreFound(env: Env, w: Wording, ids: nat -> string, i: nat)
    requires UniqueIds(env.events) && i < |env.events| && IsForce(env.events[i])
    ensures
      var after := env.events + NewFindings(env, w, ids, 0);
      "force:" + env.events[i].id in KnownKeys(Records(after, "trace-finding"))
  {
    hide NewFindings, KnownKeys, Records, KeysOf, Tagged, ForcedExits, Having, Invalidated, OutOfScope,
      FirstForcedFrame, Drift, StaleVerdicts, IsForce;
    var sections := Wanted(env, w);
    ForcedIsListed(env.events, i);
    assert sections[0] == Section("force:", ForcedExits(env.events));
    assert InSome(sections, "force:" + env.events[i].id);
    KeyOfSection(sections, "force:" + env.events[i].id);
    EveryWantIsOnRecord(env, w, ids, "force:" + env.events[i].id);
  }

  /** A boundary names the edited path as out of scope. */
  ghost predicate Trespasses(w: Wording, boundaries: seq<Record>, ed: Record) {
    exists b :: b in boundaries && NamesPath(w, ListField(b.data, "out_of_scope"), ed)
  }

  ghost predicate NamesPath(w: Wording, entries: seq<Value>, ed: Record) {
    exists entry :: entry in entries && EntryNames(w, entry, ed)
  }

  predicate EntryNames(w: Wording, entry: Value, ed: Record) {
    entry.Str? && StrField(ed.data, "path") != "" && Paths.Covers(w.glob, entry.s, StrField(ed.data, "path"))
  }

  ghost predicate SomeTrespass(w: Wording, boundaries: seq<Record>, edits: seq<Record>, id: string) {
    exists ed :: ed in edits && ed.id == id && Trespasses(w, boundaries, ed)
  }

  lemma {:induction false} CoveredEditsIff(w: Wording, entry: string, edits: seq<Record>, seen: set<string>, id: string)
    ensures id in CoveredEdits(w, entry, edits, seen) <==>
            id !in seen && exists ed :: ed in edits && ed.id == id && EntryNames(w, Str(entry), ed)
  {
    if edits != [] {
      var init, last := edits[..|edits| - 1], edits[|edits| - 1];
      CoveredEditsIff(w, entry, init, seen, id);
      CoveredEditsIff(w, entry, init, seen, last.id);
      assert last in edits && forall ed :: ed in edits <==> ed in init || ed == last;
    }
  }

  lemma {:induction false} CoveredByEntriesIff(
    w: Wording, entries: seq<Value>, edits: seq<Record>, seen: set<string>, id: string)
    ensures id in CoveredByEntries(w, entries, edits, seen) <==>
            id !in seen && exists ed :: ed in edits && ed.id == id && NamesPath(w, entries, ed)
  {
    hide CoveredEdits, EntryNames;
    if entries != [] {
      var init, last := entries[..|entries| - 1], entries[|entries| - 1];
      CoveredByEntriesIff(w, init, edits, seen, id);
      var before := CoveredByEntries(w, init, edits, seen);
      if last.Str? { CoveredEditsIff(w, last.s, edits, seen + (set h | h in before), id); }
      forall ed
        ensures NamesPath(w, entries, ed) <==> NamesPath(w, init, ed) || EntryNames(w, last, ed)
      {
        assert last in entries && forall x :: x in entries <==> x in init || x == last;
      }
      NamesOnlyStrings(w, last);
    }
  }

  lemma NamesOnlyStrings(w: Wording, entry: Value)
    ensures forall ed :: EntryNames(w, entry, ed) ==> entry.Str?
  {
  }

  /** An edit is reported out of scope exactly when a recorded boundary names its path. */
  lemma {:induction false} OutOfScopeIff(w: Wording, boundaries: seq<Record>, edits: seq<Record>, id: string)
    ensures id in OutOfScope(w, boundaries, edits) <==> SomeTrespass(w, boundaries, edits, id)
  {
    hide CoveredByEntries, NamesPath;
    if boundaries != [] {
      var init, last := boundaries[..|boundaries| - 1], boundaries[|boundaries| - 1];
      OutOfScopeIff(w, init, edits, id);
      var before := OutOfScope(w, init, edits);
      CoveredByEntriesIff(w, ListField(last.data, "out_of_scope"), edits, (set h | h in before), id);
      forall ed
        ensures Trespasses(w, boundaries, ed) <==>
                Trespasses(w, init, ed) || NamesPath(w, ListField(last.data, "out_of_scope"), ed)
      {
        assert last in boundaries && forall x :: x in boundaries <==> x in init || x == last;
      }
    }
  }
}

/** What the close-out trace looks for, category by category, and what it records. */
module TraceMeaning {
  import opened Values
  import opened Events
  import opened UpdateFolding
  import opened WorkflowSpec
  import opened Matching
  import Approvals
  import Verdicts
  import opened Trace

  // ---------------------------------------------------------------------------
  // The nine categories
  // ---------------------------------------------------------------------------

  /** A phase was left by force. */
  ghost predicate OfForce(events: seq<Event>, key: string) {
    exists e :: e in events && e.kind == "phase" && StrField(e.data, "action") == "force" && key == "force:" + e.id
  }

  /** A record of the kind says one of two things in a field. */
  ghost predicate OfRecord(
    events: seq<Event>, kind: string, field: string, one: string, other: string, tag: string, key: string)
  {
    exists r :: r in Records(events, kind) && StrField(r.data, field) in {one, other} && key == tag + r.id
  }

  /** Approval `a` is the newest of the gate that bound references. */
  ghost predicate LastBinding(approvals: seq<Record>, gate: string, a: nat) {
    && a < |approvals| && Binds(approvals[a], gate)
    && forall b :: a < b < |approvals| ==> !Binds(approvals[b], gate)
  }

  predicate Binds(r: Record, gate: string) {
    StrField(r.data, "gate") == gate && "approved_refs" in r.data && r.data["approved_refs"].List?
  }

  /** What the gate would bind now, its newest binding approval did not. */
  ghost predicate OfDrift(events: seq<Event>, gate: string, key: string) {
    var approvals := Records(events, "approval");
    exists a: nat, ref :: LastBinding(approvals, gate, a) && ref in Approvals.ApprovalRefs(events, gate)
                     && Str(ref) !in approvals[a].data["approved_refs"].items
                     && key == "drift:" + (gate + ":" + ref)
  }

  /** An edit of a path that a recorded boundary names. */
  ghost predicate OfScope(env: Env, w: Wording, key: string) {
    var boundaries := Records(env.events, "scope-boundary");
    exists ed :: ed in Records(env.events, "edit") && Trespasses(w, boundaries, ed) && key == "scope:" + ed.id
  }

  /** A verdict of a gating agent. */
  ghost predicate ByGate(env: Env, v: Record) {
    v in Records(env.events, "verdict") && Verdicts.Gates(env.spec.roster, StrField(v.data, "agent"))
  }

  /** Some gating agent gave a verdict, and something was edited after the last of them. */
  ghost predicate IsStale(env: Env) {
    && (exists v :: ByGate(env, v))
    && exists ed :: ed in Records(env.events, "edit") && forall v :: ByGate(env, v) ==> v.order < ed.order
  }

  /** Frame was left by force, for the first time by event `i`, and no risk is on record. */
  ghost predicate OfFrame(events: seq<Event>, key: string) {
    Records(events, "risk") == [] &&
    exists i :: 0 <= i < |events| && ForcedFrame(events[i]) && (forall j :: 0 <= j < i ==> !ForcedFrame(events[j]))
                && key == "vacated-signals:" + events[i].id
  }

  predicate ForcedFrame(e: Event) {
    e.kind == "phase" && StrField(e.data, "action") == "force" && e.phase == "frame"
  }

  ghost predicate OfAssumption(events: seq<Event>, key: string) {
    exists r :: r in Records(events, "assumption") && "high_risk" in r.data && r.data["high_risk"] == Bool(true)
                && StrField(r.data, "status") == "invalidated" && key == "assumption-invalidated:" + r.id
  }

  /** The close-out asks for this finding. */
  ghost predicate Asked(env: Env, w: Wording, key: string) {
    || OfForce(env.events, key)
    || OfRecord(env.events, "followup", "status", "open", "open", "followup:", key)
    || OfRecord(env.events, "deviation", "status", "pending", "pending", "deviation:", key)
    || OfRecord(env.events, "ambiguity", "disposition", "deferred", "open", "ambiguity:", key)
    || OfDrift(env.events, "scope", key) || OfDrift(env.events, "design", key) || OfDrift(env.events, "plan", key)
    || OfScope(env, w, key)
    || (IsStale(env) && key == "stale-verdicts")
    || OfFrame(env.events, key)
    || OfAssumption(env.events, key)
  }

  // ---------------------------------------------------------------------------
  // Why these
  // ---------------------------------------------------------------------------

  lemma TaggedIff(tag: string, ids: seq<string>, key: string)
    ensures key in Tagged(tag, ids) <==> exists id :: id in ids && key == tag + id
  {
    var keys := Tagged(tag, ids);
    if key in keys {
      var i :| 0 <= i < |keys| && keys[i] == key;
      assert ids[i] in ids;
    }
    forall id | id in ids && key == tag + id
      ensures key in keys
    {
      var i :| 0 <= i < |ids| && ids[i] == id;
      assert keys[i] == key;
    }
  }

  lemma {:induction false} ForcedIff(events: seq<Event>, id: string)
    ensures id in ForcedExits(events) <==>
            exists e :: e in events && e.kind == "phase" && StrField(e.data, "action") == "force" && e.id == id
  {
    if events != [] {
      var init, last := events[..|events| - 1], events[|events| - 1];
      ForcedIff(init, id);
      assert last in events && forall e :: e in events <==> e in init || e == last;
    }
  }

  lemma {:induction false} HavingIff(rs: seq<Record>, field: string, values: set<string>, id: string)
    ensures id in Having(rs, field, values) <==> exists r :: r in rs && StrField(r.data, field) in values && r.id == id
  {
    if rs != [] {
      var init, last := rs[..|rs| - 1], rs[|rs| - 1];
      HavingIff(init, field, values, id);
      assert last in rs && forall r :: r in rs <==> r in init || r == last;
    }
  }

  lemma {:induction false} InvalidatedIff(rs: seq<Record>, id: string)
    ensures id in Invalidated(rs) <==>
            exists r :: r in rs && "high_risk" in r.data && r.data["high_risk"] == Bool(true)
                        && StrField(r.data, "status") == "invalidated" && r.id == id
  {
    if rs != [] {
      var init, last := rs[..|rs| - 1], rs[|rs| - 1];
      InvalidatedIff(init, id);
      assert last in rs && forall r :: r in rs <==> r in init || r == last;
    }
  }

  lemma {:induction false} LastBindingIff(approvals: seq<Record>, gate: string) returns (a: nat)
    ensures LatestApprovedRefs(approvals, gate).None? <==>
            forall b :: 0 <= b < |approvals| ==> !Binds(approvals[b], gate)
    ensures LatestApprovedRefs(approvals, gate).Some? ==>
              && LastBinding(approvals, gate, a)
              && forall ref :: ref in LatestApprovedRefs(approvals, gate).value <==>
                               ref in StrList(approvals[a].data["approved_refs"].items)
  {
    a := 0;
    if approvals != [] {
      var init := approvals[..|approvals| - 1];
      assert forall b :: 0 <= b < |init| ==> init[b] == approvals[b];
      if Binds(approvals[|approvals| - 1], gate) { a := |approvals| - 1; }
      else { a := LastBindingIff(init, gate); }
    }
  }

  lemma {:induction false} UnapprovedIff(refs: seq<string>, gate: string, approved: set<string>, x: string)
    ensures x in Unapproved(refs, gate, approved) <==>
            exists ref :: ref in refs && ref !in approved && x == gate + ":" + ref
  {
    if refs != [] {
      var init, last := refs[..|refs| - 1], refs[|refs| - 1];
      UnapprovedIff(init, gate, approved, x);
      assert last in refs && forall ref :: ref in refs <==> ref in init || ref == last;
    }
  }

  lemma {:induction false} DriftIff(events: seq<Event>, gate: string, x: string)
    ensures
      var approvals := Records(events, "approval");
      x in Drift(events, gate) <==>
      exists a: nat, ref :: LastBinding(approvals, gate, a) && ref in Approvals.ApprovalRefs(events, gate)
                       && Str(ref) !in approvals[a].data["approved_refs"].items && x == gate + ":" + ref
  {
    hide Records, Approvals.ApprovalRefs, LatestApprovedRefs, Unapproved;
    var approvals, refs := Records(events, "approval"), Approvals.ApprovalRefs(events, gate);
    var a := LastBindingIff(approvals, gate);
    if LatestApprovedRefs(approvals, gate).None? {
      assert forall b: nat :: !LastBinding(approvals, gate, b);
    }
    if LatestApprovedRefs(approvals, gate).Some? {
      var items := approvals[a].data["approved_refs"].items;
      UnapprovedIff(refs, gate, LatestApprovedRefs(approvals, gate).value, x);
      assert forall b: nat :: LastBinding(approvals, gate, b) <==> b == a;
      forall ref
        ensures ref in LatestApprovedRefs(approvals, gate).value <==> Str(ref) in items
      {
        StrListIff(items, ref);
      }
    }
  }

  lemma {:induction false} FrameIff(events: seq<Event>, id: string)
    ensures id in FirstForcedFrame(events) <==>
            exists i :: 0 <= i < |events| && ForcedFrame(events[i])
                        && (forall j :: 0 <= j < i ==> !ForcedFrame(events[j])) && events[i].id == id
  {
    if events != [] {
      if ForcedFrame(events[0]) {
        assert id in FirstForcedFrame(events) <==> events[0].id == id;
      } else {
        var rest := events[1..];
        FrameIff(rest, id);
        assert forall i :: 0 <= i < |rest| ==> rest[i] == events[i + 1];
        if id in FirstForcedFrame(rest) {
          var i :| 0 <= i < |rest| && ForcedFrame(rest[i])
                   && (forall j :: 0 <= j < i ==> !ForcedFrame(rest[j])) && rest[i].id == id;
          assert forall j :: 1 <= j < i + 1 ==> events[j] == rest[j - 1];
          assert ForcedFrame(events[i + 1]);
        }
        forall i | 0 <= i < |events| && ForcedFrame(events[i])
                   && (forall j :: 0 <= j < i ==> !ForcedFrame(events[j])) && events[i].id == id
          ensures id in FirstForcedFrame(rest)
        {
          assert ForcedFrame(rest[i - 1]) && forall j :: 0 <= j < i - 1 ==> rest[j] == events[j + 1];
        }
      }
    }
  }

  lemma {:induction false} LastGatingIsLast(env: Env, vs: seq<Record>)
    ensures
      var last := LastGatingVerdict(env, vs);
      && last >= -1
      && (forall v :: v in vs && Verdicts.Gates(env.spec.roster, StrField(v.data, "agent")) ==> v.order <= last)
      && (last >= 0 ==>
        exists v :: v in vs && Verdicts.Gates(env.spec.roster, StrField(v.data, "agent")) && v.order == last)
  {
    hide Verdicts.Gates;
    if vs != [] {
      var init, v := vs[..|vs| - 1], vs[|vs| - 1];
      LastGatingIsLast(env, init);
      Verdicts.GatesIff(env.spec.roster, StrField(v.data, "agent"));
      assert v in vs && forall x :: x in vs <==> x in init || x == v;
    }
  }

  lemma {:induction false} StaleIff(env: Env, id: string)
    ensures id in StaleVerdicts(env) <==> IsStale(env) && id == ""
  {
    hide Records, Verdicts.Gates, LastGatingVerdict;
    var vs, edits := Records(env.events, "verdict"), Records(env.events, "edit");
    var last := LastGatingVerdict(env, vs);
    LastGatingIsLast(env, vs);
    if last >= 0 {
      var newest :| newest in vs && Verdicts.Gates(env.spec.roster, StrField(newest.data, "agent"))
                    && newest.order == last;
      assert ByGate(env, newest);
      if EditedSince(edits, last) {
        var i :| 0 <= i < |edits| && edits[i].order > last;
        assert edits[i] in edits;
      }
      if IsStale(env) {
        var ed :| ed in edits && forall v :: ByGate(env, v) ==> v.order < ed.order;
        var i :| 0 <= i < |edits| && edits[i] == ed;
      }
    }
  }

  ghost predicate InSection(sections: seq<Section>, i: nat, key: string)
    requires i < |sections|
  {
    key in Tagged(sections[i].tag, sections[i].ids)
  }

  lemma NineSections(env: Env, w: Wording, key: string)
    ensures
      var s := Wanted(env, w);
      && |s| == 9
      && (key in KeysOf(s) <==>
          || InSection(s, 0, key) || InSection(s, 1, key) || InSection(s, 2, key) || InSection(s, 3, key)
          || InSection(s, 4, key) || InSection(s, 5, key) || InSection(s, 6, key) || InSection(s, 7, key)
          || InSection(s, 8, key))
  {
    hide KeysOf, Tagged, ForcedExits, Having, Invalidated, OutOfScope, FirstForcedFrame, Drift, StaleVerdicts, Records;
    KeyOfSection(Wanted(env, w), key);
  }

  lemma RecordSection(rs: seq<Record>, field: string, one: string, other: string, tag: string, key: string)
    ensures key in Tagged(tag, Having(rs, field, {one, other})) <==>
            exists r :: r in rs && StrField(r.data, field) in {one, other} && key == tag + r.id
  {
    hide Having;
    TaggedIff(tag, Having(rs, field, {one, other}), key);
    forall id
      ensures id in Having(rs, field, {one, other}) <==>
              exists r :: r in rs && StrField(r.data, field) in {one, other} && r.id == id
    {
      HavingIff(rs, field, {one, other}, id);
    }
  }

  lemma ForceSection(events: seq<Event>, key: string)
    ensures key in Tagged("force:", ForcedExits(events)) <==> OfForce(events, key)
  {
    hide ForcedExits;
    TaggedIff("force:", ForcedExits(events), key);
    forall id
      ensures id in ForcedExits(events) <==>
              exists e :: e in events && e.kind == "phase" && StrField(e.data, "action") == "force" && e.id == id
    {
      ForcedIff(events, id);
    }
  }

  lemma DriftSection(events: seq<Event>, key: string)
    ensures key in Tagged("drift:", Drift(events, "scope") + Drift(events, "design") + Drift(events, "plan")) <==>
            OfDrift(events, "scope", key) || OfDrift(events, "design", key) || OfDrift(events, "plan", key)
  {
    hide Drift, OfDrift;
    var ids := Drift(events, "scope") + Drift(events, "design") + Drift(events, "plan");
    TaggedIff("drift:", ids, key);
    OneDrift(events, "scope", key);
    OneDrift(events, "design", key);
    OneDrift(events, "plan", key);
  }

  lemma OneDrift(events: seq<Event>, gate: string, key: string)
    ensures OfDrift(events, gate, key) <==> exists id :: id in Drift(events, gate) && key == "drift:" + id
  {
    hide Drift, Records, Approvals.ApprovalRefs;
    var approvals := Records(events, "approval");
    forall id | id in Drift(events, gate) && key == "drift:" + id
      ensures OfDrift(events, gate, key)
    {
      DriftIff(events, gate, id);
    }
    if OfDrift(events, gate, key) {
      var a: nat, ref :| LastBinding(approvals, gate, a) && ref in Approvals.ApprovalRefs(events, gate)
                         && Str(ref) !in approvals[a].data["approved_refs"].items
                         && key == "drift:" + (gate + ":" + ref);
      DriftIff(events, gate, gate + ":" + ref);
    }
  }

  lemma ScopeSection(env: Env, w: Wording, key: string)
    ensures
      var boundaries, edits := Records(env.events, "scope-boundary"), Records(env.events, "edit");
      key in Tagged("scope:", OutOfScope(w, boundaries, edits)) <==> OfScope(env, w, key)
  {
    hide Records, OutOfScope, Trespasses;
    var boundaries, edits := Records(env.events, "scope-boundary"), Records(env.events, "edit");
    TaggedIff("scope:", OutOfScope(w, boundaries, edits), key);
    forall id
      ensures id in OutOfScope(w, boundaries, edits) <==>
              exists ed :: ed in edits && ed.id == id && Trespasses(w, boundaries, ed)
    {
      OutOfScopeIff(w, boundaries, edits, id);
    }
  }

  lemma StaleSection(env: Env, key: string)
    ensures key in Tagged("stale-verdicts", StaleVerdicts(env)) <==> IsStale(env) && key == "stale-verdicts"
  {
    hide StaleVerdicts, IsStale;
    TaggedIff("stale-verdicts", StaleVerdicts(env), key);
    StaleIff(env, "");
    assert "stale-verdicts" + "" == "stale-verdicts";
    forall id | id in StaleVerdicts(env)
      ensures id == ""
    {
      StaleIff(env, id);
    }
  }

  lemma FrameSection(events: seq<Event>, key: string)
    ensures
      key in Tagged("vacated-signals:", if Records(events, "risk") == [] then FirstForcedFrame(events) else []) <==>
      OfFrame(events, key)
  {
    hide Records, FirstForcedFrame, ForcedFrame;
    var ids := if Records(events, "risk") == [] then FirstForcedFrame(events) else [];
    TaggedIff("vacated-signals:", ids, key);
    forall id | id in FirstForcedFrame(events)
      ensures exists i :: 0 <= i < |events| && ForcedFrame(events[i])
                          && (forall j :: 0 <= j < i ==> !ForcedFrame(events[j])) && events[i].id == id
    {
      FrameIff(events, id);
    }
    forall i | 0 <= i < |events| && ForcedFrame(events[i]) && (forall j :: 0 <= j < i ==> !ForcedFrame(events[j]))
      ensures events[i].id in FirstForcedFrame(events)
    {
      FrameIff(events, events[i].id);
    }
  }

  lemma AssumptionSection(events: seq<Event>, key: string)
    ensures key in Tagged("assumption-invalidated:", Invalidated(Records(events, "assumption"))) <==>
            OfAssumption(events, key)
  {
    hide Records, Invalidated;
    var rs := Records(events, "assumption");
    TaggedIff("assumption-invalidated:", Invalidated(rs), key);
    forall id
      ensures id in Invalidated(rs) <==>
              exists r :: r in rs && "high_risk" in r.data && r.data["high_risk"] == Bool(true)
                          && StrField(r.data, "status") == "invalidated" && r.id == id
    {
      InvalidatedIff(rs, id);
    }
  }

  /** The trace wants a finding exactly when one of the nine categories asks for it. */
  lemma {:induction false} WantedIff(env: Env, w: Wording, key: string)
    ensures key in KeysOf(Wanted(env, w)) <==> Asked(env, w, key)
  {
    hide KeysOf, Tagged, ForcedExits, Having, Invalidated, OutOfScope, FirstForcedFrame, Drift, StaleVerdicts, Records,
      OfForce, OfDrift, OfScope, IsStale, OfFrame, OfAssumption;
    var evs := env.events;
    NineSections(env, w, key);
    ForceSection(evs, key);
    RecordSection(Records(evs, "followup"), "status", "open", "open", "followup:", key);
    RecordSection(Records(evs, "deviation"), "status", "pending", "pending", "deviation:", key);
    RecordSection(Records(evs, "ambiguity"), "disposition", "deferred", "open", "ambiguity:", key);
    assert {"open", "open"} == {"open"} && {"pending", "pending"} == {"pending"};
    DriftSection(evs, key);
    ScopeSection(env, w, key);
    StaleSection(env, key);
    FrameSection(evs, key);
    AssumptionSection(evs, key);
  }

  /** An open, captured finding of the engine about the key. */
  predicate Finds(e: Event, w: Wording, id: string, key: string) {
    && e.kind == "trace-finding" && e.auto && e.actor == "engine" && e.id == id
    && e.data == map["key" := Str(key), "text" := Str(w.text(key)), "severity" := Str(w.severity(key)),
                     "status" := Str("open")]
  }

  /** A trace records one finding for every key that is asked for and not on record, and
      nothing else. */
  lemma {:induction false} RecordedIff(env: Env, w: Wording, mint: nat -> string, from: nat) returns (keys: seq<string>)
    requires UniqueIds(env.events)
    ensures
      var added := NewFindings(env, w, mint, from);
      |added| == |keys| && forall i :: 0 <= i < |added| ==> Finds(added[i], w, mint(from + i), keys[i])
    ensures NoRepeats(keys)
    ensures forall key :: key in keys <==>
      && Asked(env, w, key)
      && forall r :: r in Records(env.events, "trace-finding") ==> StrField(r.data, "key") != key
  {
    hide Records, KeysOf, Wanted, Asked, Missing, KnownKeys;
    var wants, known := KeysOf(Wanted(env, w)), KnownKeys(Records(env.events, "trace-finding"));
    keys := Missing(wants, known);
    WantedKeysDiffer(env, w);
    MissingKeys(wants, known);
    hide NoRepeats, NewFindings;
    forall key
      ensures key in keys <==>
        && Asked(env, w, key)
        && forall r :: r in Records(env.events, "trace-finding") ==> StrField(r.data, "key") != key
    {
      WantedIff(env, w, key);
      KnownIff(Records(env.events, "trace-finding"), key);
    }
    AddedFind(env, w, mint, from);
  }

  lemma AddedFind(env: Env, w: Wording, mint: nat -> string, from: nat)
    ensures
      var added := NewFindings(env, w, mint, from);
      var keys := Missing(KeysOf(Wanted(env, w)), KnownKeys(Records(env.events, "trace-finding")));
      |added| == |keys| && forall i :: 0 <= i < |added| ==> Finds(added[i], w, mint(from + i), keys[i])
  {
    hide Records, KeysOf, Wanted, Missing, KnownKeys;
  }

  lemma KnownIff(findings: seq<Record>, key: string)
    ensures key in KnownKeys(findings) <==> key != "" && exists r :: r in findings && StrField(r.data, "key") == key
  {
    if key != "" && exists r :: r in findings && StrField(r.data, "key") == key {
      var r :| r in findings && StrField(r.data, "key") == key;
      var i :| 0 <= i < |findings| && findings[i] == r;
    }
    if key in KnownKeys(findings) {
      var i :| 0 <= i < |findings|
               && StrField(findings[i].data, "key") != "" && StrField(findings[i].data, "key") == key;
      assert findings[i] in findings;
    }
  }
}

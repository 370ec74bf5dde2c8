/** Approvals in a run: when one goes through, and what anchors it. */
module RunApprovals {
  import opened Values
  import opened Events
  import opened UpdateFolding
  import opened WorkflowSpec
  import opened PhaseOrder
  import Approvals
  import opened RunState
  import opened RunLog
  import opened RunInvariant
  import opened RunSafety
  import opened RunHistory
  import opened Matching
  import opened RunIsolation
  import opened RunCommands

  // ---------------------------------------------------------------------------
  // Approving
  // ---------------------------------------------------------------------------

  /** What the configuration says of approvals. */
  function Secured(config: Config): Value {
    if "approvals" in config.flags then config.flags["approvals"] else Null
  }

  /** Answer `k` is about the gate or about none, came after every approval of the gate and,
      where approvals are challenged, carries the code. */
  ghost predicate FitsGate(own: seq<Event>, gate: string, secured: Value, carriesCode: string -> bool, k: nat) {
    var rs := Records(own, "user-answer");
    && k < |rs| && (StrField(rs[k].data, "topic") == gate || StrField(rs[k].data, "topic") == "")
    && (forall a :: a in Records(own, "approval") && StrField(a.data, "gate") == gate ==> a.order < rs[k].order)
    && (secured == Str("challenge") ==> carriesCode(StrField(rs[k].data, "answer")))
  }

  /** Of the answers that fit, those about the gate come first, and the newest of them. */
  ghost predicate Best(own: seq<Event>, gate: string, secured: Value, carriesCode: string -> bool, k: nat) {
    var rs := Records(own, "user-answer");
    && FitsGate(own, gate, secured, carriesCode, k)
    && forall j: nat :: j != k && FitsGate(own, gate, secured, carriesCode, j) ==>
      || (StrField(rs[k].data, "topic") == gate && StrField(rs[j].data, "topic") != gate)
      || (StrField(rs[k].data, "topic") == StrField(rs[j].data, "topic") && j < k)
  }

  ghost predicate AllNamed(own: seq<Event>) {
    forall e :: e in own ==> e.id != ""
  }

  lemma {:induction false} AnswersAreNamed(own: seq<Event>)
    requires AllNamed(own)
    ensures forall r :: r in Records(own, "user-answer") ==> r.id != ""
  {
    hide RecordAt;
    RecordsInStreamOrder(own, "user-answer", |own|);
    forall r | r in Records(own, "user-answer")
      ensures r.id != ""
    {
      RecordAtIsAt(own, r.order, |own|);
    }
  }

  /** The anchor is the best answer, or none when no answer fits. */
  lemma {:induction false} AnchorIsBest(en: Engine, own: seq<Event>, gate: string, carriesCode: string -> bool)
    returns (k: nat)
    requires AllNamed(own)
    ensures
      var anchor := Approvals.AnchorFor(own, gate, ApprovalSetting(en, carriesCode).mode);
      var secured, rs := Secured(en.config), Records(own, "user-answer");
      && (anchor == "" <==> forall j: nat :: !FitsGate(own, gate, secured, carriesCode, j))
      && (anchor != "" ==> Best(own, gate, secured, carriesCode, k) && anchor == rs[k].id)
  {
    hide Records, Approvals.AnchorFor, Approvals.LastApproval;
    var mode := ApprovalSetting(en, carriesCode).mode;
    var rs, approvals := Records(own, "user-answer"), Records(own, "approval");
    var after := Approvals.LastApproval(approvals, gate);
    AnswersAreNamed(own);
    k := Approvals.AnchorIsNewest(own, gate, mode);
    forall j: nat
      ensures FitsGate(own, gate, Secured(en.config), carriesCode, j) <==>
              j < |rs| && (Approvals.Answers(rs[j], after, gate, mode) || Approvals.Answers(rs[j], after, "", mode))
    {
      if j < |rs| { Approvals.SinceLastIsSinceAll(approvals, gate, rs[j].order); }
    }
  }

  /** Under "challenge" an approval goes through exactly when an answer that carries the code
      fits, under "hardened" when any answer fits, under anything else always. */
  lemma {:induction false} ApproveGoesThroughIff(
    en: Engine, st: State, gate: string, payload: string, carriesCode: string -> bool, own: seq<Event>)
    requires st.run.Some? && OwnEvents(st.log, st.run.value.id, own) && AllNamed(own)
    ensures
      var secured := Secured(en.config);
      ApproveStep(en, st, gate, payload, carriesCode).1 == Done <==>
      (secured == Str("challenge") || secured == Str("hardened") ==>
        exists k: nat :: FitsGate(own, gate, secured, carriesCode, k))
  {
    hide OwnEvents, Approvals.AnchorFor, Approvals.Bound, FitsGate, Best;
    OwnIsOfRun(st.log, st.run.value.id, own);
    var k := AnchorIsBest(en, own, gate, carriesCode);
  }

  /** What an approval holds: the gate, the fingerprint of what was presented, the references
      it binds with theirs, the answer it is anchored in, and whether it was challenged. */
  ghost predicate ApprovalHolds(
    en: Engine, own: seq<Event>, gate: string, payload: string, carriesCode: string -> bool, data: Fields)
  {
    var secured, refs := Secured(en.config), Approvals.ApprovalRefs(own, gate);
    && data.Keys <= {"gate", "payload_hash", "approved_refs", "refs_hash", "answer_ref", "challenge"}
    && "gate" in data && data["gate"] == Str(gate)
    && ("payload_hash" in data <==> payload != "") && (payload != "" ==> data["payload_hash"] == Str(en.hash(payload)))
    && ("approved_refs" in data <==> refs != []) && ("refs_hash" in data <==> refs != [])
    && (refs != [] ==>
      && data["approved_refs"].List? && |data["approved_refs"].items| == |refs|
      && (forall i :: 0 <= i < |refs| ==> data["approved_refs"].items[i] == Str(refs[i]))
      && data["refs_hash"] == Str(en.hash(Approvals.JoinLines(refs))))
    && (if exists k: nat :: FitsGate(own, gate, secured, carriesCode, k)
        then exists k: nat :: Best(own, gate, secured, carriesCode, k)
                              && "answer_ref" in data && data["answer_ref"] == Str(Records(own, "user-answer")[k].id)
        else "answer_ref" !in data)
    && ("challenge" in data <==> secured == Str("challenge"))
    && ("challenge" in data ==> data["challenge"] == Bool(true))
  }

  lemma {:induction false} DataHolds(
    en: Engine, own: seq<Event>, gate: string, payload: string, carriesCode: string -> bool)
    requires AllNamed(own)
    requires Approvals.ApprovalData(own, gate, payload, ApprovalSetting(en, carriesCode)).Some?
    ensures ApprovalHolds(en, own, gate, payload, carriesCode,
                  Approvals.ApprovalData(own, gate, payload, ApprovalSetting(en, carriesCode)).value)
  {
    hide Approvals.AnchorFor, FitsGate, Best, Approvals.ApprovalRefs, Approvals.ListOf, Approvals.JoinLines, Records;
    var k := AnchorIsBest(en, own, gate, carriesCode);
  }

  lemma {:induction false} ApproveLeaves(
    en: Engine, st: State, gate: string, payload: string, carriesCode: string -> bool, own: seq<Event>)
    requires st.run.Some? && OwnEvents(st.log, st.run.value.id, own) && AllNamed(own)
    requires ApproveStep(en, st, gate, payload, carriesCode).1 == Done
    ensures
      var r, st' := st.run.value, ApproveStep(en, st, gate, payload, carriesCode).0;
      && st'.run == st.run && st'.archives == st.archives && st.log <= st'.log && |st'.log| == |st.log| + 1
      && var e := st'.log[|st.log|];
      && e.(id := "", ts := "") == Told(r.id, r.phase, "approval", "user", e.data)
      && ApprovalHolds(en, own, gate, payload, carriesCode, e.data)
  {
    hide OwnEvents, Approvals.ApprovalData, ApprovalHolds, ApprovalSetting;
    OwnIsOfRun(st.log, st.run.value.id, own);
    DataHolds(en, own, gate, payload, carriesCode);
  }

  // ---------------------------------------------------------------------------
  // Approvals on record
  // ---------------------------------------------------------------------------

  /** No approval was recorded by hand. */
  predicate NoneByHand(ts: seq<Turn>) {
    forall i :: 0 <= i < |ts| && ts[i].cmd.Record? ==> ts[i].cmd.kind != "approval"
  }

  predicate IsStrict(en: Engine, t: Turn) {
    t.cmd.Approve? ==> !ApprovalSetting(Seen(en, t.sight), t.cmd.carriesCode).mode.Lenient?
  }

  /** Every approval was given in a mode that asks for an answer. */
  predicate AllStrict(en: Engine, ts: seq<Turn>) {
    forall i :: 0 <= i < |ts| ==> IsStrict(en, ts[i])
  }

  /** Events with identities of their own, none of which updates another. */
  ghost predicate Separate(events: seq<Event>) {
    NoUpdates(events) && UniqueIds(events) && forall i :: 0 <= i < |events| ==> events[i].id != ""
  }

  lemma SeparateParts(events: seq<Event>, more: seq<Event>)
    requires Separate(events + more)
    ensures Separate(events)
    ensures more != [] ==> Separate(events + more[..|more| - 1])
  {
    var all := events + more;
    assert forall i :: 0 <= i < |events| ==> events[i] == all[i];
    if more != [] {
      var some := events + more[..|more| - 1];
      assert forall i :: 0 <= i < |some| ==> some[i] == all[i];
    }
  }

  lemma LastIsNew(events: seq<Event>, e: Event)
    requires Separate(events + [e])
    ensures Approvals.NewId(events, e.id) && (IsTransition(e) || UpdateTarget(e).None?)
  {
    var all := events + [e];
    assert all[|events|] == e;
    assert forall i :: 0 <= i < |events| ==> events[i] == all[i];
  }

  lemma {:induction false} NotesKeepFresh(events: seq<Event>, more: seq<Event>, strict: bool)
    requires Approvals.AllAnchored(events, strict) && Separate(events + more)
    requires forall i :: 0 <= i < |more| ==> more[i].kind != "approval"
    ensures Approvals.AllAnchored(events + more, strict)
  {
    hide Approvals.AllAnchored, Separate;
    if more == [] {
      assert events + more == events;
    } else {
      var init, last := more[..|more| - 1], more[|more| - 1];
      SeparateParts(events, more);
      NotesKeepFresh(events, init, strict);
      assert events + more == (events + init) + [last];
      LastIsNew(events + init, last);
      Approvals.NoteKeepsFresh(events + init, last, strict);
    }
  }

  lemma {:induction false} OfRunJoin(a: seq<Event>, b: seq<Event>, run: string)
    ensures OfRun(a + b, run) == OfRun(a, run) + OfRun(b, run)
  {
    if b == [] {
      assert a + b == a;
    } else {
      OfRunJoin(a, b[..|b| - 1], run);
      assert (a + b)[..|a + b| - 1] == a + b[..|b| - 1];
    }
  }

  lemma {:induction false} OfRunAll(events: seq<Event>, run: string)
    requires forall i :: 0 <= i < |events| ==> events[i].run == run
    ensures OfRun(events, run) == events
  {
    if events != [] {
      OfRunAll(events[..|events| - 1], run);
      assert events == events[..|events| - 1] + [events[|events| - 1]];
    }
  }

  lemma {:induction false} OfRunNone(events: seq<Event>, run: string)
    requires !Known(events, run)
    ensures OfRun(events, run) == []
  {
    if events != [] {
      var init := events[..|events| - 1];
      assert forall i :: 0 <= i < |init| ==> init[i] == events[i];
      OfRunNone(init, run);
    }
  }

  lemma NewEvents(before: seq<Event>, after: seq<Event>, run: string)
    requires before <= after && forall i :: |before| <= i < |after| ==> after[i].run == run
    ensures OfRun(after, run) == OfRun(before, run) + after[|before|..]
  {
    var more := after[|before|..];
    assert after == before + more;
    OfRunJoin(before, more, run);
    OfRunAll(more, run);
  }

  // ---------------------------------------------------------------------------
  // One command
  // ---------------------------------------------------------------------------

  /** What the command adds to the events of its run is no approval. */
  lemma {:induction false} OthersKeepFresh(before: seq<Event>, after: seq<Event>, run: string, strict: bool)
    requires before <= after && Approvals.AllAnchored(OfRun(before, run), strict) && Separate(OfRun(after, run))
    requires forall i :: |before| <= i < |after| ==> after[i].run == run && after[i].kind != "approval"
    ensures Approvals.AllAnchored(OfRun(after, run), strict)
  {
    hide Approvals.AllAnchored, Separate, OfRun;
    NewEvents(before, after, run);
    var more := after[|before|..];
    assert forall i :: 0 <= i < |more| ==> more[i] == after[|before| + i];
    NotesKeepFresh(OfRun(before, run), more, strict);
  }

  lemma {:induction false} ApprovingKeepsFresh(
    en: Engine, st: State, gate: string, payload: string, carriesCode: string -> bool, strict: bool)
    requires st.run.Some? && Approvals.AllAnchored(OfRun(st.log, st.run.value.id), strict)
    requires strict ==> !ApprovalSetting(en, carriesCode).mode.Lenient?
    requires Separate(OfRun(ApproveStep(en, st, gate, payload, carriesCode).0.log, st.run.value.id))
    ensures Approvals.AllAnchored(OfRun(ApproveStep(en, st, gate, payload, carriesCode).0.log, st.run.value.id), strict)
  {
    hide Approvals.AllAnchored, Separate, Approvals.ApprovalData, ApprovalSetting, OfRun;
    var r := st.run.value;
    var events, how := OfRun(st.log, r.id), ApprovalSetting(en, carriesCode);
    if Approvals.ApprovalData(events, gate, payload, how).Some? {
      var after := ApproveStep(en, st, gate, payload, carriesCode).0.log;
      NewEvents(st.log, after, r.id);
      var e := after[|st.log|];
      assert after[|st.log|..] == [e];
      LastIsNew(events, e);
      Approvals.ApprovalKeepsFresh(events, e, gate, payload, how, strict);
    }
  }

  lemma RecordWritesOne(en: Engine, st: State, kind: string, data: Fields, auto: bool, actor: string)
    requires st.run.Some?
    ensures
      var st' := RecordStep(en, st, kind, data, auto, actor).0;
      && st.log <= st'.log && st'.run.Some? && st'.run.value.id == st.run.value.id
      && forall i :: |st.log| <= i < |st'.log| ==> st'.log[i].run == st.run.value.id && st'.log[i].kind == kind
  {
    hide NormalisedData, ValidClassification;
  }

  lemma {:induction false} StepKeepsFresh(en: Engine, st: State, c: Command, strict: bool)
    requires Step(en, st, c).0.run.Some?
    requires c.Record? ==> c.kind != "approval"
    requires strict && c.Approve? ==> !ApprovalSetting(en, c.carriesCode).mode.Lenient?
    requires
      var run := Step(en, st, c).0.run.value.id;
      && Approvals.AllAnchored(OfRun(st.log, run), strict) && Separate(OfRun(Step(en, st, c).0.log, run))
    ensures Approvals.AllAnchored(OfRun(Step(en, st, c).0.log, Step(en, st, c).0.run.value.id), strict)
  {
    hide Approvals.AllAnchored, Separate, Order, OfRun, ExitStep, WaiveStep, LoopStep, StartStep, ParkStep, ResumeStep,
      RecordStep, ApproveStep, ApprovalSetting, CloseStep;
    if !c.Start? { RunsKeepTheirId(en, st, c); }
    match c
    case Approve(gate, payload, carriesCode) =>
      ApprovalsStay(en, st, gate, payload, carriesCode);
      ApprovingKeepsFresh(en, st, gate, payload, carriesCode, strict);
    case Record(kind, data, auto, actor) =>
      RecordWritesOne(en, st, kind, data, auto, actor);
      OthersKeepFresh(st.log, Step(en, st, c).0.log, st.run.value.id, strict);
    case _ =>
      LiveAfterNoClose(en, st, c);
      StepsKinds(en, st, c);
      StepExtends(en, st, c);
      EngineKeepsFresh(st.log, Step(en, st, c).0.log, Step(en, st, c).0.run.value.id, strict);
  }

  lemma {:induction false} EngineKeepsFresh(before: seq<Event>, after: seq<Event>, run: string, strict: bool)
    requires before <= after && Approvals.AllAnchored(OfRun(before, run), strict) && Separate(OfRun(after, run))
    requires OfKinds(after, |before|, run, ENGINE_KINDS)
    ensures Approvals.AllAnchored(OfRun(after, run), strict)
  {
    hide Approvals.AllAnchored, Separate, OfRun;
    OthersKeepFresh(before, after, run, strict);
  }

  // ---------------------------------------------------------------------------
  // Whole runs
  // ---------------------------------------------------------------------------

  lemma {:induction false} LastTurnKeepsFresh(en: Engine, st: State, t: Turn, strict: bool)
    requires Allowed(en, st, t) && Taken(en, st, t).0.run.Some?
    requires (t.cmd.Record? ==> t.cmd.kind != "approval") && (strict ==> IsStrict(en, t))
    requires Separate(OfRun(Taken(en, st, t).0.log, Taken(en, st, t).0.run.value.id))
    requires
      var run := Taken(en, st, t).0.run.value.id;
      st.run.Some? && st.run.value.id == run && Separate(OfRun(st.log, run)) ==>
        Approvals.AllAnchored(OfRun(st.log, run), strict)
    ensures Approvals.AllAnchored(OfRun(Taken(en, st, t).0.log, Taken(en, st, t).0.run.value.id), strict)
  {
    hide Approvals.AllAnchored, Separate, OfRun, Step, Admissible, Seen, Known;
    var seen := Seen(en, t.sight);
    var st' := Taken(en, st, t).0;
    var run := st'.run.value.id;
    if Known(st.log, run) {
      KnownWasLive(seen, st, t.cmd);
      LiveAfterNoClose(seen, st, t.cmd);
      StepsLog(seen, st, t.cmd);
      OfRunJoin(st.log, Appended(seen, st, t.cmd), run);
      SeparateParts(OfRun(st.log, run), OfRun(Appended(seen, st, t.cmd), run));
    } else {
      OfRunNone(st.log, run);
      Approvals.NothingIsFresh(strict);
    }
    StepKeepsFresh(seen, st, t.cmd, strict);
  }

  /** In every reachable state whose run holds no updates and no approvals by hand, every
      approval that names an answer names one about its gate or none, given before it and
      after each earlier approval of the gate; where all were strict, every approval does. */
  lemma {:induction false} ReachableApprovalsAreAnchored(en: Engine, start: State, ts: seq<Turn>, strict: bool)
    requires start.run.None? && AllAdmissible(en, start, ts) && NoneByHand(ts) && (strict ==> AllStrict(en, ts))
    requires
      var st := After(en, start, ts);
      st.run.Some? && Separate(OfRun(st.log, st.run.value.id))
    ensures
      var st := After(en, start, ts);
      Approvals.AllAnchored(OfRun(st.log, st.run.value.id), strict)
    decreases |ts|
  {
    hide Approvals.AllAnchored, Separate, OfRun, Taken, Allowed, AllAdmissible, IsStrict;
    if ts != [] {
      var init, t := ts[..|ts| - 1], ts[|ts| - 1];
      assert ts == init + [t];
      AfterJoin(en, start, init, t);
      AdmissibleJoin(en, start, init, t);
      assert forall i :: 0 <= i < |init| ==> init[i] == ts[i];
      hide After;
      var before := After(en, start, init);
      if before.run.Some? && Separate(OfRun(before.log, before.run.value.id)) {
        ReachableApprovalsAreAnchored(en, start, init, strict);
      }
      LastTurnKeepsFresh(en, before, t, strict);
    }
  }
}

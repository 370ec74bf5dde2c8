/** Recording approvals: what an approval binds to and which captured answer anchors it. */
module Approvals {
  import opened Values
  import opened Events
  import opened UpdateFolding

  // ---------------------------------------------------------------------------
  // What an approval binds to
  // ---------------------------------------------------------------------------

  function Dedupe(xs: seq<string>): (out: seq<string>)
    ensures forall x :: x in out <==> x in xs
    ensures forall i, j :: 0 <= i < j < |out| ==> out[i] != out[j]
  {
    if xs == [] then []
    else
      var init := Dedupe(xs[..|xs| - 1]);
      assert xs == xs[..|xs| - 1] + [xs[|xs| - 1]];
      if xs[|xs| - 1] in init then init else init + [xs[|xs| - 1]]
  }

  function InsertString(x: string, sorted: seq<string>): seq<string> {
    if sorted == [] || Less(x, sorted[0]) then [x] + sorted else [sorted[0]] + InsertString(x, sorted[1..])
  }

  function SortStrings(xs: seq<string>): seq<string> {
    if xs == [] then [] else InsertString(xs[0], SortStrings(xs[1..]))
  }

  /** `prefix` + the named field of each record that has it. */
  function FieldRefs(rs: seq<Record>, prefix: string, field: string): seq<string> {
    if rs == [] then []
    else
      var s := StrField(rs[|rs| - 1].data, field);
      FieldRefs(rs[..|rs| - 1], prefix, field) + if s != "" then [prefix + s] else []
  }

  function RequirementRefs(rs: seq<Record>): seq<string> {
    if rs == [] then []
    else
      var data := rs[|rs| - 1].data;
      RequirementRefs(rs[..|rs| - 1])
      + if StrField(data, "status") != "dropped" && StrField(data, "rid") != ""
        then ["req:" + StrField(data, "rid")] else []
  }

  function AssumptionRefs(rs: seq<Record>): seq<string> {
    if rs == [] then []
    else
      AssumptionRefs(rs[..|rs| - 1])
      + if BoolField(rs[|rs| - 1].data, "high_risk") then ["assumption:" + rs[|rs| - 1].id] else []
  }

  function OptionRefs(rs: seq<Record>): seq<string> {
    if rs == [] then []
    else
      var data := rs[|rs| - 1].data;
      OptionRefs(rs[..|rs| - 1])
      + if StrField(data, "selected") != ""
        then ["option:" + StrField(data, "stage") + ":" + StrField(data, "selected")] else []
  }

  function CollectedRefs(events: seq<Event>, gate: string): seq<string> {
    if gate == "scope" then
      RequirementRefs(Records(events, "requirement")) + AssumptionRefs(Records(events, "assumption"))
    else if gate == "design" then OptionRefs(Records(events, "option-set"))
    else if gate == "plan" then
      FieldRefs(Records(events, "task"), "task:", "tid")
      + FieldRefs(Records(events, "verification-strategy"), "strategy:", "ac")
    else []
  }

  /** The record identities a yes to this gate is a yes to, each once, sorted. */
  function ApprovalRefs(events: seq<Event>, gate: string): seq<string> {
    SortStrings(Dedupe(CollectedRefs(events, gate)))
  }

  // ---------------------------------------------------------------------------
  // Anchoring
  // ---------------------------------------------------------------------------

  /** The position of the gate's newest approval, -1 without one. */
  function LastApproval(rs: seq<Record>, gate: string): (last: int)
    ensures last >= -1
  {
    if rs == [] then -1
    else
      var before, r := LastApproval(rs[..|rs| - 1], gate), rs[|rs| - 1];
      if StrField(r.data, "gate") == gate && r.order > before then r.order else before
  }

  /** The answers on one topic given after a position, oldest first. */
  function AnswersAfter(rs: seq<Record>, after: int, topic: string): seq<Record> {
    if rs == [] then []
    else
      var r := rs[|rs| - 1];
      AnswersAfter(rs[..|rs| - 1], after, topic)
      + if r.order > after && StrField(r.data, "topic") == topic then [r] else []
  }

  /** How approvals are secured: not at all, by a captured answer, or by an answer that
      carries the challenge code. */
  datatype Mode = Lenient | Hardened | Challenge(carriesCode: string -> bool)

  /** `hash` is the hexadecimal fingerprint of a text. */
  datatype Setting = Setting(mode: Mode, hash: string -> string)

  function Newest(rs: seq<Record>): string {
    if rs == [] then "" else rs[|rs| - 1].id
  }

  /** The answers that carry the code. */
  function Carrying(rs: seq<Record>, carriesCode: string -> bool): seq<Record> {
    if rs == [] then []
    else
      var r := rs[|rs| - 1];
      Carrying(rs[..|rs| - 1], carriesCode) + if carriesCode(StrField(r.data, "answer")) then [r] else []
  }

  /** The newest fitting answer about the gate, failing that the newest about no gate, given
      since the gate's previous approval; "" without one. */
  function AnchorFor(events: seq<Event>, gate: string, mode: Mode): string {
    var after := LastApproval(Records(events, "approval"), gate);
    var topical := AnswersAfter(Records(events, "user-answer"), after, gate);
    var plain := AnswersAfter(Records(events, "user-answer"), after, "");
    if mode.Challenge? then
      if Newest(Carrying(topical, mode.carriesCode)) != "" then Newest(Carrying(topical, mode.carriesCode))
      else Newest(Carrying(plain, mode.carriesCode))
    else if topical != [] then topical[|topical| - 1].id
    else Newest(plain)
  }

  function ListOf(refs: seq<string>): (vs: seq<Value>)
    ensures |vs| == |refs| && forall i :: 0 <= i < |vs| ==> vs[i] == Str(refs[i])
  {
    if refs == [] then [] else [Str(refs[0])] + ListOf(refs[1..])
  }

  /** strings.Join with a line break in between. */
  function JoinLines(xs: seq<string>): string {
    if xs == [] then "" else if |xs| == 1 then xs[0] else xs[0] + "\n" + JoinLines(xs[1..])
  }

  /** What is approved: the gate, what was presented, and what is bound. */
  function Bound(events: seq<Event>, gate: string, payload: string, hash: string -> string): Fields {
    var base: Fields := map["gate" := Str(gate)];
    var presented: Fields := if payload != "" then base["payload_hash" := Str(hash(payload))] else base;
    var refs := ApprovalRefs(events, gate);
    if refs != [] then
      presented["approved_refs" := List(ListOf(refs))]["refs_hash" := Str(hash(JoinLines(refs)))]
    else presented
  }

  /** The data of the approval to record, or None when the mode refuses it. */
  function ApprovalData(events: seq<Event>, gate: string, payload: string, how: Setting): Option<Fields> {
    var bound := Bound(events, gate, payload, how.hash);
    var anchor := AnchorFor(events, gate, how.mode);
    match how.mode
    case Challenge(_) =>
      if anchor == "" then None else Some(bound["answer_ref" := Str(anchor)]["challenge" := Bool(true)])
    case _ =>
      if anchor != "" then Some(bound["answer_ref" := Str(anchor)])
      else if how.mode.Hardened? then None
      else Some(bound)
  }

  /** The approval as the engine computes it: one pass for the last approval, one that
      sorts the answers since by topic, and a search for the code from the newest back. */
  method ComposeApproval(events: seq<Event>, gate: string, payload: string, how: Setting)
    returns (result: Option<Fields>)
    ensures result == ApprovalData(events, gate, payload, how)
  {
    hide Records, ApprovalRefs, ListOf, AnswersAfter, Carrying, LastApproval;
    var data: Fields := map["gate" := Str(gate)];
    if payload != "" {
      data := data["payload_hash" := Str(how.hash(payload))];
    }
    var refs := ApprovalRefs(events, gate);
    if |refs| > 0 {
      data := data["approved_refs" := List(ListOf(refs))];
      data := data["refs_hash" := Str(how.hash(JoinLines(refs)))];
    }
    var lastApproval := LatestApproval(Records(events, "approval"), gate);
    var topical, plain := AnswersSince(Records(events, "user-answer"), lastApproval, gate);
    if how.mode.Challenge? {
      var code := NewestCarrying(topical, how.mode.carriesCode);
      if code == "" {
        code := NewestCarrying(plain, how.mode.carriesCode);
        NothingCarries(how.mode.carriesCode);
      }
      if code == "" {
        return None;
      }
      return Some(data["answer_ref" := Str(code)]["challenge" := Bool(true)]);
    }
    var ref := "";
    if |topical| > 0 {
      ref := topical[|topical| - 1].id;
    } else if |plain| > 0 {
      ref := plain[|plain| - 1].id;
    }
    if ref != "" {
      data := data["answer_ref" := Str(ref)];
    } else if how.mode.Hardened? {
      return None;
    }
    return Some(data);
  }

  method LatestApproval(approvals: seq<Record>, gate: string) returns (last: int)
    ensures last == LastApproval(approvals, gate)
  {
    last := -1;
    for i := 0 to |approvals|
      invariant last == LastApproval(approvals[..i], gate)
    {
      assert approvals[..i + 1][..i] == approvals[..i];
      if StrField(approvals[i].data, "gate") == gate && approvals[i].order > last {
        last := approvals[i].order;
      }
    }
    assert approvals[..|approvals|] == approvals;
  }

  /** Newest first, the answer that carries the code. */
  method NewestCarrying(answers: seq<Record>, carriesCode: string -> bool) returns (ref: string)
    ensures ref == Newest(Carrying(answers, carriesCode))
  {
    var i := |answers|;
    assert answers[..i] == answers;
    while i > 0
      invariant 0 <= i <= |answers|
      invariant Carrying(answers, carriesCode) == Carrying(answers[..i], carriesCode)
    {
      assert answers[..i][..i - 1] == answers[..i - 1];
      if carriesCode(StrField(answers[i - 1].data, "answer")) {
        return answers[i - 1].id;
      }
      i := i - 1;
    }
    return "";
  }

  lemma NothingCarries(carriesCode: string -> bool)
    ensures Carrying([], carriesCode) == []
  {
  }

  /** One pass sorts the answers given since into those about the gate and those about
      nothing. */
  method AnswersSince(answers: seq<Record>, after: int, gate: string) returns (topical: seq<Record>, plain: seq<Record>)
    ensures topical == AnswersAfter(answers, after, gate)
    ensures plain == if gate == "" then [] else AnswersAfter(answers, after, "")
  {
    topical, plain := [], [];
    for i := 0 to |answers|
      invariant topical == AnswersAfter(answers[..i], after, gate)
      invariant plain == if gate == "" then [] else AnswersAfter(answers[..i], after, "")
    {
      assert answers[..i + 1][..i] == answers[..i];
      if answers[i].order <= after {
        continue;
      }
      var topic := StrField(answers[i].data, "topic");
      if topic == gate {
        topical := topical + [answers[i]];
      } else if topic == "" {
        plain := plain + [answers[i]];
      }
    }
    assert answers[..|answers|] == answers;
  }

  // ---------------------------------------------------------------------------
  // Runs of answers and approvals
  // ---------------------------------------------------------------------------

  datatype GateAct =
    | Note(event: Event)
    | Approval(id: string, gate: string, payload: string, how: Setting)

  function ApprovalEvent(id: string, data: Fields): Event {
    Event(id, 0, "", "", "", "", "approval", false, "user", data)
  }

  /** Appends what the act records; a refused approval records nothing. */
  function GateActed(events: seq<Event>, a: GateAct): seq<Event> {
    match a
    case Note(e) => events + [e]
    case Approval(id, gate, payload, how) =>
      match ApprovalData(events, gate, payload, how)
      case None => events
      case Some(data) => events + [ApprovalEvent(id, data)]
  }

  /** Identities are new and not empty; what is noted is no update and no approval; where
      approvals are strict, none is given in lenient mode. */
  predicate GateAdmits(events: seq<Event>, a: GateAct, strict: bool) {
    var id := match a case Note(e) => e.id case Approval(id, _, _, _) => id;
    && id != ""
    && (forall i :: 0 <= i < |events| ==> events[i].id != id)
    && (a.Note? ==> a.event.kind != "approval" && (IsTransition(a.event) || UpdateTarget(a.event).None?))
    && (a.Approval? && strict ==> !a.how.mode.Lenient?)
  }

  /** The log after a run of acts on an empty one. */
  function GateLog(acts: seq<GateAct>): seq<Event> {
    if acts == [] then [] else GateActed(GateLog(acts[..|acts| - 1]), acts[|acts| - 1])
  }

  predicate GateProper(acts: seq<GateAct>, strict: bool) {
    acts == [] ||
    (GateProper(acts[..|acts| - 1], strict) && GateAdmits(GateLog(acts[..|acts| - 1]), acts[|acts| - 1], strict))
  }

  predicate IsApproval(events: seq<Event>, i: nat, gate: string)
    requires i < |events|
  {
    events[i].kind == "approval" && StrField(events[i].data, "gate") == gate
  }

  predicate IsAnswerFor(e: Event, gate: string) {
    e.kind == "user-answer" && (StrField(e.data, "topic") == gate || StrField(e.data, "topic") == "")
  }

  /** Approval `i` names an answer for its gate given before it and after every earlier
      approval of that gate. */
  ghost predicate AnchoredAt(events: seq<Event>, i: nat, a: nat)
    requires i < |events|
  {
    && a < i && events[a].id == StrField(events[i].data, "answer_ref")
    && IsAnswerFor(events[a], StrField(events[i].data, "gate"))
    && forall j :: 0 <= j < i && IsApproval(events, j, StrField(events[i].data, "gate")) ==> j < a
  }

  ghost predicate WellAnchored(events: seq<Event>, strict: bool, i: nat)
    requires i < |events|
  {
    events[i].kind == "approval" ==>
      && (StrField(events[i].data, "answer_ref") != "" ==> exists a :: AnchoredAt(events, i, a))
      && (strict ==> StrField(events[i].data, "answer_ref") != "")
  }

  ghost predicate AllAnchored(events: seq<Event>, strict: bool) {
    && NoUpdates(events) && UniqueIds(events)
    && (forall i :: 0 <= i < |events| ==> events[i].id != "")
    && forall i :: 0 <= i < |events| ==> WellAnchored(events, strict, i)
  }

  lemma {:induction false} LastApprovalIsLast(rs: seq<Record>, gate: string)
    ensures forall i :: 0 <= i < |rs| && StrField(rs[i].data, "gate") == gate ==> rs[i].order <= LastApproval(rs, gate)
    ensures LastApproval(rs, gate) >= 0 ==>
              exists r :: r in rs && StrField(r.data, "gate") == gate && r.order == LastApproval(rs, gate)
  {
    if rs != [] {
      LastApprovalIsLast(rs[..|rs| - 1], gate);
      assert rs[|rs| - 1] in rs && forall r :: r in rs[..|rs| - 1] ==> r in rs;
    }
  }

  lemma {:induction false} AnswersAfterFacts(rs: seq<Record>, after: int, topic: string)
    ensures forall r :: r in AnswersAfter(rs, after, topic) ==>
              r in rs && r.order > after && StrField(r.data, "topic") == topic
  {
    if rs != [] {
      AnswersAfterFacts(rs[..|rs| - 1], after, topic);
      assert rs == rs[..|rs| - 1] + [rs[|rs| - 1]];
    }
  }

  lemma {:induction false} CarryingFacts(rs: seq<Record>, carriesCode: string -> bool)
    ensures forall r :: r in Carrying(rs, carriesCode) <==> r in rs && carriesCode(StrField(r.data, "answer"))
  {
    if rs != [] {
      CarryingFacts(rs[..|rs| - 1], carriesCode);
      assert rs == rs[..|rs| - 1] + [rs[|rs| - 1]];
    }
  }

  lemma NewestIsListed(rs: seq<Record>)
    ensures Newest(rs) != "" ==> exists r :: r in rs && r.id == Newest(rs)
  {
    if rs != [] { assert rs[|rs| - 1] in rs; }
  }

  /** The anchor is some answer on the topic of the gate or on none, given since; in
      challenge mode it carries the code. */
  lemma AnchorIsAnswer(events: seq<Event>, gate: string, mode: Mode) returns (r: Record)
    requires AnchorFor(events, gate, mode) != ""
    ensures r in Records(events, "user-answer") && r.id == AnchorFor(events, gate, mode)
    ensures r.order > LastApproval(Records(events, "approval"), gate)
    ensures StrField(r.data, "topic") == gate || StrField(r.data, "topic") == ""
    ensures mode.Challenge? ==> mode.carriesCode(StrField(r.data, "answer"))
  {
    hide Records, AnswersAfter, LastApproval, Carrying;
    var after, answers := LastApproval(Records(events, "approval"), gate), Records(events, "user-answer");
    var topical, plain := AnswersAfter(answers, after, gate), AnswersAfter(answers, after, "");
    AnswersAfterFacts(answers, after, gate);
    AnswersAfterFacts(answers, after, "");
    var found := if topical != [] then topical else plain;
    if mode.Challenge? {
      CarryingFacts(topical, mode.carriesCode);
      CarryingFacts(plain, mode.carriesCode);
      var coded := Carrying(topical, mode.carriesCode);
      found := if Newest(coded) != "" then coded else Carrying(plain, mode.carriesCode);
    }
    NewestIsListed(found);
    r :| r in found && r.id == Newest(found);
  }

  /** The anchor is an answer for the gate, newer than all its approvals. */
  lemma AnchorIsFresh(events: seq<Event>, gate: string, mode: Mode) returns (a: nat)
    requires NoUpdates(events) && AnchorFor(events, gate, mode) != ""
    ensures a < |events| && events[a].id == AnchorFor(events, gate, mode) && IsAnswerFor(events[a], gate)
    ensures forall j :: 0 <= j < |events| && IsApproval(events, j, gate) ==> j < a
  {
    hide Records, AnchorFor, LastApproval;
    var approvals := Records(events, "approval");
    PlainRecords(events, "approval");
    PlainRecords(events, "user-answer");
    LastApprovalIsLast(approvals, gate);
    var r := AnchorIsAnswer(events, gate, mode);
    a := r.order;
    forall j | 0 <= j < |events| && IsApproval(events, j, gate)
      ensures j < a
    {
      var rec := Record(events[j].id, j, events[j].auto, events[j].data);
      assert IsOriginal(events[j]) && rec in approvals;
      var k :| 0 <= k < |approvals| && approvals[k] == rec;
    }
  }

  lemma WellAnchoredStays(events: seq<Event>, e: Event, strict: bool, i: nat)
    requires i < |events| && WellAnchored(events, strict, i)
    ensures WellAnchored(events + [e], strict, i)
  {
    var more := events + [e];
    if events[i].kind == "approval" && StrField(events[i].data, "answer_ref") != "" {
      var a :| AnchoredAt(events, i, a);
      forall j | 0 <= j < i && IsApproval(more, j, StrField(more[i].data, "gate"))
        ensures j < a
      {
        assert IsApproval(events, j, StrField(events[i].data, "gate"));
      }
      assert AnchoredAt(more, i, a);
    }
  }

  lemma {:induction false} ApprovalIsAnchored(
    events: seq<Event>, e: Event, gate: string, payload: string, how: Setting, strict: bool)
    requires NoUpdates(events) && ApprovalData(events, gate, payload, how).Some?
    requires e.kind == "approval" && e.data == ApprovalData(events, gate, payload, how).value
    requires strict ==> !how.mode.Lenient?
    ensures StrField(e.data, "gate") == gate && "updates" !in e.data
    ensures WellAnchored(events + [e], strict, |events|)
  {
    hide ApprovalRefs, AnchorFor;
    var more := events + [e];
    if AnchorFor(events, gate, how.mode) != "" {
      var a := AnchorIsFresh(events, gate, how.mode);
      forall j | 0 <= j < |events| && IsApproval(more, j, gate)
        ensures j < a
      {
        assert IsApproval(events, j, gate);
      }
      assert AnchoredAt(more, |events|, a);
    }
  }

  predicate NewId(events: seq<Event>, id: string) {
    id != "" && forall i :: 0 <= i < |events| ==> events[i].id != id
  }

  /** A well-anchored event more, updating nothing. */
  lemma {:induction false} AnchoredKeepsFresh(events: seq<Event>, e: Event, strict: bool)
    requires AllAnchored(events, strict) && NewId(events, e.id)
    requires IsTransition(e) || UpdateTarget(e).None?
    requires WellAnchored(events + [e], strict, |events|)
    ensures AllAnchored(events + [e], strict)
  {
    hide WellAnchored;
    forall i | 0 <= i < |events|
      ensures WellAnchored(events + [e], strict, i)
    {
      WellAnchoredStays(events, e, strict, i);
    }
  }

  lemma {:induction false} ApprovalKeepsFresh(
    events: seq<Event>, e: Event, gate: string, payload: string, how: Setting, strict: bool)
    requires AllAnchored(events, strict) && NewId(events, e.id) && ApprovalData(events, gate, payload, how).Some?
    requires e.kind == "approval" && e.data == ApprovalData(events, gate, payload, how).value
    requires strict ==> !how.mode.Lenient?
    ensures AllAnchored(events + [e], strict)
  {
    hide WellAnchored, ApprovalData;
    ApprovalIsAnchored(events, e, gate, payload, how, strict);
    AnchoredKeepsFresh(events, e, strict);
  }

  lemma {:induction false} NoteKeepsFresh(events: seq<Event>, e: Event, strict: bool)
    requires AllAnchored(events, strict) && NewId(events, e.id) && e.kind != "approval"
    requires IsTransition(e) || UpdateTarget(e).None?
    ensures AllAnchored(events + [e], strict)
  {
    hide WellAnchored;
    NotesAreAnchored(events + [e], strict, |events|);
    AnchoredKeepsFresh(events, e, strict);
  }

  lemma {:induction false} ActKeepsFresh(events: seq<Event>, a: GateAct, strict: bool)
    requires AllAnchored(events, strict) && GateAdmits(events, a, strict)
    ensures AllAnchored(GateActed(events, a), strict)
  {
    hide WellAnchored, ApprovalData, AllAnchored;
    match a
    case Note(e) => NoteKeepsFresh(events, e, strict);
    case Approval(id, gate, payload, how) =>
      if ApprovalData(events, gate, payload, how).Some? {
        var e := ApprovalEvent(id, ApprovalData(events, gate, payload, how).value);
        ApprovalKeepsFresh(events, e, gate, payload, how, strict);
      }
  }

  lemma NotesAreAnchored(events: seq<Event>, strict: bool, i: nat)
    requires i < |events| && events[i].kind != "approval"
    ensures WellAnchored(events, strict, i)
  {
  }

  lemma {:induction false} RunsAreFresh(acts: seq<GateAct>, strict: bool)
    requires GateProper(acts, strict)
    ensures AllAnchored(GateLog(acts), strict)
  {
    hide GateActed, GateAdmits, AllAnchored;
    if acts == [] {
      NothingIsFresh(strict);
    } else {
      RunsAreFresh(acts[..|acts| - 1], strict);
      ActKeepsFresh(GateLog(acts[..|acts| - 1]), acts[|acts| - 1], strict);
    }
  }

  lemma NothingIsFresh(strict: bool)
    ensures AllAnchored([], strict)
  {
  }

  /** Over any run of captured answers, other notes and approvals: successive anchored
      approvals of one gate name ever later answers, each given between the two approvals
      and about that gate or none; so no answer anchors a gate twice. */
  lemma {:induction false} AnchorsAreFresh(acts: seq<GateAct>, strict: bool, gate: string, i: nat, j: nat)
    returns (a: nat, b: nat)
    requires GateProper(acts, strict) && i < j < |GateLog(acts)|
    requires
      var events := GateLog(acts);
      && IsApproval(events, i, gate) && StrField(events[i].data, "answer_ref") != ""
      && IsApproval(events, j, gate) && StrField(events[j].data, "answer_ref") != ""
    ensures a < i < b < j
    ensures
      var events := GateLog(acts);
      && events[a].id == StrField(events[i].data, "answer_ref") && IsAnswerFor(events[a], gate)
      && events[b].id == StrField(events[j].data, "answer_ref") && IsAnswerFor(events[b], gate)
      && StrField(events[i].data, "answer_ref") != StrField(events[j].data, "answer_ref")
  {
    hide GateProper, GateLog;
    RunsAreFresh(acts, strict);
    var events := GateLog(acts);
    assert WellAnchored(events, strict, i) && WellAnchored(events, strict, j);
    a :| AnchoredAt(events, i, a);
    b :| AnchoredAt(events, j, b);
  }

  /** Where no approval is lenient every recorded approval has such an answer. */
  lemma StrictApprovalsAreAnchored(acts: seq<GateAct>, i: nat)
    requires GateProper(acts, true) && i < |GateLog(acts)| && GateLog(acts)[i].kind == "approval"
    ensures exists a :: AnchoredAt(GateLog(acts), i, a)
  {
    hide GateProper, GateLog;
    RunsAreFresh(acts, true);
    assert WellAnchored(GateLog(acts), true, i);
  }

  // ---------------------------------------------------------------------------
  // References
  // ---------------------------------------------------------------------------

  predicate Sorted(xs: seq<string>) {
    forall i, j :: 0 <= i < j < |xs| ==> Less(xs[i], xs[j])
  }

  lemma InsertStringContains(x: string, sorted: seq<string>)
    ensures forall y :: y in InsertString(x, sorted) <==> y == x || y in sorted
  {
    hide Less;
  }

  lemma {:induction false} InsertKeepsSorted(x: string, sorted: seq<string>)
    requires Sorted(sorted) && x !in sorted
    ensures Sorted(InsertString(x, sorted))
  {
    hide Less;
    if sorted != [] {
      if Less(x, sorted[0]) {
        forall j | 0 <= j < |sorted|
          ensures Less(x, sorted[j])
        {
          if j > 0 { LessIsTransitive(x, sorted[0], sorted[j]); }
        }
      } else {
        var tail := InsertString(x, sorted[1..]);
        InsertKeepsSorted(x, sorted[1..]);
        InsertStringContains(x, sorted[1..]);
        LessIsTotal(x, sorted[0]);
        forall j | 0 <= j < |tail|
          ensures Less(sorted[0], tail[j])
        {
          assert tail[j] in tail;
        }
      }
    }
  }

  lemma {:induction false} SortIsSorted(xs: seq<string>)
    requires forall i, j :: 0 <= i < j < |xs| ==> xs[i] != xs[j]
    ensures Sorted(SortStrings(xs))
    ensures forall x :: x in SortStrings(xs) <==> x in xs
  {
    hide Less;
    if xs != [] {
      SortIsSorted(xs[1..]);
      InsertStringContains(xs[0], SortStrings(xs[1..]));
      InsertKeepsSorted(xs[0], SortStrings(xs[1..]));
    }
  }

  /** The references are the collected ones, strictly sorted. */
  lemma {:induction false} RefsAreSortedSet(events: seq<Event>, gate: string)
    ensures Sorted(ApprovalRefs(events, gate))
    ensures forall x :: x in ApprovalRefs(events, gate) <==> x in CollectedRefs(events, gate)
  {
    hide Less, CollectedRefs;
    SortIsSorted(Dedupe(CollectedRefs(events, gate)));
  }

  /** A record whose field names `key`. */
  ghost predicate Carries(rs: seq<Record>, field: string, key: string) {
    key != "" && exists r :: r in rs && StrField(r.data, field) == key
  }

  lemma {:induction false} FieldRefsIff(rs: seq<Record>, prefix: string, field: string, x: string)
    ensures x in FieldRefs(rs, prefix, field) <==> exists key :: Carries(rs, field, key) && x == prefix + key
  {
    if rs != [] {
      var init, last := rs[..|rs| - 1], rs[|rs| - 1];
      FieldRefsIff(init, prefix, field, x);
      assert last in rs && forall r :: r in rs <==> r in init || r == last;
      forall key
        ensures Carries(rs, field, key) <==>
                Carries(init, field, key) || (key != "" && StrField(last.data, field) == key)
      {
      }
    }
  }

  /** A requirement in force. */
  predicate Standing(r: Record) {
    StrField(r.data, "status") != "dropped" && StrField(r.data, "rid") != ""
  }

  lemma {:induction false} RequirementRefsIff(rs: seq<Record>, x: string)
    ensures x in RequirementRefs(rs) <==> exists r :: r in rs && Standing(r) && x == "req:" + StrField(r.data, "rid")
  {
    if rs != [] {
      RequirementRefsIff(rs[..|rs| - 1], x);
      assert rs[|rs| - 1] in rs && forall r :: r in rs <==> r in rs[..|rs| - 1] || r == rs[|rs| - 1];
    }
  }

  lemma {:induction false} AssumptionRefsIff(rs: seq<Record>, x: string)
    ensures x in AssumptionRefs(rs) <==>
            exists r :: r in rs && BoolField(r.data, "high_risk") && x == "assumption:" + r.id
  {
    if rs != [] {
      AssumptionRefsIff(rs[..|rs| - 1], x);
      assert rs[|rs| - 1] in rs && forall r :: r in rs <==> r in rs[..|rs| - 1] || r == rs[|rs| - 1];
    }
  }

  /** A yes at the scope gate binds exactly the requirements in force and the high-risk
      assumptions. */
  lemma ScopeBindsIff(events: seq<Event>, x: string)
    ensures x in ApprovalRefs(events, "scope") <==>
            || (exists r :: r in Records(events, "requirement") && Standing(r) && x == "req:" + StrField(r.data, "rid"))
            || exists r :: r in Records(events, "assumption")
                           && BoolField(r.data, "high_risk") && x == "assumption:" + r.id
  {
    hide Records, ApprovalRefs, RequirementRefs, AssumptionRefs, Standing;
    RefsAreSortedSet(events, "scope");
    RequirementRefsIff(Records(events, "requirement"), x);
    AssumptionRefsIff(Records(events, "assumption"), x);
  }

  /** At the plan gate, exactly the tasks and the strategies of acceptance criteria. */
  lemma PlanBindsIff(events: seq<Event>, x: string)
    ensures x in ApprovalRefs(events, "plan") <==>
            || (exists key :: Carries(Records(events, "task"), "tid", key) && x == "task:" + key)
            || exists key :: Carries(Records(events, "verification-strategy"), "ac", key) && x == "strategy:" + key
  {
    hide Records, ApprovalRefs, FieldRefs, Carries;
    RefsAreSortedSet(events, "plan");
    FieldRefsIff(Records(events, "task"), "task:", "tid", x);
    FieldRefsIff(Records(events, "verification-strategy"), "strategy:", "ac", x);
  }

  /** An answer on the topic, given since, that carries the code where one is asked for. */
  predicate Answers(r: Record, after: int, topic: string, mode: Mode) {
    && r.order > after && StrField(r.data, "topic") == topic
    && (mode.Challenge? ==> mode.carriesCode(StrField(r.data, "answer")))
  }

  /** Answer `i` is the newest such. */
  predicate NewestAnswer(rs: seq<Record>, after: int, topic: string, mode: Mode, i: nat)
    requires i < |rs|
  {
    Answers(rs[i], after, topic, mode) && forall k :: i < k < |rs| ==> !Answers(rs[k], after, topic, mode)
  }

  function Answering(rs: seq<Record>, after: int, topic: string, mode: Mode): seq<Record> {
    var since := AnswersAfter(rs, after, topic);
    if mode.Challenge? then Carrying(since, mode.carriesCode) else since
  }

  lemma AnsweringLast(rs: seq<Record>, after: int, topic: string, mode: Mode)
    requires rs != []
    ensures
      var init, last := rs[..|rs| - 1], rs[|rs| - 1];
      Answering(rs, after, topic, mode) ==
      Answering(init, after, topic, mode) + if Answers(last, after, topic, mode) then [last] else []
  {
    var since, last := AnswersAfter(rs[..|rs| - 1], after, topic), rs[|rs| - 1];
    assert since + [] == since && (since + [last])[..|since|] == since;
  }

  lemma NewestStays(rs: seq<Record>, after: int, topic: string, mode: Mode, i: nat)
    requires rs != [] && i < |rs| - 1 && NewestAnswer(rs[..|rs| - 1], after, topic, mode, i)
    requires !Answers(rs[|rs| - 1], after, topic, mode)
    ensures NewestAnswer(rs, after, topic, mode, i)
  {
    hide Answers;
    assert forall k :: 0 <= k < |rs| - 1 ==> rs[..|rs| - 1][k] == rs[k];
  }

  ghost predicate NoneAnswers(rs: seq<Record>, after: int, topic: string, mode: Mode) {
    forall k :: 0 <= k < |rs| ==> !Answers(rs[k], after, topic, mode)
  }

  lemma NoneAnswersLast(rs: seq<Record>, after: int, topic: string, mode: Mode)
    requires rs != []
    ensures NoneAnswers(rs, after, topic, mode) <==>
            NoneAnswers(rs[..|rs| - 1], after, topic, mode) && !Answers(rs[|rs| - 1], after, topic, mode)
    ensures Answers(rs[|rs| - 1], after, topic, mode) ==> NewestAnswer(rs, after, topic, mode, |rs| - 1)
  {
    hide Answers;
    assert forall k :: 0 <= k < |rs| - 1 ==> rs[..|rs| - 1][k] == rs[k];
  }

  lemma {:induction false} LastAnswerIsNewest(rs: seq<Record>, after: int, topic: string, mode: Mode) returns (i: nat)
    ensures Answering(rs, after, topic, mode) == [] <==> NoneAnswers(rs, after, topic, mode)
    ensures
      var found := Answering(rs, after, topic, mode);
      found != [] ==> i < |rs| && NewestAnswer(rs, after, topic, mode, i) && found[|found| - 1] == rs[i]
  {
    hide Answers, NewestAnswer;
    i := 0;
    if rs != [] {
      var init := rs[..|rs| - 1];
      i := LastAnswerIsNewest(init, after, topic, mode);
      AnsweringLast(rs, after, topic, mode);
      NoneAnswersLast(rs, after, topic, mode);
      hide Answering, NoneAnswers;
      if Answers(rs[|rs| - 1], after, topic, mode) { i := |rs| - 1; }
      else if Answering(init, after, topic, mode) != [] { NewestStays(rs, after, topic, mode, i); }
    }
  }

  /** The anchor is the newest answer about the gate since its last approval, one that carries
      the code where it is asked for; only without one, the newest such about no gate;
      without either there is none. */
  lemma {:induction false} AnchorIsNewest(events: seq<Event>, gate: string, mode: Mode) returns (i: nat)
    requires mode.Challenge? ==> forall r :: r in Records(events, "user-answer") ==> r.id != ""
    ensures
      var rs, after := Records(events, "user-answer"), LastApproval(Records(events, "approval"), gate);
      if exists k :: 0 <= k < |rs| && Answers(rs[k], after, gate, mode)
      then i < |rs| && NewestAnswer(rs, after, gate, mode, i) && AnchorFor(events, gate, mode) == rs[i].id
      else if exists k :: 0 <= k < |rs| && Answers(rs[k], after, "", mode)
      then i < |rs| && NewestAnswer(rs, after, "", mode, i) && AnchorFor(events, gate, mode) == rs[i].id
      else AnchorFor(events, gate, mode) == ""
  {
    hide Records, AnswersAfter, Carrying, LastApproval, NewestAnswer, Answers;
    var rs, after := Records(events, "user-answer"), LastApproval(Records(events, "approval"), gate);
    i := LastAnswerIsNewest(rs, after, gate, mode);
    if Answering(rs, after, gate, mode) == [] { i := LastAnswerIsNewest(rs, after, "", mode); }
  }

  /** An answer came after the gate's last approval exactly when it came after all of them. */
  lemma SinceLastIsSinceAll(approvals: seq<Record>, gate: string, order: nat)
    ensures order > LastApproval(approvals, gate) <==>
            forall a :: a in approvals && StrField(a.data, "gate") == gate ==> a.order < order
  {
    LastApprovalIsLast(approvals, gate);
    assert forall i :: 0 <= i < |approvals| ==> approvals[i] in approvals;
  }

  /** At the design gate, exactly the options selected, each with its stage. */
  lemma DesignBindsIff(events: seq<Event>, x: string)
    ensures x in ApprovalRefs(events, "design") <==>
            exists r :: r in Records(events, "option-set") && StrField(r.data, "selected") != ""
                        && x == ("option:" + StrField(r.data, "stage")) + ":" + StrField(r.data, "selected")
  {
    hide Records, ApprovalRefs, OptionRefs;
    RefsAreSortedSet(events, "design");
    OptionRefsIff(Records(events, "option-set"), x);
  }

  lemma {:induction false} OptionRefsIff(rs: seq<Record>, x: string)
    ensures x in OptionRefs(rs) <==>
            exists r :: r in rs && StrField(r.data, "selected") != ""
                        && x == ("option:" + StrField(r.data, "stage")) + ":" + StrField(r.data, "selected")
  {
    if rs != [] {
      OptionRefsIff(rs[..|rs| - 1], x);
      assert rs[|rs| - 1] in rs && forall r :: r in rs <==> r in rs[..|rs| - 1] || r == rs[|rs| - 1];
    }
  }

  /** References are joined by line breaks. */
  lemma {:induction false} JoinLinesJoins(a: seq<string>, b: seq<string>)
    ensures forall x :: JoinLines([x]) == x
    ensures a != [] && b != [] ==> JoinLines(a + b) == JoinLines(a) + ("\n" + JoinLines(b))
  {
    if a != [] && b != [] {
      assert (a + b)[1..] == a[1..] + b;
      if |a| > 1 { JoinLinesJoins(a[1..], b); }
      else { assert a[1..] + b == b; }
    }
  }

  /** Any other gate binds nothing. */
  lemma OthersBindNothing(events: seq<Event>, gate: string)
    requires gate !in {"scope", "design", "plan"}
    ensures ApprovalRefs(events, gate) == []
  {
  }
}

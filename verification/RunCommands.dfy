/** When each command goes through, and what it then leaves. */
module RunCommands {
  import opened Values
  import opened Events
  import opened Sifting
  import opened UpdateFolding
  import opened WorkflowSpec
  import opened PhaseOrder
  import opened Matching
  import opened Contracts
  import opened Retention
  import opened RunState
  import opened RunIsolation
  import ContractMeaning
  import opened CommandIdentity
  import Approvals

  // ---------------------------------------------------------------------------
  // Texts
  // ---------------------------------------------------------------------------

  lemma {:induction false} TrimmedAway(s: string)
    ensures TrimRight(s) == "" <==> AllSpace(s)
  {
    if s != "" {
      TrimmedAway(s[..|s| - 1]);
      assert AllSpace(s) <==> AllSpace(s[..|s| - 1]) && IsSpace(s[|s| - 1]);
    }
  }

  /** Blank is what holds nothing but white space. */
  lemma BlankIsSpace(s: string)
    ensures Blank(s) <==> AllSpace(s)
  {
    var n := Span(s, IsSpace);
    TrimmedAway(s[n..]);
    assert forall i :: n <= i < |s| ==> s[n..][i - n] == s[i];
    if n < |s| { assert !IsSpace(s[n]); }
  }

  ghost predicate Occurs(s: string, part: string) {
    exists before: string, after: string :: s == (before + part) + after
  }

  lemma {:induction false} ContainsIsOccurs(s: string, part: string)
    ensures Contains(s, part) <==> Occurs(s, part)
  {
    if part <= s {
      assert s == ([] + part) + s[|part|..];
    } else if s != "" {
      ContainsIsOccurs(s[1..], part);
      if Occurs(s[1..], part) {
        var before: string, after: string :| s[1..] == (before + part) + after;
        assert s == (([s[0]] + before) + part) + after;
      }
      if Occurs(s, part) {
        var before: string, after: string :| s == (before + part) + after;
        assert part <= ("" + part) + after;
        assert s[1..] == (before[1..] + part) + after;
      }
    }
  }

  // ---------------------------------------------------------------------------
  // What comes next
  // ---------------------------------------------------------------------------

  /** Position `j` is the first after the phase where the search for an unwaived phase stops;
      a phase without a name stops it too. */
  ghost predicate Follows(order: seq<string>, phase: string, waived: seq<string>, j: nat) {
    && j < |order| && (order[j] == "" || order[j] !in waived)
    && exists i :: 0 <= i < j && order[i] == phase && (forall k :: 0 <= k < i ==> order[k] != phase)
                   && forall k :: i < k < j ==> order[k] != "" && order[k] in waived
  }

  ghost predicate IsNext(order: seq<string>, phase: string, waived: seq<string>, next: string) {
    if exists j: nat :: Follows(order, phase, waived, j)
    then exists j: nat :: Follows(order, phase, waived, j) && next == order[j]
    else next == ""
  }

  lemma {:induction false} FirstUnwaivedAt(phases: seq<string>, waived: seq<string>) returns (j: nat)
    ensures j <= |phases| && forall k :: 0 <= k < j ==> phases[k] != "" && phases[k] in waived
    ensures j < |phases| ==> phases[j] == "" || phases[j] !in waived
    ensures FirstUnwaived(phases, waived) == if j < |phases| then phases[j] else ""
  {
    if phases == [] || phases[0] == "" || phases[0] !in waived {
      j := 0;
    } else {
      j := FirstUnwaivedAt(phases[1..], waived);
      j := j + 1;
      assert forall k :: 1 <= k < j ==> phases[k] == phases[1..][k - 1];
    }
  }

  lemma {:induction false} IndexIsFirst(order: seq<string>, id: string)
    ensures forall k :: 0 <= k < Index(order, id) ==> order[k] != id
  {
    if order != [] && order[0] != id {
      IndexIsFirst(order[1..], id);
      assert forall k :: 1 <= k < |order| ==> order[k] == order[1..][k - 1];
    }
  }

  lemma {:induction false} NextIsNext(order: seq<string>, phase: string, waived: seq<string>)
    ensures forall next :: IsNext(order, phase, waived, next) <==> next == NextUnwaived(order, phase, waived)
  {
    var i := Index(order, phase);
    IndexIsFirst(order, phase);
    if phase in order {
      var later := order[i + 1..];
      var k := FirstUnwaivedAt(later, waived);
      assert forall n :: i < n < |order| ==> order[n] == later[n - i - 1];
      var j := i + 1 + k;
      if j < |order| { assert Follows(order, phase, waived, j); }
      OnlyOneFollows(order, phase, waived, i, j);
    }
  }

  lemma OnlyOneFollows(order: seq<string>, phase: string, waived: seq<string>, i: nat, j: nat)
    requires i < |order| && order[i] == phase && forall k :: 0 <= k < i ==> order[k] != phase
    requires i < j <= |order| && forall k :: i < k < j ==> order[k] != "" && order[k] in waived
    requires j < |order| ==> order[j] == "" || order[j] !in waived
    ensures forall n :: Follows(order, phase, waived, n) ==> n == j
  {
  }

  // ---------------------------------------------------------------------------
  // Gates
  // ---------------------------------------------------------------------------

  /** What the run goes by: specification, configuration and files as the command finds them,
      and the run's own events. */
  function Seeing(en: Engine, r: Run, own: seq<Event>): Env {
    Env(en.spec, en.config, r.family, r.intent, own, en.world)
  }

  lemma SeesOwn(en: Engine, log: seq<Event>, r: Run, own: seq<Event>)
    requires OwnEvents(log, r.id, own)
    ensures EnvOf(en, log, r) == Seeing(en, r, own)
  {
    OwnIsOfRun(log, r.id, own);
  }

  /** By the run's own events every exit item of its phase that is due, and every entry item
      of the next phase, is passed over or met. */
  ghost predicate GateOpen(en: Engine, r: Run, own: seq<Event>) {
    && ContractMeaning.StageSatisfied(Seeing(en, r, own), r.phase, false)
    && forall next :: IsNext(Order(en.spec, r.family), r.phase, r.waived, next) && next != "" ==>
      ContractMeaning.StageSatisfied(Seeing(en, r, own), next, true)
  }

  /** The gate opens exactly when that is so. */
  lemma {:induction false} GateOpensIff(en: Engine, log: seq<Event>, r: Run, own: seq<Event>)
    requires OwnEvents(log, r.id, own)
    ensures ExitGate(en, log, r) == Done <==> GateOpen(en, r, own)
  {
    hide EvaluateStage, NextUnwaived, Order, ContractMeaning.StageSatisfied, OwnEvents, IsNext;
    SeesOwn(en, log, r, own);
    NextIsNext(Order(en.spec, r.family), r.phase, r.waived);
    var next := NextUnwaived(Order(en.spec, r.family), r.phase, r.waived);
    ContractMeaning.ExitAllowedIff(EnvOf(en, log, r), r.phase, next);
  }

  /** The force may pass: it has a reason, a cause from the second on, and there is no third. */
  ghost predicate MayForce(r: Run, reason: string) {
    !AllSpace(reason) && (r.forces == 0 || (r.forces == 1 && Occurs(reason, "cause:")))
  }

  lemma {:induction false} ExitGoesThroughIff(en: Engine, st: State, force: bool, reason: string, own: seq<Event>)
    requires st.run.Some? && OwnEvents(st.log, st.run.value.id, own)
    ensures
      var r := st.run.value;
      ExitStep(en, st, force, reason).1 == Done <==>
      r.status == Active && if force then MayForce(r, reason) else GateOpen(en, r, own)
  {
    hide OwnEvents, ExitGate, Advance, Blank, Contains, GateOpen, Occurs, AllSpace;
    GateOpensIff(en, st.log, st.run.value, own);
    BlankIsSpace(reason);
    ContainsIsOccurs(reason, "cause:");
  }

  // ---------------------------------------------------------------------------
  // What a command writes
  // ---------------------------------------------------------------------------

  /** An engine event, identity and time left aside. */
  function Told(run: string, phase: string, kind: string, actor: string, data: Fields): Event {
    Event("", 0, "", "", run, phase, kind, false, actor, data)
  }

  predicate Wrote(more: seq<Event>, expected: seq<Event>) {
    |more| == |expected| && forall k :: 0 <= k < |more| ==> more[k].(id := "", ts := "") == expected[k]
  }

  /** The event that enters a phase, if there is one to enter. */
  function Entering(run: string, next: string): seq<Event> {
    if next == "" then []
    else [Told(run, next, "phase", "engine", map["action" := Str("enter"), "target" := Str(next)])]
  }

  lemma WritesOne(en: Engine, before: seq<Event>, mid: State, r: Run, kind: string, actor: string, data: Fields,
                  expected: seq<Event>)
    requires before <= mid.log && Wrote(mid.log[|before|..], expected)
    ensures
      var after := WithEvent(en, mid, r, kind, false, actor, data);
      before <= after.log && Wrote(after.log[|before|..], expected + [Told(r.id, r.phase, kind, actor, data)])
  {
    var after := WithEvent(en, mid, r, kind, false, actor, data);
    assert after.log[|before|..] == mid.log[|before|..] + [after.log[|mid.log|]];
  }

  lemma WritesNothing(log: seq<Event>)
    ensures Wrote(log[|log|..], [])
  {
  }

  lemma {:induction false} AdvanceLeaves(en: Engine, before: seq<Event>, mid: State, r: Run, expected: seq<Event>)
    requires before <= mid.log && Wrote(mid.log[|before|..], expected)
    ensures
      var after := Advance(en, mid, r);
      && after.run.Some? && IsNext(Order(en.spec, r.family), r.phase, r.waived, after.run.value.phase)
      && after.run.value == r.(exited := r.exited + [r.phase], phase := after.run.value.phase)
      && after.archives == mid.archives
      && before <= after.log && Wrote(after.log[|before|..], expected + Entering(r.id, after.run.value.phase))
  {
    hide Order, NextUnwaived, IsNext, Wrote;
    NextIsNext(Order(en.spec, r.family), r.phase, r.waived);
    var next := NextUnwaived(Order(en.spec, r.family), r.phase, r.waived);
    var entered := r.(exited := r.exited + [r.phase], phase := next);
    WritesOne(en, before, mid, entered, "phase", "engine", Aimed("enter", next), expected);
    assert expected + [] == expected;
  }

  /** An exit marks the phase exited, enters the next unwaived one, and writes the exit, plain
      or forced, and the entry. */
  lemma {:induction false} ExitLeaves(en: Engine, st: State, force: bool, reason: string)
    requires st.run.Some? && ExitStep(en, st, force, reason).1 == Done
    ensures
      var r, st' := st.run.value, ExitStep(en, st, force, reason).0;
      && st'.run.Some? && IsNext(Order(en.spec, r.family), r.phase, r.waived, st'.run.value.phase)
      && st'.run.value == r.(forces := r.forces + if force then 1 else 0, exited := r.exited + [r.phase],
                             phase := st'.run.value.phase)
      && st'.archives == st.archives && st.log <= st'.log
      && Wrote(st'.log[|st.log|..],
                (if force then
                   [Told(r.id, r.phase, "escape", "user",
                         map["action" := Str("force"), "reason" := Str(reason),
                             "level" := Num((r.forces + 1) as real)]),
                    Told(r.id, r.phase, "phase", "engine", map["action" := Str("force"), "reason" := Str(reason)])]
                 else [Told(r.id, r.phase, "phase", "engine", map["action" := Str("exit")])])
                + Entering(r.id, st'.run.value.phase))
  {
    hide ExitGate, Advance, Blank, Contains, Wrote, IsNext, Order, Entering;
    var r := st.run.value;
    WritesNothing(st.log);
    if force {
      var data := Reasoned("force", reason)["level" := Num((r.forces + 1) as real)];
      var escape := Told(r.id, r.phase, "escape", "user", data);
      var forced := Told(r.id, r.phase, "phase", "engine", Reasoned("force", reason));
      var st1 := WithEvent(en, st, r, "escape", false, "user", data);
      var st2 := WithEvent(en, st1, r, "phase", false, "engine", Reasoned("force", reason));
      WritesOne(en, st.log, st, r, "escape", "user", data, []);
      WritesOne(en, st.log, st1, r, "phase", "engine", Reasoned("force", reason), [] + [escape]);
      assert ([] + [escape]) + [forced] == [escape, forced];
      AdvanceLeaves(en, st.log, st2, r.(forces := r.forces + 1), [escape, forced]);
    } else {
      var st1 := WithEvent(en, st, r, "phase", false, "engine", Action("exit"));
      var exited := Told(r.id, r.phase, "phase", "engine", Action("exit"));
      WritesOne(en, st.log, st, r, "phase", "engine", Action("exit"), []);
      assert [] + [exited] == [exited];
      AdvanceLeaves(en, st.log, st1, r, [exited]);
    }
  }

  // ---------------------------------------------------------------------------
  // Waiving
  // ---------------------------------------------------------------------------

  /** The first phase of that name may be waived by the family. */
  ghost predicate MayWaive(s: Spec, family: string, phase: string) {
    exists i :: 0 <= i < |s.phases| && s.phases[i].id == phase
                && (forall j :: 0 <= j < i ==> s.phases[j].id != phase)
                && family in s.phases[i].participation && s.phases[i].participation[family] == "waivable"
  }

  lemma {:induction false} WaivableIff(phases: seq<Phase>, family: string, phase: string)
    ensures
      (exists i :: 0 <= i < |phases| && phases[i].id == phase
                   && (forall j :: 0 <= j < i ==> phases[j].id != phase)
                   && family in phases[i].participation && phases[i].participation[family] == "waivable") <==>
      FindPhase(phases, phase).Some? && Participation(FindPhase(phases, phase).value, family) == "waivable"
  {
    if phases != [] {
      WaivableIff(phases[1..], family, phase);
      assert forall j :: 1 <= j < |phases| ==> phases[j] == phases[1..][j - 1];
    }
  }

  /** A phase is waived exactly when the family may, a reason is given and the run has not
      left it yet, whether the run is parked or not. */
  lemma {:induction false} WaiveGoesThroughIff(en: Engine, st: State, phase: string, reason: string)
    requires st.run.Some?
    ensures
      var r := st.run.value;
      WaiveStep(en, st, phase, reason).1 == Done <==>
      MayWaive(en.spec, r.family, phase) && !AllSpace(reason) && phase !in r.exited
  {
    hide Blank, NextUnwaived, Order, AllSpace, FindPhase, Participation;
    BlankIsSpace(reason);
    WaivableIff(en.spec.phases, st.run.value.family, phase);
  }

  /** Waiving adds the phase to the waived ones and, where it is the current one, moves on. */
  lemma {:induction false} WaiveLeaves(en: Engine, st: State, phase: string, reason: string)
    requires st.run.Some? && WaiveStep(en, st, phase, reason).1 == Done
    ensures
      var r, st' := st.run.value, WaiveStep(en, st, phase, reason).0;
      && st'.run.Some? && st'.run.value == r.(waived := r.waived + [phase], phase := st'.run.value.phase)
      && (if r.phase == phase then IsNext(Order(en.spec, r.family), phase, r.waived + [phase], st'.run.value.phase)
          else st'.run.value.phase == r.phase)
      && st'.archives == st.archives && st.log <= st'.log
      && Wrote(st'.log[|st.log|..],
                [Told(r.id, r.phase, "phase", "user",
                      map["action" := Str("waive"), "target" := Str(phase), "reason" := Str(reason)])]
                + if r.phase != phase then []
                  else [Told(r.id, st'.run.value.phase, "phase", "engine",
                             map["action" := Str("enter"), "target" := Str(st'.run.value.phase)])])
  {
    hide Blank, NextUnwaived, Order, PhaseById, Participation, Wrote, IsNext;
    var r := st.run.value;
    var data: Fields := map["action" := Str("waive"), "target" := Str(phase), "reason" := Str(reason)];
    var st1 := WithEvent(en, st, r, "phase", false, "user", data);
    var waived := Told(r.id, r.phase, "phase", "user", data);
    WritesNothing(st.log);
    WritesOne(en, st.log, st, r, "phase", "user", data, []);
    assert [] + [waived] == [waived] && [waived] + [] == [waived];
    NextIsNext(Order(en.spec, r.family), r.phase, r.waived + [phase]);
    var next := NextUnwaived(Order(en.spec, r.family), r.phase, r.waived + [phase]);
    var r2 := r.(waived := r.waived + [phase], phase := next);
    WritesOne(en, st.log, st1, r2, "phase", "engine", Aimed("enter", next), [waived]);
  }

  // ---------------------------------------------------------------------------
  // Loops
  // ---------------------------------------------------------------------------

  /** The newest audit on record failed; without one its status counts as the empty one. */
  ghost predicate AuditFailed(s: Spec, own: seq<Event>) {
    var vs := Records(own, "verdict");
    || (exists i :: 0 <= i < |vs| && StrField(vs[i].data, "agent") == "auditor"
                    && (forall j :: i < j < |vs| ==> StrField(vs[j].data, "agent") != "auditor")
                    && StrField(vs[i].data, "status") in s.verdicts.fail)
    || ((forall i :: 0 <= i < |vs| ==> StrField(vs[i].data, "agent") != "auditor") && "" in s.verdicts.fail)
  }

  /** Something at ship to loop on: an open trace finding or a failed audit. */
  ghost predicate Grounds(s: Spec, own: seq<Event>) {
    || (exists r :: r in Records(own, "trace-finding") && StrField(r.data, "status") == "open")
    || AuditFailed(s, own)
  }

  lemma {:induction false} LastStatusAt(vs: seq<Record>, agent: string) returns (i: nat)
    ensures
      if forall j :: 0 <= j < |vs| ==> StrField(vs[j].data, "agent") != agent then LastStatus(vs, agent) == ""
      else
        && i < |vs| && StrField(vs[i].data, "agent") == agent && LastStatus(vs, agent) == StrField(vs[i].data, "status")
        && forall j :: i < j < |vs| ==> StrField(vs[j].data, "agent") != agent
  {
    i := 0;
    if vs != [] {
      if StrField(vs[|vs| - 1].data, "agent") == agent {
        i := |vs| - 1;
      } else {
        i := LastStatusAt(vs[..|vs| - 1], agent);
        assert forall j :: 0 <= j < |vs| - 1 ==> vs[j] == vs[..|vs| - 1][j];
      }
    }
  }

  lemma GroundsIff(env: Env)
    ensures ShipGrounds(env) <==> Grounds(env.spec, env.events)
  {
    hide Records;
    var findings, vs := Records(env.events, "trace-finding"), Records(env.events, "verdict");
    assert forall i :: 0 <= i < |findings| ==> findings[i] in findings;
    var i := LastStatusAt(vs, "auditor");
  }

  /** Where a loop for this cause leads: from ship, with grounds, where the specification says;
      from the loops' origin, to the phase of the cause if it is a target. */
  ghost predicate LoopLeads(en: Engine, r: Run, own: seq<Event>, cause: string, target: string) {
    if en.spec.loops.ship.Some? && r.phase == "ship" && cause in en.spec.loops.ship.value.causes then
      Grounds(en.spec, own) && target == en.spec.loops.ship.value.target
    else
      && r.phase == en.spec.loops.from && target in en.spec.loops.targets
      && (cause, target) in {("slip", "build"), ("design", "design"), ("plan", "plan")}
  }

  lemma {:induction false} LoopLeadsIff(en: Engine, log: seq<Event>, r: Run, own: seq<Event>, cause: string)
    requires OwnEvents(log, r.id, own)
    ensures
      var to := LoopTarget(en, log, r, cause);
      forall target :: LoopLeads(en, r, own, cause, target) <==> to.Ok? && to.value == target
  {
    hide ShipGrounds, Grounds, OwnEvents;
    SeesOwn(en, log, r, own);
    GroundsIff(Seeing(en, r, own));
  }

  /** A loop is let through exactly when it leads somewhere, has evidence, and neither the
      loops of the run nor, for a slip, those of the criterion are used up. */
  lemma {:induction false} LoopGoesThroughIff(
    en: Engine, st: State, ac: string, cause: string, evidence: string, own: seq<Event>)
    requires st.run.Some? && OwnEvents(st.log, st.run.value.id, own)
    ensures
      var r := st.run.value;
      LoopStep(en, st, ac, cause, evidence).1 == Done <==>
      && (exists target :: LoopLeads(en, r, own, cause, target)) && !AllSpace(evidence)
      && r.loops < en.spec.loops.maxPerRun
      && (cause == "slip" ==>
        (ac !in r.slipByAC && 0 < en.spec.loops.maxSlipPerAC)
        || (ac in r.slipByAC && r.slipByAC[ac] < en.spec.loops.maxSlipPerAC))
  {
    hide OwnEvents, LoopTarget, LoopLeads, Blank, AllSpace, Looped;
    BlankIsSpace(evidence);
    LoopLeadsIff(en, st.log, st.run.value, own, cause);
    var to := LoopTarget(en, st.log, st.run.value, cause);
    assert to.Ok? ==> LoopLeads(en, st.run.value, own, cause, to.value);
  }

  lemma {:induction false} WithoutIsSifted(xs: seq<string>, x: string)
    ensures Sifted(xs, (y: string) => y != x, Without(xs, x))
  {
    if xs == [] {
      NothingSifted((y: string) => y != x);
    } else {
      WithoutIsSifted(xs[..|xs| - 1], x);
      SiftOneMore(xs, (y: string) => y != x, Without(xs[..|xs| - 1], x));
      assert Without(xs[..|xs| - 1], x) + [] == Without(xs[..|xs| - 1], x);
    }
  }

  /** A loop takes the run to its target, counts, takes back the exit of the target, and
      writes the loop with its evidence and the move. */
  lemma {:induction false} LoopLeaves(
    en: Engine, st: State, ac: string, cause: string, evidence: string, own: seq<Event>)
    requires st.run.Some? && OwnEvents(st.log, st.run.value.id, own)
    requires LoopStep(en, st, ac, cause, evidence).1 == Done
    ensures
      var r, st' := st.run.value, LoopStep(en, st, ac, cause, evidence).0;
      && st'.run.Some? && LoopLeads(en, r, own, cause, st'.run.value.phase)
      && var r' := st'.run.value;
      && r' == r.(loops := r.loops + 1, phase := r'.phase, exited := r'.exited, slipByAC := r'.slipByAC)
      && Sifted(r.exited, (p: string) => p != r'.phase, r'.exited)
      && r'.slipByAC == (if cause != "slip" then r.slipByAC
                         else if ac in r.slipByAC then r.slipByAC[ac := r.slipByAC[ac] + 1]
                         else r.slipByAC[ac := 1])
      && st'.archives == st.archives && st.log <= st'.log
      && Wrote(st'.log[|st.log|..],
                [Told(r.id, r.phase, "loop", "agent",
                      map["ac" := Str(ac), "cause" := Str(cause), "evidence" := Str(evidence),
                          "target" := Str(r'.phase)]),
                 Told(r.id, r.phase, "phase", "engine",
                      map["action" := Str("loop"), "target" := Str(r'.phase), "reason" := Str(cause)])])
  {
    hide OwnEvents, LoopTarget, LoopLeads, Blank, Wrote, Without, Sifted;
    var r := st.run.value;
    LoopLeadsIff(en, st.log, r, own, cause);
    var target := LoopTarget(en, st.log, r, cause).value;
    WithoutIsSifted(r.exited, target);
    var st1 := WithEvent(en, st, r, "loop", false, "agent", LoopRecord(ac, cause, evidence, target));
    var looped := Told(r.id, r.phase, "loop", "agent", LoopRecord(ac, cause, evidence, target));
    var moved := Told(r.id, r.phase, "phase", "engine", LoopMove(cause, target));
    WritesNothing(st.log);
    WritesOne(en, st.log, st, r, "loop", "agent", LoopRecord(ac, cause, evidence, target), []);
    WritesOne(en, st.log, st1, r, "phase", "engine", LoopMove(cause, target), [] + [looped]);
    assert ([] + [looped]) + [moved] == [looped, moved];
  }

  // ---------------------------------------------------------------------------
  // Records
  // ---------------------------------------------------------------------------

  /** The declaration of a record kind: the first of that name. */
  ghost predicate Declares(kinds: seq<RecordKind>, kind: string, k: RecordKind) {
    exists i :: 0 <= i < |kinds| && kinds[i] == k && k.kind == kind && forall j :: 0 <= j < i ==> kinds[j].kind != kind
  }

  lemma {:induction false} DeclaredIff(kinds: seq<RecordKind>, kind: string, k: RecordKind)
    ensures Declares(kinds, kind, k) <==> RecordKindByName(kinds, kind) == Some(k)
  {
    if kinds != [] {
      DeclaredIff(kinds[1..], kind, k);
      assert forall j :: 1 <= j < |kinds| ==> kinds[j] == kinds[1..][j - 1];
      if kinds[0].kind == kind { assert Declares(kinds, kind, k) <==> kinds[0] == k; }
      else {
        assert Declares(kinds[1..], kind, k) ==> Declares(kinds, kind, k) by {
          if Declares(kinds[1..], kind, k) {
            var i :| 0 <= i < |kinds| - 1 && kinds[1..][i] == k && k.kind == kind
                     && forall j :: 0 <= j < i ==> kinds[1..][j].kind != kind;
            assert kinds[i + 1] == k;
          }
        }
      }
    }
  }

  /** Every declared field without a question mark at its end is there. */
  predicate HasRequired(k: RecordKind, data: Fields) {
    forall f :: f in k.fields && (f == "" || f[|f| - 1] != '?') ==> f in data
  }

  lemma {:induction false} RequiredIff(fields: seq<string>, f: string)
    ensures f in Required(fields) <==> f in fields && (f == "" || f[|f| - 1] != '?')
  {
    if fields != [] {
      RequiredIff(fields[1..], f);
      assert fields == [fields[0]] + fields[1..];
    }
  }

  /** What is checked: an update is re-aimed at the record its target stands for among the
      run's own events; anything else is taken as given, if it is complete. */
  ghost predicate Checkable(own: seq<Event>, k: RecordKind, given: Fields, data: Fields) {
    if "updates" in given && given["updates"].Str? then
      exists original :: Resolve(own, given["updates"].s) == Some(original) && data == given["updates" := Str(original)]
    else data == given && HasRequired(k, given)
  }

  lemma {:induction false} CheckableIff(en: Engine, st: State, r: Run, k: RecordKind, given: Fields, own: seq<Event>)
    requires OwnEvents(st.log, r.id, own)
    ensures
      var found := NormalisedData(en, st, r, k, given);
      forall data :: Checkable(own, k, given, data) <==> found.Ok? && found.value == data
  {
    hide OwnEvents, Resolve, OfRun;
    OwnIsOfRun(st.log, r.id, own);
    forall f
      ensures f in Required(k.fields) <==> f in k.fields && (f == "" || f[|f| - 1] != '?')
    {
      RequiredIff(k.fields, f);
    }
  }

  /** What reaches the log: declared, checked, and, for a classification, of a family and an
      intent the specification has. */
  ghost predicate Recordable(en: Engine, own: seq<Event>, kind: string, given: Fields, auto: bool, data: Fields) {
    exists k, checkable ::
      && Declares(en.spec.records, kind, k) && Checkable(own, k, given, checkable)
      && en.validate(kind, checkable, auto) == Some(data)
      && (kind == "classification" ==>
        && StrField(data, "family") in en.spec.families && StrField(data, "family") in en.spec.intents
        && StrField(data, "intent") in en.spec.intents[StrField(data, "family")])
  }

  /** A record goes through exactly when something can be recorded; then that is written, in
      the phase of the run, and a classification corrects family and intent. */
  lemma {:induction false} RecordGoesThroughIff(
    en: Engine, st: State, kind: string, given: Fields, auto: bool, actor: string, own: seq<Event>)
    requires st.run.Some? && OwnEvents(st.log, st.run.value.id, own)
    ensures
      var r, (st', reply) := st.run.value, RecordStep(en, st, kind, given, auto, actor);
      && (reply == Done <==> exists data :: Recordable(en, own, kind, given, auto, data))
      && forall data :: Recordable(en, own, kind, given, auto, data) ==>
        && st'.run == Some(if kind != "classification" then r
                           else r.(family := StrField(data, "family"), intent := StrField(data, "intent")))
        && |st'.log| == |st.log| + 1 && st.log <= st'.log && st'.archives == st.archives
        && st'.log[|st.log|].(id := "", ts := "") ==
           Event("", 0, "", "", r.id, r.phase, kind, auto, if actor == "" then "agent" else actor, data)
  {
    hide OwnEvents, NormalisedData, Declares, Checkable, RecordKindByName;
    var r, k := st.run.value, RecordKindByName(en.spec.records, kind);
    forall d
      ensures Declares(en.spec.records, kind, d) <==> k == Some(d)
    {
      DeclaredIff(en.spec.records, kind, d);
    }
    if k.Some? {
      CheckableIff(en, st, r, k.value, given, own);
      var found := NormalisedData(en, st, r, k.value, given);
      if found.Ok? && RecordStep(en, st, kind, given, auto, actor).1 == Done {
        assert Recordable(en, own, kind, given, auto, en.validate(kind, found.value, auto).value);
      }
    }
  }

  // ---------------------------------------------------------------------------
  // Starting, closing, parking
  // ---------------------------------------------------------------------------

  /** A run starts exactly when no run is active and family and intent are known to the
      specification; it enters the first of the family's phases. */
  lemma {:induction false} StartGoesThroughIff(en: Engine, st: State, id: string, family: string, intent: string)
    ensures
      var (st', reply), order := StartStep(en, st, id, family, intent), Order(en.spec, family);
      && (reply == Done <==>
          && !(st.run.Some? && st.run.value.status == Active)
          && family in en.spec.families && order != []
          && (intent != "" ==> family in en.spec.intents && intent in en.spec.intents[family]))
      && (reply == Done ==>
        && st'.run == Some(Run(id, family, intent, order[0], Active, 0, map[], 0, [], []))
        && st'.archives == st.archives && st.log <= st'.log
        && Wrote(st'.log[|st.log|..],
                  [Told(id, order[0], "run", "engine",
                        map["action" := Str("start"), "family" := Str(family), "intent" := Str(intent)]),
                   Told(id, order[0], "phase", "engine", map["action" := Str("enter"), "target" := Str(order[0])])]))
  {
    hide Order, Wrote;
    if StartStep(en, st, id, family, intent).1 == Done {
      var first := Order(en.spec, family)[0];
      var r := Run(id, family, intent, first, Active, 0, map[], 0, [], []);
      var data: Fields := map["action" := Str("start"), "family" := Str(family), "intent" := Str(intent)];
      var st1 := WithEvent(en, st, r, "run", false, "engine", data);
      var started, entered := Told(id, first, "run", "engine", data),
                              Told(id, first, "phase", "engine", Aimed("enter", first));
      WritesNothing(st.log);
      WritesOne(en, st.log, st, r, "run", "engine", data, []);
      WritesOne(en, st.log, st1, r, "phase", "engine", Aimed("enter", first), [] + [started]);
      assert ([] + [started]) + [entered] == [started, entered];
    }
  }

  /** A run closes exactly when the last phase of its family was exited; the log with the
      closing event is then split between the run's archive and the live log. */
  lemma {:induction false} CloseGoesThroughIff(en: Engine, st: State)
    requires st.run.Some?
    ensures
      var r, (st', reply) := st.run.value, CloseStep(en, st);
      var order := Order(en.spec, r.family);
      && (reply == Done <==> order != [] && order[|order| - 1] in r.exited)
      && (reply == Done ==>
        && st'.run == None && r.id in st'.archives
        && st'.archives == st.archives[r.id := st'.archives[r.id]]
        && exists closing: Event ::
          && closing.(id := "", ts := "") == Told(r.id, r.phase, "run", "engine", map["action" := Str("close")])
          && Sifted(st.log + [closing], (e: Event) => Departs(e, r.id), st'.archives[r.id])
          && Sifted(st.log + [closing], (e: Event) => !Departs(e, r.id), st'.log))
  {
    hide Order, Retained, Archived, Sifted, Departs;
    var r := st.run.value;
    var log := WithEvent(en, st, r, "run", false, "engine", Action("close")).log;
    SplitIsSifted(log, r.id);
    assert log == st.log + [log[|st.log|]];
  }

  /** Parking needs a reason and a run; resuming a parked run. Both leave the rest alone. */
  lemma {:induction false} ParkGoesThroughIff(en: Engine, st: State, reason: string)
    requires st.run.Some?
    ensures
      var r, (st', reply) := st.run.value, ParkStep(en, st, reason);
      && (reply == Done <==> !AllSpace(reason))
      && (reply == Done ==>
        && st'.run == Some(r.(status := Parked)) && st'.archives == st.archives && st.log <= st'.log
        && var data: Fields := map["action" := Str("park"), "reason" := Str(reason)];
        Wrote(st'.log[|st.log|..],
               [Told(r.id, r.phase, "escape", "user", data), Told(r.id, r.phase, "phase", "engine", data)]))
    ensures
      var r, (st', reply) := st.run.value, ResumeStep(en, st);
      && (reply == Done <==> r.status == Parked)
      && (reply == Done ==>
        && st'.run == Some(r.(status := Active)) && st'.archives == st.archives && st.log <= st'.log
        && Wrote(st'.log[|st.log|..], [Told(r.id, r.phase, "phase", "engine", map["action" := Str("resume")])]))
  {
    hide Blank, AllSpace, Wrote;
    BlankIsSpace(reason);
    var r := st.run.value;
    var data := Reasoned("park", reason);
    var st1 := WithEvent(en, st, r, "escape", false, "user", data);
    var a, b := Told(r.id, r.phase, "escape", "user", data), Told(r.id, r.phase, "phase", "engine", data);
    WritesNothing(st.log);
    WritesOne(en, st.log, st, r, "escape", "user", data, []);
    WritesOne(en, st.log, st1, r, "phase", "engine", data, [] + [a]);
    assert ([] + [a]) + [b] == [a, b];
    WritesOne(en, st.log, st, r, "phase", "engine", Action("resume"), []);
    assert [] + [Told(r.id, r.phase, "phase", "engine", Action("resume"))]
           == [Told(r.id, r.phase, "phase", "engine", Action("resume"))];
  }

  // ---------------------------------------------------------------------------
  // What does not go through
  // ---------------------------------------------------------------------------

  /** The two refusals that park the run: a third force, and a loop when none is left. */
  ghost predicate ParksInstead(en: Engine, st: State, c: Command) {
    && st.run.Some?
    && match c
       case Exit(force, reason) =>
         force && st.run.value.status == Active && !AllSpace(reason) && st.run.value.forces >= 2
       case LoopBack(ac, cause, evidence) =>
         && LoopTarget(en, st.log, st.run.value, cause).Ok? && !AllSpace(evidence)
         && st.run.value.loops >= en.spec.loops.maxPerRun
       case _ => false
  }

  /** What does not go through changes nothing, unless it parks the run; then only that, and
      the log says so. */
  lemma {:induction false} RefusalsChangeNothing(en: Engine, st: State, c: Command)
    requires Step(en, st, c).1 != Done
    ensures
      var st' := Step(en, st, c).0;
      if !ParksInstead(en, st, c) then st' == st
      else
        var r := st.run.value;
        && st'.run == Some(r.(status := Parked)) && st'.archives == st.archives && st.log <= st'.log
        && Wrote(st'.log[|st.log|..],
                  if c.Exit? then
                    [Told(r.id, r.phase, "escape", "user",
                          map["action" := Str("park"), "reason" := Str("3rd force in run \U{2014} auto-parked"),
                              "level" := Num(3.0)]),
                     Told(r.id, r.phase, "phase", "engine",
                          map["action" := Str("park"), "reason" := Str("force escalation")])]
                  else
                    [Told(r.id, r.phase, "phase", "engine",
                          map["action" := Str("park"), "reason" := Str("loop cap reached")])])
  {
    hide Wrote, ExitStep, LoopStep, AllSpace, NormalisedData, Approvals.ApprovalData, ValidClassification, Order,
      NextUnwaived, Blank, PhaseById;
    match c
    case Exit(force, reason) => RefusedExit(en, st, force, reason);
    case LoopBack(ac, cause, evidence) => RefusedLoop(en, st, ac, cause, evidence);
    case _ =>
  }

  lemma {:induction false} RefusedExit(en: Engine, st: State, force: bool, reason: string)
    requires ExitStep(en, st, force, reason).1 != Done
    ensures
      var st', c := ExitStep(en, st, force, reason).0, Exit(force, reason);
      if !ParksInstead(en, st, c) then st' == st
      else
        var r := st.run.value;
        && st'.run == Some(r.(status := Parked)) && st'.archives == st.archives && st.log <= st'.log
        && Wrote(st'.log[|st.log|..],
                  [Told(r.id, r.phase, "escape", "user", ThirdForce()),
                   Told(r.id, r.phase, "phase", "engine", Reasoned("park", "force escalation"))])
  {
    hide Wrote, ExitGate, Advance, Blank, Contains, AllSpace;
    BlankIsSpace(reason);
    if ParksInstead(en, st, Exit(force, reason)) {
      var r := st.run.value;
      var st1 := WithEvent(en, st, r, "escape", false, "user", ThirdForce());
      var a := Told(r.id, r.phase, "escape", "user", ThirdForce());
      var b := Told(r.id, r.phase, "phase", "engine", Reasoned("park", "force escalation"));
      WritesNothing(st.log);
      WritesOne(en, st.log, st, r, "escape", "user", ThirdForce(), []);
      WritesOne(en, st.log, st1, r, "phase", "engine", Reasoned("park", "force escalation"), [] + [a]);
      assert ([] + [a]) + [b] == [a, b];
    }
  }

  lemma {:induction false} RefusedLoop(en: Engine, st: State, ac: string, cause: string, evidence: string)
    requires LoopStep(en, st, ac, cause, evidence).1 != Done
    ensures
      var st', c := LoopStep(en, st, ac, cause, evidence).0, LoopBack(ac, cause, evidence);
      if !ParksInstead(en, st, c) then st' == st
      else
        var r := st.run.value;
        && st'.run == Some(r.(status := Parked)) && st'.archives == st.archives && st.log <= st'.log
        && Wrote(st'.log[|st.log|..],
                  [Told(r.id, r.phase, "phase", "engine", Reasoned("park", "loop cap reached"))])
  {
    hide Wrote, LoopTarget, Blank, AllSpace;
    BlankIsSpace(evidence);
    if st.run.Some? {
      var r := st.run.value;
      WritesNothing(st.log);
      WritesOne(en, st.log, st, r, "phase", "engine", Reasoned("park", "loop cap reached"), []);
      var b := Told(r.id, r.phase, "phase", "engine", Reasoned("park", "loop cap reached"));
      assert [] + [b] == [b];
    }
  }

  /** What an exit that does not go through reports is what the exit stage found or, where it
      found nothing, what the entry stage of the next phase did: its findings, or the item
      that broke. */
  lemma {:induction false} ExitReports(en: Engine, st: State, reason: string, own: seq<Event>)
    requires st.run.Some? && OwnEvents(st.log, st.run.value.id, own)
    requires
      var reply := ExitStep(en, st, false, reason).1;
      reply.Gaps? || reply.BrokenContract?
    ensures
      var r, reply := st.run.value, ExitStep(en, st, false, reason).1;
      var env, found: Evaluation := Seeing(en, r, own), if reply.Gaps? then Ok(reply.findings) else Err(reply.item);
      && found != Ok([])
      && (|| EvaluateStage(env, r.phase, false) == found
          || (&& EvaluateStage(env, r.phase, false) == Ok([])
              && exists next :: IsNext(Order(en.spec, r.family), r.phase, r.waived, next) && next != ""
                                && EvaluateStage(env, next, true) == found))
  {
    hide OwnEvents, EvaluateStage, IsNext, Order, NextUnwaived, Advance;
    var r := st.run.value;
    SeesOwn(en, st.log, r, own);
    NextIsNext(Order(en.spec, r.family), r.phase, r.waived);
    var next := NextUnwaived(Order(en.spec, r.family), r.phase, r.waived);
    assert IsNext(Order(en.spec, r.family), r.phase, r.waived, next);
  }
}

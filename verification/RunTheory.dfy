/** What every run keeps: phase order, caps, and a log from which the snapshot can be
    told again. */
module RunTheory {
  import opened Values
  import opened Events
  import opened UpdateFolding
  import opened WorkflowSpec
  import opened PhaseOrder
  import opened RunState

  // ---------------------------------------------------------------------------
  // Phase order
  // ---------------------------------------------------------------------------

  predicate Waivable(s: Spec, family: string, phase: string) {
    var p := PhaseById(s, phase);
    p.Some? && Participation(p.value, family) == "waivable"
  }

  predicate Accounted(r: Run, phase: string) {
    phase in r.exited || phase in r.waived
  }

  /** Every phase before the current one (all of them once the run has none) was exited,
      forced or waived; the last phase counts as exited only when the run is through. No phase
      of the family is nameless. */
  ghost predicate Placed(s: Spec, r: Run) {
    var order := Order(s, r.family);
    && r.family in s.families && order != [] && "" !in order
    && (r.phase == "" || r.phase in order)
    && (forall i :: 0 <= i < Index(order, r.phase) ==> Accounted(r, order[i]))
    && (forall w :: w in r.waived ==> Waivable(s, r.family, w))
    && (r.phase != "" ==> order[|order| - 1] !in r.exited)
  }

  lemma {:induction false} FirstUnwaivedSkips(order: seq<string>, i: nat, waived: seq<string>) returns (k: nat)
    requires DistinctIds(order) && "" !in order && i <= |order|
    ensures i <= k <= |order|
    ensures forall j :: i <= j < k ==> order[j] in waived
    ensures FirstUnwaived(order[i..], waived) == if k < |order| then order[k] else ""
    ensures k < |order| ==> order[k] !in waived
    ensures Index(order, FirstUnwaived(order[i..], waived)) == k
    decreases |order| - i
  {
    k := i;
    if i < |order| && order[i] in waived {
      assert order[i..][1..] == order[i + 1..];
      k := FirstUnwaivedSkips(order, i + 1, waived);
    }
    IndexIsPosition(order, k);
  }

  lemma IndexIsPosition(order: seq<string>, k: nat)
    requires DistinctIds(order) && "" !in order && k <= |order|
    ensures Index(order, if k < |order| then order[k] else "") == k
  {
  }

  /** The next phase is the first unwaived one; everything skipped on the way was waived. */
  lemma NextUnwaivedSkips(order: seq<string>, cur: string, waived: seq<string>) returns (k: nat)
    requires DistinctIds(order) && "" !in order
    ensures if cur in order then Index(order, cur) < k else k == |order|
    ensures k <= |order|
    ensures forall j :: Index(order, cur) < j < k ==> order[j] in waived
    ensures NextUnwaived(order, cur, waived) == if k < |order| then order[k] else ""
    ensures Index(order, NextUnwaived(order, cur, waived)) == k
  {
    k := |order|;
    if cur in order { k := FirstUnwaivedSkips(order, Index(order, cur) + 1, waived); }
    else { IndexIsPosition(order, k); }
  }

  lemma {:induction false} AdvanceKeepsPlaced(s: Spec, r: Run, forces: nat)
    requires PhasesOk(s) && Placed(s, r)
    ensures
      var next := NextUnwaived(Order(s, r.family), r.phase, r.waived);
      Placed(s, r.(exited := r.exited + [r.phase], phase := next, forces := forces))
  {
    hide Order, Waivable, NextUnwaived, PhasesOk;
    var order := Order(s, r.family);
    OrderIsDistinct(s, r.family);
    var k := NextUnwaivedSkips(order, r.phase, r.waived);
    var r' := r.(exited := r.exited + [r.phase], phase := NextUnwaived(order, r.phase, r.waived), forces := forces);
    assert forall p :: Accounted(r, p) ==> Accounted(r', p);
    assert Accounted(r', r.phase);
    if k < |order| {
      var p := Index(order, r.phase);
      assert order[p] == r.phase && order[p] != order[|order| - 1];
    }
  }

  lemma {:induction false} WaiveKeepsPlaced(s: Spec, r: Run, phase: string)
    requires PhasesOk(s) && Placed(s, r) && Waivable(s, r.family, phase)
    ensures Placed(s, r.(waived := r.waived + [phase]))
    ensures r.phase == phase ==>
              Placed(s, r.(waived := r.waived + [phase],
                           phase := NextUnwaived(Order(s, r.family), r.phase, r.waived + [phase])))
  {
    hide Order, Waivable, NextUnwaived, PhasesOk, Index;
    var r1 := r.(waived := r.waived + [phase]);
    assert forall p :: Accounted(r, p) ==> Accounted(r1, p);
    assert forall w :: w in r1.waived ==> Waivable(s, r.family, w);
    if r.phase == phase { SkipKeepsPlaced(s, r1); }
  }

  /** Leaving a waived phase without an exit. */
  lemma {:induction false} SkipKeepsPlaced(s: Spec, r: Run)
    requires PhasesOk(s) && Placed(s, r) && r.phase in r.waived
    ensures Placed(s, r.(phase := NextUnwaived(Order(s, r.family), r.phase, r.waived)))
  {
    hide Order, Waivable, NextUnwaived, PhasesOk;
    var order := Order(s, r.family);
    OrderIsDistinct(s, r.family);
    var k := NextUnwaivedSkips(order, r.phase, r.waived);
    var r' := r.(phase := NextUnwaived(order, r.phase, r.waived));
    assert forall p :: Accounted(r, p) ==> Accounted(r', p);
    assert Accounted(r', r.phase);
    assert k < |order| ==> order[k] in order;
  }

  /** Every phase the loop would jump over, the current one included, is accounted for;
      nothing to ask when the target precedes the current phase. */
  predicate NothingSkipped(order: seq<string>, r: Run, target: string) {
    && (target == "" || target in order)
    && forall i :: Index(order, r.phase) <= i < Index(order, target) ==> Accounted(r, order[i])
  }

  /** What a loop must heed: it skips nothing, and a run that is through does not take its
      exit of the last phase along to an earlier one. */
  predicate SafeLoop(order: seq<string>, r: Run, target: string) {
    && NothingSkipped(order, r, target)
    && (r.phase == "" && target != "" && order != [] ==> order[|order| - 1] !in Without(r.exited, target))
  }

  /** A loop keeps the run in phase order exactly when it is safe. */
  lemma {:induction false} LoopKeepsPlacedIff(s: Spec, r: Run, ac: string, cause: string, target: string)
    requires PhasesOk(s) && Placed(s, r)
    ensures Placed(s, Looped(r, ac, cause, target)) <==> SafeLoop(Order(s, r.family), r, target)
  {
    hide Order, PhasesOk, Waivable, SlipsOn;
    var order, r' := Order(s, r.family), Looped(r, ac, cause, target);
    OrderIsDistinct(s, r.family);
    forall i | 0 <= i < Index(order, target)
      ensures Accounted(r', order[i]) == Accounted(r, order[i])
    {
      if target in order { assert order[i] != order[Index(order, target)]; }
      else { assert order[i] != target; }
    }
  }

  // ---------------------------------------------------------------------------
  // Caps
  // ---------------------------------------------------------------------------

  function AtLeastZero(n: int): nat {
    if n < 0 then 0 else n
  }

  ghost function Total(m: map<string, nat>): nat {
    if m == map[] then 0
    else
      var k :| k in m;
      m[k] + Total(m - {k})
  }

  lemma {:induction false} TotalWithout(m: map<string, nat>, k: string)
    requires k in m
    ensures Total(m) == m[k] + Total(m - {k})
  {
    var picked :| picked in m && Total(m) == m[picked] + Total(m - {picked});
    if picked != k {
      TotalWithout(m - {picked}, k);
      TotalWithout(m - {k}, picked);
      assert m - {picked} - {k} == m - {k} - {picked};
    }
  }

  lemma TotalUpdate(m: map<string, nat>, k: string, v: nat)
    ensures Total(m[k := v]) == Total(m) - (if k in m then m[k] else 0) + v
  {
    TotalWithout(m[k := v], k);
    assert m[k := v] - {k} == m - {k};
    if k in m { TotalWithout(m, k); } else { assert m - {k} == m; }
  }

  ghost predicate Capped(s: Spec, r: Run) {
    && r.loops <= AtLeastZero(s.loops.maxPerRun)
    && r.forces <= 2
    && (forall ac :: ac in r.slipByAC ==> r.slipByAC[ac] <= s.loops.maxSlipPerAC)
    && Total(r.slipByAC) <= r.loops
  }

  // ---------------------------------------------------------------------------
  // The log tells the run
  // ---------------------------------------------------------------------------

  /** What re-derivation preserves of a snapshot. */
  predicate Matches(d: Run, r: Run) {
    && d.id == r.id && d.family == r.family && d.intent == r.intent && d.status == r.status
    && d.loops == r.loops && d.forces == r.forces && d.waived == r.waived
    && (r.phase != "" ==> d.phase == r.phase)
    && (forall p :: p in r.exited ==> p in d.exited)
    && (r.loops == 0 ==> d.exited == r.exited)
  }

  /** Re-derivation with its three omissions mended: leaving a phase leaves it, a loop
      re-opens its target, and a slip counts against the criterion of the loop record in
      front of it. */
  function Mended(d: Option<Run>, ac: string, e: Event): Option<Run> {
    var after := Replay(d, e);
    if e.kind != "phase" || d.None? || d.value.id != e.run then after
    else
      var action := e.Text("action");
      if action == "exit" || action == "force" then Some(after.value.(phase := ""))
      else if action == "loop" then
        Some(after.value.(
          exited := Without(d.value.exited, e.Text("target")),
          slipByAC := if e.Text("reason") == "slip" then d.value.slipByAC[ac := SlipsOn(d.value, ac) + 1]
                      else d.value.slipByAC))
      else after
  }

  function LastAC(log: seq<Event>): string {
    if log == [] then "" else log[|log| - 1].Text("ac")
  }

  /** The snapshot as the mended re-derivation tells it. */
  function Retell(log: seq<Event>): Option<Run> {
    if log == [] then None
    else Mended(Retell(log[..|log| - 1]), LastAC(log[..|log| - 1]), log[|log| - 1])
  }

  predicate IsPhaseAction(e: Event, run: string, action: string) {
    e.run == run && e.kind == "phase" && e.Text("action") == action
  }

  function CountForces(log: seq<Event>, run: string): nat {
    if log == [] then 0
    else CountForces(log[..|log| - 1], run) + if IsPhaseAction(log[|log| - 1], run, "force") then 1 else 0
  }

  ghost predicate Tells(log: seq<Event>, r: Run) {
    && Derive(log).Some? && Matches(Derive(log).value, r)
    && Retell(log) == Some(r)
    && CountForces(log, r.id) == r.forces
  }

  /** One more event of the run keeps the log telling, provided replaying it does to the
      derived snapshot what the step did to the live one. */
  lemma {:induction false} TellOne(log: seq<Event>, r: Run, e: Event, r': Run)
    requires Tells(log, r) && r'.id == r.id
    requires
      var d' := Replay(Derive(log), e);
      d'.Some? && Matches(d'.value, r')
    requires Mended(Some(r), LastAC(log), e) == Some(r')
    requires r'.forces == r.forces + if IsPhaseAction(e, r.id, "force") then 1 else 0
    ensures Tells(log + [e], r')
  {
    hide Replay, Matches, Mended, LastAC;
    var log' := log + [e];
    assert log'[..|log'| - 1] == log;
  }

  lemma MatchedId(d: Run, r: Run)
    requires Matches(d, r)
    ensures d.id == r.id
  {
  }

  function Stamped(en: Engine, n: nat, r: Run, kind: string, auto: bool, actor: string, data: Fields): Event {
    Event(en.stamp(n).0, 0, "", en.stamp(n).1, r.id, r.phase, kind, auto, actor, data)
  }

  /** An event that is no engine transition changes nothing re-derivation looks at. */
  lemma {:induction false} TellRecord(
    en: Engine, st: State, r: Run, kind: string, auto: bool, actor: string, data: Fields)
    requires Tells(st.log, r) && kind != "run" && kind != "phase"
    ensures Tells(WithEvent(en, st, r, kind, auto, actor, data).log, r)
  {
    hide Matches;
    TellOne(st.log, r, Stamped(en, st.stamped, r, kind, auto, actor, data), r);
  }

  /** A recorded phase action that does to the snapshot what it does on replay. */
  lemma {:induction false} TellAction(en: Engine, st: State, r: Run, stamper: Run, actor: string, data: Fields, r': Run)
    requires Tells(st.log, r) && stamper.id == r.id == r'.id
    requires
      var action := StrField(data, "action");
      && action in {"enter", "exit", "waive", "loop", "force", "park", "resume"}
      && (action in {"exit", "force"} ==> stamper.phase == r.phase)
      && forall d :: Matches(d, r) ==>
        Matches(Replay(Some(d), Stamped(en, st.stamped, stamper, "phase", false, actor, data)).value, r')
    requires
      Mended(Some(r), LastAC(st.log), Stamped(en, st.stamped, stamper, "phase", false, actor, data)) == Some(r')
    requires r'.forces == r.forces + if StrField(data, "action") == "force" then 1 else 0
    ensures Tells(WithEvent(en, st, stamper, "phase", false, actor, data).log, r')
  {
    hide Matches, Mended, LastAC;
    var e := Stamped(en, st.stamped, stamper, "phase", false, actor, data);
    var d := Derive(st.log).value;
    MatchedId(d, r);
    assert e.Text("action") == StrField(data, "action");
    assert Matches(Replay(Some(d), e).value, r');
    TellOne(st.log, r, e, r');
  }
}

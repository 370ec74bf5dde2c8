/** Sticky verdicts: which verdict of an agent counts, and when it satisfies an item. */
module Verdicts {
  import opened Values
  import opened Events
  import opened UpdateFolding
  import opened WorkflowSpec
  import opened PhaseOrder
  import opened Matching

  predicate InScope(r: Record, agent: string, scope: string) {
    StrField(r.data, "agent") == agent && (scope == "" || StrField(r.data, "scope") == scope)
  }

  /** The verdicts of one agent (and scope), oldest first. */
  function VerdictsOf(rs: seq<Record>, agent: string, scope: string): seq<Record> {
    if rs == [] then []
    else
      var init, last := rs[..|rs| - 1], rs[|rs| - 1];
      VerdictsOf(init, agent, scope) + if InScope(last, agent, scope) then [last] else []
  }

  function LastAuto(rs: seq<Record>): Option<Record> {
    if rs == [] then None
    else if rs[|rs| - 1].auto then Some(rs[|rs| - 1])
    else LastAuto(rs[..|rs| - 1])
  }

  predicate GatingAgent(env: Env, name: string) {
    var a := AgentByName(env.spec.roster, name);
    a.Some? && a.value.gating
  }

  predicate HasAutoVerdict(env: Env) {
    exists i :: 0 <= i < |Records(env.events, "verdict")| && Records(env.events, "verdict")[i].auto
  }

  predicate Dispositioned(env: Env, ref: string) {
    AnyHas(Records(env.events, "disposition"), "ref", ref)
  }

  predicate IsFailStatus(env: Env, status: string) {
    status in env.spec.verdicts.fail
  }

  /** The verdict that counts: a manual one never supersedes a failing captured one
      unless a disposition refers to the captured one. */
  function EffectiveVerdict(env: Env, agent: string, scope: string): Option<Record> {
    var all := VerdictsOf(Records(env.events, "verdict"), agent, scope);
    if all == [] then None
    else
      var last := all[|all| - 1];
      if last.auto then Some(last)
      else
        match LastAuto(all)
        case None => Some(last)
        case Some(captured) =>
          if !IsFailStatus(env, StrField(captured.data, "status")) || Dispositioned(env, captured.id)
          then Some(last)
          else Some(captured)
  }

  predicate AgentVerdictDispositioned(env: Env, agent: string, scope: string) {
    var all := VerdictsOf(Records(env.events, "verdict"), agent, scope);
    exists i :: 0 <= i < |all| && Dispositioned(env, all[i].id)
  }

  predicate VerdictIn(env: Env, agent: string, scope: string, statuses: seq<string>, riskyOk: bool) {
    match EffectiveVerdict(env, agent, scope)
    case None => false
    case Some(v) =>
      var status := StrField(v.data, "status");
      if !v.auto && GatingAgent(env, agent) && HasAutoVerdict(env) && !AgentVerdictDispositioned(env, agent, scope)
      then false
      else status in statuses || (status == "risky" && riskyOk && Dispositioned(env, v.id))
  }

  // ---------------------------------------------------------------------------

  /** The two passes of the evaluator: collect, then look for the newest captured verdict. */
  method FindEffectiveVerdict(env: Env, agent: string, scope: string) returns (v: Option<Record>)
    ensures v == EffectiveVerdict(env, agent, scope)
  {
    var verdicts := Records(env.events, "verdict");
    var all: seq<Record> := [];
    for i := 0 to |verdicts|
      invariant all == VerdictsOf(verdicts[..i], agent, scope)
    {
      assert verdicts[..i + 1][..i] == verdicts[..i];
      if InScope(verdicts[i], agent, scope) {
        all := all + [verdicts[i]];
      }
    }
    assert verdicts[..|verdicts|] == verdicts;
    if all == [] {
      return None;
    }
    var last := all[|all| - 1];
    if last.auto {
      return Some(last);
    }
    var lastAuto: Option<Record> := None;
    for i := 0 to |all|
      invariant lastAuto == LastAuto(all[..i])
    {
      assert all[..i + 1][..i] == all[..i];
      if all[i].auto {
        lastAuto := Some(all[i]);
      }
    }
    assert all[..|all|] == all;
    if lastAuto.None? || !IsFailStatus(env, StrField(lastAuto.value.data, "status"))
       || Dispositioned(env, lastAuto.value.id) {
      return Some(last);
    }
    return lastAuto;
  }

  // ---------------------------------------------------------------------------
  // Which verdict decides, by position
  // ---------------------------------------------------------------------------

  /** Verdict `i` is one of the agent's, within the scope if one is asked for. */
  predicate About(rs: seq<Record>, agent: string, scope: string, i: nat) {
    i < |rs| && StrField(rs[i].data, "agent") == agent && (scope != "" ==> StrField(rs[i].data, "scope") == scope)
  }

  ghost predicate NewestAbout(rs: seq<Record>, agent: string, scope: string, i: nat) {
    About(rs, agent, scope, i) && forall j: nat :: About(rs, agent, scope, j) ==> j <= i
  }

  ghost predicate NewestCaptured(rs: seq<Record>, agent: string, scope: string, i: nat) {
    About(rs, agent, scope, i) && rs[i].auto && forall j: nat :: About(rs, agent, scope, j) && rs[j].auto ==> j <= i
  }

  /** Some disposition refers to the record. */
  ghost predicate Disposed(env: Env, r: Record) {
    exists d :: d in Records(env.events, "disposition") && StrField(d.data, "ref") == r.id
  }

  /** A captured failure stands against what came after it by hand. */
  ghost predicate Sticks(env: Env, rs: seq<Record>, agent: string, scope: string, c: nat) {
    && NewestCaptured(rs, agent, scope, c) && StrField(rs[c].data, "status") in env.spec.verdicts.fail
    && !Disposed(env, rs[c])
  }

  /** The newest verdict decides, except that the newest captured one does where it failed
      and no disposition names it. */
  ghost predicate Decisive(env: Env, rs: seq<Record>, agent: string, scope: string, i: nat) {
    if exists c :: Sticks(env, rs, agent, scope, c) then NewestCaptured(rs, agent, scope, i)
    else NewestAbout(rs, agent, scope, i)
  }

  /** The first agent of that name in the roster is a gating one. */
  ghost predicate Gates(roster: seq<Agent>, name: string) {
    exists a :: 0 <= a < |roster| && roster[a].name == name && roster[a].gating
                && forall b :: 0 <= b < a ==> roster[b].name != name
  }

  /** A verdict by hand does not count for a gating agent once some verdict was captured,
      unless a disposition names one of the agent's verdicts. */
  ghost predicate Barred(env: Env, rs: seq<Record>, agent: string, scope: string, i: nat)
    requires i < |rs|
  {
    && !rs[i].auto && Gates(env.spec.roster, agent) && (exists j :: 0 <= j < |rs| && rs[j].auto)
    && forall j: nat :: About(rs, agent, scope, j) ==> !Disposed(env, rs[j])
  }

  /** Verdict `i` has a listed status, or is risky where that is allowed and dispositioned. */
  ghost predicate Accepted(env: Env, rs: seq<Record>, statuses: seq<string>, riskyOk: bool, i: nat)
    requires i < |rs|
  {
    || StrField(rs[i].data, "status") in statuses
    || (StrField(rs[i].data, "status") == "risky" && riskyOk && Disposed(env, rs[i]))
  }

  lemma AboutEarlier(rs: seq<Record>, agent: string, scope: string, j: nat)
    requires rs != []
    ensures About(rs, agent, scope, j) <==>
            || About(rs[..|rs| - 1], agent, scope, j)
            || (j == |rs| - 1 && InScope(rs[|rs| - 1], agent, scope))
  {
    if j < |rs| - 1 { assert rs[..|rs| - 1][j] == rs[j]; }
  }

  lemma AboutIsListed(rs: seq<Record>, agent: string, scope: string, j: nat)
    ensures About(rs, agent, scope, j) ==> j < |rs|
  {
  }

  lemma {:induction false} NewestIsLast(rs: seq<Record>, agent: string, scope: string) returns (i: nat)
    ensures VerdictsOf(rs, agent, scope) == [] <==> forall j: nat :: !About(rs, agent, scope, j)
    ensures
      var all := VerdictsOf(rs, agent, scope);
      all != [] ==> i < |rs| && NewestAbout(rs, agent, scope, i) && all[|all| - 1] == rs[i]
  {
    i := 0;
    hide InScope, About;
    if rs != [] {
      var init, last := rs[..|rs| - 1], rs[|rs| - 1];
      i := NewestIsLast(init, agent, scope);
      forall j: nat
        ensures About(rs, agent, scope, j) <==>
                About(init, agent, scope, j) || (j == |init| && InScope(last, agent, scope))
        ensures About(init, agent, scope, j) ==> j < |init|
      {
        AboutEarlier(rs, agent, scope, j);
        AboutIsListed(init, agent, scope, j);
      }
      assert InScope(last, agent, scope) ==> About(rs, agent, scope, |init|);
      if InScope(last, agent, scope) { i := |init|; }
    } else {
      forall j: nat
        ensures !About(rs, agent, scope, j)
      {
        AboutIsListed(rs, agent, scope, j);
      }
    }
  }

  lemma LastCaptured(rs: seq<Record>, agent: string, scope: string)
    requires rs != []
    ensures
      var init, last := rs[..|rs| - 1], rs[|rs| - 1];
      LastAuto(VerdictsOf(rs, agent, scope)) ==
      if InScope(last, agent, scope) && last.auto then Some(last) else LastAuto(VerdictsOf(init, agent, scope))
  {
    hide InScope;
    var before, last := VerdictsOf(rs[..|rs| - 1], agent, scope), rs[|rs| - 1];
    assert (before + [last])[..|before|] == before && before + [] == before;
  }

  lemma {:induction false} CapturedIsLastAuto(rs: seq<Record>, agent: string, scope: string) returns (c: nat)
    ensures LastAuto(VerdictsOf(rs, agent, scope)).None? <==>
            forall j: nat :: j < |rs| && About(rs, agent, scope, j) ==> !rs[j].auto
    ensures
      var found := LastAuto(VerdictsOf(rs, agent, scope));
      found.Some? ==> c < |rs| && NewestCaptured(rs, agent, scope, c) && found.value == rs[c]
  {
    c := 0;
    if rs != [] {
      hide InScope, LastAuto, VerdictsOf, About;
      var init, last := rs[..|rs| - 1], rs[|rs| - 1];
      c := CapturedIsLastAuto(init, agent, scope);
      LastCaptured(rs, agent, scope);
      forall j: nat
        ensures About(rs, agent, scope, j) <==>
                About(init, agent, scope, j) || (j == |init| && InScope(last, agent, scope))
        ensures j < |init| ==> init[j] == rs[j]
        ensures About(init, agent, scope, j) ==> j < |init|
      {
        AboutEarlier(rs, agent, scope, j);
        AboutIsListed(init, agent, scope, j);
      }
      if InScope(last, agent, scope) && last.auto { c := |init|; }
    }
  }

  lemma DisposedIff(env: Env, r: Record)
    ensures Dispositioned(env, r.id) <==> Disposed(env, r)
  {
    hide Records;
    var ds := Records(env.events, "disposition");
    assert forall i :: 0 <= i < |ds| ==> ds[i] in ds;
  }

  lemma {:induction false} GatesIff(roster: seq<Agent>, name: string)
    ensures Gates(roster, name) <==> AgentByName(roster, name).Some? && AgentByName(roster, name).value.gating
  {
    if roster != [] && roster[0].name != name {
      var rest := roster[1..];
      GatesIff(rest, name);
      if Gates(roster, name) {
        var a :| 0 <= a < |roster| && roster[a].name == name && roster[a].gating
                 && forall b :: 0 <= b < a ==> roster[b].name != name;
        assert rest[a - 1] == roster[a] && forall b :: 0 <= b < a - 1 ==> rest[b] == roster[b + 1];
      }
      if Gates(rest, name) {
        var a :| 0 <= a < |rest| && rest[a].name == name && rest[a].gating
                 && forall b :: 0 <= b < a ==> rest[b].name != name;
        assert roster[a + 1] == rest[a] && forall b :: 1 <= b < a + 1 ==> roster[b] == rest[b - 1];
      }
    } else if roster != [] {
      assert roster[0].name == name;
    }
  }

  /** The effective verdict is the decisive one; there is one unless the agent gave none. */
  lemma {:induction false} EffectiveIsDecisive(env: Env, agent: string, scope: string) returns (i: nat)
    ensures
      var rs := Records(env.events, "verdict");
      EffectiveVerdict(env, agent, scope).None? <==> forall j: nat :: !About(rs, agent, scope, j)
    ensures
      var rs := Records(env.events, "verdict");
      EffectiveVerdict(env, agent, scope).Some? ==>
        && i < |rs| && EffectiveVerdict(env, agent, scope) == Some(rs[i]) && About(rs, agent, scope, i)
        && forall j :: Decisive(env, rs, agent, scope, j) <==> j == i
  {
    hide Records, VerdictsOf, LastAuto, Dispositioned, Disposed;
    var rs := Records(env.events, "verdict");
    i := NewestIsLast(rs, agent, scope);
    var c := CapturedIsLastAuto(rs, agent, scope);
    if VerdictsOf(rs, agent, scope) != [] && LastAuto(VerdictsOf(rs, agent, scope)).Some? {
      DisposedIff(env, rs[c]);
      if Sticks(env, rs, agent, scope, c) { i := c; }
      assert forall d :: NewestCaptured(rs, agent, scope, d) ==> d == c;
    }
  }

  lemma DispositionedIff(env: Env, agent: string, scope: string)
    ensures
      var rs := Records(env.events, "verdict");
      AgentVerdictDispositioned(env, agent, scope) <==>
      exists j: nat :: About(rs, agent, scope, j) && Disposed(env, rs[j])
  {
    hide Records, VerdictsOf, Dispositioned, Disposed;
    var rs := Records(env.events, "verdict");
    var all := VerdictsOf(rs, agent, scope);
    VerdictsOfAreVerdicts(rs, agent, scope);
    if AgentVerdictDispositioned(env, agent, scope) {
      var k :| 0 <= k < |all| && Dispositioned(env, all[k].id);
      assert all[k] in all;
      var j :| 0 <= j < |rs| && rs[j] == all[k];
      DisposedIff(env, rs[j]);
      assert About(rs, agent, scope, j);
    }
    if exists j: nat :: About(rs, agent, scope, j) && Disposed(env, rs[j]) {
      var j: nat :| About(rs, agent, scope, j) && Disposed(env, rs[j]);
      DisposedIff(env, rs[j]);
      assert rs[j] in all;
    }
  }

  /** For any agent: an item is satisfied exactly when a verdict decides, is not barred, and
      is accepted. */
  lemma {:induction false} VerdictInIff(env: Env, agent: string, scope: string, statuses: seq<string>, riskyOk: bool)
    ensures
      var rs := Records(env.events, "verdict");
      VerdictIn(env, agent, scope, statuses, riskyOk) <==>
      exists i :: 0 <= i < |rs| && Decisive(env, rs, agent, scope, i)
                  && !Barred(env, rs, agent, scope, i) && Accepted(env, rs, statuses, riskyOk, i)
  {
    hide Records, EffectiveVerdict, Decisive, Disposed, About, Gates, Dispositioned, AgentVerdictDispositioned;
    var rs := Records(env.events, "verdict");
    var i := EffectiveIsDecisive(env, agent, scope);
    DispositionedIff(env, agent, scope);
    GatesIff(env.spec.roster, agent);
    if EffectiveVerdict(env, agent, scope).Some? {
      DisposedIff(env, rs[i]);
      assert Decisive(env, rs, agent, scope, i);
      assert HasAutoVerdict(env) <==> exists j :: 0 <= j < |rs| && rs[j].auto;
    } else {
      NoneDecides(env, rs, agent, scope);
    }
  }

  lemma NoneDecides(env: Env, rs: seq<Record>, agent: string, scope: string)
    requires forall j: nat :: !About(rs, agent, scope, j)
    ensures forall j: nat :: !Decisive(env, rs, agent, scope, j)
  {
  }

  lemma {:induction false} LastAutoIsNewest(rs: seq<Record>)
    ensures LastAuto(rs).None? <==> forall i :: 0 <= i < |rs| ==> !rs[i].auto
    ensures LastAuto(rs).Some? ==> LastAuto(rs).value.auto && LastAuto(rs).value in rs
  {
    if rs != [] { LastAutoIsNewest(rs[..|rs| - 1]); }
  }

  lemma {:induction false} VerdictsOfAreVerdicts(rs: seq<Record>, agent: string, scope: string)
    ensures forall v :: v in VerdictsOf(rs, agent, scope) <==> v in rs && InScope(v, agent, scope)
  {
    if rs != [] {
      VerdictsOfAreVerdicts(rs[..|rs| - 1], agent, scope);
      assert rs == rs[..|rs| - 1] + [rs[|rs| - 1]];
    }
  }

  /** Without dispositions and with acceptable statuses that are not failing ones, only
      the newest verdict decides for a gating agent; and where capture is alive in the
      run, it must be a captured one. */
  lemma VerdictInByNewest(env: Env, agent: string, scope: string, statuses: seq<string>, riskyOk: bool)
    requires GatingAgent(env, agent)
    requires Records(env.events, "disposition") == []
    requires forall s :: s in statuses ==> !IsFailStatus(env, s)
    ensures
      var all := VerdictsOf(Records(env.events, "verdict"), agent, scope);
      VerdictIn(env, agent, scope, statuses, riskyOk) <==>
      && all != []
      && StrField(all[|all| - 1].data, "status") in statuses
      && (HasAutoVerdict(env) ==> all[|all| - 1].auto)
  {
    hide Records, VerdictsOf, LastAuto, InScope;
    var verdicts := Records(env.events, "verdict");
    var all := VerdictsOf(verdicts, agent, scope);
    LastAutoIsNewest(all);
    VerdictsOfAreVerdicts(verdicts, agent, scope);
    if LastAuto(all).Some? {
      var i :| 0 <= i < |verdicts| && verdicts[i] == LastAuto(all).value;
      assert verdicts[i].auto;
    }
  }

  lemma {:induction false} NewestVerdictGrows(a: seq<Record>, b: seq<Record>, agent: string, scope: string)
    requires a <= b
    ensures VerdictsOf(a, agent, scope) <= VerdictsOf(b, agent, scope)
    ensures
      var va, vb := VerdictsOf(a, agent, scope), VerdictsOf(b, agent, scope);
      va != vb ==> vb[|vb| - 1] in b[|a|..]
    decreases |b|
  {
    if |a| == |b| {
      assert a == b;
    } else {
      NewestVerdictGrows(a, b[..|b| - 1], agent, scope);
      assert b[|a|..] == b[..|b| - 1][|a|..] + [b[|b| - 1]];
    }
  }

  /** No number of hand-recorded verdicts, nor anything else short of an update or a
      disposition, turns an unmet gating verdict into a met one once capture is alive. */
  lemma {:induction false} ManualVerdictsNeverHelp(
    env: Env, more: seq<Event>, agent: string, scope: string, statuses: seq<string>, riskyOk: bool)
    requires GatingAgent(env, agent) && HasAutoVerdict(env)
    requires Records(env.events, "disposition") == []
    requires forall s :: s in statuses ==> !IsFailStatus(env, s)
    requires NoUpdates(more)
    requires forall i :: 0 <= i < |more| ==>
      more[i].kind != "disposition" && (more[i].kind == "verdict" ==> !more[i].auto)
    requires VerdictIn(env.(events := env.events + more), agent, scope, statuses, riskyOk)
    ensures VerdictIn(env, agent, scope, statuses, riskyOk)
  {
    hide Records, VerdictIn, VerdictsOf;
    var env' := env.(events := env.events + more);
    OtherKindsAddNothing(env.events, more, "disposition");
    AppendOnlyAdds(env.events, more, "verdict");
    var before, after := Records(env.events, "verdict"), Records(env'.events, "verdict");
    NewVerdictsAreManual(env.events, more);
    var i :| 0 <= i < |before| && before[i].auto;
    assert after[i] == before[i];
    VerdictInByNewest(env, agent, scope, statuses, riskyOk);
    VerdictInByNewest(env', agent, scope, statuses, riskyOk);
    NewestVerdictGrows(before, after, agent, scope);
  }

  lemma NewVerdictsAreManual(events: seq<Event>, more: seq<Event>)
    requires NoUpdates(more)
    requires forall i :: 0 <= i < |more| && more[i].kind == "verdict" ==> !more[i].auto
    ensures |Records(events, "verdict")| <= |Records(events + more, "verdict")|
    ensures forall v :: v in Records(events + more, "verdict")[|Records(events, "verdict")|..] ==> !v.auto
  {
    hide Records;
    AppendOnlyAdds(events, more, "verdict");
    var before, after := Records(events, "verdict"), Records(events + more, "verdict");
    forall v | v in after[|before|..]
      ensures !v.auto
    {
      var j :| |before| <= j < |after| && after[j] == v;
      assert (events + more)[v.order] == more[v.order - |events|];
    }
  }
}

/** The phases of a family in order, and the look-ups of the specification. */
module PhaseOrder {
  import opened Values
  import opened WorkflowSpec

  function Participation(p: Phase, family: string): string {
    if family in p.participation then p.participation[family] else ""
  }

  function Participating(phases: seq<Phase>, family: string): seq<Phase> {
    if phases == [] then []
    else
      (if Participation(phases[0], family) != "none" then [phases[0]] else [])
      + Participating(phases[1..], family)
  }

  function InsertByOrder(p: Phase, sorted: seq<Phase>): seq<Phase> {
    if sorted == [] || p.order < sorted[0].order then [p] + sorted
    else [sorted[0]] + InsertByOrder(p, sorted[1..])
  }

  function SortByOrder(phases: seq<Phase>): seq<Phase> {
    if phases == [] then [] else InsertByOrder(phases[0], SortByOrder(phases[1..]))
  }

  /** The ordered phases a family participates in. */
  function PhasesFor(s: Spec, family: string): seq<Phase> {
    SortByOrder(Participating(s.phases, family))
  }

  function Ids(phases: seq<Phase>): (ids: seq<string>)
    ensures |ids| == |phases|
    ensures forall i :: 0 <= i < |ids| ==> ids[i] == phases[i].id
  {
    if phases == [] then [] else [phases[0].id] + Ids(phases[1..])
  }

  /** The identities of a family's phases, in order. */
  function Order(s: Spec, family: string): seq<string> {
    Ids(PhasesFor(s, family))
  }

  /** The identity after the first listed `cur` that has a successor, or "". */
  function NextIn(order: seq<string>, cur: string): string {
    if |order| < 2 then ""
    else if order[0] == cur then order[1]
    else NextIn(order[1..], cur)
  }

  function NextPhase(s: Spec, family: string, cur: string): string {
    NextIn(Order(s, family), cur)
  }

  function PhaseById(s: Spec, id: string): Option<Phase> {
    FindPhase(s.phases, id)
  }

  function FindPhase(phases: seq<Phase>, id: string): (p: Option<Phase>)
    ensures p.Some? ==> p.value in phases && p.value.id == id
    ensures p.None? ==> forall q :: q in phases ==> q.id != id
  {
    if phases == [] then None
    else if phases[0].id == id then Some(phases[0])
    else FindPhase(phases[1..], id)
  }

  predicate AppliesTo(c: ContractItem, phase: string, family: string, entry: bool) {
    c.phase == phase && (c.stage == "entry") == entry && (c.families == [] || family in c.families)
  }

  /** The contract items of one stage applying to (phase, family). */
  function ContractsForStage(items: seq<ContractItem>, phase: string, family: string, entry: bool): seq<ContractItem> {
    if items == [] then []
    else
      (if AppliesTo(items[0], phase, family, entry) then [items[0]] else [])
      + ContractsForStage(items[1..], phase, family, entry)
  }

  function AgentByName(roster: seq<Agent>, name: string): Option<Agent> {
    if roster == [] then None
    else if roster[0].name == name then Some(roster[0])
    else AgentByName(roster[1..], name)
  }

  function RecordKindByName(kinds: seq<RecordKind>, kind: string): Option<RecordKind> {
    if kinds == [] then None
    else if kinds[0].kind == kind then Some(kinds[0])
    else RecordKindByName(kinds[1..], kind)
  }

  // ---------------------------------------------------------------------------

  ghost predicate Ascending(phases: seq<Phase>) {
    forall i, j :: 0 <= i < j < |phases| ==> phases[i].order < phases[j].order
  }

  ghost predicate DistinctOrders(phases: seq<Phase>) {
    forall i, j :: 0 <= i < j < |phases| ==> phases[i].order != phases[j].order
  }

  lemma InsertContains(p: Phase, sorted: seq<Phase>)
    ensures forall q :: q in InsertByOrder(p, sorted) <==> q == p || q in sorted
  {
  }

  lemma {:induction false} InsertKeepsAscending(p: Phase, sorted: seq<Phase>)
    requires Ascending(sorted) && forall i :: 0 <= i < |sorted| ==> sorted[i].order != p.order
    ensures Ascending(InsertByOrder(p, sorted))
  {
    if sorted != [] && p.order >= sorted[0].order {
      var tail := InsertByOrder(p, sorted[1..]);
      InsertKeepsAscending(p, sorted[1..]);
      InsertContains(p, sorted[1..]);
      forall j | 0 <= j < |tail|
        ensures sorted[0].order < tail[j].order
      {
        assert tail[j] in tail;
      }
    }
  }

  lemma {:induction false} SortIsAscending(phases: seq<Phase>)
    requires DistinctOrders(phases)
    ensures Ascending(SortByOrder(phases))
    ensures forall q :: q in SortByOrder(phases) <==> q in phases
  {
    if phases != [] {
      SortIsAscending(phases[1..]);
      var sorted := SortByOrder(phases[1..]);
      assert forall i :: 0 <= i < |sorted| ==> sorted[i] in sorted;
      InsertKeepsAscending(phases[0], sorted);
      InsertContains(phases[0], sorted);
    }
  }

  lemma {:induction false} ParticipatingIsFilter(phases: seq<Phase>, family: string)
    ensures forall q :: q in Participating(phases, family) <==>
              q in phases && Participation(q, family) != "none"
  {
    hide Participation;
    if phases != [] {
      ParticipatingIsFilter(phases[1..], family);
      assert phases == [phases[0]] + phases[1..];
    }
  }

  lemma {:induction false} ParticipatingStayDistinct(phases: seq<Phase>, family: string)
    requires DistinctOrders(phases)
    ensures DistinctOrders(Participating(phases, family))
  {
    hide Participation;
    if phases != [] {
      ParticipatingStayDistinct(phases[1..], family);
      ParticipatingIsFilter(phases[1..], family);
      var rest := Participating(phases[1..], family);
      forall j | 0 <= j < |rest|
        ensures rest[j].order != phases[0].order
      {
        assert rest[j] in phases[1..];
      }
    }
  }

  /** An accepted specification orders each family's phases strictly, names none twice
      and lists exactly the phases the family takes part in. */
  lemma PhasesForIsOrdered(s: Spec, family: string)
    requires PhasesOk(s)
    ensures Ascending(PhasesFor(s, family))
    ensures forall q :: q in PhasesFor(s, family) <==>
              q in s.phases && !(family in q.participation && q.participation[family] == "none")
    ensures DistinctIds(Order(s, family))
  {
    ParticipatingIsFilter(s.phases, family);
    ParticipatingStayDistinct(s.phases, family);
    SortIsAscending(Participating(s.phases, family));
    var ph := PhasesFor(s, family);
    forall i, j | 0 <= i < j < |ph|
      ensures ph[i].id != ph[j].id
    {
      assert ph[i] in s.phases && ph[j] in s.phases;
    }
  }

  ghost predicate DistinctIds(order: seq<string>) {
    forall i, j :: 0 <= i < j < |order| ==> order[i] != order[j]
  }

  lemma OrderIsDistinct(s: Spec, family: string)
    requires PhasesOk(s)
    ensures DistinctIds(Order(s, family))
  {
    hide PhasesFor;
    PhasesForIsOrdered(s, family);
  }

  /** The next phase is the successor in the family's order, "" after the last. */
  lemma {:induction false} NextIsSuccessor(order: seq<string>, i: nat)
    requires DistinctIds(order) && i < |order|
    ensures NextIn(order, order[i]) == if i + 1 < |order| then order[i + 1] else ""
  {
    if i > 0 {
      NextIsSuccessor(order[1..], i - 1);
      assert order[1..][i - 1] == order[i] != order[0];
    }
  }

  lemma {:induction false} NextOfStranger(order: seq<string>, cur: string)
    requires cur !in order
    ensures NextIn(order, cur) == ""
  {
    if |order| >= 2 { NextOfStranger(order[1..], cur); }
  }
}

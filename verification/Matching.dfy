/** What an evaluation reads, and how records are matched against filters. */
module Matching {
  import opened Values
  import opened Events
  import opened UpdateFolding
  import opened WorkflowSpec

  datatype Config = Config(ux: bool, thresholds: Fields, flags: Fields)

  /** What the evaluator cannot see from the log: how a value prints, whether an artifact
      file is authored (path, template) and whether it names every required identity. */
  datatype World = World(
    show: Value -> string,
    authored: (string, string) -> bool,
    mentionsAll: (string, seq<string>) -> bool)

  datatype Env = Env(
    spec: Spec, config: Config, family: string, intent: string, events: seq<Event>, world: World)

  function ConfigFlag(c: Config, key: string): Value {
    if key == "ux" then Bool(c.ux)
    else if key == "thresholds" then Bool(c.thresholds != map[])
    else if key in c.flags then c.flags[key]
    else Null
  }

  /** Scalars compare by number, then by truth value, then by how they print. */
  predicate ValueEq(show: Value -> string, got: Value, want: Value) {
    if got.Num? && want.Num? then got.n == want.n
    else if got.Bool? && want.Bool? then got.b == want.b
    else show(got) == show(want)
  }

  /** A list in a filter means "one of". */
  predicate MatchesFilter(show: Value -> string, data: Fields, filter: Fields) {
    forall k :: k in filter ==>
      && k in data
      && if filter[k].List?
         then exists i :: 0 <= i < |filter[k].items| && ValueEq(show, data[k], filter[k].items[i])
         else ValueEq(show, data[k], filter[k])
  }

  function Matched(show: Value -> string, rs: seq<Record>, filter: Fields): seq<Record> {
    if rs == [] then []
    else
      var init, last := rs[..|rs| - 1], rs[|rs| - 1];
      Matched(show, init, filter) + if MatchesFilter(show, last.data, filter) then [last] else []
  }

  function MatchRecords(env: Env, kind: string, filter: Fields): seq<Record> {
    Matched(env.world.show, Records(env.events, kind), filter)
  }

  /** The domain key a record goes by, its event identity failing that. */
  function RecordIdentity(r: Record): string {
    if StrField(r.data, "tid") != "" then StrField(r.data, "tid")
    else if StrField(r.data, "rid") != "" then StrField(r.data, "rid")
    else if StrField(r.data, "ac") != "" then StrField(r.data, "ac")
    else if StrField(r.data, "id") != "" then StrField(r.data, "id")
    else r.id
  }

  function ItemIds(items: seq<Value>): seq<string> {
    if items == [] then []
    else
      (match items[0]
       case Str(s) => [s]
       case Obj(m) => if StrField(m, "id") != "" then [StrField(m, "id")] else []
       case _ => [])
      + ItemIds(items[1..])
  }

  /** The identities a per-each predicate visits for one record. */
  function ElementIds(r: Record, each: string): seq<string> {
    if each == "" then [RecordIdentity(r)] else ItemIds(ListField(r.data, each))
  }

  function AllElementIds(rs: seq<Record>, each: string): seq<string> {
    if rs == [] then []
    else AllElementIds(rs[..|rs| - 1], each) + ElementIds(rs[|rs| - 1], each)
  }

  function CountElements(rs: seq<Record>, field: string): nat {
    if rs == [] then 0
    else CountElements(rs[..|rs| - 1], field) + |ListField(rs[|rs| - 1].data, field)|
  }

  predicate AnyHas(rs: seq<Record>, key: string, s: string) {
    exists i :: 0 <= i < |rs| && StrField(rs[i].data, key) == s
  }

  // ---------------------------------------------------------------------------

  lemma {:induction false} MatchedPrefix(show: Value -> string, a: seq<Record>, b: seq<Record>, filter: Fields)
    requires a <= b
    ensures Matched(show, a, filter) <= Matched(show, b, filter)
    decreases |b|
  {
    hide MatchesFilter;
    if |a| == |b| {
      assert a == b;
    } else {
      MatchedPrefix(show, a, b[..|b| - 1], filter);
    }
  }

  lemma {:induction false} CountPrefix(a: seq<Record>, b: seq<Record>, field: string)
    requires a <= b
    ensures CountElements(a, field) <= CountElements(b, field)
    decreases |b|
  {
    if |a| == |b| {
      assert a == b;
    } else {
      CountPrefix(a, b[..|b| - 1], field);
    }
  }

  lemma AnyHasPrefix(a: seq<Record>, b: seq<Record>, key: string, s: string)
    requires a <= b && AnyHas(a, key, s)
    ensures AnyHas(b, key, s)
  {
    var i :| 0 <= i < |a| && StrField(a[i].data, key) == s;
    assert b[i] == a[i];
  }
}

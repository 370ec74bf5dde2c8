/** The loosely typed values that event data, contract parameters and filters
    are made of: what a JSON or YAML decoder yields for Go's `any`. */
module Values {

  datatype Option<+T> = None | Some(value: T)

  function Get<K, V>(m: map<K, V>, k: K): Option<V> {
    if k in m then Some(m[k]) else None
  }

  datatype Value =
    | Null
    | Bool(b: bool)
    | Num(n: real)
    | Str(s: string)
    | List(items: seq<Value>)
    | Obj(fields: map<string, Value>)

  type Fields = map<string, Value>

  /** `s, _ := m[key].(string)`: the empty string unless the field holds one. */
  function StrField(m: Fields, key: string): string {
    if key in m && m[key].Str? then m[key].s else ""
  }

  /** `b, _ := m[key].(bool)`. */
  function BoolField(m: Fields, key: string): bool {
    key in m && m[key].Bool? && m[key].b
  }

  /** `l, _ := m[key].([]any)`. */
  function ListField(m: Fields, key: string): seq<Value> {
    if key in m && m[key].List? then m[key].items else []
  }

  /** `o, _ := m[key].(map[string]any)`. */
  function ObjField(m: Fields, key: string): Fields {
    if key in m && m[key].Obj? then m[key].fields else map[]
  }

  /** Go's conversion of a float to an int: truncation toward zero. */
  function Truncate(x: real): int {
    if x >= 0.0 then x.Floor else -((-x).Floor)
  }

  function IntField(m: Fields, key: string, default: int): int {
    if key in m && m[key].Num? then Truncate(m[key].n) else default
  }

  /** A text other than the empty one, and a truth, are read off a field exactly when it holds
      them. */
  lemma FieldsAre(m: Fields, key: string, s: string)
    ensures s != "" ==> (StrField(m, key) == s <==> key in m && m[key] == Str(s))
    ensures BoolField(m, key) <==> key in m && m[key] == Bool(true)
    ensures forall v :: v in ListField(m, key) <==> key in m && m[key].List? && v in m[key].items
    ensures forall k :: k in ObjField(m, key) <==> key in m && m[key].Obj? && k in m[key].fields
  {
  }

  /** `n` is `x` without its fraction. */
  predicate Whole(x: real, n: int) {
    if x >= 0.0 then n as real <= x < (n + 1) as real else (n - 1) as real < x <= n as real
  }

  /** A number is read without its fraction; what is no number reads as the default. */
  lemma IntFieldIs(m: Fields, key: string, default: int)
    ensures if key in m && m[key].Num? then Whole(m[key].n, IntField(m, key, default))
            else IntField(m, key, default) == default
  {
  }

  /** The strings of a list, everything else skipped. */
  function StrList(v: seq<Value>): seq<string> {
    if v == [] then []
    else (if v[0].Str? then [v[0].s] else []) + StrList(v[1..])
  }

  lemma {:induction false} StrListIff(v: seq<Value>, s: string)
    ensures s in StrList(v) <==> Str(s) in v
  {
    if v != [] {
      StrListIff(v[1..], s);
      assert v == [v[0]] + v[1..];
    }
  }

  /** Positions in ascending order. */
  ghost predicate Rising(at: seq<nat>) {
    forall k, l :: 0 <= k < l < |at| ==> at[k] < at[l]
  }

  /** Go's order on strings. */
  predicate Less(a: string, b: string) {
    b != "" && (a == "" || a[0] < b[0] || (a[0] == b[0] && Less(a[1..], b[1..])))
  }

  ghost function Children(v: Value): (children: set<Value>)
    ensures forall c :: c in children ==> c < v
  {
    match v
    case List(items) => set i | 0 <= i < |items| :: items[i]
    case Obj(fields) => set k | k in fields :: fields[k]
    case _ => {}
  }

  /** Nesting depth; an empty object is a leaf. It bounds the recursion of every
      function that walks nested contract items. */
  ghost function Height(v: Value): nat
    decreases v, 1
  {
    if Children(v) == {} then 0 else 1 + MaxHeight(v, Children(v))
  }

  ghost function MaxHeight(parent: Value, vs: set<Value>): (h: nat)
    requires forall v :: v in vs ==> v < parent
    ensures forall v :: v in vs ==> Height(v) <= h
    decreases parent, 0, |vs|
  {
    if vs == {} then 0
    else
      var v :| v in vs;
      var rest := MaxHeight(parent, vs - {v});
      assert forall w :: w in vs ==> w == v || w in vs - {v};
      if Height(v) > rest then Height(v) else rest
  }

  lemma HeightOfField(m: Fields, key: string)
    requires key in m
    ensures Height(m[key]) < Height(Obj(m))
  {
    assert m[key] in Children(Obj(m));
  }

  lemma HeightOfItem(items: seq<Value>, i: nat)
    requires i < |items|
    ensures Height(items[i]) < Height(List(items))
  {
    assert items[i] in Children(List(items));
  }

  // ---------------------------------------------------------------------------
  // String order
  // ---------------------------------------------------------------------------

  lemma {:induction false} LessIsTotal(a: string, b: string)
    ensures Less(a, b) || a == b || Less(b, a)
    ensures !(Less(a, b) && Less(b, a)) && !Less(a, a)
  {
    if a != "" && b != "" {
      LessIsTotal(a[1..], b[1..]);
      LessIsTotalTail(a);
      assert a == [a[0]] + a[1..] && b == [b[0]] + b[1..];
    } else if a != "" {
      LessIsTotalTail(a);
    }
  }

  lemma {:induction false} LessIsTotalTail(a: string)
    ensures !Less(a, a)
  {
    if a != "" { LessIsTotalTail(a[1..]); }
  }

  lemma {:induction false} LessIsTransitive(a: string, b: string, c: string)
    requires Less(a, b) && Less(b, c)
    ensures Less(a, c)
  {
    if a != "" && a[0] == b[0] && b[0] == c[0] { LessIsTransitive(a[1..], b[1..], c[1..]); }
  }
}

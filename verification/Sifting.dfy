/** Lists sifted by a condition: what is kept, in its old order, with nothing left out. */
module Sifting {
  import opened Values

  /** `out` lists what is kept of `xs`, from positions `at`. */
  ghost predicate SiftedAt<T(!new)>(xs: seq<T>, keep: T -> bool, out: seq<T>, at: seq<nat>) {
    && |at| == |out| && Rising(at)
    && (forall k :: 0 <= k < |at| ==> at[k] < |xs| && keep(xs[at[k]]) && out[k] == xs[at[k]])
    && forall i: nat :: i < |xs| && keep(xs[i]) ==> i in at
  }

  ghost predicate Sifted<T(!new)>(xs: seq<T>, keep: T -> bool, out: seq<T>) {
    exists at: seq<nat> :: SiftedAt(xs, keep, out, at)
  }

  lemma NothingSifted<T(!new)>(keep: T -> bool)
    ensures Sifted([], keep, [])
  {
    assert SiftedAt([], keep, [], []);
  }

  lemma KeptOneMore<T(!new)>(xs: seq<T>, last: T, keep: T -> bool, out: seq<T>, at: seq<nat>)
    requires SiftedAt(xs, keep, out, at) && keep(last)
    ensures SiftedAt(xs + [last], keep, out + [last], at + [|xs|])
  {
    var all, more := xs + [last], at + [|xs|];
    forall i: nat | i < |all| && keep(all[i])
      ensures i in more
    {
      if i < |xs| { assert all[i] == xs[i] && i in at; } else { assert more[|at|] == i; }
    }
  }

  lemma DroppedOneMore<T(!new)>(xs: seq<T>, last: T, keep: T -> bool, out: seq<T>, at: seq<nat>)
    requires SiftedAt(xs, keep, out, at) && !keep(last)
    ensures SiftedAt(xs + [last], keep, out, at)
  {
    var all := xs + [last];
    forall i: nat | i < |all| && keep(all[i])
      ensures i in at
    {
      assert all[i] == xs[i];
    }
  }

  lemma SiftOneMore<T(!new)>(xs: seq<T>, keep: T -> bool, out: seq<T>)
    requires xs != [] && Sifted(xs[..|xs| - 1], keep, out)
    ensures Sifted(xs, keep, if keep(xs[|xs| - 1]) then out + [xs[|xs| - 1]] else out)
  {
    hide SiftedAt;
    var init, last := xs[..|xs| - 1], xs[|xs| - 1];
    var at: seq<nat> :| SiftedAt(init, keep, out, at);
    assert xs == init + [last];
    if keep(last) { KeptOneMore(init, last, keep, out, at); } else { DroppedOneMore(init, last, keep, out, at); }
  }

  /** A list is sifted in one way only. */
  lemma {:induction false} SiftedIsUnique<T(!new)>(xs: seq<T>, keep: T -> bool, a: seq<T>, b: seq<T>)
    requires Sifted(xs, keep, a) && Sifted(xs, keep, b)
    ensures a == b
  {
    var at: seq<nat> :| SiftedAt(xs, keep, a, at);
    var bt: seq<nat> :| SiftedAt(xs, keep, b, bt);
    RisingIsUnique(at, bt);
  }

  lemma LastIsLargest(a: seq<nat>)
    requires Rising(a) && a != []
    ensures
      var init, last := a[..|a| - 1], a[|a| - 1];
      Rising(init) && forall i :: (i in a ==> i <= last) && (i in init <==> i in a && i != last)
  {
    assert a == a[..|a| - 1] + [a[|a| - 1]];
  }

  lemma NothingInEmpty(a: seq<nat>, b: seq<nat>)
    requires a == [] || b == []
    ensures (forall i :: i in a <==> i in b) ==> a == b
  {
    assert a != [] ==> a[0] in a;
    assert b != [] ==> b[0] in b;
  }

  lemma {:induction false} RisingIsUnique(a: seq<nat>, b: seq<nat>)
    requires Rising(a) && Rising(b) && forall i :: i in a <==> i in b
    ensures a == b
    decreases |a|
  {
    if a == [] || b == [] {
      NothingInEmpty(a, b);
    } else {
      hide Rising;
      LastIsLargest(a);
      LastIsLargest(b);
      assert a[|a| - 1] in b && b[|b| - 1] in a;
      RisingIsUnique(a[..|a| - 1], b[..|b| - 1]);
      assert a == a[..|a| - 1] + [a[|a| - 1]] && b == b[..|b| - 1] + [b[|b| - 1]];
    }
  }
}

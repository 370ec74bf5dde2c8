/** A log file as bytes, and as the lines a scanner yields of it: what bytes written behind a
    newline, a torn tail, and the newline that ends it add to the lines. The ledger and the
    chain check rest on nothing else. */
module Lines {

  newtype byte = x: int | 0 <= x < 256

  type Bytes = seq<byte>

  const NL: byte := 10
  const CR: byte := 13

  function IndexOf(f: Bytes, b: byte): (n: nat)
    ensures n <= |f|
    ensures forall i :: 0 <= i < n ==> f[i] != b
    ensures n < |f| ==> f[n] == b
  {
    if f == [] || f[0] == b then 0 else 1 + IndexOf(f[1..], b)
  }

  /** The scanner drops one carriage return at the end of a line. */
  function DropCR(line: Bytes): Bytes {
    if line != [] && line[|line| - 1] == CR then line[..|line| - 1] else line
  }

  /** The lines of a file; what follows the last newline is a line if it is not empty. */
  function Split(f: Bytes): seq<Bytes> {
    if f == [] then []
    else
      var n := IndexOf(f, NL);
      [DropCR(f[..n])] + if n < |f| then Split(f[n + 1..]) else []
  }

  predicate Terminated(f: Bytes) {
    f == [] || f[|f| - 1] == NL
  }

  /** The last complete line of a file that ends with a newline. */
  function LastLine(f: Bytes): Bytes
    requires f != [] && Terminated(f)
  {
    AfterLastNewline(f[..|f| - 1])
  }

  function AfterLastNewline(f: Bytes): Bytes {
    if f == [] || f[|f| - 1] == NL then [] else AfterLastNewline(f[..|f| - 1]) + [f[|f| - 1]]
  }

  // ---------------------------------------------------------------------------

  lemma SplitAt(f: Bytes, n: nat)
    requires n < |f| && f[n] == NL && forall i :: 0 <= i < n ==> f[i] != NL
    ensures Split(f) == [DropCR(f[..n])] + Split(f[n + 1..])
  {
    assert IndexOf(f, NL) == n;
  }

  lemma SlicesOfConcat(f: Bytes, g: Bytes, n: nat)
    requires n < |f|
    ensures (f + g)[..n] == f[..n] && (f + g)[n + 1..] == f[n + 1..] + g && (f + g)[n] == f[n]
  {
  }

  lemma Associate(a: Bytes, b: seq<Bytes>, c: seq<Bytes>)
    ensures [a] + (b + c) == ([a] + b) + c
  {
  }

  /** Appending after a newline only appends lines. */
  lemma {:induction false} SplitConcat(f: Bytes, g: Bytes)
    requires Terminated(f)
    ensures Split(f + g) == Split(f) + Split(g)
    decreases |f|
  {
    if f == [] {
      assert f + g == g;
    } else {
      hide Split, DropCR, IndexOf;
      var a, rest := FirstLine(f, g);
      SplitConcat(rest, g);
      Associate(a, Split(rest), Split(g));
    }
  }

  lemma {:induction false} FirstLine(f: Bytes, g: Bytes) returns (a: Bytes, rest: Bytes)
    requires f != [] && Terminated(f)
    ensures Terminated(rest) && |rest| < |f|
    ensures Split(f) == [a] + Split(rest) && Split(f + g) == [a] + Split(rest + g)
  {
    hide Split, DropCR;
    var n := IndexOf(f, NL);
    a, rest := DropCR(f[..n]), f[n + 1..];
    SplitConcatAt(f, g, n);
  }

  lemma SplitConcatAt(f: Bytes, g: Bytes, n: nat)
    requires n < |f| && f[n] == NL && forall i :: 0 <= i < n ==> f[i] != NL
    ensures Split(f) == [DropCR(f[..n])] + Split(f[n + 1..])
    ensures Split(f + g) == [DropCR(f[..n])] + Split(f[n + 1..] + g)
  {
    hide Split, DropCR;
    SlicesOfConcat(f, g, n);
    SplitAt(f, n);
    SplitAt(f + g, n);
  }

  lemma SplitOneLine(g: Bytes)
    requires g != [] && NL !in g && CR !in g
    ensures Split(g) == [g] && Split(g + [NL]) == [g]
  {
    var f := g + [NL];
    assert forall i :: 0 <= i < |g| ==> f[i] == g[i];
    SplitAt(f, |g|);
    assert f[..|g|] == g && f[|g| + 1..] == [];
    assert IndexOf(g, NL) == |g| && g[..|g|] == g;
  }

  /** Ending a torn line changes no line. */
  lemma {:induction false} SplitHealed(f: Bytes)
    requires !Terminated(f)
    ensures Split(f + [NL]) == Split(f)
    decreases |f|
  {
    hide Split, DropCR, IndexOf;
    var n := IndexOf(f, NL);
    if n < |f| {
      SplitConcatAt(f, [NL], n);
      SplitHealed(f[n + 1..]);
    } else {
      HealedLine(f);
    }
  }

  lemma {:induction false} HealedLine(f: Bytes)
    requires f != [] && forall i :: 0 <= i < |f| ==> f[i] != NL
    ensures Split(f + [NL]) == Split(f)
  {
    var healed := f + [NL];
    assert forall i :: 0 <= i < |f| ==> healed[i] == f[i];
    SplitAt(healed, |f|);
    assert healed[..|f|] == f && healed[|f| + 1..] == [];
    assert IndexOf(f, NL) == |f| && f[..|f|] == f;
  }

  lemma {:induction false} LastLineParts(f: Bytes)
    ensures NL !in AfterLastNewline(f)
    ensures
      var n := |f| - |AfterLastNewline(f)|;
      n >= 0 && f == f[..n] + AfterLastNewline(f) && Terminated(f[..n])
  {
    if f != [] && f[|f| - 1] != NL {
      var init := f[..|f| - 1];
      LastLineParts(init);
      var n := |init| - |AfterLastNewline(init)|;
    } else {
      assert f[..|f|] == f;
    }
  }

  /** The line the next append chains to is the last one the scanner yields. */
  lemma LastLineIsLast(f: Bytes)
    requires f != [] && Terminated(f) && CR !in f && LastLine(f) != []
    ensures Split(f) != [] && Split(f)[|Split(f)| - 1] == LastLine(f)
  {
    hide Split, AfterLastNewline;
    var body := f[..|f| - 1];
    LastLineParts(body);
    var line := LastLine(f);
    var n := |body| - |line|;
    assert f == body[..n] + (line + [NL]);
    assert forall i :: 0 <= i < |line| ==> line[i] == f[n + i];
    assert CR !in line;
    SplitConcat(body[..n], line + [NL]);
    SplitOneLine(line);
  }
}

/** Command identity for red-to-green pairing of test runs. */
module CommandIdentity {

  /** Go's unicode.IsSpace. */
  predicate IsSpace(c: char) {
    var u := c as int;
    || 0x09 <= u <= 0x0D || u == 0x20 || u == 0x85 || u == 0xA0 || u == 0x1680
    || 0x2000 <= u <= 0x200A || u == 0x2028 || u == 0x2029 || u == 0x202F || u == 0x205F || u == 0x3000
  }

  /** The regular expression class `\s`: ASCII only, without the vertical tab. */
  predicate IsAsciiSpace(c: char) {
    c == '\t' || c == '\n' || c as int == 0x0C || c == '\r' || c == ' '
  }

  /** How many leading characters satisfy `p`. */
  function Span(s: string, p: char -> bool): (n: nat)
    ensures n <= |s|
    ensures forall i :: 0 <= i < n ==> p(s[i])
    ensures n < |s| ==> !p(s[n])
  {
    if s == "" || !p(s[0]) then 0 else 1 + Span(s[1..], p)
  }

  function TrimLeft(s: string): string {
    s[Span(s, IsSpace)..]
  }

  function TrimRight(s: string): string {
    if s != "" && IsSpace(s[|s| - 1]) then TrimRight(s[..|s| - 1]) else s
  }

  function TrimSpace(s: string): string {
    TrimRight(TrimLeft(s))
  }

  predicate IsToken(t: string) {
    t != "" && forall i :: 0 <= i < |t| ==> !IsSpace(t[i])
  }

  /** strings.Fields: the maximal runs of non-space characters. */
  function Words(s: string): (tokens: seq<string>)
    ensures forall i :: 0 <= i < |tokens| ==> IsToken(tokens[i])
  {
    if s == "" then []
    else if IsSpace(s[0]) then Words(s[1..])
    else
      var n := Span(s, c => !IsSpace(c));
      [s[..n]] + Words(s[n..])
  }

  function Join(tokens: seq<string>): string {
    if tokens == [] then ""
    else if |tokens| == 1 then tokens[0]
    else tokens[0] + " " + Join(tokens[1..])
  }

  /** An environment assignment in front of a command. */
  predicate IsAssignment(token: string) {
    '=' in token && token[0] != '='
  }

  function AfterAssignments(tokens: seq<string>): seq<string> {
    if tokens != [] && IsAssignment(tokens[0]) then AfterAssignments(tokens[1..]) else tokens
  }

  /** Strips leading environment assignments. */
  method Head(cmd: string) returns (head: string)
    ensures head == Join(AfterAssignments(Words(cmd)))
  {
    var fields := Words(cmd);
    var i := 0;
    while i < |fields| && IsAssignment(fields[i])
      invariant 0 <= i <= |fields|
      invariant AfterAssignments(fields) == AfterAssignments(fields[i..])
    {
      i := i + 1;
    }
    head := Join(fields[i..]);
  }

  /** The directory token at the start of `s`, in the two ways the pattern admits. */
  function QuotedLength(s: string): nat {
    if s == "" || (s[0] != '"' && s[0] != '\'') then 0
    else
      var n := Span(s[1..], c => c != s[0]);
      if n + 1 < |s| then n + 2 else 0
  }

  function BareLength(s: string): nat {
    Span(s, c => !IsAsciiSpace(c) && c != '&' && c != '|' && c != ';')
  }

  /** What follows `n` characters of directory when it is `&&` and a one-line command. */
  function AfterAnd(s: string, n: nat): string
    requires n <= |s|
  {
    if n == 0 then ""
    else
      var t := s[n..][Span(s[n..], IsAsciiSpace)..];
      if |t| < 2 || t[..2] != "&&" then ""
      else
        var rest := t[2..][Span(t[2..], IsAsciiSpace)..];
        if '\n' in rest then "" else rest
  }

  /** Strips a single leading `cd <dir> &&`. */
  function Effective(cmd: string): string {
    var trimmed := TrimSpace(cmd);
    if |trimmed| < 3 || trimmed[..2] != "cd" || !IsAsciiSpace(trimmed[2]) then trimmed
    else
      var s := trimmed[2..][Span(trimmed[2..], IsAsciiSpace)..];
      var quoted := if QuotedLength(s) <= |s| then AfterAnd(s, QuotedLength(s)) else "";
      if quoted != "" then TrimSpace(quoted)
      else if AfterAnd(s, BareLength(s)) != "" then TrimSpace(AfterAnd(s, BareLength(s)))
      else trimmed
  }

  /** The normalised command, as a list of tokens. */
  function Tokens(cmd: string): (tokens: seq<string>) {
    Words(Join(AfterAssignments(Words(Effective(cmd)))))
  }

  predicate OnePrefixesOther(a: seq<string>, b: seq<string>) {
    a != [] && b != [] && (a <= b || b <= a)
  }

  method PrefixEither(a: seq<string>, b: seq<string>) returns (either: bool)
    ensures either == OnePrefixesOther(a, b)
  {
    var n := |a|;
    if |b| < n {
      n := |b|;
    }
    if n < 1 {
      return false;
    }
    for i := 0 to n
      invariant a[..i] == b[..i]
    {
      if a[i] != b[i] {
        assert a[i] == a[..i + 1][i] && b[i] == b[..i + 1][i];
        return false;
      }
    }
    assert a == a[..n] || b == b[..n];
    return true;
  }

  datatype Pair = PairNone | PairWeak | PairStrict

  function Classify(red: string, green: string): Pair {
    var r, g := Tokens(red), Tokens(green);
    if r == [] || g == [] then PairNone
    else if OnePrefixesOther(r, g) then PairStrict
    else if r[0] == g[0] then PairWeak
    else PairNone
  }

  // ---------------------------------------------------------------------------

  lemma {:induction false} WordsOfJoin(tokens: seq<string>)
    requires forall i :: 0 <= i < |tokens| ==> IsToken(tokens[i])
    ensures Words(Join(tokens)) == tokens
  {
    if tokens != [] {
      var t, rest := tokens[0], if |tokens| == 1 then "" else " " + Join(tokens[1..]);
      WordsOfJoin(tokens[1..]);
      FirstWord(t, rest);
      hide IsToken, Words;
      assert Join(tokens) == t + rest;
      WordsAfterSpace(Join(tokens[1..]));
      assert tokens == [t] + tokens[1..];
    }
  }

  lemma WordsAfterSpace(s: string)
    ensures Words(" " + s) == Words(s) && Words("") == []
  {
    assert (" " + s)[1..] == s;
  }

  lemma FirstWord(t: string, rest: string)
    requires IsToken(t) && (rest == "" || IsSpace(rest[0]))
    ensures Words(t + rest) == [t] + Words(rest)
  {
    SpanOfToken(t, rest);
    assert (t + rest)[..|t|] == t && (t + rest)[|t|..] == rest;
  }

  lemma {:induction false} SpanOfToken(t: string, rest: string)
    requires IsToken(t) && (rest == "" || IsSpace(rest[0]))
    ensures Span(t + rest, c => !IsSpace(c)) == |t|
  {
    if |t| > 1 {
      assert (t + rest)[1..] == t[1..] + rest;
      SpanOfToken(t[1..], rest);
    } else {
      assert (t + rest)[1..] == rest;
    }
  }

  lemma AfterAssignmentsAreTokens(tokens: seq<string>)
    requires forall i :: 0 <= i < |tokens| ==> IsToken(tokens[i])
    ensures forall i :: 0 <= i < |AfterAssignments(tokens)| ==> IsToken(AfterAssignments(tokens)[i])
  {
  }

  /** Joining the head and splitting it again loses nothing: normalising keeps exactly
      the tokens after the environment assignments. */
  lemma TokensAreHeadFields(cmd: string)
    ensures Tokens(cmd) == AfterAssignments(Words(Effective(cmd)))
  {
    AfterAssignmentsAreTokens(Words(Effective(cmd)));
    WordsOfJoin(AfterAssignments(Words(Effective(cmd))));
  }

  lemma ClassifyIsSymmetric(a: string, b: string)
    ensures Classify(a, b) == Classify(b, a)
  {
  }

  /** A pair counts as evidence exactly when both commands are non-empty after
      normalisation and start with the same token. */
  lemma PairsByRunner(red: string, green: string)
    ensures Classify(red, green) != PairNone <==>
            Tokens(red) != [] && Tokens(green) != [] && Tokens(red)[0] == Tokens(green)[0]
  {
  }

  // ---------------------------------------------------------------------------
  // What normalising does to a command
  // ---------------------------------------------------------------------------

  predicate AllSpace(s: string) {
    forall i :: 0 <= i < |s| ==> IsSpace(s[i])
  }

  /** Neither begins nor ends with white space. */
  predicate Trimmed(s: string) {
    s != "" ==> !IsSpace(s[0]) && !IsSpace(s[|s| - 1])
  }

  lemma {:induction false} TrimRightIsCore(s: string)
    ensures TrimRight(s) <= s && AllSpace(s[|TrimRight(s)|..])
    ensures TrimRight(s) != "" ==> !IsSpace(TrimRight(s)[|TrimRight(s)| - 1])
  {
    if s != "" && IsSpace(s[|s| - 1]) {
      TrimRightIsCore(s[..|s| - 1]);
      var core := TrimRight(s);
      assert forall i :: |core| <= i < |s| - 1 ==> s[i] == s[..|s| - 1][|core|..][i - |core|];
    }
  }

  /** Trimming leaves what is between the outermost characters that are no white space. */
  lemma {:induction false} TrimIsCore(s: string) returns (before: string, after: string)
    ensures s == (before + TrimSpace(s)) + after && AllSpace(before) && AllSpace(after) && Trimmed(TrimSpace(s))
  {
    hide TrimRight, Span;
    var n := Span(s, IsSpace);
    var left := s[n..];
    TrimRightIsCore(left);
    var core := TrimRight(left);
    before, after := s[..n], left[|core|..];
    assert core + after == left && before + left == s;
    assert (before + core) + after == s;
    if core != "" { assert core[0] == left[0] == s[n]; }
  }

  lemma TrimmedStays(s: string)
    requires Trimmed(s)
    ensures TrimSpace(s) == s
  {
    if s != "" { assert Span(s, IsSpace) == 0; }
  }

  /** A name, which may be odd but not empty, and a value. */
  ghost predicate Assigns(token: string) {
    exists k :: 0 < k < |token| && token[k] == '=' && token[0] != '='
  }

  lemma AssignmentIff(token: string)
    requires IsToken(token)
    ensures IsAssignment(token) <==> Assigns(token)
  {
    if IsAssignment(token) {
      var k :| 0 <= k < |token| && token[k] == '=';
      assert k > 0;
    }
  }

  /** The assignments in front of a command, and no other tokens, are dropped. */
  lemma {:induction false} AssignmentsAreDropped(tokens: seq<string>) returns (n: nat)
    requires forall i :: 0 <= i < |tokens| ==> IsToken(tokens[i])
    ensures n <= |tokens| && AfterAssignments(tokens) == tokens[n..]
    ensures forall i :: 0 <= i < n ==> Assigns(tokens[i])
    ensures n < |tokens| ==> !Assigns(tokens[n])
  {
    hide Assigns, IsAssignment, IsToken;
    n := 0;
    if tokens != [] {
      AssignmentIff(tokens[0]);
      if IsAssignment(tokens[0]) {
        n := AssignmentsAreDropped(tokens[1..]);
        n := n + 1;
        assert forall i :: 1 <= i < |tokens| ==> tokens[i] == tokens[1..][i - 1];
      }
    }
  }

  lemma {:induction false} SpanStops(a: string, b: string, p: char -> bool)
    requires forall i :: 0 <= i < |a| ==> p(a[i])
    requires b == "" || !p(b[0])
    ensures Span(a + b, p) == |a|
  {
    if a == "" {
      assert a + b == b;
    } else {
      assert (a + b)[1..] == a[1..] + b;
      SpanStops(a[1..], b, p);
    }
  }

  /** A plain directory name: no white space, quotes or shell operators. */
  predicate IsPlainDir(dir: string) {
    dir != "" && forall i :: 0 <= i < |dir| ==> dir[i] !in {'"', '\'', '&', '|', ';'} && !IsSpace(dir[i])
  }

  lemma PlainIsBare(dir: string, rest: string)
    requires IsPlainDir(dir) && rest != "" && (IsAsciiSpace(rest[0]) || rest[0] == '&')
    ensures BareLength(dir + rest) == |dir| && QuotedLength(dir + rest) == 0
  {
    assert (dir + rest)[0] == dir[0];
    SpanStops(dir, rest, c => !IsAsciiSpace(c) && c != '&' && c != '|' && c != ';');
  }

  /** A directory name in quotes it does not contain. */
  predicate IsQuotedDir(dir: string) {
    |dir| >= 2 && dir[0] in {'"', '\''} && dir[|dir| - 1] == dir[0] && dir[0] !in dir[1..|dir| - 1]
  }

  lemma QuotedIsQuoted(dir: string, rest: string)
    requires IsQuotedDir(dir)
    ensures QuotedLength(dir + rest) == |dir|
  {
    var all, inner := dir + rest, dir[1..|dir| - 1];
    assert all[0] == dir[0] && all[1..] == inner + ([dir[0]] + rest);
    SpanStops(inner, [dir[0]] + rest, c => c != all[0]);
  }

  predicate IsGap(s: string) {
    forall i :: 0 <= i < |s| ==> IsAsciiSpace(s[i])
  }

  lemma GapStops(gap: string, rest: string)
    requires IsGap(gap) && (rest == "" || !IsAsciiSpace(rest[0]))
    ensures Span(gap + rest, IsAsciiSpace) == |gap| && (gap + rest)[|gap|..] == rest
  {
    SpanStops(gap, rest, IsAsciiSpace);
  }

  lemma AfterDir(dir: string, gap: string, gap2: string, cmd: string)
    requires dir != "" && IsGap(gap) && IsGap(gap2) && cmd != "" && Trimmed(cmd) && '\n' !in cmd
    ensures AfterAnd(dir + (gap + ("&&" + (gap2 + cmd))), |dir|) == cmd
  {
    var tail := "&&" + (gap2 + cmd);
    var s := dir + (gap + tail);
    assert s[|dir|..] == gap + tail;
    GapStops(gap, tail);
    assert tail[..2] == "&&" && tail[2..] == gap2 + cmd;
    GapStops(gap2, cmd);
  }

  /** What follows a leading `cd` is looked at twice, as a quoted directory and as a plain one. */
  lemma EffectiveAfterCd(start: string, s: string)
    requires start != "" && IsGap(start) && s != "" && !IsAsciiSpace(s[0]) && QuotedLength(s) <= |s|
    requires Trimmed("cd" + (start + s))
    ensures
      var quoted, plain := AfterAnd(s, QuotedLength(s)), AfterAnd(s, BareLength(s));
      Effective("cd" + (start + s)) ==
      if quoted != "" then TrimSpace(quoted) else if plain != "" then TrimSpace(plain) else "cd" + (start + s)
  {
    hide AfterAnd, BareLength, QuotedLength, TrimSpace, Trimmed;
    var whole := "cd" + (start + s);
    TrimmedStays(whole);
    GapStops(start, s);
    assert whole[2] == start[0] && whole[2..] == start + s && whole[..2] == "cd";
  }

  predicate IsDir(dir: string) {
    IsPlainDir(dir) || IsQuotedDir(dir)
  }

  lemma DirIsFound(dir: string, gap: string, gap2: string, cmd: string)
    requires IsDir(dir) && IsGap(gap) && IsGap(gap2) && cmd != "" && Trimmed(cmd) && '\n' !in cmd
    ensures
      var s := dir + (gap + ("&&" + (gap2 + cmd)));
      && s != "" && !IsAsciiSpace(s[0]) && QuotedLength(s) <= |s|
      && var quoted := AfterAnd(s, QuotedLength(s));
      cmd == if quoted != "" then quoted else AfterAnd(s, BareLength(s))
  {
    hide AfterAnd, BareLength, QuotedLength, IsPlainDir, IsQuotedDir, IsGap, Trimmed;
    var rest := gap + ("&&" + (gap2 + cmd));
    var s := dir + rest;
    DirBegins(dir, rest);
    RestBegins(gap, "&&" + (gap2 + cmd));
    AfterDir(dir, gap, gap2, cmd);
    NothingAfterNothing(s);
    if IsQuotedDir(dir) { QuotedIsQuoted(dir, rest); } else { PlainIsBare(dir, rest); }
  }

  lemma DirBegins(dir: string, rest: string)
    requires IsDir(dir)
    ensures dir != "" && (dir + rest)[0] == dir[0] && !IsAsciiSpace(dir[0])
  {
  }

  lemma RestBegins(gap: string, rest: string)
    requires IsGap(gap) && rest != "" && rest[0] == '&'
    ensures IsAsciiSpace((gap + rest)[0]) || (gap + rest)[0] == '&'
  {
  }

  /** Going to a directory first does not change the command: `cd dir && cmd` counts as
      `cmd`, whether the directory is plain or quoted and however it is spaced. */
  lemma {:induction false} LeadingCdIsDropped(start: string, dir: string, gap: string, gap2: string, cmd: string)
    requires start != "" && IsGap(start) && IsGap(gap) && IsGap(gap2)
    requires IsDir(dir) && cmd != "" && Trimmed(cmd) && '\n' !in cmd
    ensures Effective("cd" + (start + (dir + (gap + ("&&" + (gap2 + cmd)))))) == cmd
  {
    hide AfterAnd, BareLength, QuotedLength, TrimSpace, Effective, Trimmed, IsDir, IsGap;
    var s := dir + (gap + ("&&" + (gap2 + cmd)));
    EndsInCommand(start + dir + gap + "&&" + gap2, cmd);
    assert start + dir + gap + "&&" + gap2 + cmd == start + s;
    DirIsFound(dir, gap, gap2, cmd);
    EffectiveAfterCd(start, s);
    TrimmedStays(cmd);
  }

  lemma EndsInCommand(front: string, cmd: string)
    requires cmd != "" && Trimmed(cmd)
    ensures Trimmed("cd" + (front + cmd))
  {
    hide IsSpace;
    assert (front + cmd)[|front + cmd| - |cmd|..] == cmd;
    TrimmedWhole(front + cmd, cmd);
  }

  lemma TrimmedWhole(s: string, cmd: string)
    requires cmd != "" && Trimmed(cmd) && |s| >= |cmd| && s[|s| - |cmd|..] == cmd
    ensures Trimmed("cd" + s)
  {
    var whole := "cd" + s;
    assert whole[|whole| - 1] == s[|s| - |cmd|..][|cmd| - 1];
  }

  lemma NothingAfterNothing(s: string)
    ensures AfterAnd(s, 0) == ""
  {
  }

  /** A command that does not go to a directory first is only trimmed. */
  lemma OthersAreTrimmed(cmd: string)
    requires !("cd" <= TrimSpace(cmd))
    ensures Effective(cmd) == TrimSpace(cmd)
  {
  }
}

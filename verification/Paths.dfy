/** Which edited paths a scope-boundary entry names: a directory by its prefix, a glob against
    the whole path or its last element, anything else exactly or as a directory. Glob matching
    itself is given. */
module Paths {
  import CommandIdentity

  predicate HasAny(s: string, chars: set<char>) {
    exists i :: 0 <= i < |s| && s[i] in chars
  }

  /** A glob, a path with a slash, or a file name with an extension; anything else is prose. */
  predicate PathLike(entry: string) {
    var s := CommandIdentity.TrimSpace(entry);
    s != "" && !HasAny(s, {' ', '\t'}) && HasAny(s, {'/', '*', '?', '[', '.'})
  }

  function StripDot(s: string): string {
    if "./" <= s then s[2..] else s
  }

  function TrimSlashes(s: string): string {
    if s != "" && s[|s| - 1] == '/' then TrimSlashes(s[..|s| - 1]) else s
  }

  function AfterLastSlash(s: string): string {
    if s == "" || s[|s| - 1] == '/' then "" else AfterLastSlash(s[..|s| - 1]) + [s[|s| - 1]]
  }

  /** The last element of a path. */
  function Base(path: string): string {
    if path == "" then "."
    else
      var last := AfterLastSlash(TrimSlashes(path));
      if last == "" then "/" else last
  }

  /** A directory by its prefix, a glob against the whole path or its last element, anything
      else exactly or as a directory. */
  predicate Named(glob: (string, string) -> bool, entry: string, path: string) {
    var pattern, p := StripDot(CommandIdentity.TrimSpace(entry)), StripDot(path);
    if pattern == "" then false
    else if pattern[|pattern| - 1] == '/' then pattern <= p
    else if HasAny(pattern, {'*', '?', '['}) then glob(pattern, p) || glob(pattern, Base(p))
    else p == pattern || pattern + "/" <= p
  }

  predicate Covers(glob: (string, string) -> bool, entry: string, path: string) {
    PathLike(entry) && Named(glob, entry, path)
  }

  lemma PrefixOfLonger(a: string, b: string, more: string)
    requires a <= b
    ensures a <= b + more
  {
    assert (b + more)[..|a|] == b[..|a|];
  }

  /** What an entry without wildcards covers it covers with everything below. */
  lemma CoversBelow(glob: (string, string) -> bool, entry: string, path: string, rest: string)
    requires !HasAny(StripDot(CommandIdentity.TrimSpace(entry)), {'*', '?', '['})
    requires |path| >= 2 && Covers(glob, entry, path)
    ensures Covers(glob, entry, path + ("/" + rest))
  {
    hide PathLike, HasAny, CommandIdentity.TrimSpace;
    var pattern, p := StripDot(CommandIdentity.TrimSpace(entry)), StripDot(path);
    var below := "/" + rest;
    assert StripDot(path + below) == p + below by { assert (path + below)[..2] == path[..2]; }
    if pattern <= p { PrefixOfLonger(pattern, p, below); }
    if pattern + "/" <= p { PrefixOfLonger(pattern + "/", p, below); }
    if p == pattern { assert p + below == (pattern + "/") + rest; }
  }

  /** What an entry says: the text between its outermost blanks, without a leading "./". */
  ghost predicate Says(entry: string, core: string) {
    exists before: string, after: string, dot: string ::
      && entry == (before + (dot + core)) + after
      && CommandIdentity.AllSpace(before) && CommandIdentity.AllSpace(after) && CommandIdentity.Trimmed(dot + core)
      && (dot == "./" || (dot == "" && !("./" <= core)))
  }

  lemma StripsDot(s: string)
    ensures
      var dot := if "./" <= s then "./" else "";
      s == dot + StripDot(s) && (dot == "" ==> !("./" <= StripDot(s)))
  {
    if "./" <= s { assert s[..2] == "./"; }
  }

  lemma {:induction false} CoreIsSaid(entry: string)
    ensures Says(entry, StripDot(CommandIdentity.TrimSpace(entry)))
  {
    hide StripDot, CommandIdentity.TrimSpace;
    var before, after := CommandIdentity.TrimIsCore(entry);
    var trimmed := CommandIdentity.TrimSpace(entry);
    StripsDot(trimmed);
    var dot := if "./" <= trimmed then "./" else "";
    assert entry == (before + (dot + StripDot(trimmed))) + after;
  }

  /** The part of a path behind its last slash, slashes at its end left aside. */
  ghost predicate LastElement(path: string, name: string) {
    exists front: string, end: string ::
      && path == (front + name) + end && name != "" && '/' !in name
      && (forall i :: 0 <= i < |end| ==> end[i] == '/') && (front != "" ==> front[|front| - 1] == '/')
  }

  lemma {:induction false} TrimmedSlashes(s: string) returns (end: string)
    ensures s == TrimSlashes(s) + end && forall i :: 0 <= i < |end| ==> end[i] == '/'
    ensures TrimSlashes(s) != "" ==> TrimSlashes(s)[|TrimSlashes(s)| - 1] != '/'
  {
    end := "";
    if s != "" && s[|s| - 1] == '/' {
      end := TrimmedSlashes(s[..|s| - 1]);
      end := end + "/";
    }
  }

  lemma {:induction false} SlashSplits(s: string) returns (front: string)
    ensures s == front + AfterLastSlash(s) && '/' !in AfterLastSlash(s)
    ensures front != "" ==> front[|front| - 1] == '/'
  {
    if s == "" || s[|s| - 1] == '/' {
      front := s;
    } else {
      front := SlashSplits(s[..|s| - 1]);
    }
  }

  /** The base of a path is its last element, "/" where there are but slashes, and "." of
      nothing. */
  lemma {:induction false} BaseIsLast(path: string)
    ensures path == "" ==> Base(path) == "."
    ensures path != "" && (forall i :: 0 <= i < |path| ==> path[i] == '/') ==> Base(path) == "/"
    ensures (exists i :: 0 <= i < |path| && path[i] != '/') ==> LastElement(path, Base(path))
  {
    if path != "" {
      var end := TrimmedSlashes(path);
      var trimmed := TrimSlashes(path);
      var front := SlashSplits(trimmed);
      var name := AfterLastSlash(trimmed);
      if trimmed == "" {
        assert path == end;
      } else {
        assert path[|trimmed| - 1] == trimmed[|trimmed| - 1];
        if name == "" { assert front == trimmed; }
        assert path == (front + name) + end;
      }
    }
  }

  ghost predicate Under(path: string, dir: string) {
    exists rest: string :: path == dir + rest
  }

  /** What an entry covers, by its text: nothing if it is prose; below a directory; what the
      glob matches, as a whole or in its last element; else the path itself and what is
      below it. */
  lemma {:induction false} CoversIff(glob: (string, string) -> bool, entry: string, path: string)
    returns (core: string)
    ensures Says(entry, core)
    ensures
      var p := if "./" <= path then path[2..] else path;
      var trimmed := CommandIdentity.TrimSpace(entry);
      Covers(glob, entry, path) <==>
      && (forall i :: 0 <= i < |trimmed| ==> trimmed[i] != ' ' && trimmed[i] != '\t')
      && (exists i :: 0 <= i < |trimmed| && trimmed[i] in {'/', '*', '?', '[', '.'})
      && core != ""
      && if core[|core| - 1] == '/' then Under(p, core)
         else if exists i :: 0 <= i < |core| && core[i] in {'*', '?', '['} then glob(core, p) || glob(core, Base(p))
         else p == core || Under(p, core + "/")
  {
    CoreIsSaid(entry);
    core := StripDot(CommandIdentity.TrimSpace(entry));
    hide CommandIdentity.TrimSpace, Base, Says;
    var p := StripDot(path);
    PrefixIsUnder(core, p);
    PrefixIsUnder(core + "/", p);
  }

  lemma PrefixIsUnder(a: string, b: string)
    ensures a <= b <==> Under(b, a)
  {
    if a <= b { assert b == a + b[|a|..]; }
  }
}

/** Splitting strings, and the textual act paths built on it. */
module Paths {

  // ---- string_util::split -----------------------------------------------------------------------

  /** Where the first character out of `delimiter` is; |s| if there is none. */
  function FirstOf(s: string, delimiter: string): (i: nat)
    ensures i <= |s|
  {
    if |s| == 0 || s[0] in delimiter then 0 else 1 + FirstOf(s[1..], delimiter)
  }

  lemma {:induction false} FirstOfFinds(s: string, delimiter: string)
    ensures var i := FirstOf(s, delimiter);
      && (forall j | 0 <= j < i :: s[j] !in delimiter)
      && (i < |s| ==> s[i] in delimiter)
  {
    if s != "" && s[0] !in delimiter {
      FirstOfFinds(s[1..], delimiter);
      var i := FirstOf(s[1..], delimiter);
      forall j | 0 <= j < 1 + i ensures s[j] !in delimiter {
        assert j > 0 ==> s[j] == s[1..][j - 1];
      }
    }
  }

  function Drop(s: string, n: nat): string {
    if n <= |s| then s[n..] else ""
  }

  /** Cuts at each delimiter character, steps over |delimiter| characters, and leaves out empty parts. */
  function Split(s: string, delimiter: string): (parts: seq<string>)
    decreases |s|
  {
    var cut := FirstOf(s, delimiter);
    if cut == |s| then
      if cut == 0 then [] else [s]
    else
      (if cut > 0 then [s[..cut]] else []) + Split(Drop(s, cut + |delimiter|), delimiter)
  }

  method FindFirstOf(s: string, delimiter: string, from: nat) returns (pos: nat)
    ensures pos <= |s| && pos == if from <= |s| then from + FirstOf(Drop(s, from), delimiter) else |s|
  {
    if from > |s| {
      return |s|;
    }
    pos := from;
    while pos < |s| && s[pos] !in delimiter
      invariant from <= pos <= |s|
      invariant from + FirstOf(s[from..], delimiter) == pos + FirstOf(s[pos..], delimiter)
    {
      assert s[pos..][1..] == s[pos + 1..];
      pos := pos + 1;
    }
  }

  /** The loop of string_util::split: `ppos` is where the next part starts, `cpos` where it ends. */
  method SplitLoop(s: string, delimiter: string) returns (result: seq<string>)
    ensures result == Split(s, delimiter)
  {
    hide Split, FirstOf, CutSoFar, Drop;
    CutStart(s, delimiter);
    if |s| == 0 {
      return [];
    }
    result := [];
    var ppos: nat := 0;
    var cpos := FindFirstOf(s, delimiter, 0);
    ghost var rest := s;
    while cpos < |s|
      invariant cpos <= |s| && rest == Drop(s, ppos) && CutSoFar(s, delimiter, result, rest)
      invariant cpos == if ppos <= |s| then ppos + FirstOf(rest, delimiter) else |s|
      decreases |s| - ppos
    {
      CutStep(s, delimiter, result, ppos, rest, cpos - ppos);
      if cpos > ppos {
        result := result + [s[ppos..cpos]];
      }
      ppos := cpos + |delimiter|;
      cpos := FindFirstOf(s, delimiter, ppos);
      rest := Drop(s, ppos);
    }
    CutEnd(s, delimiter, result, ppos, rest);
    if ppos < |s| {
      result := result + [s[ppos..]];
    }
  }

  predicate CutSoFar(s: string, delimiter: string, result: seq<string>, rest: string) {
    result + Split(rest, delimiter) == Split(s, delimiter)
  }

  lemma CutStart(s: string, delimiter: string)
    ensures CutSoFar(s, delimiter, [], s) && Drop(s, 0) == s && (|s| == 0 ==> Split(s, delimiter) == [])
  {
    assert [] + Split(s, delimiter) == Split(s, delimiter);
  }

  lemma CutStep(s: string, delimiter: string, result: seq<string>, ppos: nat, rest: string, cut: nat)
    requires ppos <= |s| && rest == Drop(s, ppos) && cut == FirstOf(rest, delimiter) && ppos + cut < |s|
    requires CutSoFar(s, delimiter, result, rest)
    ensures CutSoFar(s, delimiter, if cut > 0 then result + [s[ppos..ppos + cut]] else result,
                     Drop(s, ppos + cut + |delimiter|))
    ensures |delimiter| > 0
  {
    hide Split, FirstOf;
    SplitStep(s, delimiter, ppos, rest, cut);
    EmptyDelimiter(rest, delimiter);
    var part: seq<string> := if cut > 0 then [s[ppos..ppos + cut]] else [];
    var more := Split(Drop(s, ppos + cut + |delimiter|), delimiter);
    assert result + (part + more) == result + part + more;
    assert cut == 0 ==> result + part == result;
  }

  lemma CutEnd(s: string, delimiter: string, result: seq<string>, ppos: nat, rest: string)
    requires rest == Drop(s, ppos) && CutSoFar(s, delimiter, result, rest)
    requires ppos <= |s| ==> ppos + FirstOf(rest, delimiter) == |s|
    ensures Split(s, delimiter) == if ppos < |s| then result + [s[ppos..]] else result
  {
    SplitEnd(s, delimiter, ppos);
    hide Split;
    assert result + [] == result;
  }

  lemma {:induction false} EmptyDelimiter(s: string, delimiter: string)
    ensures delimiter == "" ==> FirstOf(s, delimiter) == |s|
  {
    if s != "" {
      EmptyDelimiter(s[1..], delimiter);
    }
  }

  lemma SplitStep(s: string, delimiter: string, ppos: nat, rest: string, cut: nat)
    requires ppos <= |s| && rest == s[ppos..] && cut == FirstOf(rest, delimiter) && cut < |rest|
    ensures Split(rest, delimiter)
         == (if cut > 0 then [s[ppos..ppos + cut]] else []) + Split(Drop(s, ppos + cut + |delimiter|), delimiter)
  {
    hide *;
    SplitAtCut(rest, delimiter);
    SliceOfDrop(s, ppos, ppos + cut, |delimiter|);
  }

  lemma SliceOfDrop(s: string, a: nat, b: nat, n: nat)
    requires a <= b <= |s|
    ensures s[a..][..b - a] == s[a..b] && Drop(s[a..], b - a + n) == Drop(s, b + n)
  {
  }

  lemma SplitAtCut(s: string, delimiter: string)
    requires FirstOf(s, delimiter) < |s|
    ensures var cut := FirstOf(s, delimiter);
      Split(s, delimiter) == (if cut > 0 then [s[..cut]] else []) + Split(Drop(s, cut + |delimiter|), delimiter)
  {
  }

  lemma SplitEnd(s: string, delimiter: string, ppos: nat)
    requires ppos <= |s| ==> ppos + FirstOf(s[ppos..], delimiter) == |s|
    ensures Split(Drop(s, ppos), delimiter) == if ppos < |s| then [s[ppos..]] else []
  {
  }

  function Concatenated(parts: seq<string>): string {
    if |parts| == 0 then "" else parts[0] + Concatenated(parts[1..])
  }

  function Without(s: string, delimiter: string): string {
    if |s| == 0 then "" else (if s[0] in delimiter then "" else s[..1]) + Without(s[1..], delimiter)
  }

  lemma {:induction false} WithoutUpTo(s: string, delimiter: string, cut: nat)
    requires cut <= |s| && forall j | 0 <= j < cut :: s[j] !in delimiter
    ensures Without(s, delimiter) == s[..cut] + Without(s[cut..], delimiter)
  {
    if cut > 0 {
      WithoutUpTo(s[1..], delimiter, cut - 1);
      assert s[1..][cut - 1..] == s[cut..];
      assert s[..cut] == s[..1] + s[1..][..cut - 1];
    }
  }

  /** With a one-character delimiter, splitting loses the delimiters and nothing else. */
  lemma {:induction false} SplitLosesDelimitersOnly(s: string, c: char)
    ensures Concatenated(Split(s, [c])) == Without(s, [c])
    ensures forall p | p in Split(s, [c]) :: p != "" && c !in p
    decreases |s|
  {
    var cut := FirstOf(s, [c]);
    WithoutUpToCut(s, c);
    if cut == |s| {
      assert s[..cut] == s;
      ConcatenatedCons(s, []);
    } else {
      SplitAtCut(s, [c]);
      var rest := Drop(s, cut + 1);
      SplitLosesDelimitersOnly(rest, c);
      ConcatenatedCons(s[..cut], Split(rest, [c]));
    }
  }

  lemma WithoutUpToCut(s: string, c: char)
    ensures var cut := FirstOf(s, [c]);
      && c !in s[..cut]
      && Without(s, [c]) == if cut == |s| then s else s[..cut] + Without(Drop(s, cut + 1), [c])
  {
    var cut := FirstOf(s, [c]);
    FirstOfFinds(s, [c]);
    WithoutUpTo(s, [c], cut);
    if cut == |s| {
      assert s[..cut] + Without("", [c]) == s[..cut] == s;
    } else {
      WithoutHead(s[cut..], c);
      assert s[cut..][1..] == Drop(s, cut + 1);
    }
    hide FirstOf, Without;
  }

  lemma WithoutHead(s: string, c: char)
    requires |s| > 0 && s[0] == c
    ensures Without(s, [c]) == Without(s[1..], [c])
  {
    assert "" + Without(s[1..], [c]) == Without(s[1..], [c]);
  }

  lemma ConcatenatedCons(head: string, parts: seq<string>)
    ensures Concatenated([head] + parts) == head + Concatenated(parts)
    ensures [] + parts == parts && [head] + [] == [head] && head + "" == head
  {
    assert ([head] + parts)[1..] == parts;
  }

  lemma {:induction false} NothingIsCut(s: string)
    ensures FirstOf(s, "") == |s| && Without(s, "") == s
  {
    if |s| > 0 {
      NothingIsCut(s[1..]);
      assert s[..1] + s[1..] == s;
    }
  }

  lemma {:induction false} EverythingIsCut(s: string, delimiter: string)
    requires forall x: char :: x in delimiter
    ensures Without(s, delimiter) == "" && Split(s, delimiter) == []
    decreases |s|
  {
    if |s| > 0 {
      assert |delimiter| > 0 by { assert s[0] in delimiter; }
      EverythingIsCut(s[1..], delimiter);
      EverythingIsCut(Drop(s, |delimiter|), delimiter);
      assert FirstOf(s, delimiter) == 0;
    }
  }

  /** For every text, splitting loses the delimiters and nothing else. */
  ghost predicate LosesDelimitersOnly(delimiter: string) {
    forall s :: Concatenated(Split(s, delimiter)) == Without(s, delimiter)
  }

  /**
   * That holds exactly for delimiters of at most one character (or made of every character there is):
   * a longer one is searched as a set of characters but stepped over as a whole.
   */
  lemma SplitIsLosslessIff(delimiter: string)
    ensures LosesDelimitersOnly(delimiter) <==> |delimiter| <= 1 || forall x: char :: x in delimiter
  {
    if |delimiter| == 0 {
      forall s ensures Concatenated(Split(s, delimiter)) == Without(s, delimiter) {
        NothingIsCut(s);
        ConcatenatedCons(s, []);
      }
    } else if |delimiter| == 1 {
      assert delimiter == [delimiter[0]];
      forall s ensures Concatenated(Split(s, delimiter)) == Without(s, delimiter) {
        SplitLosesDelimitersOnly(s, delimiter[0]);
      }
    } else if x: char :| x !in delimiter {
      var s := [delimiter[0], x];
      assert FirstOf(s, delimiter) == 0;
      assert Split(s, delimiter) == [] + Split("", delimiter) == [];
      assert s[1..] == [x] && [x][1..] == "" && "" + Without([x], delimiter) == Without([x], delimiter);
      assert x in Without(s, delimiter);
    } else {
      forall s ensures Concatenated(Split(s, delimiter)) == Without(s, delimiter) {
        EverythingIsCut(s, delimiter);
      }
    }
  }

  // ---- act paths --------------------------------------------------------------------------------

  const SLASH := "/"

  predicate IsAbsolute(path: string) { |path| > 0 && path[0] == '/' }
  predicate IsRelative(path: string) { |path| > 0 && path[0] != '/' }

  /** is_child_of: a comparison of characters only. */
  predicate IsChildOf(self: string, path: string) { self <= path }

  predicate GoodName(name: string) { |name| > 0 && '/' !in name }

  predicate GoodNames(names: seq<string>) { forall n | n in names :: GoodName(n) }

  /** "/a/b/c" for [a, b, c]: what build_path makes of the names from the root down. */
  function FullPath(names: seq<string>): string {
    if |names| == 0 then "" else "/" + names[0] + FullPath(names[1..])
  }

  /** "a/b/c" for [a, b, c]. */
  function RelativePath(names: seq<string>): string {
    if |names| == 0 then "" else names[0] + FullPath(names[1..])
  }

  /** Outcomes of code that may throw. */
  datatype Result<T> = Throws | Ok(value: T)

  /** path::setup refuses a path without parts. */
  function PartsOf(path: string): Result<seq<string>> {
    var parts := Split(path, SLASH);
    if |parts| == 0 then Throws else Ok(parts)
  }

  function FirstAct(path: string): Result<string> {
    if |path| == 0 then Ok("") else
    match PartsOf(path)
    case Throws => Throws
    case Ok(parts) => if |parts| == 0 then Throws else Ok(parts[0])
  }

  function JoinParts(parts: seq<string>): string {
    if |parts| == 0 then "" else
    if |parts| == 1 then parts[0] else parts[0] + "/" + JoinParts(parts[1..])
  }

  function PopHead(path: string): Result<string> {
    match PartsOf(path)
    case Throws => Throws
    case Ok(parts) => if |parts| == 0 then Throws else Ok(JoinParts(parts[1..]))
  }

  lemma {:induction false} FirstOfIs(s: string, delimiter: string, k: nat)
    requires k <= |s| && forall j | 0 <= j < k :: s[j] !in delimiter
    requires k < |s| ==> s[k] in delimiter
    ensures FirstOf(s, delimiter) == k
  {
    if k > 0 {
      FirstOfIs(s[1..], delimiter, k - 1);
    }
  }

  lemma FirstOfSlash(name: string, rest: string)
    requires '/' !in name && (rest == "" || rest[0] == '/')
    ensures FirstOf(name + rest, SLASH) == |name|
  {
    forall j | 0 <= j < |name| ensures (name + rest)[j] !in SLASH {
      assert (name + rest)[j] == name[j] && name[j] in name;
    }
    FirstOfIs(name + rest, SLASH, |name|);
  }

  lemma SplitOffName(name: string, rest: string)
    requires GoodName(name)
    ensures Split(name, SLASH) == [name]
    ensures Split(name + "/" + rest, SLASH) == [name] + Split(rest, SLASH)
  {
    FirstOfSlash(name, "");
    assert name + "" == name;
    var s := name + ("/" + rest);
    FirstOfSlash(name, "/" + rest);
    assert s == name + "/" + rest && s[..|name|] == name && Drop(s, |name| + 1) == rest;
  }

  /** Splitting a path gives back the names it was built from, with or without the leading slash. */
  lemma {:induction false} SplitOfPath(names: seq<string>)
    requires GoodNames(names)
    ensures Split(RelativePath(names), SLASH) == names
    ensures Split(FullPath(names), SLASH) == names
  {
    if names != [] {
      var name, more := names[0], names[1..];
      assert GoodName(name) && names == [name] + more;
      SplitOfPath(more);
      FullIsSlashRelative(names);
      RelativeCons(names);
      SplitOffName(name, RelativePath(more));
      SplitSkipsSlash(RelativePath(names));
      hide Split, RelativePath, FullPath;
      assert more == [] ==> names == [name];
    }
  }

  lemma FullIsSlashRelative(names: seq<string>)
    requires names != []
    ensures FullPath(names) == "/" + RelativePath(names)
  {
  }

  lemma RelativeCons(names: seq<string>)
    requires names != []
    ensures RelativePath(names) == if |names| == 1 then names[0] else names[0] + "/" + RelativePath(names[1..])
  {
    if |names| == 1 {
      assert names[1..] == [] && names[0] + "" == names[0];
    } else {
      FullIsSlashRelative(names[1..]);
      assert names[0] + ("/" + RelativePath(names[1..])) == names[0] + "/" + RelativePath(names[1..]);
    }
  }

  lemma SplitSkipsSlash(s: string)
    ensures Split("/" + s, SLASH) == Split(s, SLASH)
  {
    assert FirstOf("/" + s, SLASH) == 0;
    assert Drop("/" + s, 1) == s;
    assert [] + Split(s, SLASH) == Split(s, SLASH);
  }

  lemma {:induction false} JoinIsRelativePath(names: seq<string>)
    ensures JoinParts(names) == RelativePath(names)
  {
    if |names| == 1 {
      assert names[1..] == [];
      assert names[0] + "" == names[0];
    } else if |names| > 1 {
      JoinIsRelativePath(names[1..]);
      assert names[0] + "/" + RelativePath(names[1..]) == names[0] + ("/" + RelativePath(names[1..]));
      assert "/" + (names[1..][0] + FullPath(names[1..][1..])) == "/" + names[1..][0] + FullPath(names[1..][1..]);
    }
  }

  /** The head and the rest of a relative path, as the act classes take them apart. */
  lemma PathParts(names: seq<string>)
    requires GoodNames(names) && names != []
    ensures FirstAct(RelativePath(names)) == Ok(names[0])
    ensures PopHead(RelativePath(names)) == Ok(RelativePath(names[1..]))
    ensures IsRelative(RelativePath(names))
    ensures PartsOf(RelativePath(names)) == Ok(names)
  {
    SplitOfPath(names);
    JoinIsRelativePath(names[1..]);
    assert GoodName(names[0]);
    assert RelativePath(names)[0] == names[0][0];
  }

  /** Popping a path makes it shorter, so chains of pops end. */
  lemma {:induction false} SplitIsShorter(s: string)
    ensures |JoinParts(Split(s, SLASH))| <= |s|
    decreases |s|
  {
    var cut := FirstOf(s, SLASH);
    if cut < |s| {
      var rest := Drop(s, cut + 1);
      SplitIsShorter(rest);
      if cut > 0 {
        var parts := [s[..cut]] + Split(rest, SLASH);
        assert parts[1..] == Split(rest, SLASH);
      } else {
        assert [] + Split(rest, SLASH) == Split(rest, SLASH);
      }
    }
  }

  lemma PopHeadIsShorter(path: string)
    requires PopHead(path).Ok?
    ensures |PopHead(path).value| < |path|
  {
    SplitIsShorter(path);
    SplitLosesDelimitersOnly(path, '/');
    var parts := Split(path, SLASH);
    assert parts[0] in parts;
  }

  lemma {:induction false} FullPathSnoc(names: seq<string>, name: string)
    ensures FullPath(names + [name]) == FullPath(names) + "/" + name
  {
    if names == [] {
      assert [] + [name] == [name] && [name][1..] == [];
      assert FullPath([name]) == "/" + name + "";
    } else {
      assert (names + [name])[1..] == names[1..] + [name];
      FullPathSnoc(names[1..], name);
      assert "/" + names[0] + (FullPath(names[1..]) + "/" + name) == "/" + names[0] + FullPath(names[1..]) + "/" + name;
    }
  }

  lemma {:induction false} FullPathConcat(a: seq<string>, b: seq<string>)
    ensures FullPath(a + b) == FullPath(a) + FullPath(b)
  {
    if a == [] {
      assert a + b == b;
    } else {
      assert (a + b)[1..] == a[1..] + b;
      FullPathConcat(a[1..], b);
    }
  }

  /** The shorter path's names lead the longer path's, except that the last one may stop short inside the other's. */
  predicate NamesLead(a: seq<string>, b: seq<string>) {
    0 < |a| <= |b| && a[..|a| - 1] == b[..|a| - 1] && a[|a| - 1] <= b[|a| - 1]
  }

  /** The character comparison of two full paths, read as names. */
  lemma PrefixOfPathIff(a: seq<string>, b: seq<string>)
    requires GoodNames(a) && GoodNames(b) && a != []
    ensures FullPath(a) <= FullPath(b) <==> NamesLead(a, b)
  {
    if FullPath(a) <= FullPath(b) {
      PrefixOfPath(a, b);
    }
    if NamesLead(a, b) {
      LeadingNames(a, b);
    }
  }

  lemma {:induction false} LeadingNames(a: seq<string>, b: seq<string>)
    requires NamesLead(a, b)
    ensures FullPath(a) <= FullPath(b)
  {
    var last := |a| - 1;
    var rest := b[last + 1..];
    assert a == a[..last] + [a[last]] && b == b[..last] + [b[last]] + rest;
    FullPathSnoc(a[..last], a[last]);
    FullPathSnoc(b[..last], b[last]);
    FullPathConcat(b[..last] + [b[last]], rest);
    var head := FullPath(a[..last]) + "/";
    assert FullPath(a) == head + a[last];
    assert FullPath(b) == head + (b[last] + FullPath(rest));
  }

  lemma {:induction false} PrefixOfPath(a: seq<string>, b: seq<string>)
    requires GoodNames(a) && GoodNames(b) && a != []
    requires FullPath(a) <= FullPath(b)
    ensures NamesLead(a, b)
  {
    HeadsOfPaths(a, b);
    if |a| > 1 {
      PrefixOfPath(a[1..], b[1..]);
      assert a[1..][..|a| - 2] == b[1..][..|a| - 2];
      hide FullPath, GoodNames, GoodName;
      ConsPrefix(a, b);
    }
  }

  /** One step down two comparable paths. */
  lemma HeadsOfPaths(a: seq<string>, b: seq<string>)
    requires GoodNames(a) && GoodNames(b) && |a| > 0 && FullPath(a) <= FullPath(b)
    ensures |b| > 0
    ensures if |a| == 1 then a[0] <= b[0] else a[0] == b[0] && FullPath(a[1..]) <= FullPath(b[1..])
  {
    assert |b| > 0;
    assert GoodName(a[0]) && GoodName(b[0]);
    var x, y, xs, ys := a[0], b[0], FullPath(a[1..]), FullPath(b[1..]);
    FullIsSlashRelative(a);
    FullIsSlashRelative(b);
    SlashesAgree(RelativePath(a), RelativePath(b));
    if |a| == 1 {
      assert x + xs == x;
      NameInsideName(x, y, ys);
    } else {
      HeadsAgree(x, xs, y, ys);
    }
  }

  lemma SlashesAgree(x: string, y: string)
    requires "/" + x <= "/" + y
    ensures x <= y
  {
    assert x == ("/" + x)[1..] && y == ("/" + y)[1..];
  }

  lemma ConsPrefix(a: seq<string>, b: seq<string>)
    requires |a| > 1 && |b| >= |a| && a[0] == b[0] && a[1..][..|a| - 2] == b[1..][..|a| - 2]
    ensures a[..|a| - 1] == b[..|a| - 1]
    ensures a[1..][|a| - 2] == a[|a| - 1] && b[1..][|a| - 2] == b[|a| - 1]
  {
    assert a[..|a| - 1] == [a[0]] + a[1..][..|a| - 2];
    assert b[..|a| - 1] == [b[0]] + b[1..][..|a| - 2];
  }

  lemma NameInsideName(x: string, y: string, rest: string)
    requires '/' !in x && (rest == "" || rest[0] == '/') && x <= y + rest
    ensures x <= y
  {
    assert forall j | 0 <= j < |x| :: (y + rest)[j] == x[j] != '/';
    assert |y| < |y + rest| ==> (y + rest)[|y|] == '/';
    assert x == (y + rest)[..|x|] == y[..|x|];
  }

  lemma HeadsAgree(x: string, xs: string, y: string, ys: string)
    requires '/' !in x && '/' !in y && xs != "" && xs[0] == '/' && (ys == "" || ys[0] == '/')
    requires x + xs <= y + ys
    ensures x == y && xs <= ys
  {
    FirstOfSlash(x, xs);
    FirstOfSlash(y, ys);
    SameHead(x + xs, y + ys);
    assert x == (x + xs)[..|x|] == (y + ys)[..|x|] == y;
    assert xs == (x + xs)[|x|..] && ys == (y + ys)[|y|..];
  }

  /** If the shorter of two strings has a slash, both have their first slash at the same place. */
  lemma SameHead(x: string, y: string)
    requires x <= y && FirstOf(x, SLASH) < |x|
    ensures FirstOf(x, SLASH) == FirstOf(y, SLASH)
  {
    var i := FirstOf(x, SLASH);
    FirstOfFinds(x, SLASH);
    forall j | 0 <= j < i ensures y[j] !in SLASH {
      assert y[j] == x[j];
    }
    FirstOfIs(y, SLASH, i);
  }
}

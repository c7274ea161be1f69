/**
 The path filters of src/pkg/filters: substring, prefix, suffix and equality tests on
 normalized strings, and what they mean for the elements of the paths.
 */
module PathFilters {
  import opened PathEscaping
  import PathLoops
  import opened DataPaths

  predicate IsSpace(c: char) {
    c == ' ' || ('\t' <= c <= '\r')
  }

  function TrimLeft(s: string): string {
    if s != "" && IsSpace(s[0]) then TrimLeft(s[1..]) else s
  }

  function TrimRight(s: string): string {
    if s != "" && IsSpace(s[|s| - 1]) then TrimRight(s[..|s| - 1]) else s
  }

  function TrimSpace(s: string): string {
    TrimRight(TrimLeft(s))
  }

  /** `normPathElem`: one separator in front, one behind, lower case. */
  function NormPathElem(s: string): string {
    var t := TrimSpace(s);
    if t == "" then t
    else Lower(Trim(if t[0] != PATH_SEPARATOR then [PATH_SEPARATOR] + t else t)) + [PATH_SEPARATOR]
  }

  predicate BlankChar(c: char) {
    c in " \t\n\r" || c == '\U{0b}' || c == '\U{0c}'
  }

  predicate Blank(s: string) {
    forall i :: 0 <= i < |s| ==> BlankChar(s[i])
  }

  lemma {:induction false} LeftBlank(l: string, s: string)
    requires Blank(l)
    ensures TrimLeft(l + s) == TrimLeft(s)
  {
    if l == "" {
      assert l + s == s;
    } else {
      assert BlankChar(l[0]);
      assert (l + s)[1..] == l[1..] + s;
      LeftBlank(l[1..], s);
    }
  }

  lemma {:induction false} RightBlank(s: string, r: string)
    requires Blank(r)
    ensures TrimRight(s + r) == TrimRight(s)
    decreases |r|
  {
    if r == "" {
      assert s + r == s;
    } else {
      assert BlankChar(r[|r| - 1]);
      assert (s + r)[..|s + r| - 1] == s + r[..|r| - 1];
      RightBlank(s, r[..|r| - 1]);
    }
  }

  lemma {:induction false} TrimLeftBefore(s: string, r: string)
    requires TrimLeft(s) != ""
    ensures TrimLeft(s + r) == TrimLeft(s) + r
  {
    if IsSpace(s[0]) {
      assert (s + r)[1..] == s[1..] + r;
      TrimLeftBefore(s[1..], r);
    }
  }

  lemma {:induction false} TrimLeftAll(s: string, r: string)
    requires TrimLeft(s) == ""
    ensures TrimLeft(s + r) == TrimLeft(r)
  {
    if s == "" {
      assert s + r == r;
    } else {
      assert (s + r)[1..] == s[1..] + r;
      TrimLeftAll(s[1..], r);
    }
  }

  /** Blanks and line breaks around a path do not matter. */
  lemma BlanksAround(l: string, s: string, r: string)
    requires Blank(l) && Blank(r)
    ensures NormPathElem(l + s + r) == NormPathElem(s)
  {
    assert l + s + r == l + (s + r);
    LeftBlank(l, s + r);
    if TrimLeft(s) == "" {
      TrimLeftAll(s, r);
      LeftBlank(r, "");
      assert r + "" == r;
    } else {
      TrimLeftBefore(s, r);
      RightBlank(TrimLeft(s), r);
    }
  }

  predicate Contains(s: string, t: string) {
    exists i :: 0 <= i <= |s| - |t| && At(s, t, i)
  }

  predicate At(s: string, t: string, i: nat)
    requires i + |t| <= |s|
  {
    s[i..i + |t|] == t
  }

  predicate EndsWith(s: string, t: string) {
    |t| <= |s| && s[|s| - |t|..] == t
  }

  datatype Comparator = TargetPathPrefix | TargetPathContains | TargetPathSuffix | TargetPathEquals

  /** `cmp(target, input)` on normalized strings. */
  predicate Holds(c: Comparator, target: string, input: string) {
    match c
    case TargetPathPrefix => target <= input
    case TargetPathContains => Contains(input, target)
    case TargetPathSuffix => EndsWith(input, target)
    case TargetPathEquals => Lower(target) == Lower(input)
  }

  datatype Filter = Filter(comparator: Comparator, targets: seq<string>, normalizedTargets: seq<string>, negate: bool)

  function NormAll(targets: seq<string>): seq<string> {
    seq(|targets|, i requires 0 <= i < |targets| => NormPathElem(targets[i]))
  }

  /** `PathPrefix`, `NotPathPrefix` and so on. */
  method NewPathFilter(c: Comparator, targets: seq<string>, negate: bool) returns (f: Filter)
    ensures f == Filter(c, targets, NormAll(targets), negate)
  {
    var tgts := [];
    for i := 0 to |targets|
      invariant tgts == NormAll(targets)[..i]
    {
      tgts := tgts + [NormPathElem(targets[i])];
    }
    assert NormAll(targets)[..|targets|] == NormAll(targets);
    f := Filter(c, targets, tgts, negate);
  }

  /** Without normalized targets, the targets are compared as they are. */
  function ComparedTargets(f: Filter): seq<string> {
    if f.normalizedTargets == [] then f.targets else f.normalizedTargets
  }

  ghost predicate AnyHolds(f: Filter, input: string) {
    exists i :: 0 <= i < |ComparedTargets(f)| && Holds(f.comparator, ComparedTargets(f)[i], NormPathElem(input))
  }

  method Compare(f: Filter, input: string) returns (res: bool)
    ensures res <==> (AnyHolds(f, input) != f.negate)
  {
    var normalized := NormPathElem(input);
    var targets := f.normalizedTargets;
    if |targets| == 0 {
      targets := f.targets;
    }
    res := false;
    for i := 0 to |targets|
      invariant targets == ComparedTargets(f)
      invariant !res && forall j :: 0 <= j < i ==> !Holds(f.comparator, targets[j], normalized)
    {
      res := Holds(f.comparator, targets[i], normalized);
      if res {
        assert Holds(f.comparator, ComparedTargets(f)[i], normalized) && AnyHolds(f, input);
        break;
      }
    }
    if f.negate {
      res := !res;
    }
  }

  // ---------------------------------------------------------------------------
  // Normalized paths
  // ---------------------------------------------------------------------------

  predicate PlainElement(e: string) {
    e != "" && PATH_SEPARATOR !in e && ESCAPE_CHARACTER !in e
  }

  predicate Plain(es: Elements) {
    forall i :: 0 <= i < |es| ==> PlainElement(es[i])
  }

  function Flat(es: Elements): string {
    if es == [] then "" else es[0] + [PATH_SEPARATOR] + Flat(es[1..])
  }

  /** Every element between separators. */
  function Framed(es: Elements): string {
    [PATH_SEPARATOR] + Flat(es)
  }

  function LowerAll(es: Elements): (r: Elements)
    ensures |r| == |es| && forall i :: 0 <= i < |es| ==> r[i] == Lower(es[i])
  {
    seq(|es|, i requires 0 <= i < |es| => Lower(es[i]))
  }

  function Slashes(n: nat): string {
    seq(n, i => PATH_SEPARATOR)
  }

  /** A printed path, with or without a separator in front and separators behind, and no space around it. */
  ghost predicate Denotes(s: string, es: Elements) {
    && es != [] && Plain(es) && TrimSpace(s) == s
    && exists n: nat :: s == Print(es) + Slashes(n) || s == [PATH_SEPARATOR] + Print(es) + Slashes(n)
  }

  lemma LowerConcat(a: string, b: string)
    ensures Lower(a + b) == Lower(a) + Lower(b)
  {
  }

  lemma {:induction false} LowerFlat(es: Elements)
    ensures Lower(Flat(es)) == Flat(LowerAll(es))
  {
    if es != [] {
      LowerFlat(es[1..]);
      assert LowerAll(es)[1..] == LowerAll(es[1..]);
      LowerConcat(es[0] + [PATH_SEPARATOR], Flat(es[1..]));
      LowerConcat(es[0], [PATH_SEPARATOR]);
      assert Lower([PATH_SEPARATOR]) == [PATH_SEPARATOR];
    }
  }

  lemma LowerPlain(es: Elements)
    requires Plain(es)
    ensures Plain(LowerAll(es))
  {
    forall i | 0 <= i < |es|
      ensures PlainElement(LowerAll(es)[i])
    {
    }
  }

  lemma {:induction false} FlatHasNoEscapes(es: Elements)
    requires Plain(es)
    ensures ESCAPE_CHARACTER !in Flat(es)
    ensures es != [] ==> |Flat(es)| >= 2 && Flat(es)[0] != PATH_SEPARATOR
    ensures es != [] ==> Flat(es)[|Flat(es)| - 1] == PATH_SEPARATOR && Flat(es)[|Flat(es)| - 2] != PATH_SEPARATOR
  {
    if es != [] {
      assert es[0][0] in es[0] && es[0][|es[0]| - 1] in es[0];
      FlatHasNoEscapes(es[1..]);
      assert es[1..] == [] ==> Flat(es) == es[0] + [PATH_SEPARATOR];
    }
  }

  lemma {:induction false} PlainEscape(e: string)
    requires PATH_SEPARATOR !in e && ESCAPE_CHARACTER !in e
    ensures Escape(e) == e
  {
    if e != "" {
      assert e[0] in e;
      PlainEscape(e[1..]);
    }
  }

  lemma {:induction false} FlatIsPrint(es: Elements)
    requires es != [] && Plain(es)
    ensures Flat(es) == Print(es) + [PATH_SEPARATOR]
  {
    PlainEscape(es[0]);
    if |es| == 1 {
      assert Flat(es[1..]) == "";
      assert Flat(es) == es[0] + [PATH_SEPARATOR];
    } else {
      FlatIsPrint(es[1..]);
      PathLoops.AppendSplit(es[0] + [PATH_SEPARATOR], Print(es[1..]), [PATH_SEPARATOR]);
    }
  }

  lemma FramedIsPrint(es: Elements)
    requires es != [] && Plain(es)
    ensures Framed(es) == [PATH_SEPARATOR] + Print(es) + [PATH_SEPARATOR]
    ensures Print(es) != "" && Print(es)[0] != PATH_SEPARATOR
  {
    FlatIsPrint(es);
    FlatHasNoEscapes(es);
    assert Print(es) == Flat(es)[..|Print(es)|];
    PathLoops.AppendSplit([PATH_SEPARATOR], Print(es), [PATH_SEPARATOR]);
  }

  /** Trailing separators are dropped, all of them. */
  lemma {:induction false} TrimSlashes(s: string, n: nat)
    requires ESCAPE_CHARACTER !in s && s != "" && s[|s| - 1] != PATH_SEPARATOR
    ensures Trim(s + Slashes(n)) == s
  {
    var t := s + Slashes(n);
    if n == 0 {
      assert t == s;
    } else {
      assert Slashes(n)[..n - 1] == Slashes(n - 1);
      assert t[..|t| - 1] == s + Slashes(n - 1);
      TrimSlashes(s, n - 1);
    }
  }

  /** The part of a normalized path in front of its last separator. */
  lemma CoreOf(es: Elements)
    requires es != [] && Plain(es)
    ensures var core := [PATH_SEPARATOR] + Print(es);
      && Framed(es) == core + [PATH_SEPARATOR]
      && ESCAPE_CHARACTER !in core && core[|core| - 1] != PATH_SEPARATOR
      && Print(es) != "" && Print(es)[0] != PATH_SEPARATOR
  {
    var core := [PATH_SEPARATOR] + Print(es);
    FramedIsPrint(es);
    FlatHasNoEscapes(es);
    assert core == Framed(es)[..|core|];
    assert core[|core| - 1] == Framed(es)[|core| - 1] == Flat(es)[|Flat(es)| - 2];
    assert forall c :: c in core ==> c in Framed(es);
  }

  /** Normalizing a path gives its lower-case elements, each between separators. */
  lemma NormOfPath(s: string, es: Elements)
    requires Denotes(s, es)
    ensures NormPathElem(s) == Framed(LowerAll(es))
  {
    var n: nat :| s == Print(es) + Slashes(n) || s == [PATH_SEPARATOR] + Print(es) + Slashes(n);
    var core := [PATH_SEPARATOR] + Print(es);
    CoreOf(es);
    assert (if s[0] != PATH_SEPARATOR then [PATH_SEPARATOR] + s else s) == core + Slashes(n);
    TrimSlashes(core, n);
    LowerFramed(es, core);
  }

  lemma LowerFramed(es: Elements, core: string)
    requires Framed(es) == core + [PATH_SEPARATOR]
    ensures Lower(core) + [PATH_SEPARATOR] == Framed(LowerAll(es))
  {
    LowerConcat(core, [PATH_SEPARATOR]);
    LowerConcat([PATH_SEPARATOR], Flat(es));
    LowerFlat(es);
    assert Lower([PATH_SEPARATOR]) == [PATH_SEPARATOR];
  }

  // ---------------------------------------------------------------------------
  // String tests on normalized paths are element tests
  // ---------------------------------------------------------------------------

  lemma {:induction false} FlatPrefix(a: Elements, b: Elements)
    requires Plain(a) && Plain(b)
    ensures Flat(a) <= Flat(b) <==> a <= b
  {
    if a != [] && b != [] {
      FirstSeparator(a[0], Flat(a[1..]), b[0], Flat(b[1..]));
      FlatPrefix(a[1..], b[1..]);
      assert a == [a[0]] + a[1..] && b == [b[0]] + b[1..];
    }
  }

  lemma FirstSeparator(a: string, x: string, b: string, y: string)
    requires PATH_SEPARATOR !in a && PATH_SEPARATOR !in b
    ensures a + [PATH_SEPARATOR] + x <= b + [PATH_SEPARATOR] + y <==> a == b && x <= y
  {
    var s, t := a + [PATH_SEPARATOR] + x, b + [PATH_SEPARATOR] + y;
    if s <= t {
      LeadingOf(a, x);
      LeadingOf(b, y);
      LeadingPrefix(s, t);
      assert a == s[..|a|] == t[..|a|] == b;
      assert x == s[|a| + 1..] && y == t[|a| + 1..];
    }
  }

  /** How many characters come before the first separator. */
  function Leading(s: string): nat {
    if s == "" || s[0] == PATH_SEPARATOR then 0 else 1 + Leading(s[1..])
  }

  lemma {:induction false} LeadingOf(a: string, x: string)
    requires PATH_SEPARATOR !in a
    ensures Leading(a + [PATH_SEPARATOR] + x) == |a|
  {
    if a == "" {
      assert a + [PATH_SEPARATOR] + x == [PATH_SEPARATOR] + x;
    } else {
      assert a[0] in a;
      LeadingOf(a[1..], x);
      assert (a + [PATH_SEPARATOR] + x)[1..] == a[1..] + [PATH_SEPARATOR] + x;
    }
  }

  lemma {:induction false} LeadingPrefix(s: string, t: string)
    requires s <= t && Leading(s) < |s|
    ensures Leading(t) == Leading(s)
  {
    if s[0] != PATH_SEPARATOR {
      LeadingPrefix(s[1..], t[1..]);
    }
  }

  lemma PrefixMeans(target: Elements, input: Elements)
    requires Plain(target) && Plain(input)
    ensures Framed(target) <= Framed(input) <==> target <= input
  {
    FlatPrefix(target, input);
    assert Framed(target)[1..] == Flat(target) && Framed(input)[1..] == Flat(input);
  }

  /** Every separator of a normalized path is the front of a rest of the path. */
  lemma {:induction false} SeparatorStartsRest(es: Elements, i: nat) returns (n: nat)
    requires Plain(es) && i < |Framed(es)| && Framed(es)[i] == PATH_SEPARATOR
    ensures n <= |es| && Framed(es)[i..] == Framed(es[n..])
  {
    if i == 0 {
      n := 0;
      assert es[0..] == es;
    } else {
      assert Framed(es) == [PATH_SEPARATOR] + es[0] + Framed(es[1..]);
      var j := i - 1 - |es[0]|;
      var m := SeparatorStartsRest(es[1..], j);
      n := m + 1;
      assert es[1..][m..] == es[n..];
    }
  }

  /** Every rest of a path is the end of its normalized form. */
  lemma {:induction false} RestIsSuffix(es: Elements, n: nat)
    requires n <= |es|
    ensures EndsWith(Framed(es), Framed(es[n..]))
  {
    if n == 0 {
      assert es[0..] == es;
    } else {
      RestIsSuffix(es[1..], n - 1);
      assert es[1..][n - 1..] == es[n..];
      assert Framed(es) == [PATH_SEPARATOR] + es[0] + Framed(es[1..]);
    }
  }

  lemma ContainsMeans(target: Elements, input: Elements)
    requires Plain(target) && Plain(input)
    ensures Contains(Framed(input), Framed(target)) <==> exists n :: 0 <= n <= |input| && target <= input[n..]
  {
    var s, t := Framed(input), Framed(target);
    if Contains(s, t) {
      var i :| 0 <= i <= |s| - |t| && At(s, t, i);
      assert s[i] == t[0];
      var n := SeparatorStartsRest(input, i);
      assert t <= s[i..];
      PrefixMeans(target, input[n..]);
    }
    if n :| 0 <= n <= |input| && target <= input[n..] {
      PrefixMeans(target, input[n..]);
      RestIsSuffix(input, n);
      PrefixOfSuffix(s, Framed(input[n..]), t);
    }
  }

  lemma PrefixOfSuffix(s: string, rest: string, t: string)
    requires EndsWith(s, rest) && t <= rest
    ensures Contains(s, t)
  {
    var i := |s| - |rest|;
    assert s[i..i + |t|] == s[i..][..|t|];
    assert At(s, t, i);
  }

  lemma SuffixMeans(target: Elements, input: Elements)
    requires Plain(target) && Plain(input)
    ensures EndsWith(Framed(input), Framed(target)) <==> exists n :: 0 <= n <= |input| && target == input[n..]
  {
    var s, t := Framed(input), Framed(target);
    if EndsWith(s, t) {
      var i := |s| - |t|;
      assert s[i] == t[0];
      var n := SeparatorStartsRest(input, i);
      PrefixMeans(target, input[n..]);
      PrefixMeans(input[n..], target);
    }
    if n :| 0 <= n <= |input| && target == input[n..] {
      RestIsSuffix(input, n);
    }
  }

  /** What a comparator says about the elements of a target and of an input. */
  ghost predicate Relates(c: Comparator, target: Elements, input: Elements) {
    match c
    case TargetPathPrefix => target <= input
    case TargetPathContains => exists n :: 0 <= n <= |input| && target <= input[n..]
    case TargetPathSuffix => exists n :: 0 <= n <= |input| && target == input[n..]
    case TargetPathEquals => target == input
  }

  /** Up to case, the string test on two paths is the element test. */
  lemma HoldsMeansRelates(c: Comparator, target: string, input: string, targetPath: Elements, inputPath: Elements)
    requires Denotes(target, targetPath) && Denotes(input, inputPath)
    ensures Holds(c, NormPathElem(target), NormPathElem(input)) <==>
      Relates(c, LowerAll(targetPath), LowerAll(inputPath))
  {
    NormOfPath(target, targetPath);
    NormOfPath(input, inputPath);
    LowerPlain(targetPath);
    LowerPlain(inputPath);
    var a, b := LowerAll(targetPath), LowerAll(inputPath);
    match c {
      case TargetPathPrefix => PrefixMeans(a, b);
      case TargetPathContains => ContainsMeans(a, b);
      case TargetPathSuffix => SuffixMeans(a, b);
      case TargetPathEquals =>
        LowerIsNorm(a, targetPath);
        LowerIsNorm(b, inputPath);
        PrefixMeans(a, b);
        PrefixMeans(b, a);
    }
  }

  lemma LowerIsNorm(a: Elements, es: Elements)
    requires a == LowerAll(es)
    ensures Lower(Framed(a)) == Framed(a)
  {
    LowerFlat(es);
    LowerConcat([PATH_SEPARATOR], Flat(a));
    assert Lower([PATH_SEPARATOR]) == [PATH_SEPARATOR];
  }

  /** A path filter passes a path exactly if one of its targets relates to it, or none if negated. */
  method ComparePath(c: Comparator, targets: seq<string>, negate: bool, input: string,
                     ghost targetPaths: seq<Elements>, ghost inputPath: Elements)
    returns (res: bool)
    requires |targetPaths| == |targets| && forall i :: 0 <= i < |targets| ==> Denotes(targets[i], targetPaths[i])
    requires Denotes(input, inputPath)
    ensures res != negate <==>
      exists i :: 0 <= i < |targetPaths| && Relates(c, LowerAll(targetPaths[i]), LowerAll(inputPath))
  {
    var f := NewPathFilter(c, targets, negate);
    res := Compare(f, input);
    assert ComparedTargets(f) == f.normalizedTargets;
    forall i | 0 <= i < |targets|
      ensures Holds(c, f.normalizedTargets[i], NormPathElem(input)) <==>
        Relates(c, LowerAll(targetPaths[i]), LowerAll(inputPath))
    {
      HoldsMeansRelates(c, targets[i], input, targetPaths[i], inputPath);
    }
  }

  // ---------------------------------------------------------------------------
  // Two readings of the negated filters
  // ---------------------------------------------------------------------------

  ghost predicate SomeUnrelated(c: Comparator, targets: seq<Elements>, input: Elements) {
    exists i :: 0 <= i < |targets| && !Relates(c, targets[i], input)
  }

  ghost predicate NoneRelated(c: Comparator, targets: seq<Elements>, input: Elements) {
    forall i :: 0 <= i < |targets| ==> !Relates(c, targets[i], input)
  }

  ghost predicate AllRelated(c: Comparator, targets: seq<Elements>, input: Elements) {
    forall i :: 0 <= i < |targets| ==> Relates(c, targets[i], input)
  }

  /**
   The comments of the negated filters speak of "any" target that does not relate to the
   input; the code wants none that does.  The two agree exactly if there are targets, and
   all of them relate or none does.
   */
  lemma NegatedReadingsAgreeIff(c: Comparator, targets: seq<Elements>, input: Elements)
    ensures (SomeUnrelated(c, targets, input) <==> NoneRelated(c, targets, input)) <==>
      targets != [] && (AllRelated(c, targets, input) || NoneRelated(c, targets, input))
  {
    if targets != [] && NoneRelated(c, targets, input) {
      assert !Relates(c, targets[0], input);
    }
  }

  /** They differ on two targets of which one is a prefix: the code then rejects the input. */
  lemma NegatedReadingsDiffer()
    ensures var targets, input := [["a"], ["b"]], ["a", "c"];
      SomeUnrelated(TargetPathPrefix, targets, input) && !NoneRelated(TargetPathPrefix, targets, input)
  {
    var targets, input := [["a"], ["b"]], ["a", "c"];
    assert targets[0] <= input && Relates(TargetPathPrefix, targets[0], input);
    assert targets[1][0] != input[0] && !Relates(TargetPathPrefix, targets[1], input);
  }
}

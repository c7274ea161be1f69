/**
 The escaped paths of src/pkg/path as functions; PathLoops has the loops that refine them.
 */
module PathEscaping {
  import opened Wrappers

  type Elements = seq<string>

  const ESCAPE_CHARACTER := '\\'
  const PATH_SEPARATOR := '/'

  datatype PathError =
    | BadEscapeSequence
    | UnescapedCharacter
    | TrailingEscape

  predicate NeedsEscape(c: char) {
    c == PATH_SEPARATOR || c == ESCAPE_CHARACTER
  }

  ghost predicate AllNonEmpty(es: Elements) {
    forall i :: 0 <= i < |es| ==> es[i] != ""
  }

  // ---------------------------------------------------------------------------
  // Single elements
  // ---------------------------------------------------------------------------

  function EscapeChar(c: char): string {
    if NeedsEscape(c) then [ESCAPE_CHARACTER, c] else [c]
  }

  function Escape(element: string): string {
    if element == "" then ""
    else EscapeChar(element[0]) + Escape(element[1..])
  }

  /** Drops every escape character that is not itself escaped. */
  function Unescape(element: string): string {
    if element == "" then ""
    else if element[0] == ESCAPE_CHARACTER then
      if |element| == 1 then "" else [element[1]] + Unescape(element[2..])
    else [element[0]] + Unescape(element[1..])
  }

  /** The first rule of the escape language that `element` breaks, if any. */
  function CheckEscaped(element: string): Option<PathError> {
    if element == "" then None
    else if element[0] == ESCAPE_CHARACTER then
      if |element| == 1 then Some(TrailingEscape)
      else if !NeedsEscape(element[1]) then Some(BadEscapeSequence)
      else CheckEscaped(element[2..])
    else if NeedsEscape(element[0]) then Some(UnescapedCharacter)
    else CheckEscaped(element[1..])
  }

  lemma {:induction false} EscapeConcat(a: string, b: string)
    ensures Escape(a + b) == Escape(a) + Escape(b)
  {
    if a == "" {
      assert a + b == b;
    } else {
      EscapeConcat(a[1..], b);
      EscapeHead(a, b);
      Regroup(EscapeChar(a[0]), Escape(a[1..]), Escape(b));
    }
  }

  lemma EscapeHead(a: string, b: string)
    requires a != ""
    ensures Escape(a + b) == EscapeChar(a[0]) + Escape(a[1..] + b)
  {
    assert (a + b)[1..] == a[1..] + b;
  }

  lemma Regroup(x: string, y: string, z: string)
    ensures x + (y + z) == x + y + z
  {
  }

  lemma {:induction false} EscapedIsValid(e: string)
    ensures CheckEscaped(Escape(e)) == None
    ensures Unescape(Escape(e)) == e
  {
    if e != "" {
      EscapedIsValid(e[1..]);
      var s := Escape(e);
      if NeedsEscape(e[0]) {
        assert s[2..] == Escape(e[1..]);
      } else {
        assert s[1..] == Escape(e[1..]);
      }
    }
  }

  lemma {:induction false} ValidIsEscaped(s: string)
    requires CheckEscaped(s) == None
    ensures Escape(Unescape(s)) == s
    ensures s != "" ==> Unescape(s) != ""
  {
    if s != "" {
      if s[0] == ESCAPE_CHARACTER {
        ValidIsEscaped(s[2..]);
        assert Unescape(s)[1..] == Unescape(s[2..]);
        assert s == [s[0], s[1]] + s[2..];
      } else {
        ValidIsEscaped(s[1..]);
        assert Unescape(s)[1..] == Unescape(s[1..]);
        assert s == [s[0]] + s[1..];
      }
    }
  }

  /** `validateEscapedElement` accepts exactly the image of `escapeElement`. */
  lemma ValidIffImageOfEscape(s: string)
    ensures CheckEscaped(s) == None <==> exists e :: s == Escape(e)
  {
    if CheckEscaped(s) == None {
      ValidIsEscaped(s);
    }
    forall e | s == Escape(e)
      ensures CheckEscaped(s) == None
    {
      EscapedIsValid(e);
    }
  }

  // ---------------------------------------------------------------------------
  // Printing
  // ---------------------------------------------------------------------------

  function Print(es: Elements): string {
    if |es| == 0 then ""
    else if |es| == 1 then Escape(es[0])
    else Escape(es[0]) + [PATH_SEPARATOR] + Print(es[1..])
  }

  /** What a printed path looks like: a backslash before each slash and backslash of an element, slashes between. */
  lemma PrintedForm(c: char, rest: string, es: Elements)
    ensures Print([]) == "" && Print([""]) == ""
    ensures Print([[c] + rest]) == (if c == '/' || c == '\\' then "\\" else "") + [c] + Print([rest])
    ensures es != [] ==> Print([rest] + es) == Print([rest]) + "/" + Print(es)
  {
    assert ([c] + rest)[1..] == rest;
    assert ([rest] + es)[1..] == es;
  }

  lemma {:induction false} PrintConcat(a: Elements, b: Elements)
    requires a != [] && b != []
    ensures Print(a + b) == Print(a) + [PATH_SEPARATOR] + Print(b)
  {
    if |a| == 1 {
      assert (a + b)[1..] == b;
    } else {
      PrintConcat(a[1..], b);
      assert (a + b)[1..] == a[1..] + b;
    }
  }

  // ---------------------------------------------------------------------------
  // Splitting
  // ---------------------------------------------------------------------------

  /** `s` stops inside an escape sequence: it ends in an odd run of escape characters. */
  predicate EscapeOpen(s: string) {
    s != "" && s[|s| - 1] == ESCAPE_CHARACTER && !EscapeOpen(s[..|s| - 1])
  }

  predicate EndsInSeparator(s: string) {
    s != "" && s[|s| - 1] == PATH_SEPARATOR && !EscapeOpen(s[..|s| - 1])
  }

  /** `TrimTrailingSlash`: drops unescaped separators from the end. */
  function Trim(s: string): (r: string)
    ensures |r| <= |s| && r == s[..|r|] && !EndsInSeparator(r)
  {
    if EndsInSeparator(s) then Trim(s[..|s| - 1]) else s
  }

  /** Exactly the separators at the end are dropped that no escape character protects. */
  lemma {:induction false} TrimDropsSeparators(s: string, i: nat)
    requires i <= |s|
    ensures |Trim(s)| < i ==> EndsInSeparator(s[..i])
    ensures i == |Trim(s)| ==> Trim(s) == s[..i] && !EndsInSeparator(s[..i])
  {
    if EndsInSeparator(s) {
      if i == |s| {
        assert s[..i] == s;
      } else {
        assert s[..|s| - 1][..i] == s[..i];
        TrimDropsSeparators(s[..|s| - 1], i);
      }
    }
  }

  /**
   A one-pass tokenizer.  `cur` is the token being read and `esc` says whether the
   previous character was an escape character that is not itself escaped.  Empty
   tokens are dropped, except that the last token is always produced.
   */
  function Tokens(s: string, cur: string, esc: bool): (r: Elements)
    ensures |r| >= 1
    ensures forall i :: 0 <= i < |r| - 1 ==> r[i] != ""
    decreases |s|
  {
    if s == "" then [cur]
    else if s[0] == PATH_SEPARATOR && !esc then
      (if cur == "" then [] else [cur]) + Tokens(s[1..], "", false)
    else Tokens(s[1..], cur + [s[0]], s[0] == ESCAPE_CHARACTER && !esc)
  }

  /** What `Split` returns. */
  function SplitPath(s: string): Elements {
    Tokens(s, "", false)
  }

  // ---------------------------------------------------------------------------
  // Parsing
  // ---------------------------------------------------------------------------

  /** `appendElements(true, ...)` on an empty builder. */
  function UnescapeAll(tokens: seq<string>): Result<Elements, PathError> {
    if tokens == [] then Ok([])
    else
      var t := Trim(tokens[0]);
      if t == "" then UnescapeAll(tokens[1..])
      else
        match CheckEscaped(t)
        case Some(e) => Err(e)
        case None =>
          var rest :- UnescapeAll(tokens[1..]);
          Ok([Unescape(t)] + rest)
  }

  /** `Builder{}.SplitUnescapeAppend(s)`. */
  function Parse(s: string): Result<Elements, PathError> {
    UnescapeAll(SplitPath(Trim(s)))
  }

  // ---------------------------------------------------------------------------
  // Round trip
  // ---------------------------------------------------------------------------

  lemma TokensStep(c: char, s: string, cur: string, esc: bool)
    requires c != PATH_SEPARATOR || esc
    ensures Tokens([c] + s, cur, esc) == Tokens(s, cur + [c], c == ESCAPE_CHARACTER && !esc)
  {
    assert ([c] + s)[1..] == s;
  }

  lemma TokensOfEscapedChar(c: char, rest: string, cur: string)
    ensures Tokens(EscapeChar(c) + rest, cur, false) == Tokens(rest, cur + EscapeChar(c), false)
  {
    if NeedsEscape(c) {
      assert EscapeChar(c) + rest == [ESCAPE_CHARACTER] + ([c] + rest);
      TokensStep(ESCAPE_CHARACTER, [c] + rest, cur, false);
      TokensStep(c, rest, cur + [ESCAPE_CHARACTER], true);
      assert cur + [ESCAPE_CHARACTER] + [c] == cur + EscapeChar(c);
    } else {
      TokensStep(c, rest, cur, false);
    }
  }

  lemma EscapeFront(e: string, rest: string, cur: string)
    requires e != ""
    ensures Escape(e) + rest == EscapeChar(e[0]) + (Escape(e[1..]) + rest)
    ensures cur + Escape(e) == cur + EscapeChar(e[0]) + Escape(e[1..])
  {
  }

  /** Reading an escaped element moves it into the current token, whatever follows. */
  lemma {:induction false} TokensOfEscaped(e: string, rest: string, cur: string)
    ensures Tokens(Escape(e) + rest, cur, false) == Tokens(rest, cur + Escape(e), false)
  {
    if e == "" {
      assert Escape(e) + rest == rest;
      assert cur + Escape(e) == cur;
    } else {
      EscapeFront(e, rest, cur);
      TokensOfEscapedChar(e[0], Escape(e[1..]) + rest, cur);
      TokensOfEscaped(e[1..], rest, cur + EscapeChar(e[0]));
    }
  }

  function EscapeAll(es: Elements): Elements {
    if es == [] then [] else [Escape(es[0])] + EscapeAll(es[1..])
  }

  lemma EscapeNonEmpty(e: string)
    ensures e != "" ==> Escape(e) != ""
  {
  }

  lemma {:induction false} SplitOfPrinted(es: Elements)
    requires AllNonEmpty(es) && es != []
    ensures SplitPath(Print(es)) == EscapeAll(es)
  {
    EscapeNonEmpty(es[0]);
    if |es| == 1 {
      TokensOfEscaped(es[0], "", "");
      assert Escape(es[0]) + "" == Escape(es[0]);
      assert "" + Escape(es[0]) == Escape(es[0]);
      assert EscapeAll(es[1..]) == [];
    } else {
      var rest := [PATH_SEPARATOR] + Print(es[1..]);
      assert Print(es) == Escape(es[0]) + rest;
      TokensOfEscaped(es[0], rest, "");
      assert "" + Escape(es[0]) == Escape(es[0]);
      assert rest[1..] == Print(es[1..]);
      SplitOfPrinted(es[1..]);
    }
  }

  /** An escaped element always closes the escape sequences that it opens. */
  lemma {:induction false} EscapedIsClosed(prefix: string, e: string)
    requires !EscapeOpen(prefix)
    ensures !EscapeOpen(prefix + Escape(e))
    decreases |e|
  {
    if e == "" {
      assert prefix + Escape(e) == prefix;
    } else {
      var init, last := e[..|e| - 1], e[|e| - 1];
      EscapedLast(e);
      var s := prefix + Escape(e);
      assert s[|s| - 1] == last;
      if last == ESCAPE_CHARACTER {
        EscapedIsClosed(prefix, init);
        var s' := s[..|s| - 1];
        assert s'[..|s'| - 1] == prefix + Escape(init);
        assert s'[|s'| - 1] == ESCAPE_CHARACTER;
      }
    }
  }

  lemma EscapedLast(e: string)
    requires e != ""
    ensures var init, last := e[..|e| - 1], e[|e| - 1];
      Escape(e) == Escape(init) + EscapeChar(last)
  {
    var init, last := e[..|e| - 1], e[|e| - 1];
    assert e == init + [last];
    EscapeConcat(init, [last]);
    assert Escape([last]) == EscapeChar(last) + "";
  }

  lemma {:induction false} EscapedNeverEndsInSeparator(prefix: string, e: string)
    requires !EscapeOpen(prefix) && e != ""
    ensures !EndsInSeparator(prefix + Escape(e))
  {
    var init, last := e[..|e| - 1], e[|e| - 1];
    EscapedLast(e);
    var s := prefix + Escape(e);
    assert s[|s| - 1] == last;
    if last == PATH_SEPARATOR {
      EscapedIsClosed(prefix, init);
      var s' := s[..|s| - 1];
      assert s'[..|s'| - 1] == prefix + Escape(init);
      assert s'[|s'| - 1] == ESCAPE_CHARACTER;
    }
  }

  lemma {:induction false} PrintedNeverEndsInSeparator(prefix: string, es: Elements)
    requires AllNonEmpty(es) && es != []
    requires !EscapeOpen(prefix)
    ensures !EndsInSeparator(prefix + Print(es))
    decreases |es|
  {
    if |es| == 1 {
      EscapedNeverEndsInSeparator(prefix, es[0]);
    } else {
      var prefix' := prefix + Escape(es[0]) + [PATH_SEPARATOR];
      assert prefix'[|prefix'| - 1] == PATH_SEPARATOR;
      assert prefix + Print(es) == prefix' + Print(es[1..]);
      PrintedNeverEndsInSeparator(prefix', es[1..]);
    }
  }

  lemma {:induction false} UnescapeAllOfEscaped(es: Elements)
    requires AllNonEmpty(es)
    ensures UnescapeAll(EscapeAll(es)) == Ok(es)
  {
    if es != [] {
      EscapedIsValid(es[0]);
      EscapeNonEmpty(es[0]);
      EscapedNeverEndsInSeparator("", es[0]);
      assert "" + Escape(es[0]) == Escape(es[0]);
      assert EscapeAll(es)[1..] == EscapeAll(es[1..]);
      UnescapeAllOfEscaped(es[1..]);
      assert [es[0]] + es[1..] == es;
    }
  }

  /** Parsing the printed form of any list of non-empty elements gives the list back. */
  lemma ParsePrint(es: Elements)
    requires AllNonEmpty(es)
    ensures Parse(Print(es)) == Ok(es)
  {
    if es == [] {
      assert Parse("") == UnescapeAll([""]);
    } else {
      PrintedNeverEndsInSeparator("", es);
      assert "" + Print(es) == Print(es);
      SplitOfPrinted(es);
      UnescapeAllOfEscaped(es);
    }
  }

  /** Printing is injective on lists of non-empty elements, so it is usable as a map key. */
  lemma PrintInjective(a: Elements, b: Elements)
    requires AllNonEmpty(a) && AllNonEmpty(b)
    ensures Print(a) == Print(b) <==> a == b
  {
    ParsePrint(a);
    ParsePrint(b);
  }

  lemma {:induction false} UnescapeAllNonEmpty(tokens: seq<string>)
    ensures var r := UnescapeAll(tokens); r.Ok? ==> AllNonEmpty(r.value)
  {
    if tokens != [] {
      UnescapeAllNonEmpty(tokens[1..]);
      var t := Trim(tokens[0]);
      if t != "" && CheckEscaped(t) == None {
        ValidIsEscaped(t);
      }
    }
  }

  /** Every accepted string parses to the same elements as its canonical reprint. */
  lemma ReprintIsCanonical(s: string)
    requires Parse(s).Ok?
    ensures AllNonEmpty(Parse(s).value)
    ensures Parse(Print(Parse(s).value)) == Parse(s)
  {
    UnescapeAllNonEmpty(SplitPath(Trim(s)));
    ParsePrint(Parse(s).value);
  }

  // ---------------------------------------------------------------------------
  // Which strings parse
  // ---------------------------------------------------------------------------

  /**
   Every escape character escapes a character that needs it.  Separators may stand
   anywhere, escaped or not.
   */
  ghost predicate EscapesAreSound(s: string) {
    && !EscapeOpen(s)
    && forall i :: 0 <= i < |s| && EscapeOpen(s[..i]) ==> NeedsEscape(s[i])
  }

  ghost predicate NoBareSeparator(s: string) {
    forall i :: 0 <= i < |s| && s[i] == PATH_SEPARATOR ==> EscapeOpen(s[..i])
  }

  lemma {:induction false} EscapeOpenConcat(a: string, b: string)
    requires !EscapeOpen(a)
    ensures EscapeOpen(a + b) == EscapeOpen(b)
    decreases |b|
  {
    if b == "" {
      assert a + b == a;
    } else {
      EscapeOpenConcat(a, b[..|b| - 1]);
      assert (a + b)[..|a + b| - 1] == a + b[..|b| - 1];
    }
  }

  /** Both conditions on escape sequences can be checked piecewise. */
  lemma SoundConcat(a: string, b: string)
    requires !EscapeOpen(a)
    ensures EscapesAreSound(a + b) <==> EscapesAreSound(a) && EscapesAreSound(b)
    ensures NoBareSeparator(a + b) <==> NoBareSeparator(a) && NoBareSeparator(b)
  {
    var s := a + b;
    EscapeOpenConcat(a, b);
    forall i | 0 <= i < |a|
      ensures s[..i] == a[..i] && s[i] == a[i]
    {
    }
    forall i | 0 <= i < |b|
      ensures EscapeOpen(s[..|a| + i]) == EscapeOpen(b[..i]) && s[|a| + i] == b[i]
    {
      EscapeOpenConcat(a, b[..i]);
      assert s[..|a| + i] == a + b[..i];
    }
    forall i | |a| <= i < |s|
      ensures EscapeOpen(s[..i]) == EscapeOpen(b[..i - |a|]) && s[i] == b[i - |a|]
    {
      assert EscapeOpen(s[..|a| + (i - |a|)]) == EscapeOpen(b[..i - |a|]);
    }
  }

  lemma SoundSingle(c: char)
    ensures EscapesAreSound([c]) <==> c != ESCAPE_CHARACTER
    ensures NoBareSeparator([c]) <==> c != PATH_SEPARATOR
  {
    assert [c][..0] == "";
  }

  lemma SoundPair(c: char)
    ensures !EscapeOpen([ESCAPE_CHARACTER, c])
    ensures EscapesAreSound([ESCAPE_CHARACTER, c]) <==> NeedsEscape(c)
    ensures NoBareSeparator([ESCAPE_CHARACTER, c])
  {
    var s := [ESCAPE_CHARACTER, c];
    assert s[..0] == "" && s[..1] == [ESCAPE_CHARACTER];
    assert EscapeOpen(s[..1]);
  }

  lemma {:induction false} CheckEscapedIsSound(s: string)
    ensures CheckEscaped(s) == None <==> EscapesAreSound(s) && NoBareSeparator(s)
  {
    if s == "" {
    } else if s[0] != ESCAPE_CHARACTER {
      assert s == [s[0]] + s[1..];
      assert [s[0]][..0] == "";
      SoundSingle(s[0]);
      SoundConcat([s[0]], s[1..]);
      CheckEscapedIsSound(s[1..]);
    } else if |s| == 1 {
      SoundSingle(s[0]);
      assert s == [s[0]];
    } else {
      assert s == [ESCAPE_CHARACTER, s[1]] + s[2..];
      SoundPair(s[1]);
      SoundConcat([ESCAPE_CHARACTER, s[1]], s[2..]);
      CheckEscapedIsSound(s[2..]);
    }
  }

  ghost predicate NoneBare(tokens: seq<string>) {
    forall i :: 0 <= i < |tokens| ==> NoBareSeparator(tokens[i])
  }

  ghost predicate AllValid(tokens: seq<string>) {
    forall i :: 0 <= i < |tokens| ==> EscapesAreSound(tokens[i]) && NoBareSeparator(tokens[i])
  }

  lemma NoBareSeparatorTrim(t: string)
    requires NoBareSeparator(t)
    ensures Trim(t) == t
  {
  }

  lemma {:induction false} UnescapeAllAccepts(tokens: seq<string>)
    requires NoneBare(tokens)
    ensures UnescapeAll(tokens).Ok? <==> AllValid(tokens)
  {
    if tokens != [] {
      var t := tokens[0];
      NoBareSeparatorTrim(t);
      CheckEscapedIsSound(t);
      UnescapeAllAccepts(tokens[1..]);
      AllValidCons(t, tokens[1..]);
      assert tokens == [t] + tokens[1..];
    }
  }

  lemma AllValidCons(t: string, rest: seq<string>)
    requires NoBareSeparator(t)
    ensures NoneBare([t] + rest) <==> NoneBare(rest)
    ensures AllValid([t] + rest) <==> EscapesAreSound(t) && AllValid(rest)
  {
    var all := [t] + rest;
    assert all[0] == t;
    assert forall i :: 0 <= i < |rest| ==> rest[i] == all[i + 1];
    assert forall i :: 1 <= i < |all| ==> all[i] == rest[i - 1];
  }

  lemma NoBareSnoc(cur: string, c: char)
    requires NoBareSeparator(cur) && (c == PATH_SEPARATOR ==> EscapeOpen(cur))
    ensures NoBareSeparator(cur + [c])
  {
    var s := cur + [c];
    forall i | 0 <= i < |s| && s[i] == PATH_SEPARATOR
      ensures EscapeOpen(s[..i])
    {
      assert s[..i] == if i < |cur| then cur[..i] else cur;
    }
  }

  lemma SoundAcrossSeparator(a: string, b: string)
    requires !EscapeOpen(a)
    ensures EscapesAreSound(a + [PATH_SEPARATOR] + b) <==> EscapesAreSound(a) && EscapesAreSound(b)
  {
    var sep := [PATH_SEPARATOR];
    SoundSingle(PATH_SEPARATOR);
    SoundConcat(a, sep);
    EscapeOpenConcat(a, sep);
    SoundConcat(a + sep, b);
  }

  lemma {:induction false} TokensSound(s: string, cur: string, esc: bool)
    requires esc == EscapeOpen(cur) && NoBareSeparator(cur)
    ensures NoneBare(Tokens(s, cur, esc))
    ensures AllValid(Tokens(s, cur, esc)) <==> EscapesAreSound(cur + s)
    decreases |s|
  {
    if s == "" {
      assert cur + s == cur;
      AllValidCons(cur, []);
      assert [cur] + [] == [cur];
    } else if s[0] == PATH_SEPARATOR && !esc {
      TokensSound(s[1..], "", false);
      assert "" + s[1..] == s[1..];
      SoundAcrossSeparator(cur, s[1..]);
      assert cur + s == cur + [PATH_SEPARATOR] + s[1..];
      var rest := Tokens(s[1..], "", false);
      if cur == "" {
        assert Tokens(s, cur, esc) == rest;
      } else {
        assert Tokens(s, cur, esc) == [cur] + rest;
        AllValidCons(cur, rest);
      }
    } else {
      var cur' := cur + [s[0]];
      NoBareSnoc(cur, s[0]);
      assert cur'[..|cur'| - 1] == cur;
      TokensSound(s[1..], cur', s[0] == ESCAPE_CHARACTER && !esc);
      assert cur' + s[1..] == cur + s;
    }
  }

  lemma {:induction false} TrimKeepsSoundness(s: string)
    ensures EscapesAreSound(Trim(s)) <==> EscapesAreSound(s)
  {
    if EndsInSeparator(s) {
      var s' := s[..|s| - 1];
      assert s == s' + [PATH_SEPARATOR];
      SoundSingle(PATH_SEPARATOR);
      SoundConcat(s', [PATH_SEPARATOR]);
      TrimKeepsSoundness(s');
    }
  }

  /** A string parses exactly if none of its escape sequences is malformed. */
  lemma ParseAcceptsIff(s: string)
    ensures Parse(s).Ok? <==> EscapesAreSound(s)
  {
    var t := Trim(s);
    TokensSound(t, "", false);
    assert "" + t == t;
    UnescapeAllAccepts(SplitPath(t));
    TrimKeepsSoundness(s);
  }

  // ---------------------------------------------------------------------------
  // Prefixes
  // ---------------------------------------------------------------------------

  ghost predicate StrictStringPrefix(a: string, b: string) {
    |a| < |b| && b[..|a|] == a
  }

  /**
   A proper element prefix is always caught by a string-prefix test on the printed
   forms, with different lengths.
   */
  lemma ElementPrefixIsStringPrefix(a: Elements, b: Elements)
    requires a != [] && a < b
    ensures StrictStringPrefix(Print(a), Print(b))
  {
    var rest := b[|a|..];
    assert b == a + rest;
    PrintConcat(a, rest);
  }

  /** What may follow an element in a printed path. */
  ghost predicate Ends(x: string) {
    x == "" || x[0] == PATH_SEPARATOR
  }

  lemma EscapedChars(c: char, x: string, d: char, y: string)
    ensures EscapeChar(c) + x <= EscapeChar(d) + y <==> c == d && x <= y
  {
    var s, t := EscapeChar(c) + x, EscapeChar(d) + y;
    var n, m := |EscapeChar(c)|, |EscapeChar(d)|;
    assert s[n..] == x && s[n - 1] == c && t[m - 1] == d;
    assert s[0] == EscapeChar(c)[0] && t[0] == EscapeChar(d)[0];
    assert s <= t ==> s[0] == t[0] && s[n - 1] == t[n - 1];
    if c == d {
      assert t[n..] == y;
      assert s <= t ==> y[..|x|] == t[n..|s|] == x;
    }
  }

  lemma EscapeUnfolds(e: string, x: string)
    requires e != ""
    ensures Escape(e) + x == EscapeChar(e[0]) + (Escape(e[1..]) + x)
    ensures Escape(e) + x != "" && (Escape(e) + x)[0] != PATH_SEPARATOR
  {
  }

  /** Escaped elements are compared like the elements, up to where they end. */
  lemma {:induction false} EscapedPrefix(e: string, x: string, f: string, y: string)
    requires Ends(x) && Ends(y)
    ensures Escape(e) + x <= Escape(f) + y <==> if x == "" then e <= f else e == f && x <= y
  {
    if e == "" {
      assert Escape(e) + x == x;
      if f == "" {
        assert Escape(f) + y == y;
      } else {
        EscapeUnfolds(f, y);
      }
    } else {
      EscapeUnfolds(e, x);
      if f == "" {
        assert Escape(f) + y == y;
      } else {
        EscapeUnfolds(f, y);
        EscapedChars(e[0], Escape(e[1..]) + x, f[0], Escape(f[1..]) + y);
        EscapedPrefix(e[1..], x, f[1..], y);
        assert e == [e[0]] + e[1..] && f == [f[0]] + f[1..];
      }
    }
  }

  function PrintRest(es: Elements): string {
    if es == [] then "" else [PATH_SEPARATOR] + Print(es)
  }

  /** `b` is `a`, or below `a` or below a sibling of `a` whose name begins with that of `a`. */
  ghost predicate NearlyBelow(a: Elements, b: Elements)
    requires a != []
  {
    && |a| <= |b| && a[..|a| - 1] == b[..|a| - 1]
    && a[|a| - 1] <= b[|a| - 1]
  }

  lemma NearlyBelowStep(a: Elements, b: Elements)
    requires |a| > 1 && b != []
    ensures NearlyBelow(a, b) <==> a[0] == b[0] && |b| > 1 && NearlyBelow(a[1..], b[1..])
  {
    if |b| > 1 && |a| <= |b| {
      var n := |a| - 1;
      assert a[..n] == [a[0]] + a[1..][..n - 1];
      assert b[..n] == [b[0]] + b[1..][..n - 1];
    }
  }

  lemma {:induction false} PrintedPrefix(a: Elements, b: Elements)
    requires a != [] && b != []
    ensures Print(a) <= Print(b) <==> NearlyBelow(a, b)
    decreases |a|
  {
    var x, y := PrintRest(a[1..]), PrintRest(b[1..]);
    assert Print(a) == Escape(a[0]) + x && Print(b) == Escape(b[0]) + y;
    EscapedPrefix(a[0], x, b[0], y);
    if |a| > 1 {
      NearlyBelowStep(a, b);
      if |b| > 1 {
        PrintedPrefix(a[1..], b[1..]);
        assert x[1..] == Print(a[1..]) && y[1..] == Print(b[1..]);
        assert Print(a[1..]) <= Print(b[1..]) ==> x <= y;
      }
    }
  }

  /**
   The string test relates two different paths exactly if the second is below the first, or
   is or is below a sibling whose name begins with the first one's last element.
   */
  lemma StringPrefixIff(a: Elements, b: Elements)
    requires a != [] && b != [] && AllNonEmpty(a) && AllNonEmpty(b)
    ensures StrictStringPrefix(Print(a), Print(b)) <==> a != b && NearlyBelow(a, b)
  {
    PrintedPrefix(a, b);
    PrintInjective(a, b);
    assert StrictStringPrefix(Print(a), Print(b)) <==> Print(a) <= Print(b) && Print(a) != Print(b);
  }

  /** It relates siblings such as `a` and `ab`, of which neither is below the other. */
  lemma StringPrefixOverApproximates()
    ensures StrictStringPrefix(Print(["r", "a"]), Print(["r", "ab"]))
    ensures !(["r", "a"] <= ["r", "ab"])
  {
    var a, b := ["r", "a"], ["r", "ab"];
    assert a[..1] == b[..1] && "a" <= "ab" && a[1] != b[1];
    StringPrefixIff(a, b);
  }
}

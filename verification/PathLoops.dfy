/**
 The loops of src/pkg/path/path.go and elements.go, and the mutable builder of
 builder.go, each proved against the specification functions of PathEscaping.
 */
module PathLoops {
  import opened Wrappers
  import opened PathEscaping

  // ---------------------------------------------------------------------------
  // path.go
  // ---------------------------------------------------------------------------

  method TrimTrailingSlash(s: string) returns (element: string)
    ensures element == Trim(s)
  {
    element := s;
    while |element| > 0 && element[|element| - 1] == PATH_SEPARATOR
      invariant Trim(element) == Trim(s)
      decreases |element|
    {
      var lastIdx := |element| - 1;
      var numSlashes := 0;
      var i := lastIdx - 1;
      while i >= 0
        invariant -1 <= i < lastIdx
        invariant EscapeOpen(element[..lastIdx]) == (EscapeOpen(element[..i + 1]) == (numSlashes % 2 == 0))
      {
        if element[i] != ESCAPE_CHARACTER {
          break;
        }
        assert element[..i + 1][..i] == element[..i];
        numSlashes := numSlashes + 1;
        i := i - 1;
      }
      assert !EscapeOpen(element[..i + 1]);
      if numSlashes % 2 != 0 {
        break;
      }
      element := element[..lastIdx];
    }
  }

  method Split(segment: string) returns (res: seq<string>)
    ensures res == SplitPath(segment)
  {
    res := [];
    var numEscapes, startIdx, prevWasSeparator := 0, 0, true;
    for i := 0 to |segment|
      invariant 0 <= startIdx <= i
      invariant prevWasSeparator == (startIdx == i)
      invariant res + Tokens(segment[i..], segment[startIdx..i], numEscapes % 2 != 0) == SplitPath(segment)
    {
      var c := segment[i];
      TokensAt(segment, startIdx, i, numEscapes % 2 != 0);
      if c == ESCAPE_CHARACTER {
        prevWasSeparator := false;
        numEscapes := numEscapes + 1;
        continue;
      }
      if c != PATH_SEPARATOR {
        prevWasSeparator := false;
        numEscapes := 0;
        continue;
      }
      if numEscapes % 2 != 0 {
        prevWasSeparator := false;
        numEscapes := 0;
        continue;
      }
      if !prevWasSeparator {
        res := res + [segment[startIdx..i]];
      }
      startIdx := i + 1;
      prevWasSeparator := true;
      numEscapes := 0;
    }
    assert segment[|segment|..] == "";
    assert segment[startIdx..|segment|] == segment[startIdx..];
    res := res + [segment[startIdx..]];
  }

  /** What the tokenizer does with the character at `i`, in terms of slices. */
  lemma TokensAt(segment: string, startIdx: nat, i: nat, esc: bool)
    requires startIdx <= i < |segment|
    ensures var c, cur, rest := segment[i], segment[startIdx..i], segment[i + 1..];
      && segment[i + 1..i + 1] == ""
      && Tokens(segment[i..], cur, esc) ==
           if c == PATH_SEPARATOR && !esc then (if cur == "" then [] else [cur]) + Tokens(rest, "", false)
           else Tokens(rest, segment[startIdx..i + 1], c == ESCAPE_CHARACTER && !esc)
  {
    assert segment[i..][1..] == segment[i + 1..];
    assert segment[startIdx..i] + [segment[i]] == segment[startIdx..i + 1];
  }

  /** No character of `s` needs an escape. */
  predicate Plain(s: string) {
    forall i :: 0 <= i < |s| ==> !NeedsEscape(s[i])
  }

  lemma {:induction false} EscapePlain(s: string)
    requires Plain(s)
    ensures Escape(s) == s
  {
    if s != "" {
      EscapePlain(s[1..]);
      assert s == [s[0]] + s[1..];
    }
  }

  ghost predicate EscapePositions(element: string, n: nat, idxs: seq<nat>)
    requires n <= |element|
  {
    && (forall k :: 0 <= k < |idxs| ==> idxs[k] < n && NeedsEscape(element[idxs[k]]))
    && (forall j, k :: 0 <= j < k < |idxs| ==> idxs[j] < idxs[k])
    && (forall i :: 0 <= i < n && NeedsEscape(element[i]) ==> i in idxs)
  }

  lemma PlainBetweenPositions(element: string, idxs: seq<nat>, k: nat)
    requires EscapePositions(element, |element|, idxs) && k <= |idxs|
    ensures Done(idxs, k) <= Upto(element, idxs, k) <= |element|
    ensures Plain(element[Done(idxs, k)..Upto(element, idxs, k)])
  {
    var from, upto := Done(idxs, k), Upto(element, idxs, k);
    forall i | from <= i < upto
      ensures !NeedsEscape(element[i])
    {
      assert forall j :: 0 <= j < |idxs| ==> idxs[j] < from || upto <= idxs[j];
    }
  }

  /** Where the k-th copying step of `EscapeElement` stops. */
  ghost function Upto(element: string, idxs: seq<nat>, k: nat): nat {
    if k < |idxs| then idxs[k] else |element|
  }

  /** How much of the element is accounted for after k copying steps. */
  ghost function Done(idxs: seq<nat>, k: nat): nat
    requires k <= |idxs|
  {
    if k == 0 then 0 else idxs[k - 1] + 1
  }

  lemma SliceSplit(s: string, i: nat, j: nat, k: nat)
    requires i <= j <= k <= |s|
    ensures s[i..k] == s[i..j] + s[j..k]
  {
  }

  lemma AppendSplit(a: string, b: string, c: string)
    ensures a + b + c == a + (b + c)
  {
  }

  /** The output so far and the pending stretch are the escaped form of what was covered. */
  ghost predicate EscapeProgress(element: string, startIdx: nat, done: nat, b: string) {
    && startIdx <= done <= |element|
    && b + element[startIdx..done] == Escape(element[..done])
  }

  /** One copying step: a plain stretch, then a character that gets an escape. */
  lemma EscapeStep(element: string, startIdx: nat, done: nat, idx: nat, b: string)
    requires EscapeProgress(element, startIdx, done, b)
    requires done <= idx < |element|
    requires Plain(element[done..idx]) && NeedsEscape(element[idx])
    ensures EscapeProgress(element, idx, idx + 1, b + element[startIdx..idx] + [ESCAPE_CHARACTER])
  {
    var plain, e := element[done..idx], element[..idx + 1];
    calc {
      Escape(e);
      { EscapedLast(e); assert e[..|e| - 1] == element[..idx]; }
      Escape(element[..idx]) + [ESCAPE_CHARACTER, element[idx]];
      { assert element[..idx] == element[..done] + plain;
        EscapeConcat(element[..done], plain); EscapePlain(plain); }
      Escape(element[..done]) + plain + [ESCAPE_CHARACTER, element[idx]];
      b + element[startIdx..done] + plain + [ESCAPE_CHARACTER, element[idx]];
      { SliceSplit(element, startIdx, done, idx); }
      b + element[startIdx..idx] + [ESCAPE_CHARACTER, element[idx]];
      b + element[startIdx..idx] + [ESCAPE_CHARACTER] + element[idx..idx + 1];
    }
  }

  lemma EscapeFinish(element: string, startIdx: nat, done: nat, b: string)
    requires EscapeProgress(element, startIdx, done, b)
    requires Plain(element[done..|element|])
    ensures b + element[startIdx..|element|] == Escape(element)
  {
    var front, rest := element[..done], element[done..|element|];
    assert element == front + rest;
    EscapeConcat(front, rest);
    EscapePlain(rest);
    SliceSplit(element, startIdx, done, |element|);
    AppendSplit(b, element[startIdx..done], rest);
  }

  lemma EscapeAt(element: string, idxs: seq<nat>, k: nat, startIdx: nat, b: string)
    requires EscapePositions(element, |element|, idxs) && k < |idxs|
    requires EscapeProgress(element, startIdx, Done(idxs, k), b)
    ensures startIdx <= idxs[k] < |element|
    ensures EscapeProgress(element, idxs[k], Done(idxs, k + 1), b + element[startIdx..idxs[k]] + [ESCAPE_CHARACTER])
  {
    PlainBetweenPositions(element, idxs, k);
    EscapeStep(element, startIdx, Done(idxs, k), idxs[k], b);
  }

  lemma EscapeEnds(element: string, idxs: seq<nat>, startIdx: nat, b: string)
    requires EscapePositions(element, |element|, idxs)
    requires EscapeProgress(element, startIdx, Done(idxs, |idxs|), b)
    ensures startIdx <= |element| && b + element[startIdx..|element|] == Escape(element)
  {
    PlainBetweenPositions(element, idxs, |idxs|);
    EscapeFinish(element, startIdx, Done(idxs, |idxs|), b);
  }

  /** The positions, in increasing order, of the characters that need an escape. */
  method FindEscapePositions(element: string) returns (escapeIdx: seq<nat>)
    ensures EscapePositions(element, |element|, escapeIdx)
  {
    escapeIdx := [];
    for i := 0 to |element|
      invariant EscapePositions(element, i, escapeIdx)
    {
      if NeedsEscape(element[i]) {
        escapeIdx := escapeIdx + [i];
      }
    }
  }

  method EscapeElement(element: string) returns (b: string)
    ensures b == Escape(element)
  {
    var escapeIdx := FindEscapePositions(element);
    if |escapeIdx| == 0 {
      PlainBetweenPositions(element, escapeIdx, 0);
      assert element[0..|element|] == element;
      EscapePlain(element);
      return element;
    }
    // The escape character that belongs to the character at `startIdx` has been
    // written already, except at the very start.
    var startIdx := 0;
    b := "";
    for k := 0 to |escapeIdx|
      invariant EscapeProgress(element, startIdx, Done(escapeIdx, k), b)
    {
      var idx := escapeIdx[k];
      EscapeAt(element, escapeIdx, k, startIdx, b);
      b := b + element[startIdx..idx];
      b := b + [ESCAPE_CHARACTER];
      startIdx := idx;
    }
    EscapeEnds(element, escapeIdx, startIdx, b);
    b := b + element[startIdx..|element|];
  }

  /** What is left to produce in state `prevWasEscape` with `rest` still to read. */
  function UnescapeRest(rest: string, prevWasEscape: bool): string {
    if !prevWasEscape then Unescape(rest)
    else if rest == "" then ""
    else [rest[0]] + Unescape(rest[1..])
  }

  /** The output so far, the pending stretch and the unread rest make up the whole result. */
  ghost predicate UnescapeProgress(element: string, i: nat, startIdx: nat, prevWasEscape: bool, b: string) {
    && startIdx <= i <= |element|
    && Unescape(element) == b + (element[startIdx..i] + UnescapeRest(element[i..], prevWasEscape))
  }

  lemma UnescapeKeep(element: string, i: nat, startIdx: nat, prevWasEscape: bool, b: string)
    requires UnescapeProgress(element, i, startIdx, prevWasEscape, b) && i < |element|
    requires element[i] != ESCAPE_CHARACTER || prevWasEscape
    ensures UnescapeProgress(element, i + 1, startIdx, false, b)
  {
    var rest := element[i..];
    assert rest[1..] == element[i + 1..];
    assert UnescapeRest(rest, prevWasEscape) == [element[i]] + UnescapeRest(rest[1..], false);
    assert element[startIdx..i + 1] == element[startIdx..i] + [element[i]];
    assert element[startIdx..i] + ([element[i]] + UnescapeRest(rest[1..], false))
        == element[startIdx..i + 1] + UnescapeRest(rest[1..], false);
  }

  lemma UnescapeDrop(element: string, i: nat, startIdx: nat, b: string)
    requires UnescapeProgress(element, i, startIdx, false, b) && i < |element|
    requires element[i] == ESCAPE_CHARACTER
    ensures UnescapeProgress(element, i + 1, i + 1, true, b + element[startIdx..i])
  {
    var rest, rest' := element[i..], element[i + 1..];
    assert rest[1..] == rest';
    assert rest' != "" ==> rest[2..] == rest'[1..] && rest[1] == rest'[0];
    assert UnescapeRest(rest, false) == UnescapeRest(rest', true);
    assert element[i + 1..i + 1] + UnescapeRest(rest', true) == UnescapeRest(rest', true);
    assert b + (element[startIdx..i] + UnescapeRest(rest', true))
        == b + element[startIdx..i] + UnescapeRest(rest', true);
  }

  method UnescapeElement(element: string) returns (b: string)
    ensures b == Unescape(element)
  {
    b := "";
    var startIdx, prevWasEscape := 0, false;
    assert element[0..] == element;
    for i := 0 to |element|
      invariant UnescapeProgress(element, i, startIdx, prevWasEscape, b)
    {
      var c := element[i];
      if c != ESCAPE_CHARACTER || prevWasEscape {
        UnescapeKeep(element, i, startIdx, prevWasEscape, b);
        prevWasEscape := false;
        continue;
      }
      UnescapeDrop(element, i, startIdx, b);
      b := b + element[startIdx..i];
      startIdx := i + 1;
      prevWasEscape := true;
    }
    assert element[|element|..] == "";
    assert element[startIdx..|element|] + "" == element[startIdx..];
    b := b + element[startIdx..];
  }

  method ValidateEscapedElement(element: string) returns (err: Option<PathError>)
    ensures err == CheckEscaped(element)
  {
    var prevWasEscape := false;
    for i := 0 to |element|
      invariant prevWasEscape ==> i > 0 && element[i - 1] == ESCAPE_CHARACTER
      invariant CheckEscaped(element) == CheckEscaped(element[if prevWasEscape then i - 1 else i..])
    {
      var c := element[i];
      if prevWasEscape {
        prevWasEscape := false;
        assert element[i - 1..][2..] == element[i + 1..];
        if !NeedsEscape(c) {
          return Some(BadEscapeSequence);
        }
      } else {
        assert element[i..][1..] == element[i + 1..];
        if c == ESCAPE_CHARACTER {
          prevWasEscape := true;
          continue;
        }
        if NeedsEscape(c) {
          return Some(UnescapedCharacter);
        }
      }
    }
    if prevWasEscape {
      return Some(TrailingEscape);
    }
    assert element[|element|..] == "";
    return None;
  }

  // ---------------------------------------------------------------------------
  // elements.go
  // ---------------------------------------------------------------------------

  function Join(elements: seq<string>): string {
    if |elements| == 0 then ""
    else if |elements| == 1 then elements[0]
    else elements[0] + [PATH_SEPARATOR] + Join(elements[1..])
  }

  lemma {:induction false} JoinEscaped(es: Elements)
    ensures Join(EscapeAll(es)) == Print(es)
  {
    if |es| > 0 {
      JoinEscaped(es[1..]);
      assert EscapeAll(es)[1..] == EscapeAll(es[1..]);
      assert |es| == 1 ==> EscapeAll(es[1..]) == [];
      assert |es| > 1 ==> EscapeAll(es[1..]) != [];
    }
  }

  lemma {:induction false} EscapeAllSnoc(es: Elements, e: string)
    ensures EscapeAll(es + [e]) == EscapeAll(es) + [Escape(e)]
  {
    if es == [] {
      assert es + [e] == [e];
      assert EscapeAll([e]) == [Escape(e)] + EscapeAll([]);
    } else {
      EscapeAllSnoc(es[1..], e);
      assert (es + [e])[1..] == es[1..] + [e];
    }
  }

  method ElementsString(el: Elements) returns (s: string)
    ensures s == Print(el)
  {
    var escaped: seq<string> := [];
    for i := 0 to |el|
      invariant escaped == EscapeAll(el[..i])
    {
      var e := EscapeElement(el[i]);
      EscapeAllSnoc(el[..i], el[i]);
      assert el[..i + 1] == el[..i] + [el[i]];
      escaped := escaped + [e];
    }
    assert el[..|el|] == el;
    JoinEscaped(el);
    s := Join(escaped);
  }

  // ---------------------------------------------------------------------------
  // builder.go
  // ---------------------------------------------------------------------------

  /** `Append`: empty elements are dropped. */
  function NonEmptyOnly(es: seq<string>): (r: Elements)
    ensures AllNonEmpty(r)
    ensures AllNonEmpty(es) ==> r == es
  {
    if es == [] then []
    else if es[0] == "" then NonEmptyOnly(es[1..])
    else [es[0]] + NonEmptyOnly(es[1..])
  }

  lemma {:induction false} NonEmptyOnlySnoc(es: seq<string>, e: string)
    ensures NonEmptyOnly(es + [e]) == NonEmptyOnly(es) + if e == "" then [] else [e]
  {
    if es == [] {
      assert es + [e] == [e];
    } else {
      NonEmptyOnlySnoc(es[1..], e);
      assert (es + [e])[1..] == es[1..] + [e];
    }
  }

  lemma {:induction false} UnescapeAllSnoc(ts: seq<string>, t: string)
    ensures UnescapeAll(ts + [t]) == Extend(UnescapeAll(ts), UnescapeAll([t]))
  {
    if ts == [] {
      assert ts + [t] == [t];
      if UnescapeAll([t]).Ok? {
        assert [] + UnescapeAll([t]).value == UnescapeAll([t]).value;
      }
    } else {
      UnescapeAllSnoc(ts[1..], t);
      assert (ts + [t])[1..] == ts[1..] + [t];
      assert (ts + [t])[0] == ts[0];
      var head, rest, last := Trim(ts[0]), UnescapeAll(ts[1..]), UnescapeAll([t]);
      if rest.Ok? && last.Ok? {
        assert [Unescape(head)] + (rest.value + last.value) == [Unescape(head)] + rest.value + last.value;
      }
    }
  }

  function Extend(a: Result<Elements, PathError>, b: Result<Elements, PathError>): Result<Elements, PathError> {
    var es :- a;
    var last :- b;
    Ok(es + last)
  }

  /** What `UpdateParent` does to a list of elements that starts with `prev`. */
  function Relocate(es: Elements, prev: Elements, cur: Elements): Elements {
    if prev <= es then cur + es[|prev|..] else es
  }

  /** Moving a path to a new parent and back is the identity. */
  lemma RelocateRoundTrip(es: Elements, prev: Elements, cur: Elements)
    requires prev <= es
    ensures Relocate(Relocate(es, prev, cur), cur, prev) == es
  {
    assert (cur + es[|prev|..])[|cur|..] == es[|prev|..];
  }

  /** What one string adds to a builder. */
  function Added(escaped: bool, e: string): Result<Elements, PathError> {
    if !escaped then Ok(if e == "" then [] else [e])
    else
      var tmp := Trim(e);
      if tmp == "" then Ok([])
      else if CheckEscaped(tmp).Some? then Err(CheckEscaped(tmp).value)
      else Ok([Unescape(tmp)])
  }

  function AddedAll(escaped: bool, es: seq<string>): Result<Elements, PathError> {
    if escaped then UnescapeAll(es) else Ok(NonEmptyOnly(es))
  }

  lemma AddedSnoc(escaped: bool, es: seq<string>, i: nat)
    requires i < |es|
    ensures AddedAll(escaped, es[..i + 1]) == Extend(AddedAll(escaped, es[..i]), Added(escaped, es[i]))
  {
    assert es[..i + 1] == es[..i] + [es[i]];
    NonEmptyOnlySnoc(es[..i], es[i]);
    UnescapeAllSnoc(es[..i], es[i]);
    AddedOne(es[i]);
  }

  lemma AddedOne(e: string)
    ensures UnescapeAll([e]) == Added(true, e)
  {
    assert [e][1..] == [] && UnescapeAll([]) == Ok([]);
    assert [Unescape(Trim(e))] + [] == [Unescape(Trim(e))];
  }

  class Builder {
    var elements: Elements

    constructor (es: Elements)
      ensures elements == es
    {
      elements := es;
    }

    /** `appendElements` changes the receiver; on error it keeps what it had appended so far. */
    method AppendElements(escaped: bool, toAdd: seq<string>) returns (err: Option<PathError>)
      modifies this
      ensures !escaped ==> err == None && elements == old(elements) + NonEmptyOnly(toAdd)
      ensures escaped ==> (err.None? <==> UnescapeAll(toAdd).Ok?)
      ensures escaped && err.None? ==> elements == old(elements) + UnescapeAll(toAdd).value
      ensures escaped && err.Some? ==> UnescapeAll(toAdd) == Err(err.value)
    {
      ghost var added: Elements := [];
      for i := 0 to |toAdd|
        invariant AddedAll(escaped, toAdd[..i]) == Ok(added) && elements == old(elements) + added
      {
        var e := toAdd[i];
        AddedSnoc(escaped, toAdd, i);
        assert added + [] == added;
        if |e| == 0 {
          assert Trim("") == "";
          continue;
        }
        var tmp := e;
        if escaped {
          tmp := TrimTrailingSlash(tmp);
          if |tmp| == 0 {
            continue;
          }
          err := ValidateEscapedElement(tmp);
          if err.Some? {
            PrefixErrorIsError(toAdd, i + 1);
            return;
          }
          tmp := UnescapeElement(tmp);
        }
        assert elements + [tmp] == old(elements) + (added + [tmp]);
        elements, added := elements + [tmp], added + [tmp];
      }
      assert toAdd[..|toAdd|] == toAdd;
      err := None;
    }

    method Append(toAdd: seq<string>) returns (res: Builder)
      ensures fresh(res)
      ensures res.elements == elements + NonEmptyOnly(toAdd)
    {
      res := new Builder(elements);
      var _ := res.AppendElements(false, toAdd);
    }

    /**
     The copy of the receiver's elements goes into a slice of length zero, so
     nothing of the receiver is kept.
     */
    method UnescapeAndAppend(toAdd: seq<string>) returns (res: Result<Builder, PathError>)
      ensures res.Ok? ==> fresh(res.value)
      ensures res.Ok? <==> UnescapeAll(toAdd).Ok?
      ensures res.Ok? ==> res.value.elements == UnescapeAll(toAdd).value
      ensures res.Err? ==> UnescapeAll(toAdd) == Err(res.error)
    {
      var b := new Builder([]);
      var err := b.AppendElements(true, toAdd);
      if err.Some? {
        return Err(err.value);
      }
      return Ok(b);
    }

    method SplitUnescapeAppend(s: string) returns (res: Result<Builder, PathError>)
      ensures res.Ok? <==> EscapesAreSound(s)
      ensures res.Ok? ==> fresh(res.value) && Parse(s) == Ok(res.value.elements)
      ensures res.Err? ==> Parse(s) == Err(res.error)
      // The documentation promises an append; that holds only for an empty receiver.
      ensures res.Ok? ==>
        (res.value.elements == elements + Parse(s).value <==> elements == [])
    {
      ParseAcceptsIff(s);
      var t := TrimTrailingSlash(s);
      var elems := Split(t);
      res := UnescapeAndAppend(elems);
    }

    /** `prev` and `cur` are nil where the source passes a nil builder. */
    method UpdateParent(prev: Builder?, cur: Builder?) returns (updated: bool)
      modifies this
      ensures updated <==> prev != cur && prev != null && cur != null && old(prev.elements) <= old(elements)
      ensures updated ==> elements == Relocate(old(elements), old(prev.elements), old(cur.elements))
      ensures !updated ==> elements == old(elements)
    {
      if prev == cur || prev == null || cur == null || |prev.elements| > |elements| {
        return false;
      }
      var parent := true;
      for i := 0 to |prev.elements|
        invariant parent && prev.elements[..i] == elements[..i]
      {
        if elements[i] != prev.elements[i] {
          parent := false;
          break;
        }
      }
      if !parent {
        return false;
      }
      elements := cur.elements + elements[|prev.elements|..];
      return true;
    }
  }

  lemma {:induction false} PrefixErrorIsError(ts: seq<string>, n: nat)
    requires n <= |ts| && UnescapeAll(ts[..n]).Err?
    ensures UnescapeAll(ts) == UnescapeAll(ts[..n])
    decreases |ts| - n
  {
    if n == |ts| {
      assert ts[..n] == ts;
    } else {
      UnescapeAllSnoc(ts[..n], ts[n]);
      assert ts[..n + 1] == ts[..n] + [ts[n]];
      PrefixErrorIsError(ts, n + 1);
    }
  }
}

/** Matching a `*`-only glob, already split at its stars, against a whole text
    (engine/subrequest_filter.py). */
module Globs {

  // ---- What a match is ---------------------------------------------------------------

  /** The parts with `stars` written in place of the `*` between them. */
  function Filled(parts: seq<string>, stars: seq<string>): string
    requires |parts| == |stars| + 1
  {
    if stars == [] then parts[0] else parts[0] + stars[0] + Filled(parts[1..], stars[1..])
  }

  ghost predicate Spells(parts: seq<string>, stars: seq<string>, text: string) {
    |parts| == |stars| + 1 && Filled(parts, stars) == text
  }

  ghost predicate Matches(parts: seq<string>, text: string) {
    exists stars :: Spells(parts, stars, text)
  }

  // ---- The greedy search -------------------------------------------------------------

  predicate At(text: string, part: string, i: int) {
    0 <= i <= |text| - |part| && text[i..i + |part|] == part
  }

  /** `str.find` within `text[from..to]`: the first place, or -1. */
  method Find(text: string, part: string, from: nat, to: nat) returns (index: int)
    requires from <= to <= |text|
    ensures index == -1 || (from <= index && index + |part| <= to && At(text, part, index))
    ensures forall i :: from <= i <= to - |part| && (index == -1 || i < index) ==> !At(text, part, i)
  {
    index := from;
    while index + |part| <= to
      invariant from <= index
      invariant forall i :: from <= i <= to - |part| && i < index ==> !At(text, part, i)
    {
      if text[index..index + |part|] == part {
        return;
      }
      index := index + 1;
    }
    index := -1;
  }

  /** Leftmost search without backtracking is sound and complete. */
  method GlobMatches(parts: seq<string>, text: string) returns (r: bool)
    requires |parts| >= 1
    ensures r <==> Matches(parts, text)
  {
    if |parts| == 1 {
      r := text == parts[0];
      OnlyPart(parts, text);
      return;
    }
    var first, last := parts[0], parts[|parts| - 1];
    MatchIsMiddle(parts, text);
    if |text| < |first| + |last| || first != text[..|first|] || last != text[|text| - |last|..] {
      r := false;
      return;
    }
    var position, end := |first|, |text| - |last|;
    var middle := parts[1..|parts| - 1];
    for k := 0 to |middle|
      invariant |first| <= position <= end
      invariant Matches(parts, text) <==> Middle(middle[k..], text[position..end])
    {
      var index := Find(text, middle[k], position, end);
      assert middle[k..][0] == middle[k] && middle[k..][1..] == middle[k + 1..];
      GreedyStep(middle[k..], text, position, end, index);
      if index < 0 {
        r := false;
        return;
      }
      position := index + |middle[k]|;
    }
    assert middle[|middle|..] == [];
    r := true;
  }

  // ---- Why it is right ---------------------------------------------------------------

  /** The parts occur in `text` in order, without overlapping. */
  ghost predicate Middle(parts: seq<string>, text: string) {
    parts == [] ||
    exists i | At(text, parts[0], i) :: Middle(parts[1..], text[i + |parts[0]|..])
  }

  lemma SliceOfSlice<T>(text: seq<T>, from: nat, to: nat, i: nat, j: nat)
    requires from <= to <= |text| && i <= j <= to - from
    ensures text[from..to][i..j] == text[from + i..from + j]
  {
    var a, b := text[from..to][i..j], text[from + i..from + j];
    assert forall k :: 0 <= k < |a| ==> a[k] == b[k];
  }

  /** A place within `text[from..to]` is one of `text` itself, with the same text after it. */
  lemma PlaceInSpan(text: string, from: nat, to: nat, part: string, i: nat)
    requires from <= to <= |text| && i + |part| <= to - from
    ensures At(text[from..to], part, i) == At(text, part, from + i)
    ensures text[from..to][i + |part|..] == text[from + i + |part|..to]
  {
    SliceOfSlice(text, from, to, i, i + |part|);
    SliceOfSlice(text, from, to, i + |part|, to - from);
  }

  /** What can be found in a suffix can be found in the whole. */
  lemma {:induction false} MiddleOfSuffix(parts: seq<string>, text: string, from: nat)
    requires from <= |text| && Middle(parts, text[from..])
    ensures Middle(parts, text)
  {
    if parts != [] {
      var rest := text[from..];
      var i :| At(rest, parts[0], i) && Middle(parts[1..], rest[i + |parts[0]|..]);
      PlaceInSpan(text, from, |text|, parts[0], i);
      assert text[from + i + |parts[0]|..|text|] == text[from + i + |parts[0]|..];
    }
  }

  /** Taking the leftmost place loses nothing. */
  lemma GreedyStep(parts: seq<string>, text: string, from: nat, to: nat, index: int)
    requires parts != [] && from <= to <= |text|
    requires index == -1 || (from <= index && index + |parts[0]| <= to && At(text, parts[0], index))
    requires forall i :: from <= i <= to - |parts[0]| && (index == -1 || i < index) ==> !At(text, parts[0], i)
    ensures Middle(parts, text[from..to]) <==>
            index != -1 && Middle(parts[1..], text[index + |parts[0]|..to])
  {
    var span, n := text[from..to], |parts[0]|;
    if Middle(parts, span) {
      var i :| At(span, parts[0], i) && Middle(parts[1..], span[i + n..]);
      PlaceInSpan(text, from, to, parts[0], i);
      SliceOfSlice(text, index + n, to, from + i - index, to - index - n);
      MiddleOfSuffix(parts[1..], text[index + n..to], from + i - index);
    }
    if index != -1 && Middle(parts[1..], text[index + n..to]) {
      PlaceInSpan(text, from, to, parts[0], index - from);
    }
  }

  lemma OnlyPart(parts: seq<string>, text: string)
    requires |parts| == 1
    ensures Matches(parts, text) <==> text == parts[0]
  {
    if text == parts[0] {
      assert Spells(parts, [], text);
    }
  }

  /** Both ends fixed, and the other parts found in between. */
  ghost predicate EndsAndMiddle(parts: seq<string>, text: string)
    requires |parts| >= 2
  {
    var first, last := parts[0], parts[|parts| - 1];
    && |first| + |last| <= |text|
    && text[..|first|] == first
    && text[|text| - |last|..] == last
    && Middle(parts[1..|parts| - 1], text[|first|..|text| - |last|])
  }

  lemma MiddleOfRest(parts: seq<string>)
    requires |parts| >= 3
    ensures parts[1..][1..|parts| - 2] == parts[1..|parts| - 1][1..]
  {
    var n := |parts|;
    assert parts[1..n] == parts[1..];
    SliceOfSlice(parts, 1, n, 1, n - 2);
    SliceOfSlice(parts, 1, n - 1, 1, n - 2);
  }

  /** What follows the first part and its star. */
  lemma AfterStar(first: string, star: string, rest: string, text: string)
    requires text == first + star + rest
    ensures |first| + |star| <= |text| && text[|first| + |star|..] == rest && text[..|first|] == first
  {
  }

  lemma SameEnd(text: string, from: nat, n: nat)
    requires n <= |text| - from && from <= |text|
    ensures text[|text| - n..] == text[from..][|text| - from - n..]
  {
    assert text[from..|text|] == text[from..];
    SliceOfSlice(text, from, |text|, |text| - from - n, |text| - from);
  }

  lemma {:induction false} SpelledHasMiddle(parts: seq<string>, stars: seq<string>, text: string)
    requires |parts| >= 2 && Spells(parts, stars, text)
    ensures EndsAndMiddle(parts, text)
    decreases |parts|
  {
    var first, last := parts[0], parts[|parts| - 1];
    var rest := Filled(parts[1..], stars[1..]);
    AfterStar(first, stars[0], rest, text);
    if |parts| == 2 {
      assert rest == last;
      assert parts[1..1] == [];
    } else {
      SpelledHasMiddle(parts[1..], stars[1..], rest);
      var middle, i, from := parts[1..|parts| - 1], |stars[0]|, |first| + |stars[0]|;
      var n := |middle[0]|;
      MiddleOfRest(parts);
      assert text[from..|text|] == rest;
      PlaceInSpan(text, |first|, |text| - |last|, middle[0], i);
      PlaceInSpan(text, from, |text|, middle[0], 0);
      SliceOfSlice(text, from, |text|, n, |rest| - |last|);
      SameEnd(text, from, |last|);
    }
  }

  /** Cutting off the first part, and what stands before the next. */
  lemma RestHasMiddle(parts: seq<string>, text: string) returns (i: nat)
    requires |parts| >= 3 && EndsAndMiddle(parts, text)
    ensures |parts[0]| + i <= |text| && EndsAndMiddle(parts[1..], text[|parts[0]| + i..])
  {
    var last, to := parts[|parts| - 1], |text| - |parts[|parts| - 1]|;
    var middle, span := parts[1..|parts| - 1], text[|parts[0]|..to];
    var n := |middle[0]|;
    i :| At(span, middle[0], i) && Middle(middle[1..], span[i + n..]);
    var from := |parts[0]| + i;
    PlaceInSpan(text, |parts[0]|, to, middle[0], i);
    var rest := text[from..];
    assert rest == text[from..|text|];
    SliceOfSlice(text, from, |text|, 0, n);
    SliceOfSlice(text, from, |text|, n, |rest| - |last|);
    SliceOfSlice(text, from, |text|, |rest| - |last|, |rest|);
    MiddleOfRest(parts);
  }

  lemma SpellMore(parts: seq<string>, star: string, more: seq<string>, rest: string)
    requires |parts| >= 2 && Spells(parts[1..], more, rest)
    ensures Spells(parts, [star] + more, parts[0] + star + rest)
  {
    assert ([star] + more)[1..] == more;
  }

  lemma {:induction false} MiddleIsSpelled(parts: seq<string>, text: string) returns (stars: seq<string>)
    requires |parts| >= 2 && EndsAndMiddle(parts, text)
    ensures Spells(parts, stars, text)
    decreases |parts|
  {
    var first, last := parts[0], parts[|parts| - 1];
    if |parts| == 2 {
      stars := [text[|first|..|text| - |last|]];
      assert parts[1..] == [last] && stars[1..] == [];
      assert text == first + stars[0] + last;
    } else {
      var i := RestHasMiddle(parts, text);
      var star, rest := text[|first|..|first| + i], text[|first| + i..];
      var more := MiddleIsSpelled(parts[1..], rest);
      stars := [star] + more;
      SpellMore(parts, star, more, rest);
      assert text == first + star + rest;
    }
  }

  lemma MatchIsMiddle(parts: seq<string>, text: string)
    requires |parts| >= 2
    ensures Matches(parts, text) <==> EndsAndMiddle(parts, text)
  {
    if Matches(parts, text) {
      var stars :| Spells(parts, stars, text);
      SpelledHasMiddle(parts, stars, text);
    }
    if EndsAndMiddle(parts, text) {
      var stars := MiddleIsSpelled(parts, text);
    }
  }
}

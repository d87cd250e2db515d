/** Shortening page text for debug output (engine/browser_debug.py). White space is any class of
    characters that holds the blank. */
module TextExcerpts {

  // ---- Library operations ------------------------------------------------------------

  predicate EndsInSpace(space: char -> bool, s: string) {
    s != [] && space(s[|s| - 1])
  }

  /** `re.sub(r"\s+", " ", s)`. */
  function Collapse(space: char -> bool, s: string): string {
    if s == [] then []
    else
      var before, c := s[..|s| - 1], s[|s| - 1];
      var done := Collapse(space, before);
      if !space(c) then done + [c]
      else if EndsInSpace(space, before) then done
      else done + " "
  }

  /** `str.lstrip` and `str.rstrip`. */
  function StripLeft(space: char -> bool, s: string): string {
    if s != [] && space(s[0]) then StripLeft(space, s[1..]) else s
  }

  function StripRight(space: char -> bool, s: string): string {
    if EndsInSpace(space, s) then StripRight(space, s[..|s| - 1]) else s
  }

  /** Python's `s[:stop]`: a negative stop counts from the end. */
  function Upto(s: string, stop: int): (r: string)
    ensures r <= s
  {
    if stop >= |s| then s
    else if stop >= 0 then s[..stop]
    else if |s| + stop >= 0 then s[..|s| + stop]
    else []
  }

  // ---- What the excerpt is -----------------------------------------------------------

  /** The maximal runs of other characters, as `s.split()` returns them. */
  function Words(space: char -> bool, s: string): seq<string> {
    if s == [] then []
    else
      var before, c := s[..|s| - 1], s[|s| - 1];
      var words := Words(space, before);
      if space(c) then words
      else if words == [] || EndsInSpace(space, before) then words + [[c]]
      else words[..|words| - 1] + [words[|words| - 1] + [c]]
  }

  /** `" ".join(words)`. */
  function Joined(words: seq<string>): string {
    if words == [] then []
    else if |words| == 1 then words[0]
    else Joined(words[..|words| - 1]) + " " + words[|words| - 1]
  }

  function Excerpt(normal: string, limit: int): string {
    if |normal| <= limit then normal else Upto(normal, limit - 3) + "..."
  }

  /** A text within the limit is kept whole. A longer one is cut to exactly the limit, dots included;
      below three, where there is no room for the dots, it loses `3 - limit` characters at its end. */
  lemma ExcerptMeans(normal: string, limit: int)
    ensures |normal| <= limit ==> Excerpt(normal, limit) == normal
    ensures 3 <= limit < |normal| ==>
              |Excerpt(normal, limit)| == limit && Excerpt(normal, limit) == normal[..limit - 3] + "..."
    ensures limit < 3 && limit < |normal| ==>
              Excerpt(normal, limit) == normal[..if |normal| > 3 - limit then |normal| - (3 - limit) else 0] + "..."
  {
  }

  /** The words of the whole text, one blank apart, cut to the limit. */
  function Truncated(space: char -> bool, value: string, limit: int): string {
    Excerpt(Joined(Words(space, value)), limit)
  }

  // ---- The operation -----------------------------------------------------------------

  /** A short prefix decides the result as soon as it keeps enough characters. */
  method TruncateText(space: char -> bool, value: string, limit: int) returns (r: string)
    requires space(' ')
    ensures r == Truncated(space, value, limit)
    ensures limit >= 3 ==> |r| <= limit
  {
    ExcerptMeans(Joined(Words(space, value)), limit);
    var prefixChars := 4 * limit;
    while limit >= 3 && prefixChars < |value|
      invariant limit >= 3 ==> prefixChars > 0
      decreases |value| - prefixChars
    {
      var normalized := StripLeft(space, Collapse(space, value[..prefixChars]));
      if |normalized| > limit + 1 {
        PrefixDecides(space, value, prefixChars, limit);
        return normalized[..limit - 3] + "...";
      }
      prefixChars := prefixChars * 2;
    }
    var normalized := StripRight(space, StripLeft(space, Collapse(space, value)));
    NormalIsJoinedWords(space, value);
    if |normalized| <= limit {
      return normalized;
    }
    return Upto(normalized, limit - 3) + "...";
  }

  // ---- Why it is right ---------------------------------------------------------------

  /** Stripping on the left keeps up with a text that grows on the right. */
  lemma {:induction false} StripLeftSnoc(space: char -> bool, s: string, c: char)
    ensures StripLeft(space, s + [c]) ==
            if StripLeft(space, s) == [] && space(c) then [] else StripLeft(space, s) + [c]
  {
    if s == [] {
      assert s + [c] == [c] && [c][1..] == [];
    } else if space(s[0]) {
      assert (s + [c])[1..] == s[1..] + [c];
      StripLeftSnoc(space, s[1..], c);
    }
  }

  /** Every word is non-empty and ends in a character that is not white space. */
  ghost predicate AreWords(space: char -> bool, words: seq<string>) {
    forall k :: 0 <= k < |words| ==> words[k] != [] && !EndsInSpace(space, words[k])
  }

  lemma JoinedSnoc(words: seq<string>, word: string)
    ensures Joined(words + [word]) == if words == [] then word else Joined(words) + " " + word
  {
    assert (words + [word])[..|words|] == words;
  }

  lemma JoinedGrows(front: seq<string>, last: string, c: char)
    ensures Joined(front + [last + [c]]) == Joined(front + [last]) + [c]
  {
    JoinedSnoc(front, last);
    JoinedSnoc(front, last + [c]);
    if front != [] {
      assert Joined(front) + " " + (last + [c]) == Joined(front) + " " + last + [c];
    }
  }

  lemma JoinedEndsInWord(space: char -> bool, words: seq<string>)
    requires AreWords(space, words) && words != []
    ensures Joined(words) != [] && !EndsInSpace(space, Joined(words))
  {
  }

  ghost function Blank(space: char -> bool, s: string): string {
    if EndsInSpace(space, s) && Words(space, s) != [] then " " else ""
  }

  /** A word for the last character to join, or the empty word when it starts one. */
  lemma WordsSnoc(space: char -> bool, s: string, c: char) returns (front: seq<string>, last: string)
    requires AreWords(space, Words(space, s)) && !space(c)
    ensures Words(space, s + [c]) == front + [last + [c]] && AreWords(space, front + [last + [c]])
    ensures Words(space, s) == front + if last == [] then [] else [last]
    ensures last == [] <==> Words(space, s) == [] || EndsInSpace(space, s)
  {
    var words := Words(space, s);
    assert (s + [c])[..|s|] == s;
    if words == [] || EndsInSpace(space, s) {
      front, last := words, [];
      assert last + [c] == [c];
    } else {
      front, last := words[..|words| - 1], words[|words| - 1];
    }
  }

  /** One more character, no white space: it joins the last word or starts one. */
  lemma OneMoreLetter(space: char -> bool, s: string, c: char)
    requires AreWords(space, Words(space, s)) && !space(c)
    ensures AreWords(space, Words(space, s + [c])) && Words(space, s + [c]) != []
    ensures Joined(Words(space, s + [c])) == Joined(Words(space, s)) + Blank(space, s) + [c]
  {
    var front, last := WordsSnoc(space, s, c);
    if last == [] {
      JoinedSnoc(front, last + [c]);
    } else {
      JoinedGrows(front, last, c);
    }
  }

  /** Collapsing and stripping on the left leaves the words, and a blank when space ends them. */
  lemma {:induction false} CollapsedIsWords(space: char -> bool, s: string)
    requires space(' ')
    ensures AreWords(space, Words(space, s))
    ensures StripLeft(space, Collapse(space, s)) == Joined(Words(space, s)) + Blank(space, s)
  {
    if s != [] {
      var before, c := s[..|s| - 1], s[|s| - 1];
      assert s == before + [c];
      CollapsedIsWords(space, before);
      var words, done := Words(space, before), Collapse(space, before);
      if words != [] {
        JoinedEndsInWord(space, words);
      }
      if space(c) {
        StripLeftSnoc(space, done, ' ');
        assert Words(space, s) == words;
      } else {
        StripLeftSnoc(space, done, c);
        OneMoreLetter(space, before, c);
      }
    }
  }

  /** Stripping both ends of the collapsed text gives exactly the joined words. */
  lemma NormalIsJoinedWords(space: char -> bool, s: string)
    requires space(' ')
    ensures StripRight(space, StripLeft(space, Collapse(space, s))) == Joined(Words(space, s))
  {
    CollapsedIsWords(space, s);
    var joined := Joined(Words(space, s));
    if Words(space, s) != [] {
      JoinedEndsInWord(space, Words(space, s));
      assert (joined + " ")[..|joined|] == joined;
    }
    assert joined + "" == joined;
  }

  /** Collapsing a prefix yields a prefix of the collapsed whole, also once stripped. */
  lemma {:induction false} PrefixCollapses(space: char -> bool, s: string, k: nat)
    requires k <= |s|
    ensures StripLeft(space, Collapse(space, s[..k])) <= StripLeft(space, Collapse(space, s))
    decreases |s|
  {
    if k == |s| {
      assert s[..k] == s;
    } else {
      var before := s[..|s| - 1];
      assert before[..k] == s[..k];
      PrefixCollapses(space, before, k);
      var c := s[|s| - 1];
      StripLeftSnoc(space, Collapse(space, before), if space(c) then ' ' else c);
    }
  }

  lemma PrefixDecides(space: char -> bool, s: string, k: nat, limit: nat)
    requires space(' ') && k <= |s| && limit >= 3
    requires |StripLeft(space, Collapse(space, s[..k]))| > limit + 1
    ensures Truncated(space, s, limit) == StripLeft(space, Collapse(space, s[..k]))[..limit - 3] + "..."
  {
    PrefixCollapses(space, s, k);
    CollapsedIsWords(space, s);
  }
}

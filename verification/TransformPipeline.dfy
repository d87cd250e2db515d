/** Splitting a transform pipeline at its top-level pipes (config/transforms.py). */
module TransformPipeline {
  import opened Texts

  /** Which characters the regular expression engine and `strip` call white space, and which
      are word characters. */
  datatype Classes = Classes(space: char -> bool, word: char -> bool)
  {
    ghost predicate Valid() {
      && (forall c :: !(space(c) && word(c)))
      && (forall c :: c in "\"\\[]()|:" ==> !space(c) && !word(c))
      && (forall c :: c in "extractregex" ==> !space(c))
    }
  }

  // ---- Strings -------------------------------------------------------------------

  /** The first index from `i` on whose character is not in the class. */
  function Skip(p: char -> bool, s: string, i: nat): (j: nat)
    requires i <= |s|
    ensures i <= j <= |s|
    ensures forall k :: i <= k < j ==> p(s[k])
    ensures j < |s| ==> !p(s[j])
    decreases |s| - i
  {
    if i < |s| && p(s[i]) then Skip(p, s, i + 1) else i
  }

  function TrimEnd(p: char -> bool, s: string, lo: nat, hi: nat): (r: nat)
    requires lo <= hi <= |s|
    ensures lo <= r <= hi
    ensures forall k :: r <= k < hi ==> p(s[k])
    ensures r > lo ==> !p(s[r - 1])
  {
    if hi > lo && p(s[hi - 1]) then TrimEnd(p, s, lo, hi - 1) else hi
  }

  function Strip(cls: Classes, s: string): string {
    var lo := Skip(cls.space, s, 0);
    s[lo..TrimEnd(cls.space, s, lo, |s|)]
  }

  predicate At(s: string, i: nat, t: string) {
    i + |t| <= |s| && s[i..i + |t|] == t
  }

  /** `s.find(":", i)`, or the length when there is none. */
  function FindColon(s: string, i: nat): (j: nat)
    requires i <= |s|
    ensures i <= j <= |s|
    ensures forall k :: i <= k < j ==> s[k] != ':'
    ensures j < |s| ==> s[j] == ':'
    decreases |s| - i
  {
    if i == |s| || s[i] == ':' then i else FindColon(s, i + 1)
  }

  // ---- The scanner, one character at a time ----------------------------------------

  /** What the start of a step looks like: where its prefix ends, and up to which index its text
      is a regular expression. Both are -1 when they do not apply. */
  datatype Prefix = Prefix(end: int, patternEnd: int)

  /** `\s*(?:(extract:|regex:)|\w+\s*\()` matched at `start`. */
  function Classify(cls: Classes, raw: string, start: nat): Prefix
    requires start <= |raw|
  {
    var i := Skip(cls.space, raw, start);
    if At(raw, i, "extract:") then Prefix(i + 8, |raw|)
    else if At(raw, i, "regex:") then Prefix(i + 6, FindColon(raw, i + 6))
    else
      var j := Skip(cls.word, raw, i);
      var k := Skip(cls.space, raw, j);
      if j > i && k < |raw| && raw[k] == '(' then Prefix(k + 1, -1) else Prefix(-1, -1)
  }

  datatype Mode = Mode(quoteOpen: bool, parentheses: nat, characterClass: bool)

  const NEUTRAL := Mode(false, 0, false)

  datatype Move = Advance(count: nat, mode: Mode) | Separator

  /** One turn of the loop. `doubled` says that the next character is a quote too, `colon` that
      the step is a regular expression here, `opens` that its prefix ends with this character. */
  function Turn(c: char, doubled: bool, m: Mode, colon: bool, opens: bool): (move: Move)
    ensures move.Advance? ==> 1 <= move.count <= 2
  {
    if m.quoteOpen then
      if c == '"' then (if doubled then Advance(2, m) else Advance(1, m.(quoteOpen := false)))
      else Advance(1, m)
    else if c == '\\' then Advance(2, m)
    else if c == '"' && m.parentheses > 0 then Advance(1, m.(quoteOpen := true))
    else if c == '[' && colon then Advance(1, m.(characterClass := true))
    else if c == ']' && m.characterClass then Advance(1, m.(characterClass := false))
    else if m.characterClass then Advance(1, m)
    else if c == '(' then
      if m.parentheses > 0 || colon || opens then Advance(1, m.(parentheses := m.parentheses + 1)) else Advance(1, m)
    else if c == ')' then
      if m.parentheses > 0 then Advance(1, m.(parentheses := m.parentheses - 1)) else Advance(1, m)
    else if c == '|' && m.parentheses == 0 then Separator
    else Advance(1, m)
  }

  function MoveAt(raw: string, p: Prefix, i: nat, m: Mode): (move: Move)
    requires i < |raw|
    ensures move.Advance? ==> 1 <= move.count <= 2
    ensures move.Separator? ==> m == NEUTRAL && raw[i] == '|'
  {
    Turn(raw[i], i + 1 < |raw| && raw[i + 1] == '"', m, i <= p.patternEnd, i + 1 == p.end)
  }

  /** Where the scan of a step ends: at a top-level pipe, or with the text and in some mode. */
  datatype Stop = Pipe(at: nat) | Finished(mode: Mode)

  function Scan(raw: string, p: Prefix, i: nat, m: Mode): (stop: Stop)
    ensures stop.Pipe? ==> i <= stop.at < |raw| && raw[stop.at] == '|'
    decreases |raw| - i
  {
    if i >= |raw| then Finished(m)
    else
      match MoveAt(raw, p, i, m)
      case Separator => Pipe(i)
      case Advance(count, next) => Scan(raw, p, i + count, next)
  }

  /** The scan of the step that begins at `start`. */
  function ScanStep(cls: Classes, raw: string, start: nat): (stop: Stop)
    requires start <= |raw|
    ensures stop.Pipe? ==> start <= stop.at < |raw| && raw[stop.at] == '|'
  {
    Scan(raw, Classify(cls, raw, start), start, NEUTRAL)
  }

  /** How the scan of a step ends, for every index the step may begin at. */
  ghost function Stops(cls: Classes, raw: string): (stops: seq<Stop>)
    ensures AreStops(raw, stops)
    ensures forall s :: 0 <= s <= |raw| ==> stops[s] == ScanStep(cls, raw, s)
  {
    seq(|raw| + 1, s requires 0 <= s <= |raw| => ScanStep(cls, raw, s))
  }

  ghost predicate AreStops(raw: string, stops: seq<Stop>) {
    && |stops| == |raw| + 1
    && forall s :: 0 <= s <= |raw| && stops[s].Pipe? ==> s <= stops[s].at < |raw| && raw[stops[s].at] == '|'
  }

  /** The top-level pipes from `start` on; None where the code raises. */
  ghost function Pipes(raw: string, stops: seq<Stop>, start: nat): Option<seq<nat>>
    requires AreStops(raw, stops) && start <= |raw|
    decreases |raw| - start
  {
    match stops[start]
    case Finished(m) => if m == NEUTRAL then Some([]) else None
    case Pipe(at) => Before([at], Pipes(raw, stops, at + 1))
  }

  /** What is already found, in front of the rest. */
  ghost function Before<T>(done: seq<T>, rest: Option<seq<T>>): Option<seq<T>> {
    match rest case Some(r) => Some(done + r) case None => None
  }

  /** Cuts are pipes of the text, in order. */
  ghost predicate AreCuts(raw: string, start: nat, cuts: seq<nat>)
    decreases |cuts|
  {
    start <= |raw|
    && (cuts == [] || (start <= cuts[0] < |raw| && raw[cuts[0]] == '|' && AreCuts(raw, cuts[0] + 1, cuts[1..])))
  }

  /** The text between cuts. */
  function Pieces(raw: string, start: nat, cuts: seq<nat>): (pieces: seq<string>)
    requires AreCuts(raw, start, cuts)
    ensures |pieces| == 1 + |cuts|
    decreases |cuts|
  {
    if cuts == [] then [raw[start..]] else [raw[start..cuts[0]]] + Pieces(raw, cuts[0] + 1, cuts[1..])
  }

  function StripAll(cls: Classes, pieces: seq<string>): (steps: seq<string>)
    ensures |steps| == |pieces|
  {
    if pieces == [] then [] else [Strip(cls, pieces[0])] + StripAll(cls, pieces[1..])
  }

  /** The text between the top-level pipes from `start` on; None where the code raises. */
  ghost function PiecesFrom(raw: string, stops: seq<Stop>, start: nat): Option<seq<string>>
    requires AreStops(raw, stops) && start <= |raw|
    decreases |raw| - start
  {
    match stops[start]
    case Finished(m) => if m == NEUTRAL then Some([raw[start..]]) else None
    case Pipe(at) => Before([raw[start..at]], PiecesFrom(raw, stops, at + 1))
  }

  /** What the code returns: those pieces, stripped. */
  ghost function Split(cls: Classes, raw: string): Option<seq<string>> {
    match PiecesFrom(raw, Stops(cls, raw), 0)
    case None => None
    case Some(pieces) => Some(StripAll(cls, pieces))
  }

  lemma {:induction false} PiecesLieBetweenPipes(raw: string, stops: seq<Stop>, start: nat)
    requires AreStops(raw, stops) && start <= |raw|
    ensures PiecesFrom(raw, stops, start).Some? <==> Pipes(raw, stops, start).Some?
    ensures Pipes(raw, stops, start).Some? ==>
              && AreCuts(raw, start, Pipes(raw, stops, start).value)
              && PiecesFrom(raw, stops, start).value == Pieces(raw, start, Pipes(raw, stops, start).value)
    decreases |raw| - start
  {
    var stop := stops[start];
    if stop.Pipe? {
      PiecesLieBetweenPipes(raw, stops, stop.at + 1);
      var rest := Pipes(raw, stops, stop.at + 1);
      if rest.Some? {
        assert ([stop.at] + rest.value)[1..] == rest.value;
      }
    }
  }

  /** The scan, from this index and mode on, ends at `stop`. */
  ghost predicate LeadsTo(raw: string, p: Prefix, index: nat, mode: Mode, stop: Stop) {
    Scan(raw, p, index, mode) == stop
  }

  /** `pieces` and the pieces from `start` on are the whole. */
  ghost predicate Leaves(raw: string, stops: seq<Stop>, pieces: seq<string>, start: nat, whole: Option<seq<string>>) {
    AreStops(raw, stops) && start <= |raw| && whole == Before(pieces, PiecesFrom(raw, stops, start))
  }

  /** One turn of the loop over the text. */
  method TakeTurn(raw: string, p: Prefix, index: nat, mode: Mode, ghost stop: Stop) returns (move: Move)
    requires index < |raw| && LeadsTo(raw, p, index, mode, stop)
    ensures move.Advance? ==> 1 <= move.count <= 2
    ensures move.Separator? ==> stop == Pipe(index) && mode == NEUTRAL
    ensures move.Advance? ==> LeadsTo(raw, p, index + move.count, move.mode, stop)
  {
    var character := raw[index];
    var colonPattern := index <= p.patternEnd;
    if mode.quoteOpen {
      if character == '"' {
        if index + 1 < |raw| && raw[index + 1] == '"' {
          return Advance(2, mode);
        }
        return Advance(1, mode.(quoteOpen := false));
      }
      return Advance(1, mode);
    }
    if character == '\\' {
      return Advance(2, mode);
    }
    var next := mode;
    if character == '"' && mode.parentheses > 0 {
      next := next.(quoteOpen := true);
    } else if character == '[' && colonPattern {
      next := next.(characterClass := true);
    } else if character == ']' && mode.characterClass {
      next := next.(characterClass := false);
    } else if !mode.characterClass {
      if character == '(' {
        if mode.parentheses > 0 || colonPattern || index + 1 == p.end {
          next := next.(parentheses := mode.parentheses + 1);
        }
      } else if character == ')' {
        if mode.parentheses > 0 {
          next := next.(parentheses := mode.parentheses - 1);
        }
      } else if character == '|' && mode.parentheses == 0 {
        return Separator;
      }
    }
    return Advance(1, next);
  }

  /** The steps so far are the stripped `pieces`, and the rest begins at `start`. */
  ghost predicate Found(cls: Classes, raw: string, stops: seq<Stop>,
                        pieces: seq<string>, steps: seq<string>, start: nat)
  {
    && AreStops(raw, stops)
    && Leaves(raw, stops, pieces, start, PiecesFrom(raw, stops, 0))
    && steps == StripAll(cls, pieces)
  }

  /** A step ends at the pipe at `index`. */
  method AppendStep(cls: Classes, raw: string, ghost stops: seq<Stop>, steps: seq<string>,
                    ghost pieces: seq<string>, start: nat, index: nat)
    returns (steps': seq<string>, ghost pieces': seq<string>)
    requires Found(cls, raw, stops, pieces, steps, start)
    requires start <= index < |raw| && stops[start] == Pipe(index)
    ensures Found(cls, raw, stops, pieces', steps', index + 1)
  {
    CutHere(raw, stops, pieces, start, index, PiecesFrom(raw, stops, 0));
    steps' := AppendStripped(cls, steps, pieces, raw[start..index]);
    pieces' := pieces + [raw[start..index]];
  }

  /** Where the loop stands between two turns. */
  datatype Cursor = Cursor(start: nat, index: nat, mode: Mode, prefix: Prefix)

  ghost predicate OnTrack(cls: Classes, raw: string, stops: seq<Stop>,
                          at: Cursor, steps: seq<string>, pieces: seq<string>)
  {
    && at.start <= at.index
    && (at.index == at.start ==> at.mode == NEUTRAL)
    && Found(cls, raw, stops, pieces, steps, at.start)
    && (at.index > at.start ==> LeadsTo(raw, at.prefix, at.index, at.mode, stops[at.start]))
  }

  lemma OnTrackAtFirst(cls: Classes, raw: string, stops: seq<Stop>)
    requires AreStops(raw, stops)
    ensures OnTrack(cls, raw, stops, Cursor(0, 0, NEUTRAL, Prefix(-1, -1)), [], [])
  {
    BeforeNone(PiecesFrom(raw, stops, 0));
  }

  /** The prefix of the step is read, and decides where its scan ends. */
  ghost predicate Prepared(cls: Classes, raw: string, stops: seq<Stop>,
                           at: Cursor, steps: seq<string>, pieces: seq<string>)
  {
    && at.start <= at.index < |raw|
    && Found(cls, raw, stops, pieces, steps, at.start)
    && LeadsTo(raw, at.prefix, at.index, at.mode, stops[at.start])
  }

  /** The body of the loop. */
  method ScanCharacter(cls: Classes, raw: string, ghost stops: seq<Stop>, at: Cursor, steps: seq<string>,
                       ghost pieces: seq<string>)
    returns (next: Cursor, steps': seq<string>, ghost pieces': seq<string>)
    requires stops == Stops(cls, raw) && at.index < |raw| && OnTrack(cls, raw, stops, at, steps, pieces)
    ensures OnTrack(cls, raw, stops, next, steps', pieces') && next.index > at.index
  {
    var here := at;
    if at.index == at.start {
      var prefix := ReadPrefix(cls, raw, at.start);
      here := at.(prefix := prefix);
    }
    next, steps', pieces' := MoveOn(cls, raw, stops, here, steps, pieces);
  }

  method MoveOn(cls: Classes, raw: string, ghost stops: seq<Stop>, at: Cursor, steps: seq<string>,
                ghost pieces: seq<string>)
    returns (next: Cursor, steps': seq<string>, ghost pieces': seq<string>)
    requires Prepared(cls, raw, stops, at, steps, pieces)
    ensures OnTrack(cls, raw, stops, next, steps', pieces') && next.index > at.index
  {
    var move := TakeTurn(raw, at.prefix, at.index, at.mode, stops[at.start]);
    match move
    case Separator =>
      steps', pieces' := AppendStep(cls, raw, stops, steps, pieces, at.start, at.index);
      next := Cursor(at.index + 1, at.index + 1, at.mode, at.prefix);
    case Advance(count, mode) =>
      steps', pieces' := steps, pieces;
      next := Cursor(at.start, at.index + count, mode, at.prefix);
  }

  /** `split_transform_pipeline`; None where it raises. */
  method SplitTransformPipeline(cls: Classes, raw: string) returns (result: Option<seq<string>>)
    ensures result == Split(cls, raw)
  {
    var steps: seq<string> := [];
    ghost var pieces: seq<string> := [];
    var at := Cursor(0, 0, NEUTRAL, Prefix(-1, -1));
    ghost var stops := Stops(cls, raw);
    OnTrackAtFirst(cls, raw, stops);
    while at.index < |raw|
      invariant OnTrack(cls, raw, stops, at, steps, pieces)
      decreases |raw| - at.index
    {
      at, steps, pieces := ScanCharacter(cls, raw, stops, at, steps, pieces);
    }
    result := FinishSplit(cls, raw, at, steps, pieces);
  }

  /** The end of the text: an open quote, parenthesis or class is an error. */
  method FinishSplit(cls: Classes, raw: string, at: Cursor, steps: seq<string>, ghost pieces: seq<string>)
    returns (result: Option<seq<string>>)
    requires at.index >= |raw| && OnTrack(cls, raw, Stops(cls, raw), at, steps, pieces)
    ensures result == Split(cls, raw)
  {
    ghost var stops := Stops(cls, raw);
    EndsInMode(cls, raw, at, steps, pieces);
    LastCut(raw, stops, pieces, at.start, PiecesFrom(raw, stops, 0), at.mode);
    if at.mode.quoteOpen || at.mode.parentheses > 0 || at.mode.characterClass {
      return None;
    }
    var all := AppendStripped(cls, steps, pieces, raw[at.start..]);
    result := Some(all);
  }

  lemma EndsInMode(cls: Classes, raw: string, at: Cursor, steps: seq<string>, pieces: seq<string>)
    requires at.index >= |raw| && OnTrack(cls, raw, Stops(cls, raw), at, steps, pieces)
    ensures at.start <= |raw| && Stops(cls, raw)[at.start] == Finished(at.mode)
  {
  }

  lemma CutHere(raw: string, stops: seq<Stop>, pieces: seq<string>, start: nat, at: nat, whole: Option<seq<string>>)
    requires Leaves(raw, stops, pieces, start, whole) && stops[start] == Pipe(at)
    ensures Leaves(raw, stops, pieces + [raw[start..at]], at + 1, whole)
  {
    BeforeOne(pieces, raw[start..at], PiecesFrom(raw, stops, at + 1));
  }

  lemma LastCut(raw: string, stops: seq<Stop>, pieces: seq<string>, start: nat, whole: Option<seq<string>>, mode: Mode)
    requires Leaves(raw, stops, pieces, start, whole) && stops[start] == Finished(mode)
    ensures whole == if mode == NEUTRAL then Some(pieces + [raw[start..]]) else None
  {
  }

  method AppendStripped(cls: Classes, steps: seq<string>, ghost pieces: seq<string>, piece: string)
    returns (steps': seq<string>)
    requires steps == StripAll(cls, pieces)
    ensures steps' == StripAll(cls, pieces + [piece])
  {
    StripSnoc(cls, pieces, piece);
    steps' := steps + [Strip(cls, piece)];
  }

  lemma {:induction false} StripSnoc(cls: Classes, pieces: seq<string>, piece: string)
    ensures StripAll(cls, pieces + [piece]) == StripAll(cls, pieces) + [Strip(cls, piece)]
  {
    if pieces == [] {
      assert pieces + [piece] == [piece] && [piece][1..] == [];
      assert StripAll(cls, [piece]) == [Strip(cls, piece)] + StripAll(cls, [piece][1..]);
    } else {
      assert (pieces + [piece])[1..] == pieces[1..] + [piece];
      StripSnoc(cls, pieces[1..], piece);
    }
  }

  lemma {:induction false} StripAt(cls: Classes, pieces: seq<string>, i: nat)
    requires i < |pieces|
    ensures StripAll(cls, pieces)[i] == Strip(cls, pieces[i])
  {
    if i > 0 {
      StripAt(cls, pieces[1..], i - 1);
    }
  }

  /** The prefix of the step that begins at `start`, which decides its whole scan. */
  method ReadPrefix(cls: Classes, raw: string, start: nat) returns (p: Prefix)
    requires start <= |raw|
    ensures LeadsTo(raw, p, start, NEUTRAL, Stops(cls, raw)[start])
  {
    p := Classify(cls, raw, start);
  }

  lemma BeforeNone<T>(rest: Option<seq<T>>)
    ensures Before([], rest) == rest
  {
    if rest.Some? {
      assert [] + rest.value == rest.value;
    }
  }

  lemma BeforeOne<T>(done: seq<T>, x: T, rest: Option<seq<T>>)
    ensures Before(done + [x], rest) == Before(done, Before([x], rest))
  {
    if rest.Some? {
      assert (done + [x]) + rest.value == done + ([x] + rest.value);
    }
  }

  // ---- The pieces are the input ----------------------------------------------------

  function Rejoin(pieces: seq<string>): string {
    if pieces == [] then "" else if |pieces| == 1 then pieces[0] else pieces[0] + "|" + Rejoin(pieces[1..])
  }

  lemma RejoinCons(piece: string, rest: seq<string>)
    requires rest != []
    ensures Rejoin([piece] + rest) == piece + "|" + Rejoin(rest)
  {
    assert ([piece] + rest)[1..] == rest;
  }

  /** Nothing is lost: rejoined with pipes, the pieces are the input. */
  lemma {:induction false} PiecesRejoin(raw: string, start: nat, cuts: seq<nat>)
    requires AreCuts(raw, start, cuts)
    ensures Rejoin(Pieces(raw, start, cuts)) == raw[start..]
    decreases |cuts|
  {
    if cuts != [] {
      PiecesRejoin(raw, cuts[0] + 1, cuts[1..]);
      RejoinCons(raw[start..cuts[0]], Pieces(raw, cuts[0] + 1, cuts[1..]));
      assert raw[start..] == raw[start..cuts[0]] + "|" + raw[cuts[0] + 1..];
    }
  }

  // ---- Splitting a step again yields that step ---------------------------------------

  /** White space moves no mode. */
  lemma {:induction false} SpacesPass(cls: Classes, raw: string, p: Prefix, i: nat, j: nat, m: Mode)
    requires cls.Valid() && i <= j <= |raw| && forall k :: i <= k < j ==> cls.space(raw[k])
    ensures Scan(raw, p, i, m) == Scan(raw, p, j, m)
    decreases j - i
  {
    if i < j {
      assert raw[i] !in "\"\\[]()|:";
      SpacesPass(cls, raw, p, i + 1, j, m);
    }
  }

  /** The step raw[start..e] without its outer spaces is raw[lo..hi]. */
  ghost predicate Bounds(cls: Classes, raw: string, start: nat, e: nat, lo: nat, hi: nat) {
    && cls.Valid() && start <= lo < hi <= e <= |raw|
    && (forall k :: start <= k < lo ==> cls.space(raw[k]))
    && (forall k :: hi <= k < e ==> cls.space(raw[k]))
    && !cls.space(raw[lo]) && !cls.space(raw[hi - 1])
    && (e < |raw| ==> raw[e] == '|')
  }

  lemma SkipIs(p: char -> bool, s: string, i: nat, j: nat)
    requires i <= j <= |s| && (forall k :: i <= k < j ==> p(s[k])) && (j < |s| ==> !p(s[j]))
    ensures Skip(p, s, i) == j
  {
    var k := Skip(p, s, i);
    if k != j {
      assert false;
    }
  }

  /** Skipping inside the step stops where it stops in the whole text, or at the step's end. */
  lemma SkipWithin(p: char -> bool, raw: string, lo: nat, hi: nat, i: nat)
    requires lo <= i <= hi <= |raw|
    ensures var j, k := Skip(p, raw, i), Skip(p, raw[lo..hi], i - lo);
            k == (if j < hi then j else hi) - lo
  {
    var j := Skip(p, raw, i);
    var end := if j < hi then j else hi;
    SkipIs(p, raw[lo..hi], i - lo, end - lo);
  }

  /** What follows the step is a space, the pipe, or nothing. */
  lemma StepEdge(cls: Classes, raw: string, start: nat, e: nat, lo: nat, hi: nat)
    requires Bounds(cls, raw, start, e, lo, hi)
    ensures hi < |raw| ==> (cls.space(raw[hi]) || raw[hi] == '|') && !cls.word(raw[hi]) && raw[hi] != '"'
  {
    if hi < |raw| && raw[hi] != '|' {
      assert cls.space(raw[hi]);
      assert raw[hi] !in "\"\\[]()|:";
    } else if hi < |raw| {
      assert raw[hi] in "\"\\[]()|:";
    }
  }

  /** A word found in the text at the start of the step lies in the step. */
  lemma WordWithin(cls: Classes, raw: string, start: nat, e: nat, lo: nat, hi: nat, t: string)
    requires Bounds(cls, raw, start, e, lo, hi)
    requires forall k :: 0 <= k < |t| ==> !cls.space(t[k]) && t[k] != '|'
    ensures At(raw, lo, t) <==> At(raw[lo..hi], 0, t)
  {
    StepEdge(cls, raw, start, e, lo, hi);
    if At(raw, lo, t) {
      for k := 0 to |t|
        invariant lo + k <= hi
      {
        assert raw[lo..lo + |t|][k] == raw[lo + k];
      }
      assert raw[lo..hi][..|t|] == raw[lo..lo + |t|];
    }
    if At(raw[lo..hi], 0, t) {
      assert raw[lo..hi][..|t|] == raw[lo..lo + |t|];
    }
  }

  /** What the classification says about an index, seen from the step's own text. */
  ghost predicate SameAt(p: Prefix, q: Prefix, lo: nat, i: nat) {
    (i <= p.patternEnd <==> i - lo <= q.patternEnd) && (i + 1 == p.end <==> i - lo + 1 == q.end)
  }

  ghost predicate SameView(p: Prefix, q: Prefix, lo: nat, hi: nat) {
    forall i :: lo <= i < hi ==> SameAt(p, q, lo, i)
  }

  lemma CallView(cls: Classes, raw: string, start: nat, e: nat, lo: nat, hi: nat)
    requires Bounds(cls, raw, start, e, lo, hi)
    ensures var j := Skip(cls.word, raw, lo);
            var k := Skip(cls.space, raw, j);
            var j' := Skip(cls.word, raw[lo..hi], 0);
            var k' := Skip(cls.space, raw[lo..hi], j');
            && j' == j - lo
            && ((k < |raw| && raw[k] == '(') <==> (k' < hi - lo && raw[lo..hi][k'] == '('))
            && (k < |raw| && raw[k] == '(' ==> k' == k - lo)
  {
    var j := Skip(cls.word, raw, lo);
    StepEdge(cls, raw, start, e, lo, hi);
    if j > hi {
      assert false;
    }
    SkipWithin(cls.word, raw, lo, hi, lo);
    SkipWithin(cls.space, raw, lo, hi, j);
    var k := Skip(cls.space, raw, j);
    if hi <= k < e || e < k {
      assert false;
    }
  }

  lemma ClassifyView(cls: Classes, raw: string, start: nat, e: nat, lo: nat, hi: nat)
    requires Bounds(cls, raw, start, e, lo, hi)
    ensures SameView(Classify(cls, raw, start), Classify(cls, raw[lo..hi], 0), lo, hi)
  {
    var u := raw[lo..hi];
    SkipIs(cls.space, raw, start, lo);
    SkipIs(cls.space, u, 0, 0);
    WordWithin(cls, raw, start, e, lo, hi, "extract:");
    WordWithin(cls, raw, start, e, lo, hi, "regex:");
    if At(raw, lo, "extract:") {
    } else if At(raw, lo, "regex:") {
      ColonView(raw, lo, hi, lo + 6);
    } else {
      CallView(cls, raw, start, e, lo, hi);
    }
  }

  lemma ColonView(raw: string, lo: nat, hi: nat, i: nat)
    requires lo <= i <= hi <= |raw|
    ensures var x, y := FindColon(raw, i), FindColon(raw[lo..hi], i - lo);
            if x < hi then y == x - lo else y == hi - lo
  {
    var x, y := FindColon(raw, i), FindColon(raw[lo..hi], i - lo);
    if x < hi {
      assert raw[lo..hi][x - lo] == ':';
      assert y <= x - lo;
      assert y < hi - lo ==> raw[lo + y] == ':';
    } else if y < hi - lo {
      assert false;
    }
  }

  /** Inside the step every turn of the loop is the same from the step's own text. */
  lemma {:induction false} ScanView(cls: Classes, raw: string, start: nat, e: nat, lo: nat, hi: nat,
                                    p: Prefix, q: Prefix, i: nat, m: Mode)
    requires Bounds(cls, raw, start, e, lo, hi) && SameView(p, q, lo, hi) && lo <= i
    requires Scan(raw, p, i, m) == if e < |raw| then Pipe(e) else Finished(NEUTRAL)
    ensures Scan(raw[lo..hi], q, i - lo, m) == Finished(NEUTRAL)
    decreases |raw| - i
  {
    var u := raw[lo..hi];
    if i >= hi {
      if i <= e {
        SpacesPass(cls, raw, p, i, e, m);
      }
      if e < |raw| && i <= e {
        assert MoveAt(raw, p, e, m).Separator? ==> m == NEUTRAL;
      }
    } else {
      assert u[i - lo] == raw[i] && SameAt(p, q, lo, i);
      StepEdge(cls, raw, start, e, lo, hi);
      assert (i + 1 < |raw| && raw[i + 1] == '"') == (i - lo + 1 < |u| && u[i - lo + 1] == '"') ;
      assert MoveAt(raw, p, i, m) == MoveAt(u, q, i - lo, m);
      var move := MoveAt(raw, p, i, m);
      if move.Advance? {
        ScanView(cls, raw, start, e, lo, hi, p, q, i + move.count, move.mode);
        assert (i + move.count) - lo == i - lo + move.count;
      }
    }
  }

  /** The text of one step, stripped, has no cut and is already stripped. */
  ghost predicate Atomic(cls: Classes, u: string) {
    ScanStep(cls, u, 0) == Finished(NEUTRAL) && Strip(cls, u) == u
  }

  lemma StrippedPieceIsAtomic(cls: Classes, raw: string, start: nat, e: nat)
    requires cls.Valid() && start <= e <= |raw|
    requires ScanStep(cls, raw, start) == if e < |raw| then Pipe(e) else Finished(NEUTRAL)
    ensures Atomic(cls, Strip(cls, raw[start..e]))
  {
    var blank, lo, hi := FindBounds(cls, raw, start, e);
    if !blank {
      StripIs(cls, raw, start, e, lo, hi);
      InnerScan(cls, raw, start, e, lo, hi);
    }
  }

  lemma FindBounds(cls: Classes, raw: string, start: nat, e: nat) returns (blank: bool, lo: nat, hi: nat)
    requires cls.Valid() && start <= e <= |raw| && (e < |raw| ==> raw[e] == '|')
    ensures blank ==> Strip(cls, raw[start..e]) == ""
    ensures !blank ==> Bounds(cls, raw, start, e, lo, hi)
  {
    var piece := raw[start..e];
    var a := Skip(cls.space, piece, 0);
    var b := TrimEnd(cls.space, piece, a, |piece|);
    blank, lo, hi := a == b, start + a, start + b;
    assert forall k :: start <= k < e ==> raw[k] == piece[k - start];
  }

  lemma InnerScan(cls: Classes, raw: string, start: nat, e: nat, lo: nat, hi: nat)
    requires Bounds(cls, raw, start, e, lo, hi)
    requires ScanStep(cls, raw, start) == if e < |raw| then Pipe(e) else Finished(NEUTRAL)
    ensures ScanStep(cls, raw[lo..hi], 0) == Finished(NEUTRAL)
  {
    var p, q := Classify(cls, raw, start), Classify(cls, raw[lo..hi], 0);
    ClassifyView(cls, raw, start, e, lo, hi);
    SpacesPass(cls, raw, p, start, lo, NEUTRAL);
    ScanView(cls, raw, start, e, lo, hi, p, q, lo, NEUTRAL);
  }

  lemma StripIs(cls: Classes, raw: string, start: nat, e: nat, lo: nat, hi: nat)
    requires Bounds(cls, raw, start, e, lo, hi)
    ensures Strip(cls, raw[start..e]) == raw[lo..hi] && Strip(cls, raw[lo..hi]) == raw[lo..hi]
  {
    var piece, u := raw[start..e], raw[lo..hi];
    SliceOfSlice(raw, start, e, lo, hi);
    assert forall k :: start <= k < e ==> piece[k - start] == raw[k];
    StripRange(cls, piece, lo - start, hi - start);
    assert u[0..|u|] == u;
    StripRange(cls, u, 0, |u|);
  }

  lemma SliceOfSlice(s: string, a: nat, b: nat, lo: nat, hi: nat)
    requires a <= lo <= hi <= b <= |s|
    ensures s[a..b][lo - a..hi - a] == s[lo..hi]
  {
    var x, y := s[a..b][lo - a..hi - a], s[lo..hi];
    assert |x| == |y|;
    forall i | 0 <= i < |x| ensures x[i] == y[i] {
    }
  }

  lemma StripRange(cls: Classes, s: string, lo: nat, hi: nat)
    requires lo < hi <= |s| && !cls.space(s[lo]) && !cls.space(s[hi - 1])
    requires (forall k :: 0 <= k < lo ==> cls.space(s[k])) && (forall k :: hi <= k < |s| ==> cls.space(s[k]))
    ensures Strip(cls, s) == s[lo..hi]
  {
    SkipIs(cls.space, s, 0, lo);
    var b := TrimEnd(cls.space, s, lo, |s|);
    assert b == hi;
  }

  /** Every piece is the text of a step that ends where the scan says. */
  lemma {:induction false} PieceIsStep(raw: string, stops: seq<Stop>, start: nat, i: nat) returns (from: nat, e: nat)
    requires AreStops(raw, stops) && start <= |raw| && PiecesFrom(raw, stops, start).Some?
    requires i < |PiecesFrom(raw, stops, start).value|
    ensures from <= e <= |raw| && PiecesFrom(raw, stops, start).value[i] == raw[from..e]
    ensures stops[from] == if e < |raw| then Pipe(e) else Finished(NEUTRAL)
    decreases |raw| - start
  {
    var stop := stops[start];
    if stop.Finished? {
      assert raw[start..|raw|] == raw[start..];
      return start, |raw|;
    }
    if i == 0 {
      return start, stop.at;
    }
    from, e := PieceIsStep(raw, stops, stop.at + 1, i - 1);
  }

  lemma OneStep(cls: Classes, step: string)
    requires Atomic(cls, step)
    ensures Split(cls, step) == Some([step])
  {
    var stops := Stops(cls, step);
    assert step[0..] == step && [step][1..] == [];
    assert StripAll(cls, [step]) == [step] by { StripSnoc(cls, [], step); assert [] + [step] == [step]; }
    assert PiecesFrom(step, stops, 0) == Some([step]);
  }

  lemma StepIsAtomic(cls: Classes, raw: string, i: nat)
    requires cls.Valid() && Split(cls, raw).Some? && i < |Split(cls, raw).value|
    ensures Atomic(cls, Split(cls, raw).value[i])
  {
    var stops := Stops(cls, raw);
    var from, e := PieceIsStep(raw, stops, 0, i);
    StripAt(cls, PiecesFrom(raw, stops, 0).value, i);
    StrippedPieceIsAtomic(cls, raw, from, e);
  }

  /** Splitting any returned step again yields just that step. */
  lemma StepsSplitToThemselves(cls: Classes, raw: string, step: string)
    requires cls.Valid() && Split(cls, raw).Some? && step in Split(cls, raw).value
    ensures Split(cls, step) == Some([step])
  {
    var steps := Split(cls, raw).value;
    var i :| 0 <= i < |steps| && steps[i] == step;
    StepIsAtomic(cls, raw, i);
    OneStep(cls, step);
  }

  /** The unstripped pieces, rejoined with pipes, are the input, and there is one more step than
      top-level pipes. */
  lemma NothingIsLost(cls: Classes, raw: string) returns (cuts: seq<nat>, pieces: seq<string>)
    requires Split(cls, raw).Some?
    ensures Pipes(raw, Stops(cls, raw), 0) == Some(cuts) && AreCuts(raw, 0, cuts)
    ensures Split(cls, raw) == Some(StripAll(cls, pieces))
    ensures Rejoin(pieces) == raw && |pieces| == 1 + |cuts|
  {
    var stops := Stops(cls, raw);
    PiecesLieBetweenPipes(raw, stops, 0);
    cuts, pieces := Pipes(raw, stops, 0).value, PiecesFrom(raw, stops, 0).value;
    assert pieces == Pieces(raw, 0, cuts);
    PiecesRejoin(raw, 0, cuts);
    assert raw[0..] == raw;
  }
}

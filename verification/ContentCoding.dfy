/** Undoing stacked content codings piece by piece (engine/content_coding.py), against running
    each coding to its end before the next (section 8.4 of RFC 9110).

    A coding is any stateful decoder: fed bytes it yields pieces, and it may raise after some of
    them; at the end it may yield more.
 */
module ContentCoding {

  type Bytes = seq<int>

  /** What a generator yielded, and whether it ended without raising. */
  datatype Flow = Flow(pieces: seq<Bytes>, ok: bool)

  datatype Coding<!S> = Coding(decode: (S, Bytes) -> (S, Flow), flush: S -> Flow)

  /** The decoder used when a response applies no known coding. */
  function Identity<S>(): Coding<S> {
    Coding((s: S, data: Bytes) => (s, Flow(if data == [] then [] else [data], true)),
           (s: S) => Flow([], true))
  }

  /** One step's output: a piece, and whether it belongs to the body. */
  datatype Piece = Piece(bytes: Bytes, kept: bool)

  datatype Outcome<S> = Outcome(states: seq<S>, out: seq<Piece>, ok: bool)

  // ---- The interleaved pipeline ------------------------------------------------------

  /** Go on with `next` where `r` stopped, unless it raised. */
  function Then<S>(r: Outcome<S>, next: Outcome<S>): Outcome<S> {
    if r.ok then Outcome(next.states, r.out + next.out, next.ok) else r
  }

  function Raise<S>(r: Outcome<S>, ok: bool): Outcome<S> {
    r.(ok := r.ok && ok)
  }

  /** Pieces yielded by coding `i`, each passed on at once through the codings after it. */
  function Through<S>(cs: seq<Coding<S>>, states: seq<S>, i: nat, pieces: seq<Bytes>): (r: Outcome<S>)
    requires i < |cs| == |states|
    ensures |r.states| == |states|
    decreases |cs| - i, 0, |pieces|
  {
    if pieces == [] then Outcome(states, [], true)
    else
      var mark := Outcome(states, [Piece(pieces[0], i == |cs| - 1)], true);
      var r := if i == |cs| - 1 then mark else Then(mark, Input(cs, states, i + 1, [pieces[0]]));
      if !r.ok then r else Then(r, Through(cs, r.states, i, pieces[1..]))
  }

  /** Data fed to coding `i`, one item after another. */
  function Input<S>(cs: seq<Coding<S>>, states: seq<S>, i: nat, data: seq<Bytes>): (r: Outcome<S>)
    requires i < |cs| == |states|
    ensures |r.states| == |states|
    decreases |cs| - i, 1, |data|
  {
    if data == [] then Outcome(states, [], true)
    else
      var (s, flow) := cs[i].decode(states[i], data[0]);
      var r := Raise(Through(cs, states[i := s], i, flow.pieces), flow.ok);
      if !r.ok then r else Then(r, Input(cs, r.states, i, data[1..]))
  }

  /** Flushing coding `i` and every one after it, in order. */
  function Flushes<S>(cs: seq<Coding<S>>, states: seq<S>, i: nat): (r: Outcome<S>)
    requires i <= |cs| == |states|
    ensures |r.states| == |states|
    decreases |cs| - i
  {
    if i == |cs| then Outcome(states, [], true)
    else
      var flow := cs[i].flush(states[i]);
      var r := Raise(Through(cs, states, i, flow.pieces), flow.ok);
      if !r.ok then r else Then(r, Flushes(cs, r.states, i + 1))
  }

  class ContentDecoder<S> {
    const codings: seq<Coding<S>>
    var states: seq<S>

    ghost predicate Valid()
      reads this
    {
      |codings| == |states| > 0
    }

    /** Without a coding the body passes as it came; `unit` is any state for that. */
    constructor (codings: seq<Coding<S>>, states: seq<S>, unit: S)
      requires |codings| == |states|
      ensures Valid()
      ensures if codings == [] then this.codings == [Identity()] && this.states == [unit]
              else this.codings == codings && this.states == states
    {
      this.codings := if codings == [] then [Identity()] else codings;
      this.states := if codings == [] then [unit] else states;
    }

    method Decode(data: Bytes) returns (out: seq<Piece>, ok: bool)
      requires Valid()
      modifies this
      ensures Valid()
      ensures Outcome(states, out, ok) == Input(codings, old(states), 0, [data])
    {
      var (s, flow) := codings[0].decode(states[0], data);
      states := states[0 := s];
      out, ok := RunThrough(0, flow.pieces);
      ok := ok && flow.ok;
      assert [data][1..] == [];
      assert out + [] == out;
    }

    method Flush() returns (out: seq<Piece>, ok: bool)
      requires Valid()
      modifies this
      ensures Valid()
      ensures Outcome(states, out, ok) == Flushes(codings, old(states), 0)
    {
      out, ok := [], true;
      var index := 0;
      while index < |codings|
        invariant 0 <= index <= |codings| && Valid() && ok
        invariant Flushes(codings, old(states), 0) ==
                  Then(Outcome(states, out, true), Flushes(codings, states, index))
      {
        ghost var before, earlier := states, out;
        var flow := codings[index].flush(states[index]);
        var more, fine := RunThrough(index, flow.pieces);
        out := out + more;
        ghost var r := Outcome(states, more, fine && flow.ok);
        assert r == Raise(Through(codings, before, index, flow.pieces), flow.ok);
        if !fine || !flow.ok {
          ok := false;
          return;
        }
        ThenAssociates(Outcome(before, earlier, true), r, Flushes(codings, states, index + 1));
        index := index + 1;
      }
      assert out + [] == out;
    }

    /** The caller's loop (engine/basic_fetch.py): decode every chunk as it arrives, then flush.
        However the body is cut into chunks, this is running coding after coding on it. */
    method DecodeBody(chunks: seq<Bytes>) returns (out: seq<Piece>, ok: bool)
      requires Valid()
      modifies this
      ensures Valid()
      ensures ok == Staged(codings, old(states), 0, chunks).ok
      ensures ok ==> Body(out) == Staged(codings, old(states), 0, chunks).pieces
      ensures ok ==> Charged(out) == StagedSize(codings, old(states), 0, chunks)
    {
      InterleavedIsStaged(codings, states, 0, chunks);
      out, ok := [], true;
      for k := 0 to |chunks|
        invariant Valid() && ok
        invariant Input(codings, old(states), 0, chunks) ==
                  Then(Outcome(states, out, true), Input(codings, states, 0, chunks[k..]))
      {
        ghost var rest := chunks[k..];
        assert rest[0] == chunks[k] && rest[1..] == chunks[k + 1..];
        ghost var before, earlier := states, out;
        var more, fine := Decode(chunks[k]);
        OneInput(codings, before, 0, chunks[k]);
        out := out + more;
        if !fine {
          ok := false;
          return;
        }
        ThenAssociates(Outcome(before, earlier, true), Outcome(states, more, true),
                       Input(codings, states, 0, chunks[k + 1..]));
      }
      assert chunks[|chunks|..] == [];
      assert out + [] == out;
      var more, fine := Flush();
      out := out + more;
      ok := fine;
    }

    method RunThrough(index: nat, pieces: seq<Bytes>) returns (out: seq<Piece>, ok: bool)
      requires Valid() && index < |codings|
      modifies this
      ensures Valid()
      ensures Outcome(states, out, ok) == Through(codings, old(states), index, pieces)
      decreases |codings| - index
    {
      out, ok := [], true;
      for k := 0 to |pieces|
        invariant Valid() && ok
        invariant Through(codings, old(states), index, pieces) ==
                  Then(Outcome(states, out, true), Through(codings, states, index, pieces[k..]))
      {
        ghost var rest := pieces[k..];
        assert rest[0] == pieces[k] && rest[1..] == pieces[k + 1..];
        ghost var before, earlier := states, out;
        var more := [Piece(pieces[k], index == |codings| - 1)];
        ghost var mark := Outcome(before, more, true);
        if index < |codings| - 1 {
          var (s, flow) := codings[index + 1].decode(states[index + 1], pieces[k]);
          states := states[index + 1 := s];
          var deeper, fine := RunThrough(index + 1, flow.pieces);
          OneInput(codings, before, index + 1, pieces[k]);
          more := more + deeper;
          ok := fine && flow.ok;
        }
        out := out + more;
        if !ok {
          return;
        }
        ThenAssociates(Outcome(before, earlier, true), Outcome(states, more, true),
                       Through(codings, states, index, pieces[k + 1..]));
      }
      assert pieces[|pieces|..] == [];
      assert out + [] == out;
    }
  }

  lemma ThenAssociates<S>(a: Outcome<S>, b: Outcome<S>, c: Outcome<S>)
    ensures Then(a, Then(b, c)) == Then(Then(a, b), c)
  {
    assert a.out + (b.out + c.out) == (a.out + b.out) + c.out;
  }

  lemma OneInput<S>(cs: seq<Coding<S>>, states: seq<S>, i: nat, data: Bytes)
    requires i < |cs| == |states|
    ensures var (s, flow) := cs[i].decode(states[i], data);
            Input(cs, states, i, [data]) == Raise(Through(cs, states[i := s], i, flow.pieces), flow.ok)
  {
    var (s, flow) := cs[i].decode(states[i], data);
    var r := Raise(Through(cs, states[i := s], i, flow.pieces), flow.ok);
    assert [data][1..] == [];
    assert r.out + [] == r.out;
  }

  // ---- Coding by coding --------------------------------------------------------------

  /** All of the input through one coding, without its flush. */
  function Feed<S>(c: Coding<S>, s: S, data: seq<Bytes>): (S, Flow) {
    if data == [] then (s, Flow([], true))
    else
      var (s', flow) := c.decode(s, data[0]);
      if !flow.ok then (s', flow)
      else
        var (s'', rest) := Feed(c, s', data[1..]);
        (s'', Flow(flow.pieces + rest.pieces, rest.ok))
  }

  /** One coding run to its end on the whole output of the one before it. */
  function Stage<S>(c: Coding<S>, s: S, data: seq<Bytes>): Flow {
    var (s', flow) := Feed(c, s, data);
    if !flow.ok then flow
    else
      var last := c.flush(s');
      Flow(flow.pieces + last.pieces, last.ok)
  }

  /** The codings from `i` on, one after the other. */
  function Staged<S>(cs: seq<Coding<S>>, states: seq<S>, i: nat, data: seq<Bytes>): Flow
    requires i <= |cs| == |states|
    decreases |cs| - i
  {
    if i == |cs| then Flow(data, true)
    else
      var flow := Stage(cs[i], states[i], data);
      if !flow.ok then Flow([], false) else Staged(cs, states, i + 1, flow.pieces)
  }

  function Size(pieces: seq<Bytes>): nat {
    if pieces == [] then 0 else |pieces[0]| + Size(pieces[1..])
  }

  /** Everything those codings yield, the last one's body included. */
  function StagedSize<S>(cs: seq<Coding<S>>, states: seq<S>, i: nat, data: seq<Bytes>): nat
    requires i <= |cs| == |states|
    decreases |cs| - i
  {
    if i == |cs| then 0
    else
      var flow := Stage(cs[i], states[i], data);
      Size(flow.pieces) + if flow.ok then StagedSize(cs, states, i + 1, flow.pieces) else 0
  }

  /** The body, and everything handed out to be charged. */
  function Body(out: seq<Piece>): seq<Bytes> {
    if out == [] then [] else (if out[0].kept then [out[0].bytes] else []) + Body(out[1..])
  }

  function Charged(out: seq<Piece>): nat {
    if out == [] then 0 else |out[0].bytes| + Charged(out[1..])
  }

  lemma {:induction false} BodyAppend(a: seq<Piece>, b: seq<Piece>)
    ensures Body(a + b) == Body(a) + Body(b) && Charged(a + b) == Charged(a) + Charged(b)
  {
    if a == [] {
      assert a + b == b;
    } else {
      assert (a + b)[1..] == a[1..] + b;
      BodyAppend(a[1..], b);
    }
  }

  lemma {:induction false} SizeAppend(a: seq<Bytes>, b: seq<Bytes>)
    ensures Size(a + b) == Size(a) + Size(b)
  {
    if a == [] {
      assert a + b == b;
    } else {
      assert (a + b)[1..] == a[1..] + b;
      SizeAppend(a[1..], b);
    }
  }

  /** Passing pieces on never touches the coding that yielded them, nor those before it. */
  lemma {:induction false} ThroughFrame<S>(cs: seq<Coding<S>>, states: seq<S>, i: nat, pieces: seq<Bytes>, j: nat, x: S)
    requires j <= i < |cs| == |states|
    ensures var r := Through(cs, states, i, pieces);
            && Through(cs, states[j := x], i, pieces) == r.(states := r.states[j := x])
            && r.states[j] == states[j]
    decreases |cs| - i, 0, |pieces|
  {
    if pieces != [] {
      if i == |cs| - 1 {
        ThroughFrame(cs, states, i, pieces[1..], j, x);
      } else {
        InputFrame(cs, states, i + 1, [pieces[0]], j, x);
        var r := Input(cs, states, i + 1, [pieces[0]]);
        if r.ok {
          ThroughFrame(cs, r.states, i, pieces[1..], j, x);
        }
      }
    }
  }

  lemma {:induction false} InputFrame<S>(cs: seq<Coding<S>>, states: seq<S>, i: nat, data: seq<Bytes>, j: nat, x: S)
    requires j < i < |cs| == |states|
    ensures var r := Input(cs, states, i, data);
            && Input(cs, states[j := x], i, data) == r.(states := r.states[j := x])
            && r.states[j] == states[j]
    decreases |cs| - i, 1, |data|
  {
    if data != [] {
      var (s, flow) := cs[i].decode(states[i], data[0]);
      assert states[j := x][i := s] == states[i := s][j := x];
      ThroughFrame(cs, states[i := s], i, flow.pieces, j, x);
      var r := Through(cs, states[i := s], i, flow.pieces);
      if r.ok && flow.ok {
        InputFrame(cs, r.states, i, data[1..], j, x);
      }
    }
  }

  lemma {:induction false} ThroughAppend<S>(cs: seq<Coding<S>>, states: seq<S>, i: nat, a: seq<Bytes>, b: seq<Bytes>)
    requires i < |cs| == |states|
    ensures var r := Through(cs, states, i, a);
            Through(cs, states, i, a + b) == if r.ok then Then(r, Through(cs, r.states, i, b)) else r
    decreases |a|
  {
    if a == [] {
      assert a + b == b;
      assert [] + Through(cs, states, i, b).out == Through(cs, states, i, b).out;
    } else {
      assert (a + b)[1..] == a[1..] + b && (a + b)[0] == a[0];
      var mark := Outcome(states, [Piece(a[0], i == |cs| - 1)], true);
      var r := if i == |cs| - 1 then mark else Then(mark, Input(cs, states, i + 1, [a[0]]));
      if r.ok {
        ThroughAppend(cs, r.states, i, a[1..], b);
        var more := Through(cs, r.states, i, a[1..]);
        if more.ok {
          ThenAssociates(r, more, Through(cs, more.states, i, b));
        }
      }
    }
  }

  /** Feeding a coding item by item, passing each piece on at once, is feeding it everything and
      then passing everything on; each raises if the other does. */
  lemma {:induction false} InputIsFeed<S>(cs: seq<Coding<S>>, states: seq<S>, i: nat, data: seq<Bytes>)
    requires i < |cs| == |states|
    ensures var (s, flow) := Feed(cs[i], states[i], data);
            var late := Raise(Through(cs, states[i := s], i, flow.pieces), flow.ok);
            var r := Input(cs, states, i, data);
            r.ok == late.ok && (r.ok ==> r == late)
    decreases |data|
  {
    if data == [] {
      assert states[i := states[i]] == states;
    } else {
      var (s, flow) := cs[i].decode(states[i], data[0]);
      var r := Through(cs, states[i := s], i, flow.pieces);
      if flow.ok {
        var (s', rest) := Feed(cs[i], s, data[1..]);
        assert states[i := s][i := s'] == states[i := s'];
        ThroughFrame(cs, states[i := s], i, flow.pieces, i, s');
        ThroughAppend(cs, states[i := s'], i, flow.pieces, rest.pieces);
        if r.ok {
          InputIsFeed(cs, r.states, i, data[1..]);
        }
      }
    }
  }

  /** Passing pieces on is feeding them to the next coding, and handing each out to be charged. */
  lemma {:induction false} ThroughIsInput<S>(cs: seq<Coding<S>>, states: seq<S>, i: nat, pieces: seq<Bytes>)
    requires i + 1 < |cs| == |states|
    ensures var r := Through(cs, states, i, pieces);
            var late := Input(cs, states, i + 1, pieces);
            r.ok == late.ok
            && (r.ok ==> r.states == late.states && Body(r.out) == Body(late.out)
                         && Charged(r.out) == Size(pieces) + Charged(late.out))
    decreases |pieces|
  {
    if pieces != [] {
      OneInput(cs, states, i + 1, pieces[0]);
      var one := Input(cs, states, i + 1, [pieces[0]]);
      if one.ok {
        ThroughIsInput(cs, one.states, i, pieces[1..]);
        var mark := [Piece(pieces[0], false)];
        BodyAppend(mark, one.out);
        assert mark[1..] == [];
        var rest, late := Through(cs, one.states, i, pieces[1..]), Input(cs, one.states, i + 1, pieces[1..]);
        BodyAppend(mark + one.out, rest.out);
        BodyAppend(one.out, late.out);
      }
    }
  }

  lemma {:induction false} LastIsBody<S>(cs: seq<Coding<S>>, states: seq<S>, pieces: seq<Bytes>)
    requires 0 < |cs| == |states|
    ensures var r := Through(cs, states, |cs| - 1, pieces);
            r.ok && Body(r.out) == pieces && Charged(r.out) == Size(pieces)
    decreases |pieces|
  {
    if pieces != [] {
      LastIsBody(cs, states, pieces[1..]);
      var mark := [Piece(pieces[0], true)];
      assert mark[1..] == [];
      BodyAppend(mark, Through(cs, states, |cs| - 1, pieces[1..]).out);
    }
  }

  /** The input through coding `i` as it comes, and then the flushes from `i` on. */
  function InputAndFlush<S>(cs: seq<Coding<S>>, states: seq<S>, i: nat, data: seq<Bytes>): Outcome<S>
    requires i < |cs| == |states|
  {
    var r := Input(cs, states, i, data);
    if r.ok then Then(r, Flushes(cs, r.states, i)) else r
  }

  /** The pieces of coding `i` passed on, and then the flushes after it. */
  function ThroughAndFlush<S>(cs: seq<Coding<S>>, states: seq<S>, i: nat, pieces: seq<Bytes>): Outcome<S>
    requires i < |cs| == |states|
  {
    var r := Through(cs, states, i, pieces);
    if r.ok then Then(r, Flushes(cs, r.states, i + 1)) else r
  }

  /** Input and flushes of coding `i` together pass on exactly what it yields when run alone. */
  lemma OneCodingToItsEnd<S>(cs: seq<Coding<S>>, states: seq<S>, i: nat, data: seq<Bytes>)
    requires i < |cs| == |states|
    ensures var (s, _) := Feed(cs[i], states[i], data);
            var flow := Stage(cs[i], states[i], data);
            var late := ThroughAndFlush(cs, states[i := s], i, flow.pieces);
            var r := InputAndFlush(cs, states, i, data);
            r.ok == (flow.ok && late.ok) && (r.ok ==> r == late)
  {
    var (s, flow) := Feed(cs[i], states[i], data);
    InputIsFeed(cs, states, i, data);
    var r := Through(cs, states[i := s], i, flow.pieces);
    ThroughFrame(cs, states[i := s], i, flow.pieces, i, s);
    if flow.ok {
      var last := cs[i].flush(s);
      ThroughAppend(cs, states[i := s], i, flow.pieces, last.pieces);
      if r.ok {
        var more := Through(cs, r.states, i, last.pieces);
        ThenAssociates(r, more, Flushes(cs, more.states, i + 1));
      }
    }
  }

  /** What the codings from `k` on do depends on their own states alone. */
  lemma {:induction false} StagedFrame<S>(cs: seq<Coding<S>>, states: seq<S>, k: nat, data: seq<Bytes>, j: nat, x: S)
    requires j < k <= |cs| == |states|
    ensures Staged(cs, states[j := x], k, data) == Staged(cs, states, k, data)
    ensures StagedSize(cs, states[j := x], k, data) == StagedSize(cs, states, k, data)
    decreases |cs| - k
  {
    if k < |cs| {
      StagedFrame(cs, states, k + 1, Stage(cs[k], states[k], data).pieces, j, x);
    }
  }

  /** Interleaved decoding is coding-by-coding decoding: it raises exactly when that does, and
      otherwise gives the same body and hands out every byte any coding yields. */
  lemma {:induction false} InterleavedIsStaged<S>(cs: seq<Coding<S>>, states: seq<S>, i: nat, data: seq<Bytes>)
    requires i < |cs| == |states|
    ensures var r := InputAndFlush(cs, states, i, data);
            var staged := Staged(cs, states, i, data);
            r.ok == staged.ok
            && (r.ok ==> Body(r.out) == staged.pieces && Charged(r.out) == StagedSize(cs, states, i, data))
    decreases |cs| - i
  {
    OneCodingToItsEnd(cs, states, i, data);
    var (s, _) := Feed(cs[i], states[i], data);
    var flow := Stage(cs[i], states[i], data);
    var after := states[i := s];
    StagedFrame(cs, states, i + 1, flow.pieces, i, s);
    var passed := Through(cs, after, i, flow.pieces);
    if i == |cs| - 1 {
      LastIsBody(cs, after, flow.pieces);
      assert passed.out + [] == passed.out;
    } else {
      ThroughIsInput(cs, after, i, flow.pieces);
      InterleavedIsStaged(cs, after, i + 1, flow.pieces);
      if passed.ok {
        var rest := Flushes(cs, passed.states, i + 1);
        BodyAppend(passed.out, rest.out);
        BodyAppend(Input(cs, after, i + 1, flow.pieces).out, rest.out);
      }
    }
  }

  function NonEmpty(data: seq<Bytes>): seq<Bytes> {
    if data == [] then [] else (if data[0] == [] then [] else [data[0]]) + NonEmpty(data[1..])
  }

  lemma {:induction false} IdentityFeeds<S>(s: S, data: seq<Bytes>)
    ensures Feed(Identity(), s, data) == (s, Flow(NonEmpty(data), true))
  {
    if data != [] {
      IdentityFeeds(s, data[1..]);
    }
  }

  lemma {:induction false} SizeOfNonEmpty(data: seq<Bytes>)
    ensures Size(NonEmpty(data)) == Size(data)
  {
    if data != [] {
      SizeOfNonEmpty(data[1..]);
      SizeAppend(if data[0] == [] then [] else [data[0]], NonEmpty(data[1..]));
      assert Size([data[0]]) == |data[0]| + Size([data[0]][1..]);
    }
  }

  /** A body without a coding comes out as it went in, charged once. */
  lemma UncodedPassesAsItCame<S>(s: S, data: seq<Bytes>)
    ensures var r := InputAndFlush([Identity()], [s], 0, data);
            r.ok && Body(r.out) == NonEmpty(data) && Charged(r.out) == Size(data)
  {
    InterleavedIsStaged([Identity()], [s], 0, data);
    IdentityFeeds(s, data);
    SizeOfNonEmpty(data);
    var flow := Stage(Identity<S>(), s, data);
    assert flow.pieces == NonEmpty(data) + [] == NonEmpty(data);
    assert Staged([Identity()], [s], 1, flow.pieces) == Flow(flow.pieces, true);
  }
}

/** Python's order on strings, and on (time, name) pairs, which picks the entry to evict. */
module Ordering {

  predicate Before(a: string, b: string) {
    b != [] && (a == [] || a[0] < b[0] || (a[0] == b[0] && Before(a[1..], b[1..])))
  }

  lemma {:induction false} BeforeIsTotal(a: string, b: string)
    ensures a == b || Before(a, b) || Before(b, a)
  {
    if a != [] && b != [] && a[0] == b[0] {
      BeforeIsTotal(a[1..], b[1..]);
      assert a == [a[0]] + a[1..] && b == [b[0]] + b[1..];
    }
  }

  lemma {:induction false} BeforeIsTransitive(a: string, b: string, c: string)
    requires Before(a, b) && Before(b, c)
    ensures Before(a, c)
  {
    if a != [] && a[0] == b[0] && b[0] == c[0] {
      BeforeIsTransitive(a[1..], b[1..], c[1..]);
    }
  }

  lemma {:induction false} BeforeIsStrict(a: string, b: string)
    ensures !(Before(a, b) && Before(b, a))
  {
    if a != [] && b != [] && a[0] == b[0] {
      BeforeIsStrict(a[1..], b[1..]);
    }
  }

  /** The first difference is at `k`, where `a` has ended or has the smaller character. */
  predicate SmallerAt(a: string, b: string, k: nat) {
    k <= |a| && k < |b| && a[..k] == b[..k] && (k == |a| || a[k] < b[k])
  }

  /** Python's `a < b`. */
  lemma {:induction false} BeforeIsByFirstDifference(a: string, b: string)
    ensures Before(a, b) <==> exists k: nat :: SmallerAt(a, b, k)
  {
    if a == [] || b == [] || a[0] != b[0] {
      assert b != [] ==> (SmallerAt(a, b, 0) <==> Before(a, b));
      assert forall k: nat | SmallerAt(a, b, k) :: k > 0 ==> a[..k][0] == b[..k][0];
    } else {
      BeforeIsByFirstDifference(a[1..], b[1..]);
      forall k: nat ensures SmallerAt(a, b, k + 1) <==> SmallerAt(a[1..], b[1..], k) {
        if k < |a| && k + 1 < |b| {
          assert a[..k + 1] == [a[0]] + a[1..][..k] && b[..k + 1] == [b[0]] + b[1..][..k];
          assert a[..k + 1][1..] == a[1..][..k] && b[..k + 1][1..] == b[1..][..k];
        }
      }
      if k: nat :| SmallerAt(a, b, k) {
        assert k > 0;
        assert SmallerAt(a[1..], b[1..], k - 1);
      }
      if k: nat :| SmallerAt(a[1..], b[1..], k) {
        assert SmallerAt(a, b, k + 1);
      }
    }
  }

  /** The order of (time, name) tuples. */
  predicate Earlier(t: real, a: string, u: real, b: string) {
    t < u || (t == u && Before(a, b))
  }

  /** `first` comes before every other key of `times`. */
  ghost predicate IsFirst(times: map<string, real>, first: string) {
    first in times && forall d :: d in times && d != first ==> Earlier(times[first], first, times[d], d)
  }

  lemma FirstIsUnique(times: map<string, real>, a: string, b: string)
    requires IsFirst(times, a) && IsFirst(times, b)
    ensures a == b
  {
    BeforeIsStrict(a, b);
  }

  /** Python's `min` over (time, name) tuples. */
  method FindFirst(times: map<string, real>) returns (first: string)
    requires |times| > 0
    ensures IsFirst(times, first)
  {
    first :| first in times;
    var rest := times.Keys - {first};
    while rest != {}
      invariant rest <= times.Keys && first in times && first !in rest
      invariant forall d :: d in times && d != first && d !in rest ==> Earlier(times[first], first, times[d], d)
      decreases |rest|
    {
      var d :| d in rest;
      ghost var was := rest;
      rest := rest - {d};
      if Earlier(times[d], d, times[first], first) {
        forall e | e in times && e != d && e !in rest ensures Earlier(times[d], d, times[e], e) {
          if e != first && times[d] == times[first] == times[e] {
            BeforeIsTransitive(d, first, e);
          }
        }
        first := d;
      } else {
        BeforeIsTotal(d, first);
      }
    }
  }

  lemma FirstExists(times: map<string, real>) returns (first: string)
    requires |times| > 0
    ensures IsFirst(times, first)
    decreases |times|
  {
    var d :| d in times;
    var rest := times - {d};
    assert rest.Keys == times.Keys - {d};
    assert forall k :: k in times && k != d ==> k in rest.Keys;
    if |rest| == 0 {
      assert rest.Keys == {};
      return d;
    }
    assert |rest.Keys| < |times.Keys|;
    var e := FirstExists(rest);
    if Earlier(times[d], d, times[e], e) {
      forall k | k in times && k != d ensures Earlier(times[d], d, times[k], k) {
        assert k in rest;
        if k != e && times[d] == times[e] == times[k] {
          BeforeIsTransitive(d, e, k);
        }
      }
      first := d;
    } else {
      BeforeIsTotal(d, e);
      first := e;
    }
  }

  ghost function First(times: map<string, real>): (first: string)
    requires |times| > 0
    ensures IsFirst(times, first)
  {
    FirstExistsAsFact(times);
    var first :| IsFirst(times, first);
    first
  }

  lemma FirstExistsAsFact(times: map<string, real>)
    requires |times| > 0
    ensures exists first :: IsFirst(times, first)
  {
    var first := FirstExists(times);
  }
}

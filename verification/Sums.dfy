/** Sums over sequences and maps, and how one changed element changes them. */
module Sums {

  ghost function SumOf<T>(f: T -> int, s: seq<T>): int {
    if s == [] then 0 else f(s[0]) + SumOf(f, s[1..])
  }

  lemma {:induction false} SumAppend<T>(f: T -> int, a: seq<T>, b: seq<T>)
    ensures SumOf(f, a + b) == SumOf(f, a) + SumOf(f, b)
  {
    if a == [] {
      assert a + b == b;
    } else {
      assert (a + b)[1..] == a[1..] + b;
      SumAppend(f, a[1..], b);
    }
  }

  lemma SumSnoc<T>(f: T -> int, s: seq<T>, x: T)
    ensures SumOf(f, s + [x]) == SumOf(f, s) + f(x)
  {
    SumAppend(f, s, [x]);
    assert SumOf(f, [x]) == f(x) + SumOf(f, [x][1..]);
  }

  lemma {:induction false} SumUpdate<T>(f: T -> int, s: seq<T>, i: nat, x: T)
    requires i < |s|
    ensures SumOf(f, s[i := x]) == SumOf(f, s) - f(s[i]) + f(x)
  {
    if i > 0 {
      assert s[i := x][1..] == s[1..][i - 1 := x];
      SumUpdate(f, s[1..], i - 1, x);
    }
  }

  lemma SumRemove<T>(f: T -> int, s: seq<T>, i: nat)
    requires i < |s|
    ensures SumOf(f, s[..i] + s[i + 1..]) == SumOf(f, s) - f(s[i])
  {
    assert s == s[..i] + ([s[i]] + s[i + 1..]);
    SumAppend(f, s[..i], [s[i]] + s[i + 1..]);
    SumAppend(f, s[..i], s[i + 1..]);
    SumAppend(f, [s[i]], s[i + 1..]);
    assert SumOf(f, [s[i]]) == f(s[i]) + SumOf(f, [s[i]][1..]);
  }

  lemma {:induction false} SumBound<T>(f: T -> int, g: T -> int, s: seq<T>)
    requires forall i :: 0 <= i < |s| ==> f(s[i]) <= g(s[i])
    ensures SumOf(f, s) <= SumOf(g, s)
  {
    if s != [] {
      SumBound(f, g, s[1..]);
    }
  }

  lemma {:induction false} SumEqual<T>(f: T -> int, g: T -> int, s: seq<T>)
    requires forall i :: 0 <= i < |s| ==> f(s[i]) == g(s[i])
    ensures SumOf(f, s) == SumOf(g, s)
  {
    if s != [] {
      SumEqual(f, g, s[1..]);
    }
  }

  ghost function SomeKey<K, V>(m: map<K, V>): K
    requires |m| != 0
  {
    var k :| k in m;
    k
  }

  ghost function SumValues<K>(m: map<K, int>): int
    decreases |m|
  {
    if |m| == 0 then 0
    else
      var k := SomeKey(m);
      MapLess(m, k);
      m[k] + SumValues(m - {k})
  }

  lemma MapLess<K, V>(m: map<K, V>, k: K)
    requires k in m
    ensures |m - {k}| == |m| - 1
  {
    assert (m - {k}).Keys == m.Keys - {k};
    assert |(m - {k}).Keys| == |m - {k}| && |m.Keys| == |m|;
  }

  /** The sum does not depend on which value is taken first. */
  lemma {:induction false} SumWithout<K>(m: map<K, int>, k: K)
    requires k in m
    ensures SumValues(m) == m[k] + SumValues(m - {k})
    decreases |m|
  {
    MapLess(m, k);
    var first := SomeKey(m);
    if first != k {
      MapLess(m, first);
      assert SumValues(m) == m[first] + SumValues(m - {first});
      assert SumValues(m - {first}) == m[k] + SumValues(m - {first} - {k}) by {
        SumWithout(m - {first}, k);
      }
      assert SumValues(m - {k}) == m[first] + SumValues(m - {k} - {first}) by {
        SumWithout(m - {k}, first);
      }
      assert m - {first} - {k} == m - {k} - {first};
    }
  }

  lemma SumSet<K>(m: map<K, int>, k: K, v: int)
    ensures SumValues(m[k := v]) == SumValues(m) + v - if k in m then m[k] else 0
    ensures |m[k := v]| == |m| + if k in m then 0 else 1
  {
    SumWithout(m[k := v], k);
    MapLess(m[k := v], k);
    assert m[k := v] - {k} == m - {k};
    if k in m {
      SumWithout(m, k);
      MapLess(m, k);
    } else {
      assert m - {k} == m;
    }
  }

  lemma {:induction false} SumWithin<K>(m: map<K, int>, high: nat)
    requires forall k :: k in m ==> 0 <= m[k] <= high
    ensures 0 <= SumValues(m) <= high * |m|
    decreases |m|
  {
    if |m| > 0 {
      var k := SomeKey(m);
      MapLess(m, k);
      SumWithin(m - {k}, high);
      Distribute(high, |m - {k}|);
    }
  }

  lemma Distribute(a: int, n: int)
    ensures a * (n + 1) == a * n + a
  {
  }
}

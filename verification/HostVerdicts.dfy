/** Hostnames a run recently saw resolve to public addresses only (common/host_verdicts.py). */
module HostVerdicts {

  /** One remembered public answer and when it stops counting. */
  datatype Verdict = Verdict(host: string, expires: real)

  /** An insertion-ordered dictionary: the oldest verdict comes first. */
  type Verdicts = seq<Verdict>

  ghost function Hosts(vs: Verdicts): set<string> {
    set v | v in vs :: v.host
  }

  ghost predicate Distinct(vs: Verdicts) {
    vs == [] || (vs[0].host !in Hosts(vs[1..]) && Distinct(vs[1..]))
  }

  function Without(vs: Verdicts, host: string): Verdicts {
    if vs == [] then []
    else if vs[0].host == host then Without(vs[1..], host)
    else [vs[0]] + Without(vs[1..], host)
  }

  predicate Fresh(vs: Verdicts, host: string, now: real) {
    exists v :: v in vs && v.host == host && now < v.expires
  }

  /** What asking for freshness leaves behind: an expired verdict is dropped. */
  function AfterCheck(vs: Verdicts, host: string, now: real): Verdicts {
    if Fresh(vs, host, now) then vs else Without(vs, host)
  }

  /** The oldest verdict makes room for a new host. */
  function Recorded(vs: Verdicts, host: string, expires: real, maxHosts: nat): Verdicts
    requires maxHosts > 0
  {
    var rest := Without(vs, host);
    (if |rest| >= maxHosts then rest[1..] else rest) + [Verdict(host, expires)]
  }

  /** Removal keeps every other verdict and its value. */
  lemma {:induction false} WithoutKeepsOthers(vs: Verdicts, host: string)
    ensures forall v :: v in Without(vs, host) <==> v in vs && v.host != host
    ensures host !in Hosts(Without(vs, host))
  {
    if vs != [] {
      assert vs == [vs[0]] + vs[1..];
      WithoutKeepsOthers(vs[1..], host);
    }
  }

  lemma {:induction false} WithoutIsDistinct(vs: Verdicts, host: string)
    requires Distinct(vs)
    ensures Distinct(Without(vs, host))
    ensures |Without(vs, host)| == |vs| - if host in Hosts(vs) then 1 else 0
  {
    if vs != [] {
      assert vs == [vs[0]] + vs[1..];
      assert Hosts(vs) == {vs[0].host} + Hosts(vs[1..]);
      WithoutIsDistinct(vs[1..], host);
      WithoutKeepsOthers(vs[1..], host);
      if vs[0].host != host {
        var after := [vs[0]] + Without(vs[1..], host);
        assert after[1..] == Without(vs[1..], host);
        assert Hosts(Without(vs[1..], host)) <= Hosts(vs[1..]);
      }
    }
  }

  lemma {:induction false} OneVerdictPerHost(vs: Verdicts, u: Verdict, v: Verdict)
    requires Distinct(vs) && u in vs && v in vs && u.host == v.host
    ensures u == v
  {
    assert vs == [vs[0]] + vs[1..];
    if u in vs[1..] && v in vs[1..] {
      OneVerdictPerHost(vs[1..], u, v);
    }
  }

  lemma {:induction false} DistinctSnoc(vs: Verdicts, v: Verdict)
    requires Distinct(vs) && v.host !in Hosts(vs)
    ensures Distinct(vs + [v])
  {
    if vs != [] {
      assert (vs + [v])[1..] == vs[1..] + [v];
      assert Hosts(vs[1..]) <= Hosts(vs);
      DistinctSnoc(vs[1..], v);
      assert Hosts(vs[1..] + [v]) == Hosts(vs[1..]) + {v.host};
      assert vs[0] in vs;
    }
  }

  /** Recording: the host expires as told, the table stays distinct and within bounds, and no
      other verdict changes, except that the oldest is gone when the table was full. */
  lemma RecordedMeaning(vs: Verdicts, host: string, expires: real, maxHosts: nat)
    requires Distinct(vs) && |vs| <= maxHosts && maxHosts > 0
    ensures var after := Recorded(vs, host, expires, maxHosts);
            && Distinct(after) && |after| <= maxHosts
            && (forall v :: v in after && v.host == host <==> v == Verdict(host, expires))
            && (forall v :: v in after && v.host != host ==> v in vs)
            && (forall v :: v in vs && v.host != host && v !in after ==>
                  |Without(vs, host)| == maxHosts && v == Without(vs, host)[0])
  {
    WithoutKeepsOthers(vs, host);
    WithoutIsDistinct(vs, host);
    var rest := Without(vs, host);
    var kept := if |rest| >= maxHosts then rest[1..] else rest;
    assert Hosts(kept) <= Hosts(rest);
    DistinctSnoc(kept, Verdict(host, expires));
    assert rest != [] ==> rest == [rest[0]] + rest[1..];
    assert forall v :: v in kept ==> v in rest;
  }

  /** Asking drops the host's verdict exactly when it has expired, and touches no other. */
  lemma CheckDropsExpired(vs: Verdicts, host: string, now: real)
    requires Distinct(vs)
    ensures forall v :: v in AfterCheck(vs, host, now) <==> v in vs && (v.host == host ==> now < v.expires)
  {
    WithoutKeepsOthers(vs, host);
    if u :| u in vs && u.host == host && now < u.expires {
      forall v | v in vs && v.host == host ensures now < v.expires {
        OneVerdictPerHost(vs, u, v);
      }
    }
  }

  class PublicHostVerdicts {
    const ttl: real
    const maxHosts: nat
    var expires: Verdicts

    ghost predicate Valid()
      reads this
    {
      Distinct(expires) && |expires| <= maxHosts && maxHosts > 0
    }

    constructor (ttl: real, maxHosts: nat)
      requires maxHosts > 0
      ensures Valid() && expires == [] && this.ttl == ttl && this.maxHosts == maxHosts
    {
      this.ttl, this.maxHosts, expires := ttl, maxHosts, [];
    }

    /** Whether a verdict still counts; one that expired is dropped on the way. */
    method IsFresh(host: string, now: real) returns (known: bool)
      requires Valid()
      modifies this
      ensures Valid()
      ensures known == Fresh(old(expires), host, now)
      ensures expires == AfterCheck(old(expires), host, now)
    {
      var i := 0;
      while i < |expires| && expires[i].host != host
        invariant 0 <= i <= |expires|
        invariant forall j :: 0 <= j < i ==> expires[j].host != host
      {
        i := i + 1;
      }
      if i < |expires| && now < expires[i].expires {
        return true;
      }
      if i < |expires| && Fresh(expires, host, now) {
        var v :| v in expires && v.host == host && now < v.expires;
        OneVerdictPerHost(expires, expires[i], v);
      }
      WithoutIsDistinct(expires, host);
      if i < |expires| {
        expires := Without(expires, host);
      } else {
        NothingToRemove(expires, host);
      }
      known := false;
    }

    method Record(host: string, resolvedAt: real)
      requires Valid()
      modifies this
      ensures Valid()
      ensures expires == Recorded(old(expires), host, resolvedAt + ttl, maxHosts)
    {
      RecordedMeaning(expires, host, resolvedAt + ttl, maxHosts);
      expires := Without(expires, host);
      if |expires| >= maxHosts {
        expires := expires[1..];
      }
      expires := expires + [Verdict(host, resolvedAt + ttl)];
    }

    method Forget(host: string)
      requires Valid()
      modifies this
      ensures Valid() && expires == Without(old(expires), host)
    {
      WithoutIsDistinct(expires, host);
      expires := Without(expires, host);
    }

    method Clear()
      requires Valid()
      modifies this
      ensures Valid() && expires == []
    {
      expires := [];
    }
  }

  lemma {:induction false} NothingToRemove(vs: Verdicts, host: string)
    requires forall i :: 0 <= i < |vs| ==> vs[i].host != host
    ensures Without(vs, host) == vs
  {
    if vs != [] {
      NothingToRemove(vs[1..], host);
    }
  }
}

/** The connected-address policy and the firewall rules compiled from it (engine/ip_policy.py). */
module IpPolicy {
  import opened Arithmetic

  function Pow2(n: nat): (p: nat)
    ensures p > 0
  {
    if n == 0 then 1 else 2 * Pow2(n - 1)
  }

  datatype Address = V4(bits: nat) | V6(bits: nat)

  /** A CIDR block; `v6` tells its family. */
  datatype Network = Network(v6: bool, base: nat, prefixlen: nat)
  {
    function HostBits(): nat {
      if prefixlen <= Width() then Width() - prefixlen else 0
    }

    function Width(): nat {
      if v6 then 128 else 32
    }

    /** The same family, and the same leading bits. */
    predicate Contains(a: Address) {
      a.V6? == v6 && a.bits / Pow2(HostBits()) == base / Pow2(HostBits())
    }
  }

  /** `any(address in network for network in networks)`. */
  predicate InAny(a: Address, networks: seq<Network>) {
    networks != [] && (networks[0].Contains(a) || InAny(a, networks[1..]))
  }

  function OnlyV4(networks: seq<Network>): seq<Network> {
    if networks == [] then []
    else (if networks[0].v6 then [] else [networks[0]]) + OnlyV4(networks[1..])
  }

  /** The reviewed lists: exceptions, denied blocks, and the IPv6 prefixes that embed an IPv4
      address, which `translated` names for the check and `compiled` for the firewall. */
  datatype Policy = Policy(exceptions: seq<Network>, denied: seq<Network>,
                           translated: seq<Network>, compiled: seq<Network>)

  // ---- The check used for URLs --------------------------------------------------

  const LOW32: nat := 0x1_0000_0000
  const BIT64: nat := 0x1_0000_0000_0000_0000
  const BIT80: nat := 0x1_0000_0000_0000_0000_0000
  const BIT96: nat := 0x1_0000_0000_0000_0000_0000_0000
  const BIT112: nat := 0x1_0000_0000_0000_0000_0000_0000_0000

  function Translations(n: nat, prefixes: seq<Network>): seq<Address> {
    if prefixes == [] then []
    else (if prefixes[0].Contains(V6(n)) then [V4(n % LOW32)] else []) + Translations(n, prefixes[1..])
  }

  /** Mapped and 6to4 addresses, and Teredo's server and its client's complement. */
  function Tunnels(n: nat): seq<Address> {
    (if n / LOW32 == 0xFFFF then [V4(n % LOW32)] else [])
    + (if n / BIT112 == 0x2002 then [V4(n / BIT80 % LOW32)] else [])
    + (if n / BIT96 == 0x2001_0000 then [V4(n / BIT64 % LOW32), V4(0xFFFF_FFFF - n % LOW32)] else [])
  }

  /** IPv4 endpoints an IPv6 address spells. */
  function EmbeddedIpv4Addresses(n: nat, p: Policy): seq<Address> {
    Tunnels(n) + Translations(n, p.translated)
  }

  method CollectEmbedded(n: nat, p: Policy) returns (addresses: seq<Address>)
    ensures addresses == EmbeddedIpv4Addresses(n, p)
  {
    addresses := [];
    if n / LOW32 == 0xFFFF {
      addresses := addresses + [V4(n % LOW32)];
    }
    if n / BIT112 == 0x2002 {
      addresses := addresses + [V4(n / BIT80 % LOW32)];
    }
    if n / BIT96 == 0x2001_0000 {
      addresses := addresses + [V4(n / BIT64 % LOW32), V4(0xFFFF_FFFF - n % LOW32)];
    }
    addresses := AddTranslations(addresses, n, p.translated);
  }

  method AddTranslations(found: seq<Address>, n: nat, prefixes: seq<Network>) returns (addresses: seq<Address>)
    ensures addresses == found + Translations(n, prefixes)
  {
    addresses := found;
    for i := 0 to |prefixes|
      invariant addresses + Translations(n, prefixes[i..]) == found + Translations(n, prefixes)
    {
      if prefixes[i].Contains(V6(n)) {
        addresses := addresses + [V4(n % LOW32)];
      }
    }
  }

  /** `ip_is_blocked`: exceptions first, then denied blocks, then what an IPv6 address embeds. */
  predicate IpIsBlocked(a: Address, p: Policy)
    decreases a.V6?, 0
  {
    if InAny(a, p.exceptions) then false
    else if InAny(a, p.denied) then true
    else a.V6? && AnyBlocked(EmbeddedIpv4Addresses(a.bits, p), p)
  }

  predicate AnyBlocked(addresses: seq<Address>, p: Policy)
    decreases false, 1, |addresses|
  {
    addresses != []
    && ((addresses[0].V4? && IpIsBlocked(addresses[0], p)) || AnyBlocked(addresses[1..], p))
  }

  // ---- The firewall ----------------------------------------------------------------

  datatype Rule = Rule(allow: bool, network: Network)

  function BitOr(a: nat, b: nat): nat {
    if a == 0 then b else if b == 0 then a
    else 2 * BitOr(a / 2, b / 2) + (if a % 2 == 1 || b % 2 == 1 then 1 else 0)
  }

  /** An IPv4 block inside an IPv6 /96 prefix. */
  function Embed(prefix: Network, network: Network): Network {
    Network(true, BitOr(prefix.base, network.base), 96 + network.prefixlen)
  }

  function EmbedAll(prefix: Network, networks: seq<Network>): seq<Network> {
    if networks == [] then [] else [Embed(prefix, networks[0])] + EmbedAll(prefix, networks[1..])
  }

  function Rules(allow: bool, networks: seq<Network>): seq<Rule> {
    if networks == [] then [] else [Rule(allow, networks[0])] + Rules(allow, networks[1..])
  }

  function CompiledRules(prefixes: seq<Network>, networks: seq<Network>): seq<Rule> {
    if prefixes == [] then []
    else Rules(false, EmbedAll(prefixes[0], networks)) + CompiledRules(prefixes[1..], networks)
  }

  /** The ordered firewall entries; the family is the network's own. */
  function FirewallPolicyEntries(p: Policy): seq<Rule> {
    Rules(true, p.exceptions) + Rules(false, p.denied) + CompiledRules(p.compiled, OnlyV4(p.denied))
  }

  method BuildFirewallEntries(p: Policy) returns (entries: seq<Rule>)
    ensures entries == FirewallPolicyEntries(p)
  {
    entries := AddRules([], true, p.exceptions);
    entries := AddRules(entries, false, p.denied);
    var v4 := OnlyV4(p.denied);
    ghost var before := entries;
    for i := 0 to |p.compiled|
      invariant entries + CompiledRules(p.compiled[i..], v4) == before + CompiledRules(p.compiled, v4)
    {
      entries := AddRules(entries, false, EmbedAll(p.compiled[i], v4));
    }
    assert entries + [] == entries;
  }

  method AddRules(before: seq<Rule>, allow: bool, networks: seq<Network>) returns (entries: seq<Rule>)
    ensures entries == before + Rules(allow, networks)
  {
    entries := before;
    for i := 0 to |networks|
      invariant entries + Rules(allow, networks[i..]) == before + Rules(allow, networks)
    {
      entries := entries + [Rule(allow, networks[i])];
    }
    assert entries + [] == entries;
  }

  /** A packet filter: the first rule that matches decides, and the rest is allowed. */
  predicate Dropped(a: Address, rules: seq<Rule>) {
    rules != [] && (if rules[0].network.Contains(a) then !rules[0].allow else Dropped(a, rules[1..]))
  }

  // ---- The two agree -----------------------------------------------------------------

  lemma {:induction false} DroppedAfterAllows(a: Address, networks: seq<Network>, rest: seq<Rule>)
    ensures Dropped(a, Rules(true, networks) + rest) <==> !InAny(a, networks) && Dropped(a, rest)
  {
    if networks == [] {
      assert Rules(true, networks) + rest == rest;
    } else {
      assert (Rules(true, networks) + rest)[1..] == Rules(true, networks[1..]) + rest;
      DroppedAfterAllows(a, networks[1..], rest);
    }
  }

  lemma {:induction false} DroppedAfterDenies(a: Address, networks: seq<Network>, rest: seq<Rule>)
    ensures Dropped(a, Rules(false, networks) + rest) <==> InAny(a, networks) || Dropped(a, rest)
  {
    if networks == [] {
      assert Rules(false, networks) + rest == rest;
    } else {
      assert (Rules(false, networks) + rest)[1..] == Rules(false, networks[1..]) + rest;
      DroppedAfterDenies(a, networks[1..], rest);
    }
  }

  lemma PowSplit(a: nat, b: nat)
    ensures Pow2(a + b) == Pow2(a) * Pow2(b)
    decreases a
  {
    if a > 0 {
      PowSplit(a - 1, b);
    }
  }

  /** High bits pass through a shift that only drops low ones. */
  lemma DivSplit(m: nat, r: nat, x: nat, y: nat)
    requires x > 0 && y > 0
    ensures (x * y * m + r) / x == y * m + r / x
  {
    var k, t := r / x, r % x;
    assert x * y * m + r == x * (y * m + k) + t;
    DivUnique(x, y * m + k, t);
  }

  lemma {:induction false} OrOfDisjoint(a: nat, b: nat, k: nat)
    requires a % Pow2(k) == 0 && b < Pow2(k)
    ensures BitOr(a, b) == a + b
    decreases k
  {
    if k > 0 && a != 0 && b != 0 {
      HalveMultiple(a, Pow2(k - 1));
      OrOfDisjoint(a / 2, b / 2, k - 1);
    }
  }

  lemma HalveMultiple(a: nat, x: nat)
    requires x > 0 && a % (2 * x) == 0
    ensures a % 2 == 0 && (a / 2) % x == 0
  {
    var q := a / (2 * x);
    assert a == 2 * (x * q);
    assert (a / 2) == x * q;
    MultipleMod(x, q);
  }

  lemma MultipleMod(x: nat, q: nat)
    requires x > 0
    ensures (x * q) % x == 0
  {
    DivUnique(x, q, 0);
    assert (x * q) % x == x * q - x * ((x * q) / x);
  }

  // ---- Blocks embedded in a /96 ----------------------------------------------------

  /** A /96 prefix of IPv6, and an IPv4 block. */
  predicate IsPrefix96(n: Network) {
    n.v6 && n.prefixlen == 96 && n.base % LOW32 == 0
  }

  predicate IsV4Block(n: Network) {
    !n.v6 && n.prefixlen <= 32 && n.base < LOW32
  }

  lemma Pow32()
    ensures Pow2(32) == LOW32
  {
    assert Pow2(8) == 256;
    PowSplit(8, 8);
    PowSplit(16, 16);
  }

  lemma HighAndLow(n: nat, w: nat, x: nat, y: nat)
    requires x > 0 && y > 0 && w == x * y
    ensures n / x == y * (n / w) + (n % w) / x && (n % w) / x < y
  {
    DivSplit(n / w, n % w, x, y);
    DivBound(n % w, x, y);
    assert n == w * (n / w) + n % w;
  }

  lemma SplitAt(q: nat, low: nat, w: nat, x: nat, y: nat)
    requires x > 0 && y > 0 && w == x * y && low < w
    ensures (w * q + low) / x == y * q + low / x && low / x < y
  {
    DivSplit(q, low, x, y);
    DivBound(low, x, y);
  }

  /** Comparing the leading bits of two numbers, by their high and their low parts. */
  lemma LeadingBits(n: nat, q: nat, low: nat, w: nat, x: nat, y: nat)
    requires x > 0 && y > 0 && w == x * y && low < w
    ensures n / x == (w * q + low) / x <==> n / w == q && (n % w) / x == low / x
  {
    HighAndLow(n, w, x, y);
    SplitAt(q, low, w, x, y);
    DigitsAgree(y, n / w, (n % w) / x, q, low / x);
  }

  /** An embedded block holds exactly the addresses of the prefix whose last 32 bits the IPv4
      block holds. */
  lemma EmbedMeans(prefix: Network, network: Network, n: nat)
    requires IsPrefix96(prefix) && IsV4Block(network)
    ensures Embed(prefix, network).Contains(V6(n)) <==>
            prefix.Contains(V6(n)) && network.Contains(V4(n % LOW32))
  {
    var h := 32 - network.prefixlen;
    Pow32();
    PowSplit(h, network.prefixlen);
    OrOfDisjoint(prefix.base, network.base, 32);
    LeadingBits(n, prefix.base / LOW32, network.base, LOW32, Pow2(h), Pow2(network.prefixlen));
    assert Embed(prefix, network).HostBits() == h && network.HostBits() == h && prefix.HostBits() == 32;
  }

  lemma DigitsAgree(y: nat, m: nat, u: nat, q: nat, v: nat)
    requires u < y && v < y
    ensures y * m + u == y * q + v <==> m == q && u == v
  {
    if y * m + u == y * q + v {
      assert y * (m - q) == v - u;
      SmallMultiple(y, m - q);
    }
  }

  lemma {:induction false} InEmbedded(n: nat, prefix: Network, networks: seq<Network>)
    requires IsPrefix96(prefix) && forall i :: 0 <= i < |networks| ==> IsV4Block(networks[i])
    ensures InAny(V6(n), EmbedAll(prefix, networks)) <==>
            prefix.Contains(V6(n)) && InAny(V4(n % LOW32), networks)
  {
    if networks != [] {
      EmbedMeans(prefix, networks[0], n);
      InEmbedded(n, prefix, networks[1..]);
      assert EmbedAll(prefix, networks)[1..] == EmbedAll(prefix, networks[1..]);
    }
  }

  lemma {:induction false} V6BlocksMissV4(n: nat, networks: seq<Network>)
    ensures InAny(V4(n), networks) <==> InAny(V4(n), OnlyV4(networks))
  {
    if networks != [] {
      V6BlocksMissV4(n, networks[1..]);
      var rest := OnlyV4(networks[1..]);
      assert !networks[0].v6 ==> OnlyV4(networks) == [networks[0]] + rest && OnlyV4(networks)[1..] == rest;
      assert networks[0].v6 ==> OnlyV4(networks) == rest;
    }
  }

  lemma {:induction false} EmbeddedBlocksAreV6(n: nat, prefix: Network, networks: seq<Network>)
    ensures !InAny(V4(n), EmbedAll(prefix, networks))
  {
    if networks != [] {
      EmbeddedBlocksAreV6(n, prefix, networks[1..]);
      assert EmbedAll(prefix, networks)[1..] == EmbedAll(prefix, networks[1..]);
    }
  }

  /** What the compiled rules drop: the prefixes' addresses whose IPv4 part is denied. */
  lemma {:induction false} CompiledMeans(a: Address, prefixes: seq<Network>, networks: seq<Network>)
    requires forall i :: 0 <= i < |prefixes| ==> IsPrefix96(prefixes[i])
    requires forall i :: 0 <= i < |networks| ==> IsV4Block(networks[i])
    ensures Dropped(a, CompiledRules(prefixes, networks)) <==>
            a.V6? && InAny(a, prefixes) && InAny(V4(a.bits % LOW32), networks)
  {
    if prefixes != [] {
      CompiledMeans(a, prefixes[1..], networks);
      DroppedAfterDenies(a, EmbedAll(prefixes[0], networks), CompiledRules(prefixes[1..], networks));
      if a.V6? {
        InEmbedded(a.bits, prefixes[0], networks);
      } else {
        EmbeddedBlocksAreV6(a.bits, prefixes[0], networks);
      }
    }
  }

  /** First-match evaluation of the whole list. */
  lemma FirewallMeans(a: Address, p: Policy)
    requires WellFormed(p)
    ensures Dropped(a, FirewallPolicyEntries(p)) <==>
            && !InAny(a, p.exceptions)
            && (InAny(a, p.denied)
                || (a.V6? && InAny(a, p.compiled) && InAny(V4(a.bits % LOW32), OnlyV4(p.denied))))
  {
    var v4 := OnlyV4(p.denied);
    var compiled := CompiledRules(p.compiled, v4);
    CompiledMeans(a, p.compiled, v4);
    DroppedAfterDenies(a, p.denied, compiled);
    DroppedAfterAllows(a, p.exceptions, Rules(false, p.denied) + compiled);
    assert FirewallPolicyEntries(p) == Rules(true, p.exceptions) + (Rules(false, p.denied) + compiled);
  }

  /** What the compiler needs of the lists. */
  predicate WellFormed(p: Policy) {
    && (forall i :: 0 <= i < |p.exceptions| ==> p.exceptions[i].v6)
    && (forall i :: 0 <= i < |p.compiled| ==> IsPrefix96(p.compiled[i]))
    && (forall i :: 0 <= i < |OnlyV4(p.denied)| ==> IsV4Block(OnlyV4(p.denied)[i]))
  }

  /** What the check looks at, beyond what the firewall compiles, is denied anyway: 6to4, Teredo,
      and any translation prefix left out of the firewall; and nothing compiled is not looked at. */
  ghost predicate Subsumes(p: Policy) {
    && (forall n: nat {:trigger V6(n)} ::
          (n / BIT112 == 0x2002 || n / BIT96 == 0x2001_0000) ==> InAny(V6(n), p.denied))
    && (forall n: nat {:trigger V6(n)} ::
          InAny(V6(n), p.compiled) ==> n / LOW32 == 0xFFFF || InAny(V6(n), p.translated))
    && (forall n: nat {:trigger V6(n)} ::
          n / LOW32 == 0xFFFF || InAny(V6(n), p.translated) ==>
            InAny(V6(n), p.compiled) || InAny(V6(n), p.denied))
  }

  lemma {:induction false} ExceptionsMissV4(n: nat, networks: seq<Network>)
    requires forall i :: 0 <= i < |networks| ==> networks[i].v6
    ensures !InAny(V4(n), networks)
  {
    if networks != [] {
      ExceptionsMissV4(n, networks[1..]);
    }
  }

  lemma V4Blocked(n: nat, p: Policy)
    requires WellFormed(p)
    ensures IpIsBlocked(V4(n), p) <==> InAny(V4(n), OnlyV4(p.denied))
  {
    ExceptionsMissV4(n, p.exceptions);
    V6BlocksMissV4(n, p.denied);
  }

  lemma {:induction false} AnyBlockedAppend(a: seq<Address>, b: seq<Address>, p: Policy)
    ensures AnyBlocked(a + b, p) <==> AnyBlocked(a, p) || AnyBlocked(b, p)
  {
    if a == [] {
      assert a + b == b;
    } else {
      assert (a + b)[1..] == a[1..] + b;
      AnyBlockedAppend(a[1..], b, p);
    }
  }

  lemma {:induction false} TranslationsBlocked(n: nat, prefixes: seq<Network>, p: Policy)
    ensures AnyBlocked(Translations(n, prefixes), p) <==> InAny(V6(n), prefixes) && IpIsBlocked(V4(n % LOW32), p)
  {
    if prefixes != [] {
      TranslationsBlocked(n, prefixes[1..], p);
      var here := if prefixes[0].Contains(V6(n)) then [V4(n % LOW32)] else [];
      AnyBlockedAppend(here, Translations(n, prefixes[1..]), p);
    }
  }

  /** For every address of either family, the firewall drops exactly what the check blocks. */
  lemma FirewallAgreesWithCheck(a: Address, p: Policy)
    requires WellFormed(p) && Subsumes(p)
    ensures Dropped(a, FirewallPolicyEntries(p)) <==> IpIsBlocked(a, p)
  {
    FirewallMeans(a, p);
    if a.V6? && !InAny(a, p.denied) {
      var n := a.bits;
      assert a == V6(n);
      V4Blocked(n % LOW32, p);
      AnyBlockedAppend(Tunnels(n), Translations(n, p.translated), p);
      TranslationsBlocked(n, p.translated, p);
      if n / LOW32 == 0xFFFF {
        assert Tunnels(n) == [V4(n % LOW32)];
        assert [V4(n % LOW32)][1..] == [];
      } else {
        assert Tunnels(n) == [];
      }
    }
  }

  // ---- The reviewed policy -------------------------------------------------------------

  function Net4(a: nat, b: nat, c: nat, d: nat, prefixlen: nat): Network {
    Network(false, ((a * 256 + b) * 256 + c) * 256 + d, prefixlen)
  }

  function Net6(a: nat, b: nat, c: nat, d: nat, e: nat, f: nat, g: nat, h: nat, prefixlen: nat): Network {
    Network(true, ((((((a * 0x1_0000 + b) * 0x1_0000 + c) * 0x1_0000 + d) * 0x1_0000 + e) * 0x1_0000 + f)
                   * 0x1_0000 + g) * 0x1_0000 + h, prefixlen)
  }

  /** PUBLIC_ADDRESS_EXCEPTIONS. */
  function Exceptions(): seq<Network> {
    [ Net6(0x2001, 1, 0, 0, 0, 0, 0, 1, 128),
      Net6(0x2001, 1, 0, 0, 0, 0, 0, 2, 128),
      Net6(0x2001, 1, 0, 0, 0, 0, 0, 3, 128),
      Net6(0x2001, 3, 0, 0, 0, 0, 0, 0, 32),
      Net6(0x2001, 4, 0x112, 0, 0, 0, 0, 0, 48),
      Net6(0x2001, 0x20, 0, 0, 0, 0, 0, 0, 28),
      Net6(0x2001, 0x30, 0, 0, 0, 0, 0, 0, 28) ]
  }

  /** The IPv4 part of DENIED_ADDRESS_NETWORKS. */
  function DeniedV4(): seq<Network> {
    [ Net4(0, 0, 0, 0, 8),
      Net4(10, 0, 0, 0, 8),
      Net4(100, 64, 0, 0, 10),
      Net4(127, 0, 0, 0, 8),
      Net4(169, 254, 0, 0, 16),
      Net4(172, 16, 0, 0, 12),
      Net4(192, 0, 0, 0, 24),
      Net4(192, 0, 2, 0, 24),
      Net4(192, 88, 99, 0, 24),
      Net4(192, 168, 0, 0, 16),
      Net4(198, 18, 0, 0, 15),
      Net4(198, 51, 100, 0, 24),
      Net4(203, 0, 113, 0, 24),
      Net4(224, 0, 0, 0, 4),
      Net4(240, 0, 0, 0, 4) ]
  }

  /** Its IPv6 part. */
  function DeniedV6(): seq<Network> {
    [ Net6(0, 0, 0, 0, 0, 0, 0, 0, 96),
      Net6(0, 0, 0, 0, 0xffff, 0, 0, 0, 96),
      LocalNat64(),
      Net6(0x100, 0, 0, 0, 0, 0, 0, 0, 64),
      Net6(0x100, 0, 0, 1, 0, 0, 0, 0, 64),
      TeredoCover(),
      Net6(0x2001, 0xdb8, 0, 0, 0, 0, 0, 0, 32),
      SixToFour(),
      Net6(0x3fff, 0, 0, 0, 0, 0, 0, 0, 20),
      Net6(0x5f00, 0, 0, 0, 0, 0, 0, 0, 16),
      Net6(0xfc00, 0, 0, 0, 0, 0, 0, 0, 7),
      Net6(0xfe80, 0, 0, 0, 0, 0, 0, 0, 10),
      Net6(0xfec0, 0, 0, 0, 0, 0, 0, 0, 10),
      Net6(0xff00, 0, 0, 0, 0, 0, 0, 0, 8) ]
  }

  function LocalNat64(): Network { Net6(0x64, 0xff9b, 1, 0, 0, 0, 0, 0, 48) }
  function TeredoCover(): Network { Net6(0x2001, 0, 0, 0, 0, 0, 0, 0, 23) }
  function SixToFour(): Network { Net6(0x2002, 0, 0, 0, 0, 0, 0, 0, 16) }
  function Nat64(): Network { Net6(0x64, 0xff9b, 0, 0, 0, 0, 0, 0, 96) }
  function Mapped(): Network { Net6(0, 0, 0, 0, 0, 0xffff, 0, 0, 96) }

  function Reviewed(): Policy {
    Policy(Exceptions(), DeniedV4() + DeniedV6(), [Nat64(), LocalNat64()], [Mapped(), Nat64()])
  }

  lemma {:induction false} InAnyAt(a: Address, networks: seq<Network>, i: nat)
    requires i < |networks| && networks[i].Contains(a)
    ensures InAny(a, networks)
  {
    if i > 0 {
      InAnyAt(a, networks[1..], i - 1);
    }
  }

  lemma {:induction false} OnlyV4Split(a: seq<Network>, b: seq<Network>)
    requires (forall i :: 0 <= i < |a| ==> !a[i].v6) && (forall i :: 0 <= i < |b| ==> b[i].v6)
    ensures OnlyV4(a + b) == a
  {
    if a != [] {
      assert (a + b)[1..] == a[1..] + b;
      OnlyV4Split(a[1..], b);
    } else if b != [] {
      assert a + b == b && b[1..] == a + b[1..];
      OnlyV4Split(a, b[1..]);
    }
  }

  lemma CompiledPrefixes()
    ensures forall i :: 0 <= i < |Reviewed().compiled| ==> IsPrefix96(Reviewed().compiled[i])
  {
  }

  lemma V4Blocks()
    ensures forall i :: 0 <= i < |DeniedV4()| ==> IsV4Block(DeniedV4()[i])
  {
    DeniedFamilies();
  }

  lemma ReviewedIsWellFormed()
    ensures OnlyV4(Reviewed().denied) == DeniedV4() && WellFormed(Reviewed())
  {
    assert OnlyV4(Reviewed().denied) == DeniedV4() by {
      DeniedFamilies();
      OnlyV4Split(DeniedV4(), DeniedV6());
    }
    ExceptionsAreV6();
    CompiledPrefixes();
    V4Blocks();
  }

  lemma DeniedFamilies()
    ensures forall i :: 0 <= i < |DeniedV4()| ==> IsV4Block(DeniedV4()[i])
    ensures forall i :: 0 <= i < |DeniedV6()| ==> DeniedV6()[i].v6
  {
  }

  lemma ExceptionsAreV6()
    ensures forall i :: 0 <= i < |Exceptions()| ==> Exceptions()[i].v6
  {
  }

  lemma Powers()
    ensures Pow2(80) == BIT80 && Pow2(96) == BIT96
    ensures Pow2(105) == 0x200_0000_0000_0000_0000_0000_0000
    ensures Pow2(112) == BIT112
  {
    Pow32();
    PowSplit(32, 32);
    PowSplit(64, 32);
    assert Pow2(8) == 256 && Pow2(9) == 512;
    PowSplit(8, 8);
    PowSplit(64, 16);
    PowSplit(96, 9);
    PowSplit(96, 16);
  }

  /** 6to4 and Teredo addresses lie in denied blocks. */
  lemma TunnelsAreDenied(n: nat)
    ensures n / BIT112 == 0x2002 ==> SixToFour().Contains(V6(n))
    ensures n / BIT96 == 0x2001_0000 ==> TeredoCover().Contains(V6(n))
  {
    Powers();
    assert SixToFour().HostBits() == 112 && TeredoCover().HostBits() == 105;
  }

  lemma MappedMeans(n: nat)
    ensures Mapped().Contains(V6(n)) <==> n / LOW32 == 0xFFFF
  {
    Pow32();
    assert Mapped().HostBits() == 32;
  }

  /** The reviewed lists subsume what is not compiled. */
  lemma ReviewedSubsumes()
    ensures Subsumes(Reviewed())
  {
    var p := Reviewed();
    forall n: nat
      ensures (n / BIT112 == 0x2002 || n / BIT96 == 0x2001_0000) ==> InAny(V6(n), p.denied)
      ensures InAny(V6(n), p.compiled) ==> n / LOW32 == 0xFFFF || InAny(V6(n), p.translated)
      ensures n / LOW32 == 0xFFFF || InAny(V6(n), p.translated) ==> InAny(V6(n), p.compiled) || InAny(V6(n), p.denied)
    {
      TunnelCase(n);
      TranslationCase(n);
    }
  }

  lemma TunnelCase(n: nat)
    ensures (n / BIT112 == 0x2002 || n / BIT96 == 0x2001_0000) ==> InAny(V6(n), Reviewed().denied)
  {
    TunnelsAreDenied(n);
    DeniedAt(n, 5);
    DeniedAt(n, 7);
  }

  lemma TranslationCase(n: nat)
    ensures InAny(V6(n), Reviewed().compiled) ==> n / LOW32 == 0xFFFF || InAny(V6(n), Reviewed().translated)
    ensures n / LOW32 == 0xFFFF || InAny(V6(n), Reviewed().translated) ==>
              InAny(V6(n), Reviewed().compiled) || InAny(V6(n), Reviewed().denied)
  {
    MappedMeans(n);
    PairMeans(V6(n), Nat64(), LocalNat64());
    PairMeans(V6(n), Mapped(), Nat64());
    DeniedAt(n, 2);
  }

  lemma PairMeans(a: Address, x: Network, y: Network)
    ensures InAny(a, [x, y]) <==> x.Contains(a) || y.Contains(a)
  {
    assert [x, y][1..] == [y] && [y][1..] == [];
    assert !InAny(a, [y][1..]);
  }

  lemma DeniedAt(n: nat, i: nat)
    requires i < |DeniedV6()|
    ensures DeniedV6()[i].Contains(V6(n)) ==> InAny(V6(n), Reviewed().denied)
  {
    if DeniedV6()[i].Contains(V6(n)) {
      InAnyAt(V6(n), DeniedV4() + DeniedV6(), |DeniedV4()| + i);
    }
  }

  /** The policy as reviewed: for every 32-bit and 128-bit address, first-match evaluation of the
      firewall entries with default allow agrees with the check. */
  lemma ReviewedFirewallAgrees(a: Address)
    ensures Dropped(a, FirewallPolicyEntries(Reviewed())) <==> IpIsBlocked(a, Reviewed())
  {
    ReviewedIsWellFormed();
    ReviewedSubsumes();
    FirewallAgreesWithCheck(a, Reviewed());
  }
}

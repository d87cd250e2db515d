/** Which addresses the reviewed policy blocks, in numbers. */
module AddressNumbers {
  import opened Arithmetic
  import opened IpPolicy

  /** Non-public, multicast, documentation and reserved IPv4 addresses. */
  predicate DeniedV4Number(n: nat) {
    || n < 0x100_0000 // 0.0.0.0/8
    || 0xA00_0000 <= n < 0xB00_0000 // 10.0.0.0/8
    || 0x6440_0000 <= n < 0x6480_0000 // 100.64.0.0/10
    || 0x7F00_0000 <= n < 0x8000_0000 // 127.0.0.0/8
    || 0xA9FE_0000 <= n < 0xA9FF_0000 // 169.254.0.0/16
    || 0xAC10_0000 <= n < 0xAC20_0000 // 172.16.0.0/12
    || 0xC000_0000 <= n < 0xC000_0100 // 192.0.0.0/24
    || 0xC000_0200 <= n < 0xC000_0300 // 192.0.2.0/24
    || 0xC058_6300 <= n < 0xC058_6400 // 192.88.99.0/24
    || 0xC0A8_0000 <= n < 0xC0A9_0000 // 192.168.0.0/16
    || 0xC612_0000 <= n < 0xC614_0000 // 198.18.0.0/15
    || 0xC633_6400 <= n < 0xC633_6500 // 198.51.100.0/24
    || 0xCB00_7100 <= n < 0xCB00_7200 // 203.0.113.0/24
    || 0xE000_0000 <= n < 0xF000_0000 // 224.0.0.0/4
    || 0xF000_0000 <= n < 0x1_0000_0000 // 240.0.0.0/4
  }

  /** Special-purpose, transition, documentation, local and multicast IPv6 addresses. */
  predicate DeniedV6Number(n: nat) {
    || n < 0x1_0000_0000 // ::/96
    || 0xFFFF_0000_0000_0000 <= n < 0xFFFF_0001_0000_0000 // ::ffff:0:0:0/96
    || 0x64_FF9B_0001_0000_0000_0000_0000_0000 <= n < 0x64_FF9B_0002_0000_0000_0000_0000_0000 // 64:ff9b:1::/48
    || 0x100_0000_0000_0000_0000_0000_0000_0000 <= n < 0x100_0000_0000_0001_0000_0000_0000_0000 // 100::/64
    || 0x100_0000_0000_0001_0000_0000_0000_0000 <= n < 0x100_0000_0000_0002_0000_0000_0000_0000 // 100:0:0:1::/64
    || 0x2001_0000_0000_0000_0000_0000_0000_0000 <= n < 0x2001_0200_0000_0000_0000_0000_0000_0000 // 2001::/23
    || 0x2001_0DB8_0000_0000_0000_0000_0000_0000 <= n < 0x2001_0DB9_0000_0000_0000_0000_0000_0000 // 2001:db8::/32
    || 0x2002_0000_0000_0000_0000_0000_0000_0000 <= n < 0x2003_0000_0000_0000_0000_0000_0000_0000 // 2002::/16
    || 0x3FFF_0000_0000_0000_0000_0000_0000_0000 <= n < 0x3FFF_1000_0000_0000_0000_0000_0000_0000 // 3fff::/20
    || 0x5F00_0000_0000_0000_0000_0000_0000_0000 <= n < 0x5F01_0000_0000_0000_0000_0000_0000_0000 // 5f00::/16
    || 0xFC00_0000_0000_0000_0000_0000_0000_0000 <= n < 0xFE00_0000_0000_0000_0000_0000_0000_0000 // fc00::/7
    || 0xFE80_0000_0000_0000_0000_0000_0000_0000 <= n < 0xFEC0_0000_0000_0000_0000_0000_0000_0000 // fe80::/10
    || 0xFEC0_0000_0000_0000_0000_0000_0000_0000 <= n < 0xFF00_0000_0000_0000_0000_0000_0000_0000 // fec0::/10
    || 0xFF00_0000_0000_0000_0000_0000_0000_0000 <= n < 0x1_0000_0000_0000_0000_0000_0000_0000_0000 // ff00::/8
  }

  /** Addresses inside denied blocks that are public all the same. */
  predicate PublicV6Number(n: nat) {
    || n == 0x2001_0001_0000_0000_0000_0000_0000_0001 // 2001:1::1/128
    || n == 0x2001_0001_0000_0000_0000_0000_0000_0002 // 2001:1::2/128
    || n == 0x2001_0001_0000_0000_0000_0000_0000_0003 // 2001:1::3/128
    || 0x2001_0003_0000_0000_0000_0000_0000_0000 <= n < 0x2001_0004_0000_0000_0000_0000_0000_0000 // 2001:3::/32
    || 0x2001_0004_0112_0000_0000_0000_0000_0000 <= n < 0x2001_0004_0113_0000_0000_0000_0000_0000 // 2001:4:112::/48
    || 0x2001_0020_0000_0000_0000_0000_0000_0000 <= n < 0x2001_0030_0000_0000_0000_0000_0000_0000 // 2001:20::/28
    || 0x2001_0030_0000_0000_0000_0000_0000_0000 <= n < 0x2001_0040_0000_0000_0000_0000_0000_0000 // 2001:30::/28
  }

  /** An IPv4-mapped or translated address of a denied IPv4 address. */
  predicate SpellsDeniedV4(n: nat) {
    || (0xFFFF_0000_0000 <= n < 0x1_0000_0000_0000 && DeniedV4Number(n - 0xFFFF_0000_0000)) // ::ffff:0:0/96
    || (0x64_FF9B_0000_0000_0000_0000_0000_0000 <= n < 0x64_FF9B_0000_0000_0000_0001_0000_0000 // 64:ff9b::/96
        && DeniedV4Number(n - 0x64_FF9B_0000_0000_0000_0000_0000_0000))
  }

  // ---- Blocks are intervals ----------------------------------------------------------

  lemma BlockIsInterval(net: Network, a: Address, size: nat)
    requires size == Pow2(net.HostBits()) && net.base % size == 0
    ensures net.Contains(a) <==> a.V6? == net.v6 && net.base <= a.bits < net.base + size
  {
    var q, n := net.base / size, a.bits;
    assert net.base == size * q;
    if net.base <= n < net.base + size {
      DivUnique(size, q, n - net.base);
    } else if n / size == q {
      assert false;
    }
  }

  lemma {:induction false} InAnyAppend(a: Address, xs: seq<Network>, ys: seq<Network>)
    ensures InAny(a, xs + ys) <==> InAny(a, xs) || InAny(a, ys)
  {
    if xs == [] {
      assert xs + ys == ys;
    } else {
      assert (xs + ys)[1..] == xs[1..] + ys;
      InAnyAppend(a, xs[1..], ys);
    }
  }

  lemma InOne(a: Address, x: Network)
    ensures InAny(a, [x]) <==> x.Contains(a)
  {
    assert [x][1..] == [];
  }

  lemma InTwo(a: Address, x: Network, y: Network)
    ensures InAny(a, [x, y]) <==> x.Contains(a) || y.Contains(a)
  {
    assert [x, y] == [x] + [y];
    InAnyAppend(a, [x], [y]);
    InOne(a, x);
    InOne(a, y);
  }

  lemma InFive(a: Address, v: Network, w: Network, x: Network, y: Network, z: Network)
    ensures InAny(a, [v, w, x, y, z]) <==>
            v.Contains(a) || w.Contains(a) || x.Contains(a) || y.Contains(a) || z.Contains(a)
  {
    assert [v, w, x, y, z] == [v, w] + [x, y] + [z];
    InAnyAppend(a, [v, w] + [x, y], [z]);
    InAnyAppend(a, [v, w], [x, y]);
    InTwo(a, v, w);
    InTwo(a, x, y);
    InOne(a, z);
  }

  // ---- Sizes of the blocks -----------------------------------------------------------

  lemma PowerSum(a: nat, b: nat, x: nat, y: nat)
    requires Pow2(a) == x && Pow2(b) == y
    ensures Pow2(a + b) == x * y
  {
    PowSplit(a, b);
  }

  lemma SmallPowers()
    ensures Pow2(0) == 0x1
    ensures Pow2(1) == 0x2
    ensures Pow2(4) == 0x10
    ensures Pow2(8) == 0x100
  {
  }

  /** Sizes by the number of host bits. */
  function Size(bits: nat): nat {
    if bits == 0 then 0x1
    else if bits == 8 then 0x100
    else if bits == 16 then 0x1_0000
    else if bits == 17 then 0x2_0000
    else if bits == 20 then 0x10_0000
    else if bits == 22 then 0x40_0000
    else if bits == 24 then 0x100_0000
    else if bits == 28 then 0x1000_0000
    else if bits == 32 then 0x1_0000_0000
    else if bits == 64 then 0x1_0000_0000_0000_0000
    else if bits == 80 then 0x1_0000_0000_0000_0000_0000
    else if bits == 96 then 0x1_0000_0000_0000_0000_0000_0000
    else if bits == 100 then 0x10_0000_0000_0000_0000_0000_0000
    else if bits == 105 then 0x200_0000_0000_0000_0000_0000_0000
    else if bits == 108 then 0x1000_0000_0000_0000_0000_0000_0000
    else if bits == 112 then 0x1_0000_0000_0000_0000_0000_0000_0000
    else if bits == 118 then 0x40_0000_0000_0000_0000_0000_0000_0000
    else if bits == 120 then 0x100_0000_0000_0000_0000_0000_0000_0000
    else if bits == 121 then 0x200_0000_0000_0000_0000_0000_0000_0000
    else 0
  }

  lemma WidePowers()
    ensures Pow2(16) == 0x1_0000 && Pow2(24) == 0x100_0000 && Pow2(32) == 0x1_0000_0000
    ensures Pow2(64) == 0x1_0000_0000_0000_0000 && Pow2(96) == 0x1_0000_0000_0000_0000_0000_0000
  {
    SmallPowers();
    PowerSum(8, 8, 0x100, 0x100);
    PowerSum(16, 8, 0x1_0000, 0x100);
    PowerSum(16, 16, 0x1_0000, 0x1_0000);
    PowerSum(32, 32, 0x1_0000_0000, 0x1_0000_0000);
    PowerSum(64, 32, 0x1_0000_0000_0000_0000, 0x1_0000_0000);
  }

  lemma Sizes1(bits: nat)
    requires 0 <= bits <= 20 && Size(bits) > 0
    ensures Size(bits) == Pow2(bits)
  {
    WidePowers();
    SmallPowers();
    PowerSum(16, 1, 0x1_0000, 0x2);
    PowerSum(16, 4, 0x1_0000, 0x10);
  }

  lemma Sizes2(bits: nat)
    requires 22 <= bits <= 32 && Size(bits) > 0
    ensures Size(bits) == Pow2(bits)
  {
    WidePowers();
    SmallPowers();
    PowerSum(16, 4, 0x1_0000, 0x10);
    PowerSum(20, 1, 0x10_0000, 0x2);
    PowerSum(21, 1, 0x20_0000, 0x2);
    PowerSum(24, 4, 0x100_0000, 0x10);
  }

  lemma Sizes3(bits: nat)
    requires 64 <= bits <= 105 && Size(bits) > 0
    ensures Size(bits) == Pow2(bits)
  {
    WidePowers();
    SmallPowers();
    PowerSum(64, 16, 0x1_0000_0000_0000_0000, 0x1_0000);
    PowerSum(96, 4, 0x1_0000_0000_0000_0000_0000_0000, 0x10);
    PowerSum(96, 8, 0x1_0000_0000_0000_0000_0000_0000, 0x100);
    PowerSum(104, 1, 0x100_0000_0000_0000_0000_0000_0000, 0x2);
  }

  lemma Sizes4(bits: nat)
    requires 108 <= bits <= 112 && Size(bits) > 0
    ensures Size(bits) == Pow2(bits)
  {
    WidePowers();
    SmallPowers();
    PowerSum(96, 8, 0x1_0000_0000_0000_0000_0000_0000, 0x100);
    PowerSum(104, 4, 0x100_0000_0000_0000_0000_0000_0000, 0x10);
    PowerSum(96, 16, 0x1_0000_0000_0000_0000_0000_0000, 0x1_0000);
  }

  lemma Sizes5()
    ensures Size(118) == Pow2(118)
  {
    WidePowers();
    SmallPowers();
    PowerSum(96, 16, 0x1_0000_0000_0000_0000_0000_0000, 0x1_0000);
    PowerSum(112, 4, 0x1_0000_0000_0000_0000_0000_0000_0000, 0x10);
    PowerSum(116, 1, 0x10_0000_0000_0000_0000_0000_0000_0000, 0x2);
    PowerSum(117, 1, 0x20_0000_0000_0000_0000_0000_0000_0000, 0x2);
  }

  lemma Sizes6(bits: nat)
    requires 120 <= bits <= 121 && Size(bits) > 0
    ensures Size(bits) == Pow2(bits)
  {
    WidePowers();
    SmallPowers();
    PowerSum(96, 24, 0x1_0000_0000_0000_0000_0000_0000, 0x100_0000);
    PowerSum(120, 1, 0x100_0000_0000_0000_0000_0000_0000_0000, 0x2);
  }

  lemma SizeIsPower(bits: nat)
    requires Size(bits) > 0
    ensures Size(bits) == Pow2(bits)
  {
    if bits <= 20 {
      Sizes1(bits);
    } else if bits <= 32 {
      Sizes2(bits);
    } else if bits <= 105 {
      Sizes3(bits);
    } else if bits <= 112 {
      Sizes4(bits);
    } else if bits == 118 {
      Sizes5();
    } else {
      Sizes6(bits);
    }
  }

  /** A block, by its first address and its host bits. */
  lemma Block(net: Network, a: Address, lo: nat, bits: nat)
    requires net.base == lo && net.HostBits() == bits && Size(bits) > 0 && lo % Size(bits) == 0
    ensures net.Contains(a) <==> a.V6? == net.v6 && lo <= a.bits < lo + Size(bits)
  {
    SizeIsPower(bits);
    BlockIsInterval(net, a, Size(bits));
  }

  // ---- The reviewed lists ------------------------------------------------------------

  lemma DeniedV4InNumbers1(n: nat)
    ensures InAny(V4(n), [Net4(0, 0, 0, 0, 8),
                       Net4(10, 0, 0, 0, 8),
                       Net4(100, 64, 0, 0, 10),
                       Net4(127, 0, 0, 0, 8),
                       Net4(169, 254, 0, 0, 16)]) <==>
            || n < 0x100_0000
            || 0xA00_0000 <= n < 0xB00_0000
            || 0x6440_0000 <= n < 0x6480_0000
            || 0x7F00_0000 <= n < 0x8000_0000
            || 0xA9FE_0000 <= n < 0xA9FF_0000
  {
    InFive(V4(n), Net4(0, 0, 0, 0, 8),
           Net4(10, 0, 0, 0, 8),
           Net4(100, 64, 0, 0, 10),
           Net4(127, 0, 0, 0, 8),
           Net4(169, 254, 0, 0, 16));
    Block(Net4(0, 0, 0, 0, 8), V4(n), 0x0, 24);
    Block(Net4(10, 0, 0, 0, 8), V4(n), 0xA00_0000, 24);
    Block(Net4(100, 64, 0, 0, 10), V4(n), 0x6440_0000, 22);
    Block(Net4(127, 0, 0, 0, 8), V4(n), 0x7F00_0000, 24);
    Block(Net4(169, 254, 0, 0, 16), V4(n), 0xA9FE_0000, 16);
  }

  lemma DeniedV4InNumbers2(n: nat)
    ensures InAny(V4(n), [Net4(172, 16, 0, 0, 12),
                       Net4(192, 0, 0, 0, 24),
                       Net4(192, 0, 2, 0, 24),
                       Net4(192, 88, 99, 0, 24),
                       Net4(192, 168, 0, 0, 16)]) <==>
            || 0xAC10_0000 <= n < 0xAC20_0000
            || 0xC000_0000 <= n < 0xC000_0100
            || 0xC000_0200 <= n < 0xC000_0300
            || 0xC058_6300 <= n < 0xC058_6400
            || 0xC0A8_0000 <= n < 0xC0A9_0000
  {
    InFive(V4(n), Net4(172, 16, 0, 0, 12),
           Net4(192, 0, 0, 0, 24),
           Net4(192, 0, 2, 0, 24),
           Net4(192, 88, 99, 0, 24),
           Net4(192, 168, 0, 0, 16));
    Block(Net4(172, 16, 0, 0, 12), V4(n), 0xAC10_0000, 20);
    Block(Net4(192, 0, 0, 0, 24), V4(n), 0xC000_0000, 8);
    Block(Net4(192, 0, 2, 0, 24), V4(n), 0xC000_0200, 8);
    Block(Net4(192, 88, 99, 0, 24), V4(n), 0xC058_6300, 8);
    Block(Net4(192, 168, 0, 0, 16), V4(n), 0xC0A8_0000, 16);
  }

  lemma DeniedV4InNumbers3(n: nat)
    ensures InAny(V4(n), [Net4(198, 18, 0, 0, 15),
                       Net4(198, 51, 100, 0, 24),
                       Net4(203, 0, 113, 0, 24),
                       Net4(224, 0, 0, 0, 4),
                       Net4(240, 0, 0, 0, 4)]) <==>
            || 0xC612_0000 <= n < 0xC614_0000
            || 0xC633_6400 <= n < 0xC633_6500
            || 0xCB00_7100 <= n < 0xCB00_7200
            || 0xE000_0000 <= n < 0xF000_0000
            || 0xF000_0000 <= n < 0x1_0000_0000
  {
    InFive(V4(n), Net4(198, 18, 0, 0, 15),
           Net4(198, 51, 100, 0, 24),
           Net4(203, 0, 113, 0, 24),
           Net4(224, 0, 0, 0, 4),
           Net4(240, 0, 0, 0, 4));
    Block(Net4(198, 18, 0, 0, 15), V4(n), 0xC612_0000, 17);
    Block(Net4(198, 51, 100, 0, 24), V4(n), 0xC633_6400, 8);
    Block(Net4(203, 0, 113, 0, 24), V4(n), 0xCB00_7100, 8);
    Block(Net4(224, 0, 0, 0, 4), V4(n), 0xE000_0000, 28);
    Block(Net4(240, 0, 0, 0, 4), V4(n), 0xF000_0000, 28);
  }

  /** The IPv4 blocks, by number. */
  lemma DeniedV4InNumbers(n: nat)
    ensures InAny(V4(n), DeniedV4()) <==> DeniedV4Number(n)
  {
    var l0 := [Net4(0, 0, 0, 0, 8),
               Net4(10, 0, 0, 0, 8),
               Net4(100, 64, 0, 0, 10),
               Net4(127, 0, 0, 0, 8),
               Net4(169, 254, 0, 0, 16)];
    var l1 := [Net4(172, 16, 0, 0, 12),
               Net4(192, 0, 0, 0, 24),
               Net4(192, 0, 2, 0, 24),
               Net4(192, 88, 99, 0, 24),
               Net4(192, 168, 0, 0, 16)];
    var l2 := [Net4(198, 18, 0, 0, 15),
               Net4(198, 51, 100, 0, 24),
               Net4(203, 0, 113, 0, 24),
               Net4(224, 0, 0, 0, 4),
               Net4(240, 0, 0, 0, 4)];
    assert DeniedV4() == l0 + l1 + l2;
    InAnyAppend(V4(n), l0, l1);
    InAnyAppend(V4(n), l0 + l1, l2);
    DeniedV4InNumbers1(n);
    DeniedV4InNumbers2(n);
    DeniedV4InNumbers3(n);
  }

  lemma DeniedV6InNumbers1(n: nat)
    ensures InAny(V6(n), [Net6(0, 0, 0, 0, 0, 0, 0, 0, 96),
                       Net6(0, 0, 0, 0, 0xffff, 0, 0, 0, 96)]) <==>
            || n < 0x1_0000_0000
            || 0xFFFF_0000_0000_0000 <= n < 0xFFFF_0001_0000_0000
  {
    InTwo(V6(n), Net6(0, 0, 0, 0, 0, 0, 0, 0, 96), Net6(0, 0, 0, 0, 0xffff, 0, 0, 0, 96));
    Block(Net6(0, 0, 0, 0, 0, 0, 0, 0, 96), V6(n), 0x0, 32);
    Block(Net6(0, 0, 0, 0, 0xffff, 0, 0, 0, 96), V6(n), 0xFFFF_0000_0000_0000, 32);
  }

  lemma DeniedV6InNumbers2(n: nat)
    ensures InAny(V6(n), [Net6(0x64, 0xff9b, 1, 0, 0, 0, 0, 0, 48),
                       Net6(0x100, 0, 0, 0, 0, 0, 0, 0, 64)]) <==>
            || 0x64_FF9B_0001_0000_0000_0000_0000_0000 <= n < 0x64_FF9B_0002_0000_0000_0000_0000_0000
            || 0x100_0000_0000_0000_0000_0000_0000_0000 <= n < 0x100_0000_0000_0001_0000_0000_0000_0000
  {
    InTwo(V6(n), Net6(0x64, 0xff9b, 1, 0, 0, 0, 0, 0, 48), Net6(0x100, 0, 0, 0, 0, 0, 0, 0, 64));
    Block(Net6(0x64, 0xff9b, 1, 0, 0, 0, 0, 0, 48), V6(n), 0x64_FF9B_0001_0000_0000_0000_0000_0000, 80);
    Block(Net6(0x100, 0, 0, 0, 0, 0, 0, 0, 64), V6(n), 0x100_0000_0000_0000_0000_0000_0000_0000, 64);
  }

  lemma DeniedV6InNumbers3(n: nat)
    ensures InAny(V6(n), [Net6(0x100, 0, 0, 1, 0, 0, 0, 0, 64),
                       Net6(0x2001, 0, 0, 0, 0, 0, 0, 0, 23)]) <==>
            || 0x100_0000_0000_0001_0000_0000_0000_0000 <= n < 0x100_0000_0000_0002_0000_0000_0000_0000
            || 0x2001_0000_0000_0000_0000_0000_0000_0000 <= n < 0x2001_0200_0000_0000_0000_0000_0000_0000
  {
    InTwo(V6(n), Net6(0x100, 0, 0, 1, 0, 0, 0, 0, 64), Net6(0x2001, 0, 0, 0, 0, 0, 0, 0, 23));
    Block(Net6(0x100, 0, 0, 1, 0, 0, 0, 0, 64), V6(n), 0x100_0000_0000_0001_0000_0000_0000_0000, 64);
    Block(Net6(0x2001, 0, 0, 0, 0, 0, 0, 0, 23), V6(n), 0x2001_0000_0000_0000_0000_0000_0000_0000, 105);
  }

  lemma DeniedV6InNumbers4(n: nat)
    ensures InAny(V6(n), [Net6(0x2001, 0xdb8, 0, 0, 0, 0, 0, 0, 32),
                       Net6(0x2002, 0, 0, 0, 0, 0, 0, 0, 16)]) <==>
            || 0x2001_0DB8_0000_0000_0000_0000_0000_0000 <= n < 0x2001_0DB9_0000_0000_0000_0000_0000_0000
            || 0x2002_0000_0000_0000_0000_0000_0000_0000 <= n < 0x2003_0000_0000_0000_0000_0000_0000_0000
  {
    InTwo(V6(n), Net6(0x2001, 0xdb8, 0, 0, 0, 0, 0, 0, 32), Net6(0x2002, 0, 0, 0, 0, 0, 0, 0, 16));
    Block(Net6(0x2001, 0xdb8, 0, 0, 0, 0, 0, 0, 32), V6(n), 0x2001_0DB8_0000_0000_0000_0000_0000_0000, 96);
    Block(Net6(0x2002, 0, 0, 0, 0, 0, 0, 0, 16), V6(n), 0x2002_0000_0000_0000_0000_0000_0000_0000, 112);
  }

  lemma DeniedV6InNumbers5(n: nat)
    ensures InAny(V6(n), [Net6(0x3fff, 0, 0, 0, 0, 0, 0, 0, 20),
                       Net6(0x5f00, 0, 0, 0, 0, 0, 0, 0, 16)]) <==>
            || 0x3FFF_0000_0000_0000_0000_0000_0000_0000 <= n < 0x3FFF_1000_0000_0000_0000_0000_0000_0000
            || 0x5F00_0000_0000_0000_0000_0000_0000_0000 <= n < 0x5F01_0000_0000_0000_0000_0000_0000_0000
  {
    InTwo(V6(n), Net6(0x3fff, 0, 0, 0, 0, 0, 0, 0, 20), Net6(0x5f00, 0, 0, 0, 0, 0, 0, 0, 16));
    Block(Net6(0x3fff, 0, 0, 0, 0, 0, 0, 0, 20), V6(n), 0x3FFF_0000_0000_0000_0000_0000_0000_0000, 108);
    Block(Net6(0x5f00, 0, 0, 0, 0, 0, 0, 0, 16), V6(n), 0x5F00_0000_0000_0000_0000_0000_0000_0000, 112);
  }

  lemma DeniedV6InNumbers6(n: nat)
    ensures InAny(V6(n), [Net6(0xfc00, 0, 0, 0, 0, 0, 0, 0, 7),
                       Net6(0xfe80, 0, 0, 0, 0, 0, 0, 0, 10)]) <==>
            || 0xFC00_0000_0000_0000_0000_0000_0000_0000 <= n < 0xFE00_0000_0000_0000_0000_0000_0000_0000
            || 0xFE80_0000_0000_0000_0000_0000_0000_0000 <= n < 0xFEC0_0000_0000_0000_0000_0000_0000_0000
  {
    InTwo(V6(n), Net6(0xfc00, 0, 0, 0, 0, 0, 0, 0, 7), Net6(0xfe80, 0, 0, 0, 0, 0, 0, 0, 10));
    Block(Net6(0xfc00, 0, 0, 0, 0, 0, 0, 0, 7), V6(n), 0xFC00_0000_0000_0000_0000_0000_0000_0000, 121);
    Block(Net6(0xfe80, 0, 0, 0, 0, 0, 0, 0, 10), V6(n), 0xFE80_0000_0000_0000_0000_0000_0000_0000, 118);
  }

  lemma DeniedV6InNumbers7(n: nat)
    ensures InAny(V6(n), [Net6(0xfec0, 0, 0, 0, 0, 0, 0, 0, 10),
                       Net6(0xff00, 0, 0, 0, 0, 0, 0, 0, 8)]) <==>
            || 0xFEC0_0000_0000_0000_0000_0000_0000_0000 <= n < 0xFF00_0000_0000_0000_0000_0000_0000_0000
            || 0xFF00_0000_0000_0000_0000_0000_0000_0000 <= n < 0x1_0000_0000_0000_0000_0000_0000_0000_0000
  {
    InTwo(V6(n), Net6(0xfec0, 0, 0, 0, 0, 0, 0, 0, 10), Net6(0xff00, 0, 0, 0, 0, 0, 0, 0, 8));
    Block(Net6(0xfec0, 0, 0, 0, 0, 0, 0, 0, 10), V6(n), 0xFEC0_0000_0000_0000_0000_0000_0000_0000, 118);
    Block(Net6(0xff00, 0, 0, 0, 0, 0, 0, 0, 8), V6(n), 0xFF00_0000_0000_0000_0000_0000_0000_0000, 120);
  }

  /** The IPv6 blocks, by number. */
  lemma DeniedV6InNumbers(n: nat)
    ensures InAny(V6(n), DeniedV6()) <==> DeniedV6Number(n)
  {
    var l0 := [Net6(0, 0, 0, 0, 0, 0, 0, 0, 96),
               Net6(0, 0, 0, 0, 0xffff, 0, 0, 0, 96)];
    var l1 := [Net6(0x64, 0xff9b, 1, 0, 0, 0, 0, 0, 48),
               Net6(0x100, 0, 0, 0, 0, 0, 0, 0, 64)];
    var l2 := [Net6(0x100, 0, 0, 1, 0, 0, 0, 0, 64),
               Net6(0x2001, 0, 0, 0, 0, 0, 0, 0, 23)];
    var l3 := [Net6(0x2001, 0xdb8, 0, 0, 0, 0, 0, 0, 32),
               Net6(0x2002, 0, 0, 0, 0, 0, 0, 0, 16)];
    var l4 := [Net6(0x3fff, 0, 0, 0, 0, 0, 0, 0, 20),
               Net6(0x5f00, 0, 0, 0, 0, 0, 0, 0, 16)];
    var l5 := [Net6(0xfc00, 0, 0, 0, 0, 0, 0, 0, 7),
               Net6(0xfe80, 0, 0, 0, 0, 0, 0, 0, 10)];
    var l6 := [Net6(0xfec0, 0, 0, 0, 0, 0, 0, 0, 10),
               Net6(0xff00, 0, 0, 0, 0, 0, 0, 0, 8)];
    assert DeniedV6() == l0 + l1 + l2 + l3 + l4 + l5 + l6;
    InAnyAppend(V6(n), l0, l1);
    InAnyAppend(V6(n), l0 + l1, l2);
    InAnyAppend(V6(n), l0 + l1 + l2, l3);
    InAnyAppend(V6(n), l0 + l1 + l2 + l3, l4);
    InAnyAppend(V6(n), l0 + l1 + l2 + l3 + l4, l5);
    InAnyAppend(V6(n), l0 + l1 + l2 + l3 + l4 + l5, l6);
    DeniedV6InNumbers1(n);
    DeniedV6InNumbers2(n);
    DeniedV6InNumbers3(n);
    DeniedV6InNumbers4(n);
    DeniedV6InNumbers5(n);
    DeniedV6InNumbers6(n);
    DeniedV6InNumbers7(n);
  }

  lemma ExceptionsInNumbers1(n: nat)
    ensures InAny(V6(n), [Net6(0x2001, 1, 0, 0, 0, 0, 0, 1, 128),
                       Net6(0x2001, 1, 0, 0, 0, 0, 0, 2, 128)]) <==>
            || 0x2001_0001_0000_0000_0000_0000_0000_0001 <= n < 0x2001_0001_0000_0000_0000_0000_0000_0002
            || 0x2001_0001_0000_0000_0000_0000_0000_0002 <= n < 0x2001_0001_0000_0000_0000_0000_0000_0003
  {
    InTwo(V6(n), Net6(0x2001, 1, 0, 0, 0, 0, 0, 1, 128), Net6(0x2001, 1, 0, 0, 0, 0, 0, 2, 128));
    Block(Net6(0x2001, 1, 0, 0, 0, 0, 0, 1, 128), V6(n), 0x2001_0001_0000_0000_0000_0000_0000_0001, 0);
    Block(Net6(0x2001, 1, 0, 0, 0, 0, 0, 2, 128), V6(n), 0x2001_0001_0000_0000_0000_0000_0000_0002, 0);
  }

  lemma ExceptionsInNumbers2(n: nat)
    ensures InAny(V6(n), [Net6(0x2001, 1, 0, 0, 0, 0, 0, 3, 128),
                       Net6(0x2001, 3, 0, 0, 0, 0, 0, 0, 32)]) <==>
            || 0x2001_0001_0000_0000_0000_0000_0000_0003 <= n < 0x2001_0001_0000_0000_0000_0000_0000_0004
            || 0x2001_0003_0000_0000_0000_0000_0000_0000 <= n < 0x2001_0004_0000_0000_0000_0000_0000_0000
  {
    InTwo(V6(n), Net6(0x2001, 1, 0, 0, 0, 0, 0, 3, 128), Net6(0x2001, 3, 0, 0, 0, 0, 0, 0, 32));
    Block(Net6(0x2001, 1, 0, 0, 0, 0, 0, 3, 128), V6(n), 0x2001_0001_0000_0000_0000_0000_0000_0003, 0);
    Block(Net6(0x2001, 3, 0, 0, 0, 0, 0, 0, 32), V6(n), 0x2001_0003_0000_0000_0000_0000_0000_0000, 96);
  }

  lemma ExceptionsInNumbers3(n: nat)
    ensures InAny(V6(n), [Net6(0x2001, 4, 0x112, 0, 0, 0, 0, 0, 48),
                       Net6(0x2001, 0x20, 0, 0, 0, 0, 0, 0, 28)]) <==>
            || 0x2001_0004_0112_0000_0000_0000_0000_0000 <= n < 0x2001_0004_0113_0000_0000_0000_0000_0000
            || 0x2001_0020_0000_0000_0000_0000_0000_0000 <= n < 0x2001_0030_0000_0000_0000_0000_0000_0000
  {
    InTwo(V6(n), Net6(0x2001, 4, 0x112, 0, 0, 0, 0, 0, 48), Net6(0x2001, 0x20, 0, 0, 0, 0, 0, 0, 28));
    Block(Net6(0x2001, 4, 0x112, 0, 0, 0, 0, 0, 48), V6(n), 0x2001_0004_0112_0000_0000_0000_0000_0000, 80);
    Block(Net6(0x2001, 0x20, 0, 0, 0, 0, 0, 0, 28), V6(n), 0x2001_0020_0000_0000_0000_0000_0000_0000, 100);
  }

  lemma ExceptionsInNumbers4(n: nat)
    ensures InAny(V6(n), [Net6(0x2001, 0x30, 0, 0, 0, 0, 0, 0, 28)]) <==>
            || 0x2001_0030_0000_0000_0000_0000_0000_0000 <= n < 0x2001_0040_0000_0000_0000_0000_0000_0000
  {
    InOne(V6(n), Net6(0x2001, 0x30, 0, 0, 0, 0, 0, 0, 28));
    Block(Net6(0x2001, 0x30, 0, 0, 0, 0, 0, 0, 28), V6(n), 0x2001_0030_0000_0000_0000_0000_0000_0000, 100);
  }

  /** The exceptions, by number. */
  lemma ExceptionsInNumbers(n: nat)
    ensures InAny(V6(n), Exceptions()) <==> PublicV6Number(n)
  {
    var l0 := [Net6(0x2001, 1, 0, 0, 0, 0, 0, 1, 128),
               Net6(0x2001, 1, 0, 0, 0, 0, 0, 2, 128)];
    var l1 := [Net6(0x2001, 1, 0, 0, 0, 0, 0, 3, 128),
               Net6(0x2001, 3, 0, 0, 0, 0, 0, 0, 32)];
    var l2 := [Net6(0x2001, 4, 0x112, 0, 0, 0, 0, 0, 48),
               Net6(0x2001, 0x20, 0, 0, 0, 0, 0, 0, 28)];
    var l3 := [Net6(0x2001, 0x30, 0, 0, 0, 0, 0, 0, 28)];
    assert Exceptions() == l0 + l1 + l2 + l3;
    InAnyAppend(V6(n), l0, l1);
    InAnyAppend(V6(n), l0 + l1, l2);
    InAnyAppend(V6(n), l0 + l1 + l2, l3);
    ExceptionsInNumbers1(n);
    ExceptionsInNumbers2(n);
    ExceptionsInNumbers3(n);
    ExceptionsInNumbers4(n);
  }

  lemma CompiledInNumbers(n: nat)
    ensures InAny(V6(n), [Net6(0, 0, 0, 0, 0, 0xffff, 0, 0, 96),
                       Net6(0x64, 0xff9b, 0, 0, 0, 0, 0, 0, 96)]) <==>
            || 0xFFFF_0000_0000 <= n < 0x1_0000_0000_0000
            || 0x64_FF9B_0000_0000_0000_0000_0000_0000 <= n < 0x64_FF9B_0000_0000_0000_0001_0000_0000
  {
    InTwo(V6(n), Net6(0, 0, 0, 0, 0, 0xffff, 0, 0, 96), Net6(0x64, 0xff9b, 0, 0, 0, 0, 0, 0, 96));
    Block(Net6(0, 0, 0, 0, 0, 0xffff, 0, 0, 96), V6(n), 0xFFFF_0000_0000, 32);
    Block(Net6(0x64, 0xff9b, 0, 0, 0, 0, 0, 0, 96), V6(n), 0x64_FF9B_0000_0000_0000_0000_0000_0000, 32);
  }

  lemma {:induction false} OtherFamily(a: Address, networks: seq<Network>)
    requires forall i :: 0 <= i < |networks| ==> networks[i].v6 != a.V6?
    ensures !InAny(a, networks)
  {
    if networks != [] {
      OtherFamily(a, networks[1..]);
    }
  }

  // ---- What is blocked ---------------------------------------------------------------

  /** Every IPv4 address: blocked if and only if it is in one of these intervals. */
  lemma BlockedV4InNumbers(n: nat)
    ensures IpIsBlocked(V4(n), Reviewed()) <==> DeniedV4Number(n)
    ensures Dropped(V4(n), FirewallPolicyEntries(Reviewed())) <==> DeniedV4Number(n)
  {
    ReviewedIsWellFormed();
    V4Blocked(n, Reviewed());
    DeniedV4InNumbers(n);
    ReviewedFirewallAgrees(V4(n));
  }

  /** The lists of the policy, for an IPv6 address. */
  lemma ReviewedV6InNumbers(n: nat)
    ensures InAny(V6(n), Reviewed().exceptions) <==> PublicV6Number(n)
    ensures InAny(V6(n), Reviewed().denied) <==> DeniedV6Number(n)
    ensures InAny(V6(n), Reviewed().compiled) && InAny(V4(n % LOW32), DeniedV4()) <==> SpellsDeniedV4(n)
  {
    ExceptionsInNumbers(n);
    DeniedListInNumbers(n);
    DeniedV4InNumbers(n % LOW32);
    CompiledMeansInterval(n);
  }

  lemma DeniedListInNumbers(n: nat)
    ensures InAny(V6(n), Reviewed().denied) <==> DeniedV6Number(n)
  {
    DeniedFamilies();
    InAnyAppend(V6(n), DeniedV4(), DeniedV6());
    OtherFamily(V6(n), DeniedV4());
    DeniedV6InNumbers(n);
  }

  /** Every IPv6 address: blocked if and only if it is not one of the public exceptions, and is
      denied itself or spells a denied IPv4 address. */
  lemma BlockedV6InNumbers(n: nat)
    ensures IpIsBlocked(V6(n), Reviewed()) <==>
            !PublicV6Number(n) && (DeniedV6Number(n) || SpellsDeniedV4(n))
    ensures Dropped(V6(n), FirewallPolicyEntries(Reviewed())) <==>
            !PublicV6Number(n) && (DeniedV6Number(n) || SpellsDeniedV4(n))
  {
    ReviewedFirewallAgrees(V6(n));
    FirewallV6InNumbers(n, Reviewed());
  }

  lemma FirewallV6InNumbers(n: nat, p: Policy)
    requires p == Reviewed()
    ensures Dropped(V6(n), FirewallPolicyEntries(p)) <==>
            !PublicV6Number(n) && (DeniedV6Number(n) || SpellsDeniedV4(n))
  {
    ReviewedIsWellFormed();
    ReviewedV6InNumbers(n);
    FirewallMeans(V6(n), p);
  }

  lemma CompiledMeansInterval(n: nat)
    ensures InAny(V6(n), Reviewed().compiled) && DeniedV4Number(n % LOW32) <==> SpellsDeniedV4(n)
  {
    CompiledInNumbers(n);
    if 0xFFFF_0000_0000 <= n < 0x1_0000_0000_0000 {
      LowPart(n, 0xFFFF_0000_0000, 0xFFFF);
    } else if 0x64_FF9B_0000_0000_0000_0000_0000_0000 <= n < 0x64_FF9B_0000_0000_0000_0001_0000_0000 {
      LowPart(n, 0x64_FF9B_0000_0000_0000_0000_0000_0000, 0x64_FF9B_0000_0000_0000_0000);
    }
  }

  lemma LowPart(n: nat, lo: nat, high: nat)
    requires lo == LOW32 * high && lo <= n < lo + LOW32
    ensures n % LOW32 == n - lo
  {
  }

  // ---- The tunnels an address spells -------------------------------------------------

  const MAPPED: nat := 0xFFFF_0000_0000 // ::ffff:0:0
  const SIX_TO_FOUR: nat := 0x2002_0000_0000_0000_0000_0000_0000_0000 // 2002::
  const TEREDO: nat := 0x2001_0000_0000_0000_0000_0000_0000_0000 // 2001::

  lemma QuotientAndRest(size: nat, q: nat, r: nat)
    requires r < size
    ensures (size * q + r) / size == q && (size * q + r) % size == r
  {
    DivUnique(size, q, r);
  }

  /** ::ffff:a.b.c.d spells a.b.c.d, as section 2.5.5.2 of RFC 4291 says. */
  lemma MappedSpells(x: nat)
    requires x < LOW32
    ensures Tunnels(MAPPED + x) == [V4(x)]
  {
    QuotientAndRest(LOW32, 0xFFFF, x);
    assert (MAPPED + x) / BIT112 == 0 && (MAPPED + x) / BIT96 == 0;
  }

  /** 2002 and the 32 bits after it: section 2 of RFC 3056. */
  lemma SixToFourSpells(x: nat, low: nat)
    requires x < LOW32 && low < BIT80
    ensures Tunnels(SIX_TO_FOUR + x * BIT80 + low) == [V4(x)]
  {
    var n := SIX_TO_FOUR + x * BIT80 + low;
    QuotientAndRest(BIT112, 0x2002, x * BIT80 + low);
    QuotientAndRest(BIT80, 0x2002 * LOW32 + x, low);
    QuotientAndRest(LOW32, 0x2002, x);
    assert n / BIT96 >= 0x2002_0000 && n / LOW32 > 0xFFFF;
  }

  /** 2001:0, the server, flags and port, and the complement of the client: section 4 of RFC 4380. */
  lemma TeredoSpells(server: nat, mid: nat, client: nat)
    requires server < LOW32 && mid < LOW32 && client < LOW32
    ensures Tunnels(TEREDO + server * BIT64 + mid * LOW32 + (0xFFFF_FFFF - client)) == [V4(server), V4(client)]
  {
    var last := 0xFFFF_FFFF - client;
    var n := TEREDO + server * BIT64 + mid * LOW32 + last;
    QuotientAndRest(BIT96, 0x2001_0000, server * BIT64 + mid * LOW32 + last);
    QuotientAndRest(BIT64, 0x2001_0000 * LOW32 + server, mid * LOW32 + last);
    QuotientAndRest(LOW32, 0x2001_0000, server);
    QuotientAndRest(LOW32, 0x2001_0000 * BIT64 + server * LOW32 + mid, last);
    assert n / BIT112 == 0x2001 && n / LOW32 > 0xFFFF;
  }

  /** No other address spells one. */
  lemma NoOtherTunnels(n: nat)
    requires Tunnels(n) != []
    ensures || MAPPED <= n < MAPPED + LOW32
            || SIX_TO_FOUR <= n < SIX_TO_FOUR + BIT112
            || TEREDO <= n < TEREDO + BIT96
  {
  }
}

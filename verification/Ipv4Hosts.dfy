/** Reading a host name as an IPv4 address the way a browser does (engine/url_guard.py), after
    section 3.5 of the WHATWG URL Standard. */
module Ipv4Hosts {
  import opened Texts
  import opened Arithmetic

  // ---- The parser --------------------------------------------------------------------

  function DigitValue(c: char): nat {
    if '0' <= c <= '9' then (c - '0') as nat
    else if 'a' <= c <= 'f' then (c - 'a') as nat + 10
    else if 'A' <= c <= 'F' then (c - 'A') as nat + 10
    else 16
  }

  predicate AreDigits(radix: nat, s: string) {
    forall i :: 0 <= i < |s| ==> DigitValue(s[i]) < radix
  }

  /** `int(s, radix)` for digits of that radix, and 0 for none. */
  function Value(radix: nat, s: string): nat {
    if s == [] then 0 else Value(radix, s[..|s| - 1]) * radix + DigitValue(s[|s| - 1])
  }

  /** Decimal, octal after `0`, or hexadecimal after `0x`. */
  function Ipv4Number(part: string): Option<nat> {
    if part == [] then None
    else if |part| >= 2 && (part[..2] == "0x" || part[..2] == "0X") then Digits(16, part[2..])
    else if |part| >= 2 && part[0] == '0' then Digits(8, part[1..])
    else Digits(10, part)
  }

  /** `0x` and `0` alone read as zero. */
  function Digits(radix: nat, s: string): Option<nat> {
    if s == [] then Some(0) else if AreDigits(radix, s) then Some(Value(radix, s)) else None
  }

  /** `host.split(".")`. */
  function SplitDots(host: string): (parts: seq<string>)
    ensures parts != []
  {
    if host == [] then [""]
    else
      var rest := SplitDots(host[1..]);
      if host[0] == '.' then [""] + rest else [[host[0]] + rest[0]] + rest[1..]
  }

  method HostParts(host: string) returns (parts: seq<string>)
    ensures parts == PartsOf(host)
  {
    parts := SplitDots(host);
    if parts[|parts| - 1] == "" && |parts| > 1 {
      parts := parts[..|parts| - 1];
    }
  }

  method EndsInANumber(host: string) returns (r: bool)
    ensures r <==> LastIsNumeric(host)
  {
    var parts := HostParts(host);
    var last := parts[|parts| - 1];
    LastIsNumber(last);
    if last != "" && AreDigits(10, last) {
      return true;
    }
    return Ipv4Number(last).Some?;
  }

  function Pow256(k: nat): nat {
    if k == 0 then 1 else 256 * Pow256(k - 1)
  }

  method LegacyIpv4Address(host: string) returns (r: Option<nat>)
    ensures r.Some? ==> r.value < 0x1_0000_0000
    ensures r == Read(host)
  {
    var numeric := EndsInANumber(host);
    if host == "" || !numeric {
      NumericOrRefused(host);
      return None;
    }
    var parts := HostParts(host);
    if |parts| > 4 {
      return None;
    }
    var numbers := ReadNumbers(parts);
    if numbers.None? {
      return None;
    }
    var values := numbers.value;
    if (exists i :: 0 <= i < |values| - 1 && values[i] > 255)
       || values[|values| - 1] >= Pow256(5 - |values|) {
      return None;
    }
    assert InRange(values);
    var address := AddUp(values);
    r := Some(address);
  }

  method AddUp(values: seq<nat>) returns (address: nat)
    requires InRange(values)
    ensures address == Address(values) < 0x1_0000_0000
  {
    AddressFits(values);
    address := values[|values| - 1];
    for index := 0 to |values| - 1
      invariant address == values[|values| - 1] + High(values, index)
    {
      address := address + values[index] * Pow256(3 - index);
    }
  }

  method ReadNumbers(parts: seq<string>) returns (r: Option<seq<nat>>)
    ensures r == AllNumbers(parts)
  {
    var values := [];
    for k := 0 to |parts|
      invariant AllNumbers(parts[..k]) == Some(values)
    {
      assert parts[..k + 1][..k] == parts[..k];
      match Ipv4Number(parts[k])
      case None =>
        NoneOfMore(parts, k + 1);
        return None;
      case Some(v) =>
        values := values + [v];
    }
    assert parts[..|parts|] == parts;
    r := Some(values);
  }

  // ---- What is read ------------------------------------------------------------------

  /** The dot-separated parts; one empty part at the end is ignored. */
  function PartsOf(host: string): (parts: seq<string>)
    ensures parts != []
  {
    var parts := SplitDots(host);
    if parts[|parts| - 1] == "" && |parts| > 1 then parts[..|parts| - 1] else parts
  }

  /** All decimal digits, or hexadecimal digits after `0x`. */
  predicate LooksNumeric(part: string) {
    (part != [] && AreDigits(10, part))
    || (|part| >= 2 && part[0] == '0' && (part[1] == 'x' || part[1] == 'X') && AreDigits(16, part[2..]))
  }

  predicate LastIsNumeric(host: string) {
    LooksNumeric(PartsOf(host)[|PartsOf(host)| - 1])
  }

  /** All parts as numbers, or None when one is no number. */
  function AllNumbers(parts: seq<string>): (r: Option<seq<nat>>)
    ensures r.Some? ==> |r.value| == |parts|
  {
    if parts == [] then Some([])
    else
      match (AllNumbers(parts[..|parts| - 1]), Ipv4Number(parts[|parts| - 1]))
      case (Some(values), Some(v)) => Some(values + [v])
      case _ => None
  }

  /** The bytes given by the first `k` values. */
  function High(values: seq<nat>, k: nat): nat
    requires k <= |values| <= 4
  {
    if k == 0 then 0 else High(values, k - 1) + values[k - 1] * Pow256(4 - k)
  }

  predicate InRange(values: seq<nat>) {
    && 1 <= |values| <= 4
    && (forall i :: 0 <= i < |values| - 1 ==> values[i] <= 255)
    && values[|values| - 1] < Pow256(5 - |values|)
  }

  function Address(values: seq<nat>): nat
    requires InRange(values)
  {
    High(values, |values| - 1) + values[|values| - 1]
  }

  function Read(host: string): Option<nat> {
    match AllNumbers(PartsOf(host))
    case None => None
    case Some(values) => if InRange(values) then Some(Address(values)) else None
  }

  // ---- What a spelling is ------------------------------------------------------------

  datatype Form = Decimal | Octal | HexLower | HexUpper

  function Radix(form: Form): nat {
    match form
    case Decimal => 10
    case Octal => 8
    case HexLower => 16
    case HexUpper => 16
  }

  function Mark(form: Form): string {
    match form
    case Decimal => ""
    case Octal => "0"
    case HexLower => "0x"
    case HexUpper => "0X"
  }

  /** A number written in one of the forms. Decimal digits have no leading zero, unless they are
      just `0`; the other forms may. */
  datatype Numeral = Numeral(form: Form, digits: string) {
    predicate Valid() {
      && AreDigits(Radix(form), digits)
      && (form == Decimal ==> digits != [] && (digits[0] == '0' ==> |digits| == 1))
      && (form == Octal ==> digits != [])
    }

    function Written(): string {
      Mark(form) + digits
    }

    function Amount(): nat {
      Value(Radix(form), digits)
    }
  }

  function Join(parts: seq<string>): string
    requires parts != []
  {
    if |parts| == 1 then parts[0] else parts[0] + "." + Join(parts[1..])
  }

  function WrittenAll(numerals: seq<Numeral>): (parts: seq<string>)
    ensures |parts| == |numerals|
    ensures forall i :: 0 <= i < |parts| ==> parts[i] == numerals[i].Written()
  {
    seq(|numerals|, i requires 0 <= i < |numerals| => numerals[i].Written())
  }

  function Amounts(numerals: seq<Numeral>): (values: seq<nat>)
    ensures |values| == |numerals|
    ensures forall i :: 0 <= i < |values| ==> values[i] == numerals[i].Amount()
  {
    seq(|numerals|, i requires 0 <= i < |numerals| => numerals[i].Amount())
  }

  function Dot(dot: bool): string {
    if dot then "." else ""
  }

  ghost predicate SpelledBy(host: string, n: nat, numerals: seq<Numeral>, dot: bool) {
    && numerals != []
    && (forall i :: 0 <= i < |numerals| ==> numerals[i].Valid())
    && host == Join(WrittenAll(numerals)) + Dot(dot)
    && InRange(Amounts(numerals))
    && Address(Amounts(numerals)) == n
  }

  /** One to four numerals between dots, with or without a dot after them, whose values make `n`. */
  ghost predicate Denotes(host: string, n: nat) {
    exists numerals, dot :: SpelledBy(host, n, numerals, dot)
  }

  // ---- Numerals ----------------------------------------------------------------------

  lemma NumeralReadsBack(numeral: Numeral)
    requires numeral.Valid()
    ensures Ipv4Number(numeral.Written()) == Some(numeral.Amount())
    ensures numeral.Written() != [] && '.' !in numeral.Written()
  {
    var w := numeral.Written();
    match numeral.form
    case Decimal =>
      assert w == numeral.digits;
      assert |w| >= 2 ==> w[..2][0] == w[0];
    case Octal =>
      assert w[1..] == numeral.digits;
      assert w[..2][1] == w[1] == numeral.digits[0];
    case HexLower =>
      assert w[..2] == "0x" && w[2..] == numeral.digits;
    case HexUpper =>
      assert w[..2] == "0X" && w[2..] == numeral.digits;
  }

  function NumeralOf(part: string): Numeral {
    if |part| >= 2 && part[..2] == "0x" then Numeral(HexLower, part[2..])
    else if |part| >= 2 && part[..2] == "0X" then Numeral(HexUpper, part[2..])
    else if |part| >= 2 && part[0] == '0' then Numeral(Octal, part[1..])
    else Numeral(Decimal, part)
  }

  lemma NumbersAreNumerals(part: string)
    requires Ipv4Number(part).Some?
    ensures NumeralOf(part).Valid() && NumeralOf(part).Written() == part
    ensures Ipv4Number(part) == Some(NumeralOf(part).Amount())
  {
    if |part| >= 2 {
      assert part == part[..2] + part[2..];
      assert part == part[..1] + part[1..];
    }
  }

  /** The digits: ten of decimal, and six letters of either case. */
  lemma DigitValues(c: char)
    ensures '0' <= c <= '9' ==> DigitValue(c) == c as int - '0' as int
    ensures 'a' <= c <= 'f' ==> DigitValue(c) == c as int - 'a' as int + 10
    ensures 'A' <= c <= 'F' ==> DigitValue(c) == c as int - 'A' as int + 10
    ensures DigitValue(c) < 16 <==> ('0' <= c <= '9' || 'a' <= c <= 'f' || 'A' <= c <= 'F')
  {
  }

  lemma LastIsNumber(part: string)
    ensures LooksNumeric(part) <==> (part != "" && AreDigits(10, part)) || Ipv4Number(part).Some?
  {
    if |part| >= 2 {
      assert part[..2] == [part[0], part[1]];
      assert part == [part[0]] + part[1..];
      if part[0] == '0' && AreDigits(8, part[1..]) {
        assert forall i :: 0 < i < |part| ==> part[i] == part[1..][i - 1];
        assert AreDigits(10, part);
      }
    }
  }

  // ---- Parts and dots ----------------------------------------------------------------

  lemma {:induction false} SplitJoins(host: string)
    ensures Join(SplitDots(host)) == host
    ensures forall i :: 0 <= i < |SplitDots(host)| ==> '.' !in SplitDots(host)[i]
    decreases |host|
  {
    if host != [] {
      SplitJoins(host[1..]);
      var rest, parts := SplitDots(host[1..]), SplitDots(host);
      assert host == [host[0]] + host[1..];
      if host[0] == '.' {
        assert parts[1..] == rest;
      } else {
        assert parts[1..] == rest[1..];
      }
    }
  }

  lemma {:induction false} JoinSplits(parts: seq<string>)
    requires parts != [] && forall i :: 0 <= i < |parts| ==> '.' !in parts[i]
    ensures SplitDots(Join(parts)) == parts
    decreases |parts|
  {
    if |parts| == 1 {
      OnePart(parts[0]);
    } else {
      JoinSplits(parts[1..]);
      SplitFirst(parts[0], Join(parts[1..]));
      assert [parts[0]] + parts[1..] == parts;
      assert parts[0] + "." + Join(parts[1..]) == parts[0] + ("." + Join(parts[1..]));
    }
  }

  lemma {:induction false} OnePart(part: string)
    requires '.' !in part
    ensures SplitDots(part) == [part]
  {
    if part != [] {
      OnePart(part[1..]);
      assert [part[0]] + part[1..] == part;
    }
  }

  lemma {:induction false} SplitFirst(part: string, rest: string)
    requires '.' !in part
    ensures SplitDots(part + ("." + rest)) == [part] + SplitDots(rest)
    decreases |part|
  {
    var host := part + ("." + rest);
    if part == [] {
      assert host[1..] == rest;
    } else {
      assert host[1..] == part[1..] + ("." + rest);
      SplitFirst(part[1..], rest);
      assert [part[0]] + part[1..] == part;
    }
  }

  lemma {:induction false} JoinDot(parts: seq<string>)
    requires parts != []
    ensures Join(parts + [""]) == Join(parts) + "."
    decreases |parts|
  {
    assert (parts + [""])[1..] == parts[1..] + [""];
    if |parts| > 1 {
      JoinDot(parts[1..]);
    }
  }

  /** Joining the parts gives the host back, up to one dot at its end. */
  lemma PartsRejoin(host: string) returns (dot: bool)
    ensures Join(PartsOf(host)) + Dot(dot) == host
    ensures forall i :: 0 <= i < |PartsOf(host)| ==> '.' !in PartsOf(host)[i]
  {
    var parts := SplitDots(host);
    SplitJoins(host);
    dot := parts[|parts| - 1] == "" && |parts| > 1;
    if dot {
      JoinDot(parts[..|parts| - 1]);
      assert parts[..|parts| - 1] + [""] == parts;
    }
  }

  lemma JoinedParts(parts: seq<string>, dot: bool)
    requires parts != [] && forall i :: 0 <= i < |parts| ==> '.' !in parts[i]
    requires parts[|parts| - 1] != ""
    ensures PartsOf(Join(parts) + Dot(dot)) == parts
  {
    if dot {
      JoinDot(parts);
      JoinSplits(parts + [""]);
      assert (parts + [""])[..|parts|] == parts;
    } else {
      JoinSplits(parts);
      assert Join(parts) + "" == Join(parts);
    }
  }

  // ---- Reading and spelling agree ----------------------------------------------------

  ghost predicate ReadsAs(parts: seq<string>, values: seq<nat>) {
    |parts| == |values| && forall i :: 0 <= i < |parts| ==> Ipv4Number(parts[i]) == Some(values[i])
  }

  lemma {:induction false} NumbersAre(parts: seq<string>, values: seq<nat>)
    requires ReadsAs(parts, values)
    ensures AllNumbers(parts) == Some(values)
    decreases |parts|
  {
    if parts != [] {
      var n := |parts| - 1;
      NumbersAre(parts[..n], values[..n]);
      assert values == values[..n] + [values[n]];
    }
  }

  lemma {:induction false} EachNumber(parts: seq<string>, i: nat)
    requires i < |parts| && AllNumbers(parts).Some?
    ensures Ipv4Number(parts[i]) == Some(AllNumbers(parts).value[i])
    decreases |parts|
  {
    if i < |parts| - 1 {
      EachNumber(parts[..|parts| - 1], i);
    }
  }

  lemma {:induction false} NoneOfMore(parts: seq<string>, k: nat)
    requires k <= |parts| && AllNumbers(parts[..k]).None?
    ensures AllNumbers(parts).None?
    decreases |parts|
  {
    if k == |parts| {
      assert parts[..k] == parts;
    } else {
      assert parts[..|parts| - 1][..k] == parts[..k];
      NoneOfMore(parts[..|parts| - 1], k);
    }
  }

  lemma SpellingIsRead(host: string, n: nat, numerals: seq<Numeral>, dot: bool)
    requires SpelledBy(host, n, numerals, dot)
    ensures Read(host) == Some(n)
  {
    var parts, values := WrittenAll(numerals), Amounts(numerals);
    forall i | 0 <= i < |parts|
      ensures '.' !in parts[i] && parts[i] != "" && Ipv4Number(parts[i]) == Some(values[i])
    {
      NumeralReadsBack(numerals[i]);
    }
    JoinedParts(parts, dot);
    NumbersAre(parts, values);
  }

  lemma ReadIsSpelled(host: string)
    requires Read(host).Some?
    ensures Denotes(host, Read(host).value)
  {
    var dot := PartsRejoin(host);
    var parts := PartsOf(host);
    var values := AllNumbers(parts).value;
    var numerals := seq(|parts|, i requires 0 <= i < |parts| => NumeralOf(parts[i]));
    forall i | 0 <= i < |parts|
      ensures numerals[i].Valid() && numerals[i].Written() == parts[i] && numerals[i].Amount() == values[i]
    {
      EachNumber(parts, i);
      NumbersAreNumerals(parts[i]);
    }
    assert WrittenAll(numerals) == parts && Amounts(numerals) == values;
    assert SpelledBy(host, Read(host).value, numerals, dot);
  }

  /** The parser accepts exactly the spellings, each for the number it spells. */
  lemma ReadIsDenotes(host: string)
    ensures forall n: nat :: Read(host) == Some(n) <==> Denotes(host, n)
  {
    if Read(host).Some? {
      ReadIsSpelled(host);
    }
    forall n: nat | Denotes(host, n) ensures Read(host) == Some(n) {
      var numerals, dot :| SpelledBy(host, n, numerals, dot);
      SpellingIsRead(host, n, numerals, dot);
    }
  }

  /** Only a host that ends in a number is read as an address. */
  lemma NumericOrRefused(host: string)
    requires host == "" || !LastIsNumeric(host)
    ensures Read(host) == None
  {
    var parts := PartsOf(host);
    LastIsNumber(parts[|parts| - 1]);
  }

  // ---- Every address has every spelling ----------------------------------------------

  lemma PowersAre()
    ensures Pow256(0) == 1 && Pow256(1) == 256 && Pow256(2) == 0x1_0000 && Pow256(3) == 0x100_0000
    ensures Pow256(4) == 0x1_0000_0000
  {
  }

  lemma {:induction false} HighFits(values: seq<nat>, k: nat)
    requires k <= |values| <= 4 && forall i :: 0 <= i < k ==> values[i] <= 255
    ensures High(values, k) + Pow256(4 - k) <= 0x1_0000_0000
    decreases k
  {
    PowersAre();
    if k > 0 {
      HighFits(values, k - 1);
      assert Pow256(5 - k) == 256 * Pow256(4 - k);
      assert values[k - 1] * Pow256(4 - k) <= 255 * Pow256(4 - k);
    }
  }

  lemma AddressFits(values: seq<nat>)
    requires InRange(values)
    ensures Address(values) < 0x1_0000_0000
  {
    HighFits(values, |values| - 1);
  }

  /** `n` cut into `count` values: leading bytes, and the rest in the last. */
  function Cut(n: nat, count: nat): (values: seq<nat>)
    requires 1 <= count <= 4 && n < 0x1_0000_0000
    ensures |values| == count
  {
    PowersPositive(5 - count);
    seq(count, i requires 0 <= i < count =>
      if i < count - 1 then PowersPositive(3 - i); n / Pow256(3 - i) % 256 else n % Pow256(5 - count))
  }

  lemma PowersPositive(k: nat)
    ensures Pow256(k) > 0
  {
  }

  lemma CutStep(n: nat, m: nat)
    requires m > 0
    ensures n - n % (256 * m) + n / m % 256 * m == n - n % m
  {
    var q, low := n / m, n / m % 256 * m + n % m;
    assert n == m * q + n % m;
    assert q == 256 * (q / 256) + q % 256;
    var x := 256 * m;
    assert n == x * (q / 256) + low by {
      assert m * q == m * (256 * (q / 256)) + m * (q % 256);
    }
    assert low < x by {
      MulMono(m, q % 256, 255);
    }
    DivUnique(x, q / 256, low);
    assert n % x == n - x * (n / x);
  }

  lemma CutAt(n: nat, count: nat, i: nat)
    requires 1 <= count <= 4 && n < 0x1_0000_0000 && i < count - 1
    ensures Pow256(3 - i) > 0 && Cut(n, count)[i] == n / Pow256(3 - i) % 256
  {
    PowersPositive(3 - i);
  }

  lemma HighStep(n: nat, count: nat, k: nat)
    requires 1 <= count <= 4 && n < 0x1_0000_0000 && 0 < k < count
    ensures Pow256(5 - k) == 256 * Pow256(4 - k) && Pow256(4 - k) > 0
    ensures n - n % Pow256(5 - k) + (High(Cut(n, count), k) - High(Cut(n, count), k - 1)) == n - n % Pow256(4 - k)
  {
    CutAt(n, count, k - 1);
    CutStep(n, Pow256(4 - k));
  }

  lemma AllLow(n: nat, four: nat)
    requires n < 0x1_0000_0000 && four == 4
    ensures Pow256(four) > 0 && n % Pow256(four) == n
  {
    PowersAre();
  }

  lemma {:induction false} CutHigh(n: nat, count: nat, values: seq<nat>, k: nat)
    requires 1 <= count <= 4 && n < 0x1_0000_0000 && k < count && values == Cut(n, count)
    ensures Pow256(4 - k) > 0 && High(values, k) == n - n % Pow256(4 - k)
    decreases k
  {
    if k == 0 {
      AllLow(n, 4 - k);
    } else {
      CutHigh(n, count, values, k - 1);
      HighStep(n, count, k);
    }
  }

  lemma CutAddress(n: nat, count: nat)
    requires 1 <= count <= 4 && n < 0x1_0000_0000
    ensures InRange(Cut(n, count)) && Address(Cut(n, count)) == n
  {
    PowersPositive(5 - count);
    CutHigh(n, count, Cut(n, count), count - 1);
  }

  function DigitChar(d: nat): (c: char)
    requires d < 16
    ensures DigitValue(c) == d
  {
    "0123456789abcdef"[d]
  }

  /** The digits of `v`; none for zero. */
  function DigitsOf(radix: nat, v: nat): string
    requires 2 <= radix <= 16
    decreases v
  {
    if v == 0 then []
    else
      Shrinks(radix, v);
      DigitsOf(radix, v / radix) + [DigitChar(v % radix)]
  }

  lemma Shrinks(radix: nat, v: nat)
    requires 2 <= radix && v > 0
    ensures v / radix < v
  {
    DivBound(v, radix, v);
  }

  lemma ValueSnoc(radix: nat, s: string, c: char)
    ensures Value(radix, s + [c]) == Value(radix, s) * radix + DigitValue(c)
  {
    assert (s + [c])[..|s|] == s;
  }

  lemma LastDigit(radix: nat, v: nat) returns (front: nat, c: char)
    requires 2 <= radix <= 16 && v > 0
    ensures front < v && v == front * radix + DigitValue(c)
    ensures DigitsOf(radix, v) == DigitsOf(radix, front) + [c]
  {
    front, c := v / radix, DigitChar(v % radix);
    Shrinks(radix, v);
  }

  lemma {:induction false} DigitsReadBack(radix: nat, v: nat)
    requires 2 <= radix <= 16
    ensures Value(radix, DigitsOf(radix, v)) == v
    decreases v
  {
    if v > 0 {
      var front, c := LastDigit(radix, v);
      DigitsReadBack(radix, front);
      ValueSnoc(radix, DigitsOf(radix, front), c);
    }
  }

  lemma {:induction false} DigitsAreDigits(radix: nat, v: nat)
    requires 2 <= radix <= 16 && v > 0
    ensures var s := DigitsOf(radix, v);
            AreDigits(radix, s) && s != [] && DigitValue(s[0]) != 0
    decreases v
  {
    Shrinks(radix, v);
    var more, last := DigitsOf(radix, v / radix), DigitChar(v % radix);
    assert DigitsOf(radix, v) == more + [last];
    if v / radix > 0 {
      DigitsAreDigits(radix, v / radix);
      assert (more + [last])[0] == more[0];
    } else {
      NoMore(radix, v);
      assert more + [last] == [last];
    }
  }

  lemma NoMore(radix: nat, v: nat)
    requires 2 <= radix && v / radix == 0
    ensures v % radix == v
  {
  }

  function Print(form: Form, v: nat): Numeral {
    Numeral(form, if v == 0 then "0" else DigitsOf(Radix(form), v))
  }

  lemma Printed(form: Form, v: nat)
    ensures Print(form, v).Valid() && Print(form, v).Amount() == v
  {
    DigitsReadBack(Radix(form), v);
    if v > 0 {
      DigitsAreDigits(Radix(form), v);
    }
    assert "0"[..0] == "" && DigitValue('0') == 0;
    assert Value(Radix(form), "0") == 0;
  }

  function PrintAll(forms: seq<Form>, values: seq<nat>): (numerals: seq<Numeral>)
    requires |forms| == |values|
    ensures |numerals| == |forms|
    ensures forall i :: 0 <= i < |forms| ==> numerals[i] == Print(forms[i], values[i])
  {
    seq(|forms|, i requires 0 <= i < |forms| => Print(forms[i], values[i]))
  }

  /** Every address reads back from every cut into one to four parts, each in any form. */
  lemma RoundTrip(n: nat, forms: seq<Form>, dot: bool)
    requires n < 0x1_0000_0000 && 1 <= |forms| <= 4
    ensures Read(Join(WrittenAll(PrintAll(forms, Cut(n, |forms|)))) + Dot(dot)) == Some(n)
  {
    var values := Cut(n, |forms|);
    var numerals := PrintAll(forms, values);
    CutAddress(n, |forms|);
    forall i | 0 <= i < |forms| ensures numerals[i].Valid() && numerals[i].Amount() == values[i] {
      Printed(forms[i], values[i]);
    }
    assert Amounts(numerals) == values;
    SpellingIsRead(Join(WrittenAll(numerals)) + Dot(dot), n, numerals, dot);
  }
}

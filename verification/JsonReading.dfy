/** What JSON text means: a reader after sections 4, 5 and 7 of RFC 8259, for text without
    insignificant white space, and a reader of UTF-8 after section 3 of RFC 3629; and that the
    encoder's output reads back to the content of the value. */
module JsonReading {
  import opened Texts
  import opened JsonEncoding

  // ---- The reader --------------------------------------------------------------------

  /** Content: a number or a literal name as written, a string, an array, an object. */
  datatype Json =
    | Word(text: Text)
    | String(chars: Text)
    | List(items: seq<Json>)
    | Dict(members: seq<Member>)

  datatype Member = Member(name: Text, value: Json)

  datatype Reading<T> = Reading(value: T, rest: Text)

  function HexValue(c: CodePoint): Option<nat> {
    if 0x30 <= c <= 0x39 then Some(c - 0x30)
    else if 0x41 <= c <= 0x46 then Some(c - 0x41 + 10)
    else if 0x61 <= c <= 0x66 then Some(c - 0x61 + 10)
    else None
  }

  /** `\u` and four hexadecimal digits. */
  function ReadUnit(t: Text): (unit: Option<nat>)
    ensures unit.Some? ==> unit.value < 0x1_0000 && |t| >= 6
  {
    if |t| < 6 || t[0] != 0x5C || t[1] != 0x75 then None
    else
      match (HexValue(t[2]), HexValue(t[3]), HexValue(t[4]), HexValue(t[5]))
      case (Some(a), Some(b), Some(c), Some(d)) =>
        HexIsSmall(t[2]); HexIsSmall(t[3]); HexIsSmall(t[4]); HexIsSmall(t[5]);
        Some(a * 0x1000 + b * 0x100 + c * 0x10 + d)
      case _ => None
  }

  lemma HexIsSmall(c: CodePoint)
    ensures HexValue(c).Some? ==> HexValue(c).value < 16
  {
  }

  predicate High(u: nat) { 0xD800 <= u < 0xDC00 }
  predicate Low(u: nat) { 0xDC00 <= u < 0xE000 }

  predicate LowUnit(t: Text) {
    ReadUnit(t).Some? && Low(ReadUnit(t).value)
  }

  function Pair(high: nat, low: nat): CodePoint
    requires High(high) && Low(low)
  {
    0x1_0000 + (high - 0xD800) * 0x400 + (low - 0xDC00)
  }

  /** The short escapes. */
  function ShortEscape(c: CodePoint): Option<CodePoint> {
    if c == 0x22 then Some(0x22) // quotation mark
    else if c == 0x5C then Some(0x5C) // reverse solidus
    else if c == 0x2F then Some(0x2F) // solidus
    else if c == 0x62 then Some(0x08) // b: backspace
    else if c == 0x66 then Some(0x0C) // f: form feed
    else if c == 0x6E then Some(0x0A) // n: line feed
    else if c == 0x72 then Some(0x0D) // r: carriage return
    else if c == 0x74 then Some(0x09) // t: tab
    else None
  }

  /** One character of a string: as it is, or escaped; two escaped surrogates make one character. */
  function ReadChar(t: Text): (r: Option<Reading<CodePoint>>)
    ensures r.Some? ==> |r.value.rest| < |t|
  {
    if t == [] || t[0] < 0x20 || t[0] == 0x22 then None
    else if t[0] != 0x5C then Some(Reading(t[0], t[1..]))
    else if |t| < 2 then None
    else if ShortEscape(t[1]).Some? then Some(Reading(ShortEscape(t[1]).value, t[2..]))
    else
      match ReadUnit(t)
      case None => None
      case Some(u) =>
        if High(u) && LowUnit(t[6..]) then Some(Reading(Pair(u, ReadUnit(t[6..]).value), t[12..]))
        else Some(Reading(u, t[6..]))
  }

  /** The characters of a string, after its opening quotation mark. */
  function ReadChars(t: Text): (r: Option<Reading<Text>>)
    ensures r.Some? ==> |r.value.rest| < |t|
    decreases |t|
  {
    if t != [] && t[0] == 0x22 then Some(Reading([], t[1..]))
    else
      match ReadChar(t)
      case None => None
      case Some(Reading(c, rest)) =>
        match ReadChars(rest)
        case None => None
        case Some(Reading(more, after)) => Some(Reading([c] + more, after))
  }

  function TokenEnd(t: Text): (n: nat)
    ensures n <= |t|
  {
    if t != [] && TokenChar(t[0]) then 1 + TokenEnd(t[1..]) else 0
  }

  function ReadValue(t: Text): (r: Option<Reading<Json>>)
    ensures r.Some? ==> |r.value.rest| < |t|
    decreases |t|, 0
  {
    if t == [] then None
    else if t[0] == 0x22 then
      match ReadChars(t[1..])
      case None => None
      case Some(Reading(chars, rest)) => Some(Reading(String(chars), rest))
    else if t[0] == 0x5B then
      if |t| > 1 && t[1] == 0x5D then Some(Reading(List([]), t[2..]))
      else
        match ReadItems(t[1..])
        case None => None
        case Some(Reading(items, rest)) => Some(Reading(List(items), rest))
    else if t[0] == 0x7B then
      if |t| > 1 && t[1] == 0x7D then Some(Reading(Dict([]), t[2..]))
      else
        match ReadMembers(t[1..])
        case None => None
        case Some(Reading(members, rest)) => Some(Reading(Dict(members), rest))
    else
      var n := TokenEnd(t);
      if n == 0 then None else Some(Reading(Word(t[..n]), t[n..]))
  }

  /** Values separated by commas, up to the closing bracket. */
  function ReadItems(t: Text): (r: Option<Reading<seq<Json>>>)
    ensures r.Some? ==> |r.value.rest| < |t|
    decreases |t|, 1
  {
    match ReadValue(t)
    case None => None
    case Some(Reading(item, rest)) =>
      if rest == [] then None
      else if rest[0] == 0x5D then Some(Reading([item], rest[1..]))
      else if rest[0] != 0x2C then None
      else
        match ReadItems(rest[1..])
        case None => None
        case Some(Reading(more, after)) => Some(Reading([item] + more, after))
  }

  /** A name, a colon and a value. */
  function ReadMember(t: Text): (r: Option<Reading<Member>>)
    ensures r.Some? ==> |r.value.rest| < |t|
    decreases |t|, 1
  {
    if t == [] || t[0] != 0x22 then None
    else
      match ReadChars(t[1..])
      case None => None
      case Some(Reading(name, rest)) =>
        if rest == [] || rest[0] != 0x3A then None
        else
          match ReadValue(rest[1..])
          case None => None
          case Some(Reading(value, after)) => Some(Reading(Member(name, value), after))
  }

  /** Members separated by commas, up to the closing brace. */
  function ReadMembers(t: Text): (r: Option<Reading<seq<Member>>>)
    ensures r.Some? ==> |r.value.rest| < |t|
    decreases |t|, 2
  {
    match ReadMember(t)
    case None => None
    case Some(Reading(member, rest)) =>
      if rest == [] then None
      else if rest[0] == 0x7D then Some(Reading([member], rest[1..]))
      else if rest[0] != 0x2C then None
      else
        match ReadMembers(rest[1..])
        case None => None
        case Some(Reading(more, after)) => Some(Reading([member] + more, after))
  }

  // ---- Content -----------------------------------------------------------------------

  /** A text as its ASCII encoding reads: a high surrogate directly followed by a low one is the
      character that the two spell; every other text is as it is. */
  function Combined(t: Text): Text {
    if t == [] then []
    else if |t| > 1 && High(t[0]) && Low(t[1]) then [Pair(t[0], t[1])] + Combined(t[2..])
    else [t[0]] + Combined(t[1..])
  }

  function Unescaped(t: Text, ascii: bool): Text {
    if ascii then Combined(t) else t
  }

  function NameOf(key: Key, o: Options): Text {
    match key
    case StrKey(_, t) => Unescaped(t, o.ensureAscii)
    case ConvertedKey(t) => t
    case NonFiniteKey(t) => t
    case BadKey => []
  }

  function Content(v: Value, o: Options): Json
    decreases v, 0
  {
    match v
    case Literal(t) => Word(t)
    case NonFinite(t) => Word(t)
    case Str(t) => String(Unescaped(t, o.ensureAscii))
    case Unsupported(t) => String(Unescaped(t, o.ensureAscii))
    case Array(_, items) => List(Contents(items, o))
    case Object(_, entries) => Dict(Members(entries, o))
  }

  function Contents(items: seq<Value>, o: Options): seq<Json>
    decreases items, 0
  {
    if items == [] then [] else [Content(items[0], o)] + Contents(items[1..], o)
  }

  function MemberOf(e: Entry, o: Options): Member
    decreases e, 0
  {
    Member(NameOf(e.key, o), Content(e.item, o))
  }

  function Members(entries: seq<Entry>, o: Options): seq<Member>
    decreases entries, 0
  {
    if entries == [] then [] else [MemberOf(entries[0], o)] + Members(entries[1..], o)
  }

  // ---- Strings read back -------------------------------------------------------------

  lemma HexReads(d: nat)
    requires d < 16
    ensures HexValue(HexDigit(d)) == Some(d)
  {
  }

  lemma FourDigits(n: nat)
    ensures n / 0x1000 * 0x1000 + n / 0x100 % 16 * 0x100 + n / 0x10 % 16 * 0x10 + n % 16 == n
  {
    assert n / 0x100 == n / 0x10 / 0x10;
    assert n / 0x1000 == n / 0x100 / 0x10;
  }

  lemma UnitReads(n: nat, r: Text)
    requires n < 0x1_0000
    ensures ReadUnit(UnicodeEscape(n) + r) == Some(n)
    ensures (UnicodeEscape(n) + r)[6..] == r
  {
    HexReads(n / 0x1000);
    HexReads(n / 0x100 % 16);
    HexReads(n / 0x10 % 16);
    HexReads(n % 16);
    FourDigits(n);
  }

  /** An escaped unit is one character, unless it is a high surrogate in front of an escaped low one. */
  lemma UnitIsAChar(n: CodePoint, r: Text)
    requires n < 0x1_0000
    requires !(High(n) && LowUnit(r))
    ensures ReadChar(UnicodeEscape(n) + r) == Some(Reading(n, r))
  {
    UnitReads(n, r);
  }

  lemma PairIsAChar(high: nat, low: nat, r: Text)
    requires High(high) && Low(low)
    ensures ReadChar(UnicodeEscape(high) + (UnicodeEscape(low) + r)) == Some(Reading(Pair(high, low), r))
  {
    UnitReads(high, UnicodeEscape(low) + r);
    UnitReads(low, r);
    assert (UnicodeEscape(high) + (UnicodeEscape(low) + r))[12..] == r;
  }

  function HighHalf(c: CodePoint): (u: nat)
    requires c >= 0x1_0000
    ensures High(u)
  {
    0xD800 + (c - 0x1_0000) / 0x400
  }

  function LowHalf(c: CodePoint): (u: nat)
    requires c >= 0x1_0000
    ensures Low(u)
  {
    0xDC00 + (c - 0x1_0000) % 0x400
  }

  lemma TwoHalves(c: CodePoint)
    requires c >= 0x1_0000
    ensures Pair(HighHalf(c), LowHalf(c)) == c
    ensures EscapeChar(c, true) == UnicodeEscape(HighHalf(c)) + UnicodeEscape(LowHalf(c))
  {
  }

  lemma ShortReads(c: CodePoint, ascii: bool, r: Text)
    requires c in {0x22, 0x5C, 0x08, 0x09, 0x0A, 0x0C, 0x0D}
    ensures ReadChar(EscapeChar(c, ascii) + r) == Some(Reading(c, r))
  {
    assert (EscapeChar(c, ascii) + r)[2..] == r;
  }

  lemma PlainReads(c: CodePoint, r: Text)
    requires c >= 0x20 && c != 0x22 && c != 0x5C
    ensures ReadChar([c] + r) == Some(Reading(c, r))
  {
    assert ([c] + r)[1..] == r;
  }

  /** Every character but an escaped high surrogate reads back whatever follows it. */
  lemma CharReads(c: CodePoint, ascii: bool, r: Text)
    requires !High(c) || !ascii
    ensures ReadChar(EscapeChar(c, ascii) + r) == Some(Reading(c, r))
  {
    if c in {0x22, 0x5C, 0x08, 0x09, 0x0A, 0x0C, 0x0D} {
      ShortReads(c, ascii, r);
    } else if c < 0x20 || (ascii && 0x7F <= c < 0x1_0000) {
      assert EscapeChar(c, ascii) == UnicodeEscape(c);
      UnitIsAChar(c, r);
    } else if ascii && 0x1_0000 <= c {
      TwoHalves(c);
      PairIsAChar(HighHalf(c), LowHalf(c), r);
      Associates(UnicodeEscape(HighHalf(c)), UnicodeEscape(LowHalf(c)), r);
    } else {
      assert EscapeChar(c, ascii) == [c];
      PlainReads(c, r);
    }
  }

  lemma LowUnitIsLow(c: CodePoint, r: Text)
    ensures LowUnit(EscapeChar(c, true) + r) <==> Low(c)
  {
    if 0x1_0000 <= c {
      TwoHalves(c);
      UnitReads(HighHalf(c), UnicodeEscape(LowHalf(c)) + r);
      Associates(UnicodeEscape(HighHalf(c)), UnicodeEscape(LowHalf(c)), r);
    } else if EscapeChar(c, true) == UnicodeEscape(c) {
      UnitReads(c, r);
    } else {
      assert (EscapeChar(c, true) + r)[0] != 0x5C || (EscapeChar(c, true) + r)[1] != 0x75;
    }
  }

  /** A text's string in front of anything is its first character in front of the others. */
  lemma FirstChar(t: Text, ascii: bool, r: Text)
    requires t != []
    ensures EscapeText(t, ascii) + QUOTE + r ==
            EscapeChar(t[0], ascii) + (EscapeText(t[1..], ascii) + QUOTE + r)
  {
    Associates(EscapeChar(t[0], ascii), EscapeText(t[1..], ascii), QUOTE);
    Associates(EscapeChar(t[0], ascii), EscapeText(t[1..], ascii) + QUOTE, r);
  }

  /** What follows is an escaped low surrogate exactly when the next character is a low surrogate. */
  lemma LowAhead(t: Text, r: Text)
    ensures LowUnit(EscapeText(t, true) + QUOTE + r) <==> (t != [] && Low(t[0]))
  {
    if t != [] {
      FirstChar(t, true, r);
      LowUnitIsLow(t[0], EscapeText(t[1..], true) + QUOTE + r);
    }
  }

  lemma {:induction false} TextReads(t: Text, ascii: bool, r: Text)
    ensures ReadChars(EscapeText(t, ascii) + QUOTE + r) == Some(Reading(Unescaped(t, ascii), r))
    decreases |t|
  {
    var text := EscapeText(t, ascii) + QUOTE + r;
    if t == [] {
      assert text[0] == 0x22 && text[1..] == r;
    } else {
      var after := EscapeText(t[1..], ascii) + QUOTE + r;
      FirstChar(t, ascii, r);
      if ascii && High(t[0]) && |t| > 1 && Low(t[1]) {
        SurrogatesRead(t, r);
        TextReads(t[2..], ascii, r);
      } else {
        if ascii && High(t[0]) {
          LowAhead(t[1..], r);
          UnitIsAChar(t[0], after);
        } else {
          CharReads(t[0], ascii, after);
        }
        NotTheEnd(t[0], ascii, after);
        TextReads(t[1..], ascii, r);
        assert [t[0]] + t[1..] == t;
      }
    }
  }

  lemma NotTheEnd(c: CodePoint, ascii: bool, after: Text)
    ensures EscapeChar(c, ascii) + after != [] && (EscapeChar(c, ascii) + after)[0] != 0x22
  {
  }

  lemma SurrogatesRead(t: Text, r: Text)
    requires |t| > 1 && High(t[0]) && Low(t[1])
    ensures ReadChar(EscapeText(t, true) + QUOTE + r) ==
            Some(Reading(Pair(t[0], t[1]), EscapeText(t[2..], true) + QUOTE + r))
  {
    var after := EscapeText(t[2..], true) + QUOTE + r;
    FirstChar(t, true, r);
    FirstChar(t[1..], true, r);
    assert t[1..][1..] == t[2..] && t[1..][0] == t[1];
    assert EscapeChar(t[0], true) == UnicodeEscape(t[0]) && EscapeChar(t[1], true) == UnicodeEscape(t[1]);
    PairIsAChar(t[0], t[1], after);
  }

  // ---- The escaped form is the shortest ----------------------------------------------

  predicate Printable(t: Text) {
    forall i :: 0 <= i < |t| ==> 0x20 <= t[i] < 0x7F
  }

  predicate LowerCase(t: Text) {
    forall i :: 0 <= i < |t| ==> !(0x41 <= t[i] <= 0x46)
  }

  /** A text that spells just this character, within printable ASCII if need be. */
  predicate Spells(t: Text, c: CodePoint, ascii: bool) {
    ReadChar(t) == Some(Reading(c, [])) && (ascii ==> Printable(t))
  }

  lemma DigitIsHex(c: CodePoint)
    requires HexValue(c).Some? && !(0x41 <= c <= 0x46)
    ensures HexValue(c).value < 16 && c == HexDigit(HexValue(c).value)
  {
  }

  lemma DigitsOf(a: nat, b: nat, c: nat, d: nat)
    requires a < 16 && b < 16 && c < 16 && d < 16
    ensures var n := a * 0x1000 + b * 0x100 + c * 0x10 + d;
            n / 0x1000 == a && n / 0x100 % 16 == b && n / 0x10 % 16 == c && n % 16 == d
  {
    var n := a * 0x1000 + b * 0x100 + c * 0x10 + d;
    assert n / 0x10 == a * 0x100 + b * 0x10 + c;
    assert n / 0x100 == a * 0x10 + b;
  }

  lemma UnitIsEscape(t: Text)
    requires ReadUnit(t).Some? && LowerCase(t[..6])
    ensures t[..6] == UnicodeEscape(ReadUnit(t).value)
  {
    assert t[..6][2] == t[2] && t[..6][3] == t[3] && t[..6][4] == t[4] && t[..6][5] == t[5];
    DigitIsHex(t[2]);
    DigitIsHex(t[3]);
    DigitIsHex(t[4]);
    DigitIsHex(t[5]);
    DigitsOf(HexValue(t[2]).value, HexValue(t[3]).value, HexValue(t[4]).value, HexValue(t[5]).value);
  }

  lemma PairInverts(high: nat, low: nat)
    requires High(high) && Low(low)
    ensures Pair(high, low) >= 0x1_0000
    ensures HighHalf(Pair(high, low)) == high && LowHalf(Pair(high, low)) == low
  {
  }

  /** Of all spellings of a character the encoder writes the shortest, and no other is as short
      but for the case of its digits. */
  lemma ShortestSpelling(c: CodePoint, ascii: bool, t: Text)
    requires Spells(t, c, ascii)
    ensures |EscapeChar(c, ascii)| <= |t|
    ensures |EscapeChar(c, ascii)| == |t| && (|t| > 1 ==> LowerCase(t)) ==> t == EscapeChar(c, ascii)
  {
    if t[0] != 0x5C {
      assert |t| == 1 && t[0] == c;
    } else if ShortEscape(t[1]).Some? {
      assert |t| == 2;
    } else {
      var u := ReadUnit(t).value;
      if High(u) && LowUnit(t[6..]) {
        PairSpelling(c, ascii, t);
      } else {
        assert |t| == 6 && c == u;
        if LowerCase(t) && |EscapeChar(c, ascii)| == 6 {
          assert t[..6] == t;
          UnitIsEscape(t);
        }
      }
    }
  }

  lemma PairSpelling(c: CodePoint, ascii: bool, t: Text)
    requires ReadUnit(t).Some? && High(ReadUnit(t).value) && LowUnit(t[6..])
    requires Spells(t, c, ascii)
    ensures |EscapeChar(c, ascii)| <= 12 == |t|
    ensures |EscapeChar(c, ascii)| == |t| && LowerCase(t) ==> t == EscapeChar(c, ascii)
  {
    var high, low := ReadUnit(t).value, ReadUnit(t[6..]).value;
    assert |t| == 12 && c == Pair(high, low);
    PairInverts(high, low);
    TwoHalves(c);
    if LowerCase(t) {
      assert LowerCase(t[..6]) && LowerCase(t[6..][..6]);
      UnitIsEscape(t);
      UnitIsEscape(t[6..]);
      assert t == t[..6] + t[6..] && t[6..][..6] == t[6..];
    }
  }

  lemma EscapeSpells(c: CodePoint, ascii: bool)
    ensures Spells(EscapeChar(c, ascii), c, ascii)
  {
    var t := EscapeChar(c, ascii);
    assert t + [] == t;
    if High(c) && ascii {
      UnitIsAChar(c, []);
    } else {
      CharReads(c, ascii, []);
    }
    if ascii {
      EscapeIsPrintable(c);
    }
  }

  lemma EscapeIsPrintable(c: CodePoint)
    ensures Printable(EscapeChar(c, true))
  {
  }

  // ---- Values read back --------------------------------------------------------------

  /** What follows a value is nothing, or a character that no number or name contains. */
  predicate Ends(rest: Text) {
    rest == [] || !TokenChar(rest[0])
  }

  lemma {:induction false} TokenEndsThere(t: Text, rest: Text)
    requires forall i :: 0 <= i < |t| ==> TokenChar(t[i])
    requires Ends(rest)
    ensures TokenEnd(t + rest) == |t|
  {
    if t == [] {
      assert t + rest == rest;
    } else {
      assert (t + rest)[1..] == t[1..] + rest;
      TokenEndsThere(t[1..], rest);
    }
  }

  lemma TokenReads(t: Token, rest: Text)
    requires Ends(rest)
    ensures ReadValue(t + rest) == Some(Reading(Word(t), rest))
  {
    TokenEndsThere(t, rest);
    assert TokenChar((t + rest)[0]);
    assert (t + rest)[..|t|] == t && (t + rest)[|t|..] == rest;
  }

  lemma QuoteReads(t: Text, ascii: bool, rest: Text)
    ensures Quote(t, ascii) + rest == QUOTE + (EscapeText(t, ascii) + QUOTE + rest)
    ensures ReadChars((Quote(t, ascii) + rest)[1..]) == Some(Reading(Unescaped(t, ascii), rest))
  {
    TextReads(t, ascii, rest);
    Associates(QUOTE, EscapeText(t, ascii), QUOTE);
    Associates(QUOTE, EscapeText(t, ascii) + QUOTE, rest);
    assert (Quote(t, ascii) + rest)[1..] == EscapeText(t, ascii) + QUOTE + rest;
  }

  lemma {:induction false} TokenIsPlain(t: Text)
    requires forall i :: 0 <= i < |t| ==> TokenChar(t[i])
    ensures EscapeText(t, false) == t
  {
    if t != [] {
      TokenIsPlain(t[1..]);
      assert TokenChar(t[0]);
    }
  }

  lemma NameReads(key: Key, o: Options, rest: Text)
    requires EncodeKey(key, o).Some?
    ensures var t := EncodeKey(key, o).value + rest;
            t[0] == 0x22 && ReadChars(t[1..]) == Some(Reading(NameOf(key, o), rest))
  {
    match key
    case StrKey(_, t) => QuoteReads(t, o.ensureAscii, rest);
    case ConvertedKey(t) => TokenIsPlain(t); QuoteReads(t, false, rest);
    case NonFiniteKey(t) => TokenIsPlain(t); QuoteReads(t, false, rest);
  }

  lemma {:induction false} ValueReads(v: Value, o: Options, rest: Text)
    requires Encode(v, o).Some? && Ends(rest)
    ensures ReadValue(Encode(v, o).value + rest) == Some(Reading(Content(v, o), rest))
    decreases v, 0
  {
    match v
    case Literal(t) => TokenReads(t, rest);
    case NonFinite(t) => TokenReads(t, rest);
    case Str(t) => QuoteReads(t, o.ensureAscii, rest);
    case Unsupported(t) => QuoteReads(t, o.ensureAscii, rest);
    case Array(_, items) =>
      var inner := EncodeItems(items, o).value;
      Bracketed(OPEN_LIST, inner, CLOSE_LIST, rest);
      if items != [] {
        ItemsRead(items, o, rest);
        NoItemCloses(inner + CLOSE_LIST + rest);
      }
    case Object(_, entries) =>
      var inner := EncodeEntries(entries, o).value;
      Bracketed(OPEN_DICT, inner, CLOSE_DICT, rest);
      if entries != [] {
        EntriesRead(entries, o, rest);
        NoMemberCloses(inner + CLOSE_DICT + rest);
      }
  }

  lemma Bracketed(open: Text, inner: Text, close: Text, rest: Text)
    requires |open| == 1 && |close| == 1
    ensures (open + inner + close + rest)[1..] == inner + close + rest
    ensures (open + inner + close + rest)[0] == open[0]
    ensures inner == [] ==>
              (open + inner + close + rest)[1] == close[0] && (open + inner + close + rest)[2..] == rest
  {
  }

  lemma NoItemCloses(t: Text)
    requires ReadItems(t).Some?
    ensures t != [] && t[0] != 0x5D
  {
  }

  lemma NoMemberCloses(t: Text)
    requires ReadMembers(t).Some?
    ensures t != [] && t[0] != 0x7D
  {
  }

  lemma {:induction false} ItemsRead(items: seq<Value>, o: Options, rest: Text)
    requires items != [] && EncodeItems(items, o).Some?
    ensures ReadItems(EncodeItems(items, o).value + CLOSE_LIST + rest) == Some(Reading(Contents(items, o), rest))
    decreases items, 0
  {
    var first := Encode(items[0], o).value;
    if |items| == 1 {
      Associates(first, CLOSE_LIST, rest);
      ValueReads(items[0], o, CLOSE_LIST + rest);
      assert (CLOSE_LIST + rest)[1..] == rest;
      assert Contents(items, o) == [Content(items[0], o)];
    } else {
      var others := EncodeItems(items[1..], o).value;
      ThenComma(first, others, CLOSE_LIST, rest);
      ValueReads(items[0], o, COMMA + (others + CLOSE_LIST + rest));
      ItemsRead(items[1..], o, rest);
    }
  }

  lemma ThenComma(first: Text, others: Text, close: Text, rest: Text)
    ensures (first + COMMA + others) + close + rest == first + (COMMA + (others + close + rest))
    ensures (COMMA + (others + close + rest))[1..] == others + close + rest
  {
  }

  lemma {:induction false} EntryReads(e: Entry, o: Options, rest: Text)
    requires EncodeEntry(e, o).Some? && Ends(rest)
    ensures ReadMember(EncodeEntry(e, o).value + rest) == Some(Reading(MemberOf(e, o), rest))
    decreases e, 0
  {
    var key, item := EncodeKey(e.key, o).value, Encode(e.item, o).value;
    ThenColon(key, item, rest);
    NameReads(e.key, o, COLON + (item + rest));
    ValueReads(e.item, o, rest);
  }

  lemma ThenColon(key: Text, item: Text, rest: Text)
    ensures (key + COLON + item) + rest == key + (COLON + (item + rest))
    ensures (COLON + (item + rest))[1..] == item + rest
  {
  }

  lemma {:induction false} EntriesRead(entries: seq<Entry>, o: Options, rest: Text)
    requires entries != [] && EncodeEntries(entries, o).Some?
    ensures ReadMembers(EncodeEntries(entries, o).value + CLOSE_DICT + rest) ==
            Some(Reading(Members(entries, o), rest))
    decreases entries, 0
  {
    var first := EncodeEntry(entries[0], o).value;
    if |entries| == 1 {
      Associates(first, CLOSE_DICT, rest);
      EntryReads(entries[0], o, CLOSE_DICT + rest);
      assert (CLOSE_DICT + rest)[1..] == rest;
      assert Members(entries, o) == [MemberOf(entries[0], o)];
    } else {
      var others := EncodeEntries(entries[1..], o).value;
      ThenComma(first, others, CLOSE_DICT, rest);
      EntryReads(entries[0], o, COMMA + (others + CLOSE_DICT + rest));
      EntriesRead(entries[1..], o, rest);
    }
  }

  /** JSON text: one value and nothing after it. */
  function ReadJson(t: Text): Option<Json> {
    var r := ReadValue(t);
    if r.Some? && r.value.rest == [] then Some(r.value.value) else None
  }

  /** Every encoding reads back to the content of its value. */
  lemma EncodingReadsBack(v: Value, o: Options)
    requires Encode(v, o).Some?
    ensures ReadJson(Encode(v, o).value) == Some(Content(v, o))
  {
    ValueReads(v, o, []);
    assert Encode(v, o).value + [] == Encode(v, o).value;
  }

  /** A high surrogate directly in front of a low one. */
  predicate HasPair(t: Text) {
    exists i :: 0 < i < |t| && High(t[i - 1]) && Low(t[i])
  }

  lemma {:induction false} CombinedIsShorter(t: Text)
    ensures |Combined(t)| <= |t|
    decreases |t|
  {
    if |t| > 1 && High(t[0]) && Low(t[1]) {
      CombinedIsShorter(t[2..]);
    } else if t != [] {
      CombinedIsShorter(t[1..]);
    }
  }

  /** The ASCII encoding reads back to the text itself exactly when the text has no such pair. */
  lemma {:induction false} CombinedIffPair(t: Text)
    ensures Combined(t) == t <==> !HasPair(t)
    decreases |t|
  {
    if |t| > 1 && High(t[0]) && Low(t[1]) {
      CombinedIsShorter(t[2..]);
      assert HasPair(t);
    } else if t != [] {
      CombinedIffPair(t[1..]);
      if HasPair(t) {
        var i :| 0 < i < |t| && High(t[i - 1]) && Low(t[i]);
        assert 0 < i - 1 < |t[1..]| && High(t[1..][i - 2]) && Low(t[1..][i - 1]);
      }
      assert HasPair(t[1..]) ==> HasPair(t);
      assert Combined(t)[1..] == Combined(t[1..]);
      assert [t[0]] + t[1..] == t;
    }
  }

  // ---- UTF-8 reads back --------------------------------------------------------------

  predicate Tail(b: Byte) { 0x80 <= b < 0xC0 }

  /** The bits of a byte below its marking ones. */
  function Bits(b: Byte, mark: nat): nat
    requires mark <= b
  {
    b - mark
  }

  /** One character: section 3 of RFC 3629. No overlong form, no surrogate, nothing above U+10FFFF. */
  function DecodeChar(b: seq<Byte>): (r: Option<(CodePoint, seq<Byte>)>)
    ensures r.Some? ==> |r.value.1| < |b|
  {
    if b == [] then None
    else if b[0] < 0x80 then Some((b[0], b[1..]))
    else if 0xC2 <= b[0] < 0xE0 && |b| >= 2 && Tail(b[1]) then
      Some((Bits(b[0], 0xC0) * 0x40 + Bits(b[1], 0x80), b[2..]))
    else if 0xE0 <= b[0] < 0xF0 && |b| >= 3 && Tail(b[1]) && Tail(b[2]) then
      var c := Bits(b[0], 0xE0) * 0x1000 + Bits(b[1], 0x80) * 0x40 + Bits(b[2], 0x80);
      if c < 0x800 || 0xD800 <= c < 0xE000 then None else Some((c, b[3..]))
    else if 0xF0 <= b[0] < 0xF8 && |b| >= 4 && Tail(b[1]) && Tail(b[2]) && Tail(b[3]) then
      var c := Bits(b[0], 0xF0) * 0x4_0000 + Bits(b[1], 0x80) * 0x1000 + Bits(b[2], 0x80) * 0x40 + Bits(b[3], 0x80);
      if c < 0x1_0000 || 0x11_0000 <= c then None else Some((c, b[4..]))
    else None
  }

  function DecodeUtf8(b: seq<Byte>): Option<Text>
    decreases |b|
  {
    if b == [] then Some([])
    else
      match DecodeChar(b)
      case None => None
      case Some((c, rest)) =>
        match DecodeUtf8(rest)
        case None => None
        case Some(t) => Some([c] + t)
  }

  lemma TwoTails(c: nat)
    ensures c / 0x1000 * 0x1000 + c / 0x40 % 0x40 * 0x40 + c % 0x40 == c
  {
    assert c / 0x1000 == c / 0x40 / 0x40;
  }

  lemma ThreeTails(c: nat)
    ensures c / 0x4_0000 * 0x4_0000 + c / 0x1000 % 0x40 * 0x1000 + c / 0x40 % 0x40 * 0x40 + c % 0x40 == c
  {
    TwoTails(c);
    assert c / 0x4_0000 == c / 0x1000 / 0x40;
  }

  lemma CharDecodes(c: CodePoint, rest: seq<Byte>)
    requires Utf8Char(c).Some?
    ensures DecodeChar(Utf8Char(c).value + rest) == Some((c, rest))
  {
    var b := Utf8Char(c).value;
    assert (b + rest)[|b|..] == rest;
    TwoTails(c);
    ThreeTails(c);
  }

  /** UTF-8 bytes decode to the text they were made from. */
  lemma {:induction false} Utf8Decodes(t: Text)
    requires Utf8(t).Some?
    ensures DecodeUtf8(Utf8(t).value) == Some(t)
  {
    if t != [] {
      Utf8Decodes(t[1..]);
      CharDecodes(t[0], Utf8(t[1..]).value);
      assert [t[0]] + t[1..] == t;
    }
  }

  /** The chunks, put together, decode and read back to the content of the data. */
  lemma ChunksReadBack(data: Value, o: Options, chunks: seq<seq<Byte>>)
    requires Encode(data, o).Some?
    requires Some(chunks) == Utf8All(Cut(Encode(data, o).value))
    ensures DecodeUtf8(Concat(chunks)).Some?
    ensures ReadJson(DecodeUtf8(Concat(chunks)).value) == Some(Content(data, o))
  {
    ChunksSpellTheEncoding(data, o, chunks);
    Utf8Decodes(Encode(data, o).value);
    EncodingReadsBack(data, o);
  }

  // ---- What is refused ---------------------------------------------------------------

  /** A string that reaches the bytes: only as escapes may it hold surrogates. */
  predicate Plain(t: Text, o: Options) {
    o.ensureAscii || forall i :: 0 <= i < |t| ==> !High(t[i]) && !Low(t[i])
  }

  predicate KeyWritable(key: Key, o: Options) {
    match key
    case StrKey(_, t) => Plain(t, o)
    case ConvertedKey(_) => true
    case NonFiniteKey(_) => o.allowNan
    case BadKey => false
  }

  predicate Writable(v: Value, o: Options)
    decreases v, 0
  {
    match v
    case Literal(_) => true
    case NonFinite(_) => o.allowNan
    case Str(t) => Plain(t, o)
    case Unsupported(t) => o.strDefault && Plain(t, o)
    case Array(_, items) => forall i :: 0 <= i < |items| ==> Writable(items[i], o)
    case Object(_, entries) => forall i :: 0 <= i < |entries| ==> EntryWritable(entries[i], o)
  }

  predicate EntryWritable(e: Entry, o: Options)
    decreases e, 0
  {
    KeyWritable(e.key, o) && Writable(e.item, o)
  }

  predicate Bytes(t: Option<Text>) {
    t.Some? && Utf8(t.value).Some?
  }

  lemma EscapedChar(c: CodePoint, ascii: bool)
    ensures Utf8(EscapeChar(c, ascii)).Some? <==> (ascii || !(High(c) || Low(c)))
  {
    if ascii || c < 0x20 || c == 0x22 || c == 0x5C {
      CharIsAscii(c, ascii);
      Utf8OfAscii(EscapeChar(c, ascii));
    } else {
      assert EscapeChar(c, ascii) == [c] && [c][1..] == [];
    }
  }

  lemma CharIsAscii(c: CodePoint, ascii: bool)
    requires ascii || c < 0x20 || c == 0x22 || c == 0x5C
    ensures IsAscii(EscapeChar(c, ascii))
  {
  }

  lemma {:induction false} EscapedText(t: Text, o: Options)
    ensures Utf8(EscapeText(t, o.ensureAscii)).Some? <==> Plain(t, o)
  {
    if t != [] {
      EscapedText(t[1..], o);
      EscapedChar(t[0], o.ensureAscii);
      Utf8Append(EscapeChar(t[0], o.ensureAscii), EscapeText(t[1..], o.ensureAscii));
      assert Plain(t, o) <==> (o.ensureAscii || !(High(t[0]) || Low(t[0]))) && Plain(t[1..], o) by {
        if Plain(t[1..], o) && !o.ensureAscii {
          assert forall i :: 0 < i < |t| ==> t[i] == t[1..][i - 1];
        }
      }
    }
  }

  /** Surrounding ASCII does not matter. */
  lemma Between(open: Text, t: Text, close: Text)
    requires IsAscii(open) && IsAscii(close)
    ensures Utf8(open + t + close).Some? <==> Utf8(t).Some?
  {
    Utf8OfAscii(open);
    Utf8OfAscii(close);
    Utf8Append(open, t);
    Utf8Append(open + t, close);
  }

  lemma TokenHasBytes(t: Token)
    ensures Utf8(t).Some?
  {
    assert forall i :: 0 <= i < |t| ==> TokenChar(t[i]);
    Utf8OfAscii(t);
  }

  lemma KeyBytes(key: Key, o: Options)
    ensures Bytes(EncodeKey(key, o)) <==> KeyWritable(key, o)
  {
    match key
    case StrKey(_, t) => EscapedText(t, o); Between(QUOTE, EscapeText(t, o.ensureAscii), QUOTE);
    case ConvertedKey(t) => TokenHasBytes(t); Between(QUOTE, t, QUOTE);
    case NonFiniteKey(t) => TokenHasBytes(t); Between(QUOTE, t, QUOTE);
    case BadKey =>
  }

  /** A value is written unless it holds a non-finite number that is not allowed, a key that has no
      conversion, a value without an encoding, or, outside ASCII output, a surrogate. */
  lemma {:induction false} WrittenIff(v: Value, o: Options)
    ensures Bytes(Encode(v, o)) <==> Writable(v, o)
    decreases v, 0
  {
    match v
    case Literal(t) => TokenHasBytes(t);
    case NonFinite(t) => TokenHasBytes(t);
    case Str(t) => EscapedText(t, o); Between(QUOTE, EscapeText(t, o.ensureAscii), QUOTE);
    case Unsupported(t) => EscapedText(t, o); Between(QUOTE, EscapeText(t, o.ensureAscii), QUOTE);
    case Array(_, items) =>
      ItemsWrittenIff(items, o);
      if EncodeItems(items, o).Some? {
        Between(OPEN_LIST, EncodeItems(items, o).value, CLOSE_LIST);
      }
    case Object(_, entries) =>
      EntriesWrittenIff(entries, o);
      if EncodeEntries(entries, o).Some? {
        Between(OPEN_DICT, EncodeEntries(entries, o).value, CLOSE_DICT);
      }
  }

  lemma Joined(first: Option<Text>, last: bool, rest: Option<Text>)
    requires last ==> rest == Some([])
    ensures Bytes(Join(first, last, rest)) <==> Bytes(first) && Bytes(rest)
  {
    if first.Some? && rest.Some? {
      Utf8Append(first.value, COMMA);
      Utf8Append(first.value + COMMA, rest.value);
      Utf8OfAscii(COMMA);
    }
  }

  lemma {:induction false} ItemsWrittenIff(items: seq<Value>, o: Options)
    ensures Bytes(EncodeItems(items, o)) <==> forall i :: 0 <= i < |items| ==> Writable(items[i], o)
    decreases items, 0
  {
    if items != [] {
      WrittenIff(items[0], o);
      ItemsWrittenIff(items[1..], o);
      Joined(Encode(items[0], o), |items| == 1, EncodeItems(items[1..], o));
      assert forall i :: 0 < i < |items| ==> items[i] == items[1..][i - 1];
    }
  }

  lemma {:induction false} EntryWrittenIff(e: Entry, o: Options)
    ensures Bytes(EncodeEntry(e, o)) <==> EntryWritable(e, o)
    decreases e, 0
  {
    KeyBytes(e.key, o);
    WrittenIff(e.item, o);
    if EncodeKey(e.key, o).Some? && Encode(e.item, o).Some? {
      Utf8OfAscii(COLON);
      Utf8Append(EncodeKey(e.key, o).value, COLON);
      Utf8Append(EncodeKey(e.key, o).value + COLON, Encode(e.item, o).value);
    }
  }

  lemma {:induction false} EntriesWrittenIff(entries: seq<Entry>, o: Options)
    ensures Bytes(EncodeEntries(entries, o)) <==> forall i :: 0 <= i < |entries| ==> EntryWritable(entries[i], o)
    decreases entries, 0
  {
    if entries != [] {
      EntryWrittenIff(entries[0], o);
      EntriesWrittenIff(entries[1..], o);
      Joined(EncodeEntry(entries[0], o), |entries| == 1, EncodeEntries(entries[1..], o));
      assert forall i :: 0 < i < |entries| ==> entries[i] == entries[1..][i - 1];
    }
  }
}

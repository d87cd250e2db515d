/** What a pipeline of transforms is: steps written with quotes, parentheses, character classes and
    backslash pairs, joined by pipes; and that the splitter reads exactly those. */
module TransformGrammar {
  import opened Texts
  import opened TransformPipeline

  // ---- The grammar -------------------------------------------------------------------

  /** A piece of a step: a character, a backslash and a character, a quoted argument in which a
      quote is written twice, a parenthesised group, or a character class. */
  datatype Item =
    | Plain(c: char)
    | Pair(c: char)
    | Quoted(content: string)
    | Group(items: seq<Item>)
    | Class(items: seq<Item>)

  function Doubled(s: string): string {
    if s == [] then [] else (if s[0] == '"' then ['"', '"'] else [s[0]]) + Doubled(s[1..])
  }

  function Print(item: Item): string
    decreases item
  {
    match item
    case Plain(c) => [c]
    case Pair(c) => ['\\', c]
    case Quoted(content) => ['"'] + Doubled(content) + ['"']
    case Group(items) => ['('] + PrintAll(items) + [')']
    case Class(items) => ['['] + PrintAll(items) + [']']
  }

  function PrintAll(items: seq<Item>): string
    decreases items
  {
    if items == [] then [] else Print(items[0]) + PrintAll(items[1..])
  }

  /** Whether the text is a regular expression here: not at all, to the end of the step, or up to
      the next colon. */
  datatype Pattern = Never | Always | UntilColon

  function Past(pattern: Pattern, text: string): Pattern {
    if pattern == UntilColon && ':' in text then Never else pattern
  }

  /** An item where it stands: `deep` inside parentheses, and in a regular expression or not.
      Parentheses nest inside parentheses and in regular expressions, classes are of regular
      expressions only, and arguments are quoted inside parentheses only. */
  predicate Fits(item: Item, deep: bool, pattern: Pattern)
    decreases item
  {
    match item
    case Plain(c) =>
      && c != '\\' && (deep ==> c != '(' && c != ')' && c != '"') && (!deep ==> c != '|')
      && (pattern != Never ==> c != '[' && c != '(')
    case Pair(_) => true
    case Quoted(_) => deep
    case Group(items) => (deep || pattern != Never) && FitAll(items, true, Past(pattern, "("))
    case Class(items) => pattern != Never && FitClass(items, deep)
  }

  predicate FitAll(items: seq<Item>, deep: bool, pattern: Pattern)
    decreases items
  {
    items == [] ||
    (Fits(items[0], deep, pattern) && Apart(items) && FitAll(items[1..], deep, Past(pattern, Print(items[0]))))
  }

  /** Two quoted arguments do not touch: their quotes would read as one written twice. */
  predicate Apart(items: seq<Item>) {
    |items| < 2 || !(items[0].Quoted? && items[1].Quoted?)
  }

  /** Inside a class only its end, a backslash, and within parentheses a quote, mean anything. */
  predicate FitClass(items: seq<Item>, deep: bool) {
    items == [] ||
    (FitsClass(items[0], deep) && Apart(items) && FitClass(items[1..], deep))
  }

  predicate FitsClass(item: Item, deep: bool) {
    match item
    case Plain(c) => c != '\\' && c != ']' && (deep ==> c != '"')
    case Pair(_) => true
    case Quoted(_) => deep
    case _ => false
  }

  /** A text that ends inside a quote, a class or a parenthesis: what is open, and what stands in
      it so far. */
  datatype Cut =
    | InQuote(content: string)
    | InClass(items: seq<Item>, quote: Option<string>)
    | InGroup(items: seq<Item>, inner: Option<Cut>)

  function PrintCut(cut: Cut): string {
    match cut
    case InQuote(content) => ['"'] + Doubled(content)
    case InClass(items, quote) =>
      ['['] + PrintAll(items) + if quote.Some? then ['"'] + Doubled(quote.value) else []
    case InGroup(items, inner) => ['('] + PrintAll(items) + if inner.Some? then PrintCut(inner.value) else []
  }

  predicate EndsQuoted(items: seq<Item>) {
    items != [] && items[|items| - 1].Quoted?
  }

  predicate FitsCut(cut: Cut, deep: bool, pattern: Pattern) {
    match cut
    case InQuote(_) => deep
    case InClass(items, quote) =>
      pattern != Never && FitClass(items, deep) && (quote.Some? ==> deep && !EndsQuoted(items))
    case InGroup(items, inner) =>
      (deep || pattern != Never) && FitsInside(items, inner, Past(pattern, "("))
  }

  /** What stands inside an open parenthesis. */
  predicate FitsInside(items: seq<Item>, inner: Option<Cut>, pattern: Pattern)
    decreases inner
  {
    && FitAll(items, true, pattern)
    && (inner.Some? ==> !(EndsQuoted(items) && inner.value.InQuote?)
                        && FitsCut(inner.value, true, Past(pattern, PrintAll(items))))
  }

  predicate QuoteIsOpen(cut: Cut) {
    match cut
    case InQuote(_) => true
    case InClass(_, quote) => quote.Some?
    case InGroup(_, inner) => inner.Some? && QuoteIsOpen(inner.value)
  }

  // ---- Places in the text ------------------------------------------------------------

  /** What the scanner knows of regular expressions from `i` on. */
  ghost predicate Agrees(raw: string, p: Prefix, i: nat, pattern: Pattern) {
    && i <= |raw| && p.end <= i
    && match pattern
       case Never => p.patternEnd < i
       case Always => p.patternEnd >= |raw|
       case UntilColon =>
         && i <= p.patternEnd <= |raw|
         && (forall k :: i <= k < p.patternEnd ==> raw[k] != ':')
         && (p.patternEnd < |raw| ==> raw[p.patternEnd] == ':')
  }

  lemma AtParts(raw: string, i: nat, a: string, b: string)
    ensures At(raw, i, a + b) <==> At(raw, i, a) && At(raw, i + |a|, b)
  {
    if i + |a| + |b| <= |raw| {
      var t := raw[i..i + |a| + |b|];
      assert t[..|a|] == raw[i..i + |a|] && t[|a|..] == raw[i + |a|..i + |a| + |b|];
      assert t == t[..|a|] + t[|a|..];
      assert (a + b)[..|a|] == a && (a + b)[|a|..] == b;
    }
  }

  lemma AtChar(raw: string, i: nat, c: char)
    ensures At(raw, i, [c]) <==> i < |raw| && raw[i] == c
  {
    if i < |raw| {
      assert raw[i..i + 1] == [raw[i]];
    }
  }

  lemma AgreesLater(raw: string, p: Prefix, i: nat, pattern: Pattern, t: string)
    requires Agrees(raw, p, i, pattern) && At(raw, i, t)
    ensures Agrees(raw, p, i + |t|, Past(pattern, t))
  {
    assert forall k :: 0 <= k < |t| ==> t[k] == raw[i + k];
    if pattern == UntilColon {
      if ':' in t {
        var k :| 0 <= k < |t| && t[k] == ':';
        assert raw[i + k] == ':';
      } else if p.patternEnd < i + |t| {
        assert false;
      }
    }
  }

  // ---- One turn of the scanner -------------------------------------------------------

  type Scanner = (nat, Mode) -> Stop

  /** `scan` is the scanner on this text, from any place and mode. */
  ghost predicate Scans(scan: Scanner, raw: string, p: Prefix) {
    forall i: nat, m: Mode {:trigger Scan(raw, p, i, m)} :: scan(i, m) == Scan(raw, p, i, m)
  }

  function Level(depth: nat): Mode {
    Mode(false, depth, false)
  }

  /** What one turn does, wherever the turn only moves on. */
  lemma OneTurn(scan: Scanner, raw: string, p: Prefix, i: nat, m: Mode, count: nat, next: Mode)
    requires Scans(scan, raw, p) && i < |raw| && MoveAt(raw, p, i, m) == Advance(count, next)
    ensures scan(i, m) == scan(i + count, next)
  {
    assert Scan(raw, p, i, m) == Scan(raw, p, i + count, next);
  }

  lemma TurnPlain(scan: Scanner, raw: string, p: Prefix, i: nat, c: char, depth: nat, pattern: Pattern)
    requires Scans(scan, raw, p) && Agrees(raw, p, i, pattern) && i < |raw| && raw[i] == c
    requires Fits(Plain(c), depth > 0, pattern)
    ensures scan(i, Level(depth)) == scan(i + 1, Level(depth))
  {
    OneTurn(scan, raw, p, i, Level(depth), 1, Level(depth));
  }

  lemma TurnPair(scan: Scanner, raw: string, p: Prefix, i: nat, m: Mode)
    requires Scans(scan, raw, p) && i < |raw| && raw[i] == '\\' && !m.quoteOpen
    ensures scan(i, m) == scan(i + 2, m)
  {
    OneTurn(scan, raw, p, i, m, 2, m);
  }

  lemma OpensGroup(scan: Scanner, raw: string, p: Prefix, i: nat, depth: nat, pattern: Pattern)
    requires Scans(scan, raw, p) && i < |raw| && raw[i] == '('
    requires Agrees(raw, p, i, pattern) && (depth > 0 || pattern != Never)
    ensures scan(i, Level(depth)) == scan(i + 1, Level(depth + 1))
    ensures Agrees(raw, p, i + 1, Past(pattern, "("))
  {
    AtChar(raw, i, '(');
    AgreesLater(raw, p, i, pattern, "(");
    OneTurn(scan, raw, p, i, Level(depth), 1, Level(depth + 1));
  }

  lemma ClosesGroup(scan: Scanner, raw: string, p: Prefix, k: nat, depth: nat)
    requires Scans(scan, raw, p) && k < |raw| && raw[k] == ')'
    ensures scan(k, Level(depth + 1)) == scan(k + 1, Level(depth))
  {
    OneTurn(scan, raw, p, k, Level(depth + 1), 1, Level(depth));
  }

  lemma OpensClass(scan: Scanner, raw: string, p: Prefix, i: nat, depth: nat, pattern: Pattern)
    requires Scans(scan, raw, p) && i < |raw| && raw[i] == '[' && Agrees(raw, p, i, pattern) && pattern != Never
    ensures scan(i, Level(depth)) == scan(i + 1, Mode(false, depth, true))
  {
    OneTurn(scan, raw, p, i, Level(depth), 1, Mode(false, depth, true));
  }

  lemma ClosesClass(scan: Scanner, raw: string, p: Prefix, k: nat, depth: nat)
    requires Scans(scan, raw, p) && k < |raw| && raw[k] == ']'
    ensures scan(k, Mode(false, depth, true)) == scan(k + 1, Level(depth))
  {
    OneTurn(scan, raw, p, k, Mode(false, depth, true), 1, Level(depth));
  }

  lemma TurnInClass(scan: Scanner, raw: string, p: Prefix, i: nat, c: char, m: Mode)
    requires Scans(scan, raw, p) && i < |raw| && raw[i] == c && m.characterClass && !m.quoteOpen
    requires FitsClass(Plain(c), m.parentheses > 0)
    ensures scan(i, m) == scan(i + 1, m)
  {
    OneTurn(scan, raw, p, i, m, 1, m);
  }

  lemma OpensQuote(scan: Scanner, raw: string, p: Prefix, i: nat, m: Mode)
    requires Scans(scan, raw, p) && i < |raw| && raw[i] == '"' && !m.quoteOpen && m.parentheses > 0
    ensures scan(i, m) == scan(i + 1, m.(quoteOpen := true))
  {
    OneTurn(scan, raw, p, i, m, 1, m.(quoteOpen := true));
  }

  lemma TurnInQuote(scan: Scanner, raw: string, p: Prefix, i: nat, m: Mode)
    requires Scans(scan, raw, p) && i < |raw| && m.quoteOpen
    ensures raw[i] != '"' ==> scan(i, m) == scan(i + 1, m)
    ensures raw[i] == '"' && i + 1 < |raw| && raw[i + 1] == '"' ==> scan(i, m) == scan(i + 2, m)
    ensures raw[i] == '"' && !(i + 1 < |raw| && raw[i + 1] == '"') ==> scan(i, m) == scan(i + 1, m.(quoteOpen := false))
  {
    if raw[i] != '"' {
      OneTurn(scan, raw, p, i, m, 1, m);
    } else if i + 1 < |raw| && raw[i + 1] == '"' {
      OneTurn(scan, raw, p, i, m, 2, m);
    } else {
      OneTurn(scan, raw, p, i, m, 1, m.(quoteOpen := false));
    }
  }

  // ---- Items are scanned whole -------------------------------------------------------

  /** The text after items does not turn its closing quote into a doubled one. */
  predicate QuoteEnds(raw: string, items: seq<Item>, j: nat) {
    EndsQuoted(items) && j < |raw| ==> raw[j] != '"'
  }

  function FirstChar(item: Item): (c: char)
    ensures Print(item) != [] && Print(item)[0] == c
  {
    Print(item)[0]
  }

  lemma StartsOther(item: Item, deep: bool, pattern: Pattern)
    requires (Fits(item, deep, pattern) || FitsClass(item, deep)) && deep && !item.Quoted?
    ensures FirstChar(item) != '"'
  {
  }

  /** After a quoted argument comes something else. */
  lemma NextIsNoQuote(items: seq<Item>, deep: bool, pattern: Pattern)
    requires FitAll(items, deep, pattern) && |items| >= 2 && items[0].Quoted?
    ensures FirstChar(items[1]) != '"'
  {
    var rest, later := items[1..], Past(pattern, Print(items[0]));
    assert FitAll(rest, deep, later) && rest[0] == items[1];
    StartsOther(items[1], deep, later);
  }

  lemma NextIsNoQuoteInClass(items: seq<Item>, deep: bool)
    requires FitClass(items, deep) && |items| >= 2 && items[0].Quoted?
    ensures FirstChar(items[1]) != '"'
  {
    assert FitClass(items[1..], deep) && items[1..][0] == items[1];
    StartsOther(items[1], deep, Never);
  }

  lemma StartsWithFirst(raw: string, j: nat, items: seq<Item>)
    requires items != [] && At(raw, j, PrintAll(items))
    ensures j < |raw| && raw[j] == FirstChar(items[0])
  {
    var c := FirstChar(items[0]);
    var rest := Print(items[0])[1..] + PrintAll(items[1..]);
    assert PrintAll(items) == [c] + rest;
    AtParts(raw, j, [c], rest);
    AtChar(raw, j, c);
  }

  lemma QuoteEndsEarly(raw: string, i: nat, items: seq<Item>)
    requires items != [] && At(raw, i + |Print(items[0])|, PrintAll(items[1..]))
    requires QuoteEnds(raw, items, i + |Print(items[0])| + |PrintAll(items[1..])|)
    requires |items| >= 2 && items[0].Quoted? ==> FirstChar(items[1]) != '"'
    ensures QuoteEnds(raw, [items[0]], i + |Print(items[0])|)
    ensures QuoteEnds(raw, items[1..], i + |Print(items[0])| + |PrintAll(items[1..])|)
  {
    if |items| >= 2 {
      StartsWithFirst(raw, i + |Print(items[0])|, items[1..]);
    }
  }

  lemma PairAt(raw: string, i: nat, c: char)
    requires At(raw, i, ['\\', c])
    ensures i + 1 < |raw| && raw[i] == '\\' && raw[i + 1] == c
  {
    assert raw[i] == raw[i..i + 2][0] && raw[i + 1] == raw[i..i + 2][1];
  }

  lemma Enclosed(raw: string, i: nat, open: char, inner: string, close: char)
    requires At(raw, i, [open] + inner + [close])
    ensures i + 1 + |inner| < |raw| && raw[i] == open && raw[i + 1 + |inner|] == close && At(raw, i + 1, inner)
  {
    AtParts(raw, i, [open] + inner, [close]);
    AtParts(raw, i, [open], inner);
    AtChar(raw, i, open);
    AtChar(raw, i + 1 + |inner|, close);
  }

  /** From inside a quote to after it. */
  lemma {:induction false} ScanQuote(scan: Scanner, raw: string, p: Prefix, i: nat, content: string, m: Mode)
    requires Scans(scan, raw, p) && m.quoteOpen && At(raw, i, Doubled(content) + ['"'])
    requires var j := i + |Doubled(content)| + 1; j < |raw| ==> raw[j] != '"'
    ensures scan(i, m) == scan(i + |Doubled(content)| + 1, m.(quoteOpen := false))
    decreases |content|
  {
    if content == [] {
      assert Doubled(content) + ['"'] == ['"'];
      AtChar(raw, i, '"');
      TurnInQuote(scan, raw, p, i, m);
    } else {
      var first, rest := if content[0] == '"' then ['"', '"'] else [content[0]], Doubled(content[1..]) + ['"'];
      assert Doubled(content) + ['"'] == first + rest;
      AtParts(raw, i, first, rest);
      assert raw[i] == first[0] && (content[0] == '"' ==> raw[i + 1] == first[1]);
      TurnInQuote(scan, raw, p, i, m);
      ScanQuote(scan, raw, p, i + |first|, content[1..], m);
    }
  }

  lemma ScanQuoted(scan: Scanner, raw: string, p: Prefix, i: nat, content: string, m: Mode)
    requires Scans(scan, raw, p) && !m.quoteOpen && m.parentheses > 0
    requires At(raw, i, Print(Quoted(content))) && QuoteEnds(raw, [Quoted(content)], i + |Print(Quoted(content))|)
    ensures scan(i, m) == scan(i + |Print(Quoted(content))|, m)
  {
    var inner := Doubled(content) + ['"'];
    assert Print(Quoted(content)) == ['"'] + inner;
    AtParts(raw, i, ['"'], inner);
    AtChar(raw, i, '"');
    OpensQuote(scan, raw, p, i, m);
    ScanQuote(scan, raw, p, i + 1, content, m.(quoteOpen := true));
  }

  lemma ScanInClass(scan: Scanner, raw: string, p: Prefix, i: nat, item: Item, m: Mode)
    requires Scans(scan, raw, p) && m.characterClass && !m.quoteOpen && FitsClass(item, m.parentheses > 0)
    requires At(raw, i, Print(item)) && QuoteEnds(raw, [item], i + |Print(item)|)
    ensures scan(i, m) == scan(i + |Print(item)|, m)
  {
    match item
    case Plain(c) =>
      AtChar(raw, i, c);
      TurnInClass(scan, raw, p, i, c, m);
    case Pair(c) =>
      PairAt(raw, i, c);
      TurnPair(scan, raw, p, i, m);
    case Quoted(content) => ScanQuoted(scan, raw, p, i, content, m);
  }

  lemma {:induction false} ScanClass(scan: Scanner, raw: string, p: Prefix, i: nat, items: seq<Item>, m: Mode)
    requires Scans(scan, raw, p) && m.characterClass && !m.quoteOpen && FitClass(items, m.parentheses > 0)
    requires At(raw, i, PrintAll(items)) && QuoteEnds(raw, items, i + |PrintAll(items)|)
    ensures scan(i, m) == scan(i + |PrintAll(items)|, m)
    decreases |items|
  {
    if items != [] {
      var first, rest := Print(items[0]), PrintAll(items[1..]);
      AtParts(raw, i, first, rest);
      if |items| >= 2 && items[0].Quoted? {
        NextIsNoQuoteInClass(items, m.parentheses > 0);
      }
      QuoteEndsEarly(raw, i, items);
      ScanInClass(scan, raw, p, i, items[0], m);
      ScanClass(scan, raw, p, i + |first|, items[1..], m);
    }
  }

  lemma {:induction false} ScanItems(scan: Scanner, raw: string, p: Prefix, i: nat, items: seq<Item>, depth: nat,
                                     pattern: Pattern)
    requires Scans(scan, raw, p) && Agrees(raw, p, i, pattern) && FitAll(items, depth > 0, pattern)
    requires At(raw, i, PrintAll(items)) && QuoteEnds(raw, items, i + |PrintAll(items)|)
    ensures scan(i, Level(depth)) == scan(i + |PrintAll(items)|, Level(depth))
    decreases items
  {
    if items != [] {
      var first, rest := Print(items[0]), PrintAll(items[1..]);
      AtParts(raw, i, first, rest);
      if |items| >= 2 && items[0].Quoted? {
        NextIsNoQuote(items, depth > 0, pattern);
      }
      QuoteEndsEarly(raw, i, items);
      ScanItem(scan, raw, p, i, items[0], depth, pattern);
      AgreesLater(raw, p, i, pattern, first);
      ScanItems(scan, raw, p, i + |first|, items[1..], depth, Past(pattern, first));
    }
  }

  lemma {:induction false} ScanItem(scan: Scanner, raw: string, p: Prefix, i: nat, item: Item, depth: nat,
                                    pattern: Pattern)
    requires Scans(scan, raw, p) && Agrees(raw, p, i, pattern) && Fits(item, depth > 0, pattern)
    requires At(raw, i, Print(item)) && QuoteEnds(raw, [item], i + |Print(item)|)
    ensures scan(i, Level(depth)) == scan(i + |Print(item)|, Level(depth))
    decreases item
  {
    match item
    case Plain(c) =>
      AtChar(raw, i, c);
      TurnPlain(scan, raw, p, i, c, depth, pattern);
    case Pair(c) =>
      PairAt(raw, i, c);
      TurnPair(scan, raw, p, i, Level(depth));
    case Quoted(content) => ScanQuoted(scan, raw, p, i, content, Level(depth));
    case Group(items) =>
      var k := i + 1 + |PrintAll(items)|;
      Enclosed(raw, i, '(', PrintAll(items), ')');
      OpensGroup(scan, raw, p, i, depth, pattern);
      ScanItems(scan, raw, p, i + 1, items, depth + 1, Past(pattern, "("));
      ClosesGroup(scan, raw, p, k, depth);
    case Class(items) =>
      var k := i + 1 + |PrintAll(items)|;
      Enclosed(raw, i, '[', PrintAll(items), ']');
      OpensClass(scan, raw, p, i, depth, pattern);
      ScanClass(scan, raw, p, i + 1, items, Mode(false, depth, true));
      ClosesClass(scan, raw, p, k, depth);
  }

  // ---- Every text reads as items -----------------------------------------------------

  lemma PastTwice(pattern: Pattern, a: string, b: string)
    ensures Past(Past(pattern, a), b) == Past(pattern, a + b)
  {
  }

  /** The rest of a quoted argument: its content, and where the quote closes, if it does. */
  lemma {:induction false} ReadQuote(raw: string, i: nat) returns (content: string, k: nat)
    requires i <= |raw|
    ensures i <= k <= |raw| && raw[i..k] == Doubled(content)
    ensures k < |raw| ==> raw[k] == '"' && (k + 1 < |raw| ==> raw[k + 1] != '"')
    decreases |raw| - i
  {
    if i == |raw| {
      content, k := [], i;
    } else if raw[i] != '"' {
      content, k := ReadQuote(raw, i + 1);
      content := [raw[i]] + content;
      assert raw[i..k] == [raw[i]] + raw[i + 1..k];
    } else if i + 1 < |raw| && raw[i + 1] == '"' {
      content, k := ReadQuote(raw, i + 2);
      content := ['"'] + content;
      assert raw[i..k] == ['"', '"'] + raw[i + 2..k];
    } else {
      content, k := [], i;
    }
  }

  lemma PrintCons(item: Item, items: seq<Item>)
    ensures PrintAll([item] + items) == Print(item) + PrintAll(items)
  {
    assert ([item] + items)[1..] == items;
  }

  lemma FitCons(item: Item, items: seq<Item>, deep: bool, pattern: Pattern)
    requires Fits(item, deep, pattern) && FitAll(items, deep, Past(pattern, Print(item)))
    requires item.Quoted? && items != [] ==> !items[0].Quoted?
    ensures FitAll([item] + items, deep, pattern)
  {
    assert ([item] + items)[1..] == items;
  }

  lemma FitClassCons(item: Item, items: seq<Item>, deep: bool)
    requires FitsClass(item, deep) && FitClass(items, deep)
    requires item.Quoted? && items != [] ==> !items[0].Quoted?
    ensures FitClass([item] + items, deep)
  {
    assert ([item] + items)[1..] == items;
  }

  lemma Prepend(raw: string, i: nat, j: nat, k: nat, item: Item, items: seq<Item>)
    requires i <= j <= k <= |raw| && raw[i..j] == Print(item) && raw[j..k] == PrintAll(items)
    ensures raw[i..k] == PrintAll([item] + items)
    ensures item.Quoted? && items != [] && j < |raw| && raw[j] != '"' ==> !items[0].Quoted?
  {
    PrintCons(item, items);
    assert raw[i..k] == raw[i..j] + raw[j..k];
    if items != [] {
      assert raw[j..j + |PrintAll(items)|] == raw[j..k];
      StartsWithFirst(raw, j, items);
    }
  }

  /** A text in brackets, from the place of its parts. */
  lemma Bracketed(raw: string, i: nat, k: nat, inner: string)
    requires i < k < |raw| && raw[i + 1..k] == inner
    ensures raw[i..k + 1] == [raw[i]] + inner + [raw[k]]
  {
  }

  /** How reading a class ends: at its bracket, with the text, at a lone backslash that ends the
      text, or in an open quote. */
  ghost predicate ClassEnds(raw: string, deep: bool, items: seq<Item>, k: nat, quote: Option<string>) {
    && k <= |raw|
    && if quote.Some? then
         deep && !EndsQuoted(items) && k < |raw| && raw[k] == '"' && raw[k + 1..] == Doubled(quote.value)
       else k == |raw| || raw[k] == ']' || (raw[k] == '\\' && k + 1 == |raw|)
  }

  lemma EndsQuotedCons(item: Item, items: seq<Item>)
    ensures EndsQuoted([item] + items) <==> if items == [] then item.Quoted? else EndsQuoted(items)
  {
  }

  lemma {:induction false} ReadClass(raw: string, i: nat, deep: bool)
    returns (items: seq<Item>, k: nat, quote: Option<string>)
    requires i <= |raw|
    ensures i <= k <= |raw| && raw[i..k] == PrintAll(items) && FitClass(items, deep)
    ensures ClassEnds(raw, deep, items, k, quote)
    decreases |raw| - i
  {
    items, k, quote := [], i, None;
    if i == |raw| || raw[i] == ']' || (raw[i] == '\\' && i + 1 == |raw|) {
      return;
    }
    var item, j := Plain(raw[i]), i + 1;
    if raw[i] == '\\' {
      item, j := Pair(raw[i + 1]), i + 2;
    } else if raw[i] == '"' && deep {
      var content, close := ReadQuote(raw, i + 1);
      if close == |raw| {
        quote := Some(content);
        assert raw[i + 1..] == raw[i + 1..close];
        return;
      }
      Bracketed(raw, i, close, Doubled(content));
      item, j := Quoted(content), close + 1;
    }
    assert raw[i..j] == Print(item);
    items, k, quote := ReadClass(raw, j, deep);
    Prepend(raw, i, j, k, item, items);
    EndsQuotedCons(item, items);
    FitClassCons(item, items, deep);
    items := [item] + items;
  }

  /** How reading items ends: at what closes or separates them, with the text, at a lone backslash
      that ends the text, or cut short inside something. */
  ghost predicate ItemsEnd(raw: string, deep: bool, pattern: Pattern, items: seq<Item>, k: nat, cut: Option<Cut>) {
    && k <= |raw|
    && if cut.Some? then
         && !(EndsQuoted(items) && cut.value.InQuote?)
         && FitsCut(cut.value, deep, Past(pattern, PrintAll(items)))
         && CutText(raw, k, cut.value)
       else k == |raw| || raw[k] == (if deep then ')' else '|') || (raw[k] == '\\' && k + 1 == |raw|)
  }

  /** The text from `k` on is the open part, perhaps with a lone backslash at its end. */
  ghost predicate CutText(raw: string, k: nat, cut: Cut) {
    && k <= |raw|
    && (raw[k..] == PrintCut(cut) || (!QuoteIsOpen(cut) && raw[k..] == PrintCut(cut) + ['\\']))
  }

  lemma CutQuote(raw: string, i: nat, content: string)
    requires i < |raw| && raw[i] == '"' && raw[i + 1..] == Doubled(content)
    ensures CutText(raw, i, InQuote(content))
  {
    assert raw[i..] == [raw[i]] + raw[i + 1..];
  }

  lemma CutClass(raw: string, i: nat, deep: bool, items: seq<Item>, k: nat, quote: Option<string>)
    requires i < k <= |raw| && raw[i] == '[' && raw[i + 1..k] == PrintAll(items)
    requires ClassEnds(raw, deep, items, k, quote) && (k < |raw| ==> raw[k] != ']')
    ensures CutText(raw, i, InClass(items, quote))
  {
    assert raw[i..] == [raw[i]] + raw[i + 1..k] + raw[k..];
    if quote.Some? {
      assert raw[k..] == ['"'] + raw[k + 1..];
    } else if k == |raw| {
      assert raw[k..] == [];
    } else {
      assert raw[k..] == ['\\'];
    }
  }

  lemma CutGroup(raw: string, i: nat, items: seq<Item>, k: nat, cut: Option<Cut>)
    requires i < k <= |raw| && raw[i] == '(' && raw[i + 1..k] == PrintAll(items)
    requires if cut.Some? then CutText(raw, k, cut.value)
             else k == |raw| || (raw[k] == '\\' && k + 1 == |raw|)
    ensures CutText(raw, i, InGroup(items, cut))
  {
    assert raw[i..] == [raw[i]] + raw[i + 1..k] + raw[k..];
    if cut.Some? {
      Regroup([raw[i]], raw[i + 1..k], PrintCut(cut.value), ['\\']);
    } else if k < |raw| {
      assert raw[k..] == ['\\'];
    } else {
      assert raw[k..] == [];
    }
  }

  lemma Regroup(a: string, b: string, c: string, d: string)
    ensures a + b + (c + d) == (a + b + c) + d
  {
  }

  lemma CutQuoteStarts(raw: string, k: nat, cut: Cut)
    requires CutText(raw, k, cut) && cut.InQuote?
    ensures k < |raw| && raw[k] == '"'
  {
    assert raw[k..][0] == PrintCut(cut)[0];
  }

  /** One item in front of what was read after it. */
  lemma ReadOneMore(raw: string, deep: bool, pattern: Pattern, i: nat, j: nat, k: nat, item: Item, items: seq<Item>,
                    cut: Option<Cut>)
    requires i < j <= k <= |raw| && raw[i..j] == Print(item) && raw[j..k] == PrintAll(items)
    requires Fits(item, deep, pattern) && (item.Quoted? && j < |raw| ==> raw[j] != '"')
    requires FitAll(items, deep, Past(pattern, Print(item)))
    requires ItemsEnd(raw, deep, Past(pattern, Print(item)), items, k, cut)
    ensures raw[i..k] == PrintAll([item] + items) && FitAll([item] + items, deep, pattern)
    ensures ItemsEnd(raw, deep, pattern, [item] + items, k, cut)
  {
    Prepend(raw, i, j, k, item, items);
    if items != [] {
      StartsWithFirst(raw, j, items);
    }
    FitCons(item, items, deep, pattern);
    PrintCons(item, items);
    PastTwice(pattern, Print(item), PrintAll(items));
    EndsQuotedCons(item, items);
    if cut.Some? && cut.value.InQuote? {
      CutQuoteStarts(raw, k, cut.value);
    }
  }

  /** Any text, from anywhere, reads as items up to where something ends them or is cut short. */
  lemma {:induction false} ReadItems(raw: string, i: nat, deep: bool, pattern: Pattern)
    returns (items: seq<Item>, k: nat, cut: Option<Cut>)
    requires i <= |raw|
    ensures i <= k <= |raw| && raw[i..k] == PrintAll(items) && FitAll(items, deep, pattern)
    ensures ItemsEnd(raw, deep, pattern, items, k, cut)
    decreases |raw| - i, 2
  {
    items, k, cut := [], i, None;
    if i == |raw| || raw[i] == (if deep then ')' else '|') || (raw[i] == '\\' && i + 1 == |raw|) {
      return;
    }
    var item, j;
    item, j, cut := ReadOne(raw, i, deep, pattern);
    if cut.None? {
      items, k, cut := ReadItems(raw, j, deep, Past(pattern, Print(item)));
      ReadOneMore(raw, deep, pattern, i, j, k, item, items, cut);
      items := [item] + items;
    }
  }

  /** The next item, or what is cut short there. */
  lemma {:induction false} ReadOne(raw: string, i: nat, deep: bool, pattern: Pattern)
    returns (item: Item, j: nat, cut: Option<Cut>)
    requires i < |raw| && raw[i] != (if deep then ')' else '|') && !(raw[i] == '\\' && i + 1 == |raw|)
    ensures cut.None? ==> i < j <= |raw| && raw[i..j] == Print(item) && Fits(item, deep, pattern)
    ensures cut.None? && item.Quoted? && j < |raw| ==> raw[j] != '"'
    ensures cut.Some? ==> FitsCut(cut.value, deep, pattern) && CutText(raw, i, cut.value)
    decreases |raw| - i, 1
  {
    item, j, cut := Plain(raw[i]), i + 1, None;
    if raw[i] == '\\' {
      item, j := Pair(raw[i + 1]), i + 2;
      assert raw[i..j] == [raw[i], raw[i + 1]];
    } else if raw[i] == '"' && deep {
      var content, close := ReadQuote(raw, i + 1);
      if close == |raw| {
        assert raw[i + 1..] == raw[i + 1..close];
        CutQuote(raw, i, content);
        cut := Some(InQuote(content));
      } else {
        Bracketed(raw, i, close, Doubled(content));
        item, j := Quoted(content), close + 1;
      }
    } else if raw[i] == '[' && pattern != Never {
      item, j, cut := ReadWholeClass(raw, i, deep, pattern);
    } else if raw[i] == '(' && (deep || pattern != Never) {
      item, j, cut := ReadWholeGroup(raw, i, deep, pattern);
    } else {
      assert raw[i..j] == [raw[i]];
    }
  }

  lemma ReadWholeClass(raw: string, i: nat, deep: bool, pattern: Pattern)
    returns (item: Item, j: nat, cut: Option<Cut>)
    requires i < |raw| && raw[i] == '[' && pattern != Never
    ensures cut.None? ==> i < j <= |raw| && item.Class? && raw[i..j] == Print(item) && Fits(item, deep, pattern)
    ensures cut.Some? ==> FitsCut(cut.value, deep, pattern) && CutText(raw, i, cut.value)
  {
    var inner, close, quote := ReadClass(raw, i + 1, deep);
    item, j, cut := Class(inner), close + 1, None;
    if close < |raw| && raw[close] == ']' {
      Bracketed(raw, i, close, PrintAll(inner));
    } else {
      CutClass(raw, i, deep, inner, close, quote);
      cut := Some(InClass(inner, quote));
    }
  }

  lemma {:induction false} ReadWholeGroup(raw: string, i: nat, deep: bool, pattern: Pattern)
    returns (item: Item, j: nat, cut: Option<Cut>)
    requires i < |raw| && raw[i] == '('
    ensures cut.None? ==> i < j <= |raw| && item.Group? && raw[i..j] == Print(item)
                          && FitAll(item.items, true, Past(pattern, "("))
    ensures cut.Some? ==> cut.value.InGroup? && FitsInside(cut.value.items, cut.value.inner, Past(pattern, "("))
                          && CutText(raw, i, cut.value)
    decreases |raw| - i, 0
  {
    var inner, close, innerCut := ReadItems(raw, i + 1, true, Past(pattern, "("));
    item, j, cut := Group(inner), close + 1, None;
    if innerCut.None? && close < |raw| && raw[close] == ')' {
      Bracketed(raw, i, close, PrintAll(inner));
    } else {
      CutGroup(raw, i, inner, close, innerCut);
      cut := Some(InGroup(inner, innerCut));
    }
  }

  // ---- A cut text ends open ----------------------------------------------------------

  ghost predicate EndsOpen(stop: Stop) {
    stop.Finished? && stop.mode != NEUTRAL
  }

  /** The text ends here, or with a lone backslash. */
  predicate TextEnds(raw: string, k: nat) {
    k == |raw| || (k + 1 == |raw| && raw[k] == '\\')
  }

  lemma ScanTheEnd(scan: Scanner, raw: string, p: Prefix, k: nat, m: Mode)
    requires Scans(scan, raw, p) && TextEnds(raw, k) && (k == |raw| || !m.quoteOpen)
    ensures scan(k, m) == Finished(m)
  {
    if k < |raw| {
      TurnPair(scan, raw, p, k, m);
      assert Scan(raw, p, k + 2, m) == Finished(m);
    } else {
      assert Scan(raw, p, k, m) == Finished(m);
    }
  }

  lemma {:induction false} ScanOpenQuote(scan: Scanner, raw: string, p: Prefix, i: nat, content: string, m: Mode)
    requires Scans(scan, raw, p) && m.quoteOpen && i <= |raw| && raw[i..] == Doubled(content)
    ensures scan(i, m) == Finished(m)
    decreases |content|
  {
    if content == [] {
      ScanTheEnd(scan, raw, p, i, m);
    } else {
      var n := if content[0] == '"' then 2 else 1;
      assert raw[i] == raw[i..][0] && (n == 2 ==> raw[i + 1] == raw[i..][1]);
      assert raw[i + n..] == raw[i..][n..] == Doubled(content[1..]);
      TurnInQuote(scan, raw, p, i, m);
      ScanOpenQuote(scan, raw, p, i + n, content[1..], m);
    }
  }

  /** What follows a first part of the text. */
  lemma Follows(raw: string, k: nat, first: string, rest: string)
    requires k <= |raw| && raw[k..] == first + rest
    ensures At(raw, k, first) && k + |first| <= |raw| && raw[k + |first|..] == rest
  {
    assert raw[k..k + |first|] == raw[k..][..|first|];
    assert raw[k + |first|..] == raw[k..][|first|..];
  }

  function Tail(dangling: bool): string {
    if dangling then ['\\'] else []
  }

  lemma TailEnds(raw: string, k: nat, dangling: bool)
    requires k <= |raw| && raw[k..] == Tail(dangling)
    ensures TextEnds(raw, k)
  {
    if dangling {
      assert raw[k..][0] == raw[k];
    }
  }

  lemma ScanOpenClass(scan: Scanner, raw: string, p: Prefix, i: nat, items: seq<Item>, quote: Option<string>,
                      depth: nat, dangling: bool)
    requires Scans(scan, raw, p) && FitClass(items, depth > 0) && i <= |raw|
    requires quote.Some? ==> depth > 0 && !EndsQuoted(items) && !dangling
    requires raw[i..] == PrintAll(items) + (if quote.Some? then ['"'] + Doubled(quote.value) else Tail(dangling))
    ensures EndsOpen(scan(i, Mode(false, depth, true)))
  {
    var m, k := Mode(false, depth, true), i + |PrintAll(items)|;
    var rest := if quote.Some? then ['"'] + Doubled(quote.value) else Tail(dangling);
    Follows(raw, i, PrintAll(items), rest);
    if k < |raw| {
      assert raw[k] == raw[k..][0];
    }
    ScanClass(scan, raw, p, i, items, m);
    if quote.Some? {
      QuoteStaysOpen(scan, raw, p, k, quote.value, m);
    } else {
      TailEnds(raw, k, dangling);
      ScanTheEnd(scan, raw, p, k, m);
    }
  }

  lemma QuoteStaysOpen(scan: Scanner, raw: string, p: Prefix, k: nat, content: string, m: Mode)
    requires Scans(scan, raw, p) && !m.quoteOpen && m.parentheses > 0
    requires k <= |raw| && raw[k..] == ['"'] + Doubled(content)
    ensures EndsOpen(scan(k, m))
  {
    assert raw[k] == raw[k..][0];
    assert raw[k + 1..] == raw[k..][1..] == Doubled(content);
    OpensQuote(scan, raw, p, k, m);
    ScanOpenQuote(scan, raw, p, k + 1, content, m.(quoteOpen := true));
  }

  ghost predicate CutFrom(raw: string, k: nat, cut: Cut, dangling: bool) {
    k <= |raw| && raw[k..] == PrintCut(cut) + Tail(dangling) && (QuoteIsOpen(cut) ==> !dangling)
  }

  lemma {:induction false} ScanCut(scan: Scanner, raw: string, p: Prefix, i: nat, cut: Cut, depth: nat,
                                   pattern: Pattern, dangling: bool)
    requires Scans(scan, raw, p) && Agrees(raw, p, i, pattern) && FitsCut(cut, depth > 0, pattern)
    requires CutFrom(raw, i, cut, dangling)
    ensures EndsOpen(scan(i, Level(depth)))
    decreases cut, 1
  {
    var text := PrintCut(cut) + Tail(dangling);
    assert raw[i] == text[0] && raw[i + 1..] == raw[i..][1..] == text[1..];
    match cut
    case InQuote(content) =>
      assert text[1..] == Doubled(content);
      OpensQuote(scan, raw, p, i, Level(depth));
      ScanOpenQuote(scan, raw, p, i + 1, content, Level(depth).(quoteOpen := true));
    case InClass(items, quote) =>
      var rest := if quote.Some? then ['"'] + Doubled(quote.value) else Tail(dangling);
      assert text[1..] == PrintAll(items) + rest;
      OpensClass(scan, raw, p, i, depth, pattern);
      ScanOpenClass(scan, raw, p, i + 1, items, quote, depth, dangling);
    case InGroup(items, inner) =>
      InsideOf(items, inner, dangling);
      OpensGroup(scan, raw, p, i, depth, pattern);
      ScanInside(scan, raw, p, i + 1, items, inner, depth + 1, Past(pattern, "("), dangling);
  }

  function Inner(inner: Option<Cut>): string {
    if inner.Some? then PrintCut(inner.value) else []
  }

  lemma InsideOf(items: seq<Item>, inner: Option<Cut>, dangling: bool)
    ensures (PrintCut(InGroup(items, inner)) + Tail(dangling))[1..] == PrintAll(items) + (Inner(inner) + Tail(dangling))
  {
    AfterFirst('(', PrintAll(items), Inner(inner), Tail(dangling));
  }

  lemma AfterFirst(a: char, b: string, c: string, d: string)
    ensures (([a] + b + c) + d)[1..] == b + (c + d)
  {
    assert ([a] + b + c) + d == [a] + (b + (c + d));
  }

  /** From inside an open parenthesis to the end of the text. */
  lemma {:induction false} ScanInside(scan: Scanner, raw: string, p: Prefix, i: nat, items: seq<Item>,
                                      inner: Option<Cut>, depth: nat, pattern: Pattern, dangling: bool)
    requires Scans(scan, raw, p) && Agrees(raw, p, i, pattern) && depth > 0 && FitsInside(items, inner, pattern)
    requires raw[i..] == PrintAll(items) + (Inner(inner) + Tail(dangling))
    requires inner.Some? && QuoteIsOpen(inner.value) ==> !dangling
    ensures EndsOpen(scan(i, Level(depth)))
    decreases inner, 2
  {
    var k := i + |PrintAll(items)|;
    Follows(raw, i, PrintAll(items), Inner(inner) + Tail(dangling));
    if EndsQuoted(items) && k < |raw| {
      assert raw[k] == raw[k..][0];
      NoQuoteNext(inner, dangling);
    }
    ScanItems(scan, raw, p, i, items, depth, pattern);
    AgreesLater(raw, p, i, pattern, PrintAll(items));
    if inner.Some? {
      ScanCut(scan, raw, p, k, inner.value, depth, Past(pattern, PrintAll(items)), dangling);
    } else {
      assert Inner(inner) + Tail(dangling) == Tail(dangling);
      TailEnds(raw, k, dangling);
      ScanTheEnd(scan, raw, p, k, Level(depth));
    }
  }

  lemma NoQuoteNext(inner: Option<Cut>, dangling: bool)
    requires inner.Some? ==> !inner.value.InQuote?
    ensures var text := Inner(inner) + Tail(dangling); text != [] ==> text[0] != '"'
  {
  }

  // ---- Steps -------------------------------------------------------------------------

  /** How a step begins: with nothing particular, with `extract:` or `regex:`, or as a call. */
  datatype Head = Bare | Extract | Regex | Called(name: string, gap: string)

  /** A step as written. The last step of a pipeline may be cut short, or end in a lone backslash. */
  datatype Step = Step(lead: string, head: Head, items: seq<Item>, cut: Option<Cut>, dangling: bool)

  function HeadText(head: Head): string {
    match head
    case Bare => ""
    case Extract => "extract:"
    case Regex => "regex:"
    case Called(name, gap) => name + gap
  }

  function PatternOf(head: Head): Pattern {
    match head
    case Extract => Always
    case Regex => UntilColon
    case _ => Never
  }

  function StepText(step: Step): string {
    step.lead + HeadText(step.head) + PrintAll(step.items) + (Inner(step.cut) + Tail(step.dangling))
  }

  predicate All(p: char -> bool, s: string) {
    forall i :: 0 <= i < |s| ==> p(s[i])
  }

  /** The text begins as one of the other heads does. */
  ghost predicate Headed(cls: Classes, t: string) {
    exists k: nat :: HeadedAt(cls, t, k)
  }

  ghost predicate HeadedAt(cls: Classes, t: string, k: nat) {
    && k <= |t| && All(cls.space, t[..k])
    && (At(t, k, "extract:") || At(t, k, "regex:") || exists j: nat, l: nat :: CallAt(cls, t, k, j, l))
  }

  /** A word from `k` to `j`, spaces to `l`, and an opening parenthesis. */
  predicate CallAt(cls: Classes, t: string, k: nat, j: nat, l: nat) {
    k < j <= l < |t| && All(cls.word, t[k..j]) && All(cls.space, t[j..l]) && t[l] == '('
  }

  predicate Complete(step: Step) {
    step.cut.None? && !step.dangling
  }

  /** A call's first item is its argument list; a call cut short inside that has no other. */
  ghost predicate FitStep(cls: Classes, step: Step) {
    && All(cls.space, step.lead)
    && (step.cut.Some? && QuoteIsOpen(step.cut.value) ==> !step.dangling)
    && match step.head
       case Called(name, gap) =>
         && name != "" && All(cls.word, name) && All(cls.space, gap)
         && if step.items == [] then
              step.cut.Some? && step.cut.value.InGroup? && FitsInside(step.cut.value.items, step.cut.value.inner, Never)
            else
              && step.items[0].Group? && FitAll(step.items[0].items, true, Never)
              && FitAll(step.items[1..], false, Never) && (step.cut.Some? ==> FitsCut(step.cut.value, false, Never))
       case _ =>
         && FitAll(step.items, false, PatternOf(step.head))
         && (step.cut.Some? ==> FitsCut(step.cut.value, false, Past(PatternOf(step.head), PrintAll(step.items))))
         && (step.head.Bare? ==> !Headed(cls, StepText(step)))
  }

  // ---- What the scanner makes of a head ----------------------------------------------

  /** The step's text stands at `start` and ends at `e`, where a pipe follows or the text ends. */
  ghost predicate Stands(raw: string, start: nat, t: string, e: nat) {
    start <= e <= |raw| && raw[start..e] == t && (e < |raw| ==> raw[e] == '|')
  }

  lemma SkipTo(p: char -> bool, s: string, i: nat, j: nat)
    requires i <= j <= |s| && (forall k :: i <= k < j ==> p(s[k])) && (j < |s| ==> !p(s[j]))
    ensures Skip(p, s, i) == j
  {
    SkipIs(p, s, i, j);
  }

  lemma PlainHeads(cls: Classes, raw: string, i: nat, j: nat, k: nat, t: string)
    requires cls.Valid() && (t == "extract:" || t == "regex:")
    requires CallAt(cls, raw, i, j, k)
    ensures !At(raw, i, t)
  {
    var n := |t| - 1;
    var x := if j - i > n then n else j - i;
    if j - i > n {
      assert cls.word(raw[i..j][n]);
      assert t[n] == ':';
    } else {
      assert j < k ==> cls.space(raw[j..k][0]);
      assert x < n ==> t[x] in "extractregex";
      assert x == n ==> t[x] == ':';
    }
    assert raw[i + x] != t[x];
    if i + |t| <= |raw| {
      assert raw[i..i + |t|][x] == raw[i + x];
    }
  }

  /** A call's prefix ends with its parenthesis. */
  lemma ClassifyCall(cls: Classes, raw: string, start: nat, i: nat, j: nat, k: nat)
    requires cls.Valid() && start <= i && CallAt(cls, raw, i, j, k) && forall x :: start <= x < i ==> cls.space(raw[x])
    ensures Classify(cls, raw, start) == Prefix(k + 1, -1)
  {
    assert cls.word(raw[i..j][0]);
    SkipTo(cls.space, raw, start, i);
    PlainHeads(cls, raw, i, j, k, "extract:");
    PlainHeads(cls, raw, i, j, k, "regex:");
    assert forall x :: i <= x < j ==> raw[x] == raw[i..j][x - i];
    assert forall x :: j <= x < k ==> raw[x] == raw[j..k][x - j];
    SkipTo(cls.word, raw, i, j);
    SkipTo(cls.space, raw, j, k);
  }

  lemma ClassifyPattern(cls: Classes, raw: string, start: nat, i: nat, head: Head)
    requires cls.Valid() && start <= i <= |raw| && forall x :: start <= x < i ==> cls.space(raw[x])
    requires (head.Extract? || head.Regex?) && At(raw, i, HeadText(head))
    ensures Agrees(raw, Classify(cls, raw, start), i + |HeadText(head)|, PatternOf(head))
  {
    var t := HeadText(head);
    assert raw[i] == raw[i..i + |t|][0] == t[0];
    assert t[0] in "extractregex";
    SkipTo(cls.space, raw, start, i);
    if head.Regex? && i + 8 <= |raw| {
      assert raw[i..i + 8][0] == raw[i] == 'r';
    }
  }

  lemma CallWithinStep(cls: Classes, raw: string, start: nat, t: string, e: nat, i: nat, j: nat, l: nat)
    requires cls.Valid() && Stands(raw, start, t, e) && start <= i <= e && CallAt(cls, raw, i, j, l)
    ensures CallAt(cls, t, i - start, j - start, l - start)
  {
    assert forall x :: i <= x < j ==> raw[x] == raw[i..j][x - i];
    assert forall x :: j <= x < l ==> raw[x] == raw[j..l][x - j];
    assert l < e;
    SliceOfSlice(raw, start, e, i, j);
    SliceOfSlice(raw, start, e, j, l);
  }

  /** Without another head there is no prefix. */
  lemma ClassifyBare(cls: Classes, raw: string, start: nat, t: string, e: nat)
    requires cls.Valid() && Stands(raw, start, t, e) && !Headed(cls, t)
    ensures Classify(cls, raw, start) == Prefix(-1, -1)
  {
    var i := Skip(cls.space, raw, start);
    var k := i - start;
    if Classify(cls, raw, start) != Prefix(-1, -1) {
      SpacesWithin(cls, raw, start, t, e, i);
      if At(raw, i, "extract:") {
        WithinStep(raw, start, t, e, i, "extract:");
      } else if At(raw, i, "regex:") {
        WithinStep(raw, start, t, e, i, "regex:");
      } else {
        var j := Skip(cls.word, raw, i);
        var l := Skip(cls.space, raw, j);
        CallWithinStep(cls, raw, start, t, e, i, j, l);
      }
      assert HeadedAt(cls, t, k);
      assert false;
    }
  }

  lemma SpacesWithin(cls: Classes, raw: string, start: nat, t: string, e: nat, i: nat)
    requires cls.Valid() && Stands(raw, start, t, e) && start <= i <= |raw|
    requires forall x :: start <= x < i ==> cls.space(raw[x])
    ensures i <= e && i - start <= |t| && All(cls.space, t[..i - start])
  {
    assert forall x :: start <= x < e ==> raw[x] == t[x - start];
  }

  lemma WithinStep(raw: string, start: nat, t: string, e: nat, i: nat, word: string)
    requires Stands(raw, start, t, e) && start <= i <= e && At(raw, i, word) && '|' !in word
    ensures At(t, i - start, word)
  {
    assert forall x :: 0 <= x < |word| ==> word[x] == raw[i + x];
    if i + |word| > e {
      assert false;
    }
    SliceOfSlice(raw, start, e, i, i + |word|);
  }

  // ---- A step is scanned whole -------------------------------------------------------

  predicate Ordinary(c: char) {
    c != '\\' && c != '"' && c != '[' && c != ']' && c != '(' && c != ')' && c != '|'
  }

  lemma {:induction false} ScanOrdinary(scan: Scanner, raw: string, p: Prefix, i: nat, t: string)
    requires Scans(scan, raw, p) && At(raw, i, t) && All(Ordinary, t)
    ensures scan(i, NEUTRAL) == scan(i + |t|, NEUTRAL)
    decreases |t|
  {
    if t != [] {
      assert t == [t[0]] + t[1..];
      AtParts(raw, i, [t[0]], t[1..]);
      AtChar(raw, i, t[0]);
      OneTurn(scan, raw, p, i, NEUTRAL, 1, NEUTRAL);
      ScanOrdinary(scan, raw, p, i + 1, t[1..]);
    }
  }

  lemma HeadIsOrdinary(cls: Classes, step: Step)
    requires cls.Valid() && FitStep(cls, step)
    ensures All(Ordinary, step.lead) && All(Ordinary, HeadText(step.head))
  {
  }

  lemma {:induction false} NoQuotedOutside(items: seq<Item>, pattern: Pattern)
    requires FitAll(items, false, pattern)
    ensures !EndsQuoted(items)
    decreases |items|
  {
    if |items| > 1 {
      NoQuotedOutside(items[1..], Past(pattern, Print(items[0])));
      assert items[1..][|items| - 2] == items[|items| - 1];
    }
  }

  /** Where the parts of a step stand. */
  lemma PartsStand(raw: string, start: nat, e: nat, a: string, b: string, c: string, d: string)
    requires start <= e <= |raw| && raw[start..e] == a + b + c + d
    ensures At(raw, start, a) && At(raw, start + |a|, b) && At(raw, start + |a| + |b|, c)
    ensures start + |a| + |b| + |c| + |d| == e && raw[start + |a| + |b| + |c|..e] == d
  {
    assert At(raw, start, a + b + c + d);
    AtParts(raw, start, a + b + c, d);
    AtParts(raw, start, a + b, c);
    AtParts(raw, start, a, b);
  }

  /** What the scan of a step comes to: the pipe after it, the end of the text, or an open end. */
  ghost predicate StopsWith(stop: Stop, raw: string, e: nat, cut: Option<Cut>) {
    if cut.Some? then EndsOpen(stop)
    else stop == if e < |raw| then Pipe(e) else Finished(NEUTRAL)
  }

  /** The end of a step, after its items. */
  lemma ScanEnding(scan: Scanner, raw: string, p: Prefix, k: nat, e: nat, cut: Option<Cut>, pattern: Pattern,
                   dangling: bool)
    requires Scans(scan, raw, p) && Agrees(raw, p, k, pattern) && (cut.Some? ==> FitsCut(cut.value, false, pattern))
    requires k <= e <= |raw| && raw[k..e] == Inner(cut) + Tail(dangling) && (e < |raw| ==> raw[e] == '|')
    requires cut.Some? || dangling ==> e == |raw|
    requires cut.Some? && QuoteIsOpen(cut.value) ==> !dangling
    ensures StopsWith(scan(k, NEUTRAL), raw, e, cut)
  {
    if cut.Some? {
      assert raw[k..] == raw[k..e];
      ScanCut(scan, raw, p, k, cut.value, 0, pattern, dangling);
    } else if e < |raw| {
      assert Scan(raw, p, e, NEUTRAL) == Pipe(e);
    } else {
      assert raw[k..] == raw[k..e] == Tail(dangling);
      TailEnds(raw, k, dangling);
      ScanTheEnd(scan, raw, p, k, NEUTRAL);
    }
  }

  /** Items outside parentheses, to the end of their step. */
  lemma ScanRest(scan: Scanner, raw: string, p: Prefix, i: nat, items: seq<Item>, e: nat, cut: Option<Cut>,
                 pattern: Pattern, dangling: bool)
    requires Scans(scan, raw, p) && Agrees(raw, p, i, pattern) && FitAll(items, false, pattern)
    requires cut.Some? ==> FitsCut(cut.value, false, Past(pattern, PrintAll(items)))
    requires At(raw, i, PrintAll(items)) && i + |PrintAll(items)| <= e <= |raw| && (e < |raw| ==> raw[e] == '|')
    requires raw[i + |PrintAll(items)|..e] == Inner(cut) + Tail(dangling)
    requires cut.Some? || dangling ==> e == |raw|
    requires cut.Some? && QuoteIsOpen(cut.value) ==> !dangling
    ensures StopsWith(scan(i, NEUTRAL), raw, e, cut)
  {
    NoQuotedOutside(items, pattern);
    ScanItems(scan, raw, p, i, items, 0, pattern);
    AgreesLater(raw, p, i, pattern, PrintAll(items));
    ScanEnding(scan, raw, p, i + |PrintAll(items)|, e, cut, Past(pattern, PrintAll(items)), dangling);
  }

  lemma OpensCall(scan: Scanner, raw: string, p: Prefix, i: nat)
    requires Scans(scan, raw, p) && i < |raw| && raw[i] == '(' && p == Prefix(i + 1, -1)
    ensures scan(i, NEUTRAL) == scan(i + 1, Level(1)) && Agrees(raw, p, i + 1, Never)
  {
    OneTurn(scan, raw, p, i, NEUTRAL, 1, Level(1));
  }

  ghost predicate StepStands(cls: Classes, raw: string, start: nat, step: Step, e: nat) {
    && cls.Valid() && FitStep(cls, step) && Stands(raw, start, StepText(step), e)
    && (!Complete(step) ==> e == |raw|)
  }

  /** The scanner passes what stands before a step's items. */
  lemma HeadPasses(scan: Scanner, p: Prefix, raw: string, start: nat, lead: string, head: string)
    requires Scans(scan, raw, p) && All(Ordinary, lead) && All(Ordinary, head)
    requires At(raw, start, lead) && At(raw, start + |lead|, head)
    ensures scan(start, NEUTRAL) == scan(start + |lead| + |head|, NEUTRAL)
  {
    ScanOrdinary(scan, raw, p, start, lead);
    ScanOrdinary(scan, raw, p, start + |lead|, head);
  }

  lemma PlainPartsStop(scan: Scanner, p: Prefix, raw: string, start: nat, lead: string, head: string,
                       items: seq<Item>, cut: Option<Cut>, pattern: Pattern, dangling: bool, e: nat)
    requires Scans(scan, raw, p) && All(Ordinary, lead) && All(Ordinary, head)
    requires Agrees(raw, p, start + |lead| + |head|, pattern) && FitAll(items, false, pattern)
    requires cut.Some? ==> FitsCut(cut.value, false, Past(pattern, PrintAll(items)))
    requires cut.Some? && QuoteIsOpen(cut.value) ==> !dangling
    requires cut.Some? || dangling ==> e == |raw|
    requires start <= e <= |raw| && raw[start..e] == lead + head + PrintAll(items) + (Inner(cut) + Tail(dangling))
    requires e < |raw| ==> raw[e] == '|'
    ensures StopsWith(scan(start, NEUTRAL), raw, e, cut)
  {
    PartsStand(raw, start, e, lead, head, PrintAll(items), Inner(cut) + Tail(dangling));
    HeadPasses(scan, p, raw, start, lead, head);
    ScanRest(scan, raw, p, start + |lead| + |head|, items, e, cut, pattern, dangling);
  }

  lemma PlainStepStops(scan: Scanner, p: Prefix, cls: Classes, raw: string, start: nat, step: Step, e: nat, h: nat)
    requires StepStands(cls, raw, start, step, e) && !step.head.Called? && Scans(scan, raw, p)
    requires h == start + |step.lead| + |HeadText(step.head)| && Agrees(raw, p, h, PatternOf(step.head))
    ensures StopsWith(scan(start, NEUTRAL), raw, e, step.cut)
  {
    HeadIsOrdinary(cls, step);
    PlainPartsStop(scan, p, raw, start, step.lead, HeadText(step.head), step.items, step.cut, PatternOf(step.head),
                   step.dangling, e);
  }

  lemma LeadIsSpace(cls: Classes, raw: string, start: nat, lead: string)
    requires At(raw, start, lead) && All(cls.space, lead)
    ensures forall x :: start <= x < start + |lead| ==> cls.space(raw[x])
  {
    assert forall x :: start <= x < start + |lead| ==> raw[x] == lead[x - start];
  }

  lemma CutCallOpens(step: Step)
    requires step.cut.Some? && step.cut.value.InGroup?
    ensures Inner(step.cut) != [] && (Inner(step.cut) + Tail(step.dangling))[0] == '('
  {
  }

  /** A call's head, from its place. */
  lemma CallStands(cls: Classes, raw: string, start: nat, step: Step, e: nat)
    requires StepStands(cls, raw, start, step, e) && step.head.Called?
    ensures var h := start + |step.lead| + |HeadText(step.head)|;
            && h < |raw| && raw[h] == '('
            && At(raw, start, step.lead) && At(raw, start + |step.lead|, HeadText(step.head))
            && At(raw, h, PrintAll(step.items)) && h + |PrintAll(step.items)| <= e
            && raw[h + |PrintAll(step.items)|..e] == Inner(step.cut) + Tail(step.dangling)
  {
    var h := start + |step.lead| + |HeadText(step.head)|;
    var rest := Inner(step.cut) + Tail(step.dangling);
    PartsStand(raw, start, e, step.lead, HeadText(step.head), PrintAll(step.items), rest);
    if step.items == [] {
      CutCallOpens(step);
      assert raw[h] == raw[h..e][0];
    } else {
      StartsWithFirst(raw, h, step.items);
    }
  }

  lemma CallPrefix(cls: Classes, raw: string, start: nat, lead: string, name: string, gap: string)
    requires cls.Valid() && All(cls.space, lead) && name != "" && All(cls.word, name) && All(cls.space, gap)
    requires At(raw, start, lead) && At(raw, start + |lead|, name + gap)
    requires var h := start + |lead| + |name + gap|; h < |raw| && raw[h] == '('
    ensures Classify(cls, raw, start) == Prefix(start + |lead| + |name + gap| + 1, -1)
  {
    var i := start + |lead|;
    AtParts(raw, i, name, gap);
    LeadIsSpace(cls, raw, start, lead);
    ClassifyCall(cls, raw, start, i, i + |name|, i + |name| + |gap|);
  }

  lemma OpenCallRest(raw: string, h: nat, e: nat, step: Step)
    requires step.items == [] && step.cut.Some? && h <= e == |raw|
    requires raw[h + |PrintAll(step.items)|..e] == Inner(step.cut) + Tail(step.dangling)
    ensures raw[h..] == PrintCut(step.cut.value) + Tail(step.dangling)
  {
    assert raw[h..] == raw[h..e];
  }

  lemma CallStepStops(scan: Scanner, p: Prefix, cls: Classes, raw: string, start: nat, step: Step, e: nat, h: nat)
    requires StepStands(cls, raw, start, step, e) && step.head.Called? && Scans(scan, raw, p)
    requires h == start + |step.lead| + |HeadText(step.head)| && p == Prefix(h + 1, -1)
    ensures StopsWith(scan(start, NEUTRAL), raw, e, step.cut)
  {
    CallStands(cls, raw, start, step, e);
    HeadIsOrdinary(cls, step);
    HeadPasses(scan, p, raw, start, step.lead, HeadText(step.head));
    OpensCall(scan, raw, p, h);
    if step.items == [] {
      OpenCallRest(raw, h, e, step);
      ScanOpenCall(scan, raw, p, h, step.cut.value, step.dangling);
    } else {
      ScanArguments(scan, raw, p, h, step.items, e, step.cut, step.dangling);
    }
  }

  /** A call cut short inside its arguments. */
  lemma ScanOpenCall(scan: Scanner, raw: string, p: Prefix, h: nat, cut: Cut, dangling: bool)
    requires Scans(scan, raw, p) && Agrees(raw, p, h + 1, Never) && scan(h, NEUTRAL) == scan(h + 1, Level(1))
    requires cut.InGroup? && FitsInside(cut.items, cut.inner, Never) && (QuoteIsOpen(cut) ==> !dangling)
    requires raw[h..] == PrintCut(cut) + Tail(dangling)
    ensures EndsOpen(scan(h, NEUTRAL))
  {
    InsideOf(cut.items, cut.inner, dangling);
    assert raw[h + 1..] == raw[h..][1..];
    ScanInside(scan, raw, p, h + 1, cut.items, cut.inner, 1, Never, dangling);
  }

  /** The arguments of a call, and what follows them. */
  lemma ScanArguments(scan: Scanner, raw: string, p: Prefix, h: nat, items: seq<Item>, e: nat, cut: Option<Cut>,
                      dangling: bool)
    requires Scans(scan, raw, p) && items != [] && items[0].Group? && Agrees(raw, p, h + 1, Never)
    requires scan(h, NEUTRAL) == scan(h + 1, Level(1))
    requires FitAll(items[0].items, true, Never) && FitAll(items[1..], false, Never)
    requires cut.Some? ==> FitsCut(cut.value, false, Never)
    requires At(raw, h, PrintAll(items)) && h + |PrintAll(items)| <= e <= |raw| && (e < |raw| ==> raw[e] == '|')
    requires raw[h + |PrintAll(items)|..e] == Inner(cut) + Tail(dangling)
    requires cut.Some? || dangling ==> e == |raw|
    requires cut.Some? && QuoteIsOpen(cut.value) ==> !dangling
    ensures StopsWith(scan(h, NEUTRAL), raw, e, cut)
  {
    var k := h + |Print(items[0])|;
    AtParts(raw, h, Print(items[0]), PrintAll(items[1..]));
    ArgumentsPass(scan, raw, p, h, items[0].items);
    ScanRest(scan, raw, p, k, items[1..], e, cut, Never, dangling);
  }

  lemma ArgumentsPass(scan: Scanner, raw: string, p: Prefix, h: nat, inner: seq<Item>)
    requires Scans(scan, raw, p) && Agrees(raw, p, h + 1, Never) && FitAll(inner, true, Never)
    requires scan(h, NEUTRAL) == scan(h + 1, Level(1)) && At(raw, h, Print(Group(inner)))
    ensures var k := h + |Print(Group(inner))|; scan(h, NEUTRAL) == scan(k, NEUTRAL) && Agrees(raw, p, k, Never)
  {
    Enclosed(raw, h, '(', PrintAll(inner), ')');
    ScanItems(scan, raw, p, h + 1, inner, 1, Never);
    ClosesGroup(scan, raw, p, h + 1 + |PrintAll(inner)|, 0);
  }

  function ScannerOf(raw: string, p: Prefix): Scanner {
    (i: nat, m: Mode) => Scan(raw, p, i, m)
  }

  lemma ScannerScans(raw: string, p: Prefix)
    ensures Scans(ScannerOf(raw, p), raw, p)
  {
  }

  lemma PlainAgrees(cls: Classes, raw: string, start: nat, step: Step, e: nat)
    requires StepStands(cls, raw, start, step, e) && !step.head.Called?
    ensures Agrees(raw, Classify(cls, raw, start), start + |step.lead| + |HeadText(step.head)|, PatternOf(step.head))
  {
    PartsStand(raw, start, e, step.lead, HeadText(step.head), PrintAll(step.items),
               Inner(step.cut) + Tail(step.dangling));
    if step.head.Bare? {
      ClassifyBare(cls, raw, start, StepText(step), e);
    } else {
      LeadIsSpace(cls, raw, start, step.lead);
      ClassifyPattern(cls, raw, start, start + |step.lead|, step.head);
    }
  }

  lemma CallAgrees(cls: Classes, raw: string, start: nat, step: Step, e: nat)
    requires StepStands(cls, raw, start, step, e) && step.head.Called?
    ensures Classify(cls, raw, start) == Prefix(start + |step.lead| + |HeadText(step.head)| + 1, -1)
  {
    CallStands(cls, raw, start, step, e);
    CallPrefix(cls, raw, start, step.lead, step.head.name, step.head.gap);
  }

  /** The scanner takes a step for what it is. */
  lemma StepStops(cls: Classes, raw: string, start: nat, step: Step, e: nat)
    requires StepStands(cls, raw, start, step, e)
    ensures StopsWith(ScanStep(cls, raw, start), raw, e, step.cut)
  {
    var p := Classify(cls, raw, start);
    var h := start + |step.lead| + |HeadText(step.head)|;
    ScannerScans(raw, p);
    if step.head.Called? {
      CallAgrees(cls, raw, start, step, e);
      CallStepStops(ScannerOf(raw, p), p, cls, raw, start, step, e, h);
    } else {
      PlainAgrees(cls, raw, start, step, e);
      PlainStepStops(ScannerOf(raw, p), p, cls, raw, start, step, e, h);
    }
  }

  // ---- Pipelines ---------------------------------------------------------------------

  /** Steps in a row; only the last may be cut short or end in a lone backslash. */
  ghost predicate FitSteps(cls: Classes, steps: seq<Step>) {
    && steps != []
    && (forall i :: 0 <= i < |steps| ==> FitStep(cls, steps[i]))
    && (forall i :: 0 <= i < |steps| - 1 ==> Complete(steps[i]))
  }

  function StepTexts(steps: seq<Step>): (texts: seq<string>)
    ensures |texts| == |steps| && forall i :: 0 <= i < |steps| ==> texts[i] == StepText(steps[i])
  {
    seq(|steps|, i requires 0 <= i < |steps| => StepText(steps[i]))
  }

  /** Texts joined with pipes. */
  function Joined(texts: seq<string>): string
    requires texts != []
  {
    if |texts| == 1 then texts[0] else texts[0] + ['|'] + Joined(texts[1..])
  }

  /** The steps joined with pipes. */
  function PipelineText(steps: seq<Step>): string
    requires steps != []
  {
    Joined(StepTexts(steps))
  }

  predicate CutOff(steps: seq<Step>)
    requires steps != []
  {
    steps[|steps| - 1].cut.Some?
  }

  /** `stops` tells how the scan of a step that begins anywhere ends. */
  ghost predicate Knows(cls: Classes, raw: string, stops: seq<Stop>) {
    && AreStops(raw, stops)
    && forall s {:trigger ScanStep(cls, raw, s)} :: 0 <= s <= |raw| ==> stops[s] == ScanStep(cls, raw, s)
  }

  /** Wherever this text stands as a step, the scan stops after it, or ends open. */
  ghost predicate Recognised(raw: string, stops: seq<Stop>, text: string, last: bool, cut: bool)
    requires AreStops(raw, stops)
  {
    forall start: nat, e: nat {:trigger Stands(raw, start, text, e)} ::
      Stands(raw, start, text, e) && (last ==> e == |raw|) ==>
        if cut then EndsOpen(stops[start]) else stops[start] == if e < |raw| then Pipe(e) else Finished(NEUTRAL)
  }

  lemma StepRecognised(cls: Classes, raw: string, stops: seq<Stop>, step: Step, last: bool)
    requires cls.Valid() && Knows(cls, raw, stops) && FitStep(cls, step) && (last || Complete(step))
    ensures Recognised(raw, stops, StepText(step), last, step.cut.Some?)
  {
    var t := StepText(step);
    forall start: nat, e: nat | Stands(raw, start, t, e) && (last ==> e == |raw|)
      ensures if step.cut.Some? then EndsOpen(stops[start])
              else stops[start] == if e < |raw| then Pipe(e) else Finished(NEUTRAL)
    {
      StepStops(cls, raw, start, step, e);
    }
  }

  /** The texts stand one after another, and the scan stops at the pipe after each. */
  ghost predicate Lie(raw: string, stops: seq<Stop>, start: nat, texts: seq<string>, cut: bool)
    requires AreStops(raw, stops)
    decreases |texts|
  {
    && texts != [] && start <= |raw|
    && if |texts| == 1 then
         if cut then EndsOpen(stops[start]) else stops[start] == Finished(NEUTRAL) && raw[start..] == texts[0]
       else
         var e := start + |texts[0]|;
         && e < |raw| && raw[start..e] == texts[0] && stops[start] == Pipe(e)
         && Lie(raw, stops, e + 1, texts[1..], cut)
  }

  lemma {:induction false} PiecesOfTexts(raw: string, stops: seq<Stop>, start: nat, texts: seq<string>, cut: bool)
    requires AreStops(raw, stops) && Lie(raw, stops, start, texts, cut)
    ensures PiecesFrom(raw, stops, start) == if cut then None else Some(texts)
    decreases |texts|
  {
    if |texts| == 1 {
      assert texts == [texts[0]];
    } else {
      PiecesOfTexts(raw, stops, start + |texts[0]| + 1, texts[1..], cut);
      assert texts == [texts[0]] + texts[1..];
    }
  }

  ghost predicate AllRecognised(raw: string, stops: seq<Stop>, texts: seq<string>, cut: bool)
    requires AreStops(raw, stops)
  {
    forall i :: 0 <= i < |texts| ==> Recognised(raw, stops, texts[i], i == |texts| - 1, cut && i == |texts| - 1)
  }

  lemma FirstText(raw: string, start: nat, texts: seq<string>)
    requires |texts| > 1 && start <= |raw| && raw[start..] == Joined(texts)
    ensures var e := start + |texts[0]|;
            e < |raw| && raw[start..e] == texts[0] && raw[e] == '|' && raw[e + 1..] == Joined(texts[1..])
  {
    var t := texts[0];
    Follows(raw, start, t + ['|'], Joined(texts[1..]));
    AtParts(raw, start, t, ['|']);
    AtChar(raw, start + |t|, '|');
  }

  lemma {:induction false} TextsLie(raw: string, stops: seq<Stop>, start: nat, texts: seq<string>, cut: bool)
    requires AreStops(raw, stops) && texts != [] && AllRecognised(raw, stops, texts, cut)
    requires start <= |raw| && raw[start..] == Joined(texts)
    ensures Lie(raw, stops, start, texts, cut)
    decreases |texts|
  {
    assert Recognised(raw, stops, texts[0], 0 == |texts| - 1, cut && 0 == |texts| - 1);
    if |texts| == 1 {
      assert raw[start..|raw|] == raw[start..];
      assert Stands(raw, start, texts[0], |raw|);
    } else {
      var t, rest := texts[0], texts[1..];
      var e := start + |t|;
      FirstText(raw, start, texts);
      assert Stands(raw, start, t, e);
      forall i | 0 <= i < |rest|
        ensures Recognised(raw, stops, rest[i], i == |rest| - 1, cut && i == |rest| - 1)
      {
        assert rest[i] == texts[i + 1];
      }
      TextsLie(raw, stops, e + 1, rest, cut);
    }
  }

  lemma StepsRecognised(cls: Classes, raw: string, stops: seq<Stop>, steps: seq<Step>)
    requires cls.Valid() && FitSteps(cls, steps) && Knows(cls, raw, stops)
    ensures AllRecognised(raw, stops, StepTexts(steps), CutOff(steps))
  {
    var texts := StepTexts(steps);
    forall i | 0 <= i < |texts|
      ensures Recognised(raw, stops, texts[i], i == |texts| - 1, CutOff(steps) && i == |texts| - 1)
    {
      StepRecognisedAt(cls, raw, stops, steps, i);
    }
  }

  lemma StepRecognisedAt(cls: Classes, raw: string, stops: seq<Stop>, steps: seq<Step>, i: nat)
    requires cls.Valid() && FitSteps(cls, steps) && Knows(cls, raw, stops) && i < |steps|
    ensures Recognised(raw, stops, StepTexts(steps)[i], i == |steps| - 1, CutOff(steps) && i == |steps| - 1)
  {
    StepRecognised(cls, raw, stops, steps[i], i == |steps| - 1);
  }

  /** Steps written out and joined with pipes split back to exactly those steps, stripped; and if
      the last one ends inside a quote, a class or a parenthesis, the split raises. */
  lemma StepsReadBack(cls: Classes, steps: seq<Step>)
    requires cls.Valid() && FitSteps(cls, steps)
    ensures Split(cls, PipelineText(steps)) ==
            if CutOff(steps) then None else Some(StripAll(cls, StepTexts(steps)))
  {
    var raw := PipelineText(steps);
    assert raw[0..] == raw;
    var stops := Stops(cls, raw);
    assert Knows(cls, raw, stops);
    StepsRecognised(cls, raw, stops, steps);
    TextsLie(raw, stops, 0, StepTexts(steps), CutOff(steps));
    PiecesOfTexts(raw, stops, 0, StepTexts(steps), CutOff(steps));
  }

  lemma {:induction false} StrippedStay(cls: Classes, texts: seq<string>)
    requires forall i :: 0 <= i < |texts| ==> Strip(cls, texts[i]) == texts[i]
    ensures StripAll(cls, texts) == texts
  {
    if texts != [] {
      StrippedStay(cls, texts[1..]);
    }
  }

  /** In particular steps without outer spaces come back as they were written. */
  lemma StrippedStepsReadBack(cls: Classes, steps: seq<Step>)
    requires cls.Valid() && FitSteps(cls, steps) && !CutOff(steps)
    requires forall i :: 0 <= i < |steps| ==> Strip(cls, StepText(steps[i])) == StepText(steps[i])
    ensures Split(cls, PipelineText(steps)) == Some(StepTexts(steps))
  {
    StepsReadBack(cls, steps);
    StrippedStay(cls, StepTexts(steps));
  }

  // ---- Every text is a pipeline ------------------------------------------------------

  /** How a step ends, after its items. */
  ghost predicate Ending(raw: string, k: nat, e: nat, pattern: Pattern, cut: Option<Cut>, dangling: bool) {
    && k <= e <= |raw| && raw[k..e] == Inner(cut) + Tail(dangling) && (e < |raw| ==> raw[e] == '|')
    && (cut.Some? || dangling ==> e == |raw|)
    && (cut.Some? ==> FitsCut(cut.value, false, pattern) && (QuoteIsOpen(cut.value) ==> !dangling))
  }

  lemma CutTail(raw: string, k: nat, cut: Cut) returns (dangling: bool)
    requires CutText(raw, k, cut)
    ensures raw[k..] == PrintCut(cut) + Tail(dangling) && (QuoteIsOpen(cut) ==> !dangling)
  {
    dangling := raw[k..] != PrintCut(cut);
    if !dangling {
      assert PrintCut(cut) + [] == PrintCut(cut);
    }
  }

  lemma FindEnding(raw: string, k: nat, pattern: Pattern, items: seq<Item>, cut: Option<Cut>)
    returns (e: nat, dangling: bool)
    requires ItemsEnd(raw, false, pattern, items, k, cut)
    ensures Ending(raw, k, e, Past(pattern, PrintAll(items)), cut, dangling)
  {
    if cut.Some? {
      dangling := CutTail(raw, k, cut.value);
      e := |raw|;
      assert raw[k..e] == raw[k..];
    } else if k < |raw| && raw[k] == '|' {
      e, dangling := k, false;
      assert raw[k..e] == [];
    } else {
      e, dangling := |raw|, k < |raw|;
      assert raw[k..e] == Tail(dangling);
      assert [] + Tail(dangling) == Tail(dangling);
    }
  }

  /** A step put together from where its parts stand. */
  lemma Assemble(raw: string, start: nat, i: nat, h: nat, k: nat, e: nat, step: Step)
    requires start <= i <= h <= k <= e <= |raw|
    requires raw[start..i] == step.lead && raw[i..h] == HeadText(step.head) && raw[h..k] == PrintAll(step.items)
    requires raw[k..e] == Inner(step.cut) + Tail(step.dangling) && (e < |raw| ==> raw[e] == '|')
    ensures Stands(raw, start, StepText(step), e)
  {
    TwoParts(raw, start, i, h);
    TwoParts(raw, start, h, k);
    TwoParts(raw, start, k, e);
  }

  lemma TwoParts(raw: string, a: nat, b: nat, c: nat)
    requires a <= b <= c <= |raw|
    ensures raw[a..c] == raw[a..b] + raw[b..c]
  {
  }

  lemma ReadPatternStep(cls: Classes, raw: string, start: nat, i: nat, head: Head) returns (step: Step, e: nat)
    requires cls.Valid() && start <= i <= |raw| && All(cls.space, raw[start..i])
    requires (head.Extract? || head.Regex?) && At(raw, i, HeadText(head))
    ensures StepStands(cls, raw, start, step, e)
  {
    var h := i + |HeadText(head)|;
    var items, k, cut := ReadItems(raw, h, false, PatternOf(head));
    var dangling;
    e, dangling := FindEnding(raw, k, PatternOf(head), items, cut);
    step := Step(raw[start..i], head, items, cut, dangling);
    Assemble(raw, start, i, h, k, e, step);
  }

  lemma CutCallStep(cls: Classes, raw: string, start: nat, i: nat, h: nat, head: Head, cut: Cut)
    returns (step: Step)
    requires cls.Valid() && start <= i <= h <= |raw| && All(cls.space, raw[start..i]) && raw[i..h] == HeadText(head)
    requires head.Called? && head.name != "" && All(cls.word, head.name) && All(cls.space, head.gap)
    requires cut.InGroup? && FitsInside(cut.items, cut.inner, Never) && CutText(raw, h, cut)
    ensures StepStands(cls, raw, start, step, |raw|)
  {
    var dangling := CutTail(raw, h, cut);
    step := Step(raw[start..i], head, [], Some(cut), dangling);
    assert raw[h..|raw|] == raw[h..] && raw[h..h] == [];
    Assemble(raw, start, i, h, h, |raw|, step);
  }

  lemma WholeCallStep(cls: Classes, raw: string, start: nat, i: nat, h: nat, head: Head, item: Item, after: nat)
    returns (step: Step, e: nat)
    requires cls.Valid() && start <= i <= h < after <= |raw| && All(cls.space, raw[start..i])
    requires raw[i..h] == HeadText(head)
    requires head.Called? && head.name != "" && All(cls.word, head.name) && All(cls.space, head.gap)
    requires item.Group? && FitAll(item.items, true, Never) && raw[h..after] == Print(item)
    ensures StepStands(cls, raw, start, step, e)
  {
    var rest, k, tail := ReadItems(raw, after, false, Never);
    var dangling;
    e, dangling := FindEnding(raw, k, Never, rest, tail);
    step := Step(raw[start..i], head, [item] + rest, tail, dangling);
    PrintCons(item, rest);
    TwoParts(raw, h, after, k);
    CallStepFits(cls, step, item, rest);
    Assemble(raw, start, i, h, k, e, step);
  }

  lemma CallStepFits(cls: Classes, step: Step, item: Item, rest: seq<Item>)
    requires All(cls.space, step.lead) && (step.cut.Some? && QuoteIsOpen(step.cut.value) ==> !step.dangling)
    requires step.head.Called? && step.head.name != "" && All(cls.word, step.head.name) && All(cls.space, step.head.gap)
    requires step.items == [item] + rest && item.Group? && FitAll(item.items, true, Never)
    requires FitAll(rest, false, Never) && (step.cut.Some? ==> FitsCut(step.cut.value, false, Never))
    ensures FitStep(cls, step)
  {
    assert step.items[0] == item && step.items[1..] == rest;
  }

  lemma ReadCallStep(cls: Classes, raw: string, start: nat, i: nat, j: nat, h: nat) returns (step: Step, e: nat)
    requires cls.Valid() && start <= i && CallAt(cls, raw, i, j, h) && All(cls.space, raw[start..i])
    ensures StepStands(cls, raw, start, step, e)
  {
    var head := Called(raw[i..j], raw[j..h]);
    assert raw[i..h] == HeadText(head);
    var item, after, cut := ReadWholeGroup(raw, h, false, Never);
    if cut.Some? {
      e := |raw|;
      step := CutCallStep(cls, raw, start, i, h, head, cut.value);
    } else {
      step, e := WholeCallStep(cls, raw, start, i, h, head, item, after);
    }
  }

  /** None of the other heads stands at `start`. */
  ghost predicate NoHead(cls: Classes, raw: string, start: nat) {
    forall i: nat {:trigger raw[start..i]} :: start <= i <= |raw| && All(cls.space, raw[start..i]) ==>
      !At(raw, i, "extract:") && !At(raw, i, "regex:") && forall j: nat, l: nat :: !CallAt(cls, raw, i, j, l)
  }

  lemma WordOutside(raw: string, start: nat, e: nat, k: nat, word: string)
    requires start <= e <= |raw| && At(raw[start..e], k, word)
    ensures At(raw, start + k, word)
  {
    SliceOfSlice(raw, start, e, start + k, start + k + |word|);
  }

  lemma BareIsNotHeaded(cls: Classes, raw: string, start: nat, e: nat)
    requires start <= e <= |raw| && NoHead(cls, raw, start)
    ensures !Headed(cls, raw[start..e])
  {
    var t := raw[start..e];
    if k: nat :| HeadedAt(cls, t, k) {
      assert t[..k] == raw[start..start + k];
      if At(t, k, "extract:") {
        WordOutside(raw, start, e, k, "extract:");
      } else if At(t, k, "regex:") {
        WordOutside(raw, start, e, k, "regex:");
      } else {
        var j: nat, l: nat :| CallAt(cls, t, k, j, l);
        CallOutside(cls, raw, start, e, k, j, l);
      }
      assert false;
    }
  }

  lemma CallOutside(cls: Classes, raw: string, start: nat, e: nat, k: nat, j: nat, l: nat)
    requires start <= e <= |raw| && CallAt(cls, raw[start..e], k, j, l)
    ensures CallAt(cls, raw, start + k, start + j, start + l)
  {
    SliceOfSlice(raw, start, e, start + k, start + j);
    SliceOfSlice(raw, start, e, start + j, start + l);
  }

  lemma ReadBareStep(cls: Classes, raw: string, start: nat) returns (step: Step, e: nat)
    requires cls.Valid() && start <= |raw| && NoHead(cls, raw, start)
    ensures StepStands(cls, raw, start, step, e)
  {
    var items, k, cut := ReadItems(raw, start, false, Never);
    var dangling;
    e, dangling := FindEnding(raw, k, Never, items, cut);
    step := Step([], Bare, items, cut, dangling);
    Assemble(raw, start, start, start, k, e, step);
    BareIsNotHeaded(cls, raw, start, e);
  }

  /** Any text reads as a step up to the next pipe outside everything, or to its end. */
  lemma ReadStep(cls: Classes, raw: string, start: nat) returns (step: Step, e: nat)
    requires cls.Valid() && start <= |raw|
    ensures StepStands(cls, raw, start, step, e)
  {
    if i: nat :| start <= i <= |raw| && All(cls.space, raw[start..i]) && At(raw, i, "extract:") {
      step, e := ReadPatternStep(cls, raw, start, i, Extract);
    } else if i: nat :| start <= i <= |raw| && All(cls.space, raw[start..i]) && At(raw, i, "regex:") {
      step, e := ReadPatternStep(cls, raw, start, i, Regex);
    } else if i: nat, j: nat, l: nat :|
      start <= i <= |raw| && All(cls.space, raw[start..i]) && CallAt(cls, raw, i, j, l)
    {
      step, e := ReadCallStep(cls, raw, start, i, j, l);
    } else {
      step, e := ReadBareStep(cls, raw, start);
    }
  }

  lemma {:induction false} ReadSteps(cls: Classes, raw: string, start: nat) returns (steps: seq<Step>)
    requires cls.Valid() && start <= |raw|
    ensures FitSteps(cls, steps) && Joined(StepTexts(steps)) == raw[start..]
    decreases |raw| - start
  {
    var step, e := ReadStep(cls, raw, start);
    if e == |raw| {
      steps := OnlyStep(cls, raw, start, step);
    } else {
      steps := ReadSteps(cls, raw, e + 1);
      steps := OneMoreStep(cls, raw, start, step, e, steps);
    }
  }

  lemma OnlyStep(cls: Classes, raw: string, start: nat, step: Step) returns (steps: seq<Step>)
    requires StepStands(cls, raw, start, step, |raw|)
    ensures FitSteps(cls, steps) && Joined(StepTexts(steps)) == raw[start..]
  {
    steps := [step];
    assert raw[start..|raw|] == raw[start..];
  }

  lemma OneMoreStep(cls: Classes, raw: string, start: nat, step: Step, e: nat, rest: seq<Step>)
    returns (steps: seq<Step>)
    requires StepStands(cls, raw, start, step, e) && e < |raw| && FitSteps(cls, rest)
    requires Joined(StepTexts(rest)) == raw[e + 1..]
    ensures FitSteps(cls, steps) && Joined(StepTexts(steps)) == raw[start..]
  {
    steps := [step] + rest;
    JoinOne(raw, start, e, StepText(step), StepTexts(rest));
    FitOne(cls, step, rest);
    TextsOfMore(step, rest);
  }

  lemma TextsOfMore(step: Step, rest: seq<Step>)
    ensures StepTexts([step] + rest) == [StepText(step)] + StepTexts(rest)
  {
    var all, texts := StepTexts([step] + rest), [StepText(step)] + StepTexts(rest);
    forall i | 0 <= i < |all| ensures all[i] == texts[i] {
      assert i > 0 ==> ([step] + rest)[i] == rest[i - 1];
    }
  }

  lemma JoinOne(raw: string, start: nat, e: nat, t: string, texts: seq<string>)
    requires start <= e < |raw| && raw[start..e] == t && raw[e] == '|' && texts != [] && Joined(texts) == raw[e + 1..]
    ensures Joined([t] + texts) == raw[start..]
  {
    assert ([t] + texts)[1..] == texts;
    assert raw[start..] == raw[start..e] + [raw[e]] + raw[e + 1..];
  }

  lemma FitOne(cls: Classes, step: Step, steps: seq<Step>)
    requires FitStep(cls, step) && Complete(step) && FitSteps(cls, steps)
    ensures FitSteps(cls, [step] + steps)
  {
    var all := [step] + steps;
    forall i | 0 <= i < |all| ensures FitStep(cls, all[i]) && (i < |all| - 1 ==> Complete(all[i])) {
      assert i > 0 ==> all[i] == steps[i - 1];
    }
  }

  /** Every text is steps joined with pipes, the last of them perhaps cut short. */
  lemma EveryTextIsAPipeline(cls: Classes, raw: string) returns (steps: seq<Step>)
    requires cls.Valid()
    ensures FitSteps(cls, steps) && PipelineText(steps) == raw
  {
    steps := ReadSteps(cls, raw, 0);
    assert raw[0..] == raw;
  }

  ghost predicate ReadsCutOff(cls: Classes, raw: string, steps: seq<Step>) {
    FitSteps(cls, steps) && PipelineText(steps) == raw && CutOff(steps)
  }

  /** The split raises if and only if the text ends inside a quote, a class or a parenthesis. */
  lemma RaisesIffCutOff(cls: Classes, raw: string)
    requires cls.Valid()
    ensures Split(cls, raw).None? <==> exists steps :: ReadsCutOff(cls, raw, steps)
  {
    var steps := EveryTextIsAPipeline(cls, raw);
    StepsReadBack(cls, steps);
    if Split(cls, raw).None? {
      assert ReadsCutOff(cls, raw, steps);
    }
    if others :| ReadsCutOff(cls, raw, others) {
      StepsReadBack(cls, others);
    }
  }
}

/** The chunked JSON encoder and the JSON sizer, against the plain compact encoder.

    `Encode` is the standard library's compact encoder (separators "," and ":")
    as a recursive function. Everything else models common/json_encoding.py.
 */
module JsonEncoding {
  import opened Texts

  /** How the encoder was configured: `default` is either `str` or absent. */
  datatype Options = Options(ensureAscii: bool, allowNan: bool, strDefault: bool)

  const DEFAULTS := Options(true, true, true)

  /** A Python value by what the encoder does with it. Cyclic values are not represented.
      `isList` and `isDict` say that the type is exactly list or dict: a tuple, or a
      subclass, is encoded alike but never walked. */
  datatype Value =
    | Literal(text: Token)
    | NonFinite(text: Token)
    | Str(chars: Text)
    | Unsupported(shown: Text)
    | Array(isList: bool, items: seq<Value>)
    | Object(isDict: bool, entries: seq<Entry>)

  datatype Entry = Entry(key: Key, item: Value)

  /** `isStr` says that the key's type is exactly str. */
  datatype Key =
    | StrKey(isStr: bool, chars: Text)
    | ConvertedKey(text: Token)
    | NonFiniteKey(text: Token)
    | BadKey

  const CHUNK := 16 * 1024
  const SIZE_WALK_DEPTH := 4
  const ENCODE_WALK_DEPTH := 4
  const MAX_BATCH := 256

  const OPEN_LIST: Text := [0x5B]
  const CLOSE_LIST: Text := [0x5D]
  const OPEN_DICT: Text := [0x7B]
  const CLOSE_DICT: Text := [0x7D]
  const COLON: Text := [0x3A]
  const QUOTE: Text := [0x22]

  // ---- The plain encoder -------------------------------------------------

  function HexDigit(d: nat): CodePoint
    requires d < 16
  {
    if d < 10 then 0x30 + d else 0x61 + (d - 10)
  }

  function UnicodeEscape(n: nat): Text
    requires n < 0x1_0000
  {
    [0x5C, 0x75, HexDigit(n / 0x1000), HexDigit(n / 0x100 % 16), HexDigit(n / 0x10 % 16), HexDigit(n % 16)]
  }

  function EscapeChar(c: CodePoint, ensureAscii: bool): Text {
    if c == 0x22 || c == 0x5C then [0x5C, c]
    else if c == 0x08 then [0x5C, 0x62]
    else if c == 0x09 then [0x5C, 0x74]
    else if c == 0x0A then [0x5C, 0x6E]
    else if c == 0x0C then [0x5C, 0x66]
    else if c == 0x0D then [0x5C, 0x72]
    else if c < 0x20 then UnicodeEscape(c)
    else if ensureAscii && 0x7F <= c < 0x1_0000 then UnicodeEscape(c)
    else if ensureAscii && 0x1_0000 <= c then
      UnicodeEscape(0xD800 + (c - 0x1_0000) / 0x400) + UnicodeEscape(0xDC00 + (c - 0x1_0000) % 0x400)
    else [c]
  }

  function EscapeText(t: Text, ensureAscii: bool): Text {
    if t == [] then [] else EscapeChar(t[0], ensureAscii) + EscapeText(t[1..], ensureAscii)
  }

  function Quote(t: Text, ensureAscii: bool): Text {
    QUOTE + EscapeText(t, ensureAscii) + QUOTE
  }

  function EncodeKey(key: Key, o: Options): Option<Text> {
    match key
    case StrKey(_, t) => Some(Quote(t, o.ensureAscii))
    case ConvertedKey(t) => Some(QUOTE + t + QUOTE)
    case NonFiniteKey(t) => if o.allowNan then Some(QUOTE + t + QUOTE) else None
    case BadKey => None
  }

  function Encode(v: Value, o: Options): Option<Text>
    decreases v, 0
  {
    match v
    case Literal(t) => Some(t)
    case NonFinite(t) => if o.allowNan then Some(t) else None
    case Str(t) => Some(Quote(t, o.ensureAscii))
    case Unsupported(t) => if o.strDefault then Some(Quote(t, o.ensureAscii)) else None
    case Array(_, items) =>
      (match EncodeItems(items, o)
       case Some(inner) => Some(OPEN_LIST + inner + CLOSE_LIST)
       case None => None)
    case Object(_, entries) =>
      (match EncodeEntries(entries, o)
       case Some(inner) => Some(OPEN_DICT + inner + CLOSE_DICT)
       case None => None)
  }

  function EncodeItems(items: seq<Value>, o: Options): Option<Text>
    decreases items, 0
  {
    if items == [] then Some([])
    else Join(Encode(items[0], o), |items| == 1, EncodeItems(items[1..], o))
  }

  function EncodeEntry(e: Entry, o: Options): Option<Text>
    decreases e, 0
  {
    match (EncodeKey(e.key, o), Encode(e.item, o))
    case (Some(k), Some(i)) => Some(k + COLON + i)
    case _ => None
  }

  function EncodeEntries(entries: seq<Entry>, o: Options): Option<Text>
    decreases entries, 0
  {
    if entries == [] then Some([])
    else Join(EncodeEntry(entries[0], o), |entries| == 1, EncodeEntries(entries[1..], o))
  }

  /** One encoded element in front of the encoded rest. */
  function Join(first: Option<Text>, last: bool, rest: Option<Text>): Option<Text> {
    match (first, rest)
    case (Some(a), Some(b)) => Some(if last then a else a + COMMA + b)
    case _ => None
  }

  /** Two encoded runs of elements, either of which may be empty. */
  function JoinRuns(a: Option<Text>, emptyA: bool, b: Option<Text>, emptyB: bool): Option<Text> {
    match (a, b)
    case (Some(x), Some(y)) => Some(if emptyA then y else if emptyB then x else x + COMMA + y)
    case _ => None
  }

  lemma CommasRegroup(x: Text, y: Text, z: Text)
    ensures x + COMMA + (y + COMMA + z) == (x + COMMA + y) + COMMA + z
  {
  }

  lemma {:induction false} EncodeItemsAppend(a: seq<Value>, b: seq<Value>, o: Options)
    ensures EncodeItems(a + b, o) == JoinRuns(EncodeItems(a, o), a == [], EncodeItems(b, o), b == [])
  {
    if a == [] {
      assert a + b == b;
    } else if b == [] {
      assert a + b == a;
    } else {
      assert (a + b)[1..] == a[1..] + b;
      EncodeItemsAppend(a[1..], b, o);
      if Encode(a[0], o).Some? && EncodeItems(a[1..], o).Some? && EncodeItems(b, o).Some? {
        var x, y, z := Encode(a[0], o).value, EncodeItems(a[1..], o).value, EncodeItems(b, o).value;
        CommasRegroup(x, y, z);
      }
    }
  }

  lemma {:induction false} EncodeEntriesAppend(a: seq<Entry>, b: seq<Entry>, o: Options)
    ensures EncodeEntries(a + b, o) == JoinRuns(EncodeEntries(a, o), a == [], EncodeEntries(b, o), b == [])
  {
    if a == [] {
      assert a + b == b;
    } else if b == [] {
      assert a + b == a;
    } else {
      assert (a + b)[1..] == a[1..] + b;
      EncodeEntriesAppend(a[1..], b, o);
      if EncodeEntry(a[0], o).Some? && EncodeEntries(a[1..], o).Some? && EncodeEntries(b, o).Some? {
        var x, y, z := EncodeEntry(a[0], o).value, EncodeEntries(a[1..], o).value, EncodeEntries(b, o).value;
        CommasRegroup(x, y, z);
      }
    }
  }

  /** Extending an encoded prefix by a run of elements; a run that fails fails the whole. */
  lemma ItemsStep(items: seq<Value>, i: nat, j: nat, o: Options)
    requires i < j <= |items|
    ensures EncodeItems(items[..j], o) ==
            JoinRuns(EncodeItems(items[..i], o), i == 0, EncodeItems(items[i..j], o), false)
    ensures EncodeItems(items[i..j], o).None? ==> EncodeItems(items, o).None?
  {
    assert items[..i] + items[i..j] == items[..j];
    EncodeItemsAppend(items[..i], items[i..j], o);
    assert items[..j] + items[j..] == items;
    EncodeItemsAppend(items[..j], items[j..], o);
  }

  lemma EntriesStep(entries: seq<Entry>, i: nat, o: Options)
    requires i < |entries|
    ensures EncodeEntries(entries[..i + 1], o) ==
            JoinRuns(EncodeEntries(entries[..i], o), i == 0, EncodeEntry(entries[i], o), false)
    ensures EncodeEntry(entries[i], o).None? ==> EncodeEntries(entries, o).None?
  {
    assert entries[..i] + [entries[i]] == entries[..i + 1];
    assert EncodeEntries([entries[i]], o) == EncodeEntry(entries[i], o) by {
      assert [entries[i]][1..] == [];
    }
    EncodeEntriesAppend(entries[..i], [entries[i]], o);
    assert entries[..i + 1] + entries[i + 1..] == entries;
    EncodeEntriesAppend(entries[..i + 1], entries[i + 1..], o);
  }

  /** A container of one element or of one run, encoded alone and stripped of its brackets. */
  lemma InnerOfRun(items: seq<Value>, o: Options)
    ensures Encode(Array(true, items), o).Some? <==> EncodeItems(items, o).Some?
    ensures EncodeItems(items, o).Some? ==>
              Inner(Encode(Array(true, items), o).value) == EncodeItems(items, o).value
  {
  }

  lemma OneItem(item: Value, o: Options)
    ensures EncodeItems([item], o) == Encode(item, o)
  {
    assert [item][1..] == [];
    assert EncodeItems([item][1..], o) == Some([]);
  }

  lemma InnerOfEntry(e: Entry, o: Options)
    ensures Encode(Object(true, [e]), o).Some? <==> EncodeEntry(e, o).Some?
    ensures EncodeEntry(e, o).Some? ==>
              Inner(Encode(Object(true, [e]), o).value) == EncodeEntry(e, o).value
              && |Encode(Object(true, [e]), o).value| == |EncodeEntry(e, o).value| + 2
  {
    assert [e][1..] == [];
    assert EncodeEntries([e][1..], o) == Some([]);
  }

  // ---- The incremental encoder ---------------------------------------------

  /** `text[1:-1]`, which drops a container's brackets. */
  function Inner(t: Text): Text {
    if |t| < 2 then [] else t[1..|t| - 1]
  }

  /** The texts `_iter_json_text` yields, in order; `ok` is false when the encoder raised. */
  method IterJsonText(value: Value, o: Options, depth: nat) returns (texts: seq<Text>, ok: bool)
    ensures ok <==> Encode(value, o).Some?
    ensures ok ==> Concat(texts) == Encode(value, o).value
    decreases depth, 1
  {
    if depth > 0 && value.Array? && value.isList && value.items != [] {
      texts, ok := ListTexts(value.items, o);
      if ok {
        ConcatSnoc(texts, CLOSE_LIST);
        texts := texts + [CLOSE_LIST];
      }
    } else if depth > 0 && value.Object? && value.isDict && value.entries != [] {
      texts, ok := DictTexts(value.entries, o, depth);
      if ok {
        ConcatSnoc(texts, CLOSE_DICT);
        texts := texts + [CLOSE_DICT];
      }
    } else {
      var encoded := Encode(value, o);
      ok := encoded.Some?;
      texts := if ok then [encoded.value] else [];
      assert ok ==> Concat(texts) == encoded.value + Concat([]);
    }
  }

  /** The texts so far spell a container's opening bracket and an encoded prefix of it. */
  ghost predicate Spelled(texts: seq<Text>, open: Text, prefix: Option<Text>, none: bool) {
    prefix.Some? && Concat(texts) == if none then [] else open + prefix.value
  }

  lemma OpenAndCommas(open: Text, x: Text, y: Text)
    ensures open + x + COMMA + y == open + (x + COMMA + y)
  {
  }

  lemma SpelledStep(texts: seq<Text>, texts': seq<Text>, open: Text, none: bool,
                    prefix: Option<Text>, run: Option<Text>, next: Option<Text>)
    requires Spelled(texts, open, prefix, none)
    requires run.Some? && next == JoinRuns(prefix, none, run, false)
    requires Concat(texts') == Concat(texts) + (if none then open else COMMA) + run.value
    ensures Spelled(texts', open, next, false)
  {
    if none {
      assert [] + open == open;
    } else {
      OpenAndCommas(open, prefix.value, run.value);
    }
  }

  /** The list branch: runs of elements in batches that double, and restart after long text. */
  method ListTexts(items: seq<Value>, o: Options) returns (texts: seq<Text>, ok: bool)
    requires items != []
    ensures ok <==> EncodeItems(items, o).Some?
    ensures ok ==> Spelled(texts, OPEN_LIST, EncodeItems(items, o), false)
  {
    texts := [];
    var separator := OPEN_LIST;
    var start, batch := 0, 1;
    while start < |items|
      invariant 0 <= start <= |items| && 1 <= batch <= MAX_BATCH
      invariant separator == if start == 0 then OPEN_LIST else COMMA
      invariant Spelled(texts, OPEN_LIST, EncodeItems(items[..start], o), start == 0)
    {
      var end := if start + batch < |items| then start + batch else |items|;
      var encoded := RunText(items[start..end], batch, o);
      ItemsStep(items, start, end, o);
      if encoded.None? {
        return texts, false;
      }
      var text := encoded.value;
      var longer := Yield(texts, separator, text);
      SpelledStep(texts, longer, OPEN_LIST, start == 0, EncodeItems(items[..start], o), encoded,
                  EncodeItems(items[..end], o));
      texts := longer;
      separator := COMMA;
      start := end;
      batch := if |text| < CHUNK then (if batch * 2 < MAX_BATCH then batch * 2 else MAX_BATCH) else 1;
    }
    assert items[..start] == items;
    ok := true;
  }

  /** One element by itself, or a batch encoded as a list whose brackets are dropped. */
  function RunText(run: seq<Value>, batch: nat, o: Options): (text: Option<Text>)
    requires run != [] && (batch == 1 ==> |run| == 1)
    ensures text == EncodeItems(run, o)
  {
    InnerOfRun(run, o);
    if batch == 1 then
      assert run == [run[0]];
      OneItem(run[0], o);
      Encode(run[0], o)
    else
      match Encode(Array(true, run), o)
      case Some(t) => Some(Inner(t))
      case None => None
  }

  /** Yield a separator and the text after it. */
  method Yield(texts: seq<Text>, separator: Text, text: Text) returns (texts': seq<Text>)
    ensures texts' == texts + [separator, text]
    ensures Concat(texts') == Concat(texts) + separator + text
  {
    ConcatSnoc(texts, separator);
    ConcatSnoc(texts + [separator], text);
    assert texts + [separator] + [text] == texts + [separator, text];
    texts' := texts + [separator, text];
  }

  /** The dict branch: nested lists and dicts are walked, anything else is encoded whole. */
  method DictTexts(entries: seq<Entry>, o: Options, depth: nat) returns (texts: seq<Text>, ok: bool)
    requires entries != [] && depth > 0
    ensures ok <==> EncodeEntries(entries, o).Some?
    ensures ok ==> Spelled(texts, OPEN_DICT, EncodeEntries(entries, o), false)
    decreases depth, 0
  {
    texts := [];
    var separator := OPEN_DICT;
    for i := 0 to |entries|
      invariant separator == if i == 0 then OPEN_DICT else COMMA
      invariant Spelled(texts, OPEN_DICT, EncodeEntries(entries[..i], o), i == 0)
    {
      EntriesStep(entries, i, o);
      var longer, fine := EntryTexts(entries[i], o, depth, texts, separator);
      if !fine {
        return longer, false;
      }
      SpelledStep(texts, longer, OPEN_DICT, i == 0, EncodeEntries(entries[..i], o), EncodeEntry(entries[i], o),
                  EncodeEntries(entries[..i + 1], o));
      texts := longer;
      separator := COMMA;
    }
    assert entries[..|entries|] == entries;
    ok := true;
  }

  /** One `"key":value` pair after its separator. */
  method EntryTexts(e: Entry, o: Options, depth: nat, texts: seq<Text>, separator: Text)
    returns (texts': seq<Text>, ok: bool)
    requires depth > 0
    ensures ok <==> EncodeEntry(e, o).Some?
    ensures ok ==> Concat(texts') == Concat(texts) + separator + EncodeEntry(e, o).value
    decreases depth - 1, 2
  {
    if e.key.StrKey? && e.key.isStr && IsContainer(e.item) {
      var head := separator + EncodeKey(e.key, o).value + COLON;
      ConcatSnoc(texts, head);
      var inner;
      inner, ok := IterJsonText(e.item, o, depth - 1);
      ConcatAppend(texts + [head], inner);
      texts' := texts + [head] + inner;
    } else {
      var encoded := Encode(Object(true, [e]), o);
      InnerOfEntry(e, o);
      ok := encoded.Some?;
      if ok {
        ConcatSnoc(texts, separator + Inner(encoded.value));
        texts' := texts + [separator + Inner(encoded.value)];
      } else {
        texts' := texts;
      }
    }
  }

  predicate IsContainer(v: Value) {
    (v.Array? && v.isList) || (v.Object? && v.isDict)
  }

  // ---- Full chunks -----------------------------------------------------------

  /** A text cut every CHUNK characters: the last piece is not empty and may be short. */
  function Cut(t: Text): seq<Text>
    decreases |t|
  {
    if t == [] then [] else if |t| <= CHUNK then [t] else [t[..CHUNK]] + Cut(t[CHUNK..])
  }

  predicate FullChunks(chunks: seq<Text>) {
    forall i :: 0 <= i < |chunks| ==> |chunks[i]| == CHUNK
  }

  lemma {:induction false} CutIsUnique(full: seq<Text>, rest: Text)
    requires FullChunks(full) && |rest| < CHUNK
    ensures Cut(Concat(full) + rest) == if rest == [] then full else full + [rest]
  {
    if full == [] {
      assert Concat(full) + rest == rest;
    } else {
      CutIsUnique(full[1..], rest);
      var t := Concat(full) + rest;
      var tail := Concat(full[1..]) + rest;
      assert t == full[0] + tail;
      assert t[..CHUNK] == full[0] && t[CHUNK..] == tail;
      if tail == [] {
        assert full[1..] == [] by { CutLength(tail); }
        assert t == full[0];
      }
      assert full == [full[0]] + full[1..];
    }
  }

  lemma CutLength(t: Text)
    ensures t == [] <==> Cut(t) == []
  {
  }

  lemma {:induction false} CutRejoins(t: Text)
    ensures Concat(Cut(t)) == t
    ensures forall i :: 0 <= i < |Cut(t)| ==>
                          0 < |Cut(t)[i]| <= CHUNK && (i < |Cut(t)| - 1 ==> |Cut(t)[i]| == CHUNK)
    decreases |t|
  {
    if |t| > CHUNK {
      CutRejoins(t[CHUNK..]);
      CutLength(t[CHUNK..]);
      assert ([t[..CHUNK]] + Cut(t[CHUNK..]))[1..] == Cut(t[CHUNK..]);
      assert t[..CHUNK] + t[CHUNK..] == t;
    } else if t != [] {
      assert [t][1..] == [];
      assert t + [] == t;
    }
  }

  /** Full pieces were yielded as these bytes (unless one raised); `t` is them and what is pending. */
  ghost predicate Yielded(pieces: seq<Text>, chunks: seq<seq<Byte>>, ok: bool, pending: Text, t: Text) {
    && |pending| < CHUNK && FullChunks(pieces)
    && Concat(pieces) + pending == t
    && (if ok then Utf8All(pieces) == Some(chunks) else Utf8All(pieces).None?)
  }

  /** The encoded chunks `iter_json_bytes` yields, with the characters of each one.

      `ok` is false when the encoder or the UTF-8 step raised. */
  method IterJsonBytes(data: Value, o: Options) returns (chunks: seq<seq<Byte>>, ok: bool)
    ensures ok <==> Encode(data, o).Some? && Utf8(Encode(data, o).value).Some?
    ensures ok ==> Some(chunks) == Utf8All(Cut(Encode(data, o).value))
  {
    var texts, encoded := IterJsonText(data, o, ENCODE_WALK_DEPTH);
    if !encoded {
      return [], false;
    }
    chunks := [];
    ok := true;
    ghost var pieces: seq<Text> := [];
    var pending: Text := [];
    for i := 0 to |texts|
      invariant Yielded(pieces, chunks, ok, pending, Concat(texts[..i]))
    {
      assert texts[..i + 1] == texts[..i] + [texts[i]];
      ConcatSnoc(texts[..i], texts[i]);
      chunks, ok, pending, pieces := AddText(chunks, ok, pieces, pending, texts[i], Concat(texts[..i]));
    }
    assert texts[..|texts|] == texts;
    CutIsUnique(pieces, pending);
    if pending != [] {
      chunks, ok := Emit(chunks, ok, pieces, pending);
    }
    Utf8OfConcat(Cut(Encode(data, o).value));
    CutRejoins(Encode(data, o).value);
  }

  /** Keep a short text pending; fill the chunk from a text that completes it and slice off
      the full ones after it. */
  method AddText(chunks: seq<seq<Byte>>, ok: bool, ghost pieces: seq<Text>, pending: Text, text: Text,
                 ghost before: Text)
    returns (chunks': seq<seq<Byte>>, ok': bool, pending': Text, ghost pieces': seq<Text>)
    requires Yielded(pieces, chunks, ok, pending, before)
    ensures Yielded(pieces', chunks', ok', pending', before + text)
  {
    if |pending| + |text| < CHUNK {
      return chunks, ok, pending + text, pieces;
    }
    var offset := CHUNK - |pending|;
    chunks', ok' := Emit(chunks, ok, pieces, pending + text[..offset]);
    ConcatSnoc(pieces, pending + text[..offset]);
    pieces' := pieces + [pending + text[..offset]];
    assert text == text[..offset] + text[offset..];
    while |text| - offset >= CHUNK
      invariant 0 <= offset <= |text| && FullChunks(pieces')
      invariant Concat(pieces') + text[offset..] == before + text
      invariant if ok' then Utf8All(pieces') == Some(chunks') else Utf8All(pieces').None?
    {
      var slice := text[offset..offset + CHUNK];
      chunks', ok' := Emit(chunks', ok', pieces', slice);
      ConcatSnoc(pieces', slice);
      pieces' := pieces' + [slice];
      assert text[offset..] == slice + text[offset + CHUNK..];
      offset := offset + CHUNK;
    }
    pending' := text[offset..];
  }

  /** Encode and yield one piece, unless an earlier one already raised. */
  method Emit(chunks: seq<seq<Byte>>, ok: bool, ghost pieces: seq<Text>, piece: Text)
    returns (chunks': seq<seq<Byte>>, ok': bool)
    requires if ok then Utf8All(pieces) == Some(chunks) else Utf8All(pieces).None?
    ensures if ok' then Utf8All(pieces + [piece]) == Some(chunks') else Utf8All(pieces + [piece]).None?
  {
    Utf8AllSnoc(pieces, piece);
    var bytes := Utf8(piece);
    ok' := ok && bytes.Some?;
    chunks' := if ok' then chunks + [bytes.value] else chunks;
  }

  /** What the yielded chunks mean: together they are the plain encoding in UTF-8, each
      holds at most 16384 characters, none is empty and all but the last are full. */
  lemma ChunksSpellTheEncoding(data: Value, o: Options, chunks: seq<seq<Byte>>)
    requires Encode(data, o).Some?
    requires Some(chunks) == Utf8All(Cut(Encode(data, o).value))
    ensures Some(Concat(chunks)) == Utf8(Encode(data, o).value)
    ensures forall i :: 0 <= i < |Cut(Encode(data, o).value)| ==>
                          && 0 < |Cut(Encode(data, o).value)[i]| <= 16384
                          && (i < |Cut(Encode(data, o).value)| - 1 ==> |Cut(Encode(data, o).value)[i]| == 16384)
  {
    var t := Encode(data, o).value;
    CutRejoins(t);
    Utf8OfConcat(Cut(t));
  }

  // ---- The sizer -------------------------------------------------------------

  /** `_compact_json_size`: the length of the default encoding, or None where it raises. */
  method CompactJsonSize(value: Value, depth: nat) returns (size: Option<nat>)
    ensures size.Some? <==> Encode(value, DEFAULTS).Some?
    ensures size.Some? ==> size.value == |Encode(value, DEFAULTS).value|
    decreases depth, 1
  {
    if depth > 0 && value.Array? && value.isList && value.items != [] {
      var items := value.items;
      var total := 0;
      for i := 0 to |items|
        invariant EncodeItems(items[..i], DEFAULTS).Some?
        invariant |EncodeItems(items[..i], DEFAULTS).value| == if i == 0 then 0 else total + i - 1
        invariant i == 0 ==> total == 0
      {
        ItemsStep(items, i, i + 1, DEFAULTS);
        assert items[i..i + 1] == [items[i]] && [items[i]][1..] == [];
        var item := CompactJsonSize(items[i], depth - 1);
        if item.None? {
          return None;
        }
        total := total + item.value;
      }
      assert items[..|items|] == items;
      return Some(|items| + 1 + total);
    } else if depth > 0 && value.Object? && value.isDict && HasContainer(value.entries) {
      size := DictSize(value.entries, depth);
    } else {
      var encoded := Encode(value, DEFAULTS);
      size := if encoded.Some? then Some(|encoded.value|) else None;
    }
  }

  predicate HasContainer(entries: seq<Entry>) {
    exists i :: 0 <= i < |entries| && IsContainer(entries[i].item)
  }

  method DictSize(entries: seq<Entry>, depth: nat) returns (size: Option<nat>)
    requires entries != [] && depth > 0
    ensures size.Some? <==> EncodeEntries(entries, DEFAULTS).Some?
    ensures size.Some? ==> size.value == |EncodeEntries(entries, DEFAULTS).value| + 2
    decreases depth, 0
  {
    var total := |entries| + 1;
    for i := 0 to |entries|
      invariant EncodeEntries(entries[..i], DEFAULTS).Some?
      invariant total == |entries| + 1 + |EncodeEntries(entries[..i], DEFAULTS).value| - (if i == 0 then 0 else i - 1)
    {
      EntriesStep(entries, i, DEFAULTS);
      var Entry(key, item) := entries[i];
      if key.StrKey? && key.isStr {
        total := total + |Quote(key.chars, true)| + 1;
        var inner := CompactJsonSize(item, depth - 1);
        if inner.None? {
          return None;
        }
        total := total + inner.value;
      } else {
        var encoded := Encode(Object(true, [entries[i]]), DEFAULTS);
        InnerOfEntry(entries[i], DEFAULTS);
        if encoded.None? {
          return None;
        }
        total := total + |encoded.value| - 2;
      }
    }
    assert entries[..|entries|] == entries;
    size := Some(total);
  }

  /** The default encoding is ASCII, so its characters are its persisted bytes. */
  lemma {:induction false} EscapeIsAscii(t: Text)
    ensures IsAscii(EscapeText(t, true))
  {
    if t != [] {
      EscapeIsAscii(t[1..]);
      assert IsAscii(EscapeChar(t[0], true));
    }
  }

  lemma {:induction false} DefaultEncodingIsAscii(v: Value)
    requires Encode(v, DEFAULTS).Some?
    ensures IsAscii(Encode(v, DEFAULTS).value)
    decreases v, 0
  {
    match v
    case Literal(t) =>
    case NonFinite(t) =>
    case Str(t) => EscapeIsAscii(t);
    case Unsupported(t) => EscapeIsAscii(t);
    case Array(_, items) => ItemsAreAscii(items);
    case Object(_, entries) => EntriesAreAscii(entries);
  }

  lemma {:induction false} ItemsAreAscii(items: seq<Value>)
    requires EncodeItems(items, DEFAULTS).Some?
    ensures IsAscii(EncodeItems(items, DEFAULTS).value)
    decreases items, 0
  {
    if items != [] {
      DefaultEncodingIsAscii(items[0]);
      ItemsAreAscii(items[1..]);
    }
  }

  lemma {:induction false} EntryIsAscii(e: Entry)
    requires EncodeEntry(e, DEFAULTS).Some?
    ensures IsAscii(EncodeEntry(e, DEFAULTS).value)
    decreases e, 0
  {
    match e.key {
      case StrKey(_, t) => EscapeIsAscii(t);
      case ConvertedKey(_) =>
      case NonFiniteKey(_) =>
    }
    DefaultEncodingIsAscii(e.item);
  }

  lemma {:induction false} EntriesAreAscii(entries: seq<Entry>)
    requires EncodeEntries(entries, DEFAULTS).Some?
    ensures IsAscii(EncodeEntries(entries, DEFAULTS).value)
    decreases entries, 0
  {
    if entries != [] {
      EntryIsAscii(entries[0]);
      EntriesAreAscii(entries[1..]);
    }
  }

  /** `compact_json_bytes`: the join of the chunks. By default it has one byte for each
      character, so the sizer's answer is its length. */
  method CompactJsonBytes(data: Value) returns (bytes: seq<Byte>, ok: bool)
    ensures ok <==> Encode(data, DEFAULTS).Some?
    ensures ok ==> Some(bytes) == Utf8(Encode(data, DEFAULTS).value)
    ensures ok ==> |bytes| == |Encode(data, DEFAULTS).value|
  {
    if Encode(data, DEFAULTS).Some? {
      DefaultEncodingIsAscii(data);
      Utf8OfAscii(Encode(data, DEFAULTS).value);
    }
    var chunks;
    chunks, ok := IterJsonBytes(data, DEFAULTS);
    bytes := Concat(chunks);
    if ok {
      ChunksSpellTheEncoding(data, DEFAULTS, chunks);
    }
  }
}

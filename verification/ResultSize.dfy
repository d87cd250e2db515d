/** Bytes reserved while records are extracted, against their real JSON size
    (engine/selectors.py and `_extract_page_data` in engine/scraper.py). */
module ResultSize {
  import opened Texts
  import opened JsonEncoding
  import opened RunBudgets

  /** One matched element: its text, and what its transforms make of it (None if one raised). */
  datatype Match = Match(text: Text, transformed: Option<Text>)

  /** A named selector on one element; `matches` is None when selecting or parsing it raised. */
  datatype Field = Field(name: Text, matches: Option<seq<Match>>)

  const NULL: Value := Literal([0x6E, 0x75, 0x6C, 0x6C])

  /** The byte size of a JSON string, without building it. */
  method JsonStringSerializedSize(value: Text) returns (size: nat)
    ensures size == |Quote(value, true)|
  {
    size := 2;
    for i := 0 to |value|
      invariant size == 2 + |EscapeText(value[..i], true)|
    {
      assert value[..i + 1] == value[..i] + [value[i]];
      EscapeAppend(value[..i], value[i]);
      var c := value[i];
      if c == 0x22 || c == 0x5C || c in {0x08, 0x09, 0x0A, 0x0C, 0x0D} {
        size := size + 2;
      } else if c < 0x20 || 0x7F <= c <= 0xFFFF {
        size := size + 6;
      } else if c > 0xFFFF {
        size := size + 12;
      } else {
        size := size + 1;
      }
    }
    assert value[..|value|] == value;
  }

  lemma {:induction false} EscapeAppend(t: Text, c: CodePoint)
    ensures EscapeText(t + [c], true) == EscapeText(t, true) + EscapeChar(c, true)
  {
    if t == [] {
      assert (t + [c])[1..] == [];
      assert EscapeText([c], true) == EscapeChar(c, true) + EscapeText([c][1..], true);
    } else {
      assert (t + [c])[1..] == t[1..] + [c];
      EscapeAppend(t[1..], c);
    }
  }

  /** `checked_selector_value_size` accepts a text of at most `limit` UTF-8 bytes. */
  predicate SizeAllowed(t: Text, limit: int) {
    Utf8(t).Some? && |Utf8(t).value| <= limit
  }

  function Strings(texts: seq<Text>): (items: seq<Value>)
    ensures |items| == |texts| && forall i :: 0 <= i < |texts| ==> items[i] == Str(texts[i])
  {
    seq(|texts|, i requires 0 <= i < |texts| => Str(texts[i]))
  }

  function CollapseSelectorValues(texts: seq<Text>): Value {
    if texts == [] then NULL else if |texts| == 1 then Str(texts[0]) else Array(true, Strings(texts))
  }

  /** What is reserved for a field's value: nothing for null, else its exact size. */
  function ValueBytes(texts: seq<Text>): nat {
    QuotedBytes(texts) + if |texts| > 1 then |texts| + 1 else 0
  }

  function QuotedBytes(texts: seq<Text>): nat {
    if texts == [] then 0 else |Quote(texts[0], true)| + QuotedBytes(texts[1..])
  }

  lemma {:induction false} QuotedSnoc(texts: seq<Text>, t: Text)
    ensures QuotedBytes(texts + [t]) == QuotedBytes(texts) + |Quote(t, true)|
  {
    if texts == [] {
      assert [t][1..] == [];
      assert QuotedBytes([t]) == |Quote(t, true)| + QuotedBytes([t][1..]);
      assert texts + [t] == [t];
    } else {
      assert (texts + [t])[1..] == texts[1..] + [t];
      QuotedSnoc(texts[1..], t);
    }
  }

  lemma {:induction false} StringsSize(texts: seq<Text>)
    ensures EncodeItems(Strings(texts), DEFAULTS).Some?
    ensures |EncodeItems(Strings(texts), DEFAULTS).value| ==
            QuotedBytes(texts) + (if texts == [] then 0 else |texts| - 1)
  {
    if texts != [] {
      assert Strings(texts)[1..] == Strings(texts[1..]);
      StringsSize(texts[1..]);
    }
  }

  /** The reservation for a field's value is its JSON size, except that null reserves nothing. */
  lemma ValueBytesAreExact(texts: seq<Text>)
    ensures Encode(CollapseSelectorValues(texts), DEFAULTS).Some?
    ensures |Encode(CollapseSelectorValues(texts), DEFAULTS).value| ==
            ValueBytes(texts) + if texts == [] then 4 else 0
  {
    StringsSize(texts);
    if |texts| == 1 {
      assert texts[1..] == [];
      assert QuotedBytes(texts) == |Quote(texts[0], true)| + QuotedBytes(texts[1..]);
    }
  }

  /** Fields whose value is null. */
  function NullFields(entries: seq<Entry>): nat {
    if entries == [] then 0 else NullFields(entries[1..]) + if entries[0].item == NULL then 1 else 0
  }

  lemma {:induction false} NullFieldsSnoc(entries: seq<Entry>, e: Entry)
    ensures NullFields(entries + [e]) == NullFields(entries) + if e.item == NULL then 1 else 0
  {
    if entries == [] {
      assert entries + [e] == [e];
      assert NullFields([e][1..]) == 0;
    } else {
      assert (entries + [e])[1..] == entries[1..] + [e];
      NullFieldsSnoc(entries[1..], e);
    }
  }

  /** What extraction reserves for a finished dictionary. */
  function BaseBytes(entries: seq<Entry>): int {
    match Encode(Object(true, entries), DEFAULTS)
    case Some(t) => |t| - 4 * NullFields(entries)
    case None => 0
  }

  /** The run has a budget, and one of its limits was exceeded. */
  ghost predicate OutOfBudget(budget: RunBudget?)
    reads budget
  {
    budget != null && budget.exhausted.Some?
  }

  /** Reserve on the run's budget, if there is one, and add to the record's own count. */
  method ReserveOutput(budget: RunBudget?, amount: nat, reserved: nat) returns (ok: bool, total: nat)
    modifies budget
    ensures total == if ok && budget != null then reserved + amount else reserved
    ensures budget != null ==>
              && budget.estimatedResultBytes == old(budget.estimatedResultBytes) + total - reserved
              && budget.extractedRecords == old(budget.extractedRecords)
    ensures !ok ==> OutOfBudget(budget)
  {
    if budget == null {
      return true, reserved;
    }
    var now: real := *;
    var outcome := budget.ReserveEstimatedResultBytes(amount, now);
    ok := outcome.Accepted?;
    total := if ok then reserved + amount else reserved;
  }

  method ExtractSelectorValue(matches: Option<seq<Match>>, limit: int, budget: RunBudget?, before: nat)
    returns (value: Value, ok: bool, reserved: nat)
    modifies budget
    ensures budget != null ==>
              budget.estimatedResultBytes == old(budget.estimatedResultBytes) + reserved - before
    ensures budget != null ==> budget.extractedRecords == old(budget.extractedRecords)
    ensures ok ==> Encode(value, DEFAULTS).Some?
    ensures ok && budget != null ==>
              |Encode(value, DEFAULTS).value| == reserved - before + if value == NULL then 4 else 0
    ensures ok ==> matches.Some? && AllAllowed(matches.value, limit)
                   && value == CollapseSelectorValues(Transformed(matches.value))
    ensures !ok ==> !MatchesAllowed(matches, limit) || OutOfBudget(budget)
  {
    value, ok, reserved := NULL, false, before;
    if matches.None? {
      return;
    }
    var found := matches.value;
    var texts: seq<Text> := [];
    for i := 0 to |found|
      invariant Gathered(found, i, limit, texts)
      invariant budget != null ==>
                  && budget.estimatedResultBytes == old(budget.estimatedResultBytes) + reserved - before
                  && budget.extractedRecords == old(budget.extractedRecords)
                  && reserved == before + QuotedBytes(texts)
    {
      if !Allowed(found[i], limit) {
        return;
      }
      var transformed := found[i].transformed.value;
      var size := JsonStringSerializedSize(transformed);
      var fits;
      fits, reserved := ReserveOutput(budget, size, reserved);
      if !fits {
        return;
      }
      QuotedSnoc(texts, transformed);
      GatherOne(found, i, limit, texts);
      texts := texts + [transformed];
    }
    assert found[..|found|] == found;
    if |texts| > 1 {
      var fits;
      fits, reserved := ReserveOutput(budget, |texts| + 1, reserved);
      if !fits {
        return;
      }
    }
    ValueBytesAreExact(texts);
    value, ok := CollapseSelectorValues(texts), true;
  }

  function Transformed(found: seq<Match>): seq<Text> {
    seq(|found|, i requires 0 <= i < |found| =>
          if found[i].transformed.Some? then found[i].transformed.value else [])
  }

  predicate AllAllowed(found: seq<Match>, limit: int) {
    forall i :: 0 <= i < |found| ==> Allowed(found[i], limit)
  }

  /** Its text and what its transforms make of it are within the limit, and no transform raised. */
  predicate Allowed(found: Match, limit: int) {
    SizeAllowed(found.text, limit) && found.transformed.Some? && SizeAllowed(found.transformed.value, limit)
  }

  ghost predicate Gathered(found: seq<Match>, i: nat, limit: int, texts: seq<Text>) {
    i <= |found| && texts == Transformed(found[..i]) && AllAllowed(found[..i], limit)
  }

  lemma GatherOne(found: seq<Match>, i: nat, limit: int, texts: seq<Text>)
    requires Gathered(found, i, limit, texts) && i < |found| && Allowed(found[i], limit)
    ensures Gathered(found, i + 1, limit, texts + [found[i].transformed.value])
  {
  }

  predicate MatchesAllowed(matches: Option<seq<Match>>, limit: int) {
    matches.Some? && AllAllowed(matches.value, limit)
  }

  predicate FieldsAllowed(fields: seq<Field>, limit: int) {
    forall i :: 0 <= i < |fields| ==> MatchesAllowed(fields[i].matches, limit)
  }

  /** The dictionary holds each field's name and its collapsed transformed texts, in order. */
  ghost predicate IsExtractOf(entries: seq<Entry>, fields: seq<Field>) {
    && |entries| == |fields|
    && forall i :: 0 <= i < |fields| ==>
                     && entries[i].key == StrKey(true, fields[i].name)
                     && fields[i].matches.Some?
                     && entries[i].item == CollapseSelectorValues(Transformed(fields[i].matches.value))
  }

  /** What is reserved while the dictionary grows: its brackets and the fields so far. */
  ghost predicate Billed(entries: seq<Entry>, reserved: int) {
    && EncodeEntries(entries, DEFAULTS).Some?
    && reserved == 2 + |EncodeEntries(entries, DEFAULTS).value| - 4 * NullFields(entries)
  }

  lemma BilledSnoc(entries: seq<Entry>, e: Entry, before: int, after: int)
    requires Billed(entries, before) && EncodeEntry(e, DEFAULTS).Some?
    requires after == before + |EncodeEntry(e, DEFAULTS).value| + (if entries == [] then 0 else 1)
                      - (if e.item == NULL then 4 else 0)
    ensures Billed(entries + [e], after)
  {
    EntriesSnoc(entries, e);
    NullFieldsSnoc(entries, e);
  }

  ghost predicate Extracted(entries: seq<Entry>, fields: seq<Field>, i: nat, limit: int) {
    i <= |fields| && IsExtractOf(entries, fields[..i]) && FieldsAllowed(fields[..i], limit)
  }

  lemma ExtractSnoc(entries: seq<Entry>, e: Entry, fields: seq<Field>, i: nat, limit: int)
    requires i < |fields| && Extracted(entries, fields, i, limit) && MatchesAllowed(fields[i].matches, limit)
    requires e == Entry(StrKey(true, fields[i].name), CollapseSelectorValues(Transformed(fields[i].matches.value)))
    ensures Extracted(entries + [e], fields, i + 1, limit)
  {
  }

  /** One element's dictionary. The reservation is its JSON size less four bytes per null field. */
  method ExtractSelectorsStrict(fields: seq<Field>, limit: int, budget: RunBudget?)
    returns (entries: seq<Entry>, ok: bool, reserved: nat)
    modifies budget
    ensures budget != null ==> budget.estimatedResultBytes == old(budget.estimatedResultBytes) + reserved
    ensures budget != null ==> budget.extractedRecords == old(budget.extractedRecords)
    ensures ok ==> Encode(Object(true, entries), DEFAULTS).Some?
    ensures ok && budget != null ==> reserved == BaseBytes(entries)
    ensures ok ==> IsExtractOf(entries, fields) && FieldsAllowed(fields, limit)
    ensures !ok ==> !FieldsAllowed(fields, limit) || OutOfBudget(budget)
  {
    entries, ok, reserved := [], false, 0;
    var fits;
    fits, reserved := ReserveOutput(budget, 2, 0);
    if !fits {
      return;
    }
    for i := 0 to |fields|
      invariant |entries| == i && EncodeEntries(entries, DEFAULTS).Some?
      invariant Extracted(entries, fields, i, limit)
      invariant budget != null ==> budget.estimatedResultBytes == old(budget.estimatedResultBytes) + reserved
      invariant budget != null ==> budget.extractedRecords == old(budget.extractedRecords)
      invariant budget != null ==> Billed(entries, reserved)
    {
      ghost var before := reserved;
      var size := JsonStringSerializedSize(fields[i].name);
      fits, reserved := ReserveOutput(budget, size + 1 + (if entries != [] then 1 else 0), reserved);
      if !fits {
        return;
      }
      var value, fine;
      value, fine, reserved := ExtractSelectorValue(fields[i].matches, limit, budget, reserved);
      if !fine {
        return;
      }
      var entry := Entry(StrKey(true, fields[i].name), value);
      EntriesSnoc(entries, entry);
      if budget != null {
        BilledSnoc(entries, entry, before, reserved);
      }
      ExtractSnoc(entries, entry, fields, i, limit);
      entries := entries + [entry];
    }
    assert fields[..|fields|] == fields;
    ok := true;
  }

  lemma EntriesSnoc(entries: seq<Entry>, e: Entry)
    requires EncodeEntries(entries, DEFAULTS).Some? && EncodeEntry(e, DEFAULTS).Some?
    ensures EncodeEntries(entries + [e], DEFAULTS).Some?
    ensures |EncodeEntries(entries + [e], DEFAULTS).value| ==
            |EncodeEntries(entries, DEFAULTS).value| + |EncodeEntry(e, DEFAULTS).value|
            + if entries == [] then 0 else 1
  {
    EncodeEntriesAppend(entries, [e], DEFAULTS);
    assert EncodeEntries([e][1..], DEFAULTS) == Some([]);
    assert EncodeEntries([e], DEFAULTS) == EncodeEntry(e, DEFAULTS);
  }

  /** The total charge for one record: its larger size, before or after enrichment, and a separator. */
  function RecordBytes(base: int, final: Value): int {
    match Encode(final, DEFAULTS)
    case Some(t) => (if |t| > base then |t| else base) + 1
    case None => 0
  }

  function PageBytes(extracted: seq<seq<Entry>>, data: seq<Value>): int
    requires |extracted| == |data|
  {
    if data == [] then 0
    else RecordBytes(BaseBytes(extracted[0]), data[0]) + PageBytes(extracted[1..], data[1..])
  }

  lemma {:induction false} PageSnoc(extracted: seq<seq<Entry>>, data: seq<Value>, entries: seq<Entry>, final: Value)
    requires |extracted| == |data|
    ensures PageBytes(extracted + [entries], data + [final]) ==
            PageBytes(extracted, data) + RecordBytes(BaseBytes(entries), final)
  {
    if data == [] {
      assert extracted + [entries] == [entries] && data + [final] == [final];
      assert PageBytes([entries][1..], [final][1..]) == 0;
    } else {
      assert (extracted + [entries])[1..] == extracted[1..] + [entries];
      assert (data + [final])[1..] == data[1..] + [final];
      PageSnoc(extracted[1..], data[1..], entries, final);
    }
  }

  /** Detection raised on the extracted record, or made something JSON cannot hold. */
  ghost predicate CannotEnrich(fields: seq<Field>, enrich: Value -> Option<Value>, extracted: seq<Entry>) {
    && IsExtractOf(extracted, fields)
    && var final := enrich(Object(true, extracted));
       final.None? || Encode(final.value, DEFAULTS).None?
  }

  /** One record: extract, enrich in place, and charge any growth and the separator. `charged` is
      what this record's own reservations add up to, whatever else is reserved meanwhile. */
  method ExtractRecord(fields: seq<Field>, limit: int, enrich: Value -> Option<Value>, budget: RunBudget?)
    returns (record: Value, ok: bool, charged: nat, ghost extracted: seq<Entry>)
    modifies budget
    ensures budget != null ==> budget.extractedRecords == old(budget.extractedRecords)
    ensures budget != null ==> budget.estimatedResultBytes == old(budget.estimatedResultBytes) + charged
    ensures ok ==> IsExtractOf(extracted, fields) && enrich(Object(true, extracted)) == Some(record)
    ensures ok && budget != null ==> Encode(record, DEFAULTS).Some?
    ensures ok && budget != null ==> charged == RecordBytes(BaseBytes(extracted), record)
    ensures !ok ==> OutOfBudget(budget) || !FieldsAllowed(fields, limit) || CannotEnrich(fields, enrich, extracted)
  {
    var entries, fine, reserved := ExtractSelectorsStrict(fields, limit, budget);
    record, ok, charged, extracted := NULL, false, reserved, entries;
    if !fine {
      return;
    }
    var final := enrich(Object(true, entries));
    if final.None? {
      return;
    }
    if budget != null {
      var size := CompactJsonSize(final.value, SIZE_WALK_DEPTH);
      if size.None? {
        return;
      }
      var growth := if size.value > reserved then size.value - reserved else 0;
      fine, charged := ReserveOutput(budget, growth + 1, reserved);
      if !fine {
        return;
      }
    }
    record, ok := final.value, true;
  }

  /** Each record is the enriched extract of its item. */
  ghost predicate AreRecords(items: seq<seq<Field>>, enrich: (nat, Value) -> Option<Value>,
                             extracted: seq<seq<Entry>>, data: seq<Value>)
  {
    && |extracted| == |data| <= |items|
    && forall i :: 0 <= i < |data| ==>
                     && IsExtractOf(extracted[i], items[i])
                     && enrich(i, Object(true, extracted[i])) == Some(data[i])
  }

  ghost predicate PageBilled(extracted: seq<seq<Entry>>, data: seq<Value>, reserved: int) {
    |extracted| == |data| && EncodeItems(data, DEFAULTS).Some? && reserved == PageBytes(extracted, data)
  }

  lemma PageBilledSnoc(extracted: seq<seq<Entry>>, data: seq<Value>, reserved: int, entries: seq<Entry>, final: Value)
    requires PageBilled(extracted, data, reserved) && Encode(final, DEFAULTS).Some?
    ensures PageBilled(extracted + [entries], data + [final], reserved + RecordBytes(BaseBytes(entries), final))
  {
    EncodeItemsAppend(data, [final], DEFAULTS);
    OneItem(final, DEFAULTS);
    PageSnoc(extracted, data, entries, final);
  }

  function EnrichAt(enrich: (nat, Value) -> Option<Value>, i: nat): Value -> Option<Value> {
    value => enrich(i, value)
  }

  ghost predicate CannotExtract(items: seq<seq<Field>>, i: nat, limit: int, enrich: (nat, Value) -> Option<Value>)
    requires i < |items|
  {
    !FieldsAllowed(items[i], limit)
    || exists extracted :: CannotEnrich(items[i], EnrichAt(enrich, i), extracted)
  }

  /** The records of one page, each extracted, enriched in place and charged; `charged` is the sum
      of this page's own reservations.

      `enrich` is price and stock detection, which may change the dictionary in any way or raise. */
  method ExtractPageData(items: seq<seq<Field>>, limit: int, enrich: (nat, Value) -> Option<Value>,
                         budget: RunBudget?)
    returns (data: seq<Value>, ok: bool, charged: nat, ghost extracted: seq<seq<Entry>>)
    modifies budget
    ensures |extracted| == |data| <= |items|
    ensures ok ==> |data| == |items|
    ensures AreRecords(items, enrich, extracted, data)
    ensures budget != null ==> budget.estimatedResultBytes == old(budget.estimatedResultBytes) + charged
    ensures ok && budget != null ==> budget.extractedRecords == old(budget.extractedRecords) + |items|
    ensures ok && budget != null ==>
              EncodeItems(data, DEFAULTS).Some? && charged == PageBytes(extracted, data)
    ensures ok && budget != null && data != [] ==>
              |Encode(Array(true, data), DEFAULTS).value| <= charged + 1
    ensures !ok ==> OutOfBudget(budget) || (|data| < |items| && CannotExtract(items, |data|, limit, enrich))
  {
    data, ok, charged, extracted := [], false, 0, [];
    if budget != null {
      var now: real := *;
      var outcome := budget.ReserveExtractedRecords(|items|, now);
      if !outcome.Accepted? {
        return;
      }
    }
    for i := 0 to |items|
      invariant |extracted| == |data| == i
      invariant AreRecords(items, enrich, extracted, data)
      invariant budget != null ==> budget.extractedRecords == old(budget.extractedRecords) + |items|
      invariant budget != null ==> budget.estimatedResultBytes == old(budget.estimatedResultBytes) + charged
      invariant budget != null ==> PageBilled(extracted, data, charged)
    {
      var final, fine, bytes;
      ghost var entries;
      final, fine, bytes, entries := ExtractRecord(items[i], limit, EnrichAt(enrich, i), budget);
      if budget != null && fine {
        PageBilledSnoc(extracted, data, charged, entries, final);
      }
      charged := charged + bytes;
      if !fine {
        return;
      }
      data, extracted := data + [final], extracted + [entries];
    }
    ok := true;
    if budget != null && data != [] {
      PageFits(extracted, data);
    }
  }

  /** The records and their brackets and commas take at most one byte more than was charged. */
  lemma {:induction false} PageFits(extracted: seq<seq<Entry>>, data: seq<Value>)
    requires |extracted| == |data| && data != []
    requires EncodeItems(data, DEFAULTS).Some?
    ensures |Encode(Array(true, data), DEFAULTS).value| <= PageBytes(extracted, data) + 1
  {
    if |data| == 1 {
      assert PageBytes(extracted[1..], data[1..]) == 0;
    } else {
      PageFits(extracted[1..], data[1..]);
    }
  }
}

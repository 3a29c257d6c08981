/** What a catalog document says, name by name: the fields kazenai/catalog_document.py reads and writes, each under
    the name the document gives it. */
module CatalogNames {
  import opened Wrappers
  import opened Decimals
  import opened Text
  import opened CatalogJson
  import opened CatalogDocument

  // ------------------------------------------------------------------ single values

  /** The value under a name; an object without it has null there. */
  function Under(node: Json, name: string): Json { if node.Obj? then Get(node.entries, name) else Null }

  predicate IsDecimal(rd: Readers, node: Json, d: Dec) {
    match node
    case Str(s) => rd.decimal(s) == Some(d)
    case Int(n) => d == Dec(n, 0)
    case _ => false
  }

  predicate IsOptionalDecimal(rd: Readers, node: Json, d: Option<Dec>) {
    if node.Null? then d.None? else d.Some? && IsDecimal(rd, node, d.value)
  }

  predicate Says(node: Json, s: string) { node.Str? && s != "" && s == Strip(node.s) }

  predicate SaysLower(node: Json, s: string) { node.Str? && Strip(node.s) != "" && s == Lower(Strip(node.s)) }

  predicate IsInstant(rd: Readers, node: Json, s: Option<string>) {
    if node.Null? then s.None? else s.Some? && Says(node, s.value) && rd.instant(s.value).Some?
  }

  predicate IsOptionalInt(node: Json, n: Option<int>) { if node.Null? then n.None? else n.Some? && node == Int(n.value) }

  // ------------------------------------------------------------------ rates, entries and rows

  predicate RatesUnder(rd: Readers, node: Json, r: Rates) {
    && node.Obj?
    && IsDecimal(rd, Under(node, "input"), r.input)
    && IsOptionalDecimal(rd, Under(node, "cached_input"), r.cachedInput)
    && IsOptionalDecimal(rd, Under(node, "cache_write_5m"), r.cacheWrite5m)
    && IsOptionalDecimal(rd, Under(node, "cache_write_1h"), r.cacheWrite1h)
    && IsDecimal(rd, Under(node, "output"), r.output)
    && IsOptionalDecimal(rd, Under(node, "image"), r.image)
    && IsOptionalDecimal(rd, Under(node, "tool_per_call"), r.toolPerCall)
    && IsOptionalDecimal(rd, Under(node, "audio_input"), r.audioInput)
    && IsOptionalDecimal(rd, Under(node, "audio_cached_input"), r.audioCachedInput)
  }

  predicate EntryUnder(rd: Readers, node: Json, e: Scheduled) {
    IsInstant(rd, Under(node, "effective_from"), e.effectiveFrom) && RatesUnder(rd, Under(node, "rates"), e.rates)
  }

  /** Python's false values. */
  predicate IsFalse(j: Json) { j in [Null, Bool(false), Int(0), Float(true), Str(""), List([]), Obj([])] }

  /** The scheduled entries in their order; null, an empty list and the like are none. */
  predicate ScheduleUnder(rd: Readers, node: Json, s: seq<Scheduled>) {
    if IsFalse(node) then s == []
    else node.List? && |node.items| == |s| && forall i :: 0 <= i < |s| ==> EntryUnder(rd, node.items[i], s[i])
  }

  predicate RowUnder(rd: Readers, node: Json, r: Row) {
    && node.Obj?
    && SaysLower(Under(node, "provider"), r.provider)
    && SaysLower(Under(node, "model"), r.model)
    && SaysLower(Under(node, "request_tier"), r.tier)
    && SaysLower(Under(node, "context_band"), r.band)
    && Says(Under(node, "expected_reported_tier"), r.expectedTier)
    && RatesUnder(rd, Under(node, "rates"), r.rates)
    && (if Has(node.entries, "certified") then Under(node, "certified") == Bool(r.certified) else r.certified)
    && Says(Under(node, "source_url"), r.sourceUrl)
    && Says(Under(node, "verified_on"), r.verifiedOn)
    && IsOptionalInt(Under(node, "long_context_threshold"), r.threshold)
    && Says(Under(node, "pricing_rule"), r.pricingRule)
    && ScheduleUnder(rd, Under(node, "scheduled"), r.scheduled)
    && IsInstant(rd, Under(node, "valid_until"), r.validUntil)
  }

  ghost predicate Describes(rd: Readers, node: Json, rows: map<RowKey, Row>) { exists k :: k in rows && RowUnder(rd, node, rows[k]) }

  ghost predicate Listed(rd: Readers, r: Row, items: seq<Json>) { exists i :: 0 <= i < |items| && RowUnder(rd, items[i], r) }

  /** The rows are the listed objects, one each. */
  ghost predicate RowsUnder(rd: Readers, node: Json, rows: map<RowKey, Row>) {
    && node.List? && |rows| == |node.items|
    && (forall i :: 0 <= i < |node.items| ==> Describes(rd, node.items[i], rows))
    && forall k <- rows :: KeyOfRow(rows[k]) == k && Listed(rd, rows[k], node.items)
  }

  // ------------------------------------------------------------------ dictionaries and sections

  /** The last entry of that name, and what it reads as. */
  ghost predicate LastNamed<T>(es: seq<Entry>, named: (string, string) -> bool, says: (Json, T) -> bool, k: string, v: T, i: int) {
    && 0 <= i < |es| && named(es[i].key, k) && says(es[i].value, v)
    && forall j :: i < j < |es| ==> !named(es[j].key, k)
  }

  ghost predicate Said<T>(es: seq<Entry>, named: (string, string) -> bool, says: (Json, T) -> bool, k: string, v: T) {
    exists i :: LastNamed(es, named, says, k, v, i)
  }

  ghost predicate Names<T>(e: Entry, named: (string, string) -> bool, m: map<string, T>) { exists k :: k in m && named(e.key, k) }

  /** A dictionary holds what the entries say under its names, a later one counting, and nothing else. */
  ghost predicate DictUnder<T>(node: Json, named: (string, string) -> bool, says: (Json, T) -> bool, m: map<string, T>) {
    && node.Obj?
    && (forall i :: 0 <= i < |node.entries| ==> Names(node.entries[i], named, m))
    && forall k <- m :: Said(node.entries, named, says, k, m[k])
  }

  predicate NamedLower(k: string, name: string) { name == Lower(k) }

  predicate NamedText(k: string, name: string) { Says(Str(k), name) }

  predicate NamedLowerText(k: string, name: string) { SaysLower(Str(k), name) }

  predicate NamedSame(k: string, name: string) { name == k }

  predicate IsPair(node: Json, p: (int, int)) { node == List([Int(p.0), Int(p.1)]) }

  predicate IsInt(node: Json, n: int) { node == Int(n) }

  /** An edge, and a budget or null. */
  predicate IsLimits(node: Json, l: Limits) {
    node.List? && |node.items| == 2 && node.items[0] == Int(l.edge) && IsOptionalInt(node.items[1], l.budget)
  }

  predicate AreTexts(node: Json, ss: seq<string>) {
    node.List? && |node.items| == |ss| && forall i :: 0 <= i < |ss| ==> Says(node.items[i], ss[i])
  }

  predicate AreLowerTexts(node: Json, ss: seq<string>) {
    node.List? && |node.items| == |ss| && forall i :: 0 <= i < |ss| ==> SaysLower(node.items[i], ss[i])
  }

  ghost predicate IsSizing(node: Json, m: map<string, Limits>) { DictUnder(node, NamedSame, IsLimits, m) }

  function DecimalReads(rd: Readers): (Json, Dec) -> bool { (node: Json, d: Dec) => IsDecimal(rd, node, d) }

  ghost predicate AnthropicUnder(rd: Readers, node: Json, a: Anthropic) {
    && AreTexts(Under(node, "client_tool_versions"), a.toolVersions)
    && DictUnder(Under(node, "tool_system_prompt_tokens"), NamedLower, IsPair, a.promptTokens)
    && Under(node, "tool_system_prompt_fallback") == Int(a.promptFallback)
    && DictUnder(Under(node, "tool_definition_tokens"), NamedText, IsInt, a.definitionTokens)
    && AreLowerTexts(Under(node, "allowed_speeds"), a.allowedSpeeds)
    && DictUnder(Under(node, "inference_geo_multipliers"), NamedLowerText, DecimalReads(rd), a.geoMultipliers)
  }

  ghost predicate OpenAiUnder(rd: Readers, node: Json, a: OpenAi) {
    && DictUnder(Under(node, "image_tile_models"), NamedLower, IsPair, a.tileModels)
    && DictUnder(Under(node, "image_patch_multipliers"), NamedLower, DecimalReads(rd), a.patchMultipliers)
    && DictUnder(Under(node, "image_patch_sizing"), NamedLower, IsSizing, a.patchSizing)
  }

  ghost predicate EndpointsUnder(rd: Readers, node: Json, e: Endpoints) {
    && DictUnder(Under(node, "first_party_api_hosts"), NamedLowerText, AreLowerTexts, e.apiHosts)
    && IsDecimal(rd, Under(node, "non_first_party_uplift"), e.uplift)
  }

  /** The whole document. */
  ghost predicate DocumentUnder(rd: Readers, node: Json, b: Bundle) {
    && node.Obj?
    && Under(node, "schema") == Str("kazenai.price-catalog.v1")
    && Says(Under(node, "catalog_version"), b.version)
    && IsInstant(rd, Under(node, "issued_at"), b.issuedAt) && b.issuedAt.Some?
    && IsInstant(rd, Under(node, "expires_at"), b.expiresAt) && b.expiresAt.Some?
    && Under(node, "currency") == Str("USD") && Under(node, "unit") == Str("per_1m_tokens")
    && Under(node, "rounding_rule") == Str("decimal_half_even_to_nanos_then_ceil_micro_usd")
    && RowsUnder(rd, Under(node, "rows"), b.rows)
    && DictUnder(Under(node, "aliases"), NamedLowerText, SaysLower, b.aliases)
    && AnthropicUnder(rd, Under(node, "anthropic"), b.anthropic)
    && OpenAiUnder(rd, Under(node, "openai"), b.openai)
    && EndpointsUnder(rd, Under(node, "endpoints"), b.endpoints)
  }

  // ------------------------------------------------------------------ what is parsed is what is said

  lemma ParsedDecimal(rd: Readers, node: Json, least: nat)
    ensures ParseDecimal(rd, node, least).Ok? ==> IsDecimal(rd, node, ParseDecimal(rd, node, least).value)
    ensures ParseOptionalDec(rd, node).Ok? ==> IsOptionalDecimal(rd, node, ParseOptionalDec(rd, node).value)
  {
  }

  /** A decimal is taken exactly when the node is one, as text or as an integer, and is not below the least. */
  lemma DecimalsAreTaken(rd: Readers, node: Json, least: nat, d: Dec)
    ensures ParseDecimal(rd, node, least) == Ok(d) <==> IsDecimal(rd, node, d) && d.coefficient >= least * PowerOfTen(d.scale)
    ensures ParseOptionalDec(rd, node) == Ok(None) <==> node.Null?
    ensures ParseOptionalDec(rd, node) == Ok(Some(d)) <==> IsDecimal(rd, node, d) && d.coefficient >= 0
  {
    hide PowerOfTen;
    assert 0 * PowerOfTen(d.scale) == 0;
  }

  lemma ParsedText(node: Json)
    ensures ParseText(node).Ok? ==> Says(node, ParseText(node).value)
    ensures ParseLowerText(node).Ok? ==> SaysLower(node, ParseLowerText(node).value)
  {
  }

  lemma ParsedInstant(rd: Readers, node: Json)
    ensures ParseInstant(rd, node).Ok? ==> IsInstant(rd, node, ParseInstant(rd, node).value)
    ensures ParseThreshold(node).Ok? ==> IsOptionalInt(node, ParseThreshold(node).value)
  {
    hide Strip;
  }

  /** Each of the nine rates is the decimal under its own name, and is absent where that is absent or null. */
  lemma ParsedRatesAreNamed(rd: Readers, node: Json)
    ensures ParseRates(rd, node).Ok? ==> RatesUnder(rd, node, ParseRates(rd, node).value)
  {
    if ParseRates(rd, node).Ok? {
      var vs := Read(node.entries, RATES);
      assert vs[0] == Under(node, "input") && vs[1] == Under(node, "cached_input") && vs[2] == Under(node, "cache_write_5m");
      assert vs[3] == Under(node, "cache_write_1h") && vs[4] == Under(node, "output") && vs[5] == Under(node, "image");
      assert vs[6] == Under(node, "tool_per_call") && vs[7] == Under(node, "audio_input") && vs[8] == Under(node, "audio_cached_input");
      forall j: Json | true
        ensures ParseDecimal(rd, j, 0).Ok? ==> IsDecimal(rd, j, ParseDecimal(rd, j, 0).value)
        ensures ParseOptionalDec(rd, j).Ok? ==> IsOptionalDecimal(rd, j, ParseOptionalDec(rd, j).value)
      {
        ParsedDecimal(rd, j, 0);
      }
      hide ParseDecimal, ParseOptionalDec, IsDecimal, IsOptionalDecimal, Under, Read, ExactKeys;
      assert ParseRateValues(rd, vs) == ParseRates(rd, node);
    }
  }

  lemma ParsedEntryIsNamed(rd: Readers, node: Json)
    ensures ParseScheduledEntry(rd, node).Ok? ==> EntryUnder(rd, node, ParseScheduledEntry(rd, node).value)
  {
    hide ParseInstant, ParseRates, IsInstant, RatesUnder;
    if ParseScheduledEntry(rd, node).Ok? {
      var vs := Read(node.entries, SCHEDULED);
      assert vs[0] == Under(node, "effective_from") && vs[1] == Under(node, "rates");
      ParsedInstant(rd, vs[0]);
      ParsedRatesAreNamed(rd, vs[1]);
    }
  }

  lemma {:induction false} ParsedListIsNamed<T>(items: seq<Json>, parse: Json -> Parsed<T>, says: (Json, T) -> bool)
    requires forall j <- items :: parse(j).Ok? ==> says(j, parse(j).value)
    requires ParseList(items, parse).Ok?
    ensures var ts := ParseList(items, parse).value; |ts| == |items| && forall i :: 0 <= i < |ts| ==> says(items[i], ts[i])
  {
    if items != [] {
      assert items[0] in items && forall j <- items[1..] :: j in items;
      ParsedListIsNamed(items[1..], parse, says);
      assert forall i :: 0 < i < |items| ==> items[i] == items[1..][i - 1];
    }
  }

  /** A false value is an empty schedule, and nothing else but a list is one at all. */
  lemma FalseIsNoSchedule(rd: Readers, node: Json)
    ensures IsFalse(node) ==> ParseScheduled(rd, node) == Ok([])
    ensures !IsFalse(node) && !node.List? ==> ParseScheduled(rd, node).Err?
    ensures Falsy(node) <==> IsFalse(node)
  {
  }

  /** An alias key is taken, stripped and in lower case, unless it is blank or holds a character that patterns use. */
  lemma AliasesAreExactNames(k: string, n: string)
    ensures AliasKey(k) == Ok(n) <==>
              && n == Lower(Strip(k)) && Strip(k) != ""
              && '*' !in n && '?' !in n && '[' !in n && ']' !in n && '{' !in n && '}' !in n && '(' !in n && ')' !in n
              && '|' !in n && '+' !in n && '^' !in n && '$' !in n && '\\' !in n
  {
    WildIsListed();
    hide WILD, Strip, Lower;
  }

  lemma WildIsListed()
    ensures forall c: char :: c in WILD <==> c in {'*', '?', '[', ']', '{', '}', '(', ')', '|', '+', '^', '$', '\\'}
  {
    assert WILD == ['*', '?', '[', ']', '{', '}', '(', ')', '|', '+', '^', '$', '\\'];
  }

  lemma ParsedScheduleIsNamed(rd: Readers, node: Json)
    ensures ParseScheduled(rd, node).Ok? ==> ScheduleUnder(rd, node, ParseScheduled(rd, node).value)
  {
    hide ParseScheduledEntry, EntryUnder;
    FalseIsNoSchedule(rd, node);
    if ParseScheduled(rd, node).Ok? && !IsFalse(node) {
      forall j: Json | EntryParser(rd)(j).Ok? ensures EntryUnder(rd, j, EntryParser(rd)(j).value) { ParsedEntryIsNamed(rd, j); }
      ParsedListIsNamed(node.items, EntryParser(rd), (j: Json, e: Scheduled) => EntryUnder(rd, j, e));
    }
  }

  lemma RowFieldsByName(node: Json, vs: seq<Json>)
    requires node.Obj? && vs == Read(node.entries, ROW)
    ensures |vs| == |ROW| && vs[0] == Under(node, "provider") && vs[1] == Under(node, "model") && vs[2] == Under(node, "request_tier")
    ensures vs[3] == Under(node, "context_band") && vs[4] == Under(node, "expected_reported_tier") && vs[5] == Under(node, "rates")
    ensures vs[7] == Under(node, "source_url") && vs[8] == Under(node, "verified_on") && vs[9] == Under(node, "long_context_threshold")
    ensures vs[10] == Under(node, "pricing_rule") && vs[11] == Under(node, "scheduled") && vs[12] == Under(node, "valid_until")
  {
  }

  /** Every field of a row is what stands under its own name; only a row that says so is not certified. */
  lemma ParsedRowIsNamed(rd: Readers, version: string, node: Json)
    ensures ParseRow(rd, version, node).Ok? ==> RowUnder(rd, node, ParseRow(rd, version, node).value)
  {
    hide ParseInstant, ParseRates, ParseScheduled, ParseText, ParseLowerText, ParseThreshold, Says, SaysLower, IsInstant, RatesUnder, ScheduleUnder,
      IsOptionalInt, Read, Has, Get;
    if ParseRow(rd, version, node).Ok? {
      var vs := Read(node.entries, ROW);
      RowFieldsByName(node, vs);
      forall j: Json | true
        ensures ParseText(j).Ok? ==> Says(j, ParseText(j).value)
        ensures ParseLowerText(j).Ok? ==> SaysLower(j, ParseLowerText(j).value)
      {
        ParsedText(j);
      }
      ParsedRatesAreNamed(rd, vs[5]);
      ParsedInstant(rd, vs[9]);
      ParsedScheduleIsNamed(rd, vs[11]);
      ParsedInstant(rd, vs[12]);
    }
  }

  lemma ListedStays(rd: Readers, r: Row, items: seq<Json>, node: Json)
    ensures Listed(rd, r, items) || RowUnder(rd, node, r) ==> Listed(rd, r, items + [node])
  {
    hide RowUnder;
    var all := items + [node];
    if i :| 0 <= i < |items| && RowUnder(rd, items[i], r) {
      assert all[i] == items[i];
    } else if RowUnder(rd, node, r) {
      assert all[|items|] == node;
    }
  }

  lemma DescribesStays(rd: Readers, node: Json, rows: map<RowKey, Row>, row: Row)
    requires KeyOfRow(row) !in rows
    ensures Describes(rd, node, rows) || RowUnder(rd, node, row) ==> Describes(rd, node, rows[KeyOfRow(row) := row])
  {
    hide RowUnder, KeyOfRow;
    var more := rows[KeyOfRow(row) := row];
    if k :| k in rows && RowUnder(rd, node, rows[k]) {
      assert k in more && more[k] == rows[k];
    } else if RowUnder(rd, node, row) {
      assert more[KeyOfRow(row)] == row;
    }
  }

  lemma RowsUnderAppends(rd: Readers, items: seq<Json>, rows: map<RowKey, Row>, node: Json, row: Row)
    requires RowsUnder(rd, List(items), rows) && RowUnder(rd, node, row) && KeyOfRow(row) !in rows
    ensures RowsUnder(rd, List(items + [node]), rows[KeyOfRow(row) := row])
  {
    hide RowUnder, Describes, Listed;
    var all, more := items + [node], rows[KeyOfRow(row) := row];
    forall i | 0 <= i < |all| ensures Describes(rd, all[i], more) {
      assert all[i] == if i < |items| then items[i] else node;
      DescribesStays(rd, all[i], rows, row);
    }
    forall k | k in more ensures KeyOfRow(more[k]) == k && Listed(rd, more[k], all) {
      ListedStays(rd, more[k], items, node);
    }
  }

  lemma {:induction false} ParsedRowsAreNamed(rd: Readers, version: string, items: seq<Json>)
    requires ParseRows(rd, version, items).Ok?
    ensures RowsUnder(rd, List(items), ParseRows(rd, version, items).value)
  {
    hide ParseRow, RowUnder, Describes, Listed;
    if items != [] {
      var front, last := items[..|items| - 1], items[|items| - 1];
      ParsedRowsAreNamed(rd, version, front);
      ParsedRowIsNamed(rd, version, last);
      hide RowsUnder;
      RowsUnderAppends(rd, front, ParseRows(rd, version, front).value, last, ParseRow(rd, version, last).value);
      assert front + [last] == items;
    }
  }

  lemma DictUnderAppends<T>(
    es: seq<Entry>, named: (string, string) -> bool, says: (Json, T) -> bool, m: map<string, T>, e: Entry, k': string, v: T)
    requires DictUnder(Obj(es), named, says, m) && says(e.value, v) && forall n: string :: named(e.key, n) <==> n == k'
    ensures DictUnder(Obj(es + [e]), named, says, m[k' := v])
  {
    var all, more := es + [e], m[k' := v];
    forall i | 0 <= i < |all| ensures Names(all[i], named, more) {
      if i < |es| {
        assert all[i] == es[i] && Names(es[i], named, m);
        var k :| k in m && named(es[i].key, k);
        assert k in more;
      } else {
        assert k' in more && named(all[i].key, k');
      }
    }
    forall k | k in more ensures Said(all, named, says, k, more[k]) {
      if k == k' {
        assert LastNamed(all, named, says, k, more[k], |es|);
      } else {
        assert Said(es, named, says, k, m[k]);
        var i :| LastNamed(es, named, says, k, m[k], i);
        LastStaysLast(es, named, says, k, m[k], i, e);
      }
    }
  }

  lemma LastStaysLast<T>(
    es: seq<Entry>, named: (string, string) -> bool, says: (Json, T) -> bool, k: string, v: T, i: int, e: Entry)
    requires LastNamed(es, named, says, k, v, i) && !named(e.key, k)
    ensures LastNamed(es + [e], named, says, k, v, i)
  {
  }

  /** Reading a dictionary's entries one after the other gives what they say. */
  lemma {:induction false} ParsedDictIsNamed<T>(
    es: seq<Entry>, key: string -> Parsed<string>, parse: Json -> Parsed<T>, named: (string, string) -> bool, says: (Json, T) -> bool)
    requires forall k, n: string :: key(k).Ok? ==> (named(k, n) <==> n == key(k).value)
    requires forall j: Json :: parse(j).Ok? ==> says(j, parse(j).value)
    requires ParseDict(es, key, parse).Ok?
    ensures DictUnder(Obj(es), named, says, ParseDict(es, key, parse).value)
  {
    if es != [] {
      var front, last := es[..|es| - 1], es[|es| - 1];
      ParsedDictIsNamed(front, key, parse, named, says);
      hide DictUnder;
      DictUnderAppends(front, named, says, ParseDict(front, key, parse).value, last, key(last.key).value, parse(last.value).value);
      assert front + [last] == es;
    }
  }

  lemma ParsedSectionIsNamed<T>(node: Json, key: string -> Parsed<string>, parse: Json -> Parsed<T>, named: (string, string) -> bool, says: (Json, T) -> bool)
    requires forall k, n: string :: key(k).Ok? ==> (named(k, n) <==> n == key(k).value)
    requires forall j: Json :: parse(j).Ok? ==> says(j, parse(j).value)
    requires ParseSection(node, key, parse).Ok?
    ensures DictUnder(node, named, says, ParseSection(node, key, parse).value)
  {
    ParsedDictIsNamed(node.entries, key, parse, named, says);
  }

  lemma KeysAreNamed(k: string, n: string)
    ensures KeyLower(k).Ok? ==> (NamedLower(k, n) <==> n == KeyLower(k).value)
    ensures KeyText(k).Ok? ==> (NamedText(k, n) <==> n == KeyText(k).value)
    ensures KeyLowerText(k).Ok? ==> (NamedLowerText(k, n) <==> n == KeyLowerText(k).value)
    ensures DetailKey(k).Ok? ==> (NamedSame(k, n) <==> n == DetailKey(k).value)
    ensures AliasKey(k).Ok? ==> (NamedLowerText(k, n) <==> n == AliasKey(k).value)
  {
    hide Strip, HasWild;
  }

  lemma ParsedPair(least: int, node: Json)
    ensures PairParser(least)(node).Ok? ==> IsPair(node, PairParser(least)(node).value)
    ensures IntParser(least)(node).Ok? ==> IsInt(node, IntParser(least)(node).value)
  {
    if PairParser(least)(node).Ok? { assert node.items == [node.items[0], node.items[1]]; }
  }

  lemma ParsedTextsAreNamed(node: Json)
    ensures ParseTexts(node).Ok? ==> AreTexts(node, ParseTexts(node).value)
    ensures ParseLowerTexts(node).Ok? ==> AreLowerTexts(node, ParseLowerTexts(node).value)
  {
    forall j: Json | true
      ensures ParseText(j).Ok? ==> Says(j, ParseText(j).value)
      ensures ParseLowerText(j).Ok? ==> SaysLower(j, ParseLowerText(j).value)
    {
      ParsedText(j);
    }
    hide ParseText, ParseLowerText, Says, SaysLower;
    if ParseTexts(node).Ok? { ParsedListIsNamed(node.items, ParseText, Says); }
    if ParseLowerTexts(node).Ok? { ParsedListIsNamed(node.items, ParseLowerText, SaysLower); }
  }

  lemma ParsedSizingIsNamed(node: Json)
    ensures ParseSizing(node).Ok? ==> IsSizing(node, ParseSizing(node).value)
  {
    if ParseSizing(node).Ok? {
      forall k, n: string | true ensures DetailKey(k).Ok? ==> (NamedSame(k, n) <==> n == DetailKey(k).value) { KeysAreNamed(k, n); }
      ParsedDictIsNamed(node.entries, DetailKey, ParseLimits, NamedSame, IsLimits);
    }
  }

  // ------------------------------------------------------------------ sections and the document

  lemma AllKeysAreNamed()
    ensures forall k, n: string :: KeyLower(k).Ok? ==> (NamedLower(k, n) <==> n == KeyLower(k).value)
    ensures forall k, n: string :: KeyText(k).Ok? ==> (NamedText(k, n) <==> n == KeyText(k).value)
    ensures forall k, n: string :: KeyLowerText(k).Ok? ==> (NamedLowerText(k, n) <==> n == KeyLowerText(k).value)
    ensures forall k, n: string :: AliasKey(k).Ok? ==> (NamedLowerText(k, n) <==> n == AliasKey(k).value)
  {
    forall k, n: string | true
      ensures KeyLower(k).Ok? ==> (NamedLower(k, n) <==> n == KeyLower(k).value)
      ensures KeyText(k).Ok? ==> (NamedText(k, n) <==> n == KeyText(k).value)
      ensures KeyLowerText(k).Ok? ==> (NamedLowerText(k, n) <==> n == KeyLowerText(k).value)
      ensures AliasKey(k).Ok? ==> (NamedLowerText(k, n) <==> n == AliasKey(k).value)
    {
      KeysAreNamed(k, n);
    }
  }

  lemma AllValuesAreNamed(rd: Readers)
    ensures forall j: Json, least: int :: PairParser(least)(j).Ok? ==> IsPair(j, PairParser(least)(j).value)
    ensures forall j: Json, least: int :: IntParser(least)(j).Ok? ==> IsInt(j, IntParser(least)(j).value)
    ensures forall j: Json, least: nat :: DecParser(rd, least)(j).Ok? ==> DecimalReads(rd)(j, DecParser(rd, least)(j).value)
  {
    forall j: Json, least: int | true
      ensures PairParser(least)(j).Ok? ==> IsPair(j, PairParser(least)(j).value)
      ensures IntParser(least)(j).Ok? ==> IsInt(j, IntParser(least)(j).value)
    {
      ParsedPair(least, j);
    }
    forall j: Json, least: nat | true ensures DecParser(rd, least)(j).Ok? ==> DecimalReads(rd)(j, DecParser(rd, least)(j).value) {
      ParsedDecimal(rd, j, least);
    }
  }

  lemma ParsedAnthropicIsNamed(rd: Readers, node: Json)
    ensures ParseAnthropic(rd, node).Ok? ==> AnthropicUnder(rd, node, ParseAnthropic(rd, node).value)
  {
    if ParseAnthropic(rd, node).Ok? {
      var vs := Read(node.entries, ANTHROPIC);
      assert vs[0] == Under(node, "client_tool_versions") && vs[1] == Under(node, "tool_system_prompt_tokens");
      assert vs[2] == Under(node, "tool_system_prompt_fallback") && vs[3] == Under(node, "tool_definition_tokens");
      assert vs[4] == Under(node, "allowed_speeds") && vs[5] == Under(node, "inference_geo_multipliers");
      AllKeysAreNamed();
      AllValuesAreNamed(rd);
      hide ParseTexts, ParseLowerTexts, ParseSection, DictUnder, AreTexts, AreLowerTexts, KeyLower, KeyText, KeyLowerText, NamedLower, NamedText,
        NamedLowerText, IsPair, IsInt, PairParser, IntParser, DecParser, DecimalReads, Read, Under, Get;
      ParsedTextsAreNamed(vs[0]);
      ParsedTextsAreNamed(vs[4]);
      ParsedSectionIsNamed(vs[1], KeyLower, PairParser(0), NamedLower, IsPair);
      ParsedSectionIsNamed(vs[3], KeyText, IntParser(0), NamedText, IsInt);
      ParsedSectionIsNamed(vs[5], KeyLowerText, DecParser(rd, 1), NamedLowerText, DecimalReads(rd));
    }
  }

  lemma ParsedOpenAiIsNamed(rd: Readers, node: Json)
    ensures ParseOpenAi(rd, node).Ok? ==> OpenAiUnder(rd, node, ParseOpenAi(rd, node).value)
  {
    if ParseOpenAi(rd, node).Ok? {
      var vs := Read(node.entries, OPENAI);
      assert vs[0] == Under(node, "image_tile_models") && vs[1] == Under(node, "image_patch_multipliers") && vs[2] == Under(node, "image_patch_sizing");
      AllKeysAreNamed();
      AllValuesAreNamed(rd);
      forall j: Json | ParseSizing(j).Ok? ensures IsSizing(j, ParseSizing(j).value) { ParsedSizingIsNamed(j); }
      hide ParseSection, DictUnder, KeyLower, NamedLower, IsPair, PairParser, DecParser, DecimalReads, Read, Under, Get, ParseSizing, IsSizing;
      ParsedSectionIsNamed(vs[0], KeyLower, PairParser(1), NamedLower, IsPair);
      ParsedSectionIsNamed(vs[1], KeyLower, DecParser(rd, 1), NamedLower, DecimalReads(rd));
      ParsedSectionIsNamed(vs[2], KeyLower, ParseSizing, NamedLower, IsSizing);
    }
  }

  lemma ParsedEndpointsAreNamed(rd: Readers, node: Json)
    ensures ParseEndpoints(rd, node).Ok? ==> EndpointsUnder(rd, node, ParseEndpoints(rd, node).value)
  {
    if ParseEndpoints(rd, node).Ok? {
      var vs := Read(node.entries, ENDPOINTS);
      assert vs[0] == Under(node, "first_party_api_hosts") && vs[1] == Under(node, "non_first_party_uplift");
      AllKeysAreNamed();
      forall j: Json | ParseLowerTexts(j).Ok? ensures AreLowerTexts(j, ParseLowerTexts(j).value) { ParsedTextsAreNamed(j); }
      ParsedDecimal(rd, vs[1], 1);
      hide ParseSection, DictUnder, KeyLowerText, NamedLowerText, ParseLowerTexts, AreLowerTexts, ParseDecimal, IsDecimal, Read, Under, Get;
      ParsedSectionIsNamed(vs[0], KeyLowerText, ParseLowerTexts, NamedLowerText, AreLowerTexts);
    }
  }

  lemma ParsedAliasesAreNamed(node: Json, models: set<string>)
    ensures ParseSection(node, AliasKey, TargetParser(models)).Ok? ==>
              DictUnder(node, NamedLowerText, SaysLower, ParseSection(node, AliasKey, TargetParser(models)).value)
  {
    if ParseSection(node, AliasKey, TargetParser(models)).Ok? {
      AllKeysAreNamed();
      forall j: Json | TargetParser(models)(j).Ok? ensures SaysLower(j, TargetParser(models)(j).value) { ParsedText(j); }
      hide AliasKey, NamedLowerText, SaysLower, TargetParser, ParseSection, DictUnder;
      ParsedSectionIsNamed(node, AliasKey, TargetParser(models), NamedLowerText, SaysLower);
    }
  }

  lemma TopFieldsByName(node: Json, vs: seq<Json>)
    requires node.Obj? && vs == Read(node.entries, TOP)
    ensures |vs| == |TOP| && vs[0] == Under(node, "schema") && vs[1] == Under(node, "catalog_version") && vs[2] == Under(node, "issued_at")
    ensures vs[3] == Under(node, "expires_at") && vs[4] == Under(node, "currency") && vs[5] == Under(node, "unit")
    ensures vs[6] == Under(node, "rounding_rule") && vs[7] == Under(node, "rows") && vs[8] == Under(node, "aliases")
    ensures vs[9] == Under(node, "anthropic") && vs[10] == Under(node, "openai") && vs[11] == Under(node, "endpoints")
  {
  }

  lemma ConstantsChecked(rd: Readers, vs: seq<Json>)
    requires |vs| == |TOP| && ParseValues(rd, vs).Ok?
    ensures vs[0] == Str("kazenai.price-catalog.v1") && vs[4] == Str("USD") && vs[5] == Str("per_1m_tokens")
    ensures vs[6] == Str("decimal_half_even_to_nanos_then_ceil_micro_usd")
  {
    hide ParseText, ParseSpan, ParseRowList, ParseSection, ParseAnthropic, ParseOpenAi, ParseEndpoints, TargetParser, Models, LiveCatalog.KeyOf;
  }

  lemma ParsedSpanIsNamed(rd: Readers, issued: Json, expires: Json)
    ensures ParseSpan(rd, issued, expires).Ok? ==>
              var span := ParseSpan(rd, issued, expires).value;
              IsInstant(rd, issued, Some(span.issued)) && IsInstant(rd, expires, Some(span.expires))
  {
    ParsedInstant(rd, issued);
    ParsedInstant(rd, expires);
    hide IsInstant, ParseInstant;
  }

  /** Whatever is accepted says, name by name, what the bundle holds: every rate, field, entry and section stands
      under its own name in the document, and only the rows listed are rows. */
  lemma AcceptedIsWhatIsNamed(rd: Readers, payload: Json)
    requires ParsePayload(rd, payload).Ok?
    ensures DocumentUnder(rd, payload, ParsePayload(rd, payload).value)
  {
    var vs := Read(payload.entries, TOP);
    TopFieldsByName(payload, vs);
    hide ParseValues, ParseSpan, ParseRows, ParseSection, ParseAnthropic, ParseOpenAi, ParseEndpoints, TargetParser, LiveCatalog.KeyOf,
      ParseText, Models, Under, Says, IsInstant, RowsUnder, DictUnder, AnthropicUnder, OpenAiUnder, EndpointsUnder, Read, Get;
    AcceptedParts(rd, vs);
    ConstantsChecked(rd, vs);
    var b := ParseValues(rd, vs).value;
    ParsedText(vs[1]);
    ParsedSpanIsNamed(rd, vs[2], vs[3]);
    ParsedRowsAreNamed(rd, b.version, vs[7].items);
    ParsedAliasesAreNamed(vs[8], Models(b.rows));
    ParsedAnthropicIsNamed(rd, vs[9]);
    ParsedOpenAiIsNamed(rd, vs[10]);
    ParsedEndpointsAreNamed(rd, vs[11]);
  }

  /** And an exported document says, name by name, what the bundle held. */
  lemma ExportSaysTheBundle(rd: Readers, o: Orders, b: Bundle, span: Span)
    requires ReadsPlain(rd) && ValidOrders(o) && Canonical(rd, b) && ValidSpan(rd, span)
    ensures ExportPayload(o, b, span).Ok?
    ensures DocumentUnder(rd, ExportPayload(o, b, span).value, b.(source := "live", issuedAt := Some(span.issued), expiresAt := Some(span.expires)))
  {
    hide *;
    ExportedCatalogParsesBack(rd, o, b, span);
    AcceptedIsWhatIsNamed(rd, ExportPayload(o, b, span).value);
  }

  /** A rate in plain digits, or null. */
  predicate IsRateText(node: Json, d: Option<Dec>) {
    if d.None? then node.Null? else node.Str? && ReadPlain(node.s) == d
  }

  /** Exported rates: each of the nine stands, as plain digits that read back as it, under its own name. */
  lemma ExportedRatesAreNamed(r: Rates)
    requires CanonicalRates(r)
    ensures var node := RatesJson(r);
            && IsRateText(Under(node, "input"), Some(r.input)) && IsRateText(Under(node, "output"), Some(r.output))
            && IsRateText(Under(node, "cached_input"), r.cachedInput)
            && IsRateText(Under(node, "cache_write_5m"), r.cacheWrite5m) && IsRateText(Under(node, "cache_write_1h"), r.cacheWrite1h)
            && IsRateText(Under(node, "image"), r.image) && IsRateText(Under(node, "tool_per_call"), r.toolPerCall)
            && IsRateText(Under(node, "audio_input"), r.audioInput) && IsRateText(Under(node, "audio_cached_input"), r.audioCachedInput)
  {
    var vs := RateValues(r);
    RateFields(r);
    RateNamesAreDistinct();
    ReadsBack(RATES, vs, AUDIO);
    var node := RatesJson(r);
    var es := node.entries;
    assert Read(es, RATES) == vs;
    assert Get(es, RATES[0]) == vs[0] && Get(es, RATES[1]) == vs[1] && Get(es, RATES[2]) == vs[2] && Get(es, RATES[3]) == vs[3];
    assert Get(es, RATES[4]) == vs[4] && Get(es, RATES[5]) == vs[5] && Get(es, RATES[6]) == vs[6] && Get(es, RATES[7]) == vs[7];
    assert Get(es, RATES[8]) == vs[8];
    hide RateValues, Omit, Fields, Read, Get, Format, ReadPlain;
    RateText(Some(r.input));
    RateText(Some(r.output));
    RateText(r.cachedInput);
    RateText(r.cacheWrite5m);
    RateText(r.cacheWrite1h);
    RateText(r.image);
    RateText(r.toolPerCall);
    RateText(r.audioInput);
    RateText(r.audioCachedInput);
  }

  /** The two audio rates are named only where there is one, the other seven always. */
  lemma ExportedRatesAreListed(r: Rates)
    ensures var es := RatesJson(r).entries;
            && (Has(es, "audio_input") <==> r.audioInput.Some?) && (Has(es, "audio_cached_input") <==> r.audioCachedInput.Some?)
            && Has(es, "input") && Has(es, "cached_input") && Has(es, "cache_write_5m") && Has(es, "cache_write_1h")
            && Has(es, "output") && Has(es, "image") && Has(es, "tool_per_call")
  {
    hide RatesJson, Has, Get, Format;
    RateIsListed(r, 0);
    RateIsListed(r, 1);
    RateIsListed(r, 2);
    RateIsListed(r, 3);
    RateIsListed(r, 4);
    RateIsListed(r, 5);
    RateIsListed(r, 6);
    RateIsListed(r, 7);
    RateIsListed(r, 8);
  }

  lemma RateIsListed(r: Rates, i: nat)
    requires i < 9
    ensures Has(RatesJson(r).entries, RATES[i]) <==> !(RATES[i] in AUDIO && RateValues(r)[i].Null?)
  {
    var fs := Fields(RATES, RateValues(r));
    assert forall j :: 0 <= j < 9 && RATES[j] == RATES[i] ==> j == i by { RatesAreDistinct(); }
    hide RATES, AUDIO, RateValues, Omit, Has;
    OmitLeavesOutNulls(fs, AUDIO, RATES[i]);
    assert fs[i].key == RATES[i];
  }

  lemma RatesAreDistinct()
    ensures |RATES| == 9 && forall i, j :: 0 <= i < j < |RATES| ==> RATES[i] != RATES[j]
  {
  }

  lemma RateText(d: Option<Dec>)
    requires NonNegativeOption(d)
    ensures IsRateText(OptionalDec(d), d) && (d.Some? ==> DecText(d.value) == OptionalDec(d))
  {
    if d.Some? { FormatReadsBack(d.value); }
  }
}

/** Export and parse of kazenai.price-catalog.v1 documents: kazenai/catalog_document.py. sorted() is an input:
    any enumeration of a dictionary's keys. */
module CatalogDocument {
  import opened Wrappers
  import opened Decimals
  import opened Text
  import opened CatalogJson
  import LiveCatalog

  const SCHEMA := "kazenai.price-catalog.v1"
  const ROUNDING_RULE := "decimal_half_even_to_nanos_then_ceil_micro_usd"

  datatype Rates = Rates(
    input: Dec, cachedInput: Option<Dec>, cacheWrite5m: Option<Dec>, cacheWrite1h: Option<Dec>, output: Dec,
    image: Option<Dec>, toolPerCall: Option<Dec>, audioInput: Option<Dec>, audioCachedInput: Option<Dec>)

  datatype Scheduled = Scheduled(effectiveFrom: Option<string>, rates: Rates)

  datatype RowKey = RowKey(provider: string, model: string, tier: string, band: string)

  datatype Row = Row(
    provider: string, model: string, tier: string, band: string, expectedTier: string, rates: Rates, certified: bool,
    sourceUrl: string, verifiedOn: string, threshold: Option<int>, pricingRule: string, rowLabel: string,
    catalogVersion: string, scheduled: seq<Scheduled>, validUntil: Option<string>)

  datatype Limits = Limits(edge: int, budget: Option<int>)

  /** The bundle's fields, grouped as the document groups them. */
  datatype Anthropic = Anthropic(
    toolVersions: seq<string>, promptTokens: map<string, (int, int)>, promptFallback: int,
    definitionTokens: map<string, int>, allowedSpeeds: seq<string>, geoMultipliers: map<string, Dec>)

  datatype OpenAi = OpenAi(
    tileModels: map<string, (int, int)>, patchMultipliers: map<string, Dec>, patchSizing: map<string, map<string, Limits>>)

  datatype Endpoints = Endpoints(apiHosts: map<string, seq<string>>, uplift: Dec)

  datatype Bundle = Bundle(
    version: string, source: string, rows: map<RowKey, Row>, aliases: map<string, string>, anthropic: Anthropic,
    openai: OpenAi, endpoints: Endpoints, issuedAt: Option<string>, expiresAt: Option<string>)

  function KeyOfRow(r: Row): RowKey { RowKey(r.provider, r.model, r.tier, r.band) }

  // ------------------------------------------------------------------ rates

  const RATES := ["input", "cached_input", "cache_write_5m", "cache_write_1h", "output", "image", "tool_per_call",
                  "audio_input", "audio_cached_input"]

  function DecText(d: Dec): Json { Str(if d.coefficient >= 0 then Format(d) else "-" + Format(Dec(-d.coefficient, d.scale))) }

  function OptionalDec(d: Option<Dec>): Json { if d.None? then Null else DecText(d.value) }

  function RateValues(r: Rates): seq<Json> {
    [DecText(r.input), OptionalDec(r.cachedInput), OptionalDec(r.cacheWrite5m), OptionalDec(r.cacheWrite1h), DecText(r.output),
     OptionalDec(r.image), OptionalDec(r.toolPerCall), OptionalDec(r.audioInput), OptionalDec(r.audioCachedInput)]
  }

  const AUDIO := {"audio_input", "audio_cached_input"}

  /** The audio rates are left out when there are none. */
  function RatesJson(r: Rates): Json { Obj(Omit(Fields(RATES, RateValues(r)), AUDIO)) }

  function ParseOptionalDec(rd: Readers, node: Json): Parsed<Option<Dec>> {
    if node.Null? then Ok(None)
    else
      var d :- ParseDecimal(rd, node, 0);
      Ok(Some(d))
  }

  function ParseRates(rd: Readers, node: Json): Parsed<Rates> {
    var es :- ExactKeys(node, RATES, ["input", "output"]);
    ParseRateValues(rd, Read(es, RATES))
  }

  function ParseRateValues(rd: Readers, vs: seq<Json>): Parsed<Rates>
    requires |vs| == |RATES|
  {
    var input :- ParseDecimal(rd, vs[0], 0);
    var cachedInput :- ParseOptionalDec(rd, vs[1]);
    var write5m :- ParseOptionalDec(rd, vs[2]);
    var write1h :- ParseOptionalDec(rd, vs[3]);
    var output :- ParseDecimal(rd, vs[4], 0);
    var image :- ParseOptionalDec(rd, vs[5]);
    var toolPerCall :- ParseOptionalDec(rd, vs[6]);
    var audioInput :- ParseOptionalDec(rd, vs[7]);
    var audioCachedInput :- ParseOptionalDec(rd, vs[8]);
    Ok(Rates(input, cachedInput, write5m, write1h, output, image, toolPerCall, audioInput, audioCachedInput))
  }

  predicate NonNegativeOption(d: Option<Dec>) { d.Some? ==> d.value.coefficient >= 0 }

  predicate CanonicalRates(r: Rates) {
    && r.input.coefficient >= 0 && r.output.coefficient >= 0
    && NonNegativeOption(r.cachedInput) && NonNegativeOption(r.cacheWrite5m) && NonNegativeOption(r.cacheWrite1h)
    && NonNegativeOption(r.image) && NonNegativeOption(r.toolPerCall)
    && NonNegativeOption(r.audioInput) && NonNegativeOption(r.audioCachedInput)
  }

  lemma PowerIsPositive(n: nat)
    ensures PowerOfTen(n) >= 1
  {
  }

  lemma DecReadsBack(rd: Readers, d: Dec, least: nat)
    requires ReadsPlain(rd) && d.coefficient >= 0
    ensures ParseDecimal(rd, DecText(d), least) == if AtLeast(d, least) then Ok(d) else Err(Refused)
    ensures AtLeast(d, 0)
  {
    hide Format, ReadPlain, AtLeast;
    FormatReadsBack(d);
    ZeroIsLeast(d);
  }

  lemma ZeroIsLeast(d: Dec)
    requires d.coefficient >= 0
    ensures AtLeast(d, 0)
  {
  }

  lemma OptionalReadsBack(rd: Readers, d: Option<Dec>)
    requires ReadsPlain(rd) && NonNegativeOption(d)
    ensures ParseOptionalDec(rd, OptionalDec(d)) == Ok(d)
  {
    if d.Some? { DecReadsBack(rd, d.value, 0); }
  }

  lemma RateNamesAreDistinct()
    ensures Distinct(RATES)
  {
  }

  lemma RatesAreExact(r: Rates)
    ensures ExactKeys(RatesJson(r), RATES, ["input", "output"]) == Ok(RatesJson(r).entries)
  {
    RateNamesAreDistinct();
    assert RATES[0] == "input" && RATES[4] == "output";
    FieldsAreExact(RATES, RateValues(r), AUDIO, ["input", "output"]);
  }

  lemma RatesReadBack(rd: Readers, r: Rates)
    requires ReadsPlain(rd) && CanonicalRates(r)
    ensures ParseDecimal(rd, DecText(r.input), 0) == Ok(r.input) && ParseDecimal(rd, DecText(r.output), 0) == Ok(r.output)
    ensures ParseOptionalDec(rd, OptionalDec(r.cachedInput)) == Ok(r.cachedInput)
    ensures ParseOptionalDec(rd, OptionalDec(r.cacheWrite5m)) == Ok(r.cacheWrite5m)
    ensures ParseOptionalDec(rd, OptionalDec(r.cacheWrite1h)) == Ok(r.cacheWrite1h)
    ensures ParseOptionalDec(rd, OptionalDec(r.image)) == Ok(r.image)
    ensures ParseOptionalDec(rd, OptionalDec(r.toolPerCall)) == Ok(r.toolPerCall)
    ensures ParseOptionalDec(rd, OptionalDec(r.audioInput)) == Ok(r.audioInput)
    ensures ParseOptionalDec(rd, OptionalDec(r.audioCachedInput)) == Ok(r.audioCachedInput)
  {
    DecReadsBack(rd, r.input, 0);
    DecReadsBack(rd, r.output, 0);
    OptionalReadsBack(rd, r.cachedInput);
    OptionalReadsBack(rd, r.cacheWrite5m);
    OptionalReadsBack(rd, r.cacheWrite1h);
    OptionalReadsBack(rd, r.image);
    OptionalReadsBack(rd, r.toolPerCall);
    OptionalReadsBack(rd, r.audioInput);
    OptionalReadsBack(rd, r.audioCachedInput);
  }

  lemma RateValuesParse(rd: Readers, r: Rates)
    requires ReadsPlain(rd) && CanonicalRates(r)
    ensures |RateValues(r)| == |RATES| && ParseRateValues(rd, RateValues(r)) == Ok(r)
  {
    hide *;
    RateFields(r);
    RatesReadBack(rd, r);
    RatesOfFields(rd, RateValues(r), r);
  }

  lemma RateFields(r: Rates)
    ensures var vs := RateValues(r);
            && |vs| == |RATES| && vs[0] == DecText(r.input) && vs[1] == OptionalDec(r.cachedInput)
            && vs[2] == OptionalDec(r.cacheWrite5m) && vs[3] == OptionalDec(r.cacheWrite1h) && vs[4] == DecText(r.output)
            && vs[5] == OptionalDec(r.image) && vs[6] == OptionalDec(r.toolPerCall) && vs[7] == OptionalDec(r.audioInput)
            && vs[8] == OptionalDec(r.audioCachedInput)
  {
    hide DecText, OptionalDec;
  }

  /** Every rate parsed on its own gives the rates. */
  lemma RatesOfFields(rd: Readers, vs: seq<Json>, r: Rates)
    requires |vs| == |RATES|
    requires ParseDecimal(rd, vs[0], 0) == Ok(r.input) && ParseOptionalDec(rd, vs[1]) == Ok(r.cachedInput)
    requires ParseOptionalDec(rd, vs[2]) == Ok(r.cacheWrite5m) && ParseOptionalDec(rd, vs[3]) == Ok(r.cacheWrite1h)
    requires ParseDecimal(rd, vs[4], 0) == Ok(r.output) && ParseOptionalDec(rd, vs[5]) == Ok(r.image)
    requires ParseOptionalDec(rd, vs[6]) == Ok(r.toolPerCall) && ParseOptionalDec(rd, vs[7]) == Ok(r.audioInput)
    requires ParseOptionalDec(rd, vs[8]) == Ok(r.audioCachedInput)
    ensures ParseRateValues(rd, vs) == Ok(r)
  {
    hide ParseDecimal, ParseOptionalDec;
  }

  lemma RatesRoundTrip(rd: Readers, r: Rates)
    requires ReadsPlain(rd) && CanonicalRates(r)
    ensures ParseRates(rd, RatesJson(r)) == Ok(r)
  {
    RateValuesParse(rd, r);
    hide ReadsPlain, CanonicalRates, ParseRateValues, RateValues, Omit, Fields, Read, Distinct, ExactKeys;
    RatesAreExact(r);
    RateNamesAreDistinct();
    ReadsBack(RATES, RateValues(r), AUDIO);
  }

  // ------------------------------------------------------------------ rows

  const ROW := ["provider", "model", "request_tier", "context_band", "expected_reported_tier", "rates", "certified", "source_url",
                "verified_on", "long_context_threshold", "pricing_rule", "scheduled", "valid_until"]

  const ROW_REQUIRED := ["provider", "model", "request_tier", "context_band", "expected_reported_tier", "rates", "source_url",
                         "verified_on", "pricing_rule"]

  const SCHEDULED := ["effective_from", "rates"]

  function OptionalText(s: Option<string>): Json { if s.None? then Null else Str(s.value) }

  function OptionalInt(n: Option<int>): Json { if n.None? then Null else Int(n.value) }

  function ScheduledJson(e: Scheduled): Json { Obj(Fields(SCHEDULED, [OptionalText(e.effectiveFrom), RatesJson(e.rates)])) }

  function RowValues(r: Row): seq<Json> {
    [Str(r.provider), Str(r.model), Str(r.tier), Str(r.band), Str(r.expectedTier), RatesJson(r.rates), Bool(r.certified),
     Str(r.sourceUrl), Str(r.verifiedOn), OptionalInt(r.threshold), Str(r.pricingRule), List(WriteList(r.scheduled, ScheduledJson)),
     OptionalText(r.validUntil)]
  }

  function RowJson(r: Row): Json { Obj(Fields(ROW, RowValues(r))) }

  function ParseScheduledEntry(rd: Readers, node: Json): Parsed<Scheduled> {
    var es :- ExactKeys(node, SCHEDULED, ["effective_from", "rates"]);
    var vs := Read(es, SCHEDULED);
    var from :- ParseInstant(rd, vs[0]);
    var rates :- ParseRates(rd, vs[1]);
    Ok(Scheduled(from, rates))
  }

  /** What Python counts as false. */
  predicate Falsy(j: Json) {
    match j
    case Null => true
    case Bool(b) => !b
    case Int(n) => n == 0
    case Float(isZero) => isZero
    case Str(s) => s == ""
    case List(items) => items == []
    case Obj(entries) => entries == []
  }

  function EntryParser(rd: Readers): Json -> Parsed<Scheduled> { j => ParseScheduledEntry(rd, j) }

  function ParseScheduled(rd: Readers, node: Json): Parsed<seq<Scheduled>> {
    if Falsy(node) then Ok([]) else if node.List? then ParseList(node.items, EntryParser(rd)) else Err(Refused)
  }

  function ParseThreshold(node: Json): Parsed<Option<int>> {
    if node.Null? then Ok(None)
    else
      var n :- ParseInt(node, 1);
      Ok(Some(n))
  }

  function ParseRow(rd: Readers, version: string, node: Json): Parsed<Row> {
    var es :- ExactKeys(node, ROW, ROW_REQUIRED);
    ParseRowValues(rd, version, Read(es, ROW), if Has(es, "certified") then Get(es, "certified") else Bool(true))
  }

  function ParseRowValues(rd: Readers, version: string, vs: seq<Json>, certified: Json): Parsed<Row>
    requires |vs| == |ROW|
  {
    var provider :- ParseLowerText(vs[0]);
    var model :- ParseLowerText(vs[1]);
    var tier :- ParseLowerText(vs[2]);
    var band :- ParseLowerText(vs[3]);
    var expectedTier :- ParseText(vs[4]);
    var rates :- ParseRates(rd, vs[5]);
    var sourceUrl :- ParseText(vs[7]);
    var verifiedOn :- ParseText(vs[8]);
    var threshold :- ParseThreshold(vs[9]);
    var rule :- ParseText(vs[10]);
    var scheduled :- ParseScheduled(rd, vs[11]);
    var validUntil :- ParseInstant(rd, vs[12]);
    if certified.Bool? then
      Ok(Row(provider, model, tier, band, expectedTier, rates, certified.b, sourceUrl, verifiedOn, threshold, rule, "catalog",
             version, scheduled, validUntil))
    else Err(Refused)
  }

  function ParseRows(rd: Readers, version: string, items: seq<Json>): Parsed<map<RowKey, Row>> {
    if items == [] then Ok(map[])
    else
      var rest :- ParseRows(rd, version, items[..|items| - 1]);
      var row :- ParseRow(rd, version, items[|items| - 1]);
      if KeyOfRow(row) in rest then Err(Refused) else Ok(rest[KeyOfRow(row) := row])
  }

  predicate CanonicalInstant(rd: Readers, s: Option<string>) { s.Some? ==> IsText(s.value) && rd.instant(s.value).Some? }

  predicate CanonicalScheduled(rd: Readers, e: Scheduled) { CanonicalInstant(rd, e.effectiveFrom) && CanonicalRates(e.rates) }

  predicate CanonicalRow(rd: Readers, version: string, r: Row) {
    && IsLowerText(r.provider) && IsLowerText(r.model) && IsLowerText(r.tier) && IsLowerText(r.band)
    && IsText(r.expectedTier) && IsText(r.sourceUrl) && IsText(r.verifiedOn) && IsText(r.pricingRule)
    && CanonicalRates(r.rates) && (r.threshold.Some? ==> r.threshold.value >= 1)
    && r.rowLabel == "catalog" && r.catalogVersion == version
    && (forall e <- r.scheduled :: CanonicalScheduled(rd, e)) && CanonicalInstant(rd, r.validUntil)
  }

  lemma InstantRoundTrip(rd: Readers, s: Option<string>)
    requires CanonicalInstant(rd, s)
    ensures ParseInstant(rd, OptionalText(s)) == Ok(s)
  {
  }

  lemma ScheduledRoundTrip(rd: Readers, e: Scheduled)
    requires ReadsPlain(rd) && CanonicalScheduled(rd, e)
    ensures ParseScheduledEntry(rd, ScheduledJson(e)) == Ok(e)
  {
    var values := [OptionalText(e.effectiveFrom), RatesJson(e.rates)];
    NothingOmitted(Fields(SCHEDULED, values));
    FieldsAreExact(SCHEDULED, values, {}, ["effective_from", "rates"]);
    ReadsBack(SCHEDULED, values, {});
    InstantRoundTrip(rd, e.effectiveFrom);
    RatesRoundTrip(rd, e.rates);
  }

  lemma ScheduleRoundTrip(rd: Readers, s: seq<Scheduled>)
    requires ReadsPlain(rd) && forall e <- s :: CanonicalScheduled(rd, e)
    ensures ParseScheduled(rd, List(WriteList(s, ScheduledJson))) == Ok(s)
  {
    hide ReadsPlain, CanonicalScheduled, ParseScheduledEntry, ScheduledJson;
    var parse := EntryParser(rd);
    forall e | e in s ensures parse(ScheduledJson(e)) == Ok(e) { ScheduledRoundTrip(rd, e); }
    ListRoundTrips(s, ScheduledJson, parse);
  }

  lemma RowNames()
    ensures Distinct(ROW) && forall k <- ROW_REQUIRED :: k in ROW
  {
    assert ROW[0] == "provider" && ROW[1] == "model" && ROW[2] == "request_tier" && ROW[3] == "context_band";
    assert ROW[4] == "expected_reported_tier" && ROW[5] == "rates" && ROW[7] == "source_url" && ROW[8] == "verified_on";
    assert ROW[10] == "pricing_rule";
  }

  /** Every field parsed on its own gives the row. */
  lemma RowOfFields(rd: Readers, version: string, vs: seq<Json>, r: Row)
    requires |vs| == |ROW| && r.rowLabel == "catalog" && r.catalogVersion == version
    requires ParseLowerText(vs[0]) == Ok(r.provider) && ParseLowerText(vs[1]) == Ok(r.model)
    requires ParseLowerText(vs[2]) == Ok(r.tier) && ParseLowerText(vs[3]) == Ok(r.band)
    requires ParseText(vs[4]) == Ok(r.expectedTier) && ParseRates(rd, vs[5]) == Ok(r.rates)
    requires ParseText(vs[7]) == Ok(r.sourceUrl) && ParseText(vs[8]) == Ok(r.verifiedOn)
    requires ParseThreshold(vs[9]) == Ok(r.threshold) && ParseText(vs[10]) == Ok(r.pricingRule)
    requires ParseScheduled(rd, vs[11]) == Ok(r.scheduled) && ParseInstant(rd, vs[12]) == Ok(r.validUntil)
    ensures ParseRowValues(rd, version, vs, Bool(r.certified)) == Ok(r)
  {
  }

  lemma RowValuesRoundTrip(rd: Readers, version: string, r: Row)
    requires ReadsPlain(rd) && CanonicalRow(rd, version, r)
    ensures ParseRowValues(rd, version, RowValues(r), Bool(r.certified)) == Ok(r)
  {
    hide *;
    CanonicalRowParts(rd, version, r);
    RowFields(r);
    RatesRoundTrip(rd, r.rates);
    ScheduleRoundTrip(rd, r.scheduled);
    InstantRoundTrip(rd, r.validUntil);
    RowOfFields(rd, version, RowValues(r), r);
  }

  lemma CanonicalRowParts(rd: Readers, version: string, r: Row)
    requires CanonicalRow(rd, version, r)
    ensures r.rowLabel == "catalog" && r.catalogVersion == version
    ensures CanonicalRates(r.rates) && CanonicalInstant(rd, r.validUntil) && forall e <- r.scheduled :: CanonicalScheduled(rd, e)
    ensures ParseLowerText(Str(r.provider)) == Ok(r.provider) && ParseLowerText(Str(r.model)) == Ok(r.model)
    ensures ParseLowerText(Str(r.tier)) == Ok(r.tier) && ParseLowerText(Str(r.band)) == Ok(r.band)
    ensures ParseText(Str(r.expectedTier)) == Ok(r.expectedTier) && ParseText(Str(r.sourceUrl)) == Ok(r.sourceUrl)
    ensures ParseText(Str(r.verifiedOn)) == Ok(r.verifiedOn) && ParseText(Str(r.pricingRule)) == Ok(r.pricingRule)
    ensures ParseThreshold(OptionalInt(r.threshold)) == Ok(r.threshold)
  {
    hide CanonicalRates, CanonicalInstant, CanonicalScheduled;
  }

  lemma RowFields(r: Row)
    ensures var vs := RowValues(r);
            && |vs| == |ROW| && vs[0] == Str(r.provider) && vs[1] == Str(r.model) && vs[2] == Str(r.tier) && vs[3] == Str(r.band)
            && vs[4] == Str(r.expectedTier) && vs[5] == RatesJson(r.rates) && vs[7] == Str(r.sourceUrl) && vs[8] == Str(r.verifiedOn)
            && vs[9] == OptionalInt(r.threshold) && vs[10] == Str(r.pricingRule)
            && vs[11] == List(WriteList(r.scheduled, ScheduledJson)) && vs[12] == OptionalText(r.validUntil)
  {
    hide RatesJson, OptionalInt, OptionalText, WriteList;
  }

  lemma CertifiedField(r: Row)
    ensures |RowValues(r)| == |ROW|
    ensures var es := Fields(ROW, RowValues(r)); Has(es, "certified") && Get(es, "certified") == Bool(r.certified)
  {
    RowNames();
    var es := Fields(ROW, RowValues(r));
    assert ROW[6] == "certified" && es[6].key == "certified";
    NothingOmitted(es);
    hide RatesJson, WriteList, OptionalText, OptionalInt;
    FieldIs(ROW, RowValues(r), {}, 6);
  }

  lemma RowRoundTrip(rd: Readers, version: string, r: Row)
    requires ReadsPlain(rd) && CanonicalRow(rd, version, r)
    ensures ParseRow(rd, version, RowJson(r)) == Ok(r)
  {
    RowValuesRoundTrip(rd, version, r);
    CertifiedField(r);
    RowNames();
    hide ReadsPlain, CanonicalRow, RowValues, ParseRowValues, Omit, Fields, Read, Distinct, ExactKeys, Has, Get;
    var es := Fields(ROW, RowValues(r));
    NothingOmitted(es);
    FieldsAreExact(ROW, RowValues(r), {}, ROW_REQUIRED);
    ReadsBack(ROW, RowValues(r), {});
  }

  function RowsJson(rows: map<RowKey, Row>, order: seq<RowKey>): seq<Json> {
    if order == [] then []
    else
      var k := order[|order| - 1];
      RowsJson(rows, order[..|order| - 1]) + [if k in rows then RowJson(rows[k]) else Null]
  }

  function Among(rows: map<RowKey, Row>, order: seq<RowKey>): map<RowKey, Row> { map k | k in rows && k in order :: rows[k] }

  lemma AppendRow(rd: Readers, version: string, items: seq<Json>, node: Json, rest: map<RowKey, Row>, row: Row)
    requires ParseRows(rd, version, items) == Ok(rest) && ParseRow(rd, version, node) == Ok(row) && KeyOfRow(row) !in rest
    ensures ParseRows(rd, version, items + [node]) == Ok(rest[KeyOfRow(row) := row])
  {
    assert (items + [node])[..|items|] == items;
  }

  lemma {:induction false} RowsRoundTripOn(rd: Readers, version: string, rows: map<RowKey, Row>, order: seq<RowKey>)
    requires ReadsPlain(rd) && forall k <- order :: k in rows && KeyOfRow(rows[k]) == k && CanonicalRow(rd, version, rows[k])
    requires forall i, j :: 0 <= i < j < |order| ==> order[i] != order[j]
    ensures ParseRows(rd, version, RowsJson(rows, order)) == Ok(Among(rows, order))
  {
    hide ReadsPlain, CanonicalRow, ParseRow, RowJson, ParseRows;
    if order != [] {
      var front, k := order[..|order| - 1], order[|order| - 1];
      assert k in order;
      RowsRoundTripOn(rd, version, rows, front);
      RowRoundTrip(rd, version, rows[k]);
      assert order == front + [k];
      assert k !in front;
      AppendRow(rd, version, RowsJson(rows, front), RowJson(rows[k]), Among(rows, front), rows[k]);
      assert Among(rows, order) == Among(rows, front)[k := rows[k]];
    } else {
      NoRows(rd, version);
      assert Among(rows, order) == map[];
    }
  }

  lemma NoRows(rd: Readers, version: string)
    ensures ParseRows(rd, version, []) == Ok(map[])
  {
  }

  // ------------------------------------------------------------------ dictionaries

  /** Any way of listing a set of names, as sorted() is one. */
  datatype Orders = Orders(names: set<string> -> seq<string>, rows: set<RowKey> -> seq<RowKey>)

  ghost predicate ValidOrders(o: Orders) {
    && (forall s: set<string> :: Enumerates(o.names(s), s))
    && (forall s: set<RowKey> :: Enumerates(o.rows(s), s))
  }

  const WILD := "*?[]{}()|+^$\\"

  predicate HasWild(s: string) { exists c <- s :: c in WILD }

  function AliasKey(k: string): Parsed<string> {
    var name :- KeyLowerText(k);
    if HasWild(name) then Err(Refused) else Ok(name)
  }

  function TargetParser(models: set<string>): Json -> Parsed<string> {
    j => var target :- ParseLowerText(j);
         if target in models then Ok(target) else Err(Refused)
  }

  function Models(rows: map<RowKey, Row>): set<string> { set k <- rows :: rows[k].model }

  function ParsePair(least: int, node: Json): Parsed<(int, int)> {
    if node.List? && |node.items| == 2 then
      var a :- ParseInt(node.items[0], least);
      var b :- ParseInt(node.items[1], least);
      Ok((a, b))
    else Err(Refused)
  }

  function PairParser(least: int): Json -> Parsed<(int, int)> { j => ParsePair(least, j) }

  function IntParser(least: int): Json -> Parsed<int> { j => ParseInt(j, least) }

  function DecParser(rd: Readers, least: nat): Json -> Parsed<Dec> { j => ParseDecimal(rd, j, least) }

  function DetailKey(k: string): Parsed<string> { if k in ["low", "high", "original"] then Ok(k) else Err(Refused) }

  function ParseLimits(node: Json): Parsed<Limits> {
    if node.List? && |node.items| == 2 then
      var budget :- ParseThreshold(node.items[1]);
      var edge :- ParseInt(node.items[0], 1);
      Ok(Limits(edge, budget))
    else Err(Refused)
  }

  function ParseSizing(node: Json): Parsed<map<string, Limits>> {
    if node.Obj? && node.entries != [] then ParseDict(node.entries, DetailKey, ParseLimits) else Err(Refused)
  }

  function ParseTexts(node: Json): Parsed<seq<string>> { if node.List? then ParseList(node.items, ParseText) else Err(Refused) }

  function ParseLowerTexts(node: Json): Parsed<seq<string>> { if node.List? then ParseList(node.items, ParseLowerText) else Err(Refused) }

  /** A section that is a dictionary. */
  function ParseSection<T>(node: Json, key: string -> Parsed<string>, parse: Json -> Parsed<T>): Parsed<map<string, T>> {
    if node.Obj? then ParseDict(node.entries, key, parse) else Err(Refused)
  }

  function DictJson<T>(o: Orders, m: map<string, T>, write: T -> Json): Json { Obj(WriteDict(m, o.names(m.Keys), write)) }

  function TextJson(s: string): Json { Str(s) }

  function IntJson(n: int): Json { Int(n) }

  function PairJson(p: (int, int)): Json { List([Int(p.0), Int(p.1)]) }

  function LimitsJson(l: Limits): Json { List([Int(l.edge), OptionalInt(l.budget)]) }

  function TextsJson(ss: seq<string>): Json { List(WriteList(ss, TextJson)) }

  lemma SectionRoundTrips<T>(o: Orders, m: map<string, T>, write: T -> Json, key: string -> Parsed<string>, parse: Json -> Parsed<T>)
    requires Enumerates(o.names(m.Keys), m.Keys)
    requires forall k <- m :: key(k) == Ok(k) && parse(write(m[k])) == Ok(m[k])
    ensures ParseSection(DictJson(o, m, write), key, parse) == Ok(m)
  {
    DictRoundTrips(m, o.names(m.Keys), write, key, parse);
  }

  // ------------------------------------------------------------------ sections

  const ANTHROPIC := ["client_tool_versions", "tool_system_prompt_tokens", "tool_system_prompt_fallback", "tool_definition_tokens",
                      "allowed_speeds", "inference_geo_multipliers"]
  const OPENAI := ["image_tile_models", "image_patch_multipliers", "image_patch_sizing"]
  const ENDPOINTS := ["first_party_api_hosts", "non_first_party_uplift"]

  function SizingWriter(o: Orders): map<string, Limits> -> Json { (m: map<string, Limits>) => DictJson(o, m, LimitsJson) }

  function AnthropicValues(o: Orders, a: Anthropic): seq<Json> {
    [TextsJson(a.toolVersions), DictJson(o, a.promptTokens, PairJson), Int(a.promptFallback), DictJson(o, a.definitionTokens, IntJson),
     TextsJson(a.allowedSpeeds), DictJson(o, a.geoMultipliers, DecText)]
  }

  function ParseAnthropic(rd: Readers, node: Json): Parsed<Anthropic> {
    var es :- ExactKeys(node, ANTHROPIC, ANTHROPIC);
    ParseAnthropicValues(rd, Read(es, ANTHROPIC))
  }

  function ParseAnthropicValues(rd: Readers, vs: seq<Json>): Parsed<Anthropic>
    requires |vs| == |ANTHROPIC|
  {
    var prompt :- ParseSection(vs[1], KeyLower, PairParser(0));
    var definitions :- ParseSection(vs[3], KeyText, IntParser(0));
    var geo :- ParseSection(vs[5], KeyLowerText, DecParser(rd, 1));
    var speeds :- ParseLowerTexts(vs[4]);
    var tools :- ParseTexts(vs[0]);
    var fallback :- ParseInt(vs[2], 0);
    Ok(Anthropic(tools, prompt, fallback, definitions, speeds, geo))
  }

  function OpenAiValues(o: Orders, a: OpenAi): seq<Json> {
    [DictJson(o, a.tileModels, PairJson), DictJson(o, a.patchMultipliers, DecText), DictJson(o, a.patchSizing, SizingWriter(o))]
  }

  function ParseOpenAi(rd: Readers, node: Json): Parsed<OpenAi> {
    var es :- ExactKeys(node, OPENAI, OPENAI);
    ParseOpenAiValues(rd, Read(es, OPENAI))
  }

  function ParseOpenAiValues(rd: Readers, vs: seq<Json>): Parsed<OpenAi>
    requires |vs| == |OPENAI|
  {
    var tiles :- ParseSection(vs[0], KeyLower, PairParser(1));
    var patches :- ParseSection(vs[1], KeyLower, DecParser(rd, 1));
    var sizing :- ParseSection(vs[2], KeyLower, ParseSizing);
    Ok(OpenAi(tiles, patches, sizing))
  }

  function EndpointsValues(o: Orders, e: Endpoints): seq<Json> { [DictJson(o, e.apiHosts, TextsJson), DecText(e.uplift)] }

  function ParseEndpoints(rd: Readers, node: Json): Parsed<Endpoints> {
    var es :- ExactKeys(node, ENDPOINTS, ENDPOINTS);
    ParseEndpointsValues(rd, Read(es, ENDPOINTS))
  }

  function ParseEndpointsValues(rd: Readers, vs: seq<Json>): Parsed<Endpoints>
    requires |vs| == |ENDPOINTS|
  {
    var hosts :- ParseSection(vs[0], KeyLowerText, ParseLowerTexts);
    var uplift :- ParseDecimal(rd, vs[1], 1);
    Ok(Endpoints(hosts, uplift))
  }

  // ------------------------------------------------------------------ canonical sections

  predicate PairAtLeast(p: (int, int), least: int) { p.0 >= least && p.1 >= least }

  predicate DecAtLeast(d: Dec, least: nat) { d.coefficient >= 0 && AtLeast(d, least) }

  predicate CanonicalLimits(l: Limits) { l.edge >= 1 && (l.budget.Some? ==> l.budget.value >= 1) }

  predicate CanonicalSizing(m: map<string, Limits>) {
    m != map[] && forall d <- m :: d in ["low", "high", "original"] && CanonicalLimits(m[d])
  }

  predicate CanonicalTexts(ss: seq<string>) { forall s <- ss :: IsText(s) }

  predicate CanonicalLowerTexts(ss: seq<string>) { forall s <- ss :: IsLowerText(s) }

  predicate CanonicalAnthropic(a: Anthropic) {
    && CanonicalTexts(a.toolVersions) && CanonicalLowerTexts(a.allowedSpeeds) && a.promptFallback >= 0
    && (forall m <- a.promptTokens :: Lower(m) == m && PairAtLeast(a.promptTokens[m], 0))
    && (forall t <- a.definitionTokens :: IsText(t) && a.definitionTokens[t] >= 0)
    && (forall g <- a.geoMultipliers :: IsLowerText(g) && DecAtLeast(a.geoMultipliers[g], 1))
  }

  predicate CanonicalOpenAi(a: OpenAi) {
    && (forall m <- a.tileModels :: Lower(m) == m && PairAtLeast(a.tileModels[m], 1))
    && (forall m <- a.patchMultipliers :: Lower(m) == m && DecAtLeast(a.patchMultipliers[m], 1))
    && (forall m <- a.patchSizing :: Lower(m) == m && CanonicalSizing(a.patchSizing[m]))
  }

  predicate CanonicalEndpoints(e: Endpoints) {
    && (forall p <- e.apiHosts :: IsLowerText(p) && CanonicalLowerTexts(e.apiHosts[p])) && DecAtLeast(e.uplift, 1)
  }

  lemma LowerTextReadsBack(s: string)
    requires IsLowerText(s)
    ensures KeyLowerText(s) == Ok(s) && ParseLowerText(Str(s)) == Ok(s)
  {
  }

  lemma TextsRoundTrip(ss: seq<string>)
    ensures CanonicalTexts(ss) ==> ParseTexts(TextsJson(ss)) == Ok(ss)
    ensures CanonicalLowerTexts(ss) ==> ParseLowerTexts(TextsJson(ss)) == Ok(ss)
  {
    if CanonicalTexts(ss) { ListRoundTrips(ss, TextJson, ParseText); }
    if CanonicalLowerTexts(ss) { ListRoundTrips(ss, TextJson, ParseLowerText); }
  }

  lemma PairRoundTrip(p: (int, int), least: int)
    requires PairAtLeast(p, least)
    ensures PairParser(least)(PairJson(p)) == Ok(p)
  {
  }

  lemma DecRoundTrip(rd: Readers, d: Dec, least: nat)
    requires ReadsPlain(rd) && DecAtLeast(d, least)
    ensures DecParser(rd, least)(DecText(d)) == Ok(d)
  {
    DecReadsBack(rd, d, least);
  }

  lemma AnthropicSectionsRoundTrip(rd: Readers, o: Orders, a: Anthropic)
    requires ReadsPlain(rd) && ValidOrders(o) && CanonicalAnthropic(a)
    ensures ParseSection(DictJson(o, a.promptTokens, PairJson), KeyLower, PairParser(0)) == Ok(a.promptTokens)
    ensures ParseSection(DictJson(o, a.definitionTokens, IntJson), KeyText, IntParser(0)) == Ok(a.definitionTokens)
    ensures ParseSection(DictJson(o, a.geoMultipliers, DecText), KeyLowerText, DecParser(rd, 1)) == Ok(a.geoMultipliers)
  {
    hide ParseDecimal, DecText, ReadsPlain, ParseSection, DictJson, Enumerates;
    forall m | m in a.promptTokens ensures PairParser(0)(PairJson(a.promptTokens[m])) == Ok(a.promptTokens[m]) {
      PairRoundTrip(a.promptTokens[m], 0);
    }
    SectionRoundTrips(o, a.promptTokens, PairJson, KeyLower, PairParser(0));
    SectionRoundTrips(o, a.definitionTokens, IntJson, KeyText, IntParser(0));
    forall g | g in a.geoMultipliers ensures DecParser(rd, 1)(DecText(a.geoMultipliers[g])) == Ok(a.geoMultipliers[g]) {
      DecRoundTrip(rd, a.geoMultipliers[g], 1);
    }
    SectionRoundTrips(o, a.geoMultipliers, DecText, KeyLowerText, DecParser(rd, 1));
  }

  lemma AnthropicRoundTrip(rd: Readers, o: Orders, a: Anthropic)
    requires ReadsPlain(rd) && ValidOrders(o) && CanonicalAnthropic(a)
    ensures ParseAnthropic(rd, Obj(Fields(ANTHROPIC, AnthropicValues(o, a)))) == Ok(a)
  {
    var vs := AnthropicValues(o, a);
    AnthropicValuesParse(rd, o, a);
    AnthropicNames();
    hide ReadsPlain, ValidOrders, CanonicalAnthropic, AnthropicValues, ParseAnthropicValues, Omit, Fields, Read, Distinct, ExactKeys;
    NothingOmitted(Fields(ANTHROPIC, vs));
    FieldsAreExact(ANTHROPIC, vs, {}, ANTHROPIC);
    ReadsBack(ANTHROPIC, vs, {});
  }

  lemma AnthropicNames()
    ensures Distinct(ANTHROPIC)
  {
  }

  lemma AnthropicValuesParse(rd: Readers, o: Orders, a: Anthropic)
    requires ReadsPlain(rd) && ValidOrders(o) && CanonicalAnthropic(a)
    ensures |AnthropicValues(o, a)| == |ANTHROPIC| && ParseAnthropicValues(rd, AnthropicValues(o, a)) == Ok(a)
  {
    hide ReadsPlain, ValidOrders, DictJson, ParseSection, ParseTexts, ParseLowerTexts, TextsJson, CanonicalTexts, CanonicalLowerTexts;
    AnthropicSectionsRoundTrip(rd, o, a);
    TextsRoundTrip(a.toolVersions);
    TextsRoundTrip(a.allowedSpeeds);
  }

  lemma SizingRoundTrip(o: Orders, m: map<string, Limits>)
    requires ValidOrders(o) && CanonicalSizing(m)
    ensures ParseSizing(SizingWriter(o)(m)) == Ok(m)
  {
    DictRoundTrips(m, o.names(m.Keys), LimitsJson, DetailKey, ParseLimits);
    var d :| d in m;
    assert d in o.names(m.Keys);
  }

  lemma OpenAiRoundTrip(rd: Readers, o: Orders, a: OpenAi)
    requires ReadsPlain(rd) && ValidOrders(o) && CanonicalOpenAi(a)
    ensures ParseOpenAi(rd, Obj(Fields(OPENAI, OpenAiValues(o, a)))) == Ok(a)
  {
    hide ReadsPlain, DictJson, ParseSection, ParseDecimal, DecText, ParseSizing, CanonicalSizing, Enumerates;
    var vs := OpenAiValues(o, a);
    NothingOmitted(Fields(OPENAI, vs));
    FieldsAreExact(OPENAI, vs, {}, OPENAI);
    ReadsBack(OPENAI, vs, {});
    forall m | m in a.tileModels ensures PairParser(1)(PairJson(a.tileModels[m])) == Ok(a.tileModels[m]) {
      PairRoundTrip(a.tileModels[m], 1);
    }
    SectionRoundTrips(o, a.tileModels, PairJson, KeyLower, PairParser(1));
    forall m | m in a.patchMultipliers ensures DecParser(rd, 1)(DecText(a.patchMultipliers[m])) == Ok(a.patchMultipliers[m]) {
      DecRoundTrip(rd, a.patchMultipliers[m], 1);
    }
    SectionRoundTrips(o, a.patchMultipliers, DecText, KeyLower, DecParser(rd, 1));
    forall m | m in a.patchSizing ensures ParseSizing(SizingWriter(o)(a.patchSizing[m])) == Ok(a.patchSizing[m]) {
      SizingRoundTrip(o, a.patchSizing[m]);
    }
    SectionRoundTrips(o, a.patchSizing, SizingWriter(o), KeyLower, ParseSizing);
  }

  lemma EndpointsRoundTrip(rd: Readers, o: Orders, e: Endpoints)
    requires ReadsPlain(rd) && ValidOrders(o) && CanonicalEndpoints(e)
    ensures ParseEndpoints(rd, Obj(Fields(ENDPOINTS, EndpointsValues(o, e)))) == Ok(e)
  {
    hide ReadsPlain, DictJson, ParseSection, ParseLowerTexts, TextsJson, Enumerates;
    var vs := EndpointsValues(o, e);
    NothingOmitted(Fields(ENDPOINTS, vs));
    FieldsAreExact(ENDPOINTS, vs, {}, ENDPOINTS);
    ReadsBack(ENDPOINTS, vs, {});
    forall p | p in e.apiHosts ensures KeyLowerText(p) == Ok(p) && ParseLowerTexts(TextsJson(e.apiHosts[p])) == Ok(e.apiHosts[p]) {
      LowerTextReadsBack(p);
      TextsRoundTrip(e.apiHosts[p]);
    }
    SectionRoundTrips(o, e.apiHosts, TextsJson, KeyLowerText, ParseLowerTexts);
    DecRoundTrip(rd, e.uplift, 1);
  }

  // ------------------------------------------------------------------ the whole document

  const TOP := ["schema", "catalog_version", "issued_at", "expires_at", "currency", "unit", "rounding_rule", "rows", "aliases",
                "anthropic", "openai", "endpoints"]

  /** The instants the export writes: its time of issue and its expiry. */
  datatype Span = Span(issued: string, expires: string)

  function ExportValues(o: Orders, b: Bundle, span: Span): (vs: seq<Json>)
    ensures |vs| == |TOP|
  {
    [Str(SCHEMA), Str(b.version), Str(span.issued), Str(span.expires), Str("USD"), Str("per_1m_tokens"), Str(ROUNDING_RULE),
     List(RowsJson(b.rows, o.rows(b.rows.Keys))), DictJson(o, b.aliases, TextJson),
     Obj(Fields(ANTHROPIC, AnthropicValues(o, b.anthropic))), Obj(Fields(OPENAI, OpenAiValues(o, b.openai))),
     Obj(Fields(ENDPOINTS, EndpointsValues(o, b.endpoints)))]
  }

  /** export_payload: refused for a malformed version. */
  function ExportPayload(o: Orders, b: Bundle, span: Span): Parsed<Json> {
    if LiveCatalog.KeyOf(b.version).None? then Err(Refused) else Ok(Obj(Fields(TOP, ExportValues(o, b, span))))
  }

  /** A bundle is exported, whatever else it says, exactly when its version is written as versions are. */
  lemma ExportNeedsAVersion(o: Orders, b: Bundle, span: Span)
    ensures ExportPayload(o, b, span).Ok? <==> exists k :: LiveCatalog.Writes(b.version, k)
  {
    hide LiveCatalog.KeyOf, LiveCatalog.Writes;
    match LiveCatalog.KeyOf(b.version)
    case Some(k) => LiveCatalog.VersionsAreReadAsWritten(b.version, k);
    case None =>
      if k :| LiveCatalog.Writes(b.version, k) {
        LiveCatalog.VersionsAreReadAsWritten(b.version, k);
        assert false;
      }
  }

  function ParseRowList(rd: Readers, version: string, node: Json): Parsed<map<RowKey, Row>> {
    if node.List? && node.items != [] then ParseRows(rd, version, node.items) else Err(Refused)
  }

  function ParseSpan(rd: Readers, issued: Json, expires: Json): Parsed<Span> {
    var from :- ParseInstant(rd, issued);
    var until :- ParseInstant(rd, expires);
    if from.Some? && until.Some? && rd.instant(from.value).Some? && rd.instant(until.value).Some?
       && rd.instant(until.value).value > rd.instant(from.value).value then Ok(Span(from.value, until.value))
    else Err(Refused)
  }

  function ParsePayload(rd: Readers, payload: Json): Parsed<Bundle> {
    var es :- ExactKeys(payload, TOP, TOP);
    ParseValues(rd, Read(es, TOP))
  }

  function ParseValues(rd: Readers, vs: seq<Json>): Parsed<Bundle>
    requires |vs| == |TOP|
  {
    if vs[0] != Str(SCHEMA) then Err(Refused)
    else
      var version :- ParseText(vs[1]);
      if LiveCatalog.KeyOf(version).None? || vs[4] != Str("USD") || vs[5] != Str("per_1m_tokens") || vs[6] != Str(ROUNDING_RULE) then Err(Refused)
      else
        var span :- ParseSpan(rd, vs[2], vs[3]);
        var rows :- ParseRowList(rd, version, vs[7]);
        var aliases :- ParseSection(vs[8], AliasKey, TargetParser(Models(rows)));
        var anthropic :- ParseAnthropic(rd, vs[9]);
        var openai :- ParseOpenAi(rd, vs[10]);
        var endpoints :- ParseEndpoints(rd, vs[11]);
        Ok(Bundle(version, "live", rows, aliases, anthropic, openai, endpoints, Some(span.issued), Some(span.expires)))
  }

  /** The form every parsed bundle has: lower-case stripped ids, aliases to known models, rows filed under their
      own keys and labelled with the bundle's version. */
  ghost predicate Canonical(rd: Readers, b: Bundle) {
    && IsText(b.version) && LiveCatalog.KeyOf(b.version).Some?
    && b.rows != map[] && (forall k <- b.rows :: KeyOfRow(b.rows[k]) == k && CanonicalRow(rd, b.version, b.rows[k]))
    && (forall a <- b.aliases :: IsLowerText(a) && !HasWild(a) && IsLowerText(b.aliases[a]) && b.aliases[a] in Models(b.rows))
    && CanonicalAnthropic(b.anthropic) && CanonicalOpenAi(b.openai) && CanonicalEndpoints(b.endpoints)
  }

  predicate ValidSpan(rd: Readers, span: Span) {
    && IsText(span.issued) && IsText(span.expires)
    && rd.instant(span.issued).Some? && rd.instant(span.expires).Some?
    && rd.instant(span.expires).value > rd.instant(span.issued).value
  }

  lemma RowListRoundTrip(rd: Readers, o: Orders, b: Bundle)
    requires ReadsPlain(rd) && ValidOrders(o) && Canonical(rd, b)
    ensures ParseRowList(rd, b.version, List(RowsJson(b.rows, o.rows(b.rows.Keys)))) == Ok(b.rows)
  {
    hide ReadsPlain, CanonicalRow, RowJson, ParseRow, CanonicalAnthropic, CanonicalOpenAi, CanonicalEndpoints;
    var order := o.rows(b.rows.Keys);
    assert Enumerates(order, b.rows.Keys);
    RowsRoundTripOn(rd, b.version, b.rows, order);
    assert Among(b.rows, order) == b.rows;
    var k :| k in b.rows;
    assert k in order;
  }

  lemma AliasesRoundTrip(rd: Readers, o: Orders, b: Bundle)
    requires ValidOrders(o) && Canonical(rd, b)
    ensures ParseSection(DictJson(o, b.aliases, TextJson), AliasKey, TargetParser(Models(b.rows))) == Ok(b.aliases)
  {
    hide CanonicalRow, CanonicalAnthropic, CanonicalOpenAi, CanonicalEndpoints, IsLowerText, ParseLowerText, KeyLowerText, HasWild, Models;
    forall a | a in b.aliases ensures AliasKey(a) == Ok(a) && TargetParser(Models(b.rows))(TextJson(b.aliases[a])) == Ok(b.aliases[a]) {
      LowerTextReadsBack(a);
      LowerTextReadsBack(b.aliases[a]);
    }
    SectionRoundTrips(o, b.aliases, TextJson, AliasKey, TargetParser(Models(b.rows)));
  }

  /** Every part parsed on its own gives the bundle. */
  lemma BundleOfParts(rd: Readers, vs: seq<Json>, b: Bundle, span: Span)
    requires |vs| == |TOP| && LiveCatalog.KeyOf(b.version).Some?
    requires vs[0] == Str(SCHEMA) && ParseText(vs[1]) == Ok(b.version)
    requires vs[4] == Str("USD") && vs[5] == Str("per_1m_tokens") && vs[6] == Str(ROUNDING_RULE)
    requires ParseSpan(rd, vs[2], vs[3]) == Ok(span)
    requires ParseRowList(rd, b.version, vs[7]) == Ok(b.rows)
    requires ParseSection(vs[8], AliasKey, TargetParser(Models(b.rows))) == Ok(b.aliases)
    requires ParseAnthropic(rd, vs[9]) == Ok(b.anthropic) && ParseOpenAi(rd, vs[10]) == Ok(b.openai)
    requires ParseEndpoints(rd, vs[11]) == Ok(b.endpoints)
    ensures ParseValues(rd, vs) == Ok(b.(source := "live", issuedAt := Some(span.issued), expiresAt := Some(span.expires)))
  {
    hide ParseText, ParseSpan, ParseRowList, ParseSection, ParseAnthropic, ParseOpenAi, ParseEndpoints, TargetParser, Models, LiveCatalog.KeyOf;
  }

  lemma TopNames()
    ensures Distinct(TOP)
  {
  }

  lemma SpanRoundTrip(rd: Readers, span: Span)
    requires ValidSpan(rd, span)
    ensures ParseSpan(rd, Str(span.issued), Str(span.expires)) == Ok(span)
  {
  }

  lemma DocumentReads(rd: Readers, vs: seq<Json>)
    requires |vs| == |TOP|
    ensures ParsePayload(rd, Obj(Fields(TOP, vs))) == ParseValues(rd, vs)
  {
    hide ParseValues;
    TopNames();
    NothingOmitted(Fields(TOP, vs));
    FieldsAreExact(TOP, vs, {}, TOP);
    ReadsBack(TOP, vs, {});
  }

  lemma ExportFields(o: Orders, b: Bundle, span: Span)
    ensures var vs := ExportValues(o, b, span);
            && vs[0] == Str(SCHEMA) && vs[1] == Str(b.version) && vs[2] == Str(span.issued) && vs[3] == Str(span.expires)
            && vs[4] == Str("USD") && vs[5] == Str("per_1m_tokens") && vs[6] == Str(ROUNDING_RULE)
            && vs[7] == List(RowsJson(b.rows, o.rows(b.rows.Keys))) && vs[8] == DictJson(o, b.aliases, TextJson)
            && vs[9] == Obj(Fields(ANTHROPIC, AnthropicValues(o, b.anthropic)))
            && vs[10] == Obj(Fields(OPENAI, OpenAiValues(o, b.openai)))
            && vs[11] == Obj(Fields(ENDPOINTS, EndpointsValues(o, b.endpoints)))
  {
    hide RowsJson, DictJson, AnthropicValues, OpenAiValues, EndpointsValues, Fields;
  }

  lemma CanonicalParts(rd: Readers, b: Bundle)
    requires Canonical(rd, b)
    ensures ParseText(Str(b.version)) == Ok(b.version) && LiveCatalog.KeyOf(b.version).Some?
    ensures CanonicalAnthropic(b.anthropic) && CanonicalOpenAi(b.openai) && CanonicalEndpoints(b.endpoints)
  {
  }

  lemma ExportValuesParse(rd: Readers, o: Orders, b: Bundle, span: Span)
    requires ReadsPlain(rd) && ValidOrders(o) && Canonical(rd, b) && ValidSpan(rd, span)
    ensures ParseValues(rd, ExportValues(o, b, span))
         == Ok(b.(source := "live", issuedAt := Some(span.issued), expiresAt := Some(span.expires)))
  {
    hide *;
    CanonicalParts(rd, b);
    ExportFields(o, b, span);
    SpanRoundTrip(rd, span);
    RowListRoundTrip(rd, o, b);
    AliasesRoundTrip(rd, o, b);
    AnthropicRoundTrip(rd, o, b.anthropic);
    OpenAiRoundTrip(rd, o, b.openai);
    EndpointsRoundTrip(rd, o, b.endpoints);
    BundleOfParts(rd, ExportValues(o, b, span), b, span);
  }

  /** Export then parse: every bundle in canonical form comes back with all its rows, rates, schedules, aliases,
      image tables and hosts, marked live and dated as exported. */
  lemma ExportedCatalogParsesBack(rd: Readers, o: Orders, b: Bundle, span: Span)
    requires ReadsPlain(rd) && ValidOrders(o) && Canonical(rd, b) && ValidSpan(rd, span)
    ensures ExportPayload(o, b, span).Ok?
    ensures ParsePayload(rd, ExportPayload(o, b, span).value)
         == Ok(b.(source := "live", issuedAt := Some(span.issued), expiresAt := Some(span.expires)))
  {
    hide ReadsPlain, ValidOrders, Canonical, ParseValues, ParsePayload, ValidSpan, ExportValues, LiveCatalog.KeyOf;
    CanonicalParts(rd, b);
    ExportValuesParse(rd, o, b, span);
    DocumentReads(rd, ExportValues(o, b, span));
  }

  // ------------------------------------------------------------------ whatever is accepted is canonical

  lemma DecimalIsAtLeast(rd: Readers, node: Json, least: nat)
    ensures ParseDecimal(rd, node, least).Ok? ==> DecAtLeast(ParseDecimal(rd, node, least).value, least)
  {
    if ParseDecimal(rd, node, least).Ok? {
      var d := ParseDecimal(rd, node, least).value;
      PowerIsPositive(d.scale);
      assert least * PowerOfTen(d.scale) >= 0;
    }
  }

  lemma ParsedRatesAreCanonical(rd: Readers, node: Json)
    ensures ParseRates(rd, node).Ok? ==> CanonicalRates(ParseRates(rd, node).value)
  {
    if ParseRates(rd, node).Ok? {
      forall j: Json | true ensures ParseOptionalDec(rd, j).Ok? ==> NonNegativeOption(ParseOptionalDec(rd, j).value) {
        DecimalIsAtLeast(rd, j, 0);
      }
      var vs := Read(node.entries, RATES);
      DecimalIsAtLeast(rd, vs[0], 0);
      DecimalIsAtLeast(rd, vs[4], 0);
    }
  }

  lemma ParsedInstantIsCanonical(rd: Readers, node: Json)
    ensures ParseInstant(rd, node).Ok? ==> CanonicalInstant(rd, ParseInstant(rd, node).value)
  {
    TextIsCanonical(node);
  }

  lemma ParsedScheduleIsCanonical(rd: Readers, node: Json)
    ensures ParseScheduled(rd, node).Ok? ==> forall e <- ParseScheduled(rd, node).value :: CanonicalScheduled(rd, e)
  {
    hide ParseInstant, ParseRates, CanonicalInstant, CanonicalRates;
    if ParseScheduled(rd, node).Ok? && !Falsy(node) {
      forall j: Json | EntryParser(rd)(j).Ok? ensures CanonicalScheduled(rd, EntryParser(rd)(j).value) {
        var vs := Read(j.entries, SCHEDULED);
        ParsedInstantIsCanonical(rd, vs[0]);
        ParsedRatesAreCanonical(rd, vs[1]);
      }
      ParsedListIs(node.items, EntryParser(rd), e => CanonicalScheduled(rd, e));
    }
  }

  lemma ParsedRowIsCanonical(rd: Readers, version: string, node: Json)
    ensures ParseRow(rd, version, node).Ok? ==> CanonicalRow(rd, version, ParseRow(rd, version, node).value)
  {
    hide ParseInstant, ParseRates, CanonicalInstant, CanonicalRates, ParseScheduled, CanonicalScheduled, IsText, IsLowerText, ParseText, ParseLowerText;
    if ParseRow(rd, version, node).Ok? {
      var vs := Read(node.entries, ROW);
      TextIsCanonical(vs[0]);
      TextIsCanonical(vs[1]);
      TextIsCanonical(vs[2]);
      TextIsCanonical(vs[3]);
      TextIsCanonical(vs[4]);
      TextIsCanonical(vs[7]);
      TextIsCanonical(vs[8]);
      TextIsCanonical(vs[10]);
      ParsedRatesAreCanonical(rd, vs[5]);
      ParsedScheduleIsCanonical(rd, vs[11]);
      ParsedInstantIsCanonical(rd, vs[12]);
    }
  }

  lemma {:induction false} ParsedRowsAreCanonical(rd: Readers, version: string, items: seq<Json>)
    requires ParseRows(rd, version, items).Ok?
    ensures forall k <- ParseRows(rd, version, items).value ::
              KeyOfRow(ParseRows(rd, version, items).value[k]) == k && CanonicalRow(rd, version, ParseRows(rd, version, items).value[k])
    ensures |ParseRows(rd, version, items).value| == |items|
  {
    hide ParseRow, CanonicalRow;
    if items != [] {
      ParsedRowsAreCanonical(rd, version, items[..|items| - 1]);
      ParsedRowIsCanonical(rd, version, items[|items| - 1]);
    }
  }

  lemma ParsedAliasesAreCanonical(entries: seq<Entry>, models: set<string>)
    requires ParseDict(entries, AliasKey, TargetParser(models)).Ok?
    ensures var m := ParseDict(entries, AliasKey, TargetParser(models)).value;
            forall a <- m :: IsLowerText(a) && !HasWild(a) && IsLowerText(m[a]) && m[a] in models
  {
    hide IsLowerText, ParseLowerText, HasWild, ParseDict;
    forall k: string | AliasKey(k).Ok? ensures IsLowerText(AliasKey(k).value) && !HasWild(AliasKey(k).value) {
      TextIsCanonical(Str(k));
    }
    forall j: Json | TargetParser(models)(j).Ok? ensures IsLowerText(TargetParser(models)(j).value) && TargetParser(models)(j).value in models {
      TextIsCanonical(j);
    }
    ParsedDictIs(entries, AliasKey, TargetParser(models), a => IsLowerText(a) && !HasWild(a), t => IsLowerText(t) && t in models);
  }

  lemma LoweredKeys(k: string)
    ensures KeyLower(k).Ok? && Lower(KeyLower(k).value) == KeyLower(k).value
  {
    LowerLeavesLowered(k);
  }

  lemma ParsedPairsAre(entries: seq<Entry>, least: int)
    requires ParseDict(entries, KeyLower, PairParser(least)).Ok?
    ensures var m := ParseDict(entries, KeyLower, PairParser(least)).value; forall k <- m :: Lower(k) == k && PairAtLeast(m[k], least)
  {
    forall k: string | true ensures KeyLower(k).Ok? && Lower(KeyLower(k).value) == KeyLower(k).value { LoweredKeys(k); }
    ParsedDictIs(entries, KeyLower, PairParser(least), k => Lower(k) == k, p => PairAtLeast(p, least));
  }

  lemma ParsedTextsAreCanonical(node: Json)
    ensures ParseTexts(node).Ok? ==> CanonicalTexts(ParseTexts(node).value)
    ensures ParseLowerTexts(node).Ok? ==> CanonicalLowerTexts(ParseLowerTexts(node).value)
  {
    hide IsText, IsLowerText, ParseText, ParseLowerText;
    forall j: Json | true
      ensures (ParseText(j).Ok? ==> IsText(ParseText(j).value)) && (ParseLowerText(j).Ok? ==> IsLowerText(ParseLowerText(j).value))
    {
      TextIsCanonical(j);
    }
    if ParseTexts(node).Ok? { ParsedListIs(node.items, ParseText, s => IsText(s)); }
    if ParseLowerTexts(node).Ok? { ParsedListIs(node.items, ParseLowerText, s => IsLowerText(s)); }
  }

  lemma ParsedDecsAre(rd: Readers, entries: seq<Entry>)
    ensures ParseDict(entries, KeyLower, DecParser(rd, 1)).Ok? ==>
              var m := ParseDict(entries, KeyLower, DecParser(rd, 1)).value; forall k <- m :: Lower(k) == k && DecAtLeast(m[k], 1)
    ensures ParseDict(entries, KeyLowerText, DecParser(rd, 1)).Ok? ==>
              var m := ParseDict(entries, KeyLowerText, DecParser(rd, 1)).value; forall k <- m :: IsLowerText(k) && DecAtLeast(m[k], 1)
  {
    hide IsLowerText, ParseDecimal, DecAtLeast, ParseDict, ParseLowerText, KeyLower;
    forall k: string | true ensures KeyLower(k).Ok? && Lower(KeyLower(k).value) == KeyLower(k).value { LoweredKeys(k); }
    forall k: string | KeyLowerText(k).Ok? ensures IsLowerText(KeyLowerText(k).value) { TextIsCanonical(Str(k)); }
    forall j: Json | DecParser(rd, 1)(j).Ok? ensures DecAtLeast(DecParser(rd, 1)(j).value, 1) { DecimalIsAtLeast(rd, j, 1); }
    if ParseDict(entries, KeyLower, DecParser(rd, 1)).Ok? {
      ParsedDictIs(entries, KeyLower, DecParser(rd, 1), k => Lower(k) == k, d => DecAtLeast(d, 1));
    }
    if ParseDict(entries, KeyLowerText, DecParser(rd, 1)).Ok? {
      ParsedDictIs(entries, KeyLowerText, DecParser(rd, 1), k => IsLowerText(k), d => DecAtLeast(d, 1));
    }
  }

  lemma ParsedSizingIsCanonical(node: Json)
    ensures ParseSizing(node).Ok? ==> CanonicalSizing(ParseSizing(node).value)
  {
    if ParseSizing(node).Ok? {
      forall j: Json | ParseLimits(j).Ok? ensures CanonicalLimits(ParseLimits(j).value) {
      }
      ParsedDictIs(node.entries, DetailKey, ParseLimits, d => d in ["low", "high", "original"], l => CanonicalLimits(l));
      var es := node.entries;
      var k := DetailKey(es[|es| - 1].key).value;
      assert k in ParseDict(es, DetailKey, ParseLimits).value;
    }
  }

  lemma ParsedAnthropicIsCanonical(rd: Readers, node: Json)
    ensures ParseAnthropic(rd, node).Ok? ==> CanonicalAnthropic(ParseAnthropic(rd, node).value)
  {
    hide IsText, IsLowerText, ParseText, ParseDict, ParseDecimal, DecAtLeast, ParseTexts, ParseLowerTexts, CanonicalTexts, CanonicalLowerTexts,
      KeyLower, KeyLowerText;
    if ParseAnthropic(rd, node).Ok? {
      var vs := Read(node.entries, ANTHROPIC);
      ParsedTextsAreCanonical(vs[0]);
      ParsedTextsAreCanonical(vs[4]);
      ParsedPairsAre(vs[1].entries, 0);
      forall k: string | KeyText(k).Ok? ensures IsText(KeyText(k).value) { TextIsCanonical(Str(k)); }
      ParsedDictIs(vs[3].entries, KeyText, IntParser(0), k => IsText(k), n => n >= 0);
      ParsedDecsAre(rd, vs[5].entries);
    }
  }

  lemma ParsedOpenAiIsCanonical(rd: Readers, node: Json)
    ensures ParseOpenAi(rd, node).Ok? ==> CanonicalOpenAi(ParseOpenAi(rd, node).value)
  {
    hide ParseDict, ParseDecimal, DecAtLeast, ParseSizing, CanonicalSizing, KeyLower;
    if ParseOpenAi(rd, node).Ok? {
      var vs := Read(node.entries, OPENAI);
      ParsedPairsAre(vs[0].entries, 1);
      ParsedDecsAre(rd, vs[1].entries);
      forall k: string | true ensures KeyLower(k).Ok? && Lower(KeyLower(k).value) == KeyLower(k).value { LoweredKeys(k); }
      forall j: Json | ParseSizing(j).Ok? ensures CanonicalSizing(ParseSizing(j).value) { ParsedSizingIsCanonical(j); }
      ParsedDictIs(vs[2].entries, KeyLower, ParseSizing, k => Lower(k) == k, m => CanonicalSizing(m));
    }
  }

  lemma ParsedEndpointsAreCanonical(rd: Readers, node: Json)
    ensures ParseEndpoints(rd, node).Ok? ==> CanonicalEndpoints(ParseEndpoints(rd, node).value)
  {
    hide IsLowerText, ParseLowerText, ParseDict, ParseDecimal, DecAtLeast, ParseLowerTexts, CanonicalLowerTexts;
    if ParseEndpoints(rd, node).Ok? {
      var vs := Read(node.entries, ENDPOINTS);
      forall k: string | KeyLowerText(k).Ok? ensures IsLowerText(KeyLowerText(k).value) { TextIsCanonical(Str(k)); }
      forall j: Json | ParseLowerTexts(j).Ok? ensures CanonicalLowerTexts(ParseLowerTexts(j).value) { ParsedTextsAreCanonical(j); }
      ParsedDictIs(vs[0].entries, KeyLowerText, ParseLowerTexts, k => IsLowerText(k), ss => CanonicalLowerTexts(ss));
      DecimalIsAtLeast(rd, vs[1], 1);
    }
  }

  /** The parts of an accepted document. */
  lemma AcceptedParts(rd: Readers, vs: seq<Json>)
    requires |vs| == |TOP| && ParseValues(rd, vs).Ok?
    ensures var b := ParseValues(rd, vs).value;
            && ParseText(vs[1]) == Ok(b.version) && LiveCatalog.KeyOf(b.version).Some? && b.source == "live"
            && b.issuedAt.Some? && b.expiresAt.Some? && ParseSpan(rd, vs[2], vs[3]) == Ok(Span(b.issuedAt.value, b.expiresAt.value))
            && ParseRowList(rd, b.version, vs[7]) == Ok(b.rows)
            && ParseSection(vs[8], AliasKey, TargetParser(Models(b.rows))) == Ok(b.aliases)
            && ParseAnthropic(rd, vs[9]) == Ok(b.anthropic) && ParseOpenAi(rd, vs[10]) == Ok(b.openai)
            && ParseEndpoints(rd, vs[11]) == Ok(b.endpoints)
  {
    hide ParseText, ParseSpan, ParseRowList, ParseSection, ParseAnthropic, ParseOpenAi, ParseEndpoints, TargetParser, Models, LiveCatalog.KeyOf;
  }

  lemma ParsedSpanIsValid(rd: Readers, issued: Json, expires: Json)
    ensures ParseSpan(rd, issued, expires).Ok? ==> ValidSpan(rd, ParseSpan(rd, issued, expires).value)
  {
    hide IsText, ParseText;
    ParsedInstantIsCanonical(rd, issued);
    ParsedInstantIsCanonical(rd, expires);
  }

  /** Whatever document is accepted, the bundle it gives is canonical, live, and expires after its issue. */
  lemma AcceptedIsCanonical(rd: Readers, payload: Json)
    requires ParsePayload(rd, payload).Ok?
    ensures var b := ParsePayload(rd, payload).value;
            && Canonical(rd, b) && b.source == "live" && b.issuedAt.Some? && b.expiresAt.Some?
            && ValidSpan(rd, Span(b.issuedAt.value, b.expiresAt.value))
  {
    hide ParseValues, ParseSpan, ParseRows, ParseDict, ParseAnthropic, ParseOpenAi, ParseEndpoints, TargetParser, LiveCatalog.KeyOf,
      CanonicalRow, CanonicalAnthropic, CanonicalOpenAi, CanonicalEndpoints, ValidSpan, IsText, IsLowerText, ParseText, HasWild, AliasKey, Models;
    var vs := Read(payload.entries, TOP);
    AcceptedParts(rd, vs);
    var b := ParseValues(rd, vs).value;
    TextIsCanonical(vs[1]);
    ParsedSpanIsValid(rd, vs[2], vs[3]);
    ParsedRowsAreCanonical(rd, b.version, vs[7].items);
    ParsedAliasesAreCanonical(vs[8].entries, Models(b.rows));
    ParsedAnthropicIsCanonical(rd, vs[9]);
    ParsedOpenAiIsCanonical(rd, vs[10]);
    ParsedEndpointsAreCanonical(rd, vs[11]);
  }

  /** So exporting an accepted catalog again, with its own dates, describes exactly the same catalog. */
  lemma AcceptedCatalogSurvivesReexport(rd: Readers, o: Orders, payload: Json)
    requires ReadsPlain(rd) && ValidOrders(o) && ParsePayload(rd, payload).Ok?
    ensures var b := ParsePayload(rd, payload).value;
            && b.issuedAt.Some? && b.expiresAt.Some?
            && ExportPayload(o, b, Span(b.issuedAt.value, b.expiresAt.value)).Ok?
            && ParsePayload(rd, ExportPayload(o, b, Span(b.issuedAt.value, b.expiresAt.value)).value) == Ok(b)
  {
    hide *;
    AcceptedIsCanonical(rd, payload);
    var b := ParsePayload(rd, payload).value;
    ExportedCatalogParsesBack(rd, o, b, Span(b.issuedAt.value, b.expiresAt.value));
  }
}

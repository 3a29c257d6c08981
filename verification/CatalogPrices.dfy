/** From a catalog document to the price in force: the documents of CatalogDocument, offered to the catalog of
    LiveCatalog, priced row by row as PriceCatalog does. Checking signatures is an input: only verified
    documents are offered. */
module CatalogPrices {
  import opened Wrappers
  import opened Decimals
  import CatalogJson
  import CatalogDocument
  import Named = CatalogNames
  import Text
  import Live = LiveCatalog
  import Prices = PriceCatalog
  import Rates

  type Document = CatalogDocument.Bundle

  // ------------------------------------------------------------------ what a document says

  function ValueOf(d: Dec): real {
    CatalogDocument.PowerIsPositive(d.scale);
    d.coefficient as real / CatalogJson.PowerOfTen(d.scale) as real
  }

  function OptionalValue(d: Option<Dec>): Option<real> { if d.None? then None else Some(ValueOf(d.value)) }

  function VectorOf(r: CatalogDocument.Rates): Rates.RateVector {
    Rates.RateVector(
      ValueOf(r.input), OptionalValue(r.cachedInput), OptionalValue(r.cacheWrite5m), OptionalValue(r.cacheWrite1h),
      ValueOf(r.output), OptionalValue(r.image), OptionalValue(r.toolPerCall), OptionalValue(r.audioInput),
      OptionalValue(r.audioCachedInput))
  }

  function InstantOf(rd: CatalogJson.Readers, s: Option<string>): Option<int> { if s.None? then None else rd.instant(s.value) }

  function EntryOf(rd: CatalogJson.Readers, e: CatalogDocument.Scheduled): Prices.Scheduled {
    Prices.Scheduled(InstantOf(rd, e.effectiveFrom), VectorOf(e.rates))
  }

  function RowOf(rd: CatalogJson.Readers, r: CatalogDocument.Row): Prices.CatalogRow {
    Prices.CatalogRow(
      VectorOf(r.rates), r.certified, seq(|r.scheduled|, i requires 0 <= i < |r.scheduled| => EntryOf(rd, r.scheduled[i])),
      InstantOf(rd, r.validUntil))
  }

  function BundleOf(rd: CatalogJson.Readers, b: Document): Live.Bundle<Document> {
    Live.Bundle(b.version, InstantOf(rd, b.issuedAt), InstantOf(rd, b.expiresAt), b)
  }

  /** The row a catalog prices a call by at an instant. */
  function PriceAt(rd: CatalogJson.Readers, b: Document, k: CatalogDocument.RowKey, now: int): Option<Prices.CatalogRow> {
    if k in b.rows then Some(Prices.At(RowOf(rd, b.rows[k]), now)) else None
  }

  lemma ValueIsNonNegative(d: Dec)
    requires d.coefficient >= 0
    ensures ValueOf(d) >= 0.0
  {
    CatalogDocument.PowerIsPositive(d.scale);
  }

  lemma OptionalIsNonNegative(d: Option<Dec>)
    requires CatalogDocument.NonNegativeOption(d)
    ensures OptionalValue(d).Some? ==> OptionalValue(d).value >= 0.0
  {
    if d.Some? { ValueIsNonNegative(d.value); }
  }

  lemma VectorIsNonNegative(r: CatalogDocument.Rates)
    requires CatalogDocument.CanonicalRates(r)
    ensures Rates.NonNegative(VectorOf(r))
  {
    hide ValueOf, OptionalValue;
    ValueIsNonNegative(r.input);
    ValueIsNonNegative(r.output);
    OptionalIsNonNegative(r.cachedInput);
    OptionalIsNonNegative(r.cacheWrite5m);
    OptionalIsNonNegative(r.cacheWrite1h);
    OptionalIsNonNegative(r.image);
    OptionalIsNonNegative(r.toolPerCall);
    OptionalIsNonNegative(r.audioInput);
    OptionalIsNonNegative(r.audioCachedInput);
  }

  predicate HasBegun(rd: CatalogJson.Readers, e: CatalogDocument.Scheduled, now: int) {
    InstantOf(rd, e.effectiveFrom).Some? && InstantOf(rd, e.effectiveFrom).value <= now
  }

  /** The i-th entry of the document is in force: it has begun, and no other that has begun is later, in time
      or, at one instant, in the list. */
  ghost predicate InForce(rd: CatalogJson.Readers, s: seq<CatalogDocument.Scheduled>, now: int, i: int) {
    && 0 <= i < |s| && HasBegun(rd, s[i], now)
    && forall j :: 0 <= j < |s| && HasBegun(rd, s[j], now) ==>
         var (from, best) := (InstantOf(rd, s[j].effectiveFrom).value, InstantOf(rd, s[i].effectiveFrom).value);
         from < best || (from == best && j <= i)
  }

  /** What the document says a row costs at an instant: the rates of the entry in force, the base rates
      before the first. */
  ghost predicate Names(rd: CatalogJson.Readers, r: CatalogDocument.Row, now: int, rates: Rates.RateVector) {
    if forall e <- r.scheduled :: !HasBegun(rd, e, now) then rates == VectorOf(r.rates)
    else exists i :: InForce(rd, r.scheduled, now, i) && rates == VectorOf(r.scheduled[i].rates)
  }

  lemma SameInForce(rd: CatalogJson.Readers, r: CatalogDocument.Row, now: int, i: int)
    ensures Prices.InForce(RowOf(rd, r).scheduled, now, i) <==> InForce(rd, r.scheduled, now, i)
  {
    hide VectorOf;
    var s := RowOf(rd, r).scheduled;
    forall j | 0 <= j < |s| ensures s[j].from == InstantOf(rd, r.scheduled[j].effectiveFrom) && (Prices.Begun(s[j], now) <==> HasBegun(rd, r.scheduled[j], now)) {
      assert s[j] == EntryOf(rd, r.scheduled[j]);
    }
  }

  /** No entry but one is in force, so the document names one price. */
  lemma NamesOnePrice(rd: CatalogJson.Readers, r: CatalogDocument.Row, now: int, a: Rates.RateVector, b: Rates.RateVector)
    requires Names(rd, r, now, a) && Names(rd, r, now, b)
    ensures a == b
  {
    hide VectorOf, InstantOf;
    if exists e <- r.scheduled :: HasBegun(rd, e, now) {
      var i :| InForce(rd, r.scheduled, now, i) && a == VectorOf(r.scheduled[i].rates);
      var j :| InForce(rd, r.scheduled, now, j) && b == VectorOf(r.scheduled[j].rates);
      assert i == j;
    }
  }

  /** A row is priced at the non-negative rates its document names for the instant, and certified until it says
      otherwise. */
  lemma PriceIsNamed(rd: CatalogJson.Readers, version: string, r: CatalogDocument.Row, now: int)
    requires CatalogDocument.CanonicalRow(rd, version, r)
    ensures var price := Prices.At(RowOf(rd, r), now);
            && Rates.NonNegative(price.rates) && Names(rd, r, now, price.rates)
            && (price.certified <==> r.certified && !(r.validUntil.Some? && rd.instant(r.validUntil.value).value <= now))
  {
    hide Prices.At, VectorOf, Prices.InForce, InForce;
    var row := RowOf(rd, r);
    Prices.RowUsesTheEntryInForce(row, now);
    VectorIsNonNegative(r.rates);
    if i :| Prices.InForce(row.scheduled, now, i) {
      SameInForce(rd, r, now, i);
      InForceHasBegun(rd, r.scheduled, now, i);
      assert row.scheduled[i] == EntryOf(rd, r.scheduled[i]) && r.scheduled[i] in r.scheduled;
      assert CatalogDocument.CanonicalScheduled(rd, r.scheduled[i]);
      VectorIsNonNegative(r.scheduled[i].rates);
    } else {
      forall e | e in r.scheduled ensures !HasBegun(rd, e, now) {
        var j :| 0 <= j < |r.scheduled| && r.scheduled[j] == e;
        assert row.scheduled[j] == EntryOf(rd, e) && !Prices.Begun(row.scheduled[j], now);
      }
    }
  }

  lemma InForceHasBegun(rd: CatalogJson.Readers, s: seq<CatalogDocument.Scheduled>, now: int, i: int)
    requires InForce(rd, s, now, i)
    ensures 0 <= i < |s| && HasBegun(rd, s[i], now)
  {
  }

  // ------------------------------------------------------------------ documents offered to the live catalog

  /** A document as it arrives. */
  datatype Delivery = Delivery(payload: CatalogJson.Json, verified: bool, minimum: Option<string>, now: int, install: bool)

  function OfferOf(rd: CatalogJson.Readers, d: Delivery): Live.Offer<Document> {
    var parsed := CatalogDocument.ParsePayload(rd, d.payload);
    Live.Offer(if d.verified && parsed.Ok? then Some(BundleOf(rd, parsed.value)) else None, d.minimum, d.now, d.install)
  }

  /** The catalog holds canonical documents, under their own version and dates. */
  ghost predicate Sourced(rd: CatalogJson.Readers, b: Live.Bundle<Document>) {
    b == BundleOf(rd, b.content) && CatalogDocument.Canonical(rd, b.content)
  }

  lemma OfferIsSourced(rd: CatalogJson.Readers, d: Delivery)
    ensures var offered := OfferOf(rd, d).offered;
            offered.Some? ==> && Sourced(rd, offered.value) && Live.ValidBundle(offered.value)
                              && offered.value.issuedAt.Some? && offered.value.expiresAt.Some?
                              && offered.value.issuedAt.value < offered.value.expiresAt.value
  {
    hide CatalogDocument.ParsePayload;
    if OfferOf(rd, d).offered.Some? {
      CatalogDocument.AcceptedIsCanonical(rd, d.payload);
    }
  }

  lemma {:induction false} LiveIsSourced(
    rd: CatalogJson.Readers, bundled: Document, states: seq<Live.State<Document>>, deliveries: seq<Delivery>,
    offers: seq<Live.Offer<Document>>, n: nat)
    requires CatalogDocument.Canonical(rd, bundled) && Live.ValidBundle(BundleOf(rd, bundled))
    requires |offers| == |deliveries| && forall i :: 0 <= i < |offers| ==> offers[i] == OfferOf(rd, deliveries[i])
    requires Live.IsRun(BundleOf(rd, bundled), states, offers) && n < |states|
    ensures states[n].live.Some? ==> Sourced(rd, states[n].live.value)
  {
    hide OfferOf, BundleOf, CatalogDocument.Canonical;
    if n > 0 {
      LiveIsSourced(rd, bundled, states, deliveries, offers, n - 1);
      assert Live.Moves(BundleOf(rd, bundled), states, offers, n - 1);
      OfferIsSourced(rd, deliveries[n - 1]);
    }
  }

  /** Whatever documents are delivered, in whatever order: at any instant, each row of the active catalog is
      priced at the rates its document has in force at that instant, none of them negative, and no usage
      costs less than nothing. */
  lemma ActivePricesAreNamed(
    rd: CatalogJson.Readers, bundled: Document, states: seq<Live.State<Document>>, deliveries: seq<Delivery>,
    offers: seq<Live.Offer<Document>>, n: nat, now: int, k: CatalogDocument.RowKey, usage: Rates.Tokens)
    requires CatalogDocument.Canonical(rd, bundled) && Live.ValidBundle(BundleOf(rd, bundled))
    requires |offers| == |deliveries| && forall i :: 0 <= i < |offers| ==> offers[i] == OfferOf(rd, deliveries[i])
    requires Live.IsRun(BundleOf(rd, bundled), states, offers) && n < |states|
    ensures var active := Live.ActiveOf(states[n], BundleOf(rd, bundled), now);
            && Sourced(rd, active)
            && (PriceAt(rd, active.content, k, now).Some? ==>
                  var price := PriceAt(rd, active.content, k, now).value;
                  && Rates.NonNegative(price.rates) && Rates.ComponentCost(price.rates, usage) >= 0.0
                  && Names(rd, active.content.rows[k], now, price.rates))
  {
    hide OfferOf, Names, Prices.At, CatalogDocument.CanonicalRow, Rates.ComponentCost, Rates.NonNegative;
    LiveIsSourced(rd, bundled, states, deliveries, offers, n);
    var active := Live.ActiveOf(states[n], BundleOf(rd, bundled), now);
    if k in active.content.rows {
      var row := active.content.rows[k];
      PriceIsNamed(rd, active.content.version, row, now);
      Rates.CostIsNonNegative(Prices.At(RowOf(rd, row), now).rates, usage);
    }
  }

  /** Exporting an accepted document again and delivering that instead offers the same bundle, with the same
      price for every row at every instant. */
  lemma ReexportKeepsPrices(rd: CatalogJson.Readers, o: CatalogDocument.Orders, d: Delivery)
    requires CatalogJson.ReadsPlain(rd) && CatalogDocument.ValidOrders(o) && OfferOf(rd, d).offered.Some?
    ensures var b := OfferOf(rd, d).offered.value.content;
            && b.issuedAt.Some? && b.expiresAt.Some?
            && CatalogDocument.ExportPayload(o, b, CatalogDocument.Span(b.issuedAt.value, b.expiresAt.value)).Ok?
            && var again := d.(payload := CatalogDocument.ExportPayload(o, b, CatalogDocument.Span(b.issuedAt.value, b.expiresAt.value)).value);
               && OfferOf(rd, again) == OfferOf(rd, d)
               && forall k, now :: PriceAt(rd, OfferOf(rd, again).offered.value.content, k, now) == PriceAt(rd, b, k, now)
  {
    hide CatalogDocument.ParsePayload, CatalogDocument.ExportPayload, PriceAt;
    CatalogDocument.AcceptedCatalogSurvivesReexport(rd, o, d.payload);
  }

  // ------------------------------------------------------------------ prices read off the document by name

  predicate IsPrice(rd: CatalogJson.Readers, node: CatalogJson.Json, x: real) {
    match node
    case Str(s) => rd.decimal(s).Some? && x == ValueOf(rd.decimal(s).value)
    case Int(n) => x == n as real
    case _ => false
  }

  predicate IsOptionalPrice(rd: CatalogJson.Readers, node: CatalogJson.Json, x: Option<real>) {
    if node.Null? then x.None? else x.Some? && IsPrice(rd, node, x.value)
  }

  /** The rates are those of this object of a document, each under its own name. */
  predicate VectorUnder(rd: CatalogJson.Readers, node: CatalogJson.Json, v: Rates.RateVector) {
    && IsPrice(rd, Named.Under(node, "input"), v.input)
    && IsOptionalPrice(rd, Named.Under(node, "cached_input"), v.cachedInput)
    && IsOptionalPrice(rd, Named.Under(node, "cache_write_5m"), v.cacheWrite5m)
    && IsOptionalPrice(rd, Named.Under(node, "cache_write_1h"), v.cacheWrite1h)
    && IsPrice(rd, Named.Under(node, "output"), v.output)
    && IsOptionalPrice(rd, Named.Under(node, "image"), v.image)
    && IsOptionalPrice(rd, Named.Under(node, "tool_per_call"), v.toolPerCall)
    && IsOptionalPrice(rd, Named.Under(node, "audio_input"), v.audioInput)
    && IsOptionalPrice(rd, Named.Under(node, "audio_cached_input"), v.audioCachedInput)
  }

  function EntriesUnder(node: CatalogJson.Json): seq<CatalogJson.Json> {
    var list := Named.Under(node, "scheduled");
    if list.List? then list.items else []
  }

  /** The instant an entry begins, if it has begun. */
  function BegunUnder(rd: CatalogJson.Readers, entry: CatalogJson.Json, now: int): Option<int> {
    var from := Named.Under(entry, "effective_from");
    if !from.Str? then None
    else
      var at := rd.instant(Text.Strip(from.s));
      if at.Some? && at.value <= now then at else None
  }

  ghost predicate InForceUnder(rd: CatalogJson.Readers, es: seq<CatalogJson.Json>, now: int, i: int) {
    && 0 <= i < |es| && BegunUnder(rd, es[i], now).Some?
    && forall j :: 0 <= j < |es| && BegunUnder(rd, es[j], now).Some? ==>
         var (from, best) := (BegunUnder(rd, es[j], now).value, BegunUnder(rd, es[i], now).value); from < best || (from == best && j <= i)
  }

  /** What a row object of a document costs at an instant: the rates under the entry in force, the row's own
      before the first. */
  ghost predicate CostsUnder(rd: CatalogJson.Readers, row: CatalogJson.Json, now: int, rates: Rates.RateVector) {
    var es := EntriesUnder(row);
    if forall e <- es :: BegunUnder(rd, e, now).None? then VectorUnder(rd, Named.Under(row, "rates"), rates)
    else exists i :: InForceUnder(rd, es, now, i) && VectorUnder(rd, Named.Under(es[i], "rates"), rates)
  }

  lemma ValueIsPrice(rd: CatalogJson.Readers, node: CatalogJson.Json, d: Dec)
    requires Named.IsDecimal(rd, node, d)
    ensures IsPrice(rd, node, ValueOf(d))
  {
  }

  lemma OptionalIsPrice(rd: CatalogJson.Readers, node: CatalogJson.Json, d: Option<Dec>)
    requires Named.IsOptionalDecimal(rd, node, d)
    ensures IsOptionalPrice(rd, node, OptionalValue(d))
  {
    if d.Some? { ValueIsPrice(rd, node, d.value); }
  }

  lemma VectorIsUnder(rd: CatalogJson.Readers, node: CatalogJson.Json, r: CatalogDocument.Rates)
    requires Named.RatesUnder(rd, node, r)
    ensures VectorUnder(rd, node, VectorOf(r))
  {
    hide Named.IsDecimal, Named.IsOptionalDecimal, IsPrice, IsOptionalPrice, ValueOf, OptionalValue, Named.Under;
    ValueIsPrice(rd, Named.Under(node, "input"), r.input);
    OptionalIsPrice(rd, Named.Under(node, "cached_input"), r.cachedInput);
    OptionalIsPrice(rd, Named.Under(node, "cache_write_5m"), r.cacheWrite5m);
    OptionalIsPrice(rd, Named.Under(node, "cache_write_1h"), r.cacheWrite1h);
    ValueIsPrice(rd, Named.Under(node, "output"), r.output);
    OptionalIsPrice(rd, Named.Under(node, "image"), r.image);
    OptionalIsPrice(rd, Named.Under(node, "tool_per_call"), r.toolPerCall);
    OptionalIsPrice(rd, Named.Under(node, "audio_input"), r.audioInput);
    OptionalIsPrice(rd, Named.Under(node, "audio_cached_input"), r.audioCachedInput);
  }

  lemma SameBegun(rd: CatalogJson.Readers, node: CatalogJson.Json, e: CatalogDocument.Scheduled, now: int)
    requires Named.EntryUnder(rd, node, e)
    ensures HasBegun(rd, e, now) <==> BegunUnder(rd, node, now).Some?
    ensures HasBegun(rd, e, now) ==> InstantOf(rd, e.effectiveFrom) == BegunUnder(rd, node, now)
  {
    hide Named.RatesUnder, Text.Strip;
  }

  lemma ScheduleEntries(rd: CatalogJson.Readers, node: CatalogJson.Json, r: CatalogDocument.Row)
    requires Named.RowUnder(rd, node, r)
    ensures var es := EntriesUnder(node); |es| == |r.scheduled| && forall i :: 0 <= i < |es| ==> Named.EntryUnder(rd, es[i], r.scheduled[i])
  {
    hide Named.RatesUnder, Named.EntryUnder, Named.Says, Named.SaysLower, Named.IsInstant, Named.IsOptionalInt;
  }

  /** The nodes begin when the entries do. */
  ghost predicate BeginTogether(rd: CatalogJson.Readers, es: seq<CatalogJson.Json>, s: seq<CatalogDocument.Scheduled>, now: int) {
    && |es| == |s|
    && forall i :: 0 <= i < |es| ==>
         && (HasBegun(rd, s[i], now) <==> BegunUnder(rd, es[i], now).Some?)
         && (HasBegun(rd, s[i], now) ==> InstantOf(rd, s[i].effectiveFrom) == BegunUnder(rd, es[i], now))
  }

  lemma SameInForceUnder(rd: CatalogJson.Readers, es: seq<CatalogJson.Json>, s: seq<CatalogDocument.Scheduled>, now: int, i: int)
    requires BeginTogether(rd, es, s, now) && InForce(rd, s, now, i)
    ensures InForceUnder(rd, es, now, i)
  {
    hide HasBegun, BegunUnder, InstantOf;
    HasBegunHas(rd, s[i], now);
    forall j | 0 <= j < |es| && BegunUnder(rd, es[j], now).Some?
      ensures var (from, best) := (BegunUnder(rd, es[j], now).value, BegunUnder(rd, es[i], now).value); from < best || (from == best && j <= i)
    {
      HasBegunHas(rd, s[j], now);
    }
  }

  lemma HasBegunHas(rd: CatalogJson.Readers, e: CatalogDocument.Scheduled, now: int)
    ensures HasBegun(rd, e, now) ==> InstantOf(rd, e.effectiveFrom).Some?
  {
  }

  lemma RowBeginsTogether(rd: CatalogJson.Readers, node: CatalogJson.Json, r: CatalogDocument.Row, now: int)
    requires Named.RowUnder(rd, node, r)
    ensures BeginTogether(rd, EntriesUnder(node), r.scheduled, now)
  {
    ScheduleEntries(rd, node, r);
    hide Named.RowUnder, HasBegun, BegunUnder, InstantOf, EntriesUnder;
    forall i | 0 <= i < |r.scheduled|
      ensures HasBegun(rd, r.scheduled[i], now) <==> BegunUnder(rd, EntriesUnder(node)[i], now).Some?
      ensures HasBegun(rd, r.scheduled[i], now) ==> InstantOf(rd, r.scheduled[i].effectiveFrom) == BegunUnder(rd, EntriesUnder(node)[i], now)
    {
      SameBegun(rd, EntriesUnder(node)[i], r.scheduled[i], now);
    }
  }

  lemma NoneBegunUnder(rd: CatalogJson.Readers, es: seq<CatalogJson.Json>, s: seq<CatalogDocument.Scheduled>, now: int)
    requires BeginTogether(rd, es, s, now)
    ensures (forall e <- es :: BegunUnder(rd, e, now).None?) <==> forall e <- s :: !HasBegun(rd, e, now)
  {
    hide HasBegun, BegunUnder, InstantOf;
    if forall e <- es :: BegunUnder(rd, e, now).None? {
      forall e | e in s ensures !HasBegun(rd, e, now) {
        var i :| 0 <= i < |s| && s[i] == e;
        assert es[i] in es;
      }
    }
    if forall e <- s :: !HasBegun(rd, e, now) {
      forall e | e in es ensures BegunUnder(rd, e, now).None? {
        var i :| 0 <= i < |es| && es[i] == e;
        assert s[i] in s;
      }
    }
  }

  lemma EntryInForceCosts(
    rd: CatalogJson.Readers, es: seq<CatalogJson.Json>, r: CatalogDocument.Row, now: int, rates: Rates.RateVector)
    requires BeginTogether(rd, es, r.scheduled, now) && Names(rd, r, now, rates)
    requires forall i :: 0 <= i < |es| ==> Named.RatesUnder(rd, Named.Under(es[i], "rates"), r.scheduled[i].rates)
    ensures if forall e <- es :: BegunUnder(rd, e, now).None? then rates == VectorOf(r.rates)
            else exists i :: InForceUnder(rd, es, now, i) && VectorUnder(rd, Named.Under(es[i], "rates"), rates)
  {
    NoneBegunUnder(rd, es, r.scheduled, now);
    hide Named.RatesUnder, VectorUnder, VectorOf, HasBegun, BegunUnder, InstantOf, InForce, InForceUnder, Named.Under;
    if e :| e in r.scheduled && HasBegun(rd, e, now) {
      var i :| InForce(rd, r.scheduled, now, i) && rates == VectorOf(r.scheduled[i].rates);
      SameInForceUnder(rd, es, r.scheduled, now, i);
      InForceHasBegun(rd, r.scheduled, now, i);
      VectorIsUnder(rd, Named.Under(es[i], "rates"), r.scheduled[i].rates);
    }
  }

  lemma EntriesHaveRates(rd: CatalogJson.Readers, node: CatalogJson.Json, r: CatalogDocument.Row)
    requires Named.RowUnder(rd, node, r)
    ensures var es := EntriesUnder(node);
            |es| == |r.scheduled| && forall i :: 0 <= i < |es| ==> Named.RatesUnder(rd, Named.Under(es[i], "rates"), r.scheduled[i].rates)
    ensures Named.RatesUnder(rd, Named.Under(node, "rates"), r.rates)
  {
    ScheduleEntries(rd, node, r);
    hide Named.RatesUnder, Named.Under, Named.IsFalse, Named.Says, Named.SaysLower, Named.IsInstant, EntriesUnder;
  }

  /** The row the parser made of an object costs what the object says, name by name. */
  lemma RowCostsWhatIsUnder(rd: CatalogJson.Readers, node: CatalogJson.Json, r: CatalogDocument.Row, now: int, rates: Rates.RateVector)
    requires Named.RowUnder(rd, node, r) && Names(rd, r, now, rates)
    ensures CostsUnder(rd, node, now, rates)
  {
    RowBeginsTogether(rd, node, r, now);
    EntriesHaveRates(rd, node, r);
    hide Named.RowUnder, Named.RatesUnder, VectorUnder, VectorOf, BegunUnder, BeginTogether, InForceUnder, EntriesUnder, Named.Under, Names;
    EntryInForceCosts(rd, EntriesUnder(node), r, now, rates);
    VectorIsUnder(rd, Named.Under(node, "rates"), r.rates);
  }

  /** The document lists a row object for this provider, model, tier and band that costs this at the instant. */
  ghost predicate ListsPrice(rd: CatalogJson.Readers, payload: CatalogJson.Json, k: CatalogDocument.RowKey, now: int, rates: Rates.RateVector) {
    var rows := Named.Under(payload, "rows");
    && rows.List?
    && exists i :: 0 <= i < |rows.items| && IsRowOf(rows.items[i], k) && CostsUnder(rd, rows.items[i], now, rates)
  }

  predicate IsRowOf(node: CatalogJson.Json, k: CatalogDocument.RowKey) {
    && Named.SaysLower(Named.Under(node, "provider"), k.provider) && Named.SaysLower(Named.Under(node, "model"), k.model)
    && Named.SaysLower(Named.Under(node, "request_tier"), k.tier) && Named.SaysLower(Named.Under(node, "context_band"), k.band)
  }

  lemma DocumentListsPrice(rd: CatalogJson.Readers, payload: CatalogJson.Json, b: Document, k: CatalogDocument.RowKey, now: int, rates: Rates.RateVector)
    requires Named.DocumentUnder(rd, payload, b) && k in b.rows && Names(rd, b.rows[k], now, rates)
    ensures ListsPrice(rd, payload, k, now, rates)
  {
    hide Named.DictUnder, Named.AnthropicUnder, Named.OpenAiUnder, Named.EndpointsUnder, Named.RowUnder, Named.Says, Named.IsInstant, Names, CostsUnder, IsRowOf;
    var rows := Named.Under(payload, "rows");
    assert Named.Listed(rd, b.rows[k], rows.items);
    var i :| 0 <= i < |rows.items| && Named.RowUnder(rd, rows.items[i], b.rows[k]);
    RowCostsWhatIsUnder(rd, rows.items[i], b.rows[k], now, rates);
    RowIsOf(rd, rows.items[i], b.rows[k]);
  }

  lemma RowIsOf(rd: CatalogJson.Readers, node: CatalogJson.Json, r: CatalogDocument.Row)
    requires Named.RowUnder(rd, node, r)
    ensures IsRowOf(node, CatalogDocument.KeyOfRow(r))
  {
    hide Named.SaysLower, Named.Under;
  }

  lemma LiveComesFromTheOffer(s: Live.State<Document>, bundled: Live.Bundle<Document>, o: Live.Offer<Document>)
    requires Live.ValidBundle(bundled) && Live.ValidOffer(o)
    ensures var t := Live.Next(s, bundled, o); t.live == s.live || (o.install && t.live == o.offered)
  {
    hide Live.KeyOf;
  }

  lemma {:induction false} LiveWasDelivered(
    rd: CatalogJson.Readers, bundled: Document, states: seq<Live.State<Document>>, deliveries: seq<Delivery>,
    offers: seq<Live.Offer<Document>>, n: nat)
    requires Live.ValidBundle(BundleOf(rd, bundled))
    requires |offers| == |deliveries| && forall i :: 0 <= i < |offers| ==> offers[i] == OfferOf(rd, deliveries[i])
    requires Live.IsRun(BundleOf(rd, bundled), states, offers) && n < |states|
    ensures states[n].live.Some? ==> exists i :: 0 <= i < n && deliveries[i].install && OfferOf(rd, deliveries[i]).offered == states[n].live
  {
    hide OfferOf, BundleOf, Live.Next, Live.KeyOf;
    if n > 0 {
      LiveWasDelivered(rd, bundled, states, deliveries, offers, n - 1);
      assert Live.Moves(BundleOf(rd, bundled), states, offers, n - 1);
      OfferKeeps(rd, deliveries[n - 1]);
      LiveComesFromTheOffer(states[n - 1], BundleOf(rd, bundled), offers[n - 1]);
      if states[n].live != states[n - 1].live {
        assert OfferOf(rd, deliveries[n - 1]).offered == states[n].live;
      }
    }
  }

  lemma OfferKeeps(rd: CatalogJson.Readers, d: Delivery)
    ensures OfferOf(rd, d).install == d.install && OfferOf(rd, d).now == d.now && OfferOf(rd, d).minimum == d.minimum
    ensures OfferOf(rd, d).offered.Some? ==>
              && d.verified && CatalogDocument.ParsePayload(rd, d.payload).Ok?
              && OfferOf(rd, d).offered.value.content == CatalogDocument.ParsePayload(rd, d.payload).value
  {
    hide CatalogDocument.ParsePayload;
  }

  /** No older than the bundled, the caller's and the highest version, issued at most an hour ahead, and not expired. */
  predicate IsCurrent(s: Live.State<Document>, bundled: Live.Bundle<Document>, b: Live.Bundle<Document>, minimum: Option<string>, now: int)
    requires Live.ValidBundle(bundled) && Live.ValidBundle(b)
  {
    && !Live.Older(Live.Key(b), Live.Key(bundled)) && Live.AtLeast(b, minimum) && Live.AtLeast(b, s.highest)
    && (b.issuedAt.Some? ==> b.issuedAt.value <= now + 3600)
    && (b.expiresAt.Some? ==> now < b.expiresAt.value)
  }

  /** A document takes effect as soon as it is delivered for installation, verified and well formed, no older than the
      bundled, the caller's and the highest version, and inside its window; it stays in force until it expires. One
      that is not verified or does not parse changes nothing. */
  lemma DeliveredDocumentTakesEffect(
    rd: CatalogJson.Readers, bundled: Document, s: Live.State<Document>, d: Delivery, later: int)
    requires Live.ValidBundle(BundleOf(rd, bundled)) && Live.Floored(s, BundleOf(rd, bundled))
    ensures Live.ValidOffer(OfferOf(rd, d))
    ensures var t := Live.Next(s, BundleOf(rd, bundled), OfferOf(rd, d));
            var parsed := CatalogDocument.ParsePayload(rd, d.payload);
            if !d.verified || parsed.Err? || !d.install then t == s
            else
              var b := BundleOf(rd, parsed.value);
              && Live.ValidBundle(b)
              && (IsCurrent(s, BundleOf(rd, bundled), b, d.minimum, d.now) ==> t.live == Some(b))
              && (IsCurrent(s, BundleOf(rd, bundled), b, d.minimum, d.now) && !Live.Expired(b, later) ==>
                    Live.ActiveOf(t, BundleOf(rd, bundled), later).content == parsed.value)
  {
    OfferIsSourced(rd, d);
    OfferKeeps(rd, d);
    hide CatalogDocument.ParsePayload, Live.KeyOf, Live.Judge;
    var o := OfferOf(rd, d);
    if o.offered.Some? {
      Live.AcceptedInItsWindow(s, BundleOf(rd, bundled), o.offered.value, d.minimum, d.now);
    } else {
      Live.NothingOffered(s, BundleOf(rd, bundled), d.minimum, d.now);
    }
  }

  /** So a price of the live catalog is read off one verified document that was delivered for installation: off the
      row object that names the provider, the model, the tier and the band, at the rates that stand there under
      their own names in the entry in force. */
  lemma LivePricesAreReadByName(
    rd: CatalogJson.Readers, bundled: Document, states: seq<Live.State<Document>>, deliveries: seq<Delivery>,
    offers: seq<Live.Offer<Document>>, n: nat, now: int)
    requires CatalogDocument.Canonical(rd, bundled) && Live.ValidBundle(BundleOf(rd, bundled))
    requires |offers| == |deliveries| && forall i :: 0 <= i < |offers| ==> offers[i] == OfferOf(rd, deliveries[i])
    requires Live.IsRun(BundleOf(rd, bundled), states, offers) && n < |states|
    ensures var active := Live.ActiveOf(states[n], BundleOf(rd, bundled), now);
            || active == BundleOf(rd, bundled)
            || exists i :: 0 <= i < n && deliveries[i].verified && deliveries[i].install
                           && Named.DocumentUnder(rd, deliveries[i].payload, active.content)
                           && forall k <- active.content.rows :: ListsPrice(rd, deliveries[i].payload, k, now, PriceAt(rd, active.content, k, now).value.rates)
  {
    var active := Live.ActiveOf(states[n], BundleOf(rd, bundled), now);
    if active != BundleOf(rd, bundled) {
      LiveWasDelivered(rd, bundled, states, deliveries, offers, n);
      LiveIsSourced(rd, bundled, states, deliveries, offers, n);
      var i :| 0 <= i < n && deliveries[i].install && OfferOf(rd, deliveries[i]).offered == states[n].live;
      OfferKeeps(rd, deliveries[i]);
      hide OfferOf, CatalogDocument.ParsePayload, Named.DocumentUnder, ListsPrice, Names, Prices.At, CatalogDocument.CanonicalRow;
      Named.AcceptedIsWhatIsNamed(rd, deliveries[i].payload);
      forall k | k in active.content.rows
        ensures ListsPrice(rd, deliveries[i].payload, k, now, PriceAt(rd, active.content, k, now).value.rates)
      {
        PriceIsNamed(rd, active.content.version, active.content.rows[k], now);
        DocumentListsPrice(rd, deliveries[i].payload, active.content, k, now, PriceAt(rd, active.content, k, now).value.rates);
      }
    }
  }
}

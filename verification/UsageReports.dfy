/** What a provider's usage is charged, by the names its counts stand under: kazenai/request_pricing.py. The
    reports of OpenAI (Chat and Responses), Anthropic and LiteLLM, each with whatever else it may carry. */
module UsageReports {
  import opened Wrappers
  import opened Money
  import opened Rates
  import opened Reservation
  import opened UsageSplit
  import opened Settling

  /** What stands at the end of a path of names; what is not there is null. */
  function At(u: Value, path: seq<string>): Value
    decreases path
  {
    if path == [] then u else At(Get(u, path[0]), path[1..])
  }

  /** The count at the end of a path: zero if there is none. */
  function Count(u: Value, path: seq<string>): int { ToInt(At(u, path)) }

  lemma {:induction false} NestedCounts(u: Value, path: seq<string>)
    ensures Nested(u, path) == Count(u, path)
    decreases path
  {
    if path != [] {
      if u == Null { NothingUnderNull(path); }
      NestedCounts(Get(u, path[0]), path[1..]);
    }
  }

  lemma {:induction false} NothingUnderNull(path: seq<string>)
    ensures At(Null, path) == Null
    decreases path
  {
    if path != [] { NothingUnderNull(path[1..]); }
  }

  lemma OneName(u: Value, name: string)
    ensures UsageField(u, [name]) == Count(u, [name]) == ToInt(Get(u, name))
  {
    assert [name][1..] == [];
    assert At(u, [name]) == At(Get(u, name), []) == Get(u, name);
    assert UsageField(u, [name]) == if Get(u, name) != Null then ToInt(Get(u, name)) else UsageField(u, []);
  }

  lemma FirstName(u: Value, a: string, b: string)
    ensures UsageField(u, [a, b]) == if Get(u, a) != Null then Count(u, [a]) else Count(u, [b])
  {
    OneName(u, a);
    OneName(u, b);
    assert [a, b][1..] == [b];
  }

  // ------------------------------------------------------------------ each count under its name

  /** What is read under a name: the value a mapping or object has there, and null where it has none. A mapping's
      null entry is there although it reads as nothing, an object's is not. */
  lemma ReadUnderItsName(fields: map<string, Value>, isMapping: bool, name: string)
    ensures var u := Record(fields, isMapping);
            && Get(u, name) == (if name in fields then fields[name] else Null)
            && (Has(u, name) <==> name in fields && (isMapping || fields[name] != Null))
    ensures forall v: Value :: !v.Record? ==> Get(v, name) == Null && !Has(v, name)
  {
  }

  /** Output tokens: completion_tokens, also when it says zero; output_tokens only where that is missing. */
  lemma OutputIsReported(u: Value)
    ensures Get(u, "completion_tokens") != Null ==> UsageComponents(u).output == Count(u, ["completion_tokens"])
    ensures Get(u, "completion_tokens") == Null ==> UsageComponents(u).output == Count(u, ["output_tokens"])
  {
    FirstName(u, "completion_tokens", "output_tokens");
    ComponentsKeep(u);
  }

  lemma ComponentsKeep(u: Value)
    ensures var (t, c) := (UsageComponents(u), ReadCounts(u));
            t.output == c.output && t.write5m == c.write5m && t.write1h == c.write1h && t.cached == c.cached
  {
    NoCachedCountIsDropped(u);
    hide ReadCounts;
  }

  /** Cache writes: the five-minute and the one-hour count, in that order, from cache_creation or, when both are
      zero there, from the details of the prompt; a lone total counts as five-minute writes. */
  lemma WritesAreReported(u: Value)
    ensures var t := UsageComponents(u);
            var five, hour := Count(u, ["cache_creation", "ephemeral_5m_input_tokens"]), Count(u, ["cache_creation", "ephemeral_1h_input_tokens"]);
            var five', hour' := Count(u, ["prompt_tokens_details", "cache_creation_token_details", "ephemeral_5m_input_tokens"]),
                                Count(u, ["prompt_tokens_details", "cache_creation_token_details", "ephemeral_1h_input_tokens"]);
            if five != 0 || hour != 0 then t.write5m == five && t.write1h == hour
            else if five' != 0 || hour' != 0 then t.write5m == five' && t.write1h == hour'
            else t.write5m == Count(u, ["cache_creation_input_tokens"]) && t.write1h == 0
  {
    ComponentsKeep(u);
    OneName(u, "cache_creation_input_tokens");
    NestedCounts(u, ["cache_creation", "ephemeral_5m_input_tokens"]);
    NestedCounts(u, ["cache_creation", "ephemeral_1h_input_tokens"]);
    NestedCounts(u, ["prompt_tokens_details", "cache_creation_token_details", "ephemeral_5m_input_tokens"]);
    NestedCounts(u, ["prompt_tokens_details", "cache_creation_token_details", "ephemeral_1h_input_tokens"]);
    hide UsageComponents, Nested, Count, UsageField, At;
  }

  /** Cached tokens: the first count that is not zero. */
  lemma CachedIsReported(u: Value)
    ensures var t := UsageComponents(u);
            if Count(u, ["prompt_tokens_details", "cached_tokens"]) != 0 then t.cached == Count(u, ["prompt_tokens_details", "cached_tokens"])
            else if Count(u, ["input_tokens_details", "cached_tokens"]) != 0 then t.cached == Count(u, ["input_tokens_details", "cached_tokens"])
            else t.cached == Count(u, ["cache_read_input_tokens"])
  {
    ComponentsKeep(u);
    OneName(u, "cache_read_input_tokens");
    NestedCounts(u, ["prompt_tokens_details", "cached_tokens"]);
    NestedCounts(u, ["input_tokens_details", "cached_tokens"]);
    hide UsageComponents, Nested, Count, UsageField, At;
  }

  /** Audio tokens, as far as they fit in the prompt. */
  lemma AudioIsReported(u: Value)
    ensures var audio := if Count(u, ["prompt_tokens_details", "audio_tokens"]) != 0 then Count(u, ["prompt_tokens_details", "audio_tokens"])
                         else Count(u, ["input_tokens_details", "audio_tokens"]);
            var t := UsageComponents(u);
            audio >= 0 && t.input >= 0 ==> t.audio <= audio && (t.input > 0 ==> t.audio == audio)
  {
    NestedCounts(u, ["prompt_tokens_details", "audio_tokens"]);
    NestedCounts(u, ["input_tokens_details", "audio_tokens"]);
    hide Nested, Count, UsageField, At;
  }

  // ------------------------------------------------------------------ whole reports

  /** The counts of a report that an OpenAI or Anthropic report does not use are zero. */
  predicate NoWrites(u: Value) {
    && Count(u, ["cache_creation", "ephemeral_5m_input_tokens"]) == 0 && Count(u, ["cache_creation", "ephemeral_1h_input_tokens"]) == 0
    && Count(u, ["prompt_tokens_details", "cache_creation_token_details", "ephemeral_5m_input_tokens"]) == 0
    && Count(u, ["prompt_tokens_details", "cache_creation_token_details", "ephemeral_1h_input_tokens"]) == 0
    && Count(u, ["cache_creation_input_tokens"]) == 0
  }

  /** OpenAI Chat: prompt_tokens includes cached and audio tokens. */
  predicate ChatReport(u: Value, prompt: nat, completion: nat, cached: nat, audio: nat) {
    && Get(u, "prompt_tokens") == Num(prompt) && Get(u, "completion_tokens") == Num(completion)
    && Count(u, ["prompt_tokens_details", "cached_tokens"]) == cached && Count(u, ["prompt_tokens_details", "audio_tokens"]) == audio
    && Count(u, ["input_tokens_details", "cached_tokens"]) == 0 && Count(u, ["input_tokens_details", "audio_tokens"]) == 0
    && Count(u, ["cache_read_input_tokens"]) == 0 && NoWrites(u) && cached + audio <= prompt
  }

  /** OpenAI Responses: input_tokens includes cached and audio tokens. */
  predicate ResponsesReport(u: Value, input: nat, output: nat, cached: nat, audio: nat) {
    && Get(u, "prompt_tokens") == Null && Get(u, "completion_tokens") == Null && !Has(u, "prompt_tokens") && Has(u, "input_tokens_details")
    && Get(u, "input_tokens") == Num(input) && Get(u, "output_tokens") == Num(output)
    && Count(u, ["input_tokens_details", "cached_tokens"]) == cached && Count(u, ["input_tokens_details", "audio_tokens"]) == audio
    && Count(u, ["prompt_tokens_details", "cached_tokens"]) == 0 && Count(u, ["prompt_tokens_details", "audio_tokens"]) == 0
    && Count(u, ["cache_read_input_tokens"]) == 0 && NoWrites(u) && cached + audio <= input
  }

  /** Anthropic's own: input_tokens counts neither reads nor writes of the cache. Writes come split by lifetime, or
      as a lone total. */
  predicate AnthropicReport(u: Value, input: nat, output: nat, read: nat, five: nat, hour: nat) {
    && !HasPrompt(u) && Get(u, "completion_tokens") == Null
    && Get(u, "input_tokens") == Num(input) && Get(u, "output_tokens") == Num(output)
    && Count(u, ["cache_read_input_tokens"]) == read
    && (|| (Count(u, ["cache_creation", "ephemeral_5m_input_tokens"]) == five && Count(u, ["cache_creation", "ephemeral_1h_input_tokens"]) == hour
            && five + hour > 0)
        || (Count(u, ["cache_creation", "ephemeral_5m_input_tokens"]) == 0 && Count(u, ["cache_creation", "ephemeral_1h_input_tokens"]) == 0
            && Count(u, ["cache_creation_input_tokens"]) == five && hour == 0))
  }

  /** LiteLLM's normalized form: prompt_tokens includes reads and writes, which come split in its details. */
  predicate NormalizedReport(u: Value, prompt: nat, completion: nat, cached: nat, five: nat, hour: nat) {
    && Get(u, "prompt_tokens") == Num(prompt) && Get(u, "completion_tokens") == Num(completion)
    && Count(u, ["prompt_tokens_details", "cached_tokens"]) == cached && cached > 0
    && Count(u, ["cache_creation", "ephemeral_5m_input_tokens"]) == 0 && Count(u, ["cache_creation", "ephemeral_1h_input_tokens"]) == 0
    && Count(u, ["prompt_tokens_details", "cache_creation_token_details", "ephemeral_5m_input_tokens"]) == five
    && Count(u, ["prompt_tokens_details", "cache_creation_token_details", "ephemeral_1h_input_tokens"]) == hour && five + hour > 0
    && Count(u, ["prompt_tokens_details", "audio_tokens"]) == 0 && Count(u, ["input_tokens_details", "audio_tokens"]) == 0
    && cached + five + hour <= prompt
  }

  lemma PromptIsReported(u: Value)
    ensures ReadCounts(u).prompt == if Get(u, "prompt_tokens") != Null then Count(u, ["prompt_tokens"]) else Count(u, ["input_tokens"])
    ensures ReadCounts(u).cacheRead == Count(u, ["cache_read_input_tokens"]) && ReadCounts(u).creation == Count(u, ["cache_creation_input_tokens"])
    ensures ReadCounts(u).audio == if Count(u, ["prompt_tokens_details", "audio_tokens"]) != 0 then Count(u, ["prompt_tokens_details", "audio_tokens"])
                                   else Count(u, ["input_tokens_details", "audio_tokens"])
  {
    FirstName(u, "prompt_tokens", "input_tokens");
    OneName(u, "cache_read_input_tokens");
    OneName(u, "cache_creation_input_tokens");
    NestedCounts(u, ["prompt_tokens_details", "audio_tokens"]);
    NestedCounts(u, ["input_tokens_details", "audio_tokens"]);
    hide Nested, Count, UsageField, At;
  }

  // ------------------------------------------------------------------ components of each report

  lemma ChatComponents(u: Value, prompt: nat, completion: nat, cached: nat, audio: nat)
    requires ChatReport(u, prompt, completion, cached, audio)
    ensures UsageComponents(u) == Tokens(prompt - cached - audio, cached, 0, 0, completion, 0, 0, audio, 0)
  {
    OutputIsReported(u);
    WritesAreReported(u);
    CachedIsReported(u);
    PromptIsReported(u);
    OneName(u, "prompt_tokens");
    OneName(u, "completion_tokens");
    ComponentsKeep(u);
    HasWhatIsThere(u, "prompt_tokens");
    hide ReadCounts, Count;
  }

  lemma HasWhatIsThere(u: Value, name: string)
    ensures Get(u, name) != Null ==> Has(u, name)
    ensures !Has(u, name) ==> Get(u, name) == Null
  {
  }

  lemma ResponsesComponents(u: Value, input: nat, output: nat, cached: nat, audio: nat)
    requires ResponsesReport(u, input, output, cached, audio)
    ensures UsageComponents(u) == Tokens(input - cached - audio, cached, 0, 0, output, 0, 0, audio, 0)
  {
    OutputIsReported(u);
    WritesAreReported(u);
    CachedIsReported(u);
    PromptIsReported(u);
    OneName(u, "input_tokens");
    OneName(u, "output_tokens");
    ComponentsKeep(u);
    hide ReadCounts, Count;
  }

  /** Nothing stands under a name that is not there. */
  lemma NothingUnder(u: Value, name: string, rest: seq<string>)
    requires Get(u, name) == Null
    ensures Count(u, [name] + rest) == 0
  {
    assert ([name] + rest)[1..] == rest;
    NothingUnderNull(rest);
  }

  lemma AnthropicComponents(u: Value, input: nat, output: nat, read: nat, five: nat, hour: nat)
    requires AnthropicReport(u, input, output, read, five, hour)
    ensures UsageComponents(u) == Tokens(input, read, five, hour, output, 0, 0, 0, 0)
  {
    HasWhatIsThere(u, "prompt_tokens");
    HasWhatIsThere(u, "prompt_tokens_details");
    HasWhatIsThere(u, "input_tokens_details");
    NothingUnder(u, "prompt_tokens_details", ["cached_tokens"]);
    NothingUnder(u, "input_tokens_details", ["cached_tokens"]);
    NothingUnder(u, "prompt_tokens_details", ["audio_tokens"]);
    NothingUnder(u, "input_tokens_details", ["audio_tokens"]);
    NothingUnder(u, "prompt_tokens_details", ["cache_creation_token_details", "ephemeral_5m_input_tokens"]);
    NothingUnder(u, "prompt_tokens_details", ["cache_creation_token_details", "ephemeral_1h_input_tokens"]);
    OutputIsReported(u);
    WritesAreReported(u);
    CachedIsReported(u);
    PromptIsReported(u);
    OneName(u, "input_tokens");
    OneName(u, "output_tokens");
    ComponentsKeep(u);
    hide ReadCounts, Count;
  }

  lemma NormalizedComponents(u: Value, prompt: nat, completion: nat, cached: nat, five: nat, hour: nat)
    requires NormalizedReport(u, prompt, completion, cached, five, hour)
    ensures UsageComponents(u) == Tokens(prompt - cached - five - hour, cached, five, hour, completion, 0, 0, 0, 0)
  {
    OutputIsReported(u);
    WritesAreReported(u);
    CachedIsReported(u);
    PromptIsReported(u);
    OneName(u, "prompt_tokens");
    OneName(u, "completion_tokens");
    ComponentsKeep(u);
    HasWhatIsThere(u, "prompt_tokens");
    hide ReadCounts, Count;
  }

  // ------------------------------------------------------------------ what it costs

  /** A rate, or the input rate where the provider publishes none. */
  function Or(rate: Option<real>, input: real): real { match rate case Some(x) => x case None => input }

  /** Dollars for these counts, each at its own rate per million. */
  function Charge(r: RateVector, text: int, cached: int, five: int, hour: int, output: int, audio: int): real {
    (text as real * r.input + cached as real * Or(r.cachedInput, r.input)
     + five as real * Or(r.cacheWrite5m, r.input) + hour as real * Or(r.cacheWrite1h, r.input)
     + output as real * r.output + audio as real * Or(r.audioInput, r.input)) / 1000000.0
  }

  lemma InputIsBilled(r: RateVector, t: Tokens)
    requires t.input >= 0 && t.cached >= 0 && t.write5m >= 0 && t.write1h >= 0
    ensures Bill(InputLines(r, t)) == t.input as real * r.input + t.cached as real * Or(r.cachedInput, r.input)
                                      + t.write5m as real * Or(r.cacheWrite5m, r.input) + t.write1h as real * Or(r.cacheWrite1h, r.input)
  {
    var a := InputLines(r, t);
    FourLines(a[0], a[1], a[2], a[3]);
    TwoLines(a[0], a[1]);
    TwoLines(a[2], a[3]);
    assert a == [a[0], a[1], a[2], a[3]];
  }

  lemma OutputIsBilled(r: RateVector, t: Tokens)
    requires t.output >= 0 && t.image >= 0 && t.tools >= 0
    ensures Bill(OutputLines(r, t)) == t.output as real * r.output + t.image as real * Or(r.image, r.input)
    ensures Bill(ToolLines(r, t)) == t.tools as real * Or(r.toolPerCall, 0.0)
  {
    var b, c := OutputLines(r, t), ToolLines(r, t);
    TwoLines(b[0], b[1]);
    assert b == [b[0], b[1]];
    OneLine(c[0]);
    assert c == [c[0]];
  }

  lemma NoneCostsNothing(n: int, rate: real)
    requires n == 0
    ensures n as real * rate == 0.0
  {
  }

  lemma TwoBilled(m: nat, a: real, n: nat, b: real)
    ensures Bill([Line(m, a), Line(n, b)]) == m as real * a + n as real * b
  {
    TwoLines(Line(m, a), Line(n, b));
    hide Bill;
    assert Billed(Line(m, a)) == m && Billed(Line(n, b)) == n;
  }

  lemma AudioIsBilled(r: RateVector, t: Tokens)
    requires t.audio >= 0 && t.audioCached >= 0
    ensures Bill(AudioLines(r, t)) == t.audio as real * AudioRate(r) + t.audioCached as real * AudioCachedRate(r)
  {
    if t.audio > 0 || t.audioCached > 0 {
      TwoBilled(t.audio, AudioRate(r), t.audioCached, AudioCachedRate(r));
      hide Bill, AudioRate, AudioCachedRate;
    } else {
      NoneCostsNothing(t.audio, AudioRate(r));
      NoneCostsNothing(t.audioCached, AudioCachedRate(r));
    }
  }

  /** The cost is linear: every count at its own rate per million, and each tool call at its price. */
  lemma CostIsLinear(r: RateVector, t: Tokens)
    requires t.input >= 0 && t.cached >= 0 && t.write5m >= 0 && t.write1h >= 0 && t.output >= 0 && t.audio >= 0
    requires t.image >= 0 && t.tools >= 0 && t.audioCached >= 0
    ensures ComponentCost(r, t)
            == Charge(r, t.input, t.cached, t.write5m, t.write1h, t.output, t.audio)
               + t.image as real * Or(r.image, r.input) / 1000000.0 + t.tools as real * Or(r.toolPerCall, 0.0)
               + t.audioCached as real * Or(r.audioCachedInput, if r.audioInput.Some? then r.audioInput.value else Or(r.cachedInput, r.input)) / 1000000.0
  {
    InputIsBilled(r, t);
    OutputIsBilled(r, t);
    AudioIsBilled(r, t);
    assert AudioRate(r) == Or(r.audioInput, r.input);
    assert AudioCachedRate(r) == Or(r.audioCachedInput, if r.audioInput.Some? then r.audioInput.value else Or(r.cachedInput, r.input));
    BillOfBoth(InputLines(r, t), OutputLines(r, t));
    hide Bill, InputLines, OutputLines, ToolLines, AudioLines, AudioRate, AudioCachedRate, Or;
  }

  /** A reservation in dollars: every input token at the rate of the cache write asked for, or uncached, every output
      and image token at its own. */
  function Bound(r: RateVector, kind: CacheKind, input: nat, output: nat, image: nat): real {
    var rate := match kind case NoWrite => r.input case Write5m => Or(r.cacheWrite5m, r.input) case Write1h => Or(r.cacheWrite1h, r.input);
    (input as real * rate + output as real * r.output + image as real * Or(r.image, r.input)) / 1000000.0
  }

  lemma ReservedInput(r: RateVector, kind: CacheKind, input: nat, output: nat, image: nat)
    ensures Bill(InputLines(r, ReserveTokens(kind, input, output, image)))
            == input as real * match kind case NoWrite => r.input case Write5m => Or(r.cacheWrite5m, r.input) case Write1h => Or(r.cacheWrite1h, r.input)
  {
    var t := ReserveTokens(kind, input, output, image);
    InputIsBilled(r, t);
    hide Bill, InputLines, Or;
    NoneCostsNothing(t.cached, Or(r.cachedInput, r.input));
    if t.input == 0 { NoneCostsNothing(t.input, r.input); }
    if t.write5m == 0 { NoneCostsNothing(t.write5m, Or(r.cacheWrite5m, r.input)); }
    if t.write1h == 0 { NoneCostsNothing(t.write1h, Or(r.cacheWrite1h, r.input)); }
  }

  lemma ReservedRest(r: RateVector, kind: CacheKind, input: nat, output: nat, image: nat)
    ensures var t := ReserveTokens(kind, input, output, image);
            && Bill(OutputLines(r, t)) == output as real * r.output + image as real * Or(r.image, r.input)
            && Bill(ToolLines(r, t)) == 0.0 && Bill(AudioLines(r, t)) == 0.0
  {
    var t := ReserveTokens(kind, input, output, image);
    OutputIsBilled(r, t);
    AudioIsBilled(r, t);
    hide Bill, OutputLines, ToolLines, AudioLines, AudioRate, AudioCachedRate, Or;
    NoneCostsNothing(t.tools, Or(r.toolPerCall, 0.0));
    NoneCostsNothing(t.audio, AudioRate(r));
    NoneCostsNothing(t.audioCached, AudioCachedRate(r));
  }

  lemma ReservedCost(r: RateVector, kind: CacheKind, input: nat, output: nat, image: nat)
    ensures ComponentCost(r, ReserveTokens(kind, input, output, image)) == Bound(r, kind, input, output, image)
  {
    var t := ReserveTokens(kind, input, output, image);
    ReservedInput(r, kind, input, output, image);
    ReservedRest(r, kind, input, output, image);
    BillOfBoth(InputLines(r, t), OutputLines(r, t));
    hide Bill, InputLines, OutputLines, ToolLines, AudioLines, Or, ReserveTokens;
  }

  lemma ReserveIsTheBound(r: RateVector, kind: CacheKind, input: nat, output: nat, image: nat)
    requires NonNegative(r)
    ensures Bound(r, kind, input, output, image) >= 0.0 && Reserve(r, kind, input, output, image) == Micros(Bound(r, kind, input, output, image))
  {
    hide ComponentCost, Bound, ReserveTokens, Micros, NonNegative, CostMicros;
    ReservedCost(r, kind, input, output, image);
    CostIsMicros(r, ReserveTokens(kind, input, output, image));
  }

  /** What counts without images and tool calls settle at on the agreed tier. */
  lemma ChargeIsSettled(d: Decision, table: map<RowKey, Row>, t: Tokens, multiplier: Result<real, PricingConfigError>)
    requires ValidDecision(d) && ValidTable(table) && (multiplier.Ok? ==> multiplier.value >= 1.0)
    requires t.input >= 0 && t.cached >= 0 && t.write5m >= 0 && t.write1h >= 0 && t.output >= 0 && t.audio >= 0
    requires t.image == 0 && t.tools == 0 && t.audioCached == 0
    ensures var usd := Charge(d.rates, t.input, t.cached, t.write5m, t.write1h, t.output, t.audio);
            usd >= 0.0 && Settled(d, table, d.expectedTier, t, multiplier) == Ok(Micros(usd))
  {
    CostIsLinear(d.rates, t);
    CostIsNonNegative(d.rates, t);
    assert t.image as real == 0.0 && t.tools as real == 0.0 && t.audioCached as real == 0.0;
    hide Charge, ComponentCost, NonNegative;
  }

  /** An OpenAI Chat response on the agreed tier settles at its text, cached, audio and output tokens, each at its
      own rate. */
  lemma ChatSettles(d: Decision, table: map<RowKey, Row>, u: Value, multiplier: Result<real, PricingConfigError>, prompt: nat, completion: nat, cached: nat, audio: nat)
    requires ValidDecision(d) && ValidTable(table) && (multiplier.Ok? ==> multiplier.value >= 1.0)
    requires ChatReport(u, prompt, completion, cached, audio)
    ensures var usd := Charge(d.rates, prompt - cached - audio, cached, 0, 0, completion, audio);
            usd >= 0.0 && Settled(d, table, d.expectedTier, UsageComponents(u), multiplier) == Ok(Micros(usd))
  {
    ChatComponents(u, prompt, completion, cached, audio);
    hide UsageComponents, Charge, Settled, NonNegative;
    ChargeIsSettled(d, table, UsageComponents(u), multiplier);
  }

  lemma ResponsesSettles(d: Decision, table: map<RowKey, Row>, u: Value, multiplier: Result<real, PricingConfigError>, input: nat, output: nat, cached: nat, audio: nat)
    requires ValidDecision(d) && ValidTable(table) && (multiplier.Ok? ==> multiplier.value >= 1.0)
    requires ResponsesReport(u, input, output, cached, audio)
    ensures var usd := Charge(d.rates, input - cached - audio, cached, 0, 0, output, audio);
            usd >= 0.0 && Settled(d, table, d.expectedTier, UsageComponents(u), multiplier) == Ok(Micros(usd))
  {
    ResponsesComponents(u, input, output, cached, audio);
    hide UsageComponents, Charge, Settled, NonNegative;
    ChargeIsSettled(d, table, UsageComponents(u), multiplier);
  }

  /** An Anthropic response: every read and write of the cache at its own rate, on top of the input. */
  lemma AnthropicSettles(d: Decision, table: map<RowKey, Row>, u: Value, multiplier: Result<real, PricingConfigError>, input: nat, output: nat, read: nat, five: nat, hour: nat)
    requires ValidDecision(d) && ValidTable(table) && (multiplier.Ok? ==> multiplier.value >= 1.0)
    requires AnthropicReport(u, input, output, read, five, hour)
    ensures var usd := Charge(d.rates, input, read, five, hour, output, 0);
            usd >= 0.0 && Settled(d, table, d.expectedTier, UsageComponents(u), multiplier) == Ok(Micros(usd))
  {
    AnthropicComponents(u, input, output, read, five, hour);
    hide UsageComponents, Charge, Settled, NonNegative;
    ChargeIsSettled(d, table, UsageComponents(u), multiplier);
  }

  /** A LiteLLM response: reads and writes of the cache come out of the prompt. */
  lemma NormalizedSettles(d: Decision, table: map<RowKey, Row>, u: Value, multiplier: Result<real, PricingConfigError>, prompt: nat, completion: nat, cached: nat, five: nat, hour: nat)
    requires ValidDecision(d) && ValidTable(table) && (multiplier.Ok? ==> multiplier.value >= 1.0)
    requires NormalizedReport(u, prompt, completion, cached, five, hour)
    ensures var usd := Charge(d.rates, prompt - cached - five - hour, cached, five, hour, completion, 0);
            usd >= 0.0 && Settled(d, table, d.expectedTier, UsageComponents(u), multiplier) == Ok(Micros(usd))
  {
    NormalizedComponents(u, prompt, completion, cached, five, hour);
    hide UsageComponents, Charge, Settled, NonNegative;
    ChargeIsSettled(d, table, UsageComponents(u), multiplier);
  }
}

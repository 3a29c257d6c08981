/** Reading a provider's usage: usage_components of kazenai/request_pricing.py, over usage given as a mapping
    or as an object with attributes. */
module UsageSplit {
  import opened Wrappers
  import opened Money
  import opened Rates

  /** Null is also what an absent field reads as; Num is what int() makes of a value, Junk what it refuses. */
  datatype Value = Null | Num(n: int) | Junk | Record(fields: map<string, Value>, isMapping: bool)

  function Get(v: Value, name: string): Value {
    if v.Record? && name in v.fields then v.fields[name] else Null
  }

  function ToInt(v: Value): int { if v.Num? then v.n else 0 }

  /** The first of the names that is there. */
  function UsageField(usage: Value, names: seq<string>): int {
    if names == [] then 0
    else if Get(usage, names[0]) != Null then ToInt(Get(usage, names[0]))
    else UsageField(usage, names[1..])
  }

  function Nested(usage: Value, path: seq<string>): int
    decreases path
  {
    if path == [] then ToInt(usage)
    else if usage == Null then 0
    else Nested(Get(usage, path[0]), path[1..])
  }

  /** A mapping has a key even if its value is null; an object has an attribute only if it is not. */
  predicate Has(usage: Value, name: string) {
    if usage.Record? && usage.isMapping then name in usage.fields else Get(usage, name) != Null
  }

  datatype Counts = Counts(prompt: int, output: int, cached: int, audio: int, write5m: int, write1h: int, creation: int, cacheRead: int)

  /** Every count the split uses, each with the places it may stand in, in order of preference. */
  function ReadCounts(u: Value): Counts {
    var inPrompt := Nested(u, ["prompt_tokens_details", "cached_tokens"]);
    var inInput := Nested(u, ["input_tokens_details", "cached_tokens"]);
    var cacheRead := UsageField(u, ["cache_read_input_tokens"]);
    var cached := if inPrompt != 0 then inPrompt else if inInput != 0 then inInput else cacheRead;
    var audioPrompt := Nested(u, ["prompt_tokens_details", "audio_tokens"]);
    var audio := if audioPrompt != 0 then audioPrompt else Nested(u, ["input_tokens_details", "audio_tokens"]);
    var five := Nested(u, ["cache_creation", "ephemeral_5m_input_tokens"]);
    var hour := Nested(u, ["cache_creation", "ephemeral_1h_input_tokens"]);
    var split := five != 0 || hour != 0;
    var five' := if split then five else Nested(u, ["prompt_tokens_details", "cache_creation_token_details", "ephemeral_5m_input_tokens"]);
    var hour' := if split then hour else Nested(u, ["prompt_tokens_details", "cache_creation_token_details", "ephemeral_1h_input_tokens"]);
    var creation := UsageField(u, ["cache_creation_input_tokens"]);
    Counts(UsageField(u, ["prompt_tokens", "input_tokens"]), UsageField(u, ["completion_tokens", "output_tokens"]), cached, audio,
           if five' == 0 && hour' == 0 && creation != 0 then creation else five', hour', creation, cacheRead)
  }

  predicate HasPrompt(u: Value) {
    Has(u, "prompt_tokens") || Has(u, "input_tokens_details") || Has(u, "prompt_tokens_details")
  }

  predicate Normalized(u: Value) { Has(u, "prompt_tokens") }

  function Max0(n: int): int { if n > 0 then n else 0 }

  function Min(a: int, b: int): int { if a <= b then a else b }

  function UsageComponents(u: Value): Tokens {
    var c := ReadCounts(u);
    var (uncached, cached) :=
      if HasPrompt(u) && c.cached != 0 then (Max0(c.prompt - c.cached), c.cached)
      else if c.cacheRead != 0 || c.creation != 0 || c.write5m != 0 || c.write1h != 0 then (c.prompt, c.cached)
      else (c.prompt, 0);
    var rest := if Normalized(u) then Max0(uncached - c.write5m - c.write1h) else uncached;
    var audio := Min(Max0(c.audio), rest);
    Tokens(rest - audio, cached, c.write5m, c.write1h, c.output, 0, 0, audio, 0)
  }

  function TotalInput(t: Tokens): int { t.input + t.cached + t.write5m + t.write1h + t.audio }

  predicate NonNegativeCounts(c: Counts) {
    c.prompt >= 0 && c.output >= 0 && c.cached >= 0 && c.write5m >= 0 && c.write1h >= 0
  }

  /** A cached count is read only where the first two branches look at it: the third discards nothing. */
  lemma NoCachedCountIsDropped(u: Value)
    ensures UsageComponents(u).cached == ReadCounts(u).cached
  {
    var c := ReadCounts(u);
    if c.cached != 0 && !HasPrompt(u) {
      NullHasNothing("cached_tokens");
      assert Get(u, "prompt_tokens_details") == Null && Get(u, "input_tokens_details") == Null;
      NestedStep(u, "prompt_tokens_details", ["cached_tokens"]);
      NestedStep(u, "input_tokens_details", ["cached_tokens"]);
      assert c.cached == c.cacheRead;
    }
  }

  lemma NullHasNothing(name: string)
    ensures Nested(Null, [name]) == 0
  {
  }

  lemma NestedStep(u: Value, name: string, rest: seq<string>)
    requires rest != []
    ensures Nested(u, [name] + rest) == if u == Null then 0 else Nested(Get(u, name), rest)
  {
    assert ([name] + rest)[1..] == rest;
  }

  /** The split neither loses a token nor counts one twice. Usage with prompt_tokens counts cached and written
      tokens in the prompt; OpenAI's Responses usage counts cached ones only; Anthropic's own counts neither. */
  lemma SplitConservesTokens(u: Value)
    requires NonNegativeCounts(ReadCounts(u))
    ensures var c := ReadCounts(u);
            TotalInput(UsageComponents(u)) ==
              if Normalized(u) then Max(c.prompt, c.cached + c.write5m + c.write1h)
              else if HasPrompt(u) then Max(c.prompt, c.cached) + c.write5m + c.write1h
              else c.prompt + c.cached + c.write5m + c.write1h
    ensures var t := UsageComponents(u);
            t.input >= 0 && t.cached >= 0 && t.write5m >= 0 && t.write1h >= 0 && t.audio >= 0 && t.output == ReadCounts(u).output
  {
    NoCachedCountIsDropped(u);
  }

  /** Native Anthropic usage: nothing of the prompt is taken off for what was cached or written. */
  lemma NativeAnthropicTotal(u: Value)
    requires NonNegativeCounts(ReadCounts(u)) && !HasPrompt(u)
    ensures TotalInput(UsageComponents(u)) == UsageField(u, ["input_tokens"]) + UsageField(u, ["cache_read_input_tokens"])
                                             + ReadCounts(u).write5m + ReadCounts(u).write1h
    ensures UsageComponents(u).audio == 0
  {
    SplitConservesTokens(u);
    assert Get(u, "prompt_tokens") == Null && ["prompt_tokens", "input_tokens"][1..] == ["input_tokens"];
    NestedStep(u, "prompt_tokens_details", ["cached_tokens"]);
    NestedStep(u, "input_tokens_details", ["cached_tokens"]);
    NestedStep(u, "prompt_tokens_details", ["audio_tokens"]);
    NestedStep(u, "input_tokens_details", ["audio_tokens"]);
    assert Get(u, "prompt_tokens_details") == Null && Get(u, "input_tokens_details") == Null;
    NullHasNothing("cached_tokens");
    NullHasNothing("audio_tokens");
  }

  /** Audio is billed out of what is left of the prompt, never beyond it. */
  lemma AudioStaysInsideThePrompt(u: Value)
    requires NonNegativeCounts(ReadCounts(u)) && ReadCounts(u).audio >= 0
    ensures var (t, c) := (UsageComponents(u), ReadCounts(u));
            t.audio <= c.prompt && (t.audio == c.audio || t.input == 0)
  {
  }
}

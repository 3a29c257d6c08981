/** The repeated-request detector of kazenai/loop_detector.py.

    Requests arrive as token sets and tool-name fingerprints: text normalisation and SHA-1 are not
    modelled, and scores are exact rationals. Hist and Detector are the values the objects hold, and
    the functions on them say what one call does; the classes update them in place. */
module LoopHistory {
  import opened Wrappers

  type Tokens = set<string>
  type Fingerprint = string

  datatype Hist = Hist(inputs: seq<Tokens>, fingerprints: seq<Fingerprint>, counts: map<Fingerprint, int>)

  datatype Config = Config(maxHistory: nat, toolHistory: nat, threshold: real, maxSubjects: nat)

  datatype Scores = Scores(h1: real, h2: real, combined: real)

  /** Scoring tools against a history that keeps none raises an index error. */
  datatype Failure = IndexError

  datatype Call = Call(subject: Option<string>, tokens: Tokens, tools: Option<Fingerprint>)

  const NEW_HIST := Hist([], [], map[])

  // ------------------------------------------------------------------ similarity

  function Jaccard(a: Tokens, b: Tokens): real {
    if a == {} && b == {} then 1.0
    else if a == {} || b == {} then 0.0
    else
      UnionSize(a, b);
      |a * b| as real / (|a| + |b| - |a * b|) as real
  }

  lemma UnionSize(a: Tokens, b: Tokens)
    ensures |a + b| == |a| + |b| - |a * b|
    ensures |a * b| <= |a| && |a * b| <= |b|
    ensures a != {} ==> |a + b| > 0
    ensures |a * b| == |a + b| <==> a == b
  {
    assert a == (a - b) + a * b && b == (b - a) + a * b;
    assert a + b == (a - b) + (b - a) + a * b;
    if |a * b| == |a + b| {
      assert a - b == {} && b - a == {};
      assert a == b;
    }
  }

  /** Similarity lies between 0 and 1 and is 1 only for the same tokens. */
  lemma JaccardRange(a: Tokens, b: Tokens)
    ensures 0.0 <= Jaccard(a, b) <= 1.0
    ensures Jaccard(a, b) == 1.0 <==> a == b
    ensures Jaccard(a, b) == Jaccard(b, a)
  {
    UnionSize(a, b);
    UnionSize(b, a);
    assert a * b == b * a && a + b == b + a;
    if a != {} && b != {} {
      var n, d := |a * b| as real, |a + b| as real;
      assert Jaccard(a, b) == n / d && 0.0 <= n <= d && d > 0.0;
      assert n / d <= 1.0;
      assert n / d == 1.0 ==> n == d;
    }
  }

  /** The shared tokens as a part of all: one for two empty requests. */
  lemma JaccardIsTheSharedPart(a: Tokens, b: Tokens)
    ensures a + b == {} ==> Jaccard(a, b) == 1.0
    ensures a + b != {} ==> Jaccard(a, b) * |a + b| as real == |a * b| as real
  {
    if a == {} || b == {} {
      assert a * b == {};
      assert a + b == {} ==> a == {} && b == {};
    } else {
      UnionSize(a, b);
      assert |a + b| > 0;
    }
  }

  function Max(a: real, b: real): real { if a >= b then a else b }

  /** The best similarity over all of the given inputs. */
  function BestMatch(tokens: Tokens, inputs: seq<Tokens>): real {
    if inputs == [] then 0.0 else Max(Jaccard(tokens, inputs[0]), BestMatch(tokens, inputs[1..]))
  }

  /** What the scan finds: it stops at the first similarity of at least 0.999 that beats the rest. */
  function Scan(tokens: Tokens, inputs: seq<Tokens>, best: real): real {
    if inputs == [] then best
    else
      var sim := Jaccard(tokens, inputs[0]);
      if sim > best then
        if sim >= 0.999 then sim else Scan(tokens, inputs[1..], sim)
      else Scan(tokens, inputs[1..], best)
  }

  /** Stopping early never hides a weaker match, and only ever stops at 0.999 or above. */
  lemma {:induction false} ScanIsBestOrNearOne(tokens: Tokens, inputs: seq<Tokens>, best: real)
    requires best >= 0.0
    ensures best <= Scan(tokens, inputs, best) <= Max(best, BestMatch(tokens, inputs))
    ensures Scan(tokens, inputs, best) < 0.999 ==> Scan(tokens, inputs, best) == Max(best, BestMatch(tokens, inputs))
    ensures Max(best, BestMatch(tokens, inputs)) >= 0.999 ==> Scan(tokens, inputs, best) >= 0.999
    decreases |inputs|
  {
    if inputs != [] {
      var sim := Jaccard(tokens, inputs[0]);
      if !(sim > best && sim >= 0.999) {
        ScanIsBestOrNearOne(tokens, inputs[1..], Max(best, sim));
      }
    }
  }

  lemma {:induction false} BestMatchBounds(tokens: Tokens, inputs: seq<Tokens>)
    ensures 0.0 <= BestMatch(tokens, inputs) <= 1.0
    ensures forall i :: 0 <= i < |inputs| ==> Jaccard(tokens, inputs[i]) <= BestMatch(tokens, inputs)
    ensures BestMatch(tokens, inputs) == 1.0 <==> tokens in inputs
  {
    if inputs != [] {
      BestMatchBounds(tokens, inputs[1..]);
      JaccardRange(tokens, inputs[0]);
      assert inputs == [inputs[0]] + inputs[1..];
    }
  }

  // ------------------------------------------------------------------ one history

  function LastN<T>(s: seq<T>, n: nat): seq<T> { if |s| <= n then s else s[|s| - n..] }

  function Count(counts: map<Fingerprint, int>, f: Fingerprint): int { if f in counts then counts[f] else 0 }

  /** counts[oldest] -= 1, dropping an entry that reaches zero. */
  function Dropped(counts: map<Fingerprint, int>, oldest: Fingerprint): map<Fingerprint, int> {
    if Count(counts, oldest) - 1 <= 0 then counts - {oldest} else counts[oldest := Count(counts, oldest) - 1]
  }

  function PushTool(cfg: Config, h: Hist, f: Fingerprint): Hist
    requires cfg.toolHistory >= 1
  {
    var counts := if |h.fingerprints| == cfg.toolHistory then Dropped(h.counts, h.fingerprints[0]) else h.counts;
    h.(fingerprints := LastN(h.fingerprints + [f], cfg.toolHistory), counts := counts[f := Count(counts, f) + 1])
  }

  function ToolShare(count: int): real { if count >= 3 then 1.0 else count as real / 3.0 }

  /** One scored call on one history. */
  function ScoreHist(cfg: Config, h: Hist, c: Call): (Hist, Result<Scores, Failure>) {
    var h1 := Scan(c.tokens, h.inputs, 0.0);
    var seen := h.(inputs := LastN(h.inputs + [c.tokens], cfg.maxHistory));
    match c.tools
    case None => (seen, Ok(Scores(h1, 0.0, Max(h1, 0.0))))
    case Some(f) =>
      if cfg.toolHistory == 0 then (seen, Err(IndexError))
      else
        var next := PushTool(cfg, seen, f);
        var h2 := ToolShare(Count(next.counts, f));
        (next, Ok(Scores(h1, h2, Max(h1, h2))))
  }

  predicate IsLoop(threshold: real, s: Scores) { s.h1 > threshold || s.h2 >= 1.0 }

  /** The counter is the multiset of the fingerprints: an entry for each, none of them zero. */
  ghost predicate Exact(counts: map<Fingerprint, int>, fs: seq<Fingerprint>) {
    forall f :: Count(counts, f) == multiset(fs)[f] && (f in counts <==> multiset(fs)[f] > 0)
  }

  ghost predicate CountsWindow(cfg: Config, h: Hist) {
    |h.fingerprints| <= cfg.toolHistory && |h.inputs| <= cfg.maxHistory && Exact(h.counts, h.fingerprints)
  }

  lemma DropExact(counts: map<Fingerprint, int>, fs: seq<Fingerprint>)
    requires fs != [] && Exact(counts, fs)
    ensures Exact(Dropped(counts, fs[0]), fs[1..])
  {
    assert fs == [fs[0]] + fs[1..];
    assert multiset(fs) == multiset{fs[0]} + multiset(fs[1..]);
  }

  lemma AddExact(counts: map<Fingerprint, int>, fs: seq<Fingerprint>, f: Fingerprint)
    requires Exact(counts, fs)
    ensures Exact(counts[f := Count(counts, f) + 1], fs + [f])
  {
    assert multiset(fs + [f]) == multiset(fs) + multiset{f};
  }

  lemma PushToolCounts(cfg: Config, h: Hist, f: Fingerprint)
    requires cfg.toolHistory >= 1 && CountsWindow(cfg, h)
    ensures CountsWindow(cfg, PushTool(cfg, h, f))
  {
    var fs := h.fingerprints;
    if |fs| == cfg.toolHistory {
      DropExact(h.counts, fs);
      AddExact(Dropped(h.counts, fs[0]), fs[1..], f);
      assert LastN(fs + [f], cfg.toolHistory) == fs[1..] + [f];
    } else {
      AddExact(h.counts, fs, f);
    }
  }

  lemma ScoreHistCounts(cfg: Config, h: Hist, c: Call)
    requires CountsWindow(cfg, h)
    ensures CountsWindow(cfg, ScoreHist(cfg, h, c).0)
  {
    if c.tools.Some? && cfg.toolHistory >= 1 {
      PushToolCounts(cfg, h.(inputs := LastN(h.inputs + [c.tokens], cfg.maxHistory)), c.tools.value);
    }
  }

  lemma ScoringFeeds(cfg: Config, h: Hist, c: Call)
    requires cfg.toolHistory >= 1
    ensures var next := ScoreHist(cfg, h, c).0;
            && next.inputs == LastN(h.inputs + [c.tokens], cfg.maxHistory)
            && next.fingerprints == if c.tools.Some? then LastN(h.fingerprints + [c.tools.value], cfg.toolHistory) else h.fingerprints
  {
    hide Scan, LastN, Dropped;
  }

  /** A history fed with the given calls, whatever their subjects. */
  function Fed(cfg: Config, calls: seq<Call>): Hist {
    if calls == [] then NEW_HIST else ScoreHist(cfg, Fed(cfg, calls[..|calls| - 1]), calls[|calls| - 1]).0
  }

  function InputsOf(calls: seq<Call>): seq<Tokens> {
    if calls == [] then [] else InputsOf(calls[..|calls| - 1]) + [calls[|calls| - 1].tokens]
  }

  function ToolsOf(calls: seq<Call>): seq<Fingerprint> {
    if calls == [] then []
    else ToolsOf(calls[..|calls| - 1]) + match calls[|calls| - 1].tools case None => [] case Some(f) => [f]
  }

  lemma LastNAppends<T>(s: seq<T>, x: T, n: nat)
    ensures LastN(LastN(s, n) + [x], n) == LastN(s + [x], n)
  {
  }

  /** After any calls a history holds the last inputs and fingerprints it was fed, and its counter is
      exactly the multiset of the latter. */
  lemma {:induction false} HistoryIsTheWindow(cfg: Config, calls: seq<Call>)
    requires cfg.toolHistory >= 1
    ensures CountsWindow(cfg, Fed(cfg, calls))
    ensures Fed(cfg, calls).inputs == LastN(InputsOf(calls), cfg.maxHistory)
    ensures Fed(cfg, calls).fingerprints == LastN(ToolsOf(calls), cfg.toolHistory)
  {
    if calls != [] {
      var n := |calls| - 1;
      var c, before := calls[n], calls[..n];
      HistoryIsTheWindow(cfg, before);
      var h := Fed(cfg, before);
      assert Fed(cfg, calls) == ScoreHist(cfg, h, c).0 && InputsOf(calls) == InputsOf(before) + [c.tokens];
      assert ToolsOf(calls) == ToolsOf(before) + if c.tools.Some? then [c.tools.value] else [];
      ScoreHistCounts(cfg, h, c);
      ScoringFeeds(cfg, h, c);
      hide *;
      LastNAppends(InputsOf(before), c.tokens, cfg.maxHistory);
      if c.tools.Some? {
        LastNAppends(ToolsOf(before), c.tools.value, cfg.toolHistory);
      } else {
        assert ToolsOf(before) + [] == ToolsOf(before);
      }
    }
  }

  lemma {:induction false} BestMatchIsReached(tokens: Tokens, inputs: seq<Tokens>, threshold: real)
    requires threshold >= 0.0
    ensures BestMatch(tokens, inputs) > threshold <==> exists x <- inputs :: Jaccard(tokens, x) > threshold
  {
    if inputs != [] {
      BestMatchIsReached(tokens, inputs[1..], threshold);
      assert inputs == [inputs[0]] + inputs[1..];
    }
  }

  /** A call is a loop exactly when a remembered request is more similar than the threshold, or its tools come up
      for the third time in the window; without tools only the former counts, and the scores say so. */
  lemma LoopsAreRepeats(cfg: Config, h: Hist, c: Call, threshold: real)
    requires CountsWindow(cfg, h) && (c.tools.Some? ==> cfg.toolHistory >= 1) && 0.0 <= threshold < 0.999
    ensures var (next, r) := ScoreHist(cfg, h, c);
            && r.Ok? && r.value.combined == Max(r.value.h1, r.value.h2) && r.value.h1 == Scan(c.tokens, h.inputs, 0.0)
            && (c.tools.None? ==> r.value.h2 == 0.0)
            && (IsLoop(threshold, r.value) <==>
                  || (exists x <- h.inputs :: Jaccard(c.tokens, x) > threshold)
                  || (c.tools.Some? && multiset(next.fingerprints)[c.tools.value] >= 3))
  {
    BestMatchIsReached(c.tokens, h.inputs, threshold);
    ScanIsBestOrNearOne(c.tokens, h.inputs, 0.0);
    BestMatchBounds(c.tokens, h.inputs);
    if c.tools.Some? { ToolScoreCountsOccurrences(cfg, h, c); }
    hide Scan, BestMatch, Jaccard, CountsWindow, PushTool, LastN;
  }

  function Min(a: real, b: real): real { if a <= b then a else b }

  /** The tool score is a third per occurrence in the window, the current call included, up to one. */
  lemma ToolScoreCountsOccurrences(cfg: Config, h: Hist, c: Call)
    requires cfg.toolHistory >= 1 && CountsWindow(cfg, h) && c.tools.Some?
    ensures var (next, r) := ScoreHist(cfg, h, c);
            r.Ok? && r.value.h2 == Min(1.0, multiset(next.fingerprints)[c.tools.value] as real / 3.0)
  {
    PushToolCounts(cfg, h.(inputs := LastN(h.inputs + [c.tokens], cfg.maxHistory)), c.tools.value);
    var next := ScoreHist(cfg, h, c).0;
    assert c.tools.value in next.counts;
  }

  /** A request with the tokens of one still in the window is always a loop at thresholds below 0.999. */
  lemma RepeatedRequestIsALoop(cfg: Config, h: Hist, c: Call)
    requires c.tokens in h.inputs && cfg.threshold < 0.999
    requires ScoreHist(cfg, h, c).1.Ok?
    ensures IsLoop(cfg.threshold, ScoreHist(cfg, h, c).1.value)
  {
    BestMatchBounds(c.tokens, h.inputs);
    ScanIsBestOrNearOne(c.tokens, h.inputs, 0.0);
  }

  // ------------------------------------------------------------------ the early exit

  predicate ScanAgrees(threshold: real, tokens: Tokens, inputs: seq<Tokens>) {
    Scan(tokens, inputs, 0.0) > threshold <==> BestMatch(tokens, inputs) > threshold
  }

  function Name(n: nat): string { if n == 0 then "" else Name(n - 1) + "a" }

  function Names(n: nat): Tokens { if n == 0 then {} else Names(n - 1) + {Name(n)} }

  lemma {:induction false} NameLength(n: nat)
    ensures |Name(n)| == n
  {
    if n > 0 { NameLength(n - 1); }
  }

  lemma {:induction false} NamesSize(n: nat)
    ensures |Names(n)| == n && forall x <- Names(n) :: |x| <= n
  {
    if n > 0 {
      NamesSize(n - 1);
      NameLength(n);
      assert Name(n) !in Names(n - 1);
    }
  }

  /** The early exit gives every request the answer of a full scan exactly at thresholds below 0.999
      or of at least 1: between them, a match of 0.999 can hide a later exact repeat. */
  lemma EarlyExitAgrees(threshold: real)
    ensures (forall tokens, inputs :: ScanAgrees(threshold, tokens, inputs)) <==> threshold < 0.999 || threshold >= 1.0
  {
    if threshold < 0.999 || threshold >= 1.0 {
      forall tokens, inputs ensures ScanAgrees(threshold, tokens, inputs) {
        ScanIsBestOrNearOne(tokens, inputs, 0.0);
        BestMatchBounds(tokens, inputs);
      }
    } else {
      var big, small := Names(1000), Names(999);
      NamesSize(1000);
      NamesSize(999);
      assert big == small + {Name(1000)};
      assert big * small == small;
      assert Jaccard(big, small) == 0.999;
      assert Scan(big, [small, big], 0.0) == 0.999;
      BestMatchBounds(big, [small, big]);
      assert big in [small, big];
      assert !ScanAgrees(threshold, big, [small, big]);
    }
  }
}

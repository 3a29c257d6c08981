/** Billable image tokens from pixels: kazenai/price_catalog.py. The square root of the shrink factor is a
    parameter: what is proved holds for any non-negative approximation of it. */
module ImageTokens {
  import opened Wrappers
  import opened Money
  import opened Text

  datatype Size = Size(w: int, h: int)

  function Longer(s: Size): int { Max(s.w, s.h) }

  function ScaledTo(edge: int, longer: int, maxEdge: nat): int
    requires longer > 0
  {
    Max(1, RoundHalfEven(edge as real * (maxEdge as real / longer as real)))
  }

  /** Scales down, keeping the aspect ratio, until no edge exceeds maxEdge. */
  function Fit(s: Size, maxEdge: nat): Size {
    if Longer(s) <= maxEdge || Longer(s) <= 0 then s
    else Size(ScaledTo(s.w, Longer(s), maxEdge), ScaledTo(s.h, Longer(s), maxEdge))
  }

  /** Cells of the given edge that cover a length. */
  function Cells(length: int, edge: nat): int
    requires edge > 0
  {
    Ceiling(length as real / edge as real)
  }

  function TileSize(s: Size): Size {
    var f := Fit(s, 2048);
    var short := if f.w <= f.h then f.w else f.h;
    if short <= 768 then f
    else if f.w <= f.h then Size(768, Max(1, f.h * 768 / short))
    else Size(Max(1, f.w * 768 / short), 768)
  }

  function Tiles(s: Size): int { Cells(TileSize(s).w, 512) * Cells(TileSize(s).h, 512) }

  function TileTokens(s: Size, base: int, tile: int): int { base + tile * Tiles(s) }

  function Patches(s: Size): int { Cells(s.w, 32) * Cells(s.h, 32) }

  predicate Positive(s: Size) { s.w >= 1 && s.h >= 1 }

  /** One pixel off the longer edge. */
  function Trim(s: Size): Size
    requires Positive(s) && (s.w > 1 || s.h > 1)
  {
    if s.w >= s.h then s.(w := s.w - 1) else s.(h := s.h - 1)
  }

  function TrimToBudget(s: Size, budget: int): Size
    requires Positive(s)
    decreases s.w + s.h
  {
    if Patches(s) > budget && (s.w > 1 || s.h > 1) then TrimToBudget(Trim(s), budget) else s
  }

  /** The square root of the share of the image's area that the budget's squares have. */
  function Shrinking(s: Size, budget: int, root: real -> real): real
    requires Positive(s)
  {
    AreaIsPositive(s);
    root(budget as real * 1024.0 / (s.w * s.h) as real)
  }

  function Resized(edge: int, factor: real): int { Max(1, RoundHalfEven(edge as real * factor)) }

  /** The size an image is scaled to before its edges are trimmed. */
  function Shrunk(s: Size, budget: int, root: real -> real): Size
    requires Positive(s)
  {
    var shrink := Shrinking(s, budget, root);
    Size(Resized(s.w, shrink), Resized(s.h, shrink))
  }

  lemma AreaIsPositive(s: Size)
    requires Positive(s)
    ensures s.w * s.h > 0
  {
  }

  function PatchSize(s: Size, maxEdge: nat, budget: Option<int>, root: real -> real): Size
    requires maxEdge >= 1
  {
    var floor := Size(Max(1, s.w), Max(1, s.h));
    FitShrinksInside(floor, maxEdge);
    var f := Fit(floor, maxEdge);
    if budget.Some? && Patches(f) > budget.value then TrimToBudget(Shrunk(f, budget.value, root), budget.value) else f
  }

  function PatchTokens(s: Size, maxEdge: nat, budget: Option<int>, multiplier: real, root: real -> real): int
    requires maxEdge >= 1
  {
    Weighted(Patches(PatchSize(s, maxEdge, budget, root)), multiplier)
  }

  function Weighted(patches: int, multiplier: real): int { Ceiling(patches as real * multiplier) }

  // ------------------------------------------------------------------ sizes

  lemma TimesMonotone(a: real, b: real, k: real)
    requires a <= b && k >= 0.0
    ensures a * k <= b * k
  {
  }

  lemma Quotient(p: real, q: real)
    requires 0.0 < p < q
    ensures 0.0 < p / q < 1.0 && q * (p / q) == p
  {
    var r := p / q;
    assert q * r == p;
    assert r > 0.0 && r < 1.0 by {
      if r <= 0.0 { TimesMonotone(r, 0.0, q); assert false; }
      if r >= 1.0 { TimesMonotone(1.0, r, q); assert false; }
    }
  }

  lemma ScaledLength(edge: int, longer: int, maxEdge: nat) returns (x: real)
    requires 1 <= edge <= longer && 1 <= maxEdge < longer
    ensures x == edge as real * (maxEdge as real / longer as real) && x <= edge as real && x <= maxEdge as real
  {
    x := edge as real * (maxEdge as real / longer as real);
    Quotient(maxEdge as real, longer as real);
    var scale := maxEdge as real / longer as real;
    TimesMonotone(edge as real, longer as real, scale);
    TimesMonotone(scale, 1.0, edge as real);
  }

  lemma RoundsAtMost(x: real, n: int)
    requires x <= n as real
    ensures RoundHalfEven(x) <= n
  {
  }

  lemma ScaledEdge(edge: int, longer: int, maxEdge: nat)
    requires 1 <= edge <= longer && 1 <= maxEdge < longer
    ensures 1 <= ScaledTo(edge, longer, maxEdge) <= edge && ScaledTo(edge, longer, maxEdge) <= maxEdge
  {
    var x := ScaledLength(edge, longer, maxEdge);
    RoundsAtMost(x, edge);
    RoundsAtMost(x, maxEdge);
    assert ScaledTo(edge, longer, maxEdge) == Max(1, RoundHalfEven(x));
  }

  /** Fitting never enlarges an edge, never loses one, and ends inside. */
  lemma FitShrinksInside(s: Size, maxEdge: nat)
    requires Positive(s) && maxEdge >= 1
    ensures var f := Fit(s, maxEdge); 1 <= f.w <= s.w && 1 <= f.h <= s.h && f.w <= maxEdge && f.h <= maxEdge
  {
    if Longer(s) > maxEdge {
      ScaledEdge(s.w, Longer(s), maxEdge);
      ScaledEdge(s.h, Longer(s), maxEdge);
    }
  }

  lemma CellsCover(length: int, edge: nat, k: int)
    requires edge > 0
    ensures Cells(length, edge) <= k <==> length <= k * edge
  {
    var q := length as real / edge as real;
    assert q * edge as real == length as real;
    if length <= k * edge {
      assert length as real <= k as real * edge as real;
      assert q <= k as real;
    } else {
      assert length as real > k as real * edge as real;
      assert q > k as real;
    }
  }

  lemma ProductIn(a: int, b: int, x: int, y: int)
    requires 1 <= a <= x && 1 <= b <= y
    ensures 1 <= a * b <= x * y
  {
    assert a * b <= x * b && x * b <= x * y;
  }

  lemma Cancel(a: int, b: int, k: int)
    requires a * k < b * k && k > 0
    ensures a < b
  {
  }

  lemma LongSide(long: int, short: int)
    requires 768 < short <= long <= 2048
    ensures 768 <= long * 768 / short <= 2048
  {
    var q := long * 768 / short;
    assert q * short <= long * 768 < q * short + short;
    assert (q + 1) * short == q * short + short;
    Cancel(767, q, short);
    Cancel(q, 2049, short);
  }

  /** The 768-pixel rule leaves one edge of at most 768 and the other of at most 2048 pixels. */
  lemma TileSizeIsBounded(s: Size)
    requires Positive(s)
    ensures var t := TileSize(s); Positive(t) && ((t.w <= 768 && t.h <= 2048) || (t.w <= 2048 && t.h <= 768))
  {
    FitShrinksInside(s, 2048);
    var f := Fit(s, 2048);
    if f.w <= f.h && f.w > 768 {
      LongSide(f.h, f.w);
    } else if f.h < f.w && f.h > 768 {
      LongSide(f.w, f.h);
    }
  }

  /** However large the image, it makes one to eight tiles. */
  lemma OneToEightTiles(s: Size)
    requires Positive(s)
    ensures 1 <= Tiles(s) <= 8
  {
    TileSizeIsBounded(s);
    TilesOf(TileSize(s));
  }

  lemma TilesOf(t: Size)
    requires Positive(t) && ((t.w <= 768 && t.h <= 2048) || (t.w <= 2048 && t.h <= 768))
    ensures 1 <= Cells(t.w, 512) * Cells(t.h, 512) <= 8
  {
    CellsCover(t.w, 512, 0);
    CellsCover(t.h, 512, 0);
    if t.w <= 768 && t.h <= 2048 {
      CellsCover(t.w, 512, 2);
      CellsCover(t.h, 512, 4);
      ProductIn(Cells(t.w, 512), Cells(t.h, 512), 2, 4);
    } else {
      CellsCover(t.w, 512, 4);
      CellsCover(t.h, 512, 2);
      ProductIn(Cells(t.w, 512), Cells(t.h, 512), 4, 2);
    }
  }

  /** k cells of the edge cover the length, and no fewer do. */
  predicate Covers(length: int, edge: nat, k: int) { (k - 1) * edge < length <= k * edge }

  lemma CellsAreFewest(length: int, edge: nat)
    requires edge > 0
    ensures Covers(length, edge, Cells(length, edge))
  {
    CellsCover(length, edge, Cells(length, edge));
    CellsCover(length, edge, Cells(length, edge) - 1);
  }

  /** d is the edge scaled by limit over longer: to the nearest pixel, but at least one. */
  predicate InProportion(d: int, edge: int, longer: int, limit: int) {
    || -longer <= 2 * (d * longer - edge * limit) <= longer
    || (d == 1 && edge * limit < longer)
  }

  lemma Scale(edge: int, longer: int, limit: nat) returns (x: real)
    requires longer > 0
    ensures x == edge as real * (limit as real / longer as real) && x * longer as real == (edge * limit) as real
  {
    var l, r := longer as real, limit as real / longer as real;
    assert r * l == limit as real;
    x := edge as real * r;
    assert x * l == edge as real * (r * l);
    Cast(edge, limit);
  }

  lemma Cast(a: int, b: int)
    ensures (a * b) as real == a as real * b as real
  {
  }

  lemma NearestInProportion(n: int, x: real, edge: int, longer: int, limit: nat)
    requires longer > 0 && x * longer as real == (edge * limit) as real && -0.5 <= n as real - x <= 0.5
    ensures -longer <= 2 * (n * longer - edge * limit) <= longer
  {
    var l, gap, d := longer as real, n as real - x, n * longer - edge * limit;
    TimesMonotone(gap, 0.5, l);
    TimesMonotone(-0.5, gap, l);
    Cast(n, longer);
    assert gap * l == n as real * l - x * l == d as real;
    WithinHalf(d, longer);
  }

  lemma WithinHalf(d: int, longer: int)
    requires -0.5 * longer as real <= d as real <= 0.5 * longer as real
    ensures -longer <= 2 * d <= longer
  {
    assert (2 * d) as real <= longer as real;
    assert (-longer) as real <= (2 * d) as real;
  }

  lemma NearestIsInProportion(n: int, x: real, edge: int, longer: int, limit: nat)
    requires longer > 0 && edge >= 1 && limit >= 1
    requires x * longer as real == (edge * limit) as real && -0.5 <= n as real - x <= 0.5
    ensures InProportion(Max(1, n), edge, longer, limit)
  {
    NearestInProportion(n, x, edge, longer, limit);
    if n < 1 { ScaledUp(n, edge, longer, limit); }
  }

  lemma ScaledInProportion(edge: int, longer: int, limit: nat)
    requires 1 <= edge <= longer && 1 <= limit < longer
    ensures InProportion(ScaledTo(edge, longer, limit), edge, longer, limit)
    ensures edge == longer ==> ScaledTo(edge, longer, limit) == limit
  {
    hide InProportion;
    var x := Scale(edge, longer, limit);
    NearestIsInProportion(RoundHalfEven(x), x, edge, longer, limit);
    WholeEdge(longer, limit);
  }

  lemma WholeEdge(longer: int, limit: nat)
    requires longer >= 1
    ensures RoundHalfEven(longer as real * (limit as real / longer as real)) == limit
  {
    assert longer as real * (limit as real / longer as real) == limit as real;
  }

  lemma ScaledUp(n: int, edge: int, longer: int, limit: nat)
    requires n < 1 && longer > 0 && edge >= 1 && limit >= 1 && 2 * (n * longer - edge * limit) >= -longer
    ensures edge * limit < longer
  {
    ProductIn(edge, limit, edge, limit);
    assert n * longer <= 0;
  }

  /** An image inside the limit keeps its size; a larger one gets its longer edge to the limit and keeps its shape. */
  lemma FitKeepsTheShape(s: Size, limit: nat)
    requires Positive(s) && limit >= 1
    ensures var f := Fit(s, limit);
            if s.w <= limit && s.h <= limit then f == s
            else if s.w >= s.h then f.w == limit && InProportion(f.h, s.h, s.w, limit)
            else f.h == limit && InProportion(f.w, s.w, s.h, limit)
  {
    if Longer(s) > limit {
      ScaledInProportion(s.w, Longer(s), limit);
      ScaledInProportion(s.h, Longer(s), limit);
    }
  }

  /** Of a fitted image whose shorter edge is over 768, that edge becomes 768 and the other keeps the shape, cut to
      whole pixels. */
  lemma TileSizeKeepsTheShape(s: Size)
    requires Positive(s)
    ensures var f, t := Fit(s, 2048), TileSize(s);
            && (f.w <= 768 || f.h <= 768 ==> t == f)
            && (768 < f.w <= f.h ==> t.w == 768 && t.h * f.w <= 768 * f.h < (t.h + 1) * f.w)
            && (768 < f.h < f.w ==> t.h == 768 && t.w * f.h <= 768 * f.w < (t.w + 1) * f.h)
  {
    FitShrinksInside(s, 2048);
    var f := Fit(s, 2048);
    if 768 < f.w <= f.h {
      LongSide(f.h, f.w);
      DivisionBounds(f.h * 768, f.w);
    } else if 768 < f.h < f.w {
      LongSide(f.w, f.h);
      DivisionBounds(f.w * 768, f.h);
    }
  }

  lemma DivisionBounds(n: nat, d: nat)
    requires d > 0
    ensures n / d * d <= n < (n / d + 1) * d
  {
    assert (n / d + 1) * d == n / d * d + d;
  }

  /** A tile model charges its base once, and its tile price for each 512-pixel square of the fewest that cover the
      scaled image, one to eight of them; low detail pays the base alone, and auto what high detail does, but never
      less than the base. */
  lemma TileModelPrices(f: Formulas, root: real -> real, model: string, s: Size, detail: string, base: int, tile: int)
    requires ValidFormulas(f) && Positive(s)
    requires Lower(Strip(model)) in f.tileModels && f.tileModels[Lower(Strip(model))] == (base, tile)
    ensures var chosen := Lower(Strip(if detail == "" then "auto" else detail));
            var price := OpenAiImageTokens(f, root, model, s, detail);
            exists squares: nat ::
              && AreSquares(TileSize(s), 512, squares) && 1 <= squares <= 8
              && price == Ok(if chosen == "low" then base
                             else if chosen == "auto" && tile < 0 then base
                             else base + squares * tile)
  {
    hide TileSize, Covers, Lower, Strip, ValidFormulas;
    OneToEightTiles(s);
    TilesAreSquares(s);
    var squares := Tiles(s);
    SignOfProduct(squares, tile);
  }

  /** The number of squares in a grid of as few columns and rows as cover the size. */
  ghost predicate AreSquares(t: Size, edge: nat, squares: int) {
    exists columns, rows :: Covers(t.w, edge, columns) && Covers(t.h, edge, rows) && squares == columns * rows
  }

  lemma TilesAreSquares(s: Size)
    requires Positive(s)
    ensures AreSquares(TileSize(s), 512, Tiles(s))
  {
    TileSizeIsBounded(s);
    CellsAreFewest(TileSize(s).w, 512);
    CellsAreFewest(TileSize(s).h, 512);
  }

  lemma SignOfProduct(n: int, x: int)
    requires n >= 1
    ensures x >= 0 <==> n * x >= 0
  {
  }

  lemma OnePixelIsOnePatch()
    ensures Patches(Size(1, 1)) == 1
  {
    CellsCover(1, 32, 0);
    CellsCover(1, 32, 1);
  }

  /** Trimming ends inside the budget, and stops as soon as it is. */
  lemma {:induction false} TrimmingFitsTheBudget(s: Size, budget: int)
    requires Positive(s) && budget >= 1
    ensures var t := TrimToBudget(s, budget);
            && Patches(t) <= budget && 1 <= t.w <= s.w && 1 <= t.h <= s.h
            && (t == s || exists u :: Positive(u) && (u.w > 1 || u.h > 1) && Patches(u) > budget && t == Trim(u))
    decreases s.w + s.h
  {
    OnePixelIsOnePatch();
    if Patches(s) > budget {
      assert s.w > 1 || s.h > 1;
      TrimmingFitsTheBudget(Trim(s), budget);
    }
  }

  lemma PatchesWithinBudget(s: Size, maxEdge: nat, budget: int, root: real -> real)
    requires maxEdge >= 1 && budget >= 1
    ensures Positive(PatchSize(s, maxEdge, Some(budget), root)) && Patches(PatchSize(s, maxEdge, Some(budget), root)) <= budget
  {
    var floor := Size(Max(1, s.w), Max(1, s.h));
    FitShrinksInside(floor, maxEdge);
    var f := Fit(floor, maxEdge);
    if Patches(f) > budget { TrimmingFitsTheBudget(Shrunk(f, budget, root), budget); }
  }

  /** Whatever the image and however the square root is rounded, no more than the budget is billed. */
  lemma TokensWithinBudget(s: Size, maxEdge: nat, budget: int, multiplier: real, root: real -> real)
    requires maxEdge >= 1 && budget >= 1 && multiplier >= 0.0
    ensures PatchTokens(s, maxEdge, Some(budget), multiplier, root) <= Weighted(budget, multiplier)
  {
    PatchesWithinBudget(s, maxEdge, budget, root);
    var n :| n == Patches(PatchSize(s, maxEdge, Some(budget), root));
    CeilingOfLess(n, budget, multiplier);
  }

  lemma CeilingOfLess(n: int, budget: int, multiplier: real)
    requires n <= budget && multiplier >= 0.0
    ensures Weighted(n, multiplier) <= Weighted(budget, multiplier)
  {
    TimesMonotone(n as real, budget as real, multiplier);
    CeilingIsMonotone(n as real * multiplier, budget as real * multiplier);
  }

  lemma PatchesAreSquares(t: Size)
    ensures AreSquares(t, 32, Patches(t))
    ensures forall n :: AreSquares(t, 32, n) ==> n == Patches(t)
  {
    CellsAreFewest(t.w, 32);
    CellsAreFewest(t.h, 32);
    forall k | Covers(t.w, 32, k) ensures k == Cells(t.w, 32) { CellsCover(t.w, 32, k); CellsCover(t.w, 32, k - 1); }
    forall k | Covers(t.h, 32, k) ensures k == Cells(t.h, 32) { CellsCover(t.h, 32, k); CellsCover(t.h, 32, k - 1); }
  }

  /** d is the edge multiplied by the factor, to the nearest pixel but at least one. */
  predicate IsTimes(d: int, edge: int, factor: real) {
    var x := edge as real * factor;
    -0.5 <= d as real - x <= 0.5 || (d == 1 && x < 1.0)
  }

  predicate Multiplied(t: Size, s: Size, factor: real) { IsTimes(t.w, s.w, factor) && IsTimes(t.h, s.h, factor) }

  ghost predicate IsOverBudget(u: Size, budget: int) { exists n :: AreSquares(u, 32, n) && n > budget }

  /** One pixel less on the longer edge than a size that is over the budget. */
  ghost predicate TrimmedFromOver(t: Size, budget: int) {
    exists u :: IsOverBudget(u, budget) && (if u.w >= u.h then t == Size(u.w - 1, u.h) else t == Size(u.w, u.h - 1))
  }

  /** The size whose 32-pixel squares are billed: the fitted one if that is inside the budget, else one inside
      it that is the fitted one shrunk towards the budget's area, less only the pixels that had to go. */
  ghost predicate IsBilledSize(t: Size, fitted: Size, budget: Option<int>, root: real -> real)
    requires Positive(fitted)
  {
    if budget.None? || !IsOverBudget(fitted, budget.value) then t == fitted
    else
      && !IsOverBudget(t, budget.value)
      && (Multiplied(t, fitted, Shrinking(fitted, budget.value, root)) || TrimmedFromOver(t, budget.value))
  }

  lemma NearestIsTimes(edge: int, factor: real)
    ensures IsTimes(Resized(edge, factor), edge, factor)
  {
    var x := edge as real * factor;
    assert -0.5 <= RoundHalfEven(x) as real - x <= 0.5;
  }

  lemma ShrunkIsMultiplied(f: Size, budget: int, root: real -> real)
    requires Positive(f)
    ensures Multiplied(Shrunk(f, budget, root), f, Shrinking(f, budget, root))
  {
    hide IsTimes, Resized, Shrinking;
    var factor := Shrinking(f, budget, root);
    NearestIsTimes(f.w, factor);
    NearestIsTimes(f.h, factor);
  }

  lemma TrimmedIsBilled(f: Size, budget: int, root: real -> real)
    requires Positive(f) && budget >= 1 && Patches(f) > budget
    ensures IsBilledSize(TrimToBudget(Shrunk(f, budget, root), budget), f, Some(budget), root)
  {
    hide Shrunk, Patches, Multiplied, IsOverBudget, TrimToBudget;
    AreaIsPositive(f);
    var shrunk := Shrunk(f, budget, root);
    ShrunkIsPositive(f, budget, root);
    ShrunkIsMultiplied(f, budget, root);
    TrimmingFitsTheBudget(shrunk, budget);
    var t := TrimToBudget(shrunk, budget);
    OverBudget(f, Some(budget));
    OverBudget(t, Some(budget));
    if t != shrunk {
      var u :| Positive(u) && (u.w > 1 || u.h > 1) && Patches(u) > budget && t == Trim(u);
      OverBudget(u, Some(budget));
      assert TrimmedFromOver(t, budget);
    }
  }

  lemma ShrunkIsPositive(f: Size, budget: int, root: real -> real)
    requires Positive(f)
    ensures Positive(Shrunk(f, budget, root))
  {
  }

  lemma PatchSizeIsBilled(s: Size, d: Detail, root: real -> real)
    requires Positive(s) && d.maxEdge >= 1 && (d.budget.Some? ==> d.budget.value >= 1)
    ensures Positive(Fit(s, d.maxEdge))
    ensures IsBilledSize(PatchSize(s, d.maxEdge, d.budget, root), Fit(s, d.maxEdge), d.budget, root)
  {
    FitShrinksInside(s, d.maxEdge);
    assert Size(Max(1, s.w), Max(1, s.h)) == s;
    var f := Fit(s, d.maxEdge);
    hide Fit, Shrunk, Patches, TrimToBudget, IsOverBudget, TrimmedFromOver, Multiplied;
    OverBudget(f, d.budget);
    if d.budget.Some? && Patches(f) > d.budget.value { TrimmedIsBilled(f, d.budget.value, root); }
  }

  /** What a patch detail costs: the multiplier times the fewest 32-pixel squares over the size billed, rounded up. */
  lemma PatchPriceIsOfTheBilledSize(s: Size, d: Detail, multiplier: real, root: real -> real)
    requires Positive(s) && d.maxEdge >= 1 && (d.budget.Some? ==> d.budget.value >= 1)
    ensures Positive(Fit(s, d.maxEdge))
    ensures exists t, n :: IsBilledSize(t, Fit(s, d.maxEdge), d.budget, root) && AreSquares(t, 32, n)
                           && n as real * multiplier <= DetailTokens(s, d, multiplier, root) as real < n as real * multiplier + 1.0
  {
    hide PatchSize, Fit, IsBilledSize, AreSquares, Patches;
    PatchSizeIsBilled(s, d, root);
    var t := PatchSize(s, d.maxEdge, d.budget, root);
    PatchesAreSquares(t);
    assert DetailTokens(s, d, multiplier, root) == Weighted(Patches(t), multiplier);
  }

  lemma OverBudget(t: Size, budget: Option<int>)
    ensures budget.Some? ==> (IsOverBudget(t, budget.value) <==> Patches(t) > budget.value)
  {
    hide AreSquares;
    PatchesAreSquares(t);
  }

  /** The loop as it runs: the size after trimming. */
  method ShrinkLoop(s: Size, budget: int) returns (t: Size)
    requires Positive(s) && budget >= 1
    ensures t == TrimToBudget(s, budget)
    ensures Patches(t) <= budget
  {
    var w, h := s.w, s.h;
    OnePixelIsOnePatch();
    while Patches(Size(w, h)) > budget && (w > 1 || h > 1)
      invariant w >= 1 && h >= 1
      invariant TrimToBudget(Size(w, h), budget) == TrimToBudget(s, budget)
      decreases w + h
    {
      if w >= h && w > 1 {
        w := w - 1;
      } else if h > 1 {
        h := h - 1;
      } else {
        assert false;
        break;
      }
    }
    t := Size(w, h);
  }

  // ------------------------------------------------------------------ models and details

  /** The sizing of one detail; a model's details come in a fixed order, each once. */
  datatype Detail = Detail(name: string, maxEdge: nat, budget: Option<int>)

  datatype Formulas = Formulas(
    tileModels: map<string, (int, int)>, patchMultipliers: map<string, real>, patchSizing: map<string, seq<Detail>>, fallback: seq<Detail>)

  datatype ImageError = NoFormula | NoDetail

  predicate ValidSizing(table: seq<Detail>) { forall d <- table :: d.maxEdge >= 1 }

  predicate ValidFormulas(f: Formulas) {
    ValidSizing(f.fallback) && forall m <- f.patchSizing :: ValidSizing(f.patchSizing[m])
  }

  function DetailTokens(s: Size, d: Detail, multiplier: real, root: real -> real): int
    requires d.maxEdge >= 1
  {
    PatchTokens(s, d.maxEdge, d.budget, multiplier, root)
  }

  function MaxTokens(s: Size, table: seq<Detail>, multiplier: real, root: real -> real): int
    requires table != [] && ValidSizing(table)
  {
    assert table[0] in table;
    var first := DetailTokens(s, table[0], multiplier, root);
    if |table| == 1 then first else Max(first, MaxTokens(s, table[1..], multiplier, root))
  }

  function Find(table: seq<Detail>, name: string): (r: Option<Detail>)
    ensures r.Some? ==> r.value in table && r.value.name == name
    ensures r.None? ==> forall d <- table :: d.name != name
  {
    if table == [] then None else if table[0].name == name then Some(table[0]) else Find(table[1..], name)
  }

  function PatchPrice(s: Size, table: seq<Detail>, multiplier: real, root: real -> real, chosen: string): Result<int, ImageError>
    requires ValidSizing(table)
  {
    var d := Find(table, chosen);
    if chosen != "auto" && d.Some? then Ok(DetailTokens(s, d.value, multiplier, root))
    else if table == [] then Err(NoDetail)
    else Ok(MaxTokens(s, table, multiplier, root))
  }

  function SizingOf(f: Formulas, model: string): seq<Detail> { if model in f.patchSizing then f.patchSizing[model] else f.fallback }

  function OpenAiImageTokens(f: Formulas, root: real -> real, model: string, s: Size, detail: string): Result<int, ImageError>
    requires ValidFormulas(f)
  {
    var key := Lower(Strip(model));
    var chosen := Lower(Strip(if detail == "" then "auto" else detail));
    if key in f.tileModels then
      var (base, tile) := f.tileModels[key];
      var high := TileTokens(s, base, tile);
      Ok(if chosen == "low" then base else if chosen == "auto" then Max(base, high) else high)
    else if key in f.patchMultipliers then PatchPrice(s, SizingOf(f, key), f.patchMultipliers[key], root, chosen)
    else Err(NoFormula)
  }

  lemma {:induction false} MaxIsTheLargest(s: Size, table: seq<Detail>, multiplier: real, root: real -> real)
    requires table != [] && ValidSizing(table)
    ensures forall d <- table :: DetailTokens(s, d, multiplier, root) <= MaxTokens(s, table, multiplier, root)
    ensures exists d <- table :: DetailTokens(s, d, multiplier, root) == MaxTokens(s, table, multiplier, root)
  {
    assert table[0] in table && table == [table[0]] + table[1..];
    if |table| > 1 { MaxIsTheLargest(s, table[1..], multiplier, root); }
  }

  /** auto is a price ceiling: no detail costs more, and for a patch model it is the price of one the model lists. */
  lemma AutoIsTheDearestDetail(f: Formulas, root: real -> real, model: string, s: Size, detail: string)
    requires ValidFormulas(f)
    ensures var auto := OpenAiImageTokens(f, root, model, s, "auto");
            var chosen := OpenAiImageTokens(f, root, model, s, detail);
            && (auto.Err? ==> chosen.Err?)
            && (auto.Ok? ==> chosen.Ok? && chosen.value <= auto.value)
            && (auto.Ok? && Lower(Strip(model)) !in f.tileModels ==>
                  exists d <- SizingOf(f, Lower(Strip(model))) ::
                    DetailTokens(s, d, f.patchMultipliers[Lower(Strip(model))], root) == auto.value)
  {
    AutoStaysAuto();
    var key := Lower(Strip(model));
    if key !in f.tileModels && key in f.patchMultipliers && SizingOf(f, key) != [] {
      MaxIsTheLargest(s, SizingOf(f, key), f.patchMultipliers[key], root);
    }
  }

  /** A patch model's detail costs what the model lists under its name; auto, none, and one that is not listed cost
      the dearest listed. */
  lemma PatchModelPrices(f: Formulas, root: real -> real, model: string, s: Size, detail: string, multiplier: real)
    requires ValidFormulas(f) && Lower(Strip(model)) !in f.tileModels
    requires Lower(Strip(model)) in f.patchMultipliers && f.patchMultipliers[Lower(Strip(model))] == multiplier
    ensures var table := if Lower(Strip(model)) in f.patchSizing then f.patchSizing[Lower(Strip(model))] else f.fallback;
            var chosen := Lower(Strip(if detail == "" then "auto" else detail));
            var price := OpenAiImageTokens(f, root, model, s, detail);
            if table == [] then price == Err(NoDetail)
            else if chosen != "auto" && exists d <- table :: d.name == chosen then
              exists d <- table :: d.name == chosen && price == Ok(DetailTokens(s, d, multiplier, root))
            else
              && price.Ok?
              && (forall d <- table :: DetailTokens(s, d, multiplier, root) <= price.value)
              && (exists d <- table :: DetailTokens(s, d, multiplier, root) == price.value)
  {
    hide DetailTokens, Lower, Strip;
    var table := SizingOf(f, Lower(Strip(model)));
    if table != [] { MaxIsTheLargest(s, table, multiplier, root); }
  }

  lemma AutoStaysAuto()
    ensures Lower(Strip("auto")) == "auto"
  {
    assert Strip("auto") == "auto";
    assert Lower("auto") == "auto";
  }
}

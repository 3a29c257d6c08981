/** Catalog rows in time: CatalogRow.at of kazenai/price_catalog.py. Instants are seconds. */
module PriceCatalog {
  import opened Wrappers
  import opened Rates

  // ------------------------------------------------------------------ a row at an instant

  /** A future price; an empty instant never comes. */
  datatype Scheduled = Scheduled(from: Option<int>, rates: RateVector)

  datatype CatalogRow = CatalogRow(rates: RateVector, certified: bool, scheduled: seq<Scheduled>, validUntil: Option<int>)

  function SortKey(e: Scheduled, now: int): int { if e.from.Some? then e.from.value else now }

  /** Puts e behind everything that does not sort after it. */
  function Insert(s: seq<Scheduled>, e: Scheduled, now: int): seq<Scheduled> {
    if s != [] && SortKey(s[|s| - 1], now) > SortKey(e, now) then Insert(s[..|s| - 1], e, now) + [s[|s| - 1]] else s + [e]
  }

  /** Sorted by instant; entries of one instant keep their order. */
  function Sorted(s: seq<Scheduled>, now: int): seq<Scheduled> {
    if s == [] then [] else Insert(Sorted(s[..|s| - 1], now), s[|s| - 1], now)
  }

  predicate Begun(e: Scheduled, now: int) { e.from.Some? && e.from.value <= now }

  /** i is the entry in force: begun, and no begun entry is later, in time or, at one instant, in the list. */
  ghost predicate InForce(s: seq<Scheduled>, now: int, i: int) {
    && 0 <= i < |s| && Begun(s[i], now)
    && forall j :: 0 <= j < |s| && Begun(s[j], now) ==> s[j].from.value < s[i].from.value || (s[j].from == s[i].from && j <= i)
  }

  ghost predicate NoneBegun(s: seq<Scheduled>, now: int) { forall j :: 0 <= j < |s| ==> !Begun(s[j], now) }

  /** The rates a walk through the entries ends with. */
  function WalkedTo(s: seq<Scheduled>, now: int, base: RateVector): RateVector {
    if s == [] then base else if Begun(s[|s| - 1], now) then s[|s| - 1].rates else WalkedTo(s[..|s| - 1], now, base)
  }

  predicate Ascending(s: seq<Scheduled>, now: int) {
    forall i, j :: 0 <= i < j < |s| ==> SortKey(s[i], now) <= SortKey(s[j], now)
  }

  lemma {:induction false} InsertKeepsOrder(s: seq<Scheduled>, e: Scheduled, now: int)
    requires Ascending(s, now)
    ensures Ascending(Insert(s, e, now), now) && |Insert(s, e, now)| == |s| + 1
    ensures forall x <- Insert(s, e, now) :: x in s || x == e
  {
    if s != [] && SortKey(s[|s| - 1], now) > SortKey(e, now) {
      InsertKeepsOrder(s[..|s| - 1], e, now);
      var t := Insert(s[..|s| - 1], e, now);
      forall i | 0 <= i < |t| ensures SortKey(t[i], now) <= SortKey(s[|s| - 1], now) {
        assert t[i] in t;
      }
    }
  }

  lemma {:induction false} SortedAscends(s: seq<Scheduled>, now: int)
    ensures Ascending(Sorted(s, now), now)
  {
    if s != [] {
      SortedAscends(s[..|s| - 1], now);
      InsertKeepsOrder(Sorted(s[..|s| - 1], now), s[|s| - 1], now);
    }
  }

  /** The entry the walk ends with, if any. */
  function LastBegun(s: seq<Scheduled>, now: int): (l: Option<Scheduled>)
    ensures l.Some? ==> Begun(l.value, now)
  {
    if s == [] then None else if Begun(s[|s| - 1], now) then Some(s[|s| - 1]) else LastBegun(s[..|s| - 1], now)
  }

  lemma {:induction false} LastBegunIsLatest(s: seq<Scheduled>, now: int)
    requires Ascending(s, now)
    ensures var l := LastBegun(s, now);
            && (l.None? <==> NoneBegun(s, now))
            && (l.Some? ==> Begun(l.value, now) && forall x <- s :: Begun(x, now) ==> x.from.value <= l.value.from.value)
  {
    if s != [] {
      LastBegunIsLatest(s[..|s| - 1], now);
      assert s == s[..|s| - 1] + [s[|s| - 1]];
      forall x | x in s && Begun(x, now) && Begun(s[|s| - 1], now) ensures x.from.value <= s[|s| - 1].from.value {
        var i :| 0 <= i < |s| && s[i] == x;
        assert SortKey(s[i], now) <= SortKey(s[|s| - 1], now);
      }
    }
  }

  /** Inserting e changes what the walk ends with only if e has begun and nothing begun is later. */
  lemma {:induction false} InsertAndWalk(s: seq<Scheduled>, e: Scheduled, now: int)
    requires Ascending(s, now)
    ensures LastBegun(Insert(s, e, now), now) ==
              if Begun(e, now) && (LastBegun(s, now).None? || LastBegun(s, now).value.from.value <= e.from.value) then Some(e)
              else LastBegun(s, now)
  {
    LastBegunIsLatest(s, now);
    if s != [] && SortKey(s[|s| - 1], now) > SortKey(e, now) {
      InsertAndWalk(s[..|s| - 1], e, now);
      var t := Insert(s, e, now);
      assert t[..|t| - 1] == Insert(s[..|s| - 1], e, now);
    } else {
      assert (s + [e])[..|s|] == s;
    }
  }

  ghost predicate Decides(s: seq<Scheduled>, now: int, l: Option<Scheduled>) {
    if l.None? then NoneBegun(s, now) else exists i :: InForce(s, now, i) && s[i] == l.value
  }

  lemma NothingBegins(now: int)
    ensures LastBegun([], now) == None
  {
  }

  /** One more entry at the end is in force if it has begun and none that has is later. */
  lemma OneMoreEntry(front: seq<Scheduled>, e: Scheduled, now: int, before: Option<Scheduled>)
    requires Decides(front, now, before) && (before.Some? ==> Begun(before.value, now))
    ensures Decides(front + [e], now,
                    if Begun(e, now) && (before.None? || before.value.from.value <= e.from.value) then Some(e) else before)
  {
    var s := front + [e];
    if Begun(e, now) && (before.None? || before.value.from.value <= e.from.value) {
      assert InForce(s, now, |front|);
    } else if before.Some? {
      var i :| InForce(front, now, i) && front[i] == before.value;
      assert InForce(s, now, i);
    }
  }

  lemma {:induction false} SortedWalkIsInForce(s: seq<Scheduled>, now: int)
    ensures Decides(s, now, LastBegun(Sorted(s, now), now))
  {
    hide Insert, LastBegun, Ascending;
    if s == [] {
      NothingBegins(now);
    } else {
      var front, e := s[..|s| - 1], s[|s| - 1];
      SortedWalkIsInForce(front, now);
      SortedAscends(front, now);
      InsertAndWalk(Sorted(front, now), e, now);
      assert s == front + [e] && Sorted(s, now) == Insert(Sorted(front, now), e, now);
      hide Sorted, Decides, InForce, NoneBegun, Begun;
      OneMoreEntry(front, e, now, LastBegun(Sorted(front, now), now));
    }
  }

  lemma {:induction false} WalkEndsAtLastBegun(s: seq<Scheduled>, now: int, base: RateVector)
    ensures WalkedTo(s, now, base) == if LastBegun(s, now).Some? then LastBegun(s, now).value.rates else base
  {
    if s != [] && !Begun(s[|s| - 1], now) { WalkEndsAtLastBegun(s[..|s| - 1], now, base); }
  }

  function At(row: CatalogRow, now: int): CatalogRow {
    row.(rates := WalkedTo(Sorted(row.scheduled, now), now, row.rates),
         certified := row.certified && (row.validUntil.None? || now < row.validUntil.value))
  }

  method PricedAt(row: CatalogRow, now: int) returns (r: CatalogRow)
    ensures r == At(row, now)
  {
    if row.scheduled == [] && row.validUntil.None? {
      return row;
    }
    var rates := row.rates;
    var entries := Sorted(row.scheduled, now);
    for k := 0 to |entries|
      invariant rates == WalkedTo(entries[..k], now, row.rates)
    {
      assert entries[..k + 1][..k] == entries[..k];
      if Begun(entries[k], now) {
        rates := entries[k].rates;
      }
    }
    assert entries[..|entries|] == entries;
    var certified := row.certified;
    if row.validUntil.Some? && now >= row.validUntil.value {
      certified := false;
    }
    r := row.(rates := rates, certified := certified);
  }

  /** A row is priced by the scheduled entry in force, and by its base rates only before the first. */
  lemma RowUsesTheEntryInForce(row: CatalogRow, now: int)
    ensures NoneBegun(row.scheduled, now) ==> At(row, now).rates == row.rates
    ensures forall i :: InForce(row.scheduled, now, i) ==> At(row, now).rates == row.scheduled[i].rates
    ensures NoneBegun(row.scheduled, now) || exists i :: InForce(row.scheduled, now, i)
    ensures At(row, now).certified <==> row.certified && !(row.validUntil.Some? && row.validUntil.value <= now)
  {
    SortedWalkIsInForce(row.scheduled, now);
    WalkEndsAtLastBegun(Sorted(row.scheduled, now), now, row.rates);
    forall i, j | InForce(row.scheduled, now, i) && InForce(row.scheduled, now, j) ensures i == j {
    }
  }

  /** Pricing a row for now and then for later is pricing it for later. */
  lemma PricingAgainLater(row: CatalogRow, now: int, later: int)
    requires now <= later
    ensures At(At(row, now), later) == At(row, later)
  {
    var mid := At(row, now);
    RowUsesTheEntryInForce(row, now);
    RowUsesTheEntryInForce(row, later);
    RowUsesTheEntryInForce(mid, later);
    if NoneBegun(row.scheduled, later) {
      assert forall j :: 0 <= j < |row.scheduled| ==> Begun(row.scheduled[j], now) ==> Begun(row.scheduled[j], later);
      assert NoneBegun(row.scheduled, now);
    } else {
      var i :| InForce(row.scheduled, later, i);
      assert InForce(mid.scheduled, later, i);
    }
  }
}

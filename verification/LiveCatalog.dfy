/** The catalog that is live, and why it never goes back: version_key and accept_envelope of
    kazenai/catalog_document.py, install_live_bundle and active_bundle of kazenai/price_catalog.py. Checking an
    envelope's signature and parsing its payload are an input: what they made of it. Instants are seconds. */
module LiveCatalog {
  import opened Decimals
  import opened Wrappers

  // ------------------------------------------------------------------ versions

  datatype VersionKey = VersionKey(year: nat, month: nat, day: nat, serial: nat)

  /** YYYY-MM-DD or YYYY-MM-DD.N with a serial of one to six digits; one newline at the end is let through. */
  function KeyOf(version: string): Option<VersionKey> {
    var s := if version != [] && version[|version| - 1] == '\n' then version[..|version| - 1] else version;
    if |s| >= 10 && AllDigits(s[..4]) && s[4] == '-' && AllDigits(s[5..7]) && s[7] == '-' && AllDigits(s[8..10]) then
      if |s| == 10 then Some(VersionKey(FromDigits(s[..4]), FromDigits(s[5..7]), FromDigits(s[8..10]), 0))
      else if 12 <= |s| <= 17 && s[10] == '.' && AllDigits(s[11..]) then
        Some(VersionKey(FromDigits(s[..4]), FromDigits(s[5..7]), FromDigits(s[8..10]), FromDigits(s[11..])))
      else None
    else None
  }

  /** A version as it is published: year, month and day in digits, and a serial of one to six. */
  ghost predicate Writes(version: string, k: VersionKey) {
    exists y: string, m: string, d: string, n: string ::
      && |y| == 4 && |m| == 2 && |d| == 2 && |n| <= 6 && AllDigits(y) && AllDigits(m) && AllDigits(d) && AllDigits(n)
      && k == VersionKey(FromDigits(y), FromDigits(m), FromDigits(d), FromDigits(n))
      && (version == Written(y, m, d, n) || version == Written(y, m, d, n) + "\n")
  }

  function Written(y: string, m: string, d: string, n: string): string {
    y + "-" + m + "-" + d + if n == [] then [] else "." + n
  }

  lemma WrittenParts(y: string, m: string, d: string, n: string)
    requires |y| == 4 && |m| == 2 && |d| == 2 && |n| <= 6 && AllDigits(y) && AllDigits(m) && AllDigits(d) && AllDigits(n)
    ensures var s := Written(y, m, d, n);
            && |s| == (if n == [] then 10 else 11 + |n|) && s[..4] == y && s[4] == '-' && s[5..7] == m && s[7] == '-' && s[8..10] == d
            && (n != [] ==> s[10] == '.' && s[11..] == n) && IsDigit(s[|s| - 1])
  {
    var s := Written(y, m, d, n);
    assert n == [] ==> s[|s| - 1] == d[1];
    assert n != [] ==> s[|s| - 1] == n[|n| - 1];
  }

  /** The key is read off exactly the versions written so. */
  lemma VersionsAreReadAsWritten(version: string, k: VersionKey)
    ensures KeyOf(version) == Some(k) <==> Writes(version, k)
  {
    hide FromDigits;
    if Writes(version, k) {
      var y: string, m: string, d: string, n: string :|
        && |y| == 4 && |m| == 2 && |d| == 2 && |n| <= 6 && AllDigits(y) && AllDigits(m) && AllDigits(d) && AllDigits(n)
        && k == VersionKey(FromDigits(y), FromDigits(m), FromDigits(d), FromDigits(n))
        && (version == Written(y, m, d, n) || version == Written(y, m, d, n) + "\n");
      WrittenKey(version, y, m, d, n);
    }
    if KeyOf(version) == Some(k) { KeyIsWritten(version, k); }
  }

  lemma WrittenKey(version: string, y: string, m: string, d: string, n: string)
    requires |y| == 4 && |m| == 2 && |d| == 2 && |n| <= 6 && AllDigits(y) && AllDigits(m) && AllDigits(d) && AllDigits(n)
    requires version == Written(y, m, d, n) || version == Written(y, m, d, n) + "\n"
    ensures KeyOf(version) == Some(VersionKey(FromDigits(y), FromDigits(m), FromDigits(d), FromDigits(n)))
  {
    WrittenParts(y, m, d, n);
    var s := Written(y, m, d, n);
    if version == s + "\n" {
      assert version[..|version| - 1] == s && version[|version| - 1] == '\n';
    }
    NoDigits();
    hide Written, FromDigits;
  }

  lemma NoDigits()
    ensures FromDigits("") == 0
  {
  }

  lemma KeyIsWritten(version: string, k: VersionKey)
    requires KeyOf(version) == Some(k)
    ensures Writes(version, k)
  {
    var s := if version != [] && version[|version| - 1] == '\n' then version[..|version| - 1] else version;
    assert version == s || version == s + "\n";
    var y, m, d := s[..4], s[5..7], s[8..10];
    var n := if |s| == 10 then [] else s[11..];
    NoDigits();
    assert s == Written(y, m, d, n);
    assert k == VersionKey(FromDigits(y), FromDigits(m), FromDigits(d), FromDigits(n));
  }

  predicate Older(a: VersionKey, b: VersionKey) {
    || a.year < b.year
    || (a.year == b.year && a.month < b.month)
    || (a.year == b.year && a.month == b.month && a.day < b.day)
    || (a.year == b.year && a.month == b.month && a.day == b.day && a.serial < b.serial)
  }

  /** A catalog document that parsed, with whatever it says: its version is well formed. */
  datatype Bundle<T> = Bundle(version: string, issuedAt: Option<int>, expiresAt: Option<int>, content: T)

  predicate ValidBundle<T>(b: Bundle<T>) { KeyOf(b.version).Some? }

  function Key<T>(b: Bundle<T>): VersionKey
    requires ValidBundle(b)
  {
    KeyOf(b.version).value
  }

  predicate Expired<T>(b: Bundle<T>, now: int) { b.expiresAt.Some? && now >= b.expiresAt.value }

  // ------------------------------------------------------------------ accepting an envelope

  datatype Refusal = Unverified | BadVersion | OlderThanBundled | Rollback | IsExpired | FromTheFuture

  const MAX_SKEW := 3600

  datatype State<T> = State(live: Option<Bundle<T>>, highest: Option<string>)

  /** Refuses a bundle older than a version seen before; an empty string is no version. */
  function AgainstSeen<T>(b: Bundle<T>, seen: Option<string>): Option<Refusal>
    requires ValidBundle(b)
  {
    if seen.None? || seen.value == "" then None
    else if KeyOf(seen.value).None? then Some(BadVersion)
    else if Older(Key(b), KeyOf(seen.value).value) then Some(Rollback)
    else None
  }

  function Judge<T>(s: State<T>, bundled: Bundle<T>, offered: Option<Bundle<T>>, minimum: Option<string>, now: int): Result<Bundle<T>, Refusal>
    requires ValidBundle(bundled) && (offered.Some? ==> ValidBundle(offered.value))
  {
    if offered.None? then Err(Unverified)
    else
      var b := offered.value;
      if Older(Key(b), Key(bundled)) then Err(OlderThanBundled)
      else if AgainstSeen(b, minimum).Some? then Err(AgainstSeen(b, minimum).value)
      else if AgainstSeen(b, s.highest).Some? then Err(AgainstSeen(b, s.highest).value)
      else if Expired(b, now) then Err(IsExpired)
      else if b.issuedAt.Some? && b.issuedAt.value - now > MAX_SKEW then Err(FromTheFuture)
      else Ok(b)
  }

  /** A version passed in or on record that the bundle has to be at least as new as. */
  predicate AtLeast<T>(b: Bundle<T>, seen: Option<string>)
    requires ValidBundle(b)
  {
    seen.Some? && seen.value != "" ==> KeyOf(seen.value).Some? && !Older(Key(b), KeyOf(seen.value).value)
  }

  /** An envelope is accepted at the instants from an hour before its issue to just before its expiry, if its
      version is none older than the bundled, the caller's and the highest accepted; and each refusal names the
      first of these that fails. */
  lemma AcceptedInItsWindow<T>(s: State<T>, bundled: Bundle<T>, b: Bundle<T>, minimum: Option<string>, now: int)
    requires ValidBundle(bundled) && ValidBundle(b)
    ensures var r := Judge(s, bundled, Some(b), minimum, now);
            var current := !Older(Key(b), Key(bundled)) && AtLeast(b, minimum) && AtLeast(b, s.highest);
            && (r.Ok? <==> current && (b.expiresAt.Some? ==> now < b.expiresAt.value)
                           && (b.issuedAt.Some? ==> b.issuedAt.value - 3600 <= now))
            && (r.Ok? ==> r.value == b)
            && (r == Err(OlderThanBundled) <==> Older(Key(b), Key(bundled)))
            && (r == Err(Rollback) || r == Err(BadVersion) <==> !Older(Key(b), Key(bundled)) && !current)
            && (r == Err(IsExpired) <==> current && b.expiresAt.Some? && now >= b.expiresAt.value)
            && (r == Err(FromTheFuture) <==> current && (b.expiresAt.Some? ==> now < b.expiresAt.value)
                                             && b.issuedAt.Some? && now < b.issuedAt.value - 3600)
  {
  }

  lemma NothingOffered<T>(s: State<T>, bundled: Bundle<T>, minimum: Option<string>, now: int)
    requires ValidBundle(bundled)
    ensures Judge(s, bundled, None, minimum, now) == Err(Unverified)
  {
  }

  /** What was just installed is active at once, and accepted again as often as it is offered before it
      expires, with nothing changed by it. */
  lemma InstalledIsActiveAndAcceptedAgain<T>(s: State<T>, bundled: Bundle<T>, b: Bundle<T>, minimum: Option<string>, now: int, later: int)
    requires ValidBundle(bundled) && Floored(s, bundled) && ValidBundle(b) && now <= later
    requires Judge(s, bundled, Some(b), minimum, now).Ok? && !Expired(b, later)
    ensures var t := Install(s, b);
            && ActiveOf(t, bundled, later) == b
            && Judge(t, bundled, Some(b), minimum, later) == Ok(b) && Install(t, b) == t
  {
    AcceptedInItsWindow(s, bundled, b, minimum, now);
    AcceptedInItsWindow(Install(s, b), bundled, b, minimum, later);
    OlderIsAnOrder(Key(b), Key(b), Key(b));
  }

  /** Versions are ordered by year, month, day and serial, each difference deciding over the later ones. */
  lemma OlderIsAnOrder(a: VersionKey, b: VersionKey, c: VersionKey)
    ensures !Older(a, a) && (Older(a, b) && Older(b, c) ==> Older(a, c))
    ensures a != b <==> Older(a, b) || Older(b, a)
    ensures Older(a, b) ==> a.year <= b.year && (a.year == b.year ==> a.month <= b.month)
                            && (a.year == b.year && a.month == b.month ==> a.day <= b.day)
  {
  }

  function Install<T>(s: State<T>, b: Bundle<T>): State<T>
    requires ValidBundle(b)
  {
    State(Some(b), if s.highest.None? || KeyOf(s.highest.value).None? || Older(KeyOf(s.highest.value).value, Key(b)) then Some(b.version) else s.highest)
  }

  /** A newer version becomes the highest; another spelling of the highest leaves the one on record. */
  lemma HighestIsTheFirstSpelling<T>(s: State<T>, b: Bundle<T>)
    requires ValidBundle(b) && s.highest.Some? && KeyOf(s.highest.value).Some?
    ensures Install(s, b).live == Some(b)
    ensures Older(KeyOf(s.highest.value).value, Key(b)) ==> Install(s, b).highest == Some(b.version)
    ensures Key(b) == KeyOf(s.highest.value).value ==> Install(s, b).highest == s.highest
  {
    hide KeyOf;
  }

  /** The process-wide catalog state: the two globals and the snapshot the package ships. */
  class Catalog<T> {
    const bundled: Bundle<T>
    var live: Option<Bundle<T>>
    var highest: Option<string>

    constructor (bundled: Bundle<T>)
      requires ValidBundle(bundled)
      ensures this.bundled == bundled && Now() == State(None, None)
    {
      this.bundled, live, highest := bundled, None, None;
    }

    function Now(): State<T>
      reads this
    {
      State(live, highest)
    }

    method Accept(offered: Option<Bundle<T>>, minimum: Option<string>, now: int, install: bool) returns (r: Result<Bundle<T>, Refusal>)
      requires ValidBundle(bundled) && (offered.Some? ==> ValidBundle(offered.value))
      requires highest.Some? ==> KeyOf(highest.value).Some?
      modifies this
      ensures r == Judge(old(Now()), bundled, offered, minimum, now)
      ensures Now() == if r.Ok? && install then Install(old(Now()), r.value) else old(Now())
      ensures Now() == Next(old(Now()), bundled, Offer(offered, minimum, now, install))
    {
      if offered.None? { return Err(Unverified); }
      var b := offered.value;
      if Older(Key(b), Key(bundled)) { return Err(OlderThanBundled); }
      var floor := [minimum, highest];
      for i := 0 to 2
        invariant forall k :: 0 <= k < i ==> AgainstSeen(b, floor[k]).None?
      {
        var refusal := AgainstSeen(b, floor[i]);
        if refusal.Some? {
          assert i == 1 ==> AgainstSeen(b, floor[0]).None?;
          return Err(refusal.value);
        }
      }
      assert AgainstSeen(b, floor[0]).None? && AgainstSeen(b, floor[1]).None?;
      if Expired(b, now) { return Err(IsExpired); }
      if b.issuedAt.Some? && b.issuedAt.value - now > MAX_SKEW { return Err(FromTheFuture); }
      if install {
        live := Some(b);
        if highest.None? || Older(KeyOf(highest.value).value, Key(b)) {
          highest := Some(b.version);
        }
      }
      return Ok(b);
    }

    method Active(now: int) returns (b: Bundle<T>)
      ensures b == ActiveOf(Now(), bundled, now)
    {
      if live.Some? && !Expired(live.value, now) { return live.value; }
      return bundled;
    }
  }

  function ActiveOf<T>(s: State<T>, bundled: Bundle<T>, now: int): Bundle<T> {
    if s.live.Some? && !Expired(s.live.value, now) then s.live.value else bundled
  }

  // ------------------------------------------------------------------ runs

  datatype Offer<T> = Offer(offered: Option<Bundle<T>>, minimum: Option<string>, now: int, install: bool)

  predicate ValidOffer<T>(o: Offer<T>) { o.offered.Some? ==> ValidBundle(o.offered.value) }

  function Next<T>(s: State<T>, bundled: Bundle<T>, o: Offer<T>): State<T>
    requires ValidBundle(bundled) && ValidOffer(o)
  {
    var r := Judge(s, bundled, o.offered, o.minimum, o.now);
    if r.Ok? && o.install then Install(s, r.value) else s
  }

  /** The live catalog is the highest ever accepted, and never older than the bundled one. */
  ghost predicate Floored<T>(s: State<T>, bundled: Bundle<T>)
    requires ValidBundle(bundled)
  {
    && (s.live.None? <==> s.highest.None?)
    && (s.live.Some? ==>
          && ValidBundle(s.live.value) && KeyOf(s.highest.value).Some?
          && Key(s.live.value) == KeyOf(s.highest.value).value
          && !Older(Key(s.live.value), Key(bundled)))
  }

  predicate NotBelow<T>(s: State<T>, t: State<T>) {
    s.highest.Some? && KeyOf(s.highest.value).Some? ==>
      t.highest.Some? && KeyOf(t.highest.value).Some? && !Older(KeyOf(t.highest.value).value, KeyOf(s.highest.value).value)
  }

  lemma FlooredInductive<T>(s: State<T>, bundled: Bundle<T>, o: Offer<T>)
    requires ValidBundle(bundled) && ValidOffer(o) && Floored(s, bundled)
    ensures Floored(Next(s, bundled, o), bundled) && NotBelow(s, Next(s, bundled, o))
  {
  }

  ghost predicate Moves<T>(bundled: Bundle<T>, states: seq<State<T>>, offers: seq<Offer<T>>, i: nat)
    requires ValidBundle(bundled) && i < |offers| < |states|
  {
    ValidOffer(offers[i]) && states[i + 1] == Next(states[i], bundled, offers[i])
  }

  ghost predicate IsRun<T>(bundled: Bundle<T>, states: seq<State<T>>, offers: seq<Offer<T>>)
    requires ValidBundle(bundled)
  {
    && |states| == |offers| + 1 && states[0] == State(None, None)
    && forall i :: 0 <= i < |offers| ==> Moves(bundled, states, offers, i)
  }

  lemma {:induction false} FlooredAlways<T>(bundled: Bundle<T>, states: seq<State<T>>, offers: seq<Offer<T>>, n: nat)
    requires ValidBundle(bundled) && IsRun(bundled, states, offers) && n < |states|
    ensures Floored(states[n], bundled)
  {
    if n > 0 {
      FlooredAlways(bundled, states, offers, n - 1);
      assert Moves(bundled, states, offers, n - 1);
      FlooredInductive(states[n - 1], bundled, offers[n - 1]);
    }
  }

  lemma {:induction false} HighestNeverFalls<T>(bundled: Bundle<T>, states: seq<State<T>>, offers: seq<Offer<T>>, m: nat, n: nat)
    requires ValidBundle(bundled) && IsRun(bundled, states, offers) && m <= n < |states|
    ensures NotBelow(states[m], states[n])
  {
    FlooredAlways(bundled, states, offers, m);
    if m < n {
      HighestNeverFalls(bundled, states, offers, m, n - 1);
      FlooredAlways(bundled, states, offers, n - 1);
      assert Moves(bundled, states, offers, n - 1);
      FlooredInductive(states[n - 1], bundled, offers[n - 1]);
    }
  }

  /** Whatever is offered, in whatever order: the active catalog is never an expired one, never older than the
      bundled snapshot, and never older than one active before unless the live one has expired. */
  lemma CatalogNeverRollsBack<T>(bundled: Bundle<T>, states: seq<State<T>>, offers: seq<Offer<T>>, m: nat, n: nat, earlier: int, now: int)
    requires ValidBundle(bundled) && IsRun(bundled, states, offers) && m <= n < |states|
    ensures var active := ActiveOf(states[n], bundled, now);
            && ValidBundle(active) && !Older(Key(active), Key(bundled))
            && (active == bundled || !Expired(active, now))
            && (var before := ActiveOf(states[m], bundled, earlier);
                ValidBundle(before) &&
                (Older(Key(active), Key(before)) ==> states[n].live.Some? && Expired(states[n].live.value, now) && active == bundled))
  {
    FlooredAlways(bundled, states, offers, m);
    FlooredAlways(bundled, states, offers, n);
    HighestNeverFalls(bundled, states, offers, m, n);
  }

  /** Once a version has been installed, every older envelope is refused, for good, and changes nothing. */
  lemma OldEnvelopesStayRefused<T>(bundled: Bundle<T>, states: seq<State<T>>, offers: seq<Offer<T>>, m: nat, n: nat)
    requires ValidBundle(bundled) && IsRun(bundled, states, offers) && m <= n < |offers|
    requires states[m].live.Some? && ValidBundle(states[m].live.value) && offers[n].offered.Some? && ValidOffer(offers[n])
    requires Older(Key(offers[n].offered.value), Key(states[m].live.value))
    ensures Judge(states[n], bundled, offers[n].offered, offers[n].minimum, offers[n].now).Err? && states[n + 1] == states[n]
  {
    FlooredAlways(bundled, states, offers, m);
    HighestNeverFalls(bundled, states, offers, m, n);
    assert Moves(bundled, states, offers, n);
    if Judge(states[n], bundled, offers[n].offered, offers[n].minimum, offers[n].now).Ok? {
      AcceptedIsNotOlder(states[n], bundled, offers[n]);
    }
  }

  lemma AcceptedIsNotOlder<T>(s: State<T>, bundled: Bundle<T>, o: Offer<T>)
    requires ValidBundle(bundled) && ValidOffer(o) && s.highest.Some? && KeyOf(s.highest.value).Some?
    requires Judge(s, bundled, o.offered, o.minimum, o.now).Ok?
    ensures !Older(Key(o.offered.value), KeyOf(s.highest.value).value)
  {
    EmptyIsNoVersion();
  }

  lemma EmptyIsNoVersion()
    ensures KeyOf("").None?
  {
  }

  /** Two spellings of one version: accepting the second leaves the first on record, so the live version and the
      highest one agree as versions, not as strings. */
  lemma SpellingsShareAKey()
    ensures "2026-10-17" != "2026-10-17.0" && KeyOf("2026-10-17").Some? && KeyOf("2026-10-17") == KeyOf("2026-10-17.0")
  {
    assert AllDigits("2026-10-17"[..4]) && AllDigits("2026-10-17"[5..7]) && AllDigits("2026-10-17"[8..10]);
    var s := "2026-10-17.0";
    assert s[..4] == "2026-10-17"[..4] && s[5..7] == "2026-10-17"[5..7] && s[8..10] == "2026-10-17"[8..10];
    assert s[11..] == "0" && "0"[..0] == [];
    assert FromDigits("0") == 0;
  }
}

/** The detector's per-customer histories: a bounded map that forgets the least recently active. */
module LoopSubjects {
  import opened Text
  import opened Wrappers
  import opened LoopHistory

  datatype Entry = Entry(key: string, hist: Hist)

  /** subjects lists the remembered customers, least recently active first. */
  datatype Detector = Detector(shared: Hist, subjects: seq<Entry>)

  const NEW_DETECTOR := Detector(NEW_HIST, [])

  /** The customer a call counts for; calls naming none share one history. */
  function Key(cfg: Config, c: Call): Option<string> {
    match c.subject
    case None => None
    case Some(s) => if Strip(s) == "" || cfg.maxSubjects == 0 then None else Some(Strip(s))
  }

  function Find(subjects: seq<Entry>, key: string): (i: Option<nat>)
    ensures i.Some? ==> i.value < |subjects| && subjects[i.value].key == key
    ensures i.Some? ==> forall j :: 0 <= j < i.value ==> subjects[j].key != key
    ensures i.None? ==> forall j :: 0 <= j < |subjects| ==> subjects[j].key != key
  {
    if subjects == [] then None
    else if subjects[0].key == key then Some(0)
    else
      match Find(subjects[1..], key)
      case None =>
        assert forall j :: 0 < j < |subjects| ==> subjects[j] == subjects[1..][j - 1];
        None
      case Some(i) =>
        assert forall j :: 0 < j < |subjects| ==> subjects[j] == subjects[1..][j - 1];
        Some(i + 1)
  }

  function HistFor(subjects: seq<Entry>, key: string): Hist {
    match Find(subjects, key) case None => NEW_HIST case Some(i) => subjects[i].hist
  }

  function Others(subjects: seq<Entry>, key: string): seq<Entry> {
    match Find(subjects, key) case None => subjects case Some(i) => subjects[..i] + subjects[i + 1..]
  }

  /** Remember hist as the most recent entry for key, forgetting the oldest entries beyond n. */
  function Remember(subjects: seq<Entry>, key: string, hist: Hist, n: nat): seq<Entry> {
    LastN(Others(subjects, key) + [Entry(key, hist)], n)
  }

  function Scored(cfg: Config, d: Detector, c: Call): (Detector, Result<Scores, Failure>) {
    match Key(cfg, c)
    case None =>
      var (h, r) := ScoreHist(cfg, d.shared, c);
      (d.(shared := h), r)
    case Some(key) =>
      var (h, r) := ScoreHist(cfg, HistFor(d.subjects, key), c);
      (d.(subjects := Remember(d.subjects, key, h, cfg.maxSubjects)), r)
  }

  function After(cfg: Config, calls: seq<Call>): Detector {
    if calls == [] then NEW_DETECTOR else Scored(cfg, After(cfg, calls[..|calls| - 1]), calls[|calls| - 1]).0
  }

  // ------------------------------------------------------------------ the specification

  /** The other customers seen since the last call of s, or since the beginning. */
  function OthersSince(cfg: Config, calls: seq<Call>, s: string): set<string> {
    if calls == [] then {}
    else
      var n := |calls| - 1;
      match Key(cfg, calls[n])
      case None => OthersSince(cfg, calls[..n], s)
      case Some(k) => if k == s then {} else OthersSince(cfg, calls[..n], s) + {k}
  }

  predicate CrowdedOut(cfg: Config, calls: seq<Call>, s: string) {
    |OthersSince(cfg, calls, s)| >= cfg.maxSubjects
  }

  /** The history of s fed with its own calls alone, started afresh whenever it was crowded out. */
  function Own(cfg: Config, calls: seq<Call>, s: string): Hist
    decreases |calls|, 0
  {
    if calls == [] then NEW_HIST
    else
      var n := |calls| - 1;
      if Key(cfg, calls[n]) != Some(s) then Own(cfg, calls[..n], s)
      else ScoreHist(cfg, Start(cfg, calls[..n], s), calls[n]).0
  }

  function Start(cfg: Config, calls: seq<Call>, s: string): Hist
    decreases |calls|, 1
  {
    if CrowdedOut(cfg, calls, s) then NEW_HIST else Own(cfg, calls, s)
  }

  function CallsOf(cfg: Config, calls: seq<Call>, s: string): seq<Call> {
    if calls == [] then []
    else
      var n := |calls| - 1;
      CallsOf(cfg, calls[..n], s) + if Key(cfg, calls[n]) == Some(s) then [calls[n]] else []
  }

  // ------------------------------------------------------------------ the proof

  function KeysOf(subjects: seq<Entry>): set<string> { set e <- subjects :: e.key }

  function KeysFrom(subjects: seq<Entry>, i: nat): set<string>
    requires i <= |subjects|
  {
    KeysOf(subjects[i..])
  }

  predicate DistinctKeys(subjects: seq<Entry>) {
    forall i, j :: 0 <= i < j < |subjects| ==> subjects[i].key != subjects[j].key
  }

  /** Entries are distinct and recent, each holds its customer's own history, and the customers more
      recent than it are those seen since its last call; whoever is missing was crowded out. */
  ghost predicate Remembers(cfg: Config, calls: seq<Call>, subjects: seq<Entry>) {
    && |subjects| <= cfg.maxSubjects && DistinctKeys(subjects)
    && (forall i :: 0 <= i < |subjects| ==>
          && subjects[i].hist == Own(cfg, calls, subjects[i].key)
          && OthersSince(cfg, calls, subjects[i].key) == KeysFrom(subjects, i + 1))
    && forall s: string :: Find(subjects, s).None? ==> CrowdedOut(cfg, calls, s) || Own(cfg, calls, s) == NEW_HIST
  }

  lemma {:induction false} KeysFromSize(subjects: seq<Entry>, i: nat)
    requires DistinctKeys(subjects) && i <= |subjects|
    ensures |KeysFrom(subjects, i)| == |subjects| - i
    decreases |subjects| - i
  {
    if i < |subjects| {
      KeysFromSize(subjects, i + 1);
      assert subjects[i..] == [subjects[i]] + subjects[i + 1..];
      assert KeysFrom(subjects, i) == KeysFrom(subjects, i + 1) + {subjects[i].key};
      assert subjects[i].key !in KeysFrom(subjects, i + 1);
    }
  }

  lemma OthersFacts(subjects: seq<Entry>, key: string)
    requires DistinctKeys(subjects)
    ensures DistinctKeys(Others(subjects, key))
    ensures forall e <- Others(subjects, key) :: e in subjects && e.key != key
    ensures forall e <- subjects :: e.key != key ==> e in Others(subjects, key)
    ensures |Others(subjects, key)| == |subjects| - if Find(subjects, key).Some? then 1 else 0
  {
    hide Find;
    var o := Others(subjects, key);
    match Find(subjects, key)
    case None =>
    case Some(i) =>
      assert forall j :: 0 <= j < |o| ==> o[j] == subjects[if j < i then j else j + 1];
      forall e | e in subjects && e.key != key ensures e in o {
        var j :| 0 <= j < |subjects| && subjects[j] == e;
        assert o[if j < i then j else j - 1] == e;
      }
  }

  lemma HistForIsStart(cfg: Config, calls: seq<Call>, subjects: seq<Entry>, s: string)
    requires Remembers(cfg, calls, subjects)
    ensures HistFor(subjects, s) == Start(cfg, calls, s)
  {
    hide Find, Own, OthersSince, KeysFrom;
    match Find(subjects, s)
    case None =>
    case Some(i) =>
      KeysFromSize(subjects, i + 1);
  }

  lemma KeysOfConcat(a: seq<Entry>, b: seq<Entry>)
    ensures KeysOf(a + b) == KeysOf(a) + KeysOf(b)
  {
  }

  lemma KeysSkip(a: seq<Entry>, p: nat, i: nat)
    requires p < |a| && i < |a| - 1
    ensures i < p ==> KeysOf((a[..p] + a[p + 1..])[i + 1..]) + {a[p].key} == KeysOf(a[i + 1..])
    ensures i >= p ==> (a[..p] + a[p + 1..])[i + 1..] == a[i + 2..]
  {
    if i < p {
      assert (a[..p] + a[p + 1..])[i + 1..] == a[i + 1..p] + a[p + 1..];
      assert a[i + 1..] == (a[i + 1..p] + [a[p]]) + a[p + 1..];
      KeysOfConcat(a[i + 1..p], a[p + 1..]);
      KeysOfConcat(a[i + 1..p] + [a[p]], a[p + 1..]);
      KeysOfConcat(a[i + 1..p], [a[p]]);
    }
  }

  /** Where entry i of the list without key stood before. */
  function Before(subjects: seq<Entry>, key: string, i: nat): nat {
    var p := Find(subjects, key);
    if p.Some? && i >= p.value then i + 1 else i
  }

  lemma OthersIs(subjects: seq<Entry>, key: string)
    ensures match Find(subjects, key)
            case None => Others(subjects, key) == subjects
            case Some(p) => subjects[p].key == key && Others(subjects, key) == subjects[..p] + subjects[p + 1..]
  {
  }

  /** The keys behind entry i of the list without key, key added. */
  lemma KeysBehindOther(subjects: seq<Entry>, key: string, i: nat)
    requires i < |Others(subjects, key)|
    ensures Before(subjects, key, i) < |subjects|
    ensures KeysOf(Others(subjects, key)[i + 1..]) + {key} == KeysFrom(subjects, Before(subjects, key, i) + 1) + {key}
  {
    hide Find, KeysOf, Others;
    OthersIs(subjects, key);
    match Find(subjects, key)
    case None =>
    case Some(p) =>
      KeysSkip(subjects, p, i);
  }

  /** The keys behind entry i of the list without key, with key put last. */
  lemma KeysBehind(subjects: seq<Entry>, key: string, hist: Hist, i: nat)
    requires i < |Others(subjects, key)|
    ensures Before(subjects, key, i) < |subjects| && Others(subjects, key)[i] == subjects[Before(subjects, key, i)]
    ensures KeysFrom(Others(subjects, key) + [Entry(key, hist)], i + 1)
            == KeysFrom(subjects, Before(subjects, key, i) + 1) + {key}
  {
    hide Find, Others;
    var o := Others(subjects, key);
    var last := [Entry(key, hist)];
    KeysOfConcat(o[i + 1..], last);
    assert (o + last)[i + 1..] == o[i + 1..] + last;
    assert KeysOf(last) == {key};
    OthersIs(subjects, key);
    KeysBehindOther(subjects, key, i);
  }

  lemma KeysFromTail(subjects: seq<Entry>, n: nat, i: nat)
    requires n <= |subjects| && i <= |subjects| - n
    ensures KeysFrom(subjects[n..], i) == KeysFrom(subjects, n + i)
  {
    assert subjects[n..][i..] == subjects[n + i..];
  }

  /** One keyed call keeps the list a memory of the calls: every entry but the caller's gains the
      caller behind it, and an entry pushed out has the full number of others behind it. */
  lemma EntryAfter(cfg: Config, calls: seq<Call>, c: Call, key: string, subjects: seq<Entry>, hist: Hist, i: nat)
    requires Remembers(cfg, calls, subjects) && Key(cfg, c) == Some(key)
    requires hist == ScoreHist(cfg, Start(cfg, calls, key), c).0
    requires i <= |Others(subjects, key)|
    ensures var next := Others(subjects, key) + [Entry(key, hist)];
            && next[i].hist == Own(cfg, calls + [c], next[i].key)
            && OthersSince(cfg, calls + [c], next[i].key) == KeysFrom(next, i + 1)
  {
    var o := Others(subjects, key);
    var next := o + [Entry(key, hist)];
    var all := calls + [c];
    assert all[..|calls|] == calls;
    OthersFacts(subjects, key);
    if i < |o| {
      assert o[i] in o;
      KeysBehind(subjects, key, hist, i);
    } else {
      assert next[i + 1..] == [];
    }
  }

  lemma MissingStays(cfg: Config, calls: seq<Call>, c: Call, key: string, subjects: seq<Entry>, s: string)
    requires Remembers(cfg, calls, subjects) && Key(cfg, c) == Some(key) && s != key
    requires Find(subjects, s).None?
    ensures CrowdedOut(cfg, calls + [c], s) || Own(cfg, calls + [c], s) == NEW_HIST
  {
    var all := calls + [c];
    assert all[..|calls|] == calls;
    assert OthersSince(cfg, all, s) == OthersSince(cfg, calls, s) + {key};
    SubsetSize(OthersSince(cfg, calls, s), OthersSince(cfg, all, s));
  }

  lemma PushedOut(cfg: Config, calls: seq<Call>, c: Call, key: string, subjects: seq<Entry>, hist: Hist, i: nat)
    requires Remembers(cfg, calls, subjects) && Key(cfg, c) == Some(key)
    requires hist == ScoreHist(cfg, Start(cfg, calls, key), c).0
    requires i + cfg.maxSubjects < |Others(subjects, key)| + 1
    ensures CrowdedOut(cfg, calls + [c], Others(subjects, key)[i].key)
  {
    hide Find, Own, ScoreHist, KeysFrom, Others;
    var o := Others(subjects, key);
    OthersFacts(subjects, key);
    EntryAfter(cfg, calls, c, key, subjects, hist, i);
    DistinctNext(o, key, hist);
    KeysFromSize(o + [Entry(key, hist)], i + 1);
  }

  /** An entry is among the last n unless n others stand behind it. */
  lemma KeptUnlessCut(next: seq<Entry>, n: nat, i: nat)
    requires i < |next|
    ensures i + n < |next| || next[i] in LastN(next, n)
  {
    var kept := LastN(next, n);
    var cut := |next| - |kept|;
    if i >= cut { assert kept[i - cut] == next[i]; }
  }

  lemma KeptKeys(o: seq<Entry>, e: Entry, n: nat, s: string) returns (i: nat)
    requires n >= 1 && Find(LastN(o + [e], n), s).None?
    requires exists x :: x in o && x.key == s
    ensures s != e.key && i < |o| && o[i].key == s && i + n < |o| + 1
  {
    hide Find, LastN;
    var next := o + [e];
    var x :| x in o && x.key == s;
    i :| 0 <= i < |o| && o[i] == x;
    assert next[i] == x && next[|o|] == e;
    KeptUnlessCut(next, n, i);
    KeptUnlessCut(next, n, |o|);
  }

  lemma MissingAfter(cfg: Config, calls: seq<Call>, c: Call, key: string, subjects: seq<Entry>, hist: Hist, s: string)
    requires Remembers(cfg, calls, subjects) && Key(cfg, c) == Some(key)
    requires hist == ScoreHist(cfg, Start(cfg, calls, key), c).0
    requires Find(Remember(subjects, key, hist, cfg.maxSubjects), s).None?
    ensures CrowdedOut(cfg, calls + [c], s) || Own(cfg, calls + [c], s) == NEW_HIST
  {
    var o := Others(subjects, key);
    OthersFacts(subjects, key);
    var kept := Remember(subjects, key, hist, cfg.maxSubjects);
    assert kept[|kept| - 1].key == key;
    match Find(subjects, s)
    case None => MissingStays(cfg, calls, c, key, subjects, s);
    case Some(j) =>
      assert subjects[j] in o;
      var i := KeptKeys(o, Entry(key, hist), cfg.maxSubjects, s);
      PushedOut(cfg, calls, c, key, subjects, hist, i);
  }

  lemma DistinctNext(o: seq<Entry>, key: string, hist: Hist)
    requires DistinctKeys(o) && forall e <- o :: e.key != key
    ensures DistinctKeys(o + [Entry(key, hist)])
  {
  }

  lemma SubsetSize(a: set<string>, b: set<string>)
    requires a <= b
    ensures |a| <= |b|
  {
    assert b == a + (b - a);
  }

  lemma KeptEntry(cfg: Config, calls: seq<Call>, c: Call, key: string, subjects: seq<Entry>, hist: Hist, i: nat)
    requires Remembers(cfg, calls, subjects) && Key(cfg, c) == Some(key)
    requires hist == ScoreHist(cfg, Start(cfg, calls, key), c).0
    requires i < |Remember(subjects, key, hist, cfg.maxSubjects)|
    ensures var kept := Remember(subjects, key, hist, cfg.maxSubjects);
            kept[i].hist == Own(cfg, calls + [c], kept[i].key) && OthersSince(cfg, calls + [c], kept[i].key) == KeysFrom(kept, i + 1)
  {
    hide Remembers, Find, Own, OthersSince, ScoreHist, KeysFrom, CrowdedOut, HistFor, Start, Others;
    var next := Others(subjects, key) + [Entry(key, hist)];
    var kept := Remember(subjects, key, hist, cfg.maxSubjects);
    var cut := |next| - |kept|;
    assert kept == next[cut..];
    EntryAfter(cfg, calls, c, key, subjects, hist, cut + i);
    KeysFromTail(next, cut, i + 1);
  }

  lemma KeptIsDistinct(subjects: seq<Entry>, key: string, hist: Hist, n: nat)
    requires DistinctKeys(subjects)
    ensures DistinctKeys(Remember(subjects, key, hist, n)) && |Remember(subjects, key, hist, n)| <= n
  {
    hide Others;
    OthersFacts(subjects, key);
    DistinctNext(Others(subjects, key), key, hist);
  }

  lemma KeyedCallRemembers(cfg: Config, calls: seq<Call>, c: Call, key: string, subjects: seq<Entry>)
    requires Remembers(cfg, calls, subjects) && Key(cfg, c) == Some(key)
    ensures var hist := ScoreHist(cfg, HistFor(subjects, key), c).0;
            Remembers(cfg, calls + [c], Remember(subjects, key, hist, cfg.maxSubjects))
  {
    hide Find, Own, OthersSince, ScoreHist, KeysFrom, CrowdedOut, HistFor, Start, Remember;
    HistForIsStart(cfg, calls, subjects, key);
    var hist := ScoreHist(cfg, HistFor(subjects, key), c).0;
    KeptIsDistinct(subjects, key, hist, cfg.maxSubjects);
    var kept := Remember(subjects, key, hist, cfg.maxSubjects);
    forall i | 0 <= i < |kept|
      ensures kept[i].hist == Own(cfg, calls + [c], kept[i].key)
      ensures OthersSince(cfg, calls + [c], kept[i].key) == KeysFrom(kept, i + 1)
    {
      KeptEntry(cfg, calls, c, key, subjects, hist, i);
    }
    forall s: string | Find(kept, s).None?
      ensures CrowdedOut(cfg, calls + [c], s) || Own(cfg, calls + [c], s) == NEW_HIST
    {
      MissingAfter(cfg, calls, c, key, subjects, hist, s);
    }
  }

  lemma SharedCallRemembers(cfg: Config, calls: seq<Call>, c: Call, subjects: seq<Entry>)
    requires Remembers(cfg, calls, subjects) && Key(cfg, c) == None
    ensures Remembers(cfg, calls + [c], subjects)
  {
    assert (calls + [c])[..|calls|] == calls;
  }

  lemma {:induction false} DetectorRemembers(cfg: Config, calls: seq<Call>)
    ensures Remembers(cfg, calls, After(cfg, calls).subjects)
  {
    if calls != [] {
      var n := |calls| - 1;
      DetectorRemembers(cfg, calls[..n]);
      assert calls == calls[..n] + [calls[n]];
      match Key(cfg, calls[n])
      case None => SharedCallRemembers(cfg, calls[..n], calls[n], After(cfg, calls[..n]).subjects);
      case Some(key) => KeyedCallRemembers(cfg, calls[..n], calls[n], key, After(cfg, calls[..n]).subjects);
    }
  }

  // ------------------------------------------------------------------ the theorems

  /** What any call of a customer scores: the score of its own earlier calls alone, or of a fresh
      history when at least maxSubjects others called since. */
  lemma ScoreDependsOnOwnCalls(cfg: Config, calls: seq<Call>, c: Call, s: string)
    requires Key(cfg, c) == Some(s)
    ensures Scored(cfg, After(cfg, calls), c).1 == ScoreHist(cfg, Start(cfg, calls, s), c).1
  {
    DetectorRemembers(cfg, calls);
    HistForIsStart(cfg, calls, After(cfg, calls).subjects, s);
  }

  /** At no call of s had as many others called since its previous one as the detector remembers. */
  predicate NeverCrowdedOut(cfg: Config, calls: seq<Call>, s: string) {
    forall i :: 0 <= i < |calls| && Key(cfg, calls[i]) == Some(s) && CallsOf(cfg, calls[..i], s) != [] ==>
                  !CrowdedOut(cfg, calls[..i], s)
  }

  lemma {:induction false} OwnIsFed(cfg: Config, calls: seq<Call>, s: string)
    requires NeverCrowdedOut(cfg, calls, s)
    ensures Own(cfg, calls, s) == Fed(cfg, CallsOf(cfg, calls, s))
  {
    if calls != [] {
      var n := |calls| - 1;
      forall i | 0 <= i < n && Key(cfg, calls[..n][i]) == Some(s) && CallsOf(cfg, calls[..n][..i], s) != []
        ensures !CrowdedOut(cfg, calls[..n][..i], s)
      {
        assert calls[..n][..i] == calls[..i];
      }
      OwnIsFed(cfg, calls[..n], s);
      if Key(cfg, calls[n]) == Some(s) {
        var mine := CallsOf(cfg, calls, s);
        assert mine[..|mine| - 1] == CallsOf(cfg, calls[..n], s) && mine[|mine| - 1] == calls[n];
        assert CallsOf(cfg, calls[..n], s) != [] ==> !CrowdedOut(cfg, calls[..n], s);
        if CallsOf(cfg, calls[..n], s) == [] {
          NoCallsNoHistory(cfg, calls[..n], s);
        }
        assert Start(cfg, calls[..n], s) == Fed(cfg, mine[..|mine| - 1]);
        assert Own(cfg, calls, s) == ScoreHist(cfg, Start(cfg, calls[..n], s), calls[n]).0;
      } else {
        assert CallsOf(cfg, calls, s) == CallsOf(cfg, calls[..n], s);
      }
    }
  }

  lemma {:induction false} NoCallsNoHistory(cfg: Config, calls: seq<Call>, s: string)
    requires CallsOf(cfg, calls, s) == []
    ensures Own(cfg, calls, s) == NEW_HIST
  {
    if calls != [] {
      NoCallsNoHistory(cfg, calls[..|calls| - 1], s);
    }
  }

  /** The call names this customer: its subject, stripped, where customers are told apart at all. */
  predicate NamesCustomer(cfg: Config, c: Call, s: string) {
    cfg.maxSubjects > 0 && s != "" && c.subject.Some? && Strip(c.subject.value) == s
  }

  lemma KeyIsTheNamedCustomer(cfg: Config, c: Call, s: string)
    ensures Key(cfg, c) == Some(s) <==> NamesCustomer(cfg, c, s)
    ensures Key(cfg, c) == None <==> forall x: string :: !NamesCustomer(cfg, c, x)
  {
    if forall x: string :: !NamesCustomer(cfg, c, x) {
      assert c.subject.Some? ==> !NamesCustomer(cfg, c, Strip(c.subject.value));
    }
  }

  /** The calls that name no customer. */
  function Unnamed(cfg: Config, calls: seq<Call>): seq<Call> {
    if calls == [] then []
    else
      var n := |calls| - 1;
      Unnamed(cfg, calls[..n]) + if cfg.maxSubjects > 0 && calls[n].subject.Some? && Strip(calls[n].subject.value) != "" then [] else [calls[n]]
  }

  /** Calls that name no customer are scored against all calls before that named none, and no other. */
  lemma {:induction false} SharedHistoryIsOfTheUnnamed(cfg: Config, calls: seq<Call>, c: Call)
    ensures After(cfg, calls).shared == Fed(cfg, Unnamed(cfg, calls))
    ensures (forall s: string :: !NamesCustomer(cfg, c, s)) ==>
              Scored(cfg, After(cfg, calls), c).1 == ScoreHist(cfg, Fed(cfg, Unnamed(cfg, calls)), c).1
  {
    KeyIsTheNamedCustomer(cfg, c, "");
    if calls != [] {
      var n := |calls| - 1;
      var before := calls[..n];
      SharedHistoryIsOfTheUnnamed(cfg, before, calls[n]);
      KeyIsTheNamedCustomer(cfg, calls[n], "");
      var named := cfg.maxSubjects > 0 && calls[n].subject.Some? && Strip(calls[n].subject.value) != "";
      if named {
        assert Unnamed(cfg, calls) == Unnamed(cfg, before);
      } else {
        var all := Unnamed(cfg, before) + [calls[n]];
        assert all[..|all| - 1] == Unnamed(cfg, before);
        assert Unnamed(cfg, calls) == all;
      }
      hide ScoreHist, Remember, Strip;
    }
  }

  /** Per-customer isolation: while fewer than maxSubjects others call between consecutive calls of s,
      every score of s is that of a detector fed with s's calls alone. */
  lemma Isolation(cfg: Config, calls: seq<Call>, c: Call, s: string)
    requires NamesCustomer(cfg, c, s) && NeverCrowdedOut(cfg, calls + [c], s)
    ensures Scored(cfg, After(cfg, calls), c).1 == ScoreHist(cfg, Fed(cfg, CallsOf(cfg, calls, s)), c).1
    ensures Scored(cfg, After(cfg, calls), c).1 == Scored(cfg, After(cfg, CallsOf(cfg, calls, s)), c).1
  {
    KeyIsTheNamedCustomer(cfg, c, s);
    AloneScores(cfg, calls, c, s);
    var mine := CallsOf(cfg, calls, s);
    AllMine(cfg, calls, s);
    MineAgain(cfg, mine, s);
    NobodyElse(cfg, mine + [c], s);
    AloneScores(cfg, mine, c, s);
  }

  lemma AloneScores(cfg: Config, calls: seq<Call>, c: Call, s: string)
    requires Key(cfg, c) == Some(s) && NeverCrowdedOut(cfg, calls + [c], s)
    ensures Scored(cfg, After(cfg, calls), c).1 == ScoreHist(cfg, Fed(cfg, CallsOf(cfg, calls, s)), c).1
  {
    var all := calls + [c];
    assert all[..|calls|] == calls;
    forall i | 0 <= i < |calls| && Key(cfg, calls[i]) == Some(s) && CallsOf(cfg, calls[..i], s) != []
      ensures !CrowdedOut(cfg, calls[..i], s)
    {
      assert all[..i] == calls[..i];
    }
    ScoreDependsOnOwnCalls(cfg, calls, c, s);
    OwnIsFed(cfg, calls, s);
    if CallsOf(cfg, calls, s) == [] {
      NoCallsNoHistory(cfg, calls, s);
    } else {
      assert Key(cfg, all[|calls|]) == Some(s);
      assert !CrowdedOut(cfg, all[..|calls|], s);
    }
  }

  lemma {:induction false} AllMine(cfg: Config, calls: seq<Call>, s: string)
    ensures forall x <- CallsOf(cfg, calls, s) :: Key(cfg, x) == Some(s)
  {
    if calls != [] { AllMine(cfg, calls[..|calls| - 1], s); }
  }

  lemma {:induction false} MineAgain(cfg: Config, mine: seq<Call>, s: string)
    requires forall x <- mine :: Key(cfg, x) == Some(s)
    ensures CallsOf(cfg, mine, s) == mine
  {
    if mine != [] { MineAgain(cfg, mine[..|mine| - 1], s); }
  }

  lemma {:induction false} NobodyElse(cfg: Config, mine: seq<Call>, s: string)
    requires forall x <- mine :: Key(cfg, x) == Some(s)
    ensures NeverCrowdedOut(cfg, mine, s)
  {
    forall i | 0 <= i < |mine| && CallsOf(cfg, mine[..i], s) != []
      ensures !CrowdedOut(cfg, mine[..i], s)
    {
      assert i > 0;
      assert mine[..i][i - 1] == mine[i - 1];
      assert OthersSince(cfg, mine[..i], s) == {};
      assert cfg.maxSubjects > 0;
    }
  }

  /** The map never holds more than maxSubjects customers, and a call never forgets its own. */
  lemma BoundedAndKeepsTheCaller(cfg: Config, calls: seq<Call>, c: Call)
    ensures |After(cfg, calls).subjects| <= cfg.maxSubjects
    ensures var subjects := Scored(cfg, After(cfg, calls), c).0.subjects;
            match Key(cfg, c)
            case None => subjects == After(cfg, calls).subjects
            case Some(key) => subjects != [] && subjects[|subjects| - 1].key == key
  {
    hide ScoreHist, Own, OthersSince, KeysFrom, After, Find, Others;
    DetectorRemembers(cfg, calls);
  }

  // ------------------------------------------------------------------ the objects

  class History {
    var inputs: seq<Tokens>
    var toolFps: seq<Fingerprint>
    var toolCounts: map<Fingerprint, int>

    function View(): Hist
      reads this
    {
      Hist(inputs, toolFps, toolCounts)
    }

    constructor ()
      ensures View() == NEW_HIST
    {
      inputs, toolFps, toolCounts := [], [], map[];
    }

    /** The best similarity to an earlier input, given up early at 0.999. */
    method BestSimilarity(tokens: Tokens) returns (h1: real)
      ensures h1 == Scan(tokens, inputs, 0.0)
    {
      h1 := 0.0;
      var i := 0;
      while i < |inputs|
        invariant 0 <= i <= |inputs|
        invariant Scan(tokens, inputs[i..], h1) == Scan(tokens, inputs, 0.0)
      {
        assert inputs[i..][0] == inputs[i] && inputs[i..][1..] == inputs[i + 1..];
        var sim := Jaccard(tokens, inputs[i]);
        if sim > h1 {
          h1 := sim;
          if h1 >= 0.999 {
            return;
          }
        }
        i := i + 1;
      }
    }

    method Record(cfg: Config, c: Call) returns (r: Result<Scores, Failure>)
      requires |toolFps| <= cfg.toolHistory
      modifies this
      ensures |toolFps| <= cfg.toolHistory
      ensures (View(), r) == ScoreHist(cfg, old(View()), c)
    {
      var h1 := BestSimilarity(c.tokens);
      inputs := LastN(inputs + [c.tokens], cfg.maxHistory);
      var h2 := 0.0;
      if c.tools.Some? {
        var f := c.tools.value;
        if |toolFps| == cfg.toolHistory {
          if toolFps == [] {
            return Err(IndexError);
          }
          var oldest := toolFps[0];
          toolCounts := toolCounts[oldest := Count(toolCounts, oldest) - 1];
          if toolCounts[oldest] <= 0 {
            toolCounts := toolCounts - {oldest};
          }
          assert toolCounts == Dropped(old(toolCounts), oldest);
        }
        toolFps := LastN(toolFps + [f], cfg.toolHistory);
        toolCounts := toolCounts[f := Count(toolCounts, f) + 1];
        h2 := ToolShare(toolCounts[f]);
      }
      return Ok(Scores(h1, h2, Max(h1, h2)));
    }
  }

  datatype Slot = Slot(key: string, hist: History)

  function FindSlot(slots: seq<Slot>, key: string): (i: Option<nat>)
    ensures i.Some? ==> i.value < |slots| && slots[i.value].key == key
    ensures i.Some? ==> forall j :: 0 <= j < i.value ==> slots[j].key != key
    ensures i.None? ==> forall j :: 0 <= j < |slots| ==> slots[j].key != key
  {
    if slots == [] then None
    else if slots[0].key == key then Some(0)
    else
      assert forall j :: 0 < j < |slots| ==> slots[j] == slots[1..][j - 1];
      match FindSlot(slots[1..], key) case None => None case Some(i) => Some(i + 1)
  }

  function OtherSlots(slots: seq<Slot>, key: string): seq<Slot> {
    match FindSlot(slots, key) case None => slots case Some(i) => slots[..i] + slots[i + 1..]
  }

  function Entries(slots: seq<Slot>): seq<Entry>
    reads set s <- slots :: s.hist
  {
    seq(|slots|, i requires 0 <= i < |slots| reads set s <- slots :: s.hist => Entry(slots[i].key, slots[i].hist.View()))
  }

  lemma EntriesFind(slots: seq<Slot>, key: string)
    ensures Find(Entries(slots), key) == FindSlot(slots, key)
    ensures Others(Entries(slots), key) == Entries(OtherSlots(slots, key))
  {
    hide Find, FindSlot, History.View;
    var entries := Entries(slots);
    var i, j := Find(entries, key), FindSlot(slots, key);
    if i.Some? { assert entries[i.value].key == slots[i.value].key; }
    if j.Some? { assert entries[j.value].key == slots[j.value].key; }
    assert forall m :: 0 <= m < |slots| ==> entries[m].key == slots[m].key;
  }

  /** No two customers share a history, and none has the one of the calls that name no customer. */
  predicate Separate(slots: seq<Slot>, shared: History) {
    && (forall s <- slots :: s.hist != shared)
    && forall i, j :: 0 <= i < j < |slots| ==> slots[i].hist != slots[j].hist
  }

  lemma OtherSlotsAre(slots: seq<Slot>, shared: History, key: string, h: History)
    requires Separate(slots, shared)
    requires match FindSlot(slots, key) case Some(i) => h == slots[i].hist case None => forall s <- slots :: s.hist != h
    ensures forall s <- OtherSlots(slots, key) :: s in slots && s.hist != h
    ensures Separate(OtherSlots(slots, key), shared)
  {
    hide FindSlot;
    var o, p := OtherSlots(slots, key), FindSlot(slots, key);
    if p.Some? {
      assert forall j :: 0 <= j < |o| ==> o[j] == slots[if j < p.value then j else j + 1];
    }
  }

  lemma SeparateNext(slots: seq<Slot>, shared: History, last: Slot, n: nat)
    requires Separate(slots, shared) && last.hist != shared && forall s <- slots :: s.hist != last.hist
    ensures Separate(LastN(slots + [last], n), shared)
    ensures forall s <- LastN(slots + [last], n) :: s in slots || s == last
  {
  }

  lemma EntriesRemember(slots: seq<Slot>, last: Slot, n: nat)
    ensures Entries(LastN(slots + [last], n)) == LastN(Entries(slots) + [Entry(last.key, last.hist.View())], n)
  {
  }

  class LoopDetector {
    const cfg: Config
    const shared: History
    var subjects: seq<Slot>

    ghost predicate Valid()
      reads this, shared, set s <- subjects :: s.hist
    {
      && Separate(subjects, shared)
      && |shared.toolFps| <= cfg.toolHistory
      && forall s <- subjects :: |s.hist.toolFps| <= cfg.toolHistory
    }

    ghost function View(): Detector
      reads this, shared, set s <- subjects :: s.hist
    {
      Detector(shared.View(), Entries(subjects))
    }

    constructor (cfg: Config)
      ensures Valid() && View() == NEW_DETECTOR && this.cfg == cfg
      ensures fresh(shared)
    {
      this.cfg := cfg;
      shared := new History();
      subjects := [];
    }

    /** The history of a customer, now the most recently active; the oldest go beyond the limit. */
    method HistoryFor(key: string) returns (h: History)
      requires Valid() && cfg.maxSubjects >= 1
      modifies this`subjects
      ensures subjects == LastN(OtherSlots(old(subjects), key) + [Slot(key, h)], cfg.maxSubjects)
      ensures h.View() == HistFor(old(View()).subjects, key)
      ensures match FindSlot(old(subjects), key)
              case Some(i) => h == old(subjects)[i].hist
              case None => fresh(h)
    {
      EntriesFind(subjects, key);
      var found := FindSlot(subjects, key);
      ghost var others := OtherSlots(subjects, key);
      if found.None? {
        h := new History();
        subjects := subjects + [Slot(key, h)];
      } else {
        h := subjects[found.value].hist;
        assert Entries(subjects)[found.value].hist == h.View();
        subjects := subjects[..found.value] + subjects[found.value + 1..] + [Slot(key, h)];
      }
      while |subjects| > cfg.maxSubjects
        invariant LastN(subjects, cfg.maxSubjects) == LastN(others + [Slot(key, h)], cfg.maxSubjects)
        invariant h.View() == HistFor(old(View()).subjects, key)
      {
        subjects := subjects[1..];
      }
    }

    method Score(c: Call) returns (r: Result<Scores, Failure>)
      requires Valid()
      modifies this`subjects, shared, set s <- subjects :: s.hist
      ensures Valid() && (View(), r) == Scored(cfg, old(View()), c)
    {
      var key := Key(cfg, c);
      if key.None? {
        r := shared.Record(cfg, c);
        return;
      }
      r := ScoreSubject(key.value, c);
    }

    method ScoreSubject(key: string, c: Call) returns (r: Result<Scores, Failure>)
      requires Valid() && cfg.maxSubjects >= 1
      modifies this`subjects, set s <- subjects :: s.hist
      ensures Valid() && shared.View() == old(shared.View())
      ensures var (h, r') := ScoreHist(cfg, HistFor(old(View()).subjects, key), c);
              r == r' && Entries(subjects) == Remember(old(View()).subjects, key, h, cfg.maxSubjects)
    {
      hide Find, FindSlot, ScoreHist;
      ghost var others := OtherSlots(subjects, key);
      ghost var before := Entries(others);
      EntriesFind(subjects, key);
      ghost var slots := subjects;
      var h := HistoryFor(key);
      OtherSlotsAre(slots, shared, key, h);
      SeparateNext(others, shared, Slot(key, h), cfg.maxSubjects);
      r := h.Record(cfg, c);
      assert Entries(others) == before;
      EntriesRemember(others, Slot(key, h), cfg.maxSubjects);
    }
  }
}

/** The licence gate of scripts/license_policy.py: categories, SPDX expressions and decisions.

    An SPDX expression is evaluated by taking the mildest alternative of every OR and the
    harshest operand of every AND. The theorems say what that number means: it is the best
    outcome a licensee can reach by picking one alternative at every OR, and the keys that
    are reported are the keys of one such pick. */
module LicensePolicy {
  import opened Text
  import opened Wrappers

  datatype Category =
    | Permissive | WeakCopyleft | Lgpl | Gpl | Agpl | SourceAvailable | Proprietary | Unknown

  const CATEGORIES: seq<Category> :=
    [Permissive, WeakCopyleft, Lgpl, Gpl, Agpl, SourceAvailable, Proprietary, Unknown]

  function Severity(c: Category): nat {
    match c
    case Permissive => 0
    case WeakCopyleft => 1
    case Lgpl => 2
    case Gpl => 3
    case Agpl => 4
    case SourceAvailable => 5
    case Proprietary => 6
    case Unknown => 7
  }

  datatype Policy = Policy(categories: map<Category, set<string>>, linkingExceptions: set<string>) {
    function Listed(c: Category): set<string> {
      if c in categories then categories[c] else {}
    }
  }

  // ------------------------------------------------------------------ keys

  function FirstListing(p: Policy, k: string, order: seq<Category>): Option<Category> {
    if order == [] then None
    else if k in p.Listed(order[0]) then Some(order[0])
    else FirstListing(p, k, order[1..])
  }

  function CategoryOfKey(p: Policy, key: string): Category {
    var k := Lower(key);
    match FirstListing(p, k, CATEGORIES)
    case Some(c) => c
    case None =>
      if "licenseref-" <= k then Proprietary
      else if "agpl-" <= k then Agpl
      else if "lgpl-" <= k then Lgpl
      else if "gpl-" <= k then Gpl
      else Unknown
  }

  lemma {:induction false} FirstListingIsFirst(p: Policy, k: string, order: seq<Category>)
    ensures match FirstListing(p, k, order)
            case None => forall c <- order :: k !in p.Listed(c)
            case Some(c) => exists i :: 0 <= i < |order| && order[i] == c && k in p.Listed(c)
                                        && forall j :: 0 <= j < i ==> k !in p.Listed(order[j])
  {
    if order != [] && k !in p.Listed(order[0]) {
      FirstListingIsFirst(p, k, order[1..]);
      match FirstListing(p, k, order[1..])
      case None =>
      case Some(c) =>
        var i :| 0 <= i < |order[1..]| && order[1..][i] == c && k in p.Listed(c)
                 && forall j :: 0 <= j < i ==> k !in p.Listed(order[1..][j]);
        assert order[i + 1] == c;
        assert forall j :: 0 <= j < i + 1 ==> j == 0 || order[j] == order[1..][j - 1];
    } else if order != [] {
      assert order[0] == FirstListing(p, k, order).value;
    }
  }

  /** A key the policy lists gets the mildest category that lists it. */
  lemma ListedKeyGetsMildestListing(p: Policy, key: string, c: Category)
    requires Lower(key) in p.Listed(c)
    ensures Lower(key) in p.Listed(CategoryOfKey(p, key))
    ensures Severity(CategoryOfKey(p, key)) <= Severity(c)
  {
    FirstListingIsFirst(p, Lower(key), CATEGORIES);
    assert CATEGORIES[Severity(c)] == c;
  }

  /** A key the policy does not list is only ever placed by its family prefix. */
  lemma UnlistedKeyIsPlacedByPrefix(p: Policy, key: string)
    requires forall c :: Lower(key) !in p.Listed(c)
    ensures CategoryOfKey(p, key) == Proprietary <==> "licenseref-" <= Lower(key)
    ensures CategoryOfKey(p, key) == Agpl <==> "agpl-" <= Lower(key)
    ensures CategoryOfKey(p, key) == Lgpl <==> "lgpl-" <= Lower(key)
    ensures CategoryOfKey(p, key) == Gpl <==> "gpl-" <= Lower(key)
    ensures CategoryOfKey(p, key) in {Proprietary, Agpl, Lgpl, Gpl, Unknown}
  {
    var k := Lower(key);
    FirstListingIsFirst(p, k, CATEGORIES);
    if FirstListing(p, k, CATEGORIES).Some? {
      assert k in p.Listed(FirstListing(p, k, CATEGORIES).value);
      assert false;
    }
    assert k != [] && k[0] == 'a' ==> !("lgpl-" <= k) && !("gpl-" <= k) && !("licenseref-" <= k);
    assert "lgpl-" <= k ==> k[1] == 'g';
    assert "licenseref-" <= k ==> k[1] == 'i';
  }

  // ------------------------------------------------------------------ expressions

  /** A parsed SPDX expression. Other stands for any node the walk does not know. */
  datatype Expr =
    | License(key: string)
    | With(base: string, exception: string)
    | Or(args: seq<Expr>)
    | And(args: seq<Expr>)
    | Other(text: string)

  /** The parser never builds an operator without operands. */
  predicate WellFormed(e: Expr) {
    (e.Or? || e.And?) ==> e.args != [] && forall a <- e.args :: WellFormed(a)
  }

  /** What the parser builds: licences, exceptions, and operators with at least two operands. */
  predicate Parsed(e: Expr): (b: bool)
    ensures b ==> WellFormed(e)
  {
    match e
    case Or(args) => |args| >= 2 && forall a <- args :: Parsed(a)
    case And(args) => |args| >= 2 && forall a <- args :: Parsed(a)
    case Other(_) => false
    case _ => true
  }

  predicate IsLeaf(e: Expr) { !e.Or? && !e.And? }

  function LeafCategory(p: Policy, e: Expr): Category
    requires IsLeaf(e)
  {
    match e
    case License(key) => CategoryOfKey(p, key)
    case With(base, exception) =>
      var c := CategoryOfKey(p, base);
      if c == Gpl && Lower(exception) in p.linkingExceptions then Lgpl else c
    case Other(_) => Unknown
  }

  function LeafKey(e: Expr): string
    requires IsLeaf(e)
  {
    match e
    case License(key) => key
    case With(base, exception) => base + " WITH " + exception
    case Other(text) => text
  }

  /** A linking exception softens GPL to LGPL; no other exception changes a category. */
  lemma ExceptionOnlySoftensGpl(p: Policy, base: string, exception: string)
    ensures var plain := LeafCategory(p, License(base));
            var excepted := LeafCategory(p, With(base, exception));
            && Severity(excepted) <= Severity(plain)
            && (excepted != plain <==> plain == Gpl && Lower(exception) in p.linkingExceptions)
            && (excepted != plain ==> excepted == Lgpl)
  {
  }

  /** A licence is reported under its own key, one with an exception under both, base first. */
  lemma ReportedUnder(p: Policy, base: string, exception: string)
    ensures Walk(p, License(base)).keys == [base]
    ensures Walk(p, With(base, exception)).keys == [base + " WITH " + exception]
    ensures Walk(p, Other(base)) == Verdict(Unknown, [base])
  {
  }

  datatype Verdict = Verdict(category: Category, keys: seq<string>)

  /** Index of the first verdict of least severity, as Python's min picks it. */
  function FirstMildest(vs: seq<Verdict>): (i: nat)
    requires vs != []
    ensures i < |vs|
    ensures forall j :: 0 <= j < |vs| ==> Severity(vs[i].category) <= Severity(vs[j].category)
    ensures forall j :: 0 <= j < i ==> Severity(vs[i].category) < Severity(vs[j].category)
  {
    if |vs| == 1 then 0
    else
      var k := FirstMildest(vs[1..]) + 1;
      assert forall j :: 1 <= j < |vs| ==> vs[j] == vs[1..][j - 1];
      if Severity(vs[0].category) <= Severity(vs[k].category) then 0 else k
  }

  /** Index of the first verdict of greatest severity, as Python's max picks it. */
  function FirstHarshest(vs: seq<Verdict>): (i: nat)
    requires vs != []
    ensures i < |vs|
    ensures forall j :: 0 <= j < |vs| ==> Severity(vs[j].category) <= Severity(vs[i].category)
    ensures forall j :: 0 <= j < i ==> Severity(vs[j].category) < Severity(vs[i].category)
  {
    if |vs| == 1 then 0
    else
      var k := FirstHarshest(vs[1..]) + 1;
      assert forall j :: 1 <= j < |vs| ==> vs[j] == vs[1..][j - 1];
      if Severity(vs[k].category) <= Severity(vs[0].category) then 0 else k
  }

  function Flatten<T>(ss: seq<seq<T>>): seq<T> {
    if ss == [] then [] else ss[0] + Flatten(ss[1..])
  }

  function KeysOf(vs: seq<Verdict>): seq<seq<string>> {
    seq(|vs|, i requires 0 <= i < |vs| => vs[i].keys)
  }

  /** The walk of `evaluate`. */
  function Walk(p: Policy, e: Expr): Verdict
    requires WellFormed(e)
  {
    if IsLeaf(e) then Verdict(LeafCategory(p, e), [LeafKey(e)])
    else
      var results := seq(|e.args|, i requires 0 <= i < |e.args| => Walk(p, e.args[i]));
      if e.Or? then results[FirstMildest(results)]
      else Verdict(results[FirstHarshest(results)].category, Flatten(KeysOf(results)))
  }

  function Results(p: Policy, args: seq<Expr>): (rs: seq<Verdict>)
    requires forall a <- args :: WellFormed(a)
    ensures |rs| == |args| && forall i :: 0 <= i < |args| ==> rs[i] == Walk(p, args[i])
  {
    seq(|args|, i requires 0 <= i < |args| => Walk(p, args[i]))
  }

  // ------------------------------------------------------------------ choices

  /** One pick per OR: Take a leaf, take one Branch of an OR, or go on in Every operand of an AND. */
  datatype Choice = Take | Branch(index: nat, sub: Choice) | Every(subs: seq<Choice>)

  predicate Fits(e: Expr, c: Choice) {
    match e
    case Or(args) => c.Branch? && c.index < |args| && Fits(args[c.index], c.sub)
    case And(args) => c.Every? && |c.subs| == |args| && forall i :: 0 <= i < |args| ==> Fits(args[i], c.subs[i])
    case _ => c.Take?
  }

  /** The licences a choice leaves in force. */
  function Selected(e: Expr, c: Choice): (leaves: seq<Expr>)
    requires Fits(e, c)
    ensures forall l <- leaves :: IsLeaf(l)
  {
    match e
    case Or(args) => Selected(args[c.index], c.sub)
    case And(args) =>
      var parts := seq(|args|, i requires 0 <= i < |args| => Selected(args[i], c.subs[i]));
      InFlatten(parts);
      Flatten(parts)
    case _ => [e]
  }

  function Parts(args: seq<Expr>, subs: seq<Choice>): (parts: seq<seq<Expr>>)
    requires |subs| == |args| && forall i :: 0 <= i < |args| ==> Fits(args[i], subs[i])
    ensures |parts| == |args| && forall i :: 0 <= i < |args| ==> parts[i] == Selected(args[i], subs[i])
  {
    seq(|args|, i requires 0 <= i < |args| => Selected(args[i], subs[i]))
  }

  lemma {:induction false} InFlatten<T>(ss: seq<seq<T>>)
    ensures forall x :: x in Flatten(ss) <==> exists i :: 0 <= i < |ss| && x in ss[i]
  {
    if ss != [] {
      InFlatten(ss[1..]);
      assert forall i :: 0 <= i < |ss| - 1 ==> ss[1..][i] == ss[i + 1];
      assert forall x :: (exists i :: 0 <= i < |ss| && x in ss[i])
                         <==> x in ss[0] || exists i :: 0 <= i < |ss[1..]| && x in ss[1..][i];
    }
  }

  predicate AllWithin(p: Policy, leaves: seq<Expr>, s: int)
    requires forall l <- leaves :: IsLeaf(l)
  {
    forall l <- leaves :: Severity(LeafCategory(p, l)) <= s
  }

  function KeysOfLeaves(leaves: seq<Expr>): seq<string>
    requires forall l <- leaves :: IsLeaf(l)
  {
    seq(|leaves|, i requires 0 <= i < |leaves| => LeafKey(leaves[i]))
  }

  /** The choice the walk makes. */
  function BestChoice(p: Policy, e: Expr): (c: Choice)
    requires WellFormed(e)
    ensures Fits(e, c)
  {
    match e
    case Or(args) => var i := FirstMildest(Results(p, args)); Branch(i, BestChoice(p, args[i]))
    case And(args) => Every(seq(|args|, i requires 0 <= i < |args| => BestChoice(p, args[i])))
    case _ => Take
  }

  /** No choice does better than the walk. */
  lemma {:induction false} NoChoiceBeatsWalk(p: Policy, e: Expr, c: Choice, s: int)
    requires WellFormed(e) && Fits(e, c) && AllWithin(p, Selected(e, c), s)
    ensures Severity(Walk(p, e).category) <= s
  {
    match e
    case Or(args) =>
      NoChoiceBeatsWalk(p, args[c.index], c.sub, s);
      var rs := Results(p, args);
      assert Walk(p, e) == rs[FirstMildest(rs)];
    case And(args) =>
      var parts := Parts(args, c.subs);
      assert Selected(e, c) == Flatten(parts);
      InFlatten(parts);
      forall i | 0 <= i < |args|
        ensures Severity(Walk(p, args[i]).category) <= s
      {
        assert forall l <- parts[i] :: l in Flatten(parts);
        NoChoiceBeatsWalk(p, args[i], c.subs[i], s);
      }
      var rs := Results(p, args);
      assert Walk(p, e).category == rs[FirstHarshest(rs)].category;
    case _ => assert Selected(e, c) == [e]; assert e in Selected(e, c);
  }

  /** The walk's own choice stays within the walk's severity. */
  lemma {:induction false} BestChoiceIsWithin(p: Policy, e: Expr)
    requires WellFormed(e)
    ensures AllWithin(p, Selected(e, BestChoice(p, e)), Severity(Walk(p, e).category))
  {
    var c := BestChoice(p, e);
    match e
    case Or(args) =>
      var rs := Results(p, args);
      assert Walk(p, e) == rs[FirstMildest(rs)];
      BestChoiceIsWithin(p, args[c.index]);
    case And(args) =>
      var rs := Results(p, args);
      var parts := Parts(args, c.subs);
      assert Selected(e, c) == Flatten(parts);
      InFlatten(parts);
      forall l | l in Flatten(parts)
        ensures Severity(LeafCategory(p, l)) <= Severity(Walk(p, e).category)
      {
        var i :| 0 <= i < |parts| && l in parts[i];
        BestChoiceIsWithin(p, args[i]);
        assert Walk(p, e).category == rs[FirstHarshest(rs)].category;
        assert c.subs[i] == BestChoice(p, args[i]);
      }
    case _ =>
  }

  /** The keys the walk reports are the keys of the choice it made, in order. */
  lemma {:induction false} KeysAreThoseOfBestChoice(p: Policy, e: Expr)
    requires WellFormed(e)
    ensures Walk(p, e).keys == KeysOfLeaves(Selected(e, BestChoice(p, e)))
  {
    var c := BestChoice(p, e);
    match e
    case Or(args) =>
      var rs := Results(p, args);
      assert Walk(p, e) == rs[FirstMildest(rs)];
      KeysAreThoseOfBestChoice(p, args[c.index]);
    case And(args) =>
      var rs := Results(p, args);
      var parts := Parts(args, c.subs);
      assert Selected(e, c) == Flatten(parts);
      assert Walk(p, e).keys == Flatten(KeysOf(rs));
      forall i | 0 <= i < |args|
        ensures (forall l <- parts[i] :: IsLeaf(l)) && rs[i].keys == KeysOfLeaves(parts[i])
      {
        KeysAreThoseOfBestChoice(p, args[i]);
        assert c.subs[i] == BestChoice(p, args[i]);
      }
      FlattenKeys(parts, KeysOf(rs));
    case _ =>
  }

  lemma {:induction false} FlattenKeys(parts: seq<seq<Expr>>, keys: seq<seq<string>>)
    requires |parts| == |keys|
    requires forall i :: 0 <= i < |parts| ==> forall l <- parts[i] :: IsLeaf(l)
    requires forall i :: 0 <= i < |parts| ==> keys[i] == KeysOfLeaves(parts[i])
    ensures forall l <- Flatten(parts) :: IsLeaf(l)
    ensures Flatten(keys) == KeysOfLeaves(Flatten(parts))
  {
    InFlatten(parts);
    if parts != [] {
      FlattenKeys(parts[1..], keys[1..]);
    }
  }

  /** SPDX specification 2.3, Annex D.4: an expression is as severe as the best pick of
      one alternative per OR makes it. */
  lemma ChoiceTheorem(p: Policy, e: Expr, s: int)
    requires WellFormed(e)
    ensures Severity(Walk(p, e).category) <= s
            <==> exists c :: Fits(e, c) && AllWithin(p, Selected(e, c), s)
  {
    if Severity(Walk(p, e).category) <= s {
      BestChoiceIsWithin(p, e);
      var best := BestChoice(p, e);
      assert Fits(e, best) && AllWithin(p, Selected(e, best), s);
    } else if exists c :: Fits(e, c) && AllWithin(p, Selected(e, c), s) {
      var c :| Fits(e, c) && AllWithin(p, Selected(e, c), s);
      NoChoiceBeatsWalk(p, e, c, s);
      assert false;
    }
  }

  /** The reported keys belong to a choice whose worst licence has exactly the reported severity. */
  lemma ReportedKeysAreAWitness(p: Policy, e: Expr)
    requires WellFormed(e)
    ensures exists c :: Fits(e, c) && Walk(p, e).keys == KeysOfLeaves(Selected(e, c))
                        && AllWithin(p, Selected(e, c), Severity(Walk(p, e).category))
                        && exists l <- Selected(e, c) :: LeafCategory(p, l) == Walk(p, e).category
  {
    var c := BestChoice(p, e);
    BestChoiceIsWithin(p, e);
    KeysAreThoseOfBestChoice(p, e);
    var w := Worst(p, Selected(e, c), e, c);
  }

  /** A leaf of the choice that has the walk's category. */
  lemma Worst(p: Policy, leaves: seq<Expr>, e: Expr, c: Choice) returns (l: Expr)
    requires WellFormed(e) && c == BestChoice(p, e) && leaves == Selected(e, c)
    ensures l in leaves && IsLeaf(l) && LeafCategory(p, l) == Walk(p, e).category
  {
    hide Walk, Selected, LeafCategory, WellFormed, BestChoice, Fits;
    var sev: int := Severity(Walk(p, e).category);
    if forall x <- leaves :: Severity(LeafCategory(p, x)) <= sev - 1 {
      assert AllWithin(p, leaves, sev - 1);
      NoChoiceBeatsWalk(p, e, c, sev - 1);
      assert false;
    }
    l :| l in leaves && !(Severity(LeafCategory(p, l)) <= sev - 1);
    BestChoiceIsWithin(p, e);
  }

  // ------------------------------------------------------------------ decisions

  datatype Decision = Allow | Conditional | Deny

  /** Lower is better for whoever wants to ship the package. */
  function Rank(d: Decision): nat {
    match d case Allow => 0 case Conditional => 1 case Deny => 2
  }

  /** Where a package may be used: osPackage says it comes from the distribution, hosted
      that the context is the hosted image. */
  datatype Use = Use(osPackage: bool, hosted: bool)

  /** `decide` on the categories an expression can evaluate to. */
  function Decide(c: Category, u: Use): Decision {
    if c == Permissive then Allow
    else if c == Agpl || c == SourceAvailable then Deny
    else if c == WeakCopyleft then Conditional
    else if u.osPackage && u.hosted then
      if c == Lgpl || c == Gpl || c == Unknown then Conditional else Deny
    else Deny
  }

  /** Decision for the licences in force: the one of the harshest of them. */
  predicate ChoiceGets(p: Policy, e: Expr, c: Choice, u: Use, d: Decision)
  {
    Fits(e, c) && exists l <- Selected(e, c) ::
                    AllWithin(p, Selected(e, c), Severity(LeafCategory(p, l))) && Decide(LeafCategory(p, l), u) == d
  }

  /** The gate's decision is one a choice gets and none gets a better one. */
  ghost predicate DecidesBest(p: Policy, e: Expr, u: Use)
    requires WellFormed(e)
  {
    var d := Decide(Walk(p, e).category, u);
    (exists c :: ChoiceGets(p, e, c, u, d))
    && forall c, d' :: ChoiceGets(p, e, c, u, d') ==> Rank(d) <= Rank(d')
  }

  lemma GateGetsItsDecision(p: Policy, e: Expr, u: Use)
    requires WellFormed(e)
    ensures ChoiceGets(p, e, BestChoice(p, e), u, Decide(Walk(p, e).category, u))
  {
    var c := BestChoice(p, e);
    var l := Worst(p, Selected(e, c), e, c);
    BestChoiceIsWithin(p, e);
  }

  /** Every licence in force under the choice is of one of the categories. */
  predicate InForceOf(p: Policy, e: Expr, c: Choice, allowed: set<Category>) {
    Fits(e, c) && forall l <- Selected(e, c) :: LeafCategory(p, l) in allowed
  }

  lemma WithinIsInForce(p: Policy, e: Expr, c: Choice, s: int, allowed: set<Category>)
    requires forall k: Category :: k in allowed <==> Severity(k) <= s
    ensures InForceOf(p, e, c, allowed) <==> Fits(e, c) && AllWithin(p, Selected(e, c), s)
  {
    hide Selected, LeafCategory, Fits;
  }

  ghost predicate CanBeMet(p: Policy, e: Expr, allowed: set<Category>) { exists c :: InForceOf(p, e, c, allowed) }

  lemma MetWhenWithin(p: Policy, e: Expr, s: int, allowed: set<Category>)
    requires WellFormed(e) && forall k: Category :: k in allowed <==> Severity(k) <= s
    ensures CanBeMet(p, e, allowed) <==> Severity(Walk(p, e).category) <= s
  {
    hide Walk, Selected, LeafCategory, Fits, WellFormed, InForceOf;
    ChoiceTheorem(p, e, s);
    if CanBeMet(p, e, allowed) {
      var c :| InForceOf(p, e, c, allowed);
      WithinIsInForce(p, e, c, s, allowed);
    }
    if Severity(Walk(p, e).category) <= s {
      var c :| Fits(e, c) && AllWithin(p, Selected(e, c), s);
      WithinIsInForce(p, e, c, s, allowed);
    }
  }

  /** The gate's three answers in the licences a licensee can choose: allowed if permissive ones do; otherwise
      conditional if those and weak copyleft do; otherwise denied, except that a distribution package in the hosted
      image is conditional too if adding LGPL and GPL helps, or if no choice is free of unknown licences. */
  lemma GateAnswers(p: Policy, e: Expr, u: Use)
    requires WellFormed(e)
    ensures var d := Decide(Walk(p, e).category, u);
            && (d == Allow <==> CanBeMet(p, e, {Permissive}))
            && (d != Deny <==> || CanBeMet(p, e, {Permissive, WeakCopyleft})
                               || (u.osPackage && u.hosted &&
                                   (CanBeMet(p, e, {Permissive, WeakCopyleft, Lgpl, Gpl})
                                    || !CanBeMet(p, e, {Permissive, WeakCopyleft, Lgpl, Gpl, Agpl, SourceAvailable, Proprietary}))))
  {
    MetWhenWithin(p, e, 0, {Permissive});
    MetWhenWithin(p, e, 1, {Permissive, WeakCopyleft});
    MetWhenWithin(p, e, 3, {Permissive, WeakCopyleft, Lgpl, Gpl});
    MetWhenWithin(p, e, 6, {Permissive, WeakCopyleft, Lgpl, Gpl, Agpl, SourceAvailable, Proprietary});
    hide Walk, WellFormed, CanBeMet;
  }

  predicate NoUnknown(p: Policy, e: Expr) {
    match e
    case Or(args) => forall a <- args :: NoUnknown(p, a)
    case And(args) => forall a <- args :: NoUnknown(p, a)
    case _ => LeafCategory(p, e) != Unknown
  }

  lemma {:induction false} SelectedHasNoUnknown(p: Policy, e: Expr, c: Choice)
    requires NoUnknown(p, e) && Fits(e, c)
    ensures forall l <- Selected(e, c) :: LeafCategory(p, l) != Unknown
  {
    match e
    case Or(args) => SelectedHasNoUnknown(p, args[c.index], c.sub);
    case And(args) =>
      var parts := Parts(args, c.subs);
      assert Selected(e, c) == Flatten(parts);
      InFlatten(parts);
      forall l | l in Flatten(parts) ensures LeafCategory(p, l) != Unknown {
        var i :| 0 <= i < |parts| && l in parts[i];
        SelectedHasNoUnknown(p, args[i], c.subs[i]);
      }
    case _ =>
  }

  lemma NoChoiceDecidesBetter(p: Policy, e: Expr, c: Choice, u: Use, d: Decision)
    requires WellFormed(e) && ChoiceGets(p, e, c, u, d)
    requires !(u.osPackage && u.hosted) || NoUnknown(p, e)
    ensures Rank(Decide(Walk(p, e).category, u)) <= Rank(d)
  {
    hide Walk, Selected, LeafCategory, NoUnknown, WellFormed;
    var l :| l in Selected(e, c) && AllWithin(p, Selected(e, c), Severity(LeafCategory(p, l)))
             && Decide(LeafCategory(p, l), u) == d;
    NoChoiceBeatsWalk(p, e, c, Severity(LeafCategory(p, l)));
    if u.osPackage && u.hosted {
      SelectedHasNoUnknown(p, e, c);
    }
  }

  /** Away from hosted distribution packages, or without unknown licences, the gate decides best. */
  lemma DecidesBestWithoutUnknown(p: Policy, e: Expr, u: Use)
    requires WellFormed(e)
    requires !(u.osPackage && u.hosted) || NoUnknown(p, e)
    ensures DecidesBest(p, e, u)
  {
    GateGetsItsDecision(p, e, u);
    forall c, d | ChoiceGets(p, e, c, u, d)
      ensures Rank(Decide(Walk(p, e).category, u)) <= Rank(d)
    {
      NoChoiceDecidesBetter(p, e, c, u, d);
    }
  }

  /** An expression with an unknown licence leaves it in force under some choice. */
  lemma {:induction false} UnknownChoice(p: Policy, e: Expr) returns (c: Choice, l: Expr)
    requires WellFormed(e) && !NoUnknown(p, e)
    ensures Fits(e, c) && l in Selected(e, c) && LeafCategory(p, l) == Unknown
  {
    match e
    case Or(args) =>
      var i :| 0 <= i < |args| && !NoUnknown(p, args[i]);
      var sub;
      sub, l := UnknownChoice(p, args[i]);
      c := Branch(i, sub);
    case And(args) =>
      var i :| 0 <= i < |args| && !NoUnknown(p, args[i]);
      var sub;
      sub, l := UnknownChoice(p, args[i]);
      var subs := seq(|args|, j requires 0 <= j < |args| => if j == i then sub else BestChoice(p, args[j]));
      c := Every(subs);
      assert l in Parts(args, subs)[i];
      InFlatten(Parts(args, subs));
      assert Selected(e, c) == Flatten(Parts(args, subs));
    case _ =>
      c, l := Take, e;
      assert Selected(e, c) == [e];
  }

  lemma UnknownIsConditional(p: Policy, e: Expr, u: Use) returns (c: Choice)
    requires WellFormed(e) && !NoUnknown(p, e) && u.osPackage && u.hosted
    ensures ChoiceGets(p, e, c, u, Conditional)
  {
    hide Walk, Selected, LeafCategory, NoUnknown, WellFormed, Fits;
    var l;
    c, l := UnknownChoice(p, e);
    assert AllWithin(p, Selected(e, c), Severity(Unknown));
  }

  /** The categories that are denied in the hosted image although an unknown licence is not. */
  predicate MilderButDenied(c: Category) { c.Agpl? || c.SourceAvailable? || c.Proprietary? }

  /** Severity and decision disagree in one place: on a hosted distribution package an unknown licence is
      conditional although milder categories are denied. So the gate decides best unless the package is of
      that kind, some choice runs into an unknown licence, and the walk settles on one of the denied
      categories. */
  lemma DecidesBestExactly(p: Policy, e: Expr, u: Use)
    requires WellFormed(e)
    ensures DecidesBest(p, e, u)
            <==> !(u.osPackage && u.hosted) || NoUnknown(p, e) || !MilderButDenied(Walk(p, e).category)
  {
    hide Walk, NoUnknown, WellFormed, ChoiceGets;
    var best := Walk(p, e).category;
    if !(u.osPackage && u.hosted) || NoUnknown(p, e) {
      DecidesBestWithoutUnknown(p, e, u);
    } else if MilderButDenied(best) {
      var c := UnknownIsConditional(p, e, u);
    } else {
      GateGetsItsDecision(p, e, u);
      forall c, d | ChoiceGets(p, e, c, u, d) ensures Rank(Decide(best, u)) <= Rank(d) {
        ConditionalIsBest(p, e, c, u, d);
      }
    }
  }

  /** Nothing better than a conditional use is to be had where the walk does not find a permissive licence. */
  lemma ConditionalIsBest(p: Policy, e: Expr, c: Choice, u: Use, d: Decision)
    requires WellFormed(e) && ChoiceGets(p, e, c, u, d)
    requires u.osPackage && u.hosted && !MilderButDenied(Walk(p, e).category)
    ensures Rank(Decide(Walk(p, e).category, u)) <= Rank(d)
  {
    hide Walk, Selected, LeafCategory, WellFormed;
    var l :| l in Selected(e, c) && AllWithin(p, Selected(e, c), Severity(LeafCategory(p, l)))
             && Decide(LeafCategory(p, l), u) == d;
    NoChoiceBeatsWalk(p, e, c, Severity(LeafCategory(p, l)));
  }

  lemma {:induction false} LengthBound(s: set<string>) returns (n: nat)
    ensures forall x <- s :: |x| <= n
  {
    n := 0;
    if s != {} {
      var x :| x in s;
      n := LengthBound(s - {x});
      assert s == s - {x} + {x};
      n := if |x| > n then |x| else n;
    }
  }

  /** The policy lists finitely many keys, so some key of any family is left to its prefix. */
  lemma SomeUnlistedKey(p: Policy, prefix: string) returns (k: string)
    requires Lower(prefix) == prefix
    ensures prefix <= Lower(k)
    ensures forall c :: Lower(k) !in p.Listed(c)
  {
    var listed := set c, x | c in p.categories && x in p.categories[c] :: x;
    var n := LengthBound(listed);
    k := prefix + seq(n + 1, _ => 'x');
    assert |Lower(k)| == n + 1 + |prefix|;
    assert Lower(k)[..|prefix|] == prefix;
    forall c ensures Lower(k) !in p.Listed(c) {
      assert c in p.categories ==> forall x <- p.categories[c] :: x in listed;
    }
  }

  lemma AgplAndUnknownKeys(p: Policy) returns (a: string, x: string)
    ensures CategoryOfKey(p, a) == Agpl && CategoryOfKey(p, x) == Unknown
  {
    hide CategoryOfKey;
    a := SomeUnlistedKey(p, "agpl-");
    x := SomeUnlistedKey(p, "x");
    UnlistedKeyIsPlacedByPrefix(p, a);
    UnlistedKeyIsPlacedByPrefix(p, x);
    assert Lower(x)[0] == 'x';
  }

  lemma EitherIsAgpl(p: Policy, a: string, x: string)
    requires CategoryOfKey(p, a) == Agpl && CategoryOfKey(p, x) == Unknown
    ensures var e := Or([License(a), License(x)]); Parsed(e) && Walk(p, e).category == Agpl && !NoUnknown(p, e)
  {
    hide CategoryOfKey;
    var e := Or([License(a), License(x)]);
    assert Parsed(License(a)) && Parsed(License(x));
    var rs := Results(p, e.args);
    assert rs[0].category == Agpl && rs[1].category == Unknown;
    assert Walk(p, e) == rs[FirstMildest(rs)];
    assert !NoUnknown(p, e.args[1]);
  }

  /** A choice between a licence of the AGPL family and one the policy does not know is denied, and the
      other choice would have been conditional. */
  lemma HostedCounterexample(p: Policy, u: Use) returns (e: Expr)
    requires u.osPackage && u.hosted
    ensures Parsed(e) && !DecidesBest(p, e, u)
    ensures e.Or? && |e.args| == 2 && e.args[0].License? && e.args[1].License?
  {
    hide Walk, NoUnknown, WellFormed, Parsed, DecidesBest;
    var a, x := AgplAndUnknownKeys(p);
    e := Or([License(a), License(x)]);
    EitherIsAgpl(p, a, x);
    DecidesBestExactly(p, e, u);
  }

  /** So the gate decides best on everything the parser can build exactly when the package is not a
      distribution package in the hosted image. */
  lemma DecidesBestOnEveryExpression(p: Policy, u: Use)
    ensures (forall e :: Parsed(e) ==> DecidesBest(p, e, u)) <==> !(u.osPackage && u.hosted)
  {
    if u.osPackage && u.hosted {
      var e := HostedCounterexample(p, u);
    } else {
      hide DecidesBest, Parsed, WellFormed;
      forall e | Parsed(e) ensures DecidesBest(p, e, u) { DecidesBestExactly(p, e, u); }
    }
  }
}

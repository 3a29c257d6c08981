/** Which listener an event belongs to: the ownership registry of kazenai/integrations/crewai.py. Objects,
    listeners and crews are known by their ids; every section under the listener lock is one step. */
module CrewOwnership {
  import opened Wrappers

  function OwnersOf(owners: map<nat, set<nat>>, o: nat): set<nat> { if o in owners then owners[o] else {} }

  predicate Listed(owners: map<nat, set<nat>>, o: nat, l: nat) { l in OwnersOf(owners, o) }

  predicate Owns(owned: map<nat, set<nat>>, l: nat, o: nat) { l in owned && o in owned[l] }

  /** owners is _OWNERSHIP; owned holds every live listener's own _owned_ids. Each is the other turned round,
      and the registry keeps no empty entry. */
  ghost predicate Inverse(owners: map<nat, set<nat>>, owned: map<nat, set<nat>>) {
    && (forall o <- owners :: owners[o] != {})
    && (forall o, l :: Listed(owners, o, l) <==> Owns(owned, l, o))
  }

  lemma EntryIsListed(a: map<nat, set<nat>>, b: map<nat, set<nat>>, owned: map<nat, set<nat>>, o: nat)
    requires Inverse(a, owned) && Inverse(b, owned) && o in a
    ensures o in b && a[o] <= b[o]
  {
    forall l | l in a[o] ensures o in b && l in b[o] {
      assert Listed(a, o, l) && Listed(b, o, l);
    }
    var l :| l in a[o];
  }

  /** A registry that is exact is determined by what the listeners own. */
  lemma InverseIsUnique(a: map<nat, set<nat>>, b: map<nat, set<nat>>, owned: map<nat, set<nat>>)
    requires Inverse(a, owned) && Inverse(b, owned)
    ensures a == b
  {
    forall o | o in a ensures o in b && a[o] <= b[o] { EntryIsListed(a, b, owned, o); }
    forall o | o in b ensures o in a && b[o] <= a[o] { EntryIsListed(b, a, owned, o); }
    assert a.Keys == b.Keys;
    forall o | o in a ensures a[o] == b[o] { assert a[o] <= b[o] && b[o] <= a[o]; }
  }

  /** me taken off the owners of every id in gone; an entry left empty goes. */
  function Discarded(owners: map<nat, set<nat>>, me: nat, gone: set<nat>): map<nat, set<nat>> {
    map o | o in owners && !(o in gone && owners[o] - {me} == {}) :: if o in gone then owners[o] - {me} else owners[o]
  }

  /** me put among the owners of every id. */
  function Enlisted(owners: map<nat, set<nat>>, me: nat, ids: set<nat>): map<nat, set<nat>> {
    map o | o in owners.Keys + ids :: if o in ids then OwnersOf(owners, o) + {me} else OwnersOf(owners, o)
  }

  lemma DiscardStep(owners: map<nat, set<nat>>, me: nat, done: set<nat>, o: nat)
    requires o !in done
    ensures var d := Discarded(owners, me, done);
            Discarded(owners, me, done + {o}) ==
              if o !in d then d else if d[o] - {me} == {} then d - {o} else d[o := d[o] - {me}]
  {
    var d, e := Discarded(owners, me, done), Discarded(owners, me, done + {o});
    assert o in d <==> o in owners;
    forall x | x != o ensures (x in e <==> x in d) && (x in e ==> e[x] == d[x]) {
    }
    assert o in owners ==> d[o] == owners[o];
  }

  lemma EnlistStep(owners: map<nat, set<nat>>, me: nat, done: set<nat>, o: nat)
    requires o !in done
    ensures var d := Enlisted(owners, me, done); Enlisted(owners, me, done + {o}) == d[o := OwnersOf(d, o) + {me}]
  {
    var d, e := Enlisted(owners, me, done), Enlisted(owners, me, done + {o});
    assert OwnersOf(d, o) == OwnersOf(owners, o);
    forall x | x != o ensures (x in e <==> x in d) && (x in e ==> e[x] == d[x]) {
    }
  }

  lemma EnlistNone(owners: map<nat, set<nat>>, me: nat)
    ensures Enlisted(owners, me, {}) == owners
  {
    assert owners.Keys + {} == owners.Keys;
  }

  lemma DiscardedLists(owners: map<nat, set<nat>>, me: nat, gone: set<nat>, o: nat, l: nat)
    ensures Listed(Discarded(owners, me, gone), o, l) <==> Listed(owners, o, l) && !(o in gone && l == me)
  {
  }

  lemma EnlistedLists(owners: map<nat, set<nat>>, me: nat, ids: set<nat>, o: nat, l: nat)
    ensures Listed(Enlisted(owners, me, ids), o, l) <==> Listed(owners, o, l) || (o in ids && l == me)
  {
  }

  lemma SetOwnedKeepsInverse(owners: map<nat, set<nat>>, owned: map<nat, set<nat>>, me: nat, newIds: set<nat>)
    requires Inverse(owners, owned) && me in owned
    ensures Inverse(Enlisted(Discarded(owners, me, owned[me] - newIds), me, newIds), owned[me := newIds])
  {
    var mid := Discarded(owners, me, owned[me] - newIds);
    var after := Enlisted(mid, me, newIds);
    forall o, l | true ensures Listed(after, o, l) <==> Owns(owned[me := newIds], l, o) {
      EnlistedLists(mid, me, newIds, o, l);
      DiscardedLists(owners, me, owned[me] - newIds, o, l);
      assert Listed(owners, o, l) <==> Owns(owned, l, o);
    }
    assert forall o <- mid :: mid[o] != {};
    forall o | o in after ensures after[o] != {} {
      if o !in newIds { assert o in mid; } else { assert me in after[o]; }
    }
  }

  lemma ReleaseKeepsInverse(owners: map<nat, set<nat>>, owned: map<nat, set<nat>>, me: nat)
    requires Inverse(owners, owned) && me in owned
    ensures Inverse(Discarded(owners, me, owned[me]), owned - {me})
    ensures forall o <- Discarded(owners, me, owned[me]) :: me !in Discarded(owners, me, owned[me])[o]
  {
    var after := Discarded(owners, me, owned[me]);
    forall o, l | true ensures Listed(after, o, l) <==> Owns(owned - {me}, l, o) {
      DiscardedLists(owners, me, owned[me], o, l);
      assert Listed(owners, o, l) <==> Owns(owned, l, o);
    }
    forall o | o in after ensures me !in after[o] {
      assert Listed(after, o, me) <==> Owns(owned - {me}, me, o);
    }
  }

  class Registry {
    var owners: map<nat, set<nat>>
    var owned: map<nat, set<nat>>

    ghost predicate Valid()
      reads this
    {
      Inverse(owners, owned)
    }

    constructor ()
      ensures Valid() && owned == map[]
    {
      owners, owned := map[], map[];
    }

    /** A new listener owns nothing; an id is reused only after its listener was released. */
    method Add(me: nat)
      requires Valid() && me !in owned
      modifies this
      ensures Valid() && owned == old(owned)[me := {}]
    {
      assert forall o, l :: Owns(owned, l, o) <==> Owns(owned[me := {}], l, o);
      owned := owned[me := {}];
    }

    method Discard(me: nat, gone: set<nat>)
      modifies this`owners
      ensures owners == Discarded(old(owners), me, gone)
    {
      var todo := gone;
      assert Discarded(owners, me, {}) == owners;
      while todo != {}
        invariant todo <= gone && owners == Discarded(old(owners), me, gone - todo)
        decreases |todo|
      {
        var o :| o in todo;
        assert gone - (todo - {o}) == (gone - todo) + {o};
        DiscardStep(old(owners), me, gone - todo, o);
        if o in owners {
          var rest := owners[o] - {me};
          owners := if rest == {} then owners - {o} else owners[o := rest];
        }
        todo := todo - {o};
      }
      assert gone - todo == gone;
    }

    method Enlist(me: nat, ids: set<nat>)
      modifies this`owners
      ensures owners == Enlisted(old(owners), me, ids)
    {
      hide Enlisted;
      var todo := ids;
      EnlistNone(owners, me);
      assert ids - todo == {};
      while todo != {}
        invariant todo <= ids && owners == Enlisted(old(owners), me, ids - todo)
        decreases |todo|
      {
        var o :| o in todo;
        assert ids - (todo - {o}) == (ids - todo) + {o};
        EnlistStep(old(owners), me, ids - todo, o);
        owners := owners[o := OwnersOf(owners, o) + {me}];
        todo := todo - {o};
      }
      assert ids - todo == ids;
    }

    /** Bind, refresh and clear: the listener owns exactly newIds, no other listener's objects change hands. */
    method SetOwned(me: nat, newIds: set<nat>)
      requires Valid() && me in owned
      modifies this
      ensures Valid() && owned == old(owned)[me := newIds]
    {
      SetOwnedKeepsInverse(owners, owned, me, newIds);
      Discard(me, owned[me] - newIds);
      Enlist(me, newIds);
      owned := owned[me := newIds];
    }

    /** The finalizer of a collected listener. */
    method Release(me: nat)
      requires Valid() && me in owned
      modifies this
      ensures Valid() && owned == old(owned) - {me}
      ensures forall o <- owners :: me !in owners[o]
    {
      ReleaseKeepsInverse(owners, owned, me);
      Discard(me, owned[me]);
      owned := owned - {me};
    }
  }

  /** More than one listener owns the object. */
  ghost predicate InManyGraphs(owned: map<nat, set<nat>>, o: nat) {
    exists l, k :: l != k && Owns(owned, l, o) && Owns(owned, k, o)
  }

  lemma SharedMeansManyGraphs(owners: map<nat, set<nat>>, owned: map<nat, set<nat>>, o: nat)
    requires Inverse(owners, owned)
    ensures |OwnersOf(owners, o)| > 1 <==> InManyGraphs(owned, o)
  {
    var s := OwnersOf(owners, o);
    if |s| > 1 {
      var l :| l in s;
      MoreThanOne(s, l);
      var k :| k in s && k != l;
      assert Listed(owners, o, l) && Listed(owners, o, k);
    }
    if InManyGraphs(owned, o) {
      var l, k :| l != k && Owns(owned, l, o) && Owns(owned, k, o);
      assert Listed(owners, o, l) && Listed(owners, o, k);
      if |s| <= 1 { AtMostOne(s, l, k); }
    }
  }

  lemma MoreThanOne(s: set<nat>, l: nat)
    requires l in s && |s| > 1
    ensures exists k :: k in s && k != l
  {
    if forall k :: k in s ==> k == l {
      SubsetIsSmaller(s, {l});
    }
  }

  lemma AtMostOne(s: set<nat>, l: nat, k: nat)
    requires l in s && k in s && |s| <= 1
    ensures l == k
  {
    if l != k {
      assert {l, k} <= s;
      SubsetIsSmaller({l, k}, s);
    }
  }

  lemma {:induction false} SubsetIsSmaller(a: set<nat>, b: set<nat>)
    requires a <= b
    ensures |a| <= |b|
    decreases a
  {
    if a != {} {
      var x :| x in a;
      SubsetIsSmaller(a - {x}, b - {x});
    }
  }

  // ------------------------------------------------------------------ whose event it is

  /** A candidate object of an event: its id and its .crew, if it has one. */
  datatype Candidate = Candidate(id: nat, crew: Option<nat>)

  /** What an event refers to: its source first, then its agents and tasks, and their string ids. */
  datatype Event = Event(source: Option<nat>, candidates: seq<Candidate>, keys: set<string>)

  /** A listener as the check sees it; the crew itself is in its own graph. */
  datatype Listener = Listener(id: nat, crew: Option<nat>, ids: set<nat>, keys: set<string>)

  function Claim(l: Listener, owners: map<nat, set<nat>>, inOwnScope: bool, cs: seq<Candidate>): bool
    requires l.crew.Some?
  {
    cs != [] &&
    if cs[0].id in l.ids then
      (|OwnersOf(owners, cs[0].id)| <= 1 || inOwnScope) || Claim(l, owners, inOwnScope, cs[1..])
    else cs[0].crew == l.crew || Claim(l, owners, inOwnScope, cs[1..])
  }

  predicate OwnsEvent(l: Listener, owners: map<nat, set<nat>>, scope: Option<nat>, e: Event) {
    && l.crew.Some?
    && (scope.None? || scope == l.crew)
    && (|| (e.source.Some? && e.source == l.crew)
        || Claim(l, owners, scope == l.crew, e.candidates)
        || (exists k <- e.keys :: k in l.keys)
        || scope == l.crew)
  }

  /** Under a kickoff, exactly the listeners of the crew kicked off own what is emitted. */
  lemma KickoffEventsAreTheCrews(l: Listener, owners: map<nat, set<nat>>, crew: nat, e: Event)
    ensures OwnsEvent(l, owners, Some(crew), e) <==> l.crew == Some(crew)
  {
  }

  /** The listener is one of the registered ones, and its crew is part of its own graph. */
  predicate Registered(owned: map<nat, set<nat>>, l: Listener) {
    l.id in owned && owned[l.id] == l.ids && l.crew.Some? && l.crew.value in l.ids
  }

  /** The object is in this listener's graph and in no other. */
  ghost predicate OnlyIn(owned: map<nat, set<nat>>, l: Listener, o: nat) {
    o in l.ids && forall k <- owned :: o in owned[k] ==> k == l.id
  }

  /** What makes an object's event the listener's: the object is its own alone, or is in its graph not at all
      but names its crew. */
  ghost predicate Mine(owned: map<nat, set<nat>>, l: Listener, c: Candidate) {
    OnlyIn(owned, l, c.id) || (c.id !in l.ids && c.crew == l.crew)
  }

  lemma UnsharedIsOnlyIn(owners: map<nat, set<nat>>, owned: map<nat, set<nat>>, l: Listener, o: nat)
    requires Inverse(owners, owned) && Registered(owned, l)
    ensures OnlyIn(owned, l, o) <==> o in l.ids && |OwnersOf(owners, o)| <= 1
  {
    SharedMeansManyGraphs(owners, owned, o);
    assert Owns(owned, l.id, o) <==> o in l.ids;
    if o in l.ids && !InManyGraphs(owned, o) {
      forall k | k in owned && o in owned[k] ensures k == l.id { assert Owns(owned, k, o); }
    }
    if InManyGraphs(owned, o) {
      var i, k :| i != k && Owns(owned, i, o) && Owns(owned, k, o);
      assert i != l.id || k != l.id;
    }
  }

  lemma {:induction false} ClaimIsMine(owners: map<nat, set<nat>>, owned: map<nat, set<nat>>, l: Listener, cs: seq<Candidate>)
    requires Inverse(owners, owned) && Registered(owned, l)
    ensures Claim(l, owners, false, cs) <==> exists c <- cs :: Mine(owned, l, c)
  {
    if cs != [] {
      UnsharedIsOnlyIn(owners, owned, l, cs[0].id);
      ClaimIsMine(owners, owned, l, cs[1..]);
      assert cs == [cs[0]] + cs[1..];
      assert (exists c <- cs :: Mine(owned, l, c)) <==> Mine(owned, l, cs[0]) || exists c <- cs[1..] :: Mine(owned, l, c) by {
        assert cs[0] in cs && forall c <- cs[1..] :: c in cs;
      }
    }
  }

  /** Any event outside a kickoff: it is the listener's exactly if its source is the listener's crew, one of
      the objects it names is the listener's, or one of its keys is. A key is not asked whether several crews
      have it. */
  lemma EventOwner(owners: map<nat, set<nat>>, owned: map<nat, set<nat>>, l: Listener, e: Event)
    requires Inverse(owners, owned) && Registered(owned, l)
    ensures OwnsEvent(l, owners, None, e)
            <==> e.source == l.crew || (exists c <- e.candidates :: Mine(owned, l, c)) || (exists k <- e.keys :: k in l.keys)
  {
    ClaimIsMine(owners, owned, l, e.candidates);
  }

  /** An event that names only its source, outside any kickoff: it is the listener's if the source is its crew,
      or an object in its graph and in no other. */
  lemma SourceEventOwner(owners: map<nat, set<nat>>, owned: map<nat, set<nat>>, l: Listener, s: nat)
    requires Inverse(owners, owned) && Registered(owned, l)
    ensures OwnsEvent(l, owners, None, Event(Some(s), [Candidate(s, None)], {}))
       <==> l.crew == Some(s) || (s in l.ids && forall k <- owned :: s in owned[k] ==> k == l.id)
  {
    var e := Event(Some(s), [Candidate(s, None)], {});
    EventOwner(owners, owned, l, e);
    assert Candidate(s, None) in e.candidates;
  }

  /** Two listeners of different crews own one event about a single object only if the object names the crew
      of one of them while it is missing from that crew's graph. */
  lemma ObjectEventHasOneCrew(owners: map<nat, set<nat>>, owned: map<nat, set<nat>>, a: Listener, b: Listener, s: nat, crew: Option<nat>)
    requires Inverse(owners, owned) && Registered(owned, a) && Registered(owned, b) && a.id != b.id
    requires crew == a.crew ==> s in a.ids
    requires crew == b.crew ==> s in b.ids
    requires OwnsEvent(a, owners, None, Event(Some(s), [Candidate(s, crew)], {}))
    requires OwnsEvent(b, owners, None, Event(Some(s), [Candidate(s, crew)], {}))
    ensures a.crew == b.crew == Some(s)
  {
    EventOwner(owners, owned, a, Event(Some(s), [Candidate(s, crew)], {}));
    EventOwner(owners, owned, b, Event(Some(s), [Candidate(s, crew)], {}));
  }

  /** So two listeners that both own an event about its source alone are bound to one crew. */
  lemma SourceEventHasOneCrew(owners: map<nat, set<nat>>, owned: map<nat, set<nat>>, a: Listener, b: Listener, s: nat)
    requires Inverse(owners, owned) && Registered(owned, a) && Registered(owned, b) && a.id != b.id
    requires OwnsEvent(a, owners, None, Event(Some(s), [Candidate(s, None)], {}))
    requires OwnsEvent(b, owners, None, Event(Some(s), [Candidate(s, None)], {}))
    ensures a.crew == b.crew == Some(s)
  {
    ObjectEventHasOneCrew(owners, owned, a, b, s, None);
  }

  /** Keys are not exclusive: two crews whose graphs share no object, but have an agent key in common, both
      own an event that names the agent by that key. */
  lemma SharedKeyHasTwoOwners(key: string)
    ensures var owners, owned := map[1 := {10}, 2 := {20}], map[10 := {1}, 20 := {2}];
            var a, b := Listener(10, Some(1), {1}, {key}), Listener(20, Some(2), {2}, {key});
            var e := Event(None, [], {key});
            && Inverse(owners, owned) && Registered(owned, a) && Registered(owned, b)
            && a.crew != b.crew && a.ids !! b.ids
            && OwnsEvent(a, owners, None, e) && OwnsEvent(b, owners, None, e)
  {
    var owners, owned: map<nat, set<nat>> := map[1 := {10}, 2 := {20}], map[10 := {1}, 20 := {2}];
    var a, b := Listener(10, Some(1), {1}, {key}), Listener(20, Some(2), {2}, {key});
    var e := Event(None, [], {key});
    forall o: nat, l: nat | true ensures Listed(owners, o, l) <==> Owns(owned, l, o) {
    }
    assert key in e.keys;
  }
}

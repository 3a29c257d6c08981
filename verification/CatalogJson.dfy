/** The JSON values a catalog document is made of, and the checks its parser builds on:
    kazenai/catalog_document.py. An object's entries keep their order; a parsed object's keys are distinct. */
module CatalogJson {
  import opened Wrappers
  import opened Decimals
  import opened Text

  datatype Json =
    | Null
    | Bool(b: bool)
    | Int(n: int)
    | Float(isZero: bool)
    | Str(s: string)
    | List(items: seq<Json>)
    | Obj(entries: seq<Entry>)

  datatype Entry = Entry(key: string, value: Json)

  /** One error stands for every message of CatalogDocumentError. */
  datatype DocumentError = Refused

  type Parsed<T> = Result<T, DocumentError>

  /** How decimal text and instants read; a text that is neither is None. */
  datatype Readers = Readers(decimal: string -> Option<Dec>, instant: string -> Option<int>)

  /** Plain decimal notation reads as what it says. */
  ghost predicate ReadsPlain(r: Readers) {
    forall s: string :: ReadPlain(s).Some? ==> r.decimal(s) == ReadPlain(s)
  }

  function Get(entries: seq<Entry>, key: string): Json {
    if entries == [] then Null else if entries[0].key == key then entries[0].value else Get(entries[1..], key)
  }

  predicate Has(entries: seq<Entry>, key: string) { exists i :: 0 <= i < |entries| && entries[i].key == key }

  /** An object with no unknown and no missing field. */
  function ExactKeys(node: Json, allowed: seq<string>, required: seq<string>): (r: Parsed<seq<Entry>>)
    ensures r.Ok? ==> node.Obj? && r.value == node.entries
  {
    if node.Obj? && (forall e <- node.entries :: e.key in allowed) && (forall k <- required :: Has(node.entries, k)) then Ok(node.entries)
    else Err(Refused)
  }

  ghost predicate Distinct(names: seq<string>) { forall i, j :: 0 <= i < j < |names| ==> names[i] != names[j] }

  function Fields(names: seq<string>, values: seq<Json>): (es: seq<Entry>)
    requires |names| == |values|
    ensures |es| == |names| && forall i :: 0 <= i < |es| ==> es[i] == Entry(names[i], values[i])
  {
    seq(|names|, i requires 0 <= i < |names| => Entry(names[i], values[i]))
  }

  /** Leaves out those of the named fields that are null. */
  function Omit(es: seq<Entry>, names: set<string>): seq<Entry> {
    if es == [] then []
    else (if es[0].key in names && es[0].value.Null? then [] else [es[0]]) + Omit(es[1..], names)
  }

  lemma {:induction false} AbsentIsNull(es: seq<Entry>, key: string)
    requires forall i :: 0 <= i < |es| ==> es[i].key != key
    ensures Get(es, key) == Null
  {
    if es != [] { AbsentIsNull(es[1..], key); }
  }

  lemma {:induction false} GetIs(es: seq<Entry>, i: nat)
    requires i < |es| && forall j :: 0 <= j < i ==> es[j].key != es[i].key
    ensures Get(es, es[i].key) == es[i].value
  {
    if i > 0 { GetIs(es[1..], i - 1); }
  }

  lemma {:induction false} OmitGets(es: seq<Entry>, names: set<string>, key: string)
    requires forall i, j :: 0 <= i < j < |es| ==> es[i].key != es[j].key
    ensures Get(Omit(es, names), key) == Get(es, key)
    ensures forall e <- Omit(es, names) :: e in es
  {
    if es != [] {
      OmitGets(es[1..], names, key);
      var rest := Omit(es[1..], names);
      assert es == [es[0]] + es[1..];
      if es[0].key in names && es[0].value.Null? {
        assert Omit(es, names) == rest;
        if es[0].key == key { AbsentIsNull(es[1..], key); }
      } else {
        var all := [es[0]] + rest;
        assert Omit(es, names) == all && all[0] == es[0] && all[1..] == rest;
      }
    }
  }

  lemma OmitKeepsGet(es: seq<Entry>, names: set<string>, key: string)
    requires forall i, j :: 0 <= i < j < |es| ==> es[i].key != es[j].key
    ensures Get(Omit(es, names), key) == Get(es, key)
    ensures forall e <- Omit(es, names) :: e in es
    ensures key !in names && Has(es, key) ==> Has(Omit(es, names), key)
  {
    OmitGets(es, names, key);
    OmitLeavesOutNulls(es, names, key);
  }

  /** An object written field by field reads field by field. */
  lemma FieldIs(names: seq<string>, values: seq<Json>, optional: set<string>, i: nat)
    requires |names| == |values| && Distinct(names) && i < |names|
    ensures Get(Omit(Fields(names, values), optional), names[i]) == values[i]
  {
    GetIs(Fields(names, values), i);
    OmitKeepsGet(Fields(names, values), optional, names[i]);
  }

  /** The values of the named fields, null where there is none. */
  function Read(es: seq<Entry>, names: seq<string>): (vs: seq<Json>)
    ensures |vs| == |names| && forall i :: 0 <= i < |names| ==> vs[i] == Get(es, names[i])
  {
    seq(|names|, i requires 0 <= i < |names| => Get(es, names[i]))
  }

  lemma ReadsBack(names: seq<string>, values: seq<Json>, optional: set<string>)
    requires |names| == |values| && Distinct(names)
    ensures Read(Omit(Fields(names, values), optional), names) == values
  {
    forall i | 0 <= i < |names| ensures Get(Omit(Fields(names, values), optional), names[i]) == values[i] {
      FieldIs(names, values, optional, i);
    }
  }

  lemma FieldsAreExact(names: seq<string>, values: seq<Json>, optional: set<string>, required: seq<string>)
    requires |names| == |values| && Distinct(names) && forall k <- required :: k in names && k !in optional
    ensures var es := Omit(Fields(names, values), optional); ExactKeys(Obj(es), names, required) == Ok(es)
  {
    var fs := Fields(names, values);
    var es := Omit(fs, optional);
    forall k | k in required ensures Has(es, k) {
      var i :| 0 <= i < |names| && names[i] == k;
      assert fs[i].key == k;
      OmitKeepsGet(fs, optional, k);
    }
    OmitKeepsGet(fs, optional, "");
    forall e | e in es ensures e.key in names {
      var i :| 0 <= i < |fs| && fs[i] == e;
      assert names[i] == e.key;
    }
  }

  lemma HasEither(a: seq<Entry>, b: seq<Entry>, key: string)
    ensures Has(a + b, key) <==> Has(a, key) || Has(b, key)
  {
    if i :| 0 <= i < |a| && a[i].key == key { assert (a + b)[i] == a[i]; }
    if i :| 0 <= i < |b| && b[i].key == key { assert (a + b)[|a| + i] == b[i]; }
    if i :| 0 <= i < |a + b| && (a + b)[i].key == key { assert (a + b)[i] == if i < |a| then a[i] else b[i - |a|]; }
  }

  /** There is a field of this name that is not left out. */
  predicate HasKept(es: seq<Entry>, names: set<string>, key: string) {
    exists i :: 0 <= i < |es| && es[i].key == key && !(key in names && es[i].value.Null?)
  }

  lemma {:induction false} OmitLeavesOutNulls(es: seq<Entry>, names: set<string>, key: string)
    ensures Has(Omit(es, names), key) <==> HasKept(es, names, key)
  {
    if es != [] {
      var first := if es[0].key in names && es[0].value.Null? then [] else [es[0]];
      OmitLeavesOutNulls(es[1..], names, key);
      HasEither(first, Omit(es[1..], names), key);
      assert Omit(es, names) == first + Omit(es[1..], names);
      KeptHeadOrTail(es, names, key);
      assert Has(first, key) <==> es[0].key == key && !(key in names && es[0].value.Null?) by {
        if first != [] { assert first[0] == es[0]; }
      }
      hide Omit, Has, HasKept;
    }
  }

  lemma KeptHeadOrTail(es: seq<Entry>, names: set<string>, key: string)
    requires es != []
    ensures HasKept(es, names, key) <==> (es[0].key == key && !(key in names && es[0].value.Null?)) || HasKept(es[1..], names, key)
  {
    var rest := es[1..];
    if HasKept(rest, names, key) {
      var i :| 0 <= i < |rest| && rest[i].key == key && !(key in names && rest[i].value.Null?);
      assert es[i + 1] == rest[i];
    }
    if HasKept(es, names, key) {
      var i :| 0 <= i < |es| && es[i].key == key && !(key in names && es[i].value.Null?);
      if i > 0 { assert rest[i - 1] == es[i]; }
    }
  }

  lemma {:induction false} NothingOmitted(es: seq<Entry>)
    ensures Omit(es, {}) == es
  {
    if es != [] { NothingOmitted(es[1..]); }
  }

  /** coefficient / 10^scale is at least least. */
  function PowerOfTen(n: nat): nat { if n == 0 then 1 else 10 * PowerOfTen(n - 1) }

  /** One followed by that many zeros. */
  lemma {:induction false} PowerIsOneAndZeros(n: nat)
    ensures AllDigits(['1'] + Zeros(n)) && FromDigits(['1'] + Zeros(n)) == PowerOfTen(n)
  {
    var s := ['1'] + Zeros(n);
    if n > 0 {
      PowerIsOneAndZeros(n - 1);
      assert s[..|s| - 1] == ['1'] + Zeros(n - 1) && s[|s| - 1] == '0';
    } else {
      assert s == ['1'] && s[..0] == [];
    }
  }

  predicate AtLeast(d: Dec, least: nat) { d.coefficient >= least * PowerOfTen(d.scale) }

  function ParseDecimal(rd: Readers, node: Json, least: nat): Parsed<Dec> {
    var d := match node
      case Str(s) => rd.decimal(s)
      case Int(n) => Some(Dec(n, 0))
      case _ => None;
    if d.Some? && AtLeast(d.value, least) then Ok(d.value) else Err(Refused)
  }

  function ParseInt(node: Json, least: int): (r: Parsed<int>)
    ensures r.Ok? ==> r.value >= least && node == Int(r.value)
  {
    if node.Int? && node.n >= least then Ok(node.n) else Err(Refused)
  }

  function ParseText(node: Json): Parsed<string> {
    if node.Str? && Strip(node.s) != "" then Ok(Strip(node.s)) else Err(Refused)
  }

  function ParseLowerText(node: Json): Parsed<string> {
    var s :- ParseText(node);
    Ok(Lower(s))
  }

  function ParseInstant(rd: Readers, node: Json): Parsed<Option<string>> {
    if node.Null? then Ok(None)
    else
      var s :- ParseText(node);
      if rd.instant(s).Some? then Ok(Some(s)) else Err(Refused)
  }

  function ParseList<T>(items: seq<Json>, parse: Json -> Parsed<T>): Parsed<seq<T>> {
    if items == [] then Ok([])
    else
      var first :- parse(items[0]);
      var rest :- ParseList(items[1..], parse);
      Ok([first] + rest)
  }

  /** Filling a dictionary from an object's entries, one after the other; a later key overwrites. */
  function ParseDict<T>(entries: seq<Entry>, key: string -> Parsed<string>, parse: Json -> Parsed<T>): Parsed<map<string, T>> {
    if entries == [] then Ok(map[])
    else
      var rest :- ParseDict(entries[..|entries| - 1], key, parse);
      var k :- key(entries[|entries| - 1].key);
      var v :- parse(entries[|entries| - 1].value);
      Ok(rest[k := v])
  }

  function KeyText(k: string): Parsed<string> { ParseText(Str(k)) }

  function KeyLowerText(k: string): Parsed<string> { ParseLowerText(Str(k)) }

  function KeyLower(k: string): Parsed<string> { Ok(Lower(k)) }

  // ------------------------------------------------------------------ writing

  ghost predicate Enumerates<T(!new)>(order: seq<T>, keys: set<T>) {
    && (forall k <- order :: k in keys) && (forall k <- keys :: k in order)
    && forall i, j :: 0 <= i < j < |order| ==> order[i] != order[j]
  }

  function WriteList<T>(items: seq<T>, write: T -> Json): (r: seq<Json>)
    ensures |r| == |items| && forall i :: 0 <= i < |items| ==> r[i] == write(items[i])
  {
    if items == [] then [] else [write(items[0])] + WriteList(items[1..], write)
  }

  /** order lists the dictionary's keys. */
  function WriteDict<T>(m: map<string, T>, order: seq<string>, write: T -> Json): (r: seq<Entry>)
    ensures |r| == |order| && forall i :: 0 <= i < |order| && order[i] in m ==> r[i] == Entry(order[i], write(m[order[i]]))
  {
    if order == [] then []
    else
      var k := order[|order| - 1];
      WriteDict(m, order[..|order| - 1], write) + [Entry(k, if k in m then write(m[k]) else Null)]
  }

  // ------------------------------------------------------------------ round trips

  lemma {:induction false} ListRoundTrips<T>(items: seq<T>, write: T -> Json, parse: Json -> Parsed<T>)
    requires forall x <- items :: parse(write(x)) == Ok(x)
    ensures ParseList(WriteList(items, write), parse) == Ok(items)
  {
    if items != [] {
      assert items[0] in items;
      ListRoundTrips(items[1..], write, parse);
      assert WriteList(items, write)[1..] == WriteList(items[1..], write);
      assert [items[0]] + items[1..] == items;
    }
  }

  function Restrict<T>(m: map<string, T>, keys: seq<string>): map<string, T> { map k | k in m && k in keys :: m[k] }

  lemma {:induction false} DictRoundTripsOn<T>(m: map<string, T>, order: seq<string>, write: T -> Json, key: string -> Parsed<string>, parse: Json -> Parsed<T>)
    requires forall k <- order :: k in m && key(k) == Ok(k) && parse(write(m[k])) == Ok(m[k])
    ensures ParseDict(WriteDict(m, order, write), key, parse) == Ok(Restrict(m, order))
  {
    if order != [] {
      var front, k := order[..|order| - 1], order[|order| - 1];
      assert k in order;
      DictRoundTripsOn(m, front, write, key, parse);
      var es := WriteDict(m, order, write);
      assert es[..|es| - 1] == WriteDict(m, front, write);
      assert order == front + [k];
      assert Restrict(m, order) == Restrict(m, front)[k := m[k]];
    } else {
      assert Restrict(m, order) == map[];
    }
  }

  lemma DictRoundTrips<T>(m: map<string, T>, order: seq<string>, write: T -> Json, key: string -> Parsed<string>, parse: Json -> Parsed<T>)
    requires Enumerates(order, m.Keys)
    requires forall k <- m :: key(k) == Ok(k) && parse(write(m[k])) == Ok(m[k])
    ensures ParseDict(WriteDict(m, order, write), key, parse) == Ok(m)
  {
    DictRoundTripsOn(m, order, write, key, parse);
    assert Restrict(m, order) == m;
  }

  // ------------------------------------------------------------------ what parsing leaves is canonical

  lemma {:induction false} ParsedListIs<T(!new)>(items: seq<Json>, parse: Json -> Parsed<T>, good: T -> bool)
    requires forall j: Json :: parse(j).Ok? ==> good(parse(j).value)
    requires ParseList(items, parse).Ok?
    ensures forall x <- ParseList(items, parse).value :: good(x)
  {
    if items != [] { ParsedListIs(items[1..], parse, good); }
  }

  lemma {:induction false} ParsedDictIs<T(!new)>(entries: seq<Entry>, key: string -> Parsed<string>, parse: Json -> Parsed<T>, goodKey: string -> bool, good: T -> bool)
    requires forall k: string :: key(k).Ok? ==> goodKey(key(k).value)
    requires forall j: Json :: parse(j).Ok? ==> good(parse(j).value)
    requires ParseDict(entries, key, parse).Ok?
    ensures forall k <- ParseDict(entries, key, parse).value :: goodKey(k) && good(ParseDict(entries, key, parse).value[k])
  {
    if entries != [] { ParsedDictIs(entries[..|entries| - 1], key, parse, goodKey, good); }
  }

  // ------------------------------------------------------------------ canonical text

  lemma {:induction false} StripLeavesStripped(s: string)
    ensures Strip(Strip(s)) == Strip(s)
    decreases |s|
  {
    if s != [] {
      if IsSpace(s[0]) { StripLeavesStripped(s[1..]); }
      else if IsSpace(s[|s| - 1]) { StripLeavesStripped(s[..|s| - 1]); }
    }
  }

  lemma {:induction false} StripOfLower(s: string)
    ensures Strip(Lower(s)) == Lower(Strip(s))
    decreases |s|
  {
    if s != [] {
      var l := Lower(s);
      LowerKeepsSpace(s[0]);
      LowerKeepsSpace(s[|s| - 1]);
      if IsSpace(s[0]) {
        assert l[1..] == Lower(s[1..]);
        StripOfLower(s[1..]);
      } else if IsSpace(s[|s| - 1]) {
        assert l[..|l| - 1] == Lower(s[..|s| - 1]);
        StripOfLower(s[..|s| - 1]);
      }
    } else {
      assert Lower(s) == [];
    }
  }

  lemma LowerKeepsSpace(c: char)
    ensures IsSpace(LowerChar(c)) <==> IsSpace(c)
  {
  }

  lemma LowerLeavesLowered(s: string)
    ensures Lower(Lower(s)) == Lower(s)
  {
    assert forall i :: 0 <= i < |s| ==> LowerChar(LowerChar(s[i])) == LowerChar(s[i]);
  }

  predicate IsText(s: string) { s != "" && Strip(s) == s }

  predicate IsLowerText(s: string) { IsText(s) && Lower(s) == s }

  lemma TextIsCanonical(node: Json)
    ensures ParseText(node).Ok? ==> IsText(ParseText(node).value)
    ensures ParseLowerText(node).Ok? ==> IsLowerText(ParseLowerText(node).value)
  {
    if node.Str? {
      StripLeavesStripped(node.s);
      StripOfLower(Strip(node.s));
      LowerLeavesLowered(Strip(node.s));
    }
  }
}

/** Bounding a request by its bytes: _strict_json_bytes, _chat_input_upper_bound and
    _require_chat_below_long_band of kazenai/request_pricing.py, and _estimate_input_tokens of
    kazenai/monitor.py. */
module RequestBytes {
  import opened Wrappers

  /** A request value. Number carries its printed form; Dump an object whose model_dump() gives inner, or fails;
      Opaque anything else, with the bytes of its repr(). */
  datatype Val =
    | Null
    | Bool(b: bool)
    | Number(text: string)
    | Str(s: string)
    | Obj(entries: seq<Entry>)
    | Arr(items: seq<Val>)
    | Dump(inner: Val, reprBytes: nat)
    | Opaque(reprBytes: nat)

  datatype Entry = Entry(key: string, value: Val)

  function Utf8(c: char): nat {
    if c as int < 0x80 then 1 else if c as int < 0x800 then 2 else if c as int < 0x10000 then 3 else 4
  }

  /** The encodings of a code point, section 3 of RFC 3629: a lead byte that says how many follow, six bits in each
      of those, and no longer than it has to be. */
  predicate Encodes(bytes: seq<nat>, n: nat) {
    && (forall i :: 1 <= i < |bytes| ==> 0x80 <= bytes[i] < 0xC0)
    && (|| (|bytes| == 1 && bytes[0] < 0x80 && n == bytes[0])
        || (|bytes| == 2 && 0xC0 <= bytes[0] < 0xE0 && n == (bytes[0] - 0xC0) * 0x40 + (bytes[1] - 0x80) && n >= 0x80)
        || (|bytes| == 3 && 0xE0 <= bytes[0] < 0xF0 && n >= 0x800
            && n == (bytes[0] - 0xE0) * 0x1000 + (bytes[1] - 0x80) * 0x40 + (bytes[2] - 0x80))
        || (|bytes| == 4 && 0xF0 <= bytes[0] < 0xF8 && n >= 0x10000
            && n == (bytes[0] - 0xF0) * 0x40000 + (bytes[1] - 0x80) * 0x1000 + (bytes[2] - 0x80) * 0x40 + (bytes[3] - 0x80)))
  }

  function Encoded(n: nat): seq<nat>
    requires n < 0x11_0000
  {
    if n < 0x80 then [n]
    else if n < 0x800 then [0xC0 + n / 0x40, 0x80 + n % 0x40]
    else if n < 0x10000 then [0xE0 + n / 0x1000, 0x80 + n / 0x40 % 0x40, 0x80 + n % 0x40]
    else [0xF0 + n / 0x40000, 0x80 + n / 0x1000 % 0x40, 0x80 + n / 0x40 % 0x40, 0x80 + n % 0x40]
  }

  lemma SixBits(n: nat)
    ensures n == n / 0x40 * 0x40 + n % 0x40 && n / 0x1000 == n / 0x40 / 0x40 && n / 0x40000 == n / 0x40 / 0x40 / 0x40
  {
  }

  lemma EncodedEncodes(n: nat)
    requires n < 0x11_0000
    ensures Encodes(Encoded(n), n)
  {
    SixBits(n);
    SixBits(n / 0x40);
    SixBits(n / 0x1000);
    var bytes := Encoded(n);
    if n < 0x80 {
    } else if n < 0x800 {
      assert |bytes| == 2;
    } else if n < 0x10000 {
      assert |bytes| == 3 && n == n / 0x1000 * 0x1000 + n / 0x40 % 0x40 * 0x40 + n % 0x40;
    } else {
      assert |bytes| == 4 && n == n / 0x40000 * 0x40000 + n / 0x1000 % 0x40 * 0x1000 + n / 0x40 % 0x40 * 0x40 + n % 0x40;
    }
  }

  /** Every character has an encoding, and all its encodings have the number of bytes counted. */
  lemma Utf8IsTheLengthOfTheEncoding(c: char, bytes: seq<nat>)
    ensures c as int < 0x11_0000 && Encodes(Encoded(c as int), c as int)
    ensures Encodes(bytes, c as int) ==> |bytes| == Utf8(c)
  {
    EncodedEncodes(c as int);
    hide Encoded;
    if Encodes(bytes, c as int) {
      var n := c as int;
      if |bytes| == 2 {
        assert 0x80 <= bytes[1] < 0xC0;
      } else if |bytes| == 3 {
        assert 0x80 <= bytes[1] < 0xC0 && 0x80 <= bytes[2] < 0xC0;
      } else if |bytes| == 4 {
        assert 0x80 <= bytes[1] < 0xC0 && 0x80 <= bytes[2] < 0xC0 && 0x80 <= bytes[3] < 0xC0;
      }
    }
  }

  function Bytes(s: string): nat {
    if s == [] then 0 else Utf8(s[0]) + Bytes(s[1..])
  }

  // ------------------------------------------------------------------ what the code computes

  function Strict(v: Val, depth: nat): Option<nat>
    decreases v
  {
    if depth > 64 then None
    else match v
      case Null => Some(5)
      case Bool(_) => Some(5)
      case Number(text) => Some(Bytes(text))
      case Str(s) => Some(Bytes(s) + 2)
      case Obj(entries) => StrictEntries(entries, depth + 1, 2)
      case Arr(items) => StrictItems(items, depth + 1, 2)
      case Dump(inner, _) => Strict(inner, depth + 1)
      case Opaque(_) => None
  }

  function StrictEntries(entries: seq<Entry>, depth: nat, total: nat): Option<nat>
    decreases entries
  {
    if entries == [] then Some(total)
    else
      var size := Strict(entries[0].value, depth);
      if size.None? then None else StrictEntries(entries[1..], depth, total + Bytes(entries[0].key) + 4 + size.value)
  }

  function StrictItems(items: seq<Val>, depth: nat, total: nat): Option<nat>
    decreases items
  {
    if items == [] then Some(total)
    else
      var size := Strict(items[0], depth);
      if size.None? then None else StrictItems(items[1..], depth, total + size.value + 1)
  }

  function Size(v: Val, depth: nat): nat
    decreases v
  {
    if depth > 32 then 64
    else match v
      case Null => 0
      case Bool(b) => if b then 4 else 5
      case Number(text) => Bytes(text)
      case Str(s) => Bytes(s)
      case Obj(entries) => 2 + SizeEntries(entries, depth + 1)
      case Arr(items) => 2 + SizeItems(items, depth + 1)
      case Dump(_, n) => n
      case Opaque(n) => n
  }

  function SizeEntries(entries: seq<Entry>, depth: nat): nat
    decreases entries
  {
    if entries == [] then 0
    else
      (if depth > 32 then 64 else Bytes(entries[0].key)) + Size(entries[0].value, depth) + 2 + SizeEntries(entries[1..], depth)
  }

  function SizeItems(items: seq<Val>, depth: nat): nat
    decreases items
  {
    if items == [] then 0 else Size(items[0], depth) + 1 + SizeItems(items[1..], depth)
  }

  /** What is not text or structure is counted by what it prints as; null prints as nothing. */
  lemma SizeOfScalars(depth: nat, b: bool, text: string)
    requires depth <= 32
    ensures Size(Null, depth) == 0 && Size(Bool(b), depth) == Bytes(if b then "True" else "False") && Size(Number(text), depth) == Bytes(text)
  {
    assert "True"[1..][1..][1..][1..] == [] && "False"[1..][1..][1..][1..][1..] == [];
  }

  // ------------------------------------------------------------------ what they are to bound

  /** UTF-8 bytes of every key and string. */
  function TextBytes(v: Val): nat
    decreases v
  {
    match v
    case Str(s) => Bytes(s)
    case Obj(entries) => TextOfEntries(entries)
    case Arr(items) => TextOfItems(items)
    case Dump(inner, _) => TextBytes(inner)
    case _ => 0
  }

  function TextOfEntries(entries: seq<Entry>): nat
    decreases entries
  {
    if entries == [] then 0 else Bytes(entries[0].key) + TextBytes(entries[0].value) + TextOfEntries(entries[1..])
  }

  function TextOfItems(items: seq<Val>): nat
    decreases items
  {
    if items == [] then 0 else TextBytes(items[0]) + TextOfItems(items[1..])
  }

  /** The compact JSON text, escaped as section 7 of RFC 8259 requires. */
  predicate MustEscape(c: char) { c == '"' || c == '\\' || c as int < 0x20 }

  function Hex(n: nat): char
    requires n < 16
  {
    "0123456789abcdef"[n]
  }

  function Escape(s: string): string {
    if s == [] then []
    else EscapeChar(s[0]) + Escape(s[1..])
  }

  function Quoted(s: string): string { ['"'] + Escape(s) + ['"'] }

  function JsonText(v: Val): string
    decreases v
  {
    match v
    case Null => "null"
    case Bool(b) => if b then "true" else "false"
    case Number(text) => text
    case Str(s) => Quoted(s)
    case Obj(entries) => ['{'] + JsonEntries(entries) + ['}']
    case Arr(items) => ['['] + JsonItems(items) + [']']
    case Dump(inner, _) => JsonText(inner)
    case Opaque(_) => ""
  }

  function JsonEntries(entries: seq<Entry>): string
    decreases entries
  {
    if entries == [] then []
    else Quoted(entries[0].key) + [':'] + JsonText(entries[0].value)
         + (if |entries| == 1 then [] else [','] + JsonEntries(entries[1..]))
  }

  function JsonItems(items: seq<Val>): string
    decreases items
  {
    if items == [] then []
    else JsonText(items[0]) + (if |items| == 1 then [] else [','] + JsonItems(items[1..]))
  }

  // ------------------------------------------------------------------ bytes of text

  lemma {:induction false} BytesOfBoth(a: string, b: string)
    ensures Bytes(a + b) == Bytes(a) + Bytes(b)
  {
    if a == [] {
      assert a + b == b;
    } else {
      BytesOfBoth(a[1..], b);
      assert (a + b)[0] == a[0] && (a + b)[1..] == a[1..] + b;
    }
  }

  lemma BytesOfOne(c: char)
    ensures Bytes([c]) == Utf8(c)
  {
    assert [c][1..] == [];
  }

  /** What escaping adds to a string. */
  function Extra(s: string): nat {
    if s == [] then 0
    else (if s[0] == '"' || s[0] == '\\' then 1 else if s[0] as int < 0x20 then 5 else 0) + Extra(s[1..])
  }

  lemma {:induction false} AsciiBytes(s: string)
    requires forall i :: 0 <= i < |s| ==> s[i] as int < 0x80
    ensures Bytes(s) == |s|
  {
    if s != [] { AsciiBytes(s[1..]); }
  }

  function EscapeChar(c: char): string {
    if c == '"' || c == '\\' then ['\\', c]
    else if c as int < 0x20 then ['\\', 'u', '0', '0', Hex(c as int / 16), Hex(c as int % 16)]
    else [c]
  }

  lemma EscapedChar(c: char)
    ensures Bytes(EscapeChar(c)) == Utf8(c) + (if c == '"' || c == '\\' then 1 else if c as int < 0x20 then 5 else 0)
  {
    if MustEscape(c) { AsciiBytes(EscapeChar(c)); } else { BytesOfOne(c); }
  }

  lemma {:induction false} EscapedBytes(s: string)
    ensures Bytes(Escape(s)) == Bytes(s) + Extra(s)
  {
    if s != [] {
      EscapedBytes(s[1..]);
      EscapedChar(s[0]);
      BytesOfBoth(EscapeChar(s[0]), Escape(s[1..]));
    }
  }

  lemma {:induction false} NothingExtra(s: string)
    requires forall c <- s :: !MustEscape(c)
    ensures Extra(s) == 0 && Escape(s) == s
  {
    if s != [] {
      assert s[0] in s;
      NothingExtra(s[1..]);
      assert s == [s[0]] + s[1..];
    }
  }

  lemma QuotedBytes(s: string)
    ensures Bytes(Quoted(s)) == Bytes(s) + Extra(s) + 2
  {
    EscapedBytes(s);
    BytesOfBoth(['"'] + Escape(s), ['"']);
    BytesOfBoth(['"'], Escape(s));
    BytesOfOne('"');
  }

  // ------------------------------------------------------------------ the strict count is the JSON text

  /** Levels of containers and dumped objects below the value. */
  function Height(v: Val): nat
    decreases v
  {
    match v
    case Obj(entries) => HeightOfEntries(entries)
    case Arr(items) => HeightOfItems(items)
    case Dump(inner, _) => 1 + Height(inner)
    case _ => 0
  }

  function HeightOfEntries(entries: seq<Entry>): nat
    decreases entries
  {
    if entries == [] then 0
    else
      var (first, rest) := (1 + Height(entries[0].value), HeightOfEntries(entries[1..]));
      if first >= rest then first else rest
  }

  function HeightOfItems(items: seq<Val>): nat
    decreases items
  {
    if items == [] then 0
    else
      var (first, rest) := (1 + Height(items[0]), HeightOfItems(items[1..]));
      if first >= rest then first else rest
  }

  /** Nothing in the value is of a kind the strict count refuses. */
  predicate Measurable(v: Val)
    decreases v
  {
    match v
    case Obj(entries) => MeasurableEntries(entries)
    case Arr(items) => MeasurableItems(items)
    case Dump(inner, _) => Measurable(inner)
    case Opaque(_) => false
    case _ => true
  }

  predicate MeasurableEntries(entries: seq<Entry>)
    decreases entries
  {
    entries == [] || (Measurable(entries[0].value) && MeasurableEntries(entries[1..]))
  }

  predicate MeasurableItems(items: seq<Val>)
    decreases items
  {
    items == [] || (Measurable(items[0]) && MeasurableItems(items[1..]))
  }

  /** What escaping adds to the whole value. */
  function Escapes(v: Val): nat
    decreases v
  {
    match v
    case Str(s) => Extra(s)
    case Obj(entries) => EscapesOfEntries(entries)
    case Arr(items) => EscapesOfItems(items)
    case Dump(inner, _) => Escapes(inner)
    case _ => 0
  }

  function EscapesOfEntries(entries: seq<Entry>): nat
    decreases entries
  {
    if entries == [] then 0 else Extra(entries[0].key) + Escapes(entries[0].value) + EscapesOfEntries(entries[1..])
  }

  function EscapesOfItems(items: seq<Val>): nat
    decreases items
  {
    if items == [] then 0 else Escapes(items[0]) + EscapesOfItems(items[1..])
  }

  /** What the strict count has to spare: one byte for every null, every true and every non-empty container. */
  function Spare(v: Val): nat
    decreases v
  {
    match v
    case Null => 1
    case Bool(b) => if b then 1 else 0
    case Obj(entries) => (if entries == [] then 0 else 1) + SpareOfEntries(entries)
    case Arr(items) => (if items == [] then 0 else 1) + SpareOfItems(items)
    case Dump(inner, _) => Spare(inner)
    case _ => 0
  }

  function SpareOfEntries(entries: seq<Entry>): nat
    decreases entries
  {
    if entries == [] then 0 else Spare(entries[0].value) + SpareOfEntries(entries[1..])
  }

  function SpareOfItems(items: seq<Val>): nat
    decreases items
  {
    if items == [] then 0 else Spare(items[0]) + SpareOfItems(items[1..])
  }

  function JsonBytes(v: Val): nat { Bytes(JsonText(v)) }

  /** The count exists exactly for measurable values nested at most 64 deep, and is then the compact JSON text's
      length without its escapes, plus what it has to spare. */
  lemma {:induction false} StrictIsJsonLength(v: Val, depth: nat)
    ensures Strict(v, depth).Some? <==> Measurable(v) && depth + Height(v) <= 64
    ensures Strict(v, depth).Some? ==> Strict(v, depth).value + Escapes(v) == JsonBytes(v) + Spare(v)
    decreases v
  {
    match v
    case Obj(entries) =>
      if depth <= 64 {
        StrictEntriesAreJson(entries, depth + 1, 2);
        Bracketed('{', JsonEntries(entries), '}');
      }
    case Arr(items) =>
      if depth <= 64 {
        StrictItemsAreJson(items, depth + 1, 2);
        Bracketed('[', JsonItems(items), ']');
      }
    case Dump(inner, _) => if depth <= 64 { StrictIsJsonLength(inner, depth + 1); }
    case Str(s) => QuotedBytes(s);
    case Null => AsciiBytes("null");
    case Bool(b) => AsciiBytes(if b then "true" else "false");
    case _ =>
  }

  lemma Bracketed(open: char, inner: string, close: char)
    requires open as int < 0x80 && close as int < 0x80
    ensures Bytes([open] + inner + [close]) == Bytes(inner) + 2
  {
    BytesOfBoth([open] + inner, [close]);
    BytesOfBoth([open], inner);
    BytesOfOne(open);
    BytesOfOne(close);
  }

  lemma {:induction false} StrictEntriesAreJson(entries: seq<Entry>, depth: nat, total: nat)
    requires depth >= 1
    ensures StrictEntries(entries, depth, total).Some? <==>
              MeasurableEntries(entries) && (entries == [] || depth - 1 + HeightOfEntries(entries) <= 64)
    ensures StrictEntries(entries, depth, total).Some? ==>
              StrictEntries(entries, depth, total).value + EscapesOfEntries(entries)
                == total + Bytes(JsonEntries(entries)) + SpareOfEntries(entries) + (if entries == [] then 0 else 1)
    decreases entries
  {
    if entries != [] {
      var e := entries[0];
      StrictIsJsonLength(e.value, depth);
      if Strict(e.value, depth).Some? {
        StrictEntriesAreJson(entries[1..], depth, total + Bytes(e.key) + 4 + Strict(e.value, depth).value);
        EntryBytes(entries);
      }
    }
  }

  lemma EntryBytes(entries: seq<Entry>)
    requires entries != []
    ensures Bytes(JsonEntries(entries)) == Bytes(entries[0].key) + Extra(entries[0].key) + 3 + JsonBytes(entries[0].value)
                                           + (if |entries| == 1 then 0 else 1 + Bytes(JsonEntries(entries[1..])))
  {
    var e := entries[0];
    var head := Quoted(e.key) + [':'] + JsonText(e.value);
    QuotedBytes(e.key);
    BytesOfBoth(Quoted(e.key) + [':'], JsonText(e.value));
    BytesOfBoth(Quoted(e.key), [':']);
    BytesOfOne(':');
    BytesOfOne(',');
    if |entries| == 1 {
      assert JsonEntries(entries) == head;
    } else {
      BytesOfBoth(head, [','] + JsonEntries(entries[1..]));
      BytesOfBoth([','], JsonEntries(entries[1..]));
    }
  }

  lemma {:induction false} StrictItemsAreJson(items: seq<Val>, depth: nat, total: nat)
    requires depth >= 1
    ensures StrictItems(items, depth, total).Some? <==>
              MeasurableItems(items) && (items == [] || depth - 1 + HeightOfItems(items) <= 64)
    ensures StrictItems(items, depth, total).Some? ==>
              StrictItems(items, depth, total).value + EscapesOfItems(items)
                == total + Bytes(JsonItems(items)) + SpareOfItems(items) + (if items == [] then 0 else 1)
    decreases items
  {
    if items != [] {
      StrictIsJsonLength(items[0], depth);
      hide Strict, Escapes, Spare, Measurable, Height, JsonText, Bytes;
      if Strict(items[0], depth).Some? {
        StrictItemsAreJson(items[1..], depth, total + Strict(items[0], depth).value + 1);
        BytesOfOne(',');
        if |items| == 1 {
          assert JsonItems(items) == JsonText(items[0]);
          assert items[1..] == [];
        } else {
          BytesOfBoth(JsonText(items[0]), [','] + JsonItems(items[1..]));
          BytesOfBoth([','], JsonItems(items[1..]));
        }
      }
    }
  }

  /** So a value that needs no escape is never counted short, and one that does can be. */
  lemma StrictCoversUnescapedJson(v: Val, depth: nat)
    requires Strict(v, depth).Some?
    ensures Escapes(v) == 0 ==> Strict(v, depth).value >= JsonBytes(v)
    ensures Strict(v, depth).value >= JsonBytes(v) <==> Spare(v) >= Escapes(v)
  {
    StrictIsJsonLength(v, depth);
  }

  function Quotes(n: nat): string { seq(n, _ => '"') }

  lemma {:induction false} BytesOfQuotes(n: nat)
    ensures Bytes(Quotes(n)) == n && Extra(Quotes(n)) == n
  {
    if n > 0 {
      BytesOfQuotes(n - 1);
      assert Quotes(n)[1..] == Quotes(n - 1);
    }
  }

  /** A string of quotes is counted short: ten are counted as 12 bytes and take 22. */
  lemma QuotesAreCountedShort(n: nat, depth: nat)
    requires depth <= 64
    ensures Strict(Str(Quotes(n)), depth) == Some(n + 2) && JsonBytes(Str(Quotes(n))) == 2 * n + 2
  {
    BytesOfQuotes(n);
    QuotedBytes(Quotes(n));
  }

  // ------------------------------------------------------------------ text is bounded

  lemma {:induction false} StrictCoversText(v: Val, depth: nat)
    requires Strict(v, depth).Some?
    ensures Strict(v, depth).value >= TextBytes(v)
    decreases v
  {
    match v
    case Obj(entries) => StrictEntriesCoverText(entries, depth + 1, 2);
    case Arr(items) => StrictItemsCoverText(items, depth + 1, 2);
    case Dump(inner, _) => StrictCoversText(inner, depth + 1);
    case _ =>
  }

  lemma {:induction false} StrictEntriesCoverText(entries: seq<Entry>, depth: nat, total: nat)
    requires StrictEntries(entries, depth, total).Some?
    ensures StrictEntries(entries, depth, total).value >= total + TextOfEntries(entries)
    decreases entries
  {
    if entries != [] {
      StrictCoversText(entries[0].value, depth);
      StrictEntriesCoverText(entries[1..], depth, total + Bytes(entries[0].key) + 4 + Strict(entries[0].value, depth).value);
    }
  }

  lemma {:induction false} StrictItemsCoverText(items: seq<Val>, depth: nat, total: nat)
    requires StrictItems(items, depth, total).Some?
    ensures StrictItems(items, depth, total).value >= total + TextOfItems(items)
    decreases items
  {
    if items != [] {
      StrictCoversText(items[0], depth);
      StrictItemsCoverText(items[1..], depth, total + Strict(items[0], depth).value + 1);
    }
  }

  /** Every object's repr() is at least as long as the text it stands for. */
  predicate ReprsCover(v: Val)
    decreases v
  {
    match v
    case Obj(entries) => ReprsOfEntriesCover(entries)
    case Arr(items) => ReprsOfItemsCover(items)
    case Dump(inner, n) => n >= TextBytes(inner)
    case _ => true
  }

  predicate ReprsOfEntriesCover(entries: seq<Entry>)
    decreases entries
  {
    entries == [] || (ReprsCover(entries[0].value) && ReprsOfEntriesCover(entries[1..]))
  }

  predicate ReprsOfItemsCover(items: seq<Val>)
    decreases items
  {
    items == [] || (ReprsCover(items[0]) && ReprsOfItemsCover(items[1..]))
  }

  /** Down to 32 levels the size estimate covers all text, if the objects' repr() does. */
  lemma {:induction false} SizeCoversText(v: Val, depth: nat)
    requires ReprsCover(v) && depth + Height(v) <= 32
    ensures Size(v, depth) >= TextBytes(v)
    decreases v
  {
    match v
    case Obj(entries) => SizeOfEntriesCoversText(entries, depth + 1);
    case Arr(items) => SizeOfItemsCoversText(items, depth + 1);
    case _ =>
  }

  lemma {:induction false} SizeOfEntriesCoversText(entries: seq<Entry>, depth: nat)
    requires ReprsOfEntriesCover(entries) && depth >= 1 && depth - 1 + HeightOfEntries(entries) <= 32
    ensures SizeEntries(entries, depth) >= TextOfEntries(entries)
    decreases entries
  {
    if entries != [] {
      SizeCoversText(entries[0].value, depth);
      SizeOfEntriesCoversText(entries[1..], depth);
    }
  }

  lemma {:induction false} SizeOfItemsCoversText(items: seq<Val>, depth: nat)
    requires ReprsOfItemsCover(items) && depth >= 1 && depth - 1 + HeightOfItems(items) <= 32
    ensures SizeItems(items, depth) >= TextOfItems(items)
    decreases items
  {
    if items != [] {
      SizeCoversText(items[0], depth);
      SizeOfItemsCoversText(items[1..], depth);
    }
  }

  /** No object's repr() is longer than the strict count of its fields. */
  predicate ReprsAreShort(v: Val, depth: nat)
    decreases v
  {
    match v
    case Obj(entries) => ReprsOfEntriesAreShort(entries, depth + 1)
    case Arr(items) => ReprsOfItemsAreShort(items, depth + 1)
    case Dump(inner, n) => Strict(inner, depth + 1).Some? ==> n <= Strict(inner, depth + 1).value
    case _ => true
  }

  predicate ReprsOfEntriesAreShort(entries: seq<Entry>, depth: nat)
    decreases entries
  {
    entries == [] || (ReprsAreShort(entries[0].value, depth) && ReprsOfEntriesAreShort(entries[1..], depth))
  }

  predicate ReprsOfItemsAreShort(items: seq<Val>, depth: nat)
    decreases items
  {
    items == [] || (ReprsAreShort(items[0], depth) && ReprsOfItemsAreShort(items[1..], depth))
  }

  /** Down to 32 levels the size estimate is no more than the strict count, if the objects' repr() is not. */
  lemma {:induction false} SizeWithinStrict(v: Val, depth: nat)
    requires Strict(v, depth).Some? && ReprsAreShort(v, depth) && depth + Height(v) <= 32
    ensures Size(v, depth) <= Strict(v, depth).value
    decreases v
  {
    match v
    case Obj(entries) => SizeOfEntriesWithinStrict(entries, depth + 1, 2);
    case Arr(items) => SizeOfItemsWithinStrict(items, depth + 1, 2);
    case _ =>
  }

  lemma {:induction false} SizeOfEntriesWithinStrict(entries: seq<Entry>, depth: nat, total: nat)
    requires StrictEntries(entries, depth, total).Some? && ReprsOfEntriesAreShort(entries, depth)
    requires depth >= 1 && depth - 1 + HeightOfEntries(entries) <= 32
    ensures total + SizeEntries(entries, depth) <= StrictEntries(entries, depth, total).value
    decreases entries
  {
    if entries != [] {
      SizeWithinStrict(entries[0].value, depth);
      SizeOfEntriesWithinStrict(entries[1..], depth, total + Bytes(entries[0].key) + 4 + Strict(entries[0].value, depth).value);
    }
  }

  lemma {:induction false} SizeOfItemsWithinStrict(items: seq<Val>, depth: nat, total: nat)
    requires StrictItems(items, depth, total).Some? && ReprsOfItemsAreShort(items, depth)
    requires depth >= 1 && depth - 1 + HeightOfItems(items) <= 32
    ensures total + SizeItems(items, depth) <= StrictItems(items, depth, total).value
    decreases items
  {
    if items != [] {
      SizeWithinStrict(items[0], depth);
      SizeOfItemsWithinStrict(items[1..], depth, total + Strict(items[0], depth).value + 1);
    }
  }

  function Nest(levels: nat, v: Val): Val {
    if levels == 0 then v else Arr([Nest(levels - 1, v)])
  }

  lemma OneItem(v: Val, depth: nat)
    ensures SizeItems([v], depth) == Size(v, depth) + 1 && TextOfItems([v]) == TextBytes(v) && HeightOfItems([v]) == 1 + Height(v)
  {
    assert [v][1..] == [];
  }

  lemma {:induction false} NestedSize(levels: nat, s: string, depth: nat)
    requires depth <= 33
    ensures Size(Nest(levels, Str(s)), depth) ==
              if depth + levels <= 32 then 3 * levels + Bytes(s) else 3 * (33 - depth) + 64
    ensures TextBytes(Nest(levels, Str(s))) == Bytes(s) && Height(Nest(levels, Str(s))) == levels
    decreases levels
  {
    if levels > 0 {
      OneItem(Nest(levels - 1, Str(s)), depth + 1);
      NestedSize(levels - 1, s, if depth < 33 then depth + 1 else 33);
    }
  }

  /** A string that many levels down is covered, whatever it says, if and only if there are at most 32. */
  lemma DeepTextIsCoveredUpTo32(levels: nat)
    ensures (forall s: string :: Size(Nest(levels, Str(s)), 0) >= TextBytes(Nest(levels, Str(s)))) <==> levels <= 32
  {
    forall s: string | levels <= 32 ensures Size(Nest(levels, Str(s)), 0) >= TextBytes(Nest(levels, Str(s))) {
      NestedSize(levels, s, 0);
    }
    if levels > 32 {
      var s := seq(164, _ => 'x');
      AsciiBytes(s);
      NestedSize(levels, s, 0);
    }
  }

  // ------------------------------------------------------------------ requests

  function Lookup(entries: seq<Entry>, key: string): Val {
    if entries == [] then Null else if entries[0].key == key then entries[0].value else Lookup(entries[1..], key)
  }

  /** A field of a message or part, given as a mapping or as an object with attributes. */
  function Field(v: Val, name: string): Val {
    match v
    case Obj(entries) => Lookup(entries, name)
    case Dump(inner, _) => Field(inner, name)
    case _ => Null
  }

  function Without(entries: seq<Entry>, names: set<string>): seq<Entry> {
    if entries == [] then [] else (if entries[0].key in names then [] else [entries[0]]) + Without(entries[1..], names)
  }

  function Only(entries: seq<Entry>, names: set<string>): seq<Entry> {
    if entries == [] then [] else (if entries[0].key in names then [entries[0]] else []) + Only(entries[1..], names)
  }

  const RENDERED := {"tools", "functions", "response_format"}

  predicate IsTextPart(part: Val) { Field(part, "type") == Str("text") || Field(part, "type") == Str("refusal") }

  /** A message whose tokens its bytes bound: no audio, and only text in a list of parts. */
  predicate TextMessage(m: Val) {
    Field(m, "audio") == Null && (Field(m, "content").Arr? ==> forall part <- Field(m, "content").items :: IsTextPart(part))
  }

  /** None of Python's false values. */
  predicate Truthy(v: Val) {
    match v
    case Null => false
    case Bool(b) => b
    case Str(s) => s != []
    case Obj(entries) => entries != []
    case Arr(items) => items != []
    case Number(text) => text != "0" && text != "0.0" && text != "-0.0"
    case _ => true
  }

  function ToolCount(view: seq<Entry>): nat {
    var tools := if Truthy(Lookup(view, "tools")) then Lookup(view, "tools") else Lookup(view, "functions");
    if tools.Arr? then |tools.items| else 0
  }

  function Messages(view: seq<Entry>): Option<seq<Val>> {
    var m := Lookup(view, "messages");
    if !Truthy(m) then Some([]) else if m.Arr? then Some(m.items) else None
  }

  function ChatUpperBound(view: seq<Entry>): Option<nat> {
    var messages := Messages(view);
    if messages.None? || exists m <- messages.value :: !TextMessage(m) then None
    else
      var body := Without(view, {"model"});
      var size := Strict(Obj(Without(body, RENDERED)), 0);
      var rendered := Strict(Obj(Only(body, RENDERED)), 0);
      if size.None? || rendered.None? then None
      else Some(size.value + 4 * rendered.value + 256 + 16 * |messages.value| + 64 * ToolCount(view))
  }

  /** Whether a chat request on a model with a long-context band is let through. */
  predicate ChatStaysBelowLongBand(view: seq<Entry>, threshold: Option<nat>, hasImages: bool) {
    threshold.Some? && !hasImages && ChatUpperBound(view).Some? && ChatUpperBound(view).value <= threshold.value
  }

  const NOT_INPUT := {"model", "stream", "stream_options", "max_tokens", "max_completion_tokens", "max_output_tokens"}

  /** The request without the fields that are no input. */
  function InputOf(view: seq<Entry>): seq<Entry> { Without(view, NOT_INPUT) }

  function EstimateInputTokens(view: seq<Entry>): nat {
    var n := Size(Obj(InputOf(view)), 0) + 64;
    if n >= 2000 then n else 2000
  }

  datatype Band = Short | Long

  function BandOf(threshold: Option<nat>, inputTokens: nat): Band {
    if threshold.Some? && inputTokens > threshold.value then Long else Short
  }

  /** Cons, unfolded. */
  lemma OneEntry(e: Entry, rest: seq<Entry>, depth: nat)
    ensures TextOfEntries([e] + rest) == Bytes(e.key) + TextBytes(e.value) + TextOfEntries(rest)
    ensures SizeEntries([e] + rest, depth) ==
              (if depth > 32 then 64 else Bytes(e.key)) + Size(e.value, depth) + 2 + SizeEntries(rest, depth)
    ensures ReprsOfEntriesAreShort([e] + rest, depth) <==> ReprsAreShort(e.value, depth) && ReprsOfEntriesAreShort(rest, depth)
    ensures HeightOfEntries([e] + rest) == var (a, b) := (1 + Height(e.value), HeightOfEntries(rest)); if a >= b then a else b
  {
    assert ([e] + rest)[1..] == rest;
  }

  /** Leaving entries out and keeping only those splits text and size alike. */
  lemma {:induction false} Splits(entries: seq<Entry>, names: set<string>, depth: nat)
    ensures TextOfEntries(entries) == TextOfEntries(Without(entries, names)) + TextOfEntries(Only(entries, names))
    ensures SizeEntries(entries, depth) == SizeEntries(Without(entries, names), depth) + SizeEntries(Only(entries, names), depth)
  {
    if entries != [] {
      Splits(entries[1..], names, depth);
      OneEntry(entries[0], Without(entries[1..], names), depth);
      OneEntry(entries[0], Only(entries[1..], names), depth);
      OneEntry(entries[0], entries[1..], depth);
      assert entries == [entries[0]] + entries[1..];
      if entries[0].key in names {
        assert Without(entries, names) == Without(entries[1..], names);
        assert Only(entries, names) == [entries[0]] + Only(entries[1..], names);
      } else {
        assert Only(entries, names) == Only(entries[1..], names);
      }
    }
  }

  lemma {:induction false} PartsStayShort(entries: seq<Entry>, names: set<string>, depth: nat)
    requires ReprsOfEntriesAreShort(entries, depth)
    ensures ReprsOfEntriesAreShort(Without(entries, names), depth) && ReprsOfEntriesAreShort(Only(entries, names), depth)
    ensures HeightOfEntries(Without(entries, names)) <= HeightOfEntries(entries)
    ensures HeightOfEntries(Only(entries, names)) <= HeightOfEntries(entries)
  {
    if entries != [] {
      PartsStayShort(entries[1..], names, depth);
      OneEntry(entries[0], Without(entries[1..], names), depth);
      OneEntry(entries[0], Only(entries[1..], names), depth);
      if entries[0].key in names {
        assert Without(entries, names) == Without(entries[1..], names);
      } else {
        assert Only(entries, names) == Only(entries[1..], names);
      }
    }
  }

  /** A chat request let through holds no more text than the long-context threshold has tokens, the text of its
      tools and schemas counted four times. */
  lemma PassingChatTextFits(view: seq<Entry>, threshold: Option<nat>, hasImages: bool)
    requires ChatStaysBelowLongBand(view, threshold, hasImages)
    ensures var body := Without(view, {"model"});
            TextOfEntries(body) + 3 * TextOfEntries(Only(body, RENDERED)) + 256 <= threshold.value
  {
    var body := Without(view, {"model"});
    Splits(body, RENDERED, 1);
    StrictCoversText(Obj(Without(body, RENDERED)), 0);
    StrictCoversText(Obj(Only(body, RENDERED)), 0);
  }

  lemma {:induction false} WithoutMoreIsSmaller(entries: seq<Entry>, few: set<string>, many: set<string>, depth: nat)
    requires few <= many
    ensures SizeEntries(Without(entries, many), depth) <= SizeEntries(Without(entries, few), depth)
  {
    if entries != [] {
      WithoutMoreIsSmaller(entries[1..], few, many, depth);
      OneEntry(entries[0], Without(entries[1..], many), depth);
      OneEntry(entries[0], Without(entries[1..], few), depth);
      if entries[0].key in many { assert Without(entries, many) == Without(entries[1..], many); }
      if entries[0].key in few { assert Without(entries, few) == Without(entries[1..], few); }
    }
  }

  /** What the estimate counts, the strict bound counts too. */
  lemma EstimateWithinBound(view: seq<Entry>)
    requires ReprsAreShort(Obj(view), 0) && Height(Obj(view)) <= 32 && ChatUpperBound(view).Some?
    ensures Size(Obj(InputOf(view)), 0) + 256 <= ChatUpperBound(view).value
  {
    var body := Without(view, {"model"});
    var rest, rendered := Obj(Without(body, RENDERED)), Obj(Only(body, RENDERED));
    PartsStayShort(view, {"model"}, 1);
    PartsStayShort(body, RENDERED, 1);
    SizeWithinStrict(rest, 0);
    SizeWithinStrict(rendered, 0);
    Splits(body, RENDERED, 1);
    WithoutMoreIsSmaller(view, {"model"}, NOT_INPUT, 1);
    hide Strict, Without, Only, SizeEntries, Messages, TextMessage, ToolCount, ReprsAreShort, Height, Truthy, Lookup;
    assert Size(Obj(InputOf(view)), 0) <= Size(rest, 0) + Size(rendered, 0);
  }

  /** The two estimates agree on such a request: one that the strict bound lets through as short is also counted,
      reserved and priced on the short band, at up to 32 levels and with no long repr(). The count never goes
      below 2000. */
  lemma PassingChatIsPricedShort(view: seq<Entry>, threshold: Option<nat>, hasImages: bool)
    requires ChatStaysBelowLongBand(view, threshold, hasImages)
    requires ReprsAreShort(Obj(view), 0) && Height(Obj(view)) <= 32
    ensures BandOf(threshold, EstimateInputTokens(view)) == Short <==> threshold.value >= 2000
  {
    hide Size, InputOf, ChatUpperBound;
    EstimateWithinBound(view);
  }

  function Blanks(n: nat): seq<Val> { seq(n, _ => Str("")) }

  lemma {:induction false} BlanksCost(n: nat, depth: nat, total: nat)
    requires 32 < depth <= 64
    ensures SizeItems(Blanks(n), depth) == 65 * n && StrictItems(Blanks(n), depth, total) == Some(total + 3 * n)
  {
    if n > 0 {
      BlanksCost(n - 1, depth, total + 3);
      assert Blanks(n)[1..] == Blanks(n - 1) && Blanks(n)[0] == Str("");
    }
  }

  lemma WrappedCost(v: Val, depth: nat)
    requires depth < 32 && Strict(v, depth + 1).Some?
    ensures Size(Arr([v]), depth) == 3 + Size(v, depth + 1) && Strict(Arr([v]), depth) == Some(3 + Strict(v, depth + 1).value)
  {
    OneItem(v, depth + 1);
    assert [v][1..] == [];
    assert StrictItems([v], depth + 1, 2) == StrictItems([], depth + 1, 2 + Strict(v, depth + 1).value + 1);
  }

  lemma {:induction false} NestCost(levels: nat, v: Val, depth: nat)
    requires depth + levels <= 32 && Strict(v, depth + levels).Some?
    ensures Size(Nest(levels, v), depth) == 3 * levels + Size(v, depth + levels)
    ensures Strict(Nest(levels, v), depth) == Some(3 * levels + Strict(v, depth + levels).value)
    decreases levels
  {
    hide Size, Strict;
    if levels > 0 {
      NestCost(levels - 1, v, depth + 1);
      WrappedCost(Nest(levels - 1, v), depth);
    }
  }

  /** A field of blank strings, 33 levels down: each is estimated at 64 bytes and counted as two. */
  function DeepField(n: nat): Entry { Entry("metadata", Nest(31, Arr(Blanks(n)))) }

  lemma BlankListCost(n: nat)
    ensures Size(Arr(Blanks(n)), 32) == 2 + 65 * n && Strict(Arr(Blanks(n)), 32) == Some(2 + 3 * n)
  {
    hide Blanks;
    BlanksCost(n, 33, 2);
  }

  lemma {:induction false} BlanksHeight(n: nat)
    ensures HeightOfItems(Blanks(n)) <= 1 && ReprsOfItemsAreShort(Blanks(n), 33)
  {
    if n > 0 {
      BlanksHeight(n - 1);
      assert Blanks(n)[1..] == Blanks(n - 1) && Blanks(n)[0] == Str("");
    }
  }

  lemma {:induction false} NestHeight(levels: nat, v: Val, depth: nat)
    requires ReprsAreShort(v, depth + levels)
    ensures Height(Nest(levels, v)) == levels + Height(v) && ReprsAreShort(Nest(levels, v), depth)
    decreases levels
  {
    if levels > 0 {
      NestHeight(levels - 1, v, depth + 1);
      var inner := Nest(levels - 1, v);
      OneItem(inner, depth + 1);
      assert [inner][1..] == [];
    }
  }

  lemma DeepFieldCost(n: nat)
    ensures var e := DeepField(n);
            && Bytes(e.key) == 8 && Size(e.value, 1) == 65 * n + 95 && Strict(e.value, 1) == Some(3 * n + 95)
            && Height(e.value) <= 32 && ReprsAreShort(e.value, 1)
  {
    hide Size, Strict, Nest, Blanks, Bytes;
    BlankListCost(n);
    NestCost(31, Arr(Blanks(n)), 1);
    BlanksHeight(n);
    NestHeight(31, Arr(Blanks(n)), 1);
    AsciiBytes("metadata");
  }

  // ------------------------------------------------------------------ a request with one field more

  lemma {:induction false} StrictAppends(xs: seq<Entry>, e: Entry, depth: nat, total: nat)
    requires StrictEntries(xs, depth, total).Some? && Strict(e.value, depth).Some?
    ensures StrictEntries(xs + [e], depth, total)
            == Some(StrictEntries(xs, depth, total).value + Bytes(e.key) + 4 + Strict(e.value, depth).value)
    decreases xs
  {
    if xs == [] {
      assert [] + [e] == [e] && [e][1..] == [];
      assert StrictEntries([e], depth, total) == StrictEntries([], depth, total + Bytes(e.key) + 4 + Strict(e.value, depth).value);
    } else {
      assert (xs + [e])[1..] == xs[1..] + [e];
      StrictAppends(xs[1..], e, depth, total + Bytes(xs[0].key) + 4 + Strict(xs[0].value, depth).value);
    }
  }

  lemma {:induction false} SizeAppends(xs: seq<Entry>, e: Entry, depth: nat)
    requires depth <= 32
    ensures SizeEntries(xs + [e], depth) == SizeEntries(xs, depth) + Bytes(e.key) + Size(e.value, depth) + 2
  {
    if xs == [] {
      assert [] + [e] == [e] && [e][1..] == [];
    } else {
      assert (xs + [e])[1..] == xs[1..] + [e];
      SizeAppends(xs[1..], e, depth);
    }
  }

  lemma {:induction false} ShapeAppends(xs: seq<Entry>, e: Entry, depth: nat)
    ensures HeightOfEntries(xs + [e]) == var (a, b) := (HeightOfEntries(xs), 1 + Height(e.value)); if a >= b then a else b
    ensures ReprsOfEntriesAreShort(xs + [e], depth) <==> ReprsOfEntriesAreShort(xs, depth) && ReprsAreShort(e.value, depth)
  {
    if xs == [] {
      assert [] + [e] == [e] && [e][1..] == [];
    } else {
      assert (xs + [e])[1..] == xs[1..] + [e];
      ShapeAppends(xs[1..], e, depth);
    }
  }

  lemma {:induction false} WithoutAppends(xs: seq<Entry>, e: Entry, names: set<string>)
    ensures Without(xs + [e], names) == Without(xs, names) + if e.key in names then [] else [e]
  {
    if xs == [] {
      assert [] + [e] == [e] && [e][1..] == [];
    } else {
      assert (xs + [e])[1..] == xs[1..] + [e];
      WithoutAppends(xs[1..], e, names);
    }
  }

  lemma {:induction false} OnlyAppends(xs: seq<Entry>, e: Entry, names: set<string>)
    ensures Only(xs + [e], names) == Only(xs, names) + if e.key in names then [e] else []
  {
    if xs == [] {
      assert [] + [e] == [e] && [e][1..] == [];
    } else {
      assert (xs + [e])[1..] == xs[1..] + [e];
      OnlyAppends(xs[1..], e, names);
    }
  }

  lemma PartsAppend(xs: seq<Entry>, e: Entry, names: set<string>)
    ensures Without(xs + [e], names) == Without(xs, names) + if e.key in names then [] else [e]
    ensures Only(xs + [e], names) == Only(xs, names) + if e.key in names then [e] else []
  {
    WithoutAppends(xs, e, names);
    OnlyAppends(xs, e, names);
  }

  lemma {:induction false} LookupSkips(xs: seq<Entry>, e: Entry, key: string)
    requires key != e.key
    ensures Lookup(xs + [e], key) == Lookup(xs, key)
  {
    if xs == [] {
      assert [] + [e] == [e] && [e][1..] == [];
    } else {
      assert (xs + [e])[1..] == xs[1..] + [e];
      LookupSkips(xs[1..], e, key);
    }
  }

  // ------------------------------------------------------------------ what the two bounds are made of

  /** Python's false values, as a request may hold them. */
  predicate IsFalse(v: Val) { v in [Null, Bool(false), Str(""), Obj([]), Arr([]), Number("0"), Number("0.0"), Number("-0.0")] }

  /** A list, or nothing. */
  predicate Lists(v: Val, items: seq<Val>) { if IsFalse(v) then items == [] else v == Arr(items) }

  predicate OnlyText(m: Val) {
    && Field(m, "audio") == Null
    && (Field(m, "content").Arr? ==> forall part <- Field(m, "content").items :: Field(part, "type") in [Str("text"), Str("refusal")])
  }

  lemma {:induction false} WithoutBoth(xs: seq<Entry>, a: set<string>, b: set<string>)
    ensures Without(Without(xs, a), b) == Without(xs, a + b)
    ensures a * b == {} ==> Only(Without(xs, a), b) == Only(xs, b)
  {
    if xs != [] {
      var x, rest := xs[0], Without(xs[1..], a);
      WithoutBoth(xs[1..], a, b);
      if x.key in a {
        assert Without(xs, a) == [] + rest == rest;
        assert Without(xs, a + b) == [] + Without(xs[1..], a + b) == Without(xs[1..], a + b);
        assert a * b == {} ==> x.key !in b && Only(xs, b) == [] + Only(xs[1..], b) == Only(xs[1..], b) by {
          assert x.key in b ==> x.key in a * b;
        }
      } else {
        var both := [x] + rest;
        assert Without(xs, a) == both && both[0] == x && both[1..] == rest;
        assert x.key in a + b <==> x.key in b;
      }
    }
  }

  /** The chat bound in the request's own fields: there is one exactly when the messages are a list, or none, of plain
      text without audio and everything can be counted; then it is the JSON bytes of all but the model, those of tools,
      functions and response format four times, and a sum per message and per tool. */
  lemma ChatBoundAddsUp(view: seq<Entry>, messages: seq<Val>)
    ensures ChatUpperBound(view).Some? ==> exists ms :: Lists(Lookup(view, "messages"), ms) && forall m <- ms :: OnlyText(m)
    ensures Lists(Lookup(view, "messages"), messages) ==>
              var rest := Strict(Obj(Without(view, {"model", "tools", "functions", "response_format"})), 0);
              var rendered := Strict(Obj(Only(view, {"tools", "functions", "response_format"})), 0);
              var named := if IsFalse(Lookup(view, "tools")) then Lookup(view, "functions") else Lookup(view, "tools");
              var tools := if named.Arr? then |named.items| else 0;
              ChatUpperBound(view)
              == if (forall m <- messages :: OnlyText(m)) && rest.Some? && rendered.Some?
                 then Some(rest.value + 4 * rendered.value + 256 + 16 * |messages| + 64 * tools) else None
  {
    RestAndRendered(view);
    ListsAreMessages(view);
    ToolsAreCounted(view);
    TextIsOnlyText();
    hide RENDERED, Strict, Without, Only, Lookup, IsFalse, Lists, Messages, ToolCount, TextMessage, OnlyText;
    if ChatUpperBound(view).Some? {
      assert Lists(Lookup(view, "messages"), Messages(view).value);
    }
  }

  lemma RestAndRendered(view: seq<Entry>)
    ensures Without(Without(view, {"model"}), RENDERED) == Without(view, {"model", "tools", "functions", "response_format"})
    ensures Only(Without(view, {"model"}), RENDERED) == Only(view, {"tools", "functions", "response_format"})
  {
    WithoutBoth(view, {"model"}, RENDERED);
    hide Without, Only;
    assert {"model"} + RENDERED == {"model", "tools", "functions", "response_format"};
  }

  lemma ListsAreMessages(view: seq<Entry>)
    ensures forall ms: seq<Val> :: Lists(Lookup(view, "messages"), ms) <==> Messages(view) == Some(ms)
  {
    FalseIsNotTruthy(Lookup(view, "messages"));
    hide IsFalse, Truthy, Lookup;
  }

  lemma ToolsAreCounted(view: seq<Entry>)
    ensures var named := if IsFalse(Lookup(view, "tools")) then Lookup(view, "functions") else Lookup(view, "tools");
            ToolCount(view) == if named.Arr? then |named.items| else 0
  {
    FalseIsNotTruthy(Lookup(view, "tools"));
    hide IsFalse, Truthy, Lookup;
  }

  lemma TextIsOnlyText()
    ensures forall m: Val :: TextMessage(m) <==> OnlyText(m)
  {
    hide Field;
  }

  lemma FalseIsNotTruthy(v: Val)
    ensures Truthy(v) <==> !IsFalse(v)
  {
  }

  /** The estimate starts at 2000 tokens; above that every field adds the bytes of its name and value and two more,
      except those that are no input. */
  lemma EstimateAddsUp(xs: seq<Entry>, e: Entry)
    ensures EstimateInputTokens([]) == 2000 && EstimateInputTokens(xs) >= 2000
    ensures e.key == "messages" ==>
              var n := 68 + Bytes(e.key) + Size(e.value, 1); EstimateInputTokens([e]) == if n >= 2000 then n else 2000
    ensures e.key in ["model", "stream", "stream_options", "max_tokens", "max_completion_tokens", "max_output_tokens"] ==>
              EstimateInputTokens(xs + [e]) == EstimateInputTokens(xs)
    ensures e.key !in ["model", "stream", "stream_options", "max_tokens", "max_completion_tokens", "max_output_tokens"]
            && EstimateInputTokens(xs) > 2000 ==>
              EstimateInputTokens(xs + [e]) == EstimateInputTokens(xs) + Bytes(e.key) + Size(e.value, 1) + 2
  {
    PartsAppend(xs, e, NOT_INPUT);
    SizeAppends(InputOf(xs), e, 1);
    assert InputOf(xs) + [] == InputOf(xs);
    EmptyInput();
    if e.key == "messages" { OneFieldInput(e); }
    hide Without, SizeEntries, Bytes;
  }

  lemma OneFieldInput(e: Entry)
    requires e.key !in NOT_INPUT
    ensures Size(Obj(InputOf([e])), 0) == 4 + Bytes(e.key) + Size(e.value, 1)
  {
    assert [e][1..] == [];
    assert Without([], NOT_INPUT) == [] && [e] + [] == [e];
    assert Without([e], NOT_INPUT) == [e] + Without([e][1..], NOT_INPUT);
    assert SizeEntries([e], 1) == Bytes(e.key) + Size(e.value, 1) + 2 + SizeEntries([], 1);
  }

  lemma EmptyInput()
    ensures EstimateInputTokens([]) == 2000
  {
  }

  /** Not a field the estimates treat in their own way. */
  predicate Quiet(key: string) { key !in NOT_INPUT + RENDERED + {"messages"} }

  lemma QuietFieldStays(xs: seq<Entry>, e: Entry)
    requires Quiet(e.key)
    ensures Messages(xs + [e]) == Messages(xs) && ToolCount(xs + [e]) == ToolCount(xs) && TextOnly(xs + [e]) == TextOnly(xs)
    ensures RestOf(xs + [e]) == RestOf(xs) + [e] && RenderedOf(xs + [e]) == RenderedOf(xs)
    ensures InputOf(xs + [e]) == InputOf(xs) + [e]
  {
    hide Messages, ToolCount, Without, Only;
    SameMessages(xs, e);
    SameBody(xs, e);
    PartsAppend(xs, e, NOT_INPUT);
  }

  lemma SameMessages(xs: seq<Entry>, e: Entry)
    requires e.key !in RENDERED + {"messages"}
    ensures Messages(xs + [e]) == Messages(xs) && ToolCount(xs + [e]) == ToolCount(xs)
  {
    hide Lookup, Truthy;
    LookupSkips(xs, e, "messages");
    LookupSkips(xs, e, "tools");
    LookupSkips(xs, e, "functions");
  }

  lemma SameBody(xs: seq<Entry>, e: Entry)
    requires e.key !in RENDERED + {"model"}
    ensures RestOf(xs + [e]) == RestOf(xs) + [e] && RenderedOf(xs + [e]) == RenderedOf(xs)
  {
    hide Without, Only;
    PartsAppend(xs, e, {"model"});
    PartsAppend(Without(xs, {"model"}), e, RENDERED);
  }

  predicate TextOnly(view: seq<Entry>) { Messages(view).Some? && forall m <- Messages(view).value :: TextMessage(m) }

  function RestOf(view: seq<Entry>): seq<Entry> { Without(Without(view, {"model"}), RENDERED) }

  function RenderedOf(view: seq<Entry>): seq<Entry> { Only(Without(view, {"model"}), RENDERED) }

  /** The bound, by its parts. */
  lemma BoundParts(view: seq<Entry>)
    ensures var (size, rendered) := (StrictEntries(RestOf(view), 1, 2), StrictEntries(RenderedOf(view), 1, 2));
            && (ChatUpperBound(view).Some? <==> TextOnly(view) && size.Some? && rendered.Some?)
            && (ChatUpperBound(view).Some? ==>
                  ChatUpperBound(view).value ==
                    size.value + 4 * rendered.value + 256 + 16 * |Messages(view).value| + 64 * ToolCount(view))
  {
    ObjectCosts(RestOf(view));
    ObjectCosts(RenderedOf(view));
    hide Strict, StrictEntries, Without, Only, Messages, ToolCount, TextMessage;
  }

  lemma ObjectCosts(xs: seq<Entry>)
    ensures Strict(Obj(xs), 0) == StrictEntries(xs, 1, 2) && Size(Obj(xs), 0) == 2 + SizeEntries(xs, 1)
  {
  }

  /** A field that is neither message nor tool adds to the bound what it measures, and to the estimate what that
      counts. */
  lemma OneFieldMore(xs: seq<Entry>, e: Entry)
    requires Quiet(e.key) && ChatUpperBound(xs).Some? && Strict(e.value, 1).Some?
    ensures ChatUpperBound(xs + [e]) == Some(ChatUpperBound(xs).value + Bytes(e.key) + 4 + Strict(e.value, 1).value)
    ensures Size(Obj(InputOf(xs + [e])), 0) == Size(Obj(InputOf(xs)), 0) + Bytes(e.key) + 2 + Size(e.value, 1)
  {
    hide *;
    QuietFieldStays(xs, e);
    BoundParts(xs);
    BoundParts(xs + [e]);
    StrictAppends(RestOf(xs), e, 1, 2);
    SizeAppends(InputOf(xs), e, 1);
    ObjectCosts(InputOf(xs));
    ObjectCosts(InputOf(xs + [e]));
  }

  /** Deeper than 32 levels the two estimates part. Any request with room to spare under the threshold is still let
      through with one such field more, and then counted and priced on the long band. */
  lemma DeepFieldIsPricedLong(xs: seq<Entry>, threshold: nat)
    requires ChatUpperBound(xs).Some? && ChatUpperBound(xs).value + 107 + 3 * (threshold / 65) <= threshold
    requires Height(Obj(xs)) <= 32 && ReprsAreShort(Obj(xs), 0)
    ensures var view := xs + [DeepField(threshold / 65)];
            && ChatStaysBelowLongBand(view, Some(threshold), false)
            && BandOf(Some(threshold), EstimateInputTokens(view)) == Long
            && Height(Obj(view)) <= 33 && ReprsAreShort(Obj(view), 0)
  {
    var e := DeepField(threshold / 65);
    assert e.key == "metadata";
    DeepFieldCost(threshold / 65);
    OtherNames();
    ShapeAppends(xs, e, 1);
    ObjectShape(xs);
    ObjectShape(xs + [e]);
    hide DeepField, Quiet, Strict, Size, InputOf, ChatUpperBound, Height, ReprsAreShort;
    OneFieldMore(xs, e);
  }

  lemma ObjectShape(xs: seq<Entry>)
    ensures Height(Obj(xs)) == HeightOfEntries(xs) && (ReprsAreShort(Obj(xs), 0) <==> ReprsOfEntriesAreShort(xs, 1))
  {
  }

  lemma OtherNames()
    ensures Quiet("metadata") && Quiet("service_tier")
  {
    assert "metadata"[2] != "messages"[2];
  }

  // ------------------------------------------------------------------ how deep the estimates agree

  function Message(text: string): Val { Obj([Entry("role", Str("user")), Entry("content", Str(text))]) }

  /** A chat request as it is priced: one user message, and the tier pinned. */
  function Greeting(model: string): seq<Entry> {
    [Entry("model", Str(model)), Entry("messages", Arr([Message("Hello")]))] + [Entry("service_tier", Str("default"))]
  }

  lemma AsciiLengths()
    ensures Bytes("role") == 4 && Bytes("user") == 4 && Bytes("content") == 7 && Bytes("Hello") == 5
    ensures Bytes("messages") == 8 && Bytes("service_tier") == 12 && Bytes("default") == 7
  {
    hide Bytes;
    AsciiBytes("role");
    AsciiBytes("user");
    AsciiBytes("content");
    AsciiBytes("Hello");
    AsciiBytes("messages");
    AsciiBytes("service_tier");
    AsciiBytes("default");
  }

  /** An object of two strings. */
  lemma PairCost(a: Entry, b: Entry)
    requires a.value.Str? && b.value.Str?
    ensures Strict(Obj([a, b]), 2) == Some(14 + Bytes(a.key) + Bytes(a.value.s) + Bytes(b.key) + Bytes(b.value.s))
    ensures Height(Obj([a, b])) == 1 && ReprsAreShort(Obj([a, b]), 2)
  {
    hide Bytes;
    var fields := [a, b];
    assert fields == [] + [a] + [b] && [a] == [] + [a];
    assert Strict(a.value, 3) == Some(Bytes(a.value.s) + 2) && Strict(b.value, 3) == Some(Bytes(b.value.s) + 2);
    StrictAppends([], a, 3, 2);
    StrictAppends([a], b, 3, 2);
    ShapeAppends([], a, 3);
    ShapeAppends([a], b, 3);
    assert Strict(Obj(fields), 2) == StrictEntries(fields, 3, 2);
  }

  lemma OneItemCost(v: Val)
    requires Strict(v, 2).Some?
    ensures Strict(Arr([v]), 1) == Some(Strict(v, 2).value + 3) && Height(Arr([v])) == 1 + Height(v)
    ensures ReprsAreShort(Arr([v]), 1) <==> ReprsAreShort(v, 2)
  {
    WrappedCost(v, 1);
    OneItem(v, 1);
    hide Strict, Size;
    assert [v][1..] == [];
    assert ReprsOfItemsAreShort([v], 2) <==> ReprsAreShort(v, 2) && ReprsOfItemsAreShort([v][1..], 2);
  }

  lemma LookupInPair(a: Entry, b: Entry, key: string)
    ensures Lookup([a, b], key) == if a.key == key then a.value else if b.key == key then b.value else Null
  {
    assert [a, b][1..] == [b] && [b][1..] == [];
    assert Lookup([b], key) == if b.key == key then b.value else Null;
  }

  lemma MessageCost()
    ensures var v := Arr([Message("Hello")]); Strict(v, 1) == Some(37) && Height(v) == 2 && ReprsAreShort(v, 1)
  {
    hide Bytes, Strict, Height, ReprsAreShort;
    AsciiLengths();
    PairCost(Entry("role", Str("user")), Entry("content", Str("Hello")));
    OneItemCost(Message("Hello"));
  }

  lemma IsText(a: Entry, b: Entry)
    requires a.key == "role" && b.key == "content" && b.value.Str?
    ensures TextMessage(Obj([a, b]))
  {
    hide Lookup;
    LookupInPair(a, b, "content");
    LookupInPair(a, b, "audio");
  }

  /** A request of a model and messages alone. */
  lemma BareRequest(named: Entry, messages: Entry)
    requires named.key == "model" && messages.key == "messages" && messages.value.Arr? && messages.value.items != []
    ensures var view := [named, messages];
            && RestOf(view) == [messages] && RenderedOf(view) == []
            && Messages(view) == Some(messages.value.items) && ToolCount(view) == 0
            && Lookup(view, "model") == named.value && Lookup(view, "messages") == messages.value
  {
    var view := [named, messages];
    assert "tools"[0] != "model"[0];
    hide Lookup;
    LookupInPair(named, messages, "model");
    LookupInPair(named, messages, "messages");
    LookupInPair(named, messages, "tools");
    LookupInPair(named, messages, "functions");
    BareParts(named, messages);
  }

  lemma BareParts(named: Entry, messages: Entry)
    requires named.key == "model" && messages.key == "messages"
    ensures var view := [named, messages]; RestOf(view) == [messages] && RenderedOf(view) == []
  {
    var view := [named, messages];
    assert view == [named] + [messages] && [named] == [] + [named] && [messages] == [] + [messages];
    hide Only, Without;
    NoParts();
    PartsAppend([], named, {"model"});
    PartsAppend([named], messages, {"model"});
    PartsAppend([], messages, RENDERED);
    assert Without(view, {"model"}) == [messages];
  }

  lemma NoParts()
    ensures forall names: set<string> :: Without([], names) == [] && Only([], names) == []
  {
  }

  lemma GreetingBound(model: string)
    ensures var view := Greeting(model);
            && ChatUpperBound(view) == Some(356) && Height(Obj(view)) <= 32 && ReprsAreShort(Obj(view), 0)
            && Lookup(view, "model") == Str(model) && Lookup(view, "messages").Arr? && Lookup(view, "messages").items != []
  {
    var named, messages := Entry("model", Str(model)), Entry("messages", Arr([Message("Hello")]));
    var bare, tier := [named, messages], Entry("service_tier", Str("default"));
    assert Greeting(model) == bare + [tier];
    IsText(Entry("role", Str("user")), Entry("content", Str("Hello")));
    BareRequest(named, messages);
    BareBound(bare, messages);
    BareShape(named, messages, tier);
    TierCost();
    OtherNames();
    hide *;
    OneFieldMore(bare, tier);
    LookupSkips(bare, tier, "model");
    LookupSkips(bare, tier, "messages");
  }

  lemma TierCost()
    ensures var tier := Entry("service_tier", Str("default"));
            Strict(tier.value, 1) == Some(9) && Bytes(tier.key) == 12 && Quiet(tier.key) && tier.key != "model" && tier.key != "messages"
  {
    AsciiLengths();
    OtherNames();
  }

  lemma BareBound(view: seq<Entry>, messages: Entry)
    requires messages == Entry("messages", Arr([Message("Hello")])) && TextMessage(Message("Hello"))
    requires RestOf(view) == [messages] && RenderedOf(view) == []
    requires Messages(view) == Some([Message("Hello")]) && ToolCount(view) == 0
    ensures ChatUpperBound(view) == Some(331)
  {
    hide Strict, Bytes, ChatUpperBound, RestOf, RenderedOf, Messages, ToolCount, TextMessage;
    MessageCost();
    AsciiLengths();
    BoundParts(view);
    assert [messages] == [] + [messages];
    StrictAppends([], messages, 1, 2);
  }

  lemma BareShape(named: Entry, messages: Entry, tier: Entry)
    requires named.value.Str? && messages.value == Arr([Message("Hello")]) && tier.value.Str?
    ensures Height(Obj([named, messages] + [tier])) <= 32 && ReprsAreShort(Obj([named, messages] + [tier]), 0)
  {
    hide Message;
    MessageCost();
    assert [named, messages] == [named] + [messages] && [named] == [] + [named];
    ShapeAppends([], named, 1);
    ShapeAppends([named], messages, 1);
    ShapeAppends([named, messages], tier, 1);
    ObjectShape([named, messages] + [tier]);
  }

  /** So a request with a model and a message exists, for every model and almost every threshold, that is let
      through as short and then counted and priced on the long band. */
  lemma DeepChatIsPricedLong(model: string, threshold: nat) returns (view: seq<Entry>)
    requires threshold >= 500
    ensures Lookup(view, "model") == Str(model) && Lookup(view, "messages").Arr? && Lookup(view, "messages").items != []
    ensures ChatStaysBelowLongBand(view, Some(threshold), false) && ReprsAreShort(Obj(view), 0) && Height(Obj(view)) <= 33
    ensures BandOf(Some(threshold), EstimateInputTokens(view)) == Long
  {
    var e := DeepField(threshold / 65);
    assert e.key == "metadata" && "metadata"[2] != "messages"[2];
    view := Greeting(model) + [e];
    GreetingBound(model);
    hide Lookup, Greeting, DeepField, ReprsAreShort, Height, ChatUpperBound, EstimateInputTokens;
    LookupSkips(Greeting(model), e, "model");
    LookupSkips(Greeting(model), e, "messages");
    DeepFieldIsPricedLong(Greeting(model), threshold);
  }

  /** For every model and every threshold of at least 2000: all chat requests the bound lets through, with no long
      repr() and nested at most h levels, are priced on the short band - if and only if h is at most 32. */
  lemma BandsAgreeUpTo32Levels(model: string, threshold: nat, h: nat)
    requires threshold >= 2000
    ensures (forall view: seq<Entry>, hasImages: bool ::
               && Lookup(view, "model") == Str(model) && Lookup(view, "messages").Arr? && Lookup(view, "messages").items != []
               && ChatStaysBelowLongBand(view, Some(threshold), hasImages)
               && ReprsAreShort(Obj(view), 0) && Height(Obj(view)) <= h
               ==> BandOf(Some(threshold), EstimateInputTokens(view)) == Short)
            <==> h <= 32
  {
    hide Lookup, ChatStaysBelowLongBand, ReprsAreShort, Height, EstimateInputTokens, BandOf;
    if h <= 32 {
      forall view: seq<Entry>, hasImages: bool |
        ChatStaysBelowLongBand(view, Some(threshold), hasImages) && ReprsAreShort(Obj(view), 0) && Height(Obj(view)) <= h
        ensures BandOf(Some(threshold), EstimateInputTokens(view)) == Short
      {
        PassingChatIsPricedShort(view, Some(threshold), hasImages);
      }
    } else {
      var view := DeepChatIsPricedLong(model, threshold);
    }
  }
}

/** json.dumps with ensure_ascii and compact separators, and the reply budget of catalog_proxy.py. */
module Encoder {
  import opened Common

  const MAX_AGENT_TEXT_BYTES: nat := 32 * 1024

  /** A Python value that json.dumps accepts; a number is its repr. */
  datatype Value =
    | Null
    | Bool(b: bool)
    | Num(text: string)
    | Str(s: string)
    | Arr(items: seq<Value>)
    | Dict(entries: seq<Entry>)

  datatype Entry = Entry(key: string, value: Value)

  // ---- the encoder ------------------------------------------------------------------------

  /** The escape \uXXXX. */
  function Unicode(n: nat): (text: string)
    ensures |text| == 6 && Ascii(text)
  {
    ['\\', 'u', HexDigit(n / 4096 % 16), HexDigit(n / 256 % 16), HexDigit(n / 16 % 16), HexDigit(n % 16)]
  }

  /** ESCAPE_ASCII: short escapes, printable ASCII as it is, everything else by \u, beyond the basic plane by a surrogate pair. */
  function EncodeChar(c: char): string {
    if c == '\"' then "\\\""
    else if c == '\\' then "\\\\"
    else if c == '\n' then "\\n"
    else if c == '\r' then "\\r"
    else if c == '\t' then "\\t"
    else if c == '\U{8}' then "\\b"
    else if c == '\U{c}' then "\\f"
    else if ' ' <= c <= '~' then [c]
    else if (c as int) < 0x10000 then Unicode(c as int)
    else
      var n := c as int - 0x10000;
      Unicode(0xd800 + n / 1024) + Unicode(0xdc00 + n % 1024)
  }

  function EncodeChars(s: string): string {
    if s == "" then "" else EncodeChar(s[0]) + EncodeChars(s[1..])
  }

  function EncodeString(s: string): string {
    "\"" + EncodeChars(s) + "\""
  }

  function Encode(v: Value): string {
    match v
    case Null => "null"
    case Bool(b) => if b then "true" else "false"
    case Num(text) => text
    case Str(s) => EncodeString(s)
    case Arr(items) => "[" + EncodeItems(items) + "]"
    case Dict(entries) => "{" + EncodeEntries(entries) + "}"
  }

  function EncodeItems(items: seq<Value>): string {
    if items == [] then ""
    else Encode(items[0]) + (if |items| == 1 then "" else "," + EncodeItems(items[1..]))
  }

  function EncodeEntries(entries: seq<Entry>): string {
    if entries == [] then ""
    else
      EncodeString(entries[0].key) + ":" + Encode(entries[0].value)
      + (if |entries| == 1 then "" else "," + EncodeEntries(entries[1..]))
  }

  /** Numbers have ASCII reprs. */
  predicate AsciiNumbers(v: Value) {
    match v
    case Num(text) => Ascii(text)
    case Arr(items) => forall i | 0 <= i < |items| :: AsciiNumbers(items[i])
    case Dict(entries) => forall i | 0 <= i < |entries| :: AsciiNumbers(entries[i].value)
    case _ => true
  }

  predicate Ascii(s: string) {
    forall i | 0 <= i < |s| :: s[i] < '\U{80}'
  }

  /** len(text.encode("utf-8")). */
  function ByteLength(s: string): nat {
    if s == "" then 0
    else
      var c := s[|s| - 1] as int;
      ByteLength(s[..|s| - 1]) + (if c < 0x80 then 1 else if c < 0x800 then 2 else if c < 0x10000 then 3 else 4)
  }

  lemma {:induction false} AsciiBytes(s: string)
    requires Ascii(s)
    ensures ByteLength(s) == |s|
  {
    if s != "" { AsciiBytes(s[..|s| - 1]); }
  }

  lemma CharIsAscii(c: char)
    ensures Ascii(EncodeChar(c)) && 1 <= |EncodeChar(c)| <= 12
  {
    hide Unicode;
  }

  lemma {:induction false} CharsAreAscii(s: string)
    ensures Ascii(EncodeChars(s)) && |s| <= |EncodeChars(s)| <= 12 * |s|
  {
    hide EncodeChar;
    if s != "" {
      CharIsAscii(s[0]);
      CharsAreAscii(s[1..]);
    }
  }

  lemma {:induction false} EncodeIsAscii(v: Value)
    requires AsciiNumbers(v)
    ensures Ascii(Encode(v))
    decreases v, 1
  {
    hide EncodeChars;
    match v
    case Str(s) => CharsAreAscii(s);
    case Arr(items) => ItemsAreAscii(items);
    case Dict(entries) => EntriesAreAscii(entries);
    case _ =>
  }

  lemma {:induction false} ItemsAreAscii(items: seq<Value>)
    requires forall i | 0 <= i < |items| :: AsciiNumbers(items[i])
    ensures Ascii(EncodeItems(items))
    decreases items, 0
  {
    hide Encode;
    if items != [] {
      EncodeIsAscii(items[0]);
      ItemsAreAscii(items[1..]);
    }
  }

  lemma {:induction false} EntriesAreAscii(entries: seq<Entry>)
    requires forall i | 0 <= i < |entries| :: AsciiNumbers(entries[i].value)
    ensures Ascii(EncodeEntries(entries))
    decreases entries, 0
  {
    hide Encode, EncodeChars;
    if entries != [] {
      CharsAreAscii(entries[0].key);
      EncodeIsAscii(entries[0].value);
      EntriesAreAscii(entries[1..]);
    }
  }

  // ---- a bound that needs no encoding -----------------------------------------------------

  /** Twelve bytes for every code point of a string, plus punctuation. */
  function Weight(v: Value): nat {
    match v
    case Null => 5
    case Bool(_) => 5
    case Num(text) => |text|
    case Str(s) => 12 * |s| + 2
    case Arr(items) => 2 + ItemsWeight(items)
    case Dict(entries) => 2 + EntriesWeight(entries)
  }

  function ItemsWeight(items: seq<Value>): nat {
    if items == [] then 0 else Weight(items[0]) + 1 + ItemsWeight(items[1..])
  }

  function EntryWeight(e: Entry): nat {
    12 * |e.key| + 4 + Weight(e.value)
  }

  function EntriesWeight(entries: seq<Entry>): nat {
    if entries == [] then 0 else EntryWeight(entries[0]) + EntriesWeight(entries[1..])
  }

  lemma {:induction false} EncodeWithinWeight(v: Value)
    ensures |Encode(v)| <= Weight(v)
    decreases v, 1
  {
    hide EncodeChars;
    match v
    case Str(s) => CharsAreAscii(s);
    case Arr(items) => ItemsWithinWeight(items);
    case Dict(entries) => EntriesWithinWeight(entries);
    case _ =>
  }

  lemma {:induction false} ItemsWithinWeight(items: seq<Value>)
    ensures |EncodeItems(items)| <= ItemsWeight(items)
    decreases items, 0
  {
    hide Encode, Weight;
    if items != [] {
      EncodeWithinWeight(items[0]);
      ItemsWithinWeight(items[1..]);
    }
  }

  lemma {:induction false} EntriesWithinWeight(entries: seq<Entry>)
    ensures |EncodeEntries(entries)| <= EntriesWeight(entries)
    decreases entries, 0
  {
    hide Encode, Weight, EncodeChars;
    if entries != [] {
      CharsAreAscii(entries[0].key);
      EncodeWithinWeight(entries[0].value);
      EntriesWithinWeight(entries[1..]);
    }
  }

  lemma {:induction false} WeightConcat(a: seq<Entry>, b: seq<Entry>)
    ensures EntriesWeight(a + b) == EntriesWeight(a) + EntriesWeight(b)
  {
    hide EntryWeight;
    if a == [] {
      assert a + b == b;
    } else {
      assert (a + b)[1..] == a[1..] + b;
      WeightConcat(a[1..], b);
    }
  }

  lemma {:induction false} UniformWeight(entries: seq<Entry>, bound: nat)
    requires forall i | 0 <= i < |entries| :: EntryWeight(entries[i]) <= bound
    ensures EntriesWeight(entries) <= |entries| * bound
  {
    hide EntryWeight;
    if entries != [] { UniformWeight(entries[1..], bound); }
  }

  // ---- the budget -------------------------------------------------------------------------

  /** dumps: None is the body_budget error. */
  function Dumps(entries: seq<Entry>): (text: Option<string>)
    ensures text.Some? ==> ByteLength(text.value) <= MAX_AGENT_TEXT_BYTES
  {
    var text := Encode(Dict(entries));
    if ByteLength(text) <= MAX_AGENT_TEXT_BYTES then Some(text) else None
  }

  /** Light entries are always encoded. */
  lemma LightDumps(entries: seq<Entry>)
    requires AsciiNumbers(Dict(entries)) && EntriesWeight(entries) + 2 <= MAX_AGENT_TEXT_BYTES
    ensures Dumps(entries).Some?
  {
    var v := Dict(entries);
    EncodeIsAscii(v);
    EncodeWithinWeight(v);
    AsciiBytes(Encode(v));
  }
}

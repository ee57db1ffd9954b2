/** A reader for compact JSON texts (RFC 8259, without whitespace), written on its own, and what it says about the encoder:
    every encoding reads back as the value that it encodes. */
module JsonReader {
  import opened Common
  import opened Encoder

  // ---- numbers ----------------------------------------------------------------------------

  predicate Digit(c: char) {
    '0' <= c <= '9'
  }

  predicate NumberChar(c: char) {
    Digit(c) || c == '-' || c == '+' || c == '.' || c == 'e' || c == 'E'
  }

  /** How many characters from i on satisfy the digit test. */
  function DigitsFrom(s: string, i: nat): (j: nat)
    requires i <= |s|
    ensures i <= j <= |s|
    decreases |s| - i
  {
    if i < |s| && Digit(s[i]) then DigitsFrom(s, i + 1) else i
  }

  /** -?(0|[1-9][0-9]*)(\.[0-9]+)?([eE][+-]?[0-9]+)? and nothing else. */
  predicate JsonNumber(s: string) {
    var start := if s != "" && s[0] == '-' then 1 else 0;
    var whole := DigitsFrom(s, start);
    && start < whole && (s[start] != '0' || whole == start + 1)
    && var fraction := if whole < |s| && s[whole] == '.' then DigitsFrom(s, whole + 1) else whole;
    && fraction != whole + 1
    && (fraction == |s|
        || ((s[fraction] == 'e' || s[fraction] == 'E')
            && var sign := if fraction + 1 < |s| && (s[fraction + 1] == '+' || s[fraction + 1] == '-') then fraction + 2 else fraction + 1;
            sign < DigitsFrom(s, sign) == |s|))
  }

  /** The longest run of number characters. */
  function Run(s: string): (n: nat)
    ensures n <= |s|
  {
    if s == "" || !NumberChar(s[0]) then 0 else 1 + Run(s[1..])
  }

  // ---- strings ----------------------------------------------------------------------------

  /** The value of four hexadecimal digits at the beginning. */
  function Hex4(s: string): (r: Option<nat>)
    ensures r.Some? ==> 4 <= |s| && r.value < 0x10000
  {
    if |s| < 4 then None
    else
      var a, b, c, d := HexValue(s[0]), HexValue(s[1]), HexValue(s[2]), HexValue(s[3]);
      if a.None? || b.None? || c.None? || d.None? then None
      else Some(4096 * a.value + 256 * b.value + 16 * c.value + d.value)
  }

  datatype Symbol = Symbol(c: char, length: nat)

  /** The character that an escape, after its backslash, stands for, and how long it is. */
  function Escaped(s: string): (r: Option<Symbol>)
    ensures r.Some? ==> 1 <= r.value.length <= |s|
  {
    if s == "" then None
    else
      match s[0]
      case '\"' => Some(Symbol('\"', 1))
      case '\\' => Some(Symbol('\\', 1))
      case '/' => Some(Symbol('/', 1))
      case 'b' => Some(Symbol('\U{8}', 1))
      case 'f' => Some(Symbol('\U{c}', 1))
      case 'n' => Some(Symbol('\n', 1))
      case 'r' => Some(Symbol('\r', 1))
      case 't' => Some(Symbol('\t', 1))
      case 'u' => EscapedUnicode(s[1..])
      case _ => None
  }

  /** Four hexadecimal digits, or a surrogate pair; a lone surrogate is no character. */
  function EscapedUnicode(s: string): (r: Option<Symbol>)
    ensures r.Some? ==> 1 <= r.value.length <= |s| + 1
  {
    var high := Hex4(s);
    if high.None? then None
    else if high.value < 0xd800 || 0xe000 <= high.value then Some(Symbol(high.value as char, 5))
    else
      var low := if 6 <= |s| && s[4] == '\\' && s[5] == 'u' then Hex4(s[6..]) else None;
      if 0xdc00 <= high.value || low.None? || low.value < 0xdc00 || 0xe000 <= low.value then None
      else Some(Symbol((0x10000 + (high.value - 0xd800) * 1024 + (low.value - 0xdc00)) as char, 11))
  }

  datatype Text = Text(s: string, rest: string)

  /** A string after its opening quote, up to and including the closing one. */
  function ReadChars(s: string): (r: Option<Text>)
    ensures r.Some? ==> |r.value.rest| < |s|
    decreases |s|
  {
    if s == "" || s[0] < ' ' then None
    else if s[0] == '\"' then Some(Text("", s[1..]))
    else
      var symbol := if s[0] == '\\' then Escaped(s[1..]) else Some(Symbol(s[0], 0));
      if symbol.None? then None
      else
        var more := ReadChars(s[1 + symbol.value.length..]);
        if more.None? then None else Some(Text([symbol.value.c] + more.value.s, more.value.rest))
  }

  // ---- values -----------------------------------------------------------------------------

  datatype Reading = Reading(value: Value, rest: string)
  datatype Items = Items(items: seq<Value>, rest: string)
  datatype Members = Members(entries: seq<Entry>, rest: string)

  function ReadWord(s: string, word: string, v: Value): (r: Option<Reading>)
    requires word != ""
    ensures r.Some? ==> |r.value.rest| < |s|
  {
    if word <= s then Some(Reading(v, s[|word|..])) else None
  }

  function ReadNumber(s: string): (r: Option<Reading>)
    ensures r.Some? ==> |r.value.rest| < |s|
  {
    var n := Run(s);
    if JsonNumber(s[..n]) then Some(Reading(Num(s[..n]), s[n..])) else None
  }

  /** The value at the beginning of a text, and the rest of it. */
  function ReadValue(s: string): (r: Option<Reading>)
    ensures r.Some? ==> |r.value.rest| < |s|
    decreases |s|, 0
  {
    if s == "" then None
    else if s[0] == 'n' then ReadWord(s, "null", Null)
    else if s[0] == 't' then ReadWord(s, "true", Bool(true))
    else if s[0] == 'f' then ReadWord(s, "false", Bool(false))
    else if s[0] == '\"' then
      var text := ReadChars(s[1..]);
      if text.None? then None else Some(Reading(Str(text.value.s), text.value.rest))
    else if s[0] == '[' then
      if 1 < |s| && s[1] == ']' then Some(Reading(Arr([]), s[2..]))
      else
        var items := ReadItems(s[1..]);
        if items.None? then None else Some(Reading(Arr(items.value.items), items.value.rest))
    else if s[0] == '{' then
      if 1 < |s| && s[1] == '}' then Some(Reading(Dict([]), s[2..]))
      else
        var members := ReadMembers(s[1..]);
        if members.None? then None else Some(Reading(Dict(members.value.entries), members.value.rest))
    else ReadNumber(s)
  }

  /** Values separated by commas, up to and including the closing bracket. */
  function ReadItems(s: string): (r: Option<Items>)
    ensures r.Some? ==> |r.value.rest| < |s|
    decreases |s|, 1
  {
    var first := ReadValue(s);
    if first.None? || first.value.rest == "" then None
    else
      var next := first.value.rest;
      if next[0] == ']' then Some(Items([first.value.value], next[1..]))
      else if next[0] != ',' then None
      else
        var more := ReadItems(next[1..]);
        if more.None? then None else Some(Items([first.value.value] + more.value.items, more.value.rest))
  }

  /** Members separated by commas, up to and including the closing brace. */
  function ReadMembers(s: string): (r: Option<Members>)
    ensures r.Some? ==> |r.value.rest| < |s|
    decreases |s|, 1
  {
    if s == "" || s[0] != '\"' then None
    else
      var key := ReadChars(s[1..]);
      if key.None? || key.value.rest == "" || key.value.rest[0] != ':' then None
      else
        var first := ReadValue(key.value.rest[1..]);
        if first.None? || first.value.rest == "" then None
        else
          var entry, next := Entry(key.value.s, first.value.value), first.value.rest;
          if next[0] == '}' then Some(Members([entry], next[1..]))
          else if next[0] != ',' then None
          else
            var more := ReadMembers(next[1..]);
            if more.None? then None else Some(Members([entry] + more.value.entries, more.value.rest))
  }

  // ---- reading back: strings --------------------------------------------------------------

  lemma UnicodeBack(n: nat, rest: string)
    requires n < 0x10000
    ensures Unicode(n)[..2] == "\\u" && Hex4(Unicode(n)[2..] + rest) == Some(n)
  {
    hide HexDigit, HexValue;
    var a, b, c, d := n / 4096, n / 256 % 16, n / 16 % 16, n % 16;
    assert n / 4096 % 16 == a;
    HexBack(a);
    HexBack(b);
    HexBack(c);
    HexBack(d);
    FourDigits(n);
  }

  lemma FourDigits(n: nat)
    requires n < 0x10000
    ensures 4096 * (n / 4096) + 256 * (n / 256 % 16) + 16 * (n / 16 % 16) + n % 16 == n
  {
    assert n / 256 == 16 * (n / 4096) + n / 256 % 16;
    assert n / 16 == 16 * (n / 256) + n / 16 % 16;
    assert n == 16 * (n / 16) + n % 16;
  }

  /** A character that is written as it is, or as a short escape. */
  lemma ShortBack(c: char, rest: string)
    requires |EncodeChar(c)| <= 2
    ensures var t := EncodeChar(c) + rest;
            && ' ' <= t[0] && t[0] != '\"'
            && (|EncodeChar(c)| == 1 ==> t[0] == c && t[0] != '\\' && t[1..] == rest)
            && (|EncodeChar(c)| == 2 ==> t[0] == '\\' && Escaped(t[1..]) == Some(Symbol(c, 1)) && t[2..] == rest)
            && |EncodeChar(c)| >= 1
  {
    hide Unicode, EscapedUnicode;
  }

  /** A character of the basic plane that is written by its code. */
  lemma CodeBack(c: char, rest: string)
    requires |EncodeChar(c)| == 6
    ensures var t := EncodeChar(c) + rest;
            t[0] == '\\' && Escaped(t[1..]) == Some(Symbol(c, 5)) && t[6..] == rest
  {
    hide HexDigit, Hex4;
    assert EncodeChar(c) == Unicode(c as int) && (c as int) < 0x10000;
    UnicodeBack(c as int, rest);
    var t := EncodeChar(c) + rest;
    assert t[1..][1..] == Unicode(c as int)[2..] + rest;
    assert t[1..][0] == Unicode(c as int)[..2][1];
  }

  /** A character beyond the basic plane. */
  lemma PairBack(c: char, rest: string)
    requires |EncodeChar(c)| == 12
    ensures var t := EncodeChar(c) + rest;
            t[0] == '\\' && Escaped(t[1..]) == Some(Symbol(c, 11)) && t[12..] == rest
  {
    var high, low := Units(c);
    var t := EncodeChar(c) + rest;
    UnicodeBack(high, Unicode(low) + rest);
    UnicodeBack(low, rest);
    hide Unicode, Hex4, EncodeChar, EscapedUnicode;
    var s := Unicode(high)[2..] + (Unicode(low) + rest);
    TwoUnits(Unicode(high), Unicode(low), rest);
    PairRead(s, high, low, c);
    assert t == Unicode(high) + (Unicode(low) + rest);
  }

  lemma TwoUnits(a: string, b: string, rest: string)
    requires |a| == |b| == 6 && a[..2] == b[..2] == "\\u"
    ensures var t, s := a + (b + rest), a[2..] + (b + rest);
            && t[0] == '\\' && t[1] == 'u' && t[1..][1..] == s && s[6..] == b[2..] + rest && s[4] == '\\' && s[5] == 'u'
            && (a + b) + rest == t && t[12..] == rest
  {
    var s := a[2..] + (b + rest);
    assert s[4..] == b + rest;
    assert s[4] == b[..2][0] && s[5] == b[..2][1];
    assert a[..2][0] == '\\' && a[..2][1] == 'u';
  }

  lemma PairRead(s: string, high: nat, low: nat, c: char)
    requires Hex4(s) == Some(high) && 6 <= |s| && s[4] == '\\' && s[5] == 'u' && Hex4(s[6..]) == Some(low)
    requires 0xd800 <= high < 0xdc00 <= low < 0xe000 && 0x10000 + (high - 0xd800) * 1024 + (low - 0xdc00) == c as int
    ensures EscapedUnicode(s) == Some(Symbol(c, 11))
  {
    hide Hex4;
  }

  /** The two surrogates of a character beyond the basic plane. */
  lemma Units(c: char) returns (high: nat, low: nat)
    requires |EncodeChar(c)| == 12
    ensures 0xd800 <= high < 0xdc00 <= low < 0xe000 && 0x10000 + (high - 0xd800) * 1024 + (low - 0xdc00) == c as int
    ensures EncodeChar(c) == Unicode(high) + Unicode(low)
  {
    hide HexDigit, Unicode;
    var n := c as int - 0x10000;
    assert 0 <= n < 0x100000;
    high, low := 0xd800 + n / 1024, 0xdc00 + n % 1024;
  }

  lemma EncodeCharSizes(c: char)
    ensures |EncodeChar(c)| in {1, 2, 6, 12}
  {
    hide Unicode;
  }

  /** The first n characters of t stand for c. */
  predicate StandsFor(t: string, c: char, n: nat) {
    && 1 <= n <= |t| && ' ' <= t[0] && t[0] != '\"'
    && (if t[0] == '\\' then Escaped(t[1..]) == Some(Symbol(c, n - 1)) else c == t[0] && n == 1)
  }

  lemma CharBack(c: char, rest: string)
    ensures var t, n := EncodeChar(c) + rest, |EncodeChar(c)|;
            StandsFor(t, c, n) && t[n..] == rest
  {
    hide EncodeChar, Escaped;
    EncodeCharSizes(c);
    if |EncodeChar(c)| <= 2 {
      ShortBack(c, rest);
    } else if |EncodeChar(c)| == 6 {
      CodeBack(c, rest);
    } else {
      PairBack(c, rest);
    }
  }

  lemma CharsStep(t: string, c: char, n: nat)
    requires StandsFor(t, c, n) && ReadChars(t[n..]).Some?
    ensures var more := ReadChars(t[n..]).value;
            ReadChars(t) == Some(Text([c] + more.s, more.rest))
  {
    hide Escaped;
  }

  lemma {:induction false} CharsBack(s: string, rest: string)
    ensures ReadChars(EncodeChars(s) + ("\"" + rest)) == Some(Text(s, rest))
  {
    hide EncodeChar, StandsFor;
    if s == "" {
      assert EncodeChars(s) + ("\"" + rest) == "\"" + rest;
      assert ("\"" + rest)[1..] == rest;
    } else {
      hide ReadChars;
      var tail := EncodeChars(s[1..]) + ("\"" + rest);
      assert EncodeChars(s) + ("\"" + rest) == EncodeChar(s[0]) + tail;
      CharsBack(s[1..], rest);
      CharBack(s[0], tail);
      CharsStep(EncodeChar(s[0]) + tail, s[0], |EncodeChar(s[0])|);
      assert [s[0]] + s[1..] == s;
    }
  }

  // ---- reading back: numbers --------------------------------------------------------------

  /** A text after which a number has ended. */
  predicate Stops(rest: string) {
    rest != "" ==> !NumberChar(rest[0])
  }

  lemma {:induction false} DigitsAreDigits(s: string, i: nat, k: nat)
    requires i <= |s| && i <= k < DigitsFrom(s, i)
    ensures Digit(s[k])
    decreases k - i
  {
    if k > i { DigitsAreDigits(s, i + 1, k); }
  }

  lemma NumberIsRun(s: string, k: nat)
    requires JsonNumber(s) && k < |s|
    ensures NumberChar(s[k])
  {
    var start := if s != "" && s[0] == '-' then 1 else 0;
    var whole := DigitsFrom(s, start);
    if start <= k < whole {
      DigitsAreDigits(s, start, k);
    } else if whole < k {
      var fraction := if whole < |s| && s[whole] == '.' then DigitsFrom(s, whole + 1) else whole;
      if whole + 1 <= k < fraction {
        DigitsAreDigits(s, whole + 1, k);
      } else if fraction < k {
        var sign := if fraction + 1 < |s| && (s[fraction + 1] == '+' || s[fraction + 1] == '-') then fraction + 2 else fraction + 1;
        if sign <= k { DigitsAreDigits(s, sign, k); }
      }
    }
  }

  lemma {:induction false} RunBack(s: string, rest: string)
    requires Stops(rest) && forall k | 0 <= k < |s| :: NumberChar(s[k])
    ensures Run(s + rest) == |s|
  {
    if s == "" {
      assert s + rest == rest;
    } else {
      assert (s + rest)[1..] == s[1..] + rest;
      RunBack(s[1..], rest);
    }
  }

  lemma NumberBack(s: string, rest: string)
    requires JsonNumber(s) && Stops(rest)
    ensures ReadValue(s + rest) == Some(Reading(Num(s), rest))
  {
    hide JsonNumber;
    forall k: nat | k < |s| {
      NumberIsRun(s, k);
    }
    RunBack(s, rest);
    NumberNotEmpty(s);
    assert (s + rest)[..|s|] == s && (s + rest)[|s|..] == rest;
    assert (s + rest)[0] == s[0];
  }

  lemma NumberNotEmpty(s: string)
    requires JsonNumber(s)
    ensures s != ""
  {}

  // ---- reading back: values ---------------------------------------------------------------

  predicate JsonNumbers(v: Value) {
    match v
    case Num(text) => JsonNumber(text)
    case Arr(items) => forall i | 0 <= i < |items| :: JsonNumbers(items[i])
    case Dict(entries) => forall i | 0 <= i < |entries| :: JsonNumbers(entries[i].value)
    case _ => true
  }

  lemma StringBack(s: string, rest: string)
    ensures EncodeString(s) + rest != "" && (EncodeString(s) + rest)[0] == '\"'
    ensures ReadChars((EncodeString(s) + rest)[1..]) == Some(Text(s, rest))
  {
    hide EncodeChars, ReadChars;
    CharsBack(s, rest);
    assert (EncodeString(s) + rest)[1..] == EncodeChars(s) + ("\"" + rest);
  }

  lemma WordBack(word: string, rest: string)
    ensures (word + rest)[|word|..] == rest && word <= word + rest
  {}

  /** Reading an encoding, followed by anything that cannot extend a number, gives the value and leaves the rest. */
  lemma {:induction false} ReadBack(v: Value, rest: string)
    requires JsonNumbers(v) && Stops(rest)
    ensures ReadValue(Encode(v) + rest) == Some(Reading(v, rest))
    decreases v, 1
  {
    hide EncodeString, ReadChars, ReadItems, ReadMembers, EncodeItems, EncodeEntries;
    match v
    case Null => WordBack("null", rest);
    case Bool(b) => WordBack(if b then "true" else "false", rest);
    case Num(text) => NumberBack(text, rest);
    case Str(s) => StringBack(s, rest);
    case Arr(items) =>
      if items != [] { ItemsBack(items, rest); }
      ArrayBack(items, rest);
    case Dict(entries) =>
      if entries != [] { MembersBack(entries, rest); }
      ObjectBack(entries, rest);
  }

  lemma EmptyBack(open: char, close: char, rest: string)
    ensures var t := [open] + "" + [close] + rest;
            2 <= |t| && t[0] == open && t[1] == close && t[2..] == rest
  {}

  lemma FullBack(open: char, inner: string, close: char, rest: string)
    ensures var t := [open] + inner + [close] + rest;
            t != "" && t[0] == open && t[1..] == inner + ([close] + rest)
  {}

  lemma ArrayBack(items: seq<Value>, rest: string)
    requires items != [] ==> JsonNumbers(items[0]) && ReadItems(EncodeItems(items) + ("]" + rest)) == Some(Items(items, rest))
    ensures ReadValue(Encode(Arr(items)) + rest) == Some(Reading(Arr(items), rest))
  {
    var t := Encode(Arr(items)) + rest;
    assert t == ['['] + EncodeItems(items) + [']'] + rest;
    hide Encode;
    if items == [] {
      EmptyBack('[', ']', rest);
    } else {
      ItemsStart(items, "]" + rest);
      hide EncodeItems, ReadItems, JsonNumbers;
      FullBack('[', EncodeItems(items), ']', rest);
      assert t[1] == t[1..][0];
    }
  }

  lemma ObjectRead(t: string)
    requires 2 <= |t| && t[0] == '{'
    ensures t[1] == '}' ==> ReadValue(t) == Some(Reading(Dict([]), t[2..]))
    ensures t[1] != '}' && ReadMembers(t[1..]).Some? ==>
              var m := ReadMembers(t[1..]).value; ReadValue(t) == Some(Reading(Dict(m.entries), m.rest))
  {
    hide ReadMembers, ReadItems, ReadChars, ReadNumber, ReadWord;
  }

  lemma ObjectBack(entries: seq<Entry>, rest: string)
    requires entries != [] ==> ReadMembers(EncodeEntries(entries) + ("}" + rest)) == Some(Members(entries, rest))
    ensures ReadValue(Encode(Dict(entries)) + rest) == Some(Reading(Dict(entries), rest))
  {
    var t := Encode(Dict(entries)) + rest;
    assert |Encode(Dict(entries))| >= 2;
    assert t == ['{'] + EncodeEntries(entries) + ['}'] + rest;
    hide Encode, ReadValue;
    ObjectRead(t);
    if entries == [] {
      EmptyBack('{', '}', rest);
    } else {
      MembersStart(entries, "}" + rest);
      hide EncodeEntries, ReadMembers;
      FullBack('{', EncodeEntries(entries), '}', rest);
      assert t[1] == t[1..][0];
    }
  }

  lemma ItemsStart(items: seq<Value>, rest: string)
    requires items != [] && JsonNumbers(items[0])
    ensures var t := EncodeItems(items) + rest;
            t != "" && t[0] != ']'
  {
    hide JsonNumber;
    match items[0]
    case Num(text) =>
      NumberNotEmpty(text);
      NumberIsRun(text, 0);
    case _ =>
  }

  lemma MembersStart(entries: seq<Entry>, rest: string)
    requires entries != []
    ensures var t := EncodeEntries(entries) + rest;
            t != "" && t[0] == '\"'
  {}

  lemma ItemsStep(t: string, v: Value, next: string)
    requires ReadValue(t) == Some(Reading(v, next)) && next != ""
    ensures next[0] == ']' ==> ReadItems(t) == Some(Items([v], next[1..]))
    ensures next[0] == ',' && ReadItems(next[1..]).Some? ==>
              var more := ReadItems(next[1..]).value; ReadItems(t) == Some(Items([v] + more.items, more.rest))
  {
    hide ReadValue;
  }

  lemma Glue(e: string, m: string, end: string)
    ensures (e + "") + end == e + end
    ensures (e + ("," + m)) + end == e + ("," + (m + end))
    ensures ("," + (m + end))[1..] == m + end
  {
    assert (e + ("," + m)) + end == e + (("," + m) + end);
  }

  lemma Closes(close: char, rest: string)
    requires !NumberChar(close)
    ensures var t := [close] + rest; t != "" && t[0] == close && t[1..] == rest && Stops(t)
  {}

  /** What follows the first item. */
  function AfterItem(items: seq<Value>, rest: string): string
    requires items != []
  {
    if |items| == 1 then "]" + rest else "," + (EncodeItems(items[1..]) + ("]" + rest))
  }

  lemma ItemsSplit(items: seq<Value>, rest: string)
    requires items != []
    ensures EncodeItems(items) + ("]" + rest) == Encode(items[0]) + AfterItem(items, rest)
    ensures var next := AfterItem(items, rest);
            && next != "" && Stops(next)
            && (if |items| == 1 then next[0] == ']' && next[1..] == rest
                else next[0] == ',' && next[1..] == EncodeItems(items[1..]) + ("]" + rest))
  {
    hide Encode;
    var e, m := Encode(items[0]), if |items| == 1 then "" else EncodeItems(items[1..]);
    assert EncodeItems(items) == e + (if |items| == 1 then "" else "," + m);
    hide EncodeItems;
    Closes(']', rest);
    Glue(e, m, "]" + rest);
  }

  lemma {:induction false} ItemsBack(items: seq<Value>, rest: string)
    requires items != [] && forall i | 0 <= i < |items| :: JsonNumbers(items[i])
    ensures ReadItems(EncodeItems(items) + ("]" + rest)) == Some(Items(items, rest))
    decreases items, 0
  {
    hide Encode, EncodeItems, AfterItem, JsonNumbers, ReadValue, ReadItems, Stops;
    ItemsSplit(items, rest);
    ReadBack(items[0], AfterItem(items, rest));
    ItemsStep(EncodeItems(items) + ("]" + rest), items[0], AfterItem(items, rest));
    if |items| == 1 {
      assert [items[0]] == items;
    } else {
      ItemsBack(items[1..], rest);
      assert [items[0]] + items[1..] == items;
    }
  }

  lemma MembersStep(t: string, key: string, after: string, v: Value, next: string)
    requires t != "" && t[0] == '\"' && ReadChars(t[1..]) == Some(Text(key, ":" + after))
    requires ReadValue(after) == Some(Reading(v, next)) && next != ""
    ensures next[0] == '}' ==> ReadMembers(t) == Some(Members([Entry(key, v)], next[1..]))
    ensures next[0] == ',' && ReadMembers(next[1..]).Some? ==>
              var more := ReadMembers(next[1..]).value; ReadMembers(t) == Some(Members([Entry(key, v)] + more.entries, more.rest))
  {
    hide ReadValue, ReadChars;
    assert (":" + after)[1..] == after;
  }

  /** What follows the first member. */
  function AfterMember(entries: seq<Entry>, rest: string): string
    requires entries != []
  {
    if |entries| == 1 then "}" + rest else "," + (EncodeEntries(entries[1..]) + ("}" + rest))
  }

  lemma MembersSplit(entries: seq<Entry>, rest: string)
    requires entries != []
    ensures EncodeEntries(entries) + ("}" + rest) ==
            EncodeString(entries[0].key) + (":" + (Encode(entries[0].value) + AfterMember(entries, rest)))
    ensures var next := AfterMember(entries, rest);
            && next != "" && Stops(next)
            && (if |entries| == 1 then next[0] == '}' && next[1..] == rest
                else next[0] == ',' && next[1..] == EncodeEntries(entries[1..]) + ("}" + rest))
  {
    hide Encode, EncodeString, EncodeEntries;
    var k, e := EncodeString(entries[0].key), Encode(entries[0].value);
    var m := if |entries| == 1 then "" else EncodeEntries(entries[1..]);
    MembersUnfold(entries);
    Closes('}', rest);
    Glue(e, m, "}" + rest);
    KeyAndValue(k, e, if |entries| == 1 then "" else "," + m, "}" + rest);
  }

  lemma MembersUnfold(entries: seq<Entry>)
    requires entries != []
    ensures EncodeEntries(entries) == ((EncodeString(entries[0].key) + ":") + Encode(entries[0].value))
                                      + (if |entries| == 1 then "" else "," + EncodeEntries(entries[1..]))
  {
    hide Encode, EncodeString;
  }

  lemma KeyAndValue(k: string, e: string, tail: string, end: string)
    ensures (((k + ":") + e) + tail) + end == k + (":" + ((e + tail) + end))
  {
    assert ((k + ":") + e) + tail == (k + ":") + (e + tail);
    assert ((k + ":") + (e + tail)) + end == (k + ":") + ((e + tail) + end);
    assert (k + ":") + ((e + tail) + end) == k + (":" + ((e + tail) + end));
  }

  lemma {:induction false} MembersBack(entries: seq<Entry>, rest: string)
    requires entries != [] && forall i | 0 <= i < |entries| :: JsonNumbers(entries[i].value)
    ensures ReadMembers(EncodeEntries(entries) + ("}" + rest)) == Some(Members(entries, rest))
    decreases entries, 0
  {
    hide Encode, EncodeString, EncodeEntries, AfterMember, JsonNumbers, ReadValue, ReadChars, ReadMembers, Stops;
    var e, next := entries[0], AfterMember(entries, rest);
    var after := Encode(e.value) + next;
    MembersSplit(entries, rest);
    StringBack(e.key, ":" + after);
    ReadBack(e.value, next);
    MembersStep(EncodeEntries(entries) + ("}" + rest), e.key, after, e.value, next);
    assert Entry(e.key, e.value) == e;
    if |entries| == 1 {
      assert [e] == entries;
    } else {
      MembersBack(entries[1..], rest);
      assert [e] + entries[1..] == entries;
    }
  }

  /** Reading a whole text. */
  function ReadText(s: string): Option<Value> {
    var r := ReadValue(s);
    if r.Some? && r.value.rest == "" then Some(r.value.value) else None
  }

  lemma TextBack(v: Value)
    requires JsonNumbers(v)
    ensures ReadText(Encode(v)) == Some(v)
  {
    hide ReadValue, Encode;
    ReadBack(v, "");
    assert Encode(v) + "" == Encode(v);
  }
}

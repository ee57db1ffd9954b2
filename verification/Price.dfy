/** atomicUsdcToDisplay of server.js and the expected-price parser of agent-discoverability-audit.mjs. */
module Price {
  import opened Common

  const BOUND: nat := 1_000_000_000_000

  predicate AllDigits(s: string) {
    forall i | 0 <= i < |s| :: '0' <= s[i] <= '9'
  }

  /** BigInt of a digit string, leading zeros allowed. */
  function Amount(s: string): nat
    requires AllDigits(s)
  {
    if s == "" then 0 else 10 * Amount(s[..|s| - 1]) + (s[|s| - 1] as int - '0' as int)
  }

  function Zeros(n: nat): (s: string)
    ensures |s| == n && AllDigits(s) && forall i | 0 <= i < n :: s[i] == '0'
  {
    if n == 0 then "" else Zeros(n - 1) + "0"
  }

  function PadStart(s: string, width: nat): string {
    if width <= |s| then s else Zeros(width - |s|) + s
  }

  function PadEnd(s: string, width: nat): string {
    if width <= |s| then s else s + Zeros(width - |s|)
  }

  function StripZeros(s: string): string {
    if s != "" && s[|s| - 1] == '0' then StripZeros(s[..|s| - 1]) else s
  }

  // ---- the printer ------------------------------------------------------------------------

  /** None is the error for anything that is not a run of digits. */
  function Display(atomic: string): Option<string> {
    if atomic == "" || !AllDigits(atomic) then None
    else
      var padded := PadStart(atomic, 7);
      var whole, fraction := padded[..|padded| - 6], StripZeros(padded[|padded| - 6..]);
      Some(if fraction != "" then whole + "." + fraction else whole)
  }

  // ---- the parser -------------------------------------------------------------------------

  /** (?:0|[1-9][0-9]*) */
  predicate WholeText(s: string) {
    s != "" && AllDigits(s) && (s == "0" || s[0] != '0')
  }

  /** [0-9]{1,6} */
  predicate FractionText(s: string) {
    1 <= |s| <= 6 && AllDigits(s)
  }

  function Dot(s: string): (i: nat)
    ensures i <= |s| && (i < |s| ==> s[i] == '.') && '.' !in s[..i]
  {
    if s == "" || s[0] == '.' then 0 else 1 + Dot(s[1..])
  }

  predicate PriceText(s: string) {
    var i := Dot(s);
    WholeText(s[..i]) && (i < |s| ==> FractionText(s[i + 1..]))
  }

  function Fraction(s: string): string {
    var i := Dot(s);
    if i < |s| then s[i + 1..] else ""
  }

  /** The atomic amount of a trimmed price text; None is a rejected text or an amount over the bound. */
  function ParsePrice(s: string): Option<nat> {
    if !PriceText(s) then None
    else
      var value := Amount(s[..Dot(s)]) * 1_000_000 + Amount(PadEnd(Fraction(s), 6));
      if value <= BOUND then Some(value) else None
  }

  // ---- arithmetic of digit strings --------------------------------------------------------

  function Pow10(n: nat): nat {
    if n == 0 then 1 else 10 * Pow10(n - 1)
  }

  lemma {:induction false} AmountConcat(a: string, b: string)
    requires AllDigits(a) && AllDigits(b)
    ensures AllDigits(a + b) && Amount(a + b) == Amount(a) * Pow10(|b|) + Amount(b)
    decreases |b|
  {
    if b == "" {
      assert a + b == a;
    } else {
      var b', d := b[..|b| - 1], b[|b| - 1] as int - '0' as int;
      AmountConcat(a, b');
      assert (a + b)[..|a + b| - 1] == a + b';
      assert Amount(a + b) == 10 * Amount(a + b') + d && Amount(b) == 10 * Amount(b') + d;
      assert Pow10(|b|) == 10 * Pow10(|b'|);
      hide Amount, Pow10, AllDigits;
      OneMoreDigit(Amount(a), Pow10(|b'|), Amount(b'), d);
    }
  }

  lemma OneMoreDigit(x: nat, p: nat, y: nat, d: int)
    ensures 10 * (x * p + y) + d == x * (10 * p) + (10 * y + d)
  {
    assert x * (10 * p) == 10 * (x * p);
  }

  lemma {:induction false} AmountZeros(n: nat)
    ensures Amount(Zeros(n)) == 0
  {
    if n > 0 {
      AmountZeros(n - 1);
      assert Zeros(n)[..n - 1] == Zeros(n - 1);
    }
  }

  lemma {:induction false} StripThenPad(s: string)
    requires AllDigits(s)
    ensures |StripZeros(s)| <= |s| && AllDigits(StripZeros(s)) && PadEnd(StripZeros(s), |s|) == s
    ensures StripZeros(s) != "" ==> StripZeros(s)[|StripZeros(s)| - 1] != '0'
  {
    if s != "" && s[|s| - 1] == '0' {
      var t := s[..|s| - 1];
      StripThenPad(t);
      assert Zeros(|s| - |StripZeros(s)|) == Zeros(|t| - |StripZeros(t)|) + "0";
      assert s == t + "0";
    }
  }

  lemma DotOf(whole: string, rest: string)
    requires AllDigits(whole) && (rest == "" || rest[0] == '.')
    ensures Dot(whole + rest) == |whole|
  {
    var s := whole + rest;
    assert forall k | 0 <= k < |whole| :: s[k] == whole[k];
    assert rest != "" ==> s[|whole|] == '.';
  }

  // ---- print, then parse ------------------------------------------------------------------

  lemma PaddedAmount(atomic: string)
    requires AllDigits(atomic)
    ensures AllDigits(PadStart(atomic, 7)) && 7 <= |PadStart(atomic, 7)| && Amount(PadStart(atomic, 7)) == Amount(atomic)
    ensures if |atomic| < 7 then |PadStart(atomic, 7)| == 7 && PadStart(atomic, 7)[0] == '0' else PadStart(atomic, 7) == atomic
  {
    hide Amount;
    if |atomic| < 7 {
      AmountConcat(Zeros(7 - |atomic|), atomic);
      AmountZeros(7 - |atomic|);
    }
  }

  /** A whole part, and the six fractional digits without their trailing zeros. */
  function Text(whole: string, fraction: string): string {
    if fraction != "" then whole + "." + fraction else whole
  }

  lemma TextParts(whole: string, fraction: string)
    requires AllDigits(whole)
    ensures Dot(Text(whole, fraction)) == |whole| && Text(whole, fraction)[..|whole|] == whole
    ensures Fraction(Text(whole, fraction)) == fraction
  {
    DotOf(whole, if fraction != "" then "." + fraction else "");
    assert fraction != "" ==> whole + "." + fraction == whole + ("." + fraction);
    assert fraction == "" ==> whole + "" == whole;
  }

  lemma TextParses(whole: string, fraction: string)
    requires AllDigits(whole) && whole != "" && AllDigits(fraction) && |fraction| <= 6
    ensures PriceText(Text(whole, fraction)) <==> WholeText(whole)
    ensures AllDigits(PadEnd(fraction, 6))
    ensures WholeText(whole) ==>
            var value := Amount(whole + PadEnd(fraction, 6));
            ParsePrice(Text(whole, fraction)) == if value <= BOUND then Some(value) else None
  {
    hide Amount, Dot, Fraction, WholeText;
    TextParts(whole, fraction);
    SixMore(whole, PadEnd(fraction, 6));
    PriceTextParts(Text(whole, fraction));
  }

  lemma SixMore(whole: string, six: string)
    requires AllDigits(whole) && AllDigits(six) && |six| == 6
    ensures Amount(whole + six) == Amount(whole) * 1_000_000 + Amount(six)
  {
    AmountConcat(whole, six);
    assert Pow10(3) == 1000 && Pow10(6) == 1_000_000;
  }

  lemma PriceTextParts(s: string)
    ensures PriceText(s) <==> WholeText(s[..Dot(s)]) && (Dot(s) < |s| ==> FractionText(Fraction(s)))
    ensures Dot(s) == |s| ==> Fraction(s) == ""
  {
    hide Dot, WholeText, FractionText;
  }

  /** Parsing a printed amount gives it back exactly when the digits are within the bound and carry no
      leading zero that the padding to seven digits does not explain. */
  lemma PrintThenParse(atomic: string)
    ensures Display(atomic).Some? <==> atomic != "" && AllDigits(atomic)
    ensures Display(atomic).Some? ==>
              && (ParsePrice(Display(atomic).value) == Some(Amount(atomic)) <==>
                    (|atomic| <= 7 || atomic[0] != '0') && Amount(atomic) <= BOUND)
              && (|atomic| > 7 && atomic[0] == '0' ==> ParsePrice(Display(atomic).value) == None)
  {
    DisplayDomain(atomic);
    hide Amount, AllDigits, ParsePrice, Display;
    if Display(atomic).Some? { DigitsThenParse(atomic); }
  }

  lemma DisplayDomain(atomic: string)
    ensures Display(atomic).Some? <==> atomic != "" && AllDigits(atomic)
  {
    hide Amount, AllDigits, PadStart, StripZeros;
  }

  lemma DigitsThenParse(atomic: string)
    requires atomic != "" && AllDigits(atomic)
    ensures Display(atomic).Some?
    ensures ParsePrice(Display(atomic).value) == Some(Amount(atomic)) <==>
            (|atomic| <= 7 || atomic[0] != '0') && Amount(atomic) <= BOUND
    ensures |atomic| > 7 && atomic[0] == '0' ==> ParsePrice(Display(atomic).value) == None
  {
    hide Amount, AllDigits, ParsePrice, PriceText, PadEnd, PadStart, StripZeros, Dot, Text, WholeText, Display;
    PaddedAmount(atomic);
    var padded := PadStart(atomic, 7);
    var n := |padded| - 6;
    DigitsSplit(padded, n);
    var whole, six := padded[..n], padded[n..];
    StripThenPad(six);
    TextParses(whole, StripZeros(six));
    assert whole + six == padded;
    WholeOfPadded(whole);
    RejectedText(Text(whole, StripZeros(six)));
    DisplayText(atomic);
  }

  lemma WholeOfPadded(whole: string)
    requires AllDigits(whole) && whole != ""
    ensures WholeText(whole) <==> |whole| == 1 || whole[0] != '0'
  {}

  lemma DisplayText(atomic: string)
    requires atomic != "" && AllDigits(atomic) && |PadStart(atomic, 7)| >= 6
    ensures var padded := PadStart(atomic, 7);
            Display(atomic) == Some(Text(padded[..|padded| - 6], StripZeros(padded[|padded| - 6..])))
  {}

  lemma RejectedText(s: string)
    ensures !PriceText(s) ==> ParsePrice(s) == None
  {}

  // ---- parse, then print ------------------------------------------------------------------

  /** BigInt.toString. */
  function Decimal(n: nat): string {
    (if n < 10 then "" else Decimal(n / 10)) + ["0123456789"[n % 10]]
  }

  lemma {:induction false} DecimalDigits(n: nat)
    ensures AllDigits(Decimal(n)) && Decimal(n) != "" && Amount(Decimal(n)) == n
    ensures Decimal(n)[0] == '0' ==> n == 0 && Decimal(n) == "0"
  {
    var last := "0123456789"[n % 10];
    assert last as int - '0' as int == n % 10;
    if n >= 10 {
      DecimalDigits(n / 10);
      assert Decimal(n)[..|Decimal(n)| - 1] == Decimal(n / 10);
    }
  }

  lemma {:induction false} ZeroAmount(s: string)
    requires AllDigits(s) && Amount(s) == 0
    ensures s == Zeros(|s|)
  {
    if s != "" {
      ZeroAmount(s[..|s| - 1]);
      assert s == s[..|s| - 1] + [s[|s| - 1]];
    }
  }

  /** A digit string is its own value printed and padded to its own length. */
  lemma {:induction false} DigitsDetermined(s: string)
    requires AllDigits(s) && s != ""
    ensures |Decimal(Amount(s))| <= |s| && PadStart(Decimal(Amount(s)), |s|) == s
  {
    hide AllDigits, Amount, Decimal, Zeros, PadStart;
    var t, c := s[..|s| - 1], s[|s| - 1];
    LastDigit(s);
    var n := Amount(t);
    DecimalStep(n, c);
    var front := if n == 0 then "" else Decimal(n);
    if n == 0 {
      ZeroAmount(t);
      AllZeros(t);
    } else {
      DigitsDetermined(t);
    }
    PadStep(front, c, |t|);
  }

  lemma LastDigit(s: string)
    requires AllDigits(s) && s != ""
    ensures var t, c := s[..|s| - 1], s[|s| - 1];
            && '0' <= c <= '9' && s == t + [c] && AllDigits(t)
            && Amount(s) == 10 * Amount(t) + (c as int - '0' as int) && (t == "" ==> Amount(t) == 0)
  {}

  lemma AllZeros(t: string)
    requires t == Zeros(|t|)
    ensures PadStart("", |t|) == t
  {
    assert t + "" == t;
  }

  lemma DigitsSplit(s: string, n: nat)
    requires AllDigits(s) && n <= |s|
    ensures AllDigits(s[..n]) && AllDigits(s[n..])
  {}

  lemma DecimalStep(n: nat, c: char)
    requires '0' <= c <= '9'
    ensures Decimal(10 * n + (c as int - '0' as int)) == (if n == 0 then "" else Decimal(n)) + [c]
  {
    var d := c as int - '0' as int;
    assert (10 * n + d) / 10 == n && (10 * n + d) % 10 == d;
    assert "0123456789"[d] == c;
  }

  lemma PadStep(s: string, c: char, width: nat)
    requires |s| <= width
    ensures PadStart(s + [c], width + 1) == PadStart(s, width) + [c]
  {}

  lemma {:induction false} StripPadded(s: string, k: nat)
    requires s != "" ==> s[|s| - 1] != '0'
    ensures StripZeros(s + Zeros(k)) == s
    decreases k
  {
    if k == 0 {
      assert s + Zeros(0) == s;
    } else {
      StripPadded(s, k - 1);
      assert (s + Zeros(k))[..|s + Zeros(k)| - 1] == s + Zeros(k - 1);
    }
  }

  /** A price text without trailing fractional zeros. */
  predicate Canonical(s: string) {
    PriceText(s) && (Fraction(s) != "" ==> Fraction(s)[|Fraction(s)| - 1] != '0')
  }

  lemma TextOfParts(s: string)
    requires PriceText(s)
    ensures s == Text(s[..Dot(s)], Fraction(s))
  {
    hide Dot;
  }

  lemma PaddedBack(whole: string, six: string)
    requires WholeText(whole) && AllDigits(six) && |six| == 6
    ensures PadStart(Decimal(Amount(whole + six)), 7) == whole + six
  {
    hide Amount, Decimal, Zeros;
    var s := whole + six;
    DigitsDetermined(s);
    assert s[0] == whole[0];
  }

  /** Printing a parsed price gives a canonical text of the same value, and it is the text itself if that was canonical. */
  lemma ParseThenPrint(text: string)
    requires ParsePrice(text).Some?
    ensures var n := ParsePrice(text).value;
            && Display(Decimal(n)).Some?
            && var shown := Display(Decimal(n)).value;
            && Canonical(shown) && ParsePrice(shown) == Some(n)
            && (Canonical(text) ==> shown == text)
  {
    hide Amount, PadStart, StripZeros, Decimal, Dot, WholeText, PriceText;
    var n := ParsePrice(text).value;
    var whole, fraction := text[..Dot(text)], Fraction(text);
    ParsedParts(text);
    TextParses(whole, fraction);
    DecimalDigits(n);
    DigitsThenParse(Decimal(n));
    var six := PadEnd(fraction, 6);
    PrintedParts(whole, six);
    StripThenPad(six);
    TextParts(whole, StripZeros(six));
    TextParses(whole, StripZeros(six));
    if Canonical(text) { StripPadded(fraction, 6 - |fraction|); }
  }

  /** What is printed for the digits of a whole part and six fractional digits. */
  lemma PrintedParts(whole: string, six: string)
    requires WholeText(whole) && AllDigits(six) && |six| == 6
    ensures Display(Decimal(Amount(whole + six))) == Some(Text(whole, StripZeros(six)))
  {
    hide Amount, PadStart, StripZeros, Decimal;
    PaddedBack(whole, six);
    DecimalDigits(Amount(whole + six));
    DisplayText(Decimal(Amount(whole + six)));
    assert (whole + six)[..|whole|] == whole && (whole + six)[|whole|..] == six;
  }

  lemma ParsedParts(text: string)
    requires ParsePrice(text).Some?
    ensures PriceText(text) && WholeText(text[..Dot(text)]) && text[..Dot(text)] != "" && AllDigits(text[..Dot(text)])
    ensures AllDigits(Fraction(text)) && |Fraction(text)| <= 6
    ensures text == Text(text[..Dot(text)], Fraction(text))
    ensures ParsePrice(text).value <= BOUND
  {
    hide Dot, Amount, PadEnd;
    TextOfParts(text);
  }

  /** Printing and parsing is the identity on every natural up to the bound. */
  lemma NaturalRoundTrip(n: nat)
    requires n <= BOUND
    ensures Display(Decimal(n)).Some? && ParsePrice(Display(Decimal(n)).value) == Some(n)
  {
    hide Decimal, Amount, Display, ParsePrice;
    DecimalDigits(n);
    DigitsThenParse(Decimal(n));
  }

  /** Whole units in digits without a superfluous zero and one to six fractional digits after a point, or none; value is the
      amount in atomic units. */
  predicate Priced(text: string, whole: string, fraction: string, value: nat) {
    && whole != "" && (forall i | 0 <= i < |whole| :: '0' <= whole[i] <= '9') && (|whole| == 1 || whole[0] != '0')
    && |fraction| <= 6 && (forall i | 0 <= i < |fraction| :: '0' <= fraction[i] <= '9')
    && text == (if fraction == "" then whole else whole + "." + fraction)
    && value == Amount(whole) * 1_000_000 + Amount(fraction + Zeros(6 - |fraction|))
  }

  lemma PaddedIsZeros(fraction: string)
    requires |fraction| <= 6
    ensures PadEnd(fraction, 6) == fraction + Zeros(6 - |fraction|)
  {}

  lemma PricedParts(text: string, whole: string, fraction: string, value: nat)
    requires Priced(text, whole, fraction, value)
    ensures AllDigits(whole) && WholeText(whole) && AllDigits(fraction) && text == Text(whole, fraction)
  {
    hide Amount;
    assert fraction != "" ==> whole + "." + fraction == Text(whole, fraction);
  }

  /** The parser accepts exactly these texts, as long as their value is within the bound. */
  lemma ParsesExactly(text: string, value: nat)
    ensures ParsePrice(text) == Some(value) <==> value <= BOUND && exists whole, fraction :: Priced(text, whole, fraction, value)
  {
    if ParsePrice(text).Some? {
      var whole, fraction := text[..Dot(text)], Fraction(text);
      ParsedParts(text);
      PartsPriced(text, whole, fraction);
    }
    if whole, fraction :| Priced(text, whole, fraction, value) {
      hide ParsePrice, Priced;
      PricedParses(text, whole, fraction, value);
    }
  }

  lemma PartsPriced(text: string, whole: string, fraction: string)
    requires ParsePrice(text).Some? && WholeText(whole) && AllDigits(fraction) && |fraction| <= 6 && text == Text(whole, fraction)
    ensures Priced(text, whole, fraction, ParsePrice(text).value) && ParsePrice(text).value <= BOUND
  {
    hide Amount, Dot, PadEnd, ParsePrice, PriceText, Zeros;
    TextParses(whole, fraction);
    PaddedIsZeros(fraction);
    SixMore(whole, PadEnd(fraction, 6));
  }

  lemma PricedParses(text: string, whole: string, fraction: string, value: nat)
    requires Priced(text, whole, fraction, value)
    ensures ParsePrice(text) == if value <= BOUND then Some(value) else None
  {
    hide Amount, Dot, PadEnd, ParsePrice, PriceText, Zeros;
    PricedParts(text, whole, fraction, value);
    TextParses(whole, fraction);
    PaddedIsZeros(fraction);
    SixMore(whole, PadEnd(fraction, 6));
  }
}

/** The fragment of ECMAScript regular expressions that the report code uses, with a concrete meaning.
    Matches(r, s, i, j) says that r can consume exactly s[i..j]; an anchored pattern ^r$ accepts s
    when Matches(r, s, 0, |s|). */
module Regex {
  import opened Common

  datatype CharClass = Exactly(c: char) | Digit | NotControl {
    predicate Has(x: char) {
      match this
      case Exactly(c) => x == c
      case Digit => '0' <= x <= '9'
      case NotControl => !IsControl(x)
    }
  }

  datatype Re =
    | Cls(c: CharClass)
    | Cat(first: Re, second: Re)
    | Plus(body: Re)
    | Opt(body: Re)
    | NotAhead(body: Re)

  predicate Matches(r: Re, s: string, i: nat, j: nat)
    ensures Matches(r, s, i, j) && i <= |s| ==> i <= j <= |s|
    decreases r, if j >= i then j - i else 0
  {
    match r
    case Cls(c) => i < |s| && j == i + 1 && c.Has(s[i])
    case Cat(a, b) => exists k: nat :: i <= k <= j && k <= |s| && Matches(a, s, i, k) && Matches(b, s, k, j)
    case Plus(a) => Matches(a, s, i, j) || exists k: nat :: i < k < j && k <= |s| && Matches(a, s, i, k) && Matches(r, s, k, j)
    case Opt(a) => i == j || Matches(a, s, i, j)
    case NotAhead(a) => i == j && forall k: nat | i <= k <= |s| :: !Matches(a, s, i, k)
  }

  predicate Accepts(r: Re, s: string) {
    Matches(r, s, 0, |s|)
  }

  /** The point at which the first half of a concatenation hands over to the second. */
  lemma SplitCat(a: Re, b: Re, s: string, i: nat, j: nat) returns (k: nat)
    requires Matches(Cat(a, b), s, i, j)
    ensures i <= k <= j && k <= |s| && Matches(a, s, i, k) && Matches(b, s, k, j)
  {
    k :| i <= k <= j && k <= |s| && Matches(a, s, i, k) && Matches(b, s, k, j);
  }

  lemma {:induction false} PlusOfClass(c: CharClass, s: string, i: nat, j: nat)
    requires i <= |s|
    ensures Matches(Plus(Cls(c)), s, i, j) <==> i < j <= |s| && forall t | i <= t < j :: c.Has(s[t])
    decreases if j >= i then j - i else 0
  {
    if i < |s| && i + 1 < j {
      PlusOfClass(c, s, i + 1, j);
      if i < j <= |s| && forall t | i <= t < j :: c.Has(s[t]) {
        assert Matches(Cls(c), s, i, i + 1);
      }
    }
  }

  /** Classes that must match one after the other, then the tail. */
  function Chain(classes: seq<CharClass>, tail: Re): Re {
    if classes == [] then tail else Cat(Cls(classes[0]), Chain(classes[1..], tail))
  }

  lemma {:induction false} ChainMatches(classes: seq<CharClass>, tail: Re, s: string, i: nat, j: nat)
    requires i <= |s|
    ensures Matches(Chain(classes, tail), s, i, j) <==>
            && i + |classes| <= |s|
            && (forall t | 0 <= t < |classes| :: classes[t].Has(s[i + t]))
            && Matches(tail, s, i + |classes|, j)
    decreases |classes|
  {
    if classes != [] && i < |s| {
      var rest := classes[1..];
      ChainMatches(rest, tail, s, i + 1, j);
      if classes[0].Has(s[i]) {
        assert Matches(Cls(classes[0]), s, i, i + 1);
      }
      if i + |classes| <= |s| {
        assert forall t | 0 <= t < |rest| :: s[i + 1 + t] == s[i + (t + 1)] && rest[t] == classes[t + 1];
        assert forall t | 0 < t < |classes| :: s[i + t] == s[i + 1 + (t - 1)] && classes[t] == rest[t - 1];
      }
    }
  }

  /** Reads a template in which 'd' stands for \d and every other character for itself. */
  function Template(text: string): seq<CharClass> {
    seq(|text|, i requires 0 <= i < |text| => if text[i] == 'd' then Digit else Exactly(text[i]))
  }
}

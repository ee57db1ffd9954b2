/** escapeTerminal and redactUrl of version.js: what makes a path or a target printable. */
module Terminal {
  import opened Common

  /** A control character becomes \u and its code in four hexadecimal digits. */
  function EscapeChar(c: char): (text: string)
    ensures text != "" && ControlFree(text)
    ensures text[0] == '/' <==> c == '/'
    ensures !IsControl(c) ==> text == [c]
  {
    if IsControl(c) then ['\\', 'u', '0', '0', HexDigit(c as int / 16), HexDigit(c as int % 16)] else [c]
  }

  function EscapeTerminal(s: string): string {
    if s == "" then "" else EscapeChar(s[0]) + EscapeTerminal(s[1..])
  }

  /** An escape is the two letters and four digits that stand for the code of the character. */
  lemma EscapeReadsBack(c: char)
    requires IsControl(c)
    ensures var t := EscapeChar(c);
            && |t| == 6 && t[..2] == "\\u" && HexValue(t[2]) == Some(0) == HexValue(t[3])
            && HexValue(t[4]).Some? && HexValue(t[5]).Some? && 16 * HexValue(t[4]).value + HexValue(t[5]).value == c as int
  {
    hide HexDigit, HexValue;
    HexBack(c as int / 16);
    HexBack(c as int % 16);
    ZeroIsZero();
  }

  lemma ZeroIsZero()
    ensures HexValue('0') == Some(0)
  {}

  lemma EscapeOne(c: char)
    ensures EscapeTerminal([c]) == EscapeChar(c)
  {
    assert [c][1..] == "";
  }

  lemma {:induction false} EscapeConcat(a: string, b: string)
    ensures EscapeTerminal(a + b) == EscapeTerminal(a) + EscapeTerminal(b)
  {
    if a == "" {
      assert a + b == b;
    } else {
      assert (a + b)[1..] == a[1..] + b;
      EscapeConcat(a[1..], b);
    }
  }

  /** Escaping leaves no control character, keeps text non-empty, and never creates or hides a leading slash. */
  lemma {:induction false} EscapeIsPrintable(s: string)
    ensures ControlFree(EscapeTerminal(s))
    ensures EscapeTerminal(s) == "" <==> s == ""
    ensures s != "" ==> (EscapeTerminal(s)[0] == '/' <==> s[0] == '/')
  {
    if s != "" { EscapeIsPrintable(s[1..]); }
  }

  lemma {:induction false} EscapeKeepsPrintable(s: string)
    requires ControlFree(s)
    ensures EscapeTerminal(s) == s
  {
    if s != "" {
      assert ControlFree(s[1..]);
      EscapeKeepsPrintable(s[1..]);
    }
  }

  /** An escaped text can be escaped again without change, as analyze and buildReport both do. */
  lemma EscapeTwice(s: string)
    ensures EscapeTerminal(EscapeTerminal(s)) == EscapeTerminal(s)
  {
    EscapeIsPrintable(s);
    EscapeKeepsPrintable(EscapeTerminal(s));
  }

  datatype Url = Url(secure: bool, username: string, password: string, host: string, path: string, search: string, hash: string)

  function Credentials(u: Url): string {
    if u.username == "" && u.password == "" then ""
    else u.username + (if u.password == "" then "" else ":" + u.password) + "@"
  }

  function Render(u: Url): string {
    (if u.secure then "https://" else "http://") + Credentials(u) + u.host + u.path + u.search + u.hash
  }

  function Redact(u: Url): Url {
    u.(username := "", password := "", search := "", hash := "")
  }

  /** A URL is written with the credentials that it has, and nothing of it is left out. */
  lemma RenderShows(u: Url)
    ensures var rest, scheme := u.host + (u.path + (u.search + u.hash)), if u.secure then "https://" else "http://";
            && (u.username == "" && u.password == "" ==> Render(u) == scheme + rest)
            && (u.username != "" && u.password == "" ==> Render(u) == scheme + (u.username + "@" + rest))
            && (u.password != "" ==> Render(u) == scheme + (u.username + ":" + u.password + "@" + rest))
  {
    var credentials := Credentials(u);
    var scheme := if u.secure then "https://" else "http://";
    Reassociate(scheme, credentials, u.host, u.path, u.search, u.hash);
  }

  lemma Reassociate(a: string, b: string, c: string, d: string, e: string, f: string)
    ensures a + b + c + d + e + f == a + (b + (c + (d + (e + f))))
  {}

  /** What is shown of a URL does not depend on its credentials, query or fragment. */
  lemma RedactForgets(u: Url, v: Url)
    requires u.secure == v.secure && u.host == v.host && u.path == v.path
    ensures Render(Redact(u)) == Render(Redact(v)) == (if u.secure then "https://" else "http://") + u.host + u.path
  {}
}

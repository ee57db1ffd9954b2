/** Shared by every component: an optional value, the C0/C1 control characters, hexadecimal digits. */
module Common {
  datatype Option<+T> = None | Some(value: T)

  /** The class [\u0000-\u001f\u007f-\u009f] that the terminal and report code refuse. */
  predicate IsControl(c: char) {
    c <= '\U{1f}' || '\U{7f}' <= c <= '\U{9f}'
  }

  predicate ControlFree(s: string) {
    forall i | 0 <= i < |s| :: !IsControl(s[i])
  }

  function HexDigit(n: nat): (c: char)
    requires n < 16
    ensures !IsControl(c) && c < '\U{80}'
  {
    "0123456789abcdef"[n]
  }

  function HexValue(c: char): Option<nat> {
    if '0' <= c <= '9' then Some(c as int - '0' as int)
    else if 'a' <= c <= 'f' then Some(c as int - 'a' as int + 10)
    else if 'A' <= c <= 'F' then Some(c as int - 'A' as int + 10)
    else None
  }

  lemma HexBack(n: nat)
    requires n < 16
    ensures HexValue(HexDigit(n)) == Some(n)
  {}
}

/** A JSON value as JSON.parse returns it, and its conversion to a property key. */
module Json {
  import opened Common

  datatype Value =
    | Null
    | Bool(b: bool)
    | Num(n: real)
    | Str(s: string)
    | Arr(items: seq<Value>)
    | Obj(fields: map<string, Value>)

  predicate IsInteger(n: real) {
    n == n.Floor as real
  }

  /** ToPropertyKey for a parsed JSON value. None is the TypeError raised for an object that has its
      own, necessarily uncallable, "toString" field. `numText` is the text of a number. */
  function PropertyKey(v: Value, numText: real -> string): Option<string> {
    match v
    case Null => Some("null")
    case Bool(b) => Some(if b then "true" else "false")
    case Num(n) => Some(numText(n))
    case Str(s) => Some(s)
    case Arr(items) => Join(items, numText)
    case Obj(fields) => if "toString" in fields then None else Some("[object Object]")
  }

  /** Array.prototype.join(","): a null element contributes the empty string. */
  function Join(items: seq<Value>, numText: real -> string): Option<string> {
    if items == [] then Some("")
    else
      var head := if items[0].Null? then Some("") else PropertyKey(items[0], numText);
      if |items| == 1 || head.None? then head
      else
        var tail := Join(items[1..], numText);
        if tail.None? then None else Some(head.value + "," + tail.value)
  }

  /** The text itself, or a one-element array around what is wrapped. */
  predicate Wrapped(v: Value, k: string) {
    v == Str(k) || (v.Arr? && |v.items| == 1 && Wrapped(v.items[0], k))
  }

  /** A name that no other conversion yields. */
  ghost predicate Plain(k: string, numText: real -> string) {
    && k != "" && ',' !in k && k != "null" && k != "true" && k != "false" && k != "[object Object]"
    && forall n :: numText(n) != k
  }

  lemma JoinHasComma(items: seq<Value>, numText: real -> string)
    requires |items| > 1 && Join(items, numText).Some?
    ensures ',' in Join(items, numText).value
  {
    var head := if items[0].Null? then Some("") else PropertyKey(items[0], numText);
    var tail := Join(items[1..], numText);
    assert Join(items, numText).value[|head.value|] == ',';
  }

  /** Which values are converted to a plain name: its text, in any number of one-element arrays. */
  lemma {:induction false} KeyNames(v: Value, k: string, numText: real -> string)
    requires Plain(k, numText)
    ensures PropertyKey(v, numText) == Some(k) <==> Wrapped(v, k)
    decreases v
  {
    if v.Arr? && |v.items| == 1 {
      KeyNames(v.items[0], k, numText);
    } else if v.Arr? && |v.items| > 1 {
      if Join(v.items, numText).Some? { JoinHasComma(v.items, numText); }
    }
  }
}

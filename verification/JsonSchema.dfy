/** JSON Schema 2020-12, restricted to the keywords that the report schema uses. An absent keyword
    keeps its default and constrains nothing. */
module JsonSchema {
  import opened Common
  import opened Json
  import Regex

  datatype TypeName = TNull | TString | TInteger | TArray | TObject

  datatype Schema = Schema(
    nameonly typ: Option<TypeName> := None,
    nameonly constant: Option<Value> := None,
    nameonly enum: Option<seq<Value>> := None,
    nameonly minLength: nat := 0,
    nameonly pattern: Option<Regex.Re> := None,
    nameonly minimum: Option<real> := None,
    nameonly minItems: nat := 0,
    nameonly maxItems: Option<nat> := None,
    nameonly required: seq<string> := [],
    nameonly properties: seq<Property> := [],
    nameonly additional: bool := true,
    nameonly items: Option<Schema> := None,
    nameonly contains: Option<Schema> := None,
    nameonly negated: Option<Schema> := None,
    nameonly branch: Option<Branch> := None,
    nameonly allOf: seq<Schema> := [])

  datatype Property = Property(name: string, schema: Schema)

  /** The adjacent keywords "if" and "then". */
  datatype Branch = Branch(condition: Schema, consequence: Schema)

  predicate HasType(t: TypeName, v: Value) {
    match t
    case TNull => v.Null?
    case TString => v.Str?
    case TInteger => v.Num? && IsInteger(v.n)
    case TArray => v.Arr?
    case TObject => v.Obj?
  }

  ghost predicate Valid(s: Schema, v: Value)
    decreases s, 1
  {
    && (s.typ.Some? ==> HasType(s.typ.value, v))
    && (s.constant.Some? ==> v == s.constant.value)
    && (s.enum.Some? ==> v in s.enum.value)
    && (v.Str? ==> StringValid(s, v.s))
    && (v.Num? && s.minimum.Some? ==> s.minimum.value <= v.n)
    && (v.Arr? ==> ItemsValid(s, v.items))
    && (v.Obj? ==> ObjectValid(s, v.fields))
    && (s.negated.Some? ==> !Valid(s.negated.value, v))
    && (s.branch.Some? ==> Valid(s.branch.value.condition, v) ==> Valid(s.branch.value.consequence, v))
    && forall i | 0 <= i < |s.allOf| :: Valid(s.allOf[i], v)
  }

  ghost predicate StringValid(s: Schema, text: string) {
    && s.minLength <= |text|
    && (s.pattern.Some? ==> Regex.Accepts(s.pattern.value, text))
  }

  ghost predicate ItemsValid(s: Schema, items: seq<Value>)
    decreases s, 0
  {
    && s.minItems <= |items|
    && (s.maxItems.Some? ==> |items| <= s.maxItems.value)
    && (s.items.Some? ==> forall i | 0 <= i < |items| :: Valid(s.items.value, items[i]))
    && (s.contains.Some? ==> exists i :: 0 <= i < |items| && Valid(s.contains.value, items[i]))
  }

  ghost predicate ObjectValid(s: Schema, fields: map<string, Value>)
    decreases s, 0
  {
    && (forall i | 0 <= i < |s.required| :: s.required[i] in fields)
    && (!s.additional ==> forall k | k in fields :: k in Names(s.properties))
    && forall i | 0 <= i < |s.properties| ::
         s.properties[i].name in fields ==> Valid(s.properties[i].schema, fields[s.properties[i].name])
  }

  function Names(properties: seq<Property>): seq<string> {
    seq(|properties|, i requires 0 <= i < |properties| => properties[i].name)
  }
}

/** The part of the Joi schema library that the validators use, read as
    plain functions: an object schema is a list of keys, each a string or a
    number with a presence (required, optional, defaulted), rules and
    message overrides. Validation runs with `abortEarly: false` and
    `stripUnknown: true`, the options the middleware passes. */
module Joi {
  import opened Wrappers
  import opened Text

  /** The JSON-like values a request part can carry at one key. */
  datatype Value = Str(s: string) | Num(n: real) | Bool(b: bool) | Null

  /** A request part (body, params or query): absent keys are `undefined`. */
  type Fields = map<string, Value>

  /** Joi's error codes, `detail.type`. */
  datatype ErrorKind =
    | AnyRequired
    | StringBase
    | StringEmpty
    | StringMin
    | StringMax
    | StringPatternBase
    | NumberBase
    | NumberPositive

  function KindName(k: ErrorKind): string {
    match k
    case AnyRequired => "any.required"
    case StringBase => "string.base"
    case StringEmpty => "string.empty"
    case StringMin => "string.min"
    case StringMax => "string.max"
    case StringPatternBase => "string.pattern.base"
    case NumberBase => "number.base"
    case NumberPositive => "number.positive"
  }

  /** One entry of `error.details`. */
  datatype Detail = Detail(path: seq<string>, message: string, kind: ErrorKind)

  /** What `schema.validate` returns: the converted value, or every detail. */
  datatype Validation = Valid(value: Fields) | Invalid(details: seq<Detail>)

  /** A regular expression: its source text and what `RegExp.test` answers. */
  datatype RegexRule = RegexRule(source: string, test: string -> bool)

  datatype Rule =
    | StringRule(min: Option<nat>, max: Option<nat>, pattern: Option<RegexRule>)
    | NumberRule(positive: bool)

  datatype Presence = Required | Optional | Default(fallback: Value)

  datatype KeySpec = KeySpec(key: string, presence: Presence, rule: Rule, messages: map<ErrorKind, string>)

  /** `Joi.object({...})`: the keys in declaration order. */
  type ObjectSchema = seq<KeySpec>

  /** How a string converts to a number under Joi's `convert`: Joi's own
      conversion (a decimal-number pattern, then `parseFloat`, not
      `Number`); None when it is not numeric, as for "" to Joi. */
  type Numeral = string -> Option<real>

  function Lookup(input: Fields, key: string): Option<Value> {
    if key in input then Some(input[key]) else None
  }

  function AsNumber(v: Value, numeral: Numeral): Option<real> {
    match v
    case Num(n) => Some(n)
    case Str(s) => numeral(s)
    case _ => None
  }

  function Quoted(s: string): string {
    "\"" + s + "\""
  }

  /** Joi's English message templates; the key, in double quotes, is the label. */
  function DefaultMessage(spec: KeySpec, kind: ErrorKind, shown: string): string {
    var shownKey := Quoted(spec.key);
    match kind
    case AnyRequired => shownKey + " is required"
    case StringBase => shownKey + " must be a string"
    case StringEmpty => shownKey + " is not allowed to be empty"
    case StringMin =>
      shownKey + " length must be at least "
      + (if spec.rule.StringRule? && spec.rule.min.Some? then NatToString(spec.rule.min.value) else "")
      + " characters long"
    case StringMax =>
      shownKey + " length must be less than or equal to "
      + (if spec.rule.StringRule? && spec.rule.max.Some? then NatToString(spec.rule.max.value) else "")
      + " characters long"
    case StringPatternBase =>
      shownKey + " with value " + Quoted(shown) + " fails to match the required pattern: /"
      + (if spec.rule.StringRule? && spec.rule.pattern.Some? then spec.rule.pattern.value.source else "")
      + "/"
    case NumberBase => shownKey + " must be a number"
    case NumberPositive => shownKey + " must be a positive number"
  }

  /** `.messages({...})` overrides the template for the kinds it names. */
  function Message(spec: KeySpec, kind: ErrorKind, shown: string): (m: string)
    ensures kind in spec.messages ==> m == spec.messages[kind]
  {
    if kind in spec.messages then spec.messages[kind] else DefaultMessage(spec, kind, shown)
  }

  /** Without an override, an empty string is refused with Joi's own
      template, labelled with the quoted key. */
  lemma EmptyStringTemplate(spec: KeySpec, shown: string)
    requires StringEmpty !in spec.messages
    ensures Message(spec, StringEmpty, shown) == Quoted(spec.key) + " is not allowed to be empty"
  {
  }

  function Fail(spec: KeySpec, kind: ErrorKind, shown: string): Detail {
    Detail([spec.key], Message(spec, kind, shown), kind)
  }

  /** The declarative meaning of one key: what it takes for the key to
      produce no error. */
  predicate Accepts(spec: KeySpec, raw: Option<Value>, numeral: Numeral) {
    match raw
    case None => !spec.presence.Required?
    case Some(v) =>
      match spec.rule
      case StringRule(min, max, pattern) =>
        && v.Str?
        && v.s != ""
        && (min.Some? ==> Utf16Length(v.s) >= min.value)
        && (max.Some? ==> Utf16Length(v.s) <= max.value)
        && (pattern.Some? ==> pattern.value.test(v.s))
      case NumberRule(positive) =>
        && AsNumber(v, numeral).Some?
        && (positive ==> AsNumber(v, numeral).value > 0.0)
  }

  /** Rule errors of a non-empty string, every failing rule in declaration
      order (min, max, pattern). */
  function StringRuleErrors(spec: KeySpec, s: string): seq<Detail>
    requires spec.rule.StringRule?
  {
    var rule := spec.rule;
    (if rule.min.Some? && Utf16Length(s) < rule.min.value then [Fail(spec, StringMin, s)] else [])
    + (if rule.max.Some? && Utf16Length(s) > rule.max.value then [Fail(spec, StringMax, s)] else [])
    + (if rule.pattern.Some? && !rule.pattern.value.test(s) then [Fail(spec, StringPatternBase, s)] else [])
  }

  datatype KeyResult = KeyResult(errors: seq<Detail>, output: Option<Value>)

  /** Validates the value found at one key. A missing value is an error
      only for a required key; a defaulted key takes its default. A base
      error (wrong type, empty string) is the only error of its key; rule
      errors are all reported. */
  function ValidateKey(spec: KeySpec, raw: Option<Value>, numeral: Numeral): (r: KeyResult)
    ensures r.errors == [] <==> Accepts(spec, raw, numeral)
    ensures forall i :: 0 <= i < |r.errors| ==> r.errors[i].path == [spec.key]
    ensures raw.None? ==> r.output == (if spec.presence.Default? then Some(spec.presence.fallback) else None)
    ensures raw.Some? && spec.rule.StringRule? && r.errors == [] ==> r.output == raw
    ensures raw.Some? && spec.rule.NumberRule? && r.errors == [] ==>
              r.output == Some(Num(AsNumber(raw.value, numeral).value))
  {
    match raw
    case None =>
      if spec.presence.Required? then KeyResult([Fail(spec, AnyRequired, "")], None)
      else if spec.presence.Default? then KeyResult([], Some(spec.presence.fallback))
      else KeyResult([], None)
    case Some(v) =>
      match spec.rule
      case StringRule(_, _, _) =>
        if !v.Str? then KeyResult([Fail(spec, StringBase, "")], raw)
        else if v.s == "" then KeyResult([Fail(spec, StringEmpty, "")], raw)
        else KeyResult(StringRuleErrors(spec, v.s), raw)
      case NumberRule(positive) =>
        match AsNumber(v, numeral)
        case None => KeyResult([Fail(spec, NumberBase, "")], raw)
        case Some(n) =>
          if positive && n <= 0.0 then KeyResult([Fail(spec, NumberPositive, "")], Some(Num(n)))
          else KeyResult([], Some(Num(n)))
  }

  function KeyErrors(spec: KeySpec, input: Fields, numeral: Numeral): seq<Detail> {
    ValidateKey(spec, Lookup(input, spec.key), numeral).errors
  }

  /** All details of all keys, key by key in declaration order. */
  function CollectErrors(schema: ObjectSchema, input: Fields, numeral: Numeral): (r: seq<Detail>)
    ensures r == [] <==> forall i :: 0 <= i < |schema| ==> Accepts(schema[i], Lookup(input, schema[i].key), numeral)
    ensures forall d :: d in r ==> exists i :: 0 <= i < |schema| && d.path == [schema[i].key]
  {
    if |schema| == 0 then []
    else
      var rest := CollectErrors(schema[1..], input, numeral);
      assert forall i :: 1 <= i < |schema| ==> schema[1..][i - 1] == schema[i];
      KeyErrors(schema[0], input, numeral) + rest
  }

  /** The validated object: every schema key that has a value after
      defaults, and nothing else: a key the schema does not name is dropped
      without an error. */
  function Output(schema: ObjectSchema, input: Fields, numeral: Numeral): (r: Fields)
    ensures forall k :: k in r ==> exists i :: 0 <= i < |schema| && schema[i].key == k
  {
    if |schema| == 0 then map[]
    else
      var rest := Output(schema[1..], input, numeral);
      assert forall i :: 1 <= i < |schema| ==> schema[1..][i - 1] == schema[i];
      match ValidateKey(schema[0], Lookup(input, schema[0].key), numeral).output
      case None => rest - {schema[0].key}
      case Some(v) => rest[schema[0].key := v]
  }

  /** `schema.validate(input, {abortEarly: false, stripUnknown: true})`. */
  function Validate(schema: ObjectSchema, input: Fields, numeral: Numeral): (r: Validation)
    ensures r.Valid? <==> forall i :: 0 <= i < |schema| ==> Accepts(schema[i], Lookup(input, schema[i].key), numeral)
    ensures r.Invalid? ==> |r.details| > 0
    ensures r.Invalid? ==> forall d :: d in r.details ==> exists i :: 0 <= i < |schema| && d.path == [schema[i].key]
    ensures r.Valid? ==> forall k :: k in r.value ==> exists i :: 0 <= i < |schema| && schema[i].key == k
  {
    var errors := CollectErrors(schema, input, numeral);
    if errors == [] then Valid(Output(schema, input, numeral)) else Invalid(errors)
  }

  predicate DistinctKeys(schema: ObjectSchema) {
    forall i, j :: 0 <= i < j < |schema| ==> schema[i].key != schema[j].key
  }

  /** Every detail of one key is among the object's details. */
  lemma {:induction false} KeyErrorsReported(schema: ObjectSchema, input: Fields, numeral: Numeral, i: nat)
    requires i < |schema|
    ensures forall d :: d in KeyErrors(schema[i], input, numeral) ==> d in CollectErrors(schema, input, numeral)
  {
    if i > 0 {
      KeyErrorsReported(schema[1..], input, numeral, i - 1);
      assert schema[1..][i - 1] == schema[i];
    }
  }

  /** A key's details are reported exactly in the object result. */
  lemma KeyErrorsInResult(schema: ObjectSchema, input: Fields, numeral: Numeral, i: nat, d: Detail)
    requires i < |schema|
    requires d in KeyErrors(schema[i], input, numeral)
    ensures Validate(schema, input, numeral).Invalid?
    ensures d in Validate(schema, input, numeral).details
  {
    KeyErrorsReported(schema, input, numeral, i);
  }

  /** A two-key object whose keys both produce a value validates to just
      those two entries. */
  lemma OutputPair(schema: ObjectSchema, input: Fields, numeral: Numeral)
    requires |schema| == 2 && schema[0].key != schema[1].key
    requires ValidateKey(schema[0], Lookup(input, schema[0].key), numeral).output.Some?
    requires ValidateKey(schema[1], Lookup(input, schema[1].key), numeral).output.Some?
    ensures Output(schema, input, numeral)
            == map[schema[0].key := ValidateKey(schema[0], Lookup(input, schema[0].key), numeral).output.value,
                   schema[1].key := ValidateKey(schema[1], Lookup(input, schema[1].key), numeral).output.value]
  {
    assert schema[1..][1..] == [];
    assert schema[1..][0] == schema[1];
  }

  /** With distinct keys, the validated object holds at each key exactly
      what that key's validation produced. */
  lemma {:induction false} OutputAt(schema: ObjectSchema, input: Fields, numeral: Numeral, i: nat)
    requires DistinctKeys(schema)
    requires i < |schema|
    ensures var out := ValidateKey(schema[i], Lookup(input, schema[i].key), numeral).output;
            var r := Output(schema, input, numeral);
            (out.Some? ==> schema[i].key in r && r[schema[i].key] == out.value)
            && (out.None? ==> schema[i].key !in r)
  {
    if i > 0 {
      assert DistinctKeys(schema[1..]) by {
        forall a, b | 0 <= a < b < |schema[1..]| ensures schema[1..][a].key != schema[1..][b].key {
          assert schema[1..][a] == schema[a + 1] && schema[1..][b] == schema[b + 1];
        }
      }
      OutputAt(schema[1..], input, numeral, i - 1);
      assert schema[1..][i - 1] == schema[i];
      assert schema[0].key != schema[i].key;
    }
  }
}

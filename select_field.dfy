/**
 * The select field's choice of initial value: the given default when it has a
 * truthy `value`, otherwise the value of the first option.
 */
module SelectField {
  import opened Js
  import opened Options

  /** The initial value, or the `TypeError` that reading a property of a missing or
      `null` first option raises. */
  datatype Outcome = Picked(value: Value) | TypeError

  /** `typeof v === 'object'`, which also holds for `null`. */
  predicate TypeofObject(v: Value)
  {
    v.Obj? || v.Null?
  }

  /** `options.length > 0 && typeof options[0] === 'object'`: an object first
      option passes, and so does `null`, whose `typeof` is also 'object'. */
  function IsOptionObject(options: seq<Value>): (r: bool)
    ensures r ==> options != []
    ensures options != [] && options[0].Obj? ==> r
    ensures options != [] && options[0].Null? ==> r
    ensures options != [] && !options[0].Obj? && !options[0].Null? ==> !r
  {
    |options| > 0 && TypeofObject(options[0])
  }

  /** `v[k]` (or `v.k`) on any value: throws on `null` and `undefined`, and reads
      `undefined` from the other primitives. */
  function Read(v: Value, k: string): Outcome
  {
    if v.Null? || v.Undefined? then TypeError else Picked(Prop(v, k))
  }

  /** The `optionValueKey` prop; the destructuring default applies when it is not
      passed. */
  function ValueKey(optionValueKey: Option<string>): string
  {
    if optionValueKey.Some? then optionValueKey.value else "value"
  }

  /** `getDefaultValue()`: a truthy `defaultValue.value` is chosen as it is. A
      falsy one with no options, or with a `null` or `undefined` first option,
      throws, and that is the only way the choice fails. */
  function GetDefaultValue(defaultValue: Value, options: seq<Value>, optionValueKey: Option<string>): (r: Outcome)
    ensures Truthy(Prop(defaultValue, "value")) ==> r == Picked(Prop(defaultValue, "value"))
    ensures r.TypeError? <==>
            !Truthy(Prop(defaultValue, "value")) && (options == [] || options[0].Null? || options[0].Undefined?)
  {
    if Truthy(Prop(defaultValue, "value")) then Picked(Prop(defaultValue, "value"))
    else if IsOptionObject(options) then Read(options[0], ValueKey(optionValueKey))
    else Read(if |options| > 0 then options[0] else Undefined, "value")
  }

  /** With a falsy default and some options, the first option is read under the
      value key when it passes the option-object test and under "value" when it
      does not; so the `optionValueKey` prop changes the choice only for an
      object first option and a key other than "value". */
  lemma ValueKeyOnlyForObjects(defaultValue: Value, options: seq<Value>, optionValueKey: Option<string>)
    requires !Truthy(Prop(defaultValue, "value")) && options != []
    ensures GetDefaultValue(defaultValue, options, optionValueKey) ==
            Read(options[0], if IsOptionObject(options) then ValueKey(optionValueKey) else "value")
    ensures GetDefaultValue(defaultValue, options, optionValueKey) != GetDefaultValue(defaultValue, options, None) ==>
            options[0].Obj? && ValueKey(optionValueKey) != "value"
  {
  }

  /** With a falsy default, an object first option gives its property under the
      value key, "value" unless the prop says otherwise. */
  lemma FirstOptionValue(defaultValue: Value, fields: Record, rest: seq<Value>, optionValueKey: Option<string>)
    requires !Truthy(Prop(defaultValue, "value"))
    ensures var k := if optionValueKey.Some? then optionValueKey.value else "value";
            GetDefaultValue(defaultValue, [Obj(fields)] + rest, optionValueKey) == Picked(Get(fields, k))
  {
  }

  /** A primitive first option other than `null` and `undefined` makes the value
      `undefined`. */
  lemma PrimitiveFirstOption(defaultValue: Value, options: seq<Value>, optionValueKey: Option<string>)
    requires !Truthy(Prop(defaultValue, "value"))
    requires options != [] && (options[0].Bool? || options[0].Num? || options[0].Str?)
    ensures GetDefaultValue(defaultValue, options, optionValueKey) == Picked(Undefined)
  {
  }
}

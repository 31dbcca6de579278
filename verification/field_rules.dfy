/** Validation rules built by the `Input` and `Textarea` field components, and
    a validator over those rule records. */
module FieldRules {
  import opened Wrappers
  import opened JsText

  /** A bound with the message shown when it is violated. */
  datatype Bound = Bound(value: int, message: string)

  /** The rule record a field registers: `required` is either `false` (None)
      or the message to show; `min` and `max` are present only when given. */
  datatype Rules = Rules(required: Option<string>, min: Option<Bound>, max: Option<Bound>)

  /** The required message: the label when it is a non-empty string, else the
      field name. */
  function RequiredMessage(name: string, labelText: Option<string>): string {
    OrStr(labelText, name) + " is required"
  }

  /** The rules an `Input` registers. `required` defaults to false. */
  function InputRules(name: string, labelText: Option<string>, required: Option<bool>,
                      min: Option<int>, max: Option<int>): (r: Rules)
    ensures r.required.Some? <==> required == Some(true)
    ensures r.required.Some? ==> r.required.value == OrStr(labelText, name) + " is required"
    ensures r.min.Some? <==> min.Some?
    ensures r.min.Some? ==> r.min.value == Bound(min.value, "Minimum value is " + IntToString(min.value))
    ensures r.max.Some? <==> max.Some?
    ensures r.max.Some? ==> r.max.value == Bound(max.value, "Maximum value is " + IntToString(max.value))
  {
    var req := required.GetOr(false);
    Rules(
      if req then Some(RequiredMessage(name, labelText)) else None,
      if min.Some? then Some(Bound(min.value, "Minimum value is " + IntToString(min.value))) else None,
      if max.Some? then Some(Bound(max.value, "Maximum value is " + IntToString(max.value))) else None)
  }

  /** The rules a `Textarea` registers: a required rule at most, never bounds. */
  function TextareaRules(name: string, labelText: Option<string>, required: Option<bool>): (r: Rules)
    ensures r.min.None? && r.max.None?
    ensures r.required.Some? <==> required == Some(true)
    ensures r.required.Some? ==> r.required.value == OrStr(labelText, name) + " is required"
  {
    Rules(if required.GetOr(false) then Some(RequiredMessage(name, labelText)) else None, None, None)
  }

  /** A field's current value. */
  datatype FieldValue = Missing | Text(text: string) | Num(n: int)

  predicate Empty(v: FieldValue) {
    v.Missing? || v == Text("")
  }

  /** Each present rule is met: a required field is not empty, a number is not
      below `min` and not above `max`. */
  predicate Satisfies(rules: Rules, v: FieldValue) {
    && (rules.required.Some? ==> !Empty(v))
    && (rules.min.Some? && v.Num? ==> v.n >= rules.min.value.value)
    && (rules.max.Some? && v.Num? ==> v.n <= rules.max.value.value)
  }

  /** The message of the first violated rule, checked in the order required,
      min, max; None when the value is valid. */
  function Validate(rules: Rules, v: FieldValue): (r: Option<string>)
    ensures r.None? <==> Satisfies(rules, v)
    ensures rules.required.Some? && Empty(v) ==> r == rules.required
    ensures r.Some? ==>
      (|| (rules.required.Some? && r.value == rules.required.value)
       || (rules.min.Some? && r.value == rules.min.value.message)
       || (rules.max.Some? && r.value == rules.max.value.message))
  {
    if rules.required.Some? && Empty(v) then Some(rules.required.value)
    else if rules.min.Some? && v.Num? && v.n < rules.min.value.value then Some(rules.min.value.message)
    else if rules.max.Some? && v.Num? && v.n > rules.max.value.value then Some(rules.max.value.message)
    else None
  }

  /** A field without required/min/max props accepts every value. */
  lemma UnconstrainedInputAcceptsAll(name: string, labelText: Option<string>, v: FieldValue)
    ensures Validate(InputRules(name, labelText, None, None, None), v).None?
    ensures Validate(TextareaRules(name, labelText, None), v).None?
  {
  }

  /** An empty required field reports "<labelText or name> is required". */
  lemma EmptyRequiredFieldMessage(name: string, labelText: Option<string>, v: FieldValue, min: Option<int>, max: Option<int>)
    requires Empty(v)
    ensures Validate(InputRules(name, labelText, Some(true), min, max), v) == Some(OrStr(labelText, name) + " is required")
    ensures Validate(TextareaRules(name, labelText, Some(true)), v) == Some(OrStr(labelText, name) + " is required")
  {
  }

  /** The error line under a field is rendered exactly when the field has an
      error, and shows that error's message. */
  function ErrorLine(error: Option<string>): (r: Option<string>)
    ensures r.Some? <==> error.Some?
    ensures r.Some? ==> r.value == error.value
  {
    error
  }

  /** Under a field, an error line appears exactly when its value breaks one
      of the field's rules. */
  lemma ErrorShownIffInvalid(rules: Rules, v: FieldValue)
    ensures ErrorLine(Validate(rules, v)).Some? <==> !Satisfies(rules, v)
  {
  }
}

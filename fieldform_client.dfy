/**
 * The FieldForm client's `DynamicForm` component: the values typed so far, the
 * per-field error messages shown under the inputs, and the browser-side
 * validation run before a submission is sent. It checks less than the back
 * end (only requiredness, numbers and e-mail addresses) and keeps one message
 * per field name.
 */
module FieldFormClient {
  import opened Wrappers
  import opened JsValues
  import opened SchemaValidation
  import Email
  import opened ErrorMaps

  /** `${field.label}`: an absent label prints as `undefined`, an empty one as nothing. */
  function LabelText(f: Field): (l: string)
    ensures f.labelText.Some? ==> l == f.labelText.value
  {
    if f.labelText.Some? then f.labelText.value else "undefined"
  }

  /** `field.min !== undefined && num < field.min` */
  predicate UnderMin(f: Field, n: real) { f.min.Some? && n < f.min.value }

  /** `field.max !== undefined && num > field.max` */
  predicate OverMax(f: Field, n: real) { f.max.Some? && n > f.max.value }

  /**
   * The message one field leaves in `newErrors`, if any. A falsy value (absent,
   * empty, `false`, 0) only ever draws the required message; a present value is
   * checked only when the field is a number or an e-mail field. Of the two
   * bound messages the maximum is written last and so is the one kept.
   */
  function FieldError(rt: Runtime, f: Field, data: map<string, Value>): (r: Option<string>)
    ensures !IsPresentTruthy(Lookup(data, f.name)) ==>
      (r.Some? <==> f.required) && (r.Some? ==> r.value == LabelText(f) + " is required")
    ensures IsPresentTruthy(Lookup(data, f.name)) && f.ftype != NumberType && f.ftype != EmailType ==> r.None?
    ensures IsPresentTruthy(Lookup(data, f.name)) && f.ftype == EmailType ==>
      (r.None? <==> Email.Test(ToText(rt, data[f.name]))) && (r.Some? ==> r.value == "Invalid email address")
    ensures IsPresentTruthy(Lookup(data, f.name)) && f.ftype == NumberType ==>
      var num := ParseFloat(rt, data[f.name]);
      && (num.None? ==> r == Some(LabelText(f) + " must be a number"))
      && (num.Some? ==> (r.None? <==> !UnderMin(f, num.value) && !OverMax(f, num.value)))
      && (num.Some? && OverMax(f, num.value) ==> r == Some("Must be at most " + NumberToString(rt, f.max.value)))
      && (num.Some? && UnderMin(f, num.value) && !OverMax(f, num.value) ==>
            r == Some("Must be at least " + NumberToString(rt, f.min.value)))
  {
    var v := Lookup(data, f.name);
    if f.required && !IsPresentTruthy(v) then Some(LabelText(f) + " is required")
    else if !IsPresentTruthy(v) then None
    else if f.ftype == NumberType then
      match ParseFloat(rt, v.value)
      case None => Some(LabelText(f) + " must be a number")
      case Some(num) =>
        if OverMax(f, num) then Some("Must be at most " + NumberToString(rt, f.max.value))
        else if UnderMin(f, num) then Some("Must be at least " + NumberToString(rt, f.min.value))
        else None
    else if f.ftype == EmailType then
      if Email.Test(ToText(rt, v.value)) then None else Some("Invalid email address")
    else None
  }

  /** `newErrors` after the `forEach` has visited `fields`: each message written under its field's name. */
  function Errors(rt: Runtime, fields: seq<Field>, data: map<string, Value>): map<string, string> {
    Written(fields, (f: Field) => f.name, (f: Field) => FieldError(rt, f, data))
  }

  /** `Object.keys(newErrors).length === 0` holds exactly when no field drew a message. */
  lemma NoErrorsIffEveryFieldPasses(rt: Runtime, fields: seq<Field>, data: map<string, Value>)
    ensures |Errors(rt, fields, data)| == 0 <==> forall i :: 0 <= i < |fields| ==> FieldError(rt, fields[i], data).None?
  {
    NothingWrittenIffAllPass(fields, (f: Field) => f.name, (f: Field) => FieldError(rt, f, data));
  }

  /** A field name has an entry exactly when some field of that name drew a message. */
  lemma ErrorKeys(rt: Runtime, fields: seq<Field>, data: map<string, Value>, name: string)
    ensures name in Errors(rt, fields, data) <==>
      exists i :: 0 <= i < |fields| && fields[i].name == name && FieldError(rt, fields[i], data).Some?
  {
    WrittenKeys(fields, (f: Field) => f.name, (f: Field) => FieldError(rt, f, data), name);
  }

  /**
   * The client is stricter than the back end on a required check box left
   * unticked: `false` is falsy here, so it is reported as missing, while the
   * back end accepts `false` as a present boolean.
   */
  lemma UntickedRequiredCheckbox(rt: Runtime, f: Field, data: map<string, Value>)
    requires f.required && f.ftype == BooleanType && f.name in data && data[f.name] == Bool(false)
    ensures FieldError(rt, f, data) == Some(LabelText(f) + " is required")
    ensures FieldErrors(rt, f, data) == []
  {
  }

  /** The component's state: the schema it renders and the two pieces of React state. */
  class DynamicForm {
    const rt: Runtime
    const fields: seq<Field>
    var formData: map<string, Value>
    var errors: map<string, string>

    /** `useState({})` twice: nothing typed, no messages. */
    constructor(rt: Runtime, fields: seq<Field>)
      ensures this.rt == rt && this.fields == fields
      ensures formData == map[] && errors == map[]
    {
      this.rt := rt;
      this.fields := fields;
      formData := map[];
      errors := map[];
    }

    /** `handleChange`: records the value and clears the field's message if it shows one. */
    method HandleChange(name: string, value: Value)
      modifies this
      ensures formData == old(formData)[name := value]
      ensures errors == ClearError(old(errors), name)
    {
      formData := formData[name := value];
      if name in errors && errors[name] != "" {
        errors := errors - {name};
      }
    }

    /** `validateForm`: rebuilds the messages field by field and reports whether there are none. */
    method ValidateForm() returns (valid: bool)
      modifies this
      ensures formData == old(formData)
      ensures errors == Errors(rt, fields, formData)
      ensures valid <==> forall i :: 0 <= i < |fields| ==> FieldError(rt, fields[i], formData).None?
    {
      var newErrors: map<string, string> := map[];
      var i := 0;
      while i < |fields|
        invariant 0 <= i <= |fields|
        invariant newErrors == Errors(rt, fields[..i], formData)
      {
        assert fields[..i + 1][..i] == fields[..i];
        var f := fields[i];
        var e := FieldError(rt, f, formData);
        if e.Some? {
          newErrors := newErrors[f.name := e.value];
        }
        i := i + 1;
      }
      assert fields[..|fields|] == fields;
      errors := newErrors;
      NoErrorsIffEveryFieldPasses(rt, fields, formData);
      valid := |newErrors| == 0;
    }

    /** `handleSubmit`: the data handed to `onSubmit`, which happens only when validation passes. */
    method HandleSubmit() returns (submitted: Option<map<string, Value>>)
      modifies this
      ensures formData == old(formData)
      ensures errors == Errors(rt, fields, formData)
      ensures submitted.Some? <==> forall i :: 0 <= i < |fields| ==> FieldError(rt, fields[i], formData).None?
      ensures submitted.Some? ==> submitted.value == formData
    {
      var valid := ValidateForm();
      if valid {
        submitted := Some(formData);
      } else {
        submitted := None;
      }
    }
  }
}

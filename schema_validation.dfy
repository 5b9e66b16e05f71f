/**
 * The back end's schema-driven validator (`validateAgainstSchema`): every field
 * of the schema, in order, contributes its messages to one list of
 * human-readable errors; an empty list means the submission is valid.
 */
module SchemaValidation {
  import opened Wrappers
  import opened Text
  import opened JsValues
  import Email
  import opened Seqs

  /** The eight field types; any other type string is `UnknownType`. */
  datatype FieldType =
    | StringType | NumberType | EmailType | FileType
    | BooleanType | SelectType | TextareaType | DateType
    | UnknownType

  /** The type a field's `type` string denotes (`switch` compares with `===`). */
  function FieldTypeOf(s: string): (t: FieldType)
    ensures t == UnknownType <==>
      s !in {"string", "number", "email", "file", "boolean", "select", "textarea", "date"}
  {
    match s
    case "string" => StringType
    case "number" => NumberType
    case "email" => EmailType
    case "file" => FileType
    case "boolean" => BooleanType
    case "select" => SelectType
    case "textarea" => TextareaType
    case "date" => DateType
    case _ => UnknownType
  }

  /**
   * A field definition. Absent properties are `None`, and an absent `type`
   * matches no case of the type switch; `required` is the truthiness of the
   * property. Bounds and lengths are numbers, not necessarily whole, and options
   * are any values.
   */
  datatype Field = Field(
    name: string,
    labelText: Option<string> := None,
    ftype: FieldType := UnknownType,
    required: bool := false,
    min: Option<real> := None,
    max: Option<real> := None,
    minLength: Option<real> := None,
    maxLength: Option<real> := None,
    options: Option<seq<Value>> := None,
    notifyIf: Option<string> := None)

  /** A schema object; `fields` is None when the property is absent. */
  datatype Schema = Schema(fields: Option<seq<Field>>)

  /** `field.label || field.name`: an absent or empty label falls back to the name. */
  function LabelOf(f: Field): (l: string)
    ensures f.labelText.Some? && f.labelText.value != "" ==> l == f.labelText.value
    ensures f.labelText.None? || f.labelText.value == "" ==> l == f.name
  {
    if f.labelText.Some? && f.labelText.value != "" then f.labelText.value else f.name
  }

  /** `value === undefined || value === null || value === ''`; `false` and `0` are present. */
  predicate IsEmpty(v: Option<Value>) {
    v.None? || v.value == Null || v.value == Str("")
  }

  const InvalidSchema: string := "Invalid schema"

  function RequiredMessage(caption: string): string { caption + " is required" }
  function NotANumberMessage(caption: string): string { caption + " must be a valid number" }
  function AtLeastMessage(rt: Runtime, caption: string, min: real): string {
    caption + " must be at least " + NumberToString(rt, min)
  }
  function AtMostMessage(rt: Runtime, caption: string, max: real): string {
    caption + " must be at most " + NumberToString(rt, max)
  }
  function EmailMessage(caption: string): string { caption + " must be a valid email address" }
  /** How `Array.prototype.join` prints one element: like `String(v)`, except that null prints as nothing. */
  function JoinedText(rt: Runtime, v: Value): string {
    if v.Null? then "" else ToText(rt, v)
  }
  function OptionsMessage(rt: Runtime, caption: string, options: seq<Value>): string {
    caption + " must be one of: " + Join(seq(|options|, i requires 0 <= i < |options| => JoinedText(rt, options[i])), ", ")
  }
  function BooleanMessage(caption: string): string { caption + " must be true or false" }
  function DateMessage(caption: string): string { caption + " must be a valid date" }
  function TextMessage(caption: string): string { caption + " must be text" }
  function MinLengthMessage(rt: Runtime, caption: string, n: real): string {
    caption + " must be at least " + NumberToString(rt, n) + " characters"
  }
  function MaxLengthMessage(rt: Runtime, caption: string, n: real): string {
    caption + " must be at most " + NumberToString(rt, n) + " characters"
  }

  predicate BelowMin(f: Field, n: real) { f.min.Some? && n < f.min.value }
  predicate AboveMax(f: Field, n: real) { f.max.Some? && n > f.max.value }

  /** A number field whose bounds cannot both hold: the only way to get two messages from one field. */
  predicate CrossedBounds(f: Field) {
    f.ftype == NumberType && f.min.Some? && f.max.Some? && f.max.value < f.min.value
  }

  /**
   * The `number` case: an unparsable value gives one message; otherwise the
   * minimum and the maximum are two independent checks, and the bounds
   * themselves are accepted.
   */
  function NumberErrors(rt: Runtime, f: Field, caption: string, num: Option<real>): (r: seq<string>)
    ensures num.None? ==> r == [NotANumberMessage(caption)]
    ensures num.Some? && !BelowMin(f, num.value) && !AboveMax(f, num.value) ==> r == []
    ensures num.Some? && BelowMin(f, num.value) ==> |r| >= 1 && r[0] == AtLeastMessage(rt, caption, f.min.value)
    ensures num.Some? && AboveMax(f, num.value) ==> |r| >= 1 && r[|r| - 1] == AtMostMessage(rt, caption, f.max.value)
    ensures |r| == 2 <==> num.Some? && BelowMin(f, num.value) && AboveMax(f, num.value)
    ensures |r| == 2 ==> f.max.value < f.min.value
    ensures |r| <= 2
  {
    match num
    case None => [NotANumberMessage(caption)]
    case Some(n) =>
      (if BelowMin(f, n) then [AtLeastMessage(rt, caption, f.min.value)] else [])
      + (if AboveMax(f, n) then [AtMostMessage(rt, caption, f.max.value)] else [])
  }

  /** A length bound counts only when it is truthy: present and not 0. It need not be whole. */
  predicate TooShort(f: Field, s: string) {
    f.minLength.Some? && f.minLength.value != 0.0 && (|s| as real) < f.minLength.value
  }
  predicate TooLong(f: Field, s: string) {
    f.maxLength.Some? && f.maxLength.value != 0.0 && (|s| as real) > f.maxLength.value
  }

  /**
   * The `string` and `textarea` case: a value that is not text gives one
   * message; a text value reports a too-short length in preference to a
   * too-long one, so there is at most one message.
   */
  function TextErrors(rt: Runtime, f: Field, caption: string, v: Value): (r: seq<string>)
    ensures |r| <= 1
    ensures !v.Str? ==> r == [TextMessage(caption)]
    ensures v.Str? && TooShort(f, v.s) ==> r == [MinLengthMessage(rt, caption, f.minLength.value)]
    ensures v.Str? && !TooShort(f, v.s) && TooLong(f, v.s) ==> r == [MaxLengthMessage(rt, caption, f.maxLength.value)]
    ensures v.Str? && !TooShort(f, v.s) && !TooLong(f, v.s) ==> r == []
  {
    if !v.Str? then [TextMessage(caption)]
    else if TooShort(f, v.s) then [MinLengthMessage(rt, caption, f.minLength.value)]
    else if TooLong(f, v.s) then [MaxLengthMessage(rt, caption, f.maxLength.value)]
    else []
  }

  /** `field.options.includes(value)`: strict equality, so the text "1" does not match the option 1. */
  predicate Includes(options: seq<Value>, v: Value) {
    v in options
  }

  /** Whether `new Date(v)` is a valid time: text is parsed, a number is a time value within the
   *  +-8.64e15 ms range, and booleans and null convert to 1 or 0. */
  predicate IsValidDate(rt: Runtime, v: Value)
    ensures v.Bool? || v.Null? ==> IsValidDate(rt, v)
    ensures v.Num? ==> (IsValidDate(rt, v) <==> -8_640_000_000_000_000.0 <= v.n <= 8_640_000_000_000_000.0)
  {
    match v
    case Str(s) => rt.dateText(s)
    case Num(x) => -8_640_000_000_000_000.0 <= x <= 8_640_000_000_000_000.0
    case Bool(_) => true
    case Null => true
  }

  /** The type-specific check run on a present value. */
  function TypeErrors(rt: Runtime, f: Field, caption: string, v: Value): (r: seq<string>)
    ensures f.ftype == FileType || f.ftype == UnknownType ==> r == []
    ensures f.ftype == NumberType ==> r == NumberErrors(rt, f, caption, ParseFloat(rt, v))
    ensures f.ftype == StringType || f.ftype == TextareaType ==> r == TextErrors(rt, f, caption, v)
    ensures f.ftype == DateType ==> r == (if IsValidDate(rt, v) then [] else [DateMessage(caption)])
    ensures f.ftype == EmailType ==> (r == [] <==> Email.Test(ToText(rt, v)))
    ensures f.ftype == EmailType && !Email.Test(ToText(rt, v)) ==> r == [EmailMessage(caption)]
    ensures f.ftype == BooleanType && !(v.Bool? || v == Str("true") || v == Str("false")) ==> r == [BooleanMessage(caption)]
    ensures f.ftype == SelectType && f.options.None? ==> r == []
    ensures f.ftype == SelectType && f.options.Some? ==>
      r == (if Includes(f.options.value, v) then [] else [OptionsMessage(rt, caption, f.options.value)])
    ensures f.ftype == BooleanType ==> (r == [] <==> v.Bool? || v == Str("true") || v == Str("false"))
    ensures f.ftype != NumberType ==> |r| <= 1
    ensures |r| <= 2
  {
    match f.ftype
    case NumberType => NumberErrors(rt, f, caption, ParseFloat(rt, v))
    case EmailType => if Email.Test(ToText(rt, v)) then [] else [EmailMessage(caption)]
    case SelectType =>
      if f.options.Some? && !Includes(f.options.value, v) then [OptionsMessage(rt, caption, f.options.value)] else []
    case BooleanType =>
      if !v.Bool? && v != Str("true") && v != Str("false") then [BooleanMessage(caption)] else []
    case DateType => if IsValidDate(rt, v) then [] else [DateMessage(caption)]
    case StringType => TextErrors(rt, f, caption, v)
    case TextareaType => TextErrors(rt, f, caption, v)
    case FileType => []
    case UnknownType => []
  }

  /**
   * The messages one field contributes. An empty value yields exactly the
   * required message when the field is required and nothing otherwise, and no
   * type check runs on it.
   */
  function FieldErrors(rt: Runtime, f: Field, data: map<string, Value>): (r: seq<string>)
    ensures IsEmpty(Lookup(data, f.name)) && f.required ==> r == [RequiredMessage(LabelOf(f))]
    ensures IsEmpty(Lookup(data, f.name)) && !f.required ==> r == []
    ensures !IsEmpty(Lookup(data, f.name)) ==> r == TypeErrors(rt, f, LabelOf(f), data[f.name])
    ensures (f.ftype == FileType || f.ftype == UnknownType) && !f.required ==> r == []
    ensures |r| <= 2
    ensures |r| == 2 ==> CrossedBounds(f)
  {
    var v := Lookup(data, f.name);
    if IsEmpty(v) then
      if f.required then [RequiredMessage(LabelOf(f))] else []
    else
      TypeErrors(rt, f, LabelOf(f), v.value)
  }

  /** The messages of a field list, field after field. */
  function FieldsErrors(rt: Runtime, fields: seq<Field>, data: map<string, Value>): seq<string> {
    FlatMap(fields, (f: Field) => FieldErrors(rt, f, data))
  }

  /** At most two messages per field, and at most one per field unless some number field has crossed bounds. */
  lemma {:induction false} FieldsErrorsBound(rt: Runtime, fields: seq<Field>, data: map<string, Value>)
    ensures |FieldsErrors(rt, fields, data)| <= 2 * |fields|
    ensures (forall i :: 0 <= i < |fields| ==> !CrossedBounds(fields[i])) ==> |FieldsErrors(rt, fields, data)| <= |fields|
    decreases |fields|
  {
    if fields != [] {
      FieldsErrorsBound(rt, fields[1..], data);
      assert forall i :: 1 <= i < |fields| ==> fields[1..][i - 1] == fields[i];
    }
  }

  /** `validateAgainstSchema(data, schema)`, as a value. */
  function SchemaErrors(rt: Runtime, data: map<string, Value>, schema: Option<Schema>): (r: seq<string>)
    ensures schema.None? || schema.value.fields.None? ==> r == [InvalidSchema]
    ensures schema.Some? && schema.value.fields.Some? ==> r == FieldsErrors(rt, schema.value.fields.value, data)
  {
    if schema.None? || schema.value.fields.None? then [InvalidSchema]
    else FieldsErrors(rt, schema.value.fields.value, data)
  }

  /** `validateAgainstSchema`: the `forEach` over the fields pushing each field's messages. */
  method ValidateAgainstSchema(rt: Runtime, data: map<string, Value>, schema: Option<Schema>)
    returns (errors: seq<string>)
    ensures errors == SchemaErrors(rt, data, schema)
  {
    if schema.None? || schema.value.fields.None? {
      return [InvalidSchema];
    }
    var fields := schema.value.fields.value;
    errors := [];
    var i := 0;
    while i < |fields|
      invariant 0 <= i <= |fields|
      invariant errors == FieldsErrors(rt, fields[..i], data)
    {
      FieldsErrorsSnoc(rt, fields, i, data);
      errors := errors + FieldErrors(rt, fields[i], data);
      i := i + 1;
    }
    assert fields[..|fields|] == fields;
  }

  /** Validating a concatenation of field lists concatenates the messages. */
  lemma FieldsErrorsAppend(rt: Runtime, a: seq<Field>, b: seq<Field>, data: map<string, Value>)
    ensures FieldsErrors(rt, a + b, data) == FieldsErrors(rt, a, data) + FieldsErrors(rt, b, data)
  {
    FlatMapAppend(a, b, (f: Field) => FieldErrors(rt, f, data));
  }

  lemma FieldsErrorsSnoc(rt: Runtime, fields: seq<Field>, i: nat, data: map<string, Value>)
    requires i < |fields|
    ensures FieldsErrors(rt, fields[..i + 1], data) == FieldsErrors(rt, fields[..i], data) + FieldErrors(rt, fields[i], data)
  {
    assert fields[..i + 1] == fields[..i] + [fields[i]];
    FieldsErrorsAppend(rt, fields[..i], [fields[i]], data);
    FlatMapSingle(fields[i], (f: Field) => FieldErrors(rt, f, data));
  }

  /** Messages come out in field order: those of the fields before `i`, then field `i`'s, then the rest. */
  lemma FieldOrder(rt: Runtime, fields: seq<Field>, data: map<string, Value>, i: nat)
    requires i < |fields|
    ensures FieldsErrors(rt, fields, data) ==
      FieldsErrors(rt, fields[..i], data) + FieldErrors(rt, fields[i], data) + FieldsErrors(rt, fields[i + 1..], data)
  {
    assert fields == fields[..i] + [fields[i]] + fields[i + 1..];
    FieldsErrorsAppend(rt, fields[..i] + [fields[i]], fields[i + 1..], data);
    FieldsErrorsAppend(rt, fields[..i], [fields[i]], data);
    FlatMapSingle(fields[i], (f: Field) => FieldErrors(rt, f, data));
  }

  /** A submission is valid exactly when every field on its own is. */
  lemma {:induction false} ValidIffEveryFieldValid(rt: Runtime, fields: seq<Field>, data: map<string, Value>)
    ensures FieldsErrors(rt, fields, data) == [] <==> forall i :: 0 <= i < |fields| ==> FieldErrors(rt, fields[i], data) == []
    decreases |fields|
  {
    if fields != [] {
      ValidIffEveryFieldValid(rt, fields[1..], data);
      assert forall i :: 1 <= i < |fields| ==> fields[i] == fields[1..][i - 1];
    }
  }

  /** With no data at all, a schema whose fields are all optional accepts; a required field is reported. */
  lemma {:induction false} EmptyDataOptionalFields(rt: Runtime, fields: seq<Field>)
    ensures (forall i :: 0 <= i < |fields| ==> !fields[i].required) <==> FieldsErrors(rt, fields, map[]) == []
    decreases |fields|
  {
    if fields != [] {
      EmptyDataOptionalFields(rt, fields[1..]);
      assert forall i :: 1 <= i < |fields| ==> fields[i] == fields[1..][i - 1];
    }
  }

  /** An empty field list accepts every submission. */
  lemma NoFieldsNoErrors(rt: Runtime, data: map<string, Value>)
    ensures SchemaErrors(rt, data, Some(Schema(Some([])))) == []
  {
  }

  /** A submission that passes validation was checked against a schema that has a field list. */
  lemma PassedImpliesWellFormed(rt: Runtime, data: map<string, Value>, schema: Option<Schema>)
    requires SchemaErrors(rt, data, schema) == []
    ensures schema.Some? && schema.value.fields.Some?
  {
  }
}

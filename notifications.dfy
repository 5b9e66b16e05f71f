/**
 * The back end's threshold notifier (`checkNotifications`): a field whose
 * `notifyIf` is `<operator><number>` and whose submitted value compares true
 * against the number yields one structured event.
 */
module Notifications {
  import opened Wrappers
  import opened Text
  import opened JsValues
  import opened SchemaValidation
  import Seqs

  /** A character of the operator class `[><=]`. */
  predicate IsOpChar(c: char) {
    c == '>' || c == '<' || c == '='
  }

  predicate AllOpChars(s: string) {
    forall i :: 0 <= i < |s| ==> IsOpChar(s[i])
  }

  /** The length of the longest prefix of operator characters: what the greedy group `([><=]+)` takes. */
  function OpPrefixLength(s: string): (k: nat)
    ensures k <= |s| && AllOpChars(s[..k])
    ensures k < |s| ==> !IsOpChar(s[k])
  {
    if s == [] || !IsOpChar(s[0]) then 0
    else
      var k := 1 + OpPrefixLength(s[1..]);
      assert forall i :: 1 <= i < k ==> s[..k][i] == s[1..][..k - 1][i - 1];
      k
  }

  /** The length of the longest prefix of digits. */
  function DigitPrefixLength(s: string): (k: nat)
    ensures k <= |s| && AllDigits(s[..k])
    ensures k < |s| ==> !IsDigit(s[k])
  {
    if s == [] || !IsDigit(s[0]) then 0
    else
      var k := 1 + DigitPrefixLength(s[1..]);
      assert forall i :: 1 <= i < k ==> s[..k][i] == s[1..][..k - 1][i - 1];
      k
  }

  /** The number group `(\d+\.?\d*)`: digits, then optionally a point followed by digits. */
  predicate IsNumeral(t: string) {
    var d := DigitPrefixLength(t);
    d >= 1 && (d == |t| || (t[d] == '.' && AllDigits(t[d + 1..])))
  }

  /** The value of a digit string read as a whole number. */
  function DigitsValue(s: string): (v: real)
    requires AllDigits(s)
    ensures v >= 0.0
    decreases |s|
  {
    if s == [] then 0.0
    else DigitsValue(s[..|s| - 1]) * 10.0 + DigitValue(s[|s| - 1]) as real
  }

  /** The value of a digit string read after a decimal point. */
  function FractionValue(s: string): (v: real)
    requires AllDigits(s)
    ensures 0.0 <= v <= 1.0
    decreases |s|
  {
    if s == [] then 0.0
    else (DigitValue(s[0]) as real + FractionValue(s[1..])) / 10.0
  }

  /** `parseFloat` of a numeral: its exact decimal value. */
  function NumeralValue(t: string): (v: real)
    requires IsNumeral(t)
    ensures v >= 0.0
  {
    var d := DigitPrefixLength(t);
    DigitsValue(t[..d]) + if d == |t| then 0.0 else FractionValue(t[d + 1..])
  }

  /** The operators the `switch` knows; any other operator text matches the grammar but never fires. */
  datatype Operator = Gt | Ge | Lt | Le | Unsupported(text: string)

  function OperatorOf(op: string): (o: Operator)
    ensures o.Unsupported? <==> op !in {">", ">=", "<", "<="}
  {
    match op
    case ">" => Gt
    case ">=" => Ge
    case "<" => Lt
    case "<=" => Le
    case _ => Unsupported(op)
  }

  datatype Condition = Condition(op: Operator, threshold: real)

  /** `condition.match(/^([><=]+)(\d+\.?\d*)$/)`, with the threshold parsed. */
  function ParseCondition(s: string): (c: Option<Condition>)
    ensures c.Some? ==> c.value.threshold >= 0.0
    ensures s == [] || !IsOpChar(s[0]) ==> c.None?
    ensures AllOpChars(s) ==> c.None?
  {
    var k := OpPrefixLength(s);
    if k >= 1 && IsNumeral(s[k..]) then Some(Condition(OperatorOf(s[..k]), NumeralValue(s[k..])))
    else None
  }

  /** What the parser accepts is exactly an operator part followed by a numeral. */
  lemma ParseConditionSound(s: string)
    requires ParseCondition(s).Some?
    ensures exists k :: (0 < k <= |s| && AllOpChars(s[..k]) && IsNumeral(s[k..]) &&
      ParseCondition(s).value == Condition(OperatorOf(s[..k]), NumeralValue(s[k..])))
  {
  }

  /** Every operator part followed by a numeral is accepted, and split where it was joined. */
  lemma ParseConditionComplete(op: string, num: string)
    requires |op| > 0 && AllOpChars(op) && IsNumeral(num)
    ensures ParseCondition(op + num) == Some(Condition(OperatorOf(op), NumeralValue(num)))
  {
    var s := op + num;
    var k := OpPrefixLength(s);
    var d := DigitPrefixLength(num);
    assert num[0] == s[|op|];
    assert s[..k] == op && s[k..] == num;
  }

  /** Printing a whole number and reading it back as a threshold gives the number. */
  lemma {:induction false} NumeralRoundTrip(n: nat)
    ensures IsNumeral(NatToString(n)) && NumeralValue(NatToString(n)) == n as real
  {
    var t := NatToString(n);
    assert DigitPrefixLength(t) == |t|;
    assert t[..|t|] == t;
    DigitsValueOfNat(n);
  }

  lemma {:induction false} DigitsValueOfNat(n: nat)
    ensures DigitsValue(NatToString(n)) == n as real
    decreases n
  {
    var t := NatToString(n);
    if n >= 10 {
      DigitsValueOfNat(n / 10);
      assert t[..|t| - 1] == NatToString(n / 10);
    }
  }

  /** A comparison of the submitted number with the threshold; NaN and unknown operators never hold. */
  predicate Holds(op: Operator, value: Option<real>, threshold: real)
    ensures op.Unsupported? || value.None? ==> !Holds(op, value, threshold)
  {
    match op
    case Gt => value.Some? && value.value > threshold
    case Ge => value.Some? && value.value >= threshold
    case Lt => value.Some? && value.value < threshold
    case Le => value.Some? && value.value <= threshold
    case Unsupported(_) => false
  }

  /** The message template of each operator. */
  function Message(rt: Runtime, caption: string, op: Operator, value: real, threshold: real): (r: string)
    ensures r == "" <==> op.Unsupported?
    ensures !op.Unsupported? ==> caption + " (" + NumberToString(rt, value) + ") " <= r
    ensures !op.Unsupported? ==> var limit := NumberToString(rt, threshold);
      |limit| <= |r| && r[|r| - |limit|..] == limit
  {
    var head := caption + " (" + NumberToString(rt, value) + ") ";
    var limit := NumberToString(rt, threshold);
    match op
    case Gt => head + "exceeds threshold of " + limit
    case Ge => head + "is at or above threshold of " + limit
    case Lt => head + "is below threshold of " + limit
    case Le => head + "is at or below threshold of " + limit
    case Unsupported(_) => ""
  }

  datatype Notification = Notification(field: string, message: string, value: real, threshold: real, condition: string)

  /** The condition text the notifier works on: `field.notifyIf.trim()`, when `notifyIf` is truthy. */
  predicate HasCondition(f: Field) {
    f.notifyIf.Some? && f.notifyIf.value != ""
  }

  /**
   * The event one field yields, if any. It fires exactly when the field has a
   * condition, a value is present (null included), the trimmed condition
   * parses, and its comparison holds of the parsed value.
   */
  function FieldNotification(rt: Runtime, f: Field, data: map<string, Value>): (r: Option<Notification>)
    ensures r.Some? <==>
      HasCondition(f) && f.name in data && ParseCondition(Trim(f.notifyIf.value)).Some? &&
      Holds(ParseCondition(Trim(f.notifyIf.value)).value.op, ParseFloat(rt, data[f.name]),
            ParseCondition(Trim(f.notifyIf.value)).value.threshold)
    ensures r.Some? ==>
      && r.value.field == f.name
      && r.value.condition == Trim(f.notifyIf.value)
      && ParseFloat(rt, data[f.name]) == Some(r.value.value)
      && ParseCondition(r.value.condition).value.threshold == r.value.threshold
      && !ParseCondition(r.value.condition).value.op.Unsupported?
      && r.value.message == Message(rt, LabelOf(f), ParseCondition(r.value.condition).value.op, r.value.value, r.value.threshold)
  {
    if !HasCondition(f) || f.name !in data then None
    else
      var condition := Trim(f.notifyIf.value);
      match ParseCondition(condition)
      case None => None
      case Some(c) =>
        var value := ParseFloat(rt, data[f.name]);
        if Holds(c.op, value, c.threshold) then
          Some(Notification(f.name, Message(rt, LabelOf(f), c.op, value.value, c.threshold), value.value, c.threshold, condition))
        else None
  }

  function ToSeq(n: Option<Notification>): seq<Notification> {
    if n.Some? then [n.value] else []
  }

  /** The events of a field list, field after field: at most one per field. */
  function FieldsNotifications(rt: Runtime, fields: seq<Field>, data: map<string, Value>): (r: seq<Notification>)
    ensures |r| <= |fields|
    decreases |fields|
  {
    if fields == [] then []
    else ToSeq(FieldNotification(rt, fields[0], data)) + FieldsNotifications(rt, fields[1..], data)
  }

  /** `checkNotifications(schema, data)`: reading `fields` of a missing schema, or iterating a missing list, throws. */
  function NotificationsOf(rt: Runtime, schema: Option<Schema>, data: map<string, Value>): (r: Result<seq<Notification>>)
    ensures r.Err? <==> schema.None? || schema.value.fields.None?
    ensures r.Ok? ==> r.value == FieldsNotifications(rt, schema.value.fields.value, data)
  {
    if schema.None? || schema.value.fields.None? then Err("TypeError")
    else Ok(FieldsNotifications(rt, schema.value.fields.value, data))
  }

  /** `checkNotifications`: the `forEach` over the fields pushing each event. */
  method CheckNotifications(rt: Runtime, schema: Option<Schema>, data: map<string, Value>)
    returns (r: Result<seq<Notification>>)
    ensures r == NotificationsOf(rt, schema, data)
  {
    if schema.None? || schema.value.fields.None? {
      return Err("TypeError");
    }
    var fields := schema.value.fields.value;
    var notifications: seq<Notification> := [];
    var i := 0;
    while i < |fields|
      invariant 0 <= i <= |fields|
      invariant notifications == FieldsNotifications(rt, fields[..i], data)
    {
      FieldsNotificationsSnoc(rt, fields, i, data);
      var n := FieldNotification(rt, fields[i], data);
      if n.Some? {
        notifications := notifications + [n.value];
      }
      i := i + 1;
    }
    assert fields[..|fields|] == fields;
    r := Ok(notifications);
  }

  lemma {:induction false} FieldsNotificationsAppend(rt: Runtime, a: seq<Field>, b: seq<Field>, data: map<string, Value>)
    ensures FieldsNotifications(rt, a + b, data) == FieldsNotifications(rt, a, data) + FieldsNotifications(rt, b, data)
    decreases |a|
  {
    if a == [] {
      assert a + b == b;
    } else {
      var head := ToSeq(FieldNotification(rt, a[0], data));
      assert (a + b)[0] == a[0];
      assert (a + b)[1..] == a[1..] + b;
      FieldsNotificationsAppend(rt, a[1..], b, data);
      calc {
        FieldsNotifications(rt, a + b, data);
        head + FieldsNotifications(rt, a[1..] + b, data);
        head + (FieldsNotifications(rt, a[1..], data) + FieldsNotifications(rt, b, data));
        (head + FieldsNotifications(rt, a[1..], data)) + FieldsNotifications(rt, b, data);
      }
    }
  }

  lemma FieldsNotificationsSnoc(rt: Runtime, fields: seq<Field>, i: nat, data: map<string, Value>)
    requires i < |fields|
    ensures FieldsNotifications(rt, fields[..i + 1], data) ==
      FieldsNotifications(rt, fields[..i], data) + ToSeq(FieldNotification(rt, fields[i], data))
  {
    assert fields[..i + 1] == fields[..i] + [fields[i]];
    FieldsNotificationsAppend(rt, fields[..i], [fields[i]], data);
  }

  function FieldNames(fields: seq<Field>): (r: seq<string>)
    ensures |r| == |fields|
    ensures forall i :: 0 <= i < |fields| ==> r[i] == fields[i].name
  {
    seq(|fields|, i requires 0 <= i < |fields| => fields[i].name)
  }

  function EventFields(events: seq<Notification>): (r: seq<string>)
    ensures |r| == |events|
    ensures forall i :: 0 <= i < |events| ==> r[i] == events[i].field
  {
    seq(|events|, i requires 0 <= i < |events| => events[i].field)
  }

  /** Events come out in field order: their field names are a subsequence of the schema's. */
  lemma {:induction false} EventsInFieldOrder(rt: Runtime, fields: seq<Field>, data: map<string, Value>)
    ensures Seqs.IsSubsequence(EventFields(FieldsNotifications(rt, fields, data)), FieldNames(fields))
    decreases |fields|
  {
    if fields != [] {
      EventsInFieldOrder(rt, fields[1..], data);
      assert FieldNames(fields) == [fields[0].name] + FieldNames(fields[1..]);
      PrependEvent(fields[0].name, FieldNotification(rt, fields[0], data),
        FieldsNotifications(rt, fields[1..], data), FieldNames(fields[1..]));
    }
  }

  lemma PrependEvent(name: string, e: Option<Notification>, rest: seq<Notification>, names: seq<string>)
    requires e.Some? ==> e.value.field == name
    requires Seqs.IsSubsequence(EventFields(rest), names)
    ensures Seqs.IsSubsequence(EventFields(ToSeq(e) + rest), [name] + names)
  {
    if e.Some? {
      assert EventFields(ToSeq(e) + rest)[1..] == EventFields(rest);
    } else {
      assert ToSeq(e) + rest == rest;
      Seqs.SubsequenceOfTail(EventFields(rest), [name] + names);
    }
  }

  /** A schema in which no field declares a condition yields no events. */
  lemma {:induction false} NoConditionsNoEvents(rt: Runtime, fields: seq<Field>, data: map<string, Value>)
    requires forall i :: 0 <= i < |fields| ==> !HasCondition(fields[i])
    ensures FieldsNotifications(rt, fields, data) == []
    decreases |fields|
  {
    if fields != [] {
      assert forall i :: 1 <= i < |fields| ==> fields[1..][i - 1] == fields[i];
      NoConditionsNoEvents(rt, fields[1..], data);
    }
  }

  /** A submission that passed validation can be run through the notifier without a throw. */
  lemma ValidatedNeverThrows(rt: Runtime, data: map<string, Value>, schema: Option<Schema>)
    requires SchemaErrors(rt, data, schema) == []
    ensures NotificationsOf(rt, schema, data).Ok?
  {
    PassedImpliesWellFormed(rt, data, schema);
  }

  /** A whole-number threshold written after a supported operator is read back exactly. */
  lemma ConditionRoundTrip(op: string, n: nat)
    requires op in {">", ">=", "<", "<="}
    ensures ParseCondition(op + NatToString(n)) == Some(Condition(OperatorOf(op), n as real))
    ensures !OperatorOf(op).Unsupported?
  {
    NumeralRoundTrip(n);
    assert AllOpChars(op);
    ParseConditionComplete(op, NatToString(n));
  }
}

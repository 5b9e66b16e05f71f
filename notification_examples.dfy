/**
 * The notifier's behaviour on concrete inputs: the cases of its unit tests, the
 * events of the demonstration submissions, and conditions outside the grammar.
 * Every lemma holds for any `Runtime`.
 */
module NotificationExamples {
  import opened Wrappers
  import opened Text
  import opened JsValues
  import opened SchemaValidation
  import opened Notifications

  lemma OneField(rt: Runtime, f: Field, data: map<string, Value>)
    ensures FieldsNotifications(rt, [f], data) == ToSeq(FieldNotification(rt, f, data))
  {
    assert [f][1..] == [];
  }

  /**
   * 450 against ">400" fires exactly once, for the voltage field, with value 450,
   * threshold 400, the trimmed condition and the message that the label
   * "Voltage" of the unit test produces.
   */
  lemma VoltageAboveThresholdNotifies(rt: Runtime)
    ensures NotificationsOf(rt, Some(Schema(Some([
      Field("voltage", labelText := Some("Voltage"), ftype := NumberType, notifyIf := Some(">400"))]))),
      map["voltage" := Num(450.0)])
      == Ok([Notification("voltage", "Voltage (450) exceeds threshold of 400", 450.0, 400.0, ">400")])
  {
    var f := Field("voltage", labelText := Some("Voltage"), ftype := NumberType, notifyIf := Some(">400"));
    var data := map["voltage" := Num(450.0)];
    OneField(rt, f, data);
    VoltageEvent(rt);
    ExceedsText(rt);
  }

  /** A field fires with the parsed value and threshold once its condition parses and holds. */
  lemma Fires(rt: Runtime, f: Field, data: map<string, Value>, c: Condition, v: real)
    requires HasCondition(f) && f.name in data
    requires ParseCondition(Trim(f.notifyIf.value)) == Some(c)
    requires ParseFloat(rt, data[f.name]) == Some(v) && Holds(c.op, Some(v), c.threshold)
    ensures FieldNotification(rt, f, data)
      == Some(Notification(f.name, Message(rt, LabelOf(f), c.op, v, c.threshold), v, c.threshold, Trim(f.notifyIf.value)))
  {
  }

  lemma VoltageEvent(rt: Runtime)
    ensures FieldNotification(rt, Field("voltage", labelText := Some("Voltage"), ftype := NumberType, notifyIf := Some(">400")),
      map["voltage" := Num(450.0)])
      == Some(Notification("voltage", Message(rt, "Voltage", Gt, 450.0, 400.0), 450.0, 400.0, ">400"))
  {
    var f := Field("voltage", labelText := Some("Voltage"), ftype := NumberType, notifyIf := Some(">400"));
    var data := map["voltage" := Num(450.0)];
    ParseAbove400();
    Trim400();
    assert data[f.name] == Num(450.0);
    Fires(rt, f, data, Condition(Gt, 400.0), 450.0);
  }

  lemma Trim400()
    ensures Trim(">400") == ">400"
  {
    TrimUnchanged(">400");
  }

  lemma ParseAbove400()
    ensures ParseCondition(Trim(">400")) == Some(Condition(Gt, 400.0))
  {
    TrimUnchanged(">400");
    assert ">" + NatToString(400) == ">400" by {
      assert NatToString(400) == "400";
    }
    ConditionRoundTrip(">", 400);
  }

  lemma ExceedsText(rt: Runtime)
    ensures Message(rt, "Voltage", Gt, 450.0, 400.0) == "Voltage (450) exceeds threshold of 400"
  {
    Prints450(rt);
    Prints400(rt);
    ExceedsConcat();
  }

  lemma ExceedsConcat()
    ensures "Voltage" + " (" + "450" + ") " + "exceeds threshold of " + "400" == "Voltage (450) exceeds threshold of 400"
  {
  }

  lemma Prints450(rt: Runtime)
    ensures NumberToString(rt, 450.0) == "450"
  {
    WholeNumberText(rt, 450);
    assert NatToString(450) == "450";
  }

  lemma Prints400(rt: Runtime)
    ensures NumberToString(rt, 400.0) == "400"
  {
    WholeNumberText(rt, 400);
    assert NatToString(400) == "400";
  }

  /** 300 against ">400" yields nothing. */
  lemma VoltageBelowThresholdSilent(rt: Runtime)
    ensures NotificationsOf(rt, Some(Schema(Some([
      Field("voltage", ftype := NumberType, notifyIf := Some(">400"))]))), map["voltage" := Num(300.0)])
      == Ok([])
  {
    var f := Field("voltage", ftype := NumberType, notifyIf := Some(">400"));
    var data := map["voltage" := Num(300.0)];
    OneField(rt, f, data);
    ParseAbove400();
  }

  /** 65 against "<70" fires with the below-threshold message of the demonstration data. */
  lemma SafetyScoreBelowThreshold(rt: Runtime)
    ensures NotificationsOf(rt, Some(Schema(Some([
      Field("safety_score", labelText := Some("Safety Score (0-100)"), ftype := NumberType, required := true,
            min := Some(0.0), max := Some(100.0), notifyIf := Some("<70"))]))),
      map["safety_score" := Num(65.0)])
      == Ok([Notification("safety_score", "Safety Score (0-100) (65) is below threshold of 70", 65.0, 70.0, "<70")])
  {
    var f := Field("safety_score", labelText := Some("Safety Score (0-100)"), ftype := NumberType, required := true,
                   min := Some(0.0), max := Some(100.0), notifyIf := Some("<70"));
    OneField(rt, f, map["safety_score" := Num(65.0)]);
    SafetyEvent(rt);
    BelowText(rt);
  }

  lemma SafetyEvent(rt: Runtime)
    ensures FieldNotification(rt, Field("safety_score", labelText := Some("Safety Score (0-100)"), ftype := NumberType,
      required := true, min := Some(0.0), max := Some(100.0), notifyIf := Some("<70")), map["safety_score" := Num(65.0)])
      == Some(Notification("safety_score", Message(rt, "Safety Score (0-100)", Lt, 65.0, 70.0), 65.0, 70.0, "<70"))
  {
    var f := Field("safety_score", labelText := Some("Safety Score (0-100)"), ftype := NumberType,
      required := true, min := Some(0.0), max := Some(100.0), notifyIf := Some("<70"));
    var data := map["safety_score" := Num(65.0)];
    ParseBelow70();
    Trim70();
    assert data[f.name] == Num(65.0);
    Fires(rt, f, data, Condition(Lt, 70.0), 65.0);
  }

  lemma Trim70()
    ensures Trim("<70") == "<70"
  {
    TrimUnchanged("<70");
  }

  lemma ParseBelow70()
    ensures ParseCondition(Trim("<70")) == Some(Condition(Lt, 70.0))
  {
    TrimUnchanged("<70");
    assert "<" + NatToString(70) == "<70" by {
      assert NatToString(70) == "70";
    }
    ConditionRoundTrip("<", 70);
  }

  lemma BelowText(rt: Runtime)
    ensures Message(rt, "Safety Score (0-100)", Lt, 65.0, 70.0) == "Safety Score (0-100) (65) is below threshold of 70"
  {
    Prints65(rt);
    Prints70(rt);
    BelowConcat();
  }

  lemma BelowConcat()
    ensures "Safety Score (0-100)" + " (" + "65" + ") " + "is below threshold of " + "70"
      == "Safety Score (0-100) (65) is below threshold of 70"
  {
  }

  lemma Prints65(rt: Runtime)
    ensures NumberToString(rt, 65.0) == "65"
  {
    WholeNumberText(rt, 65);
    assert NatToString(65) == "65";
  }

  lemma Prints70(rt: Runtime)
    ensures NumberToString(rt, 70.0) == "70"
  {
    WholeNumberText(rt, 70);
    assert NatToString(70) == "70";
  }

  /** The two inclusive comparisons have their own wording: "is at or above" and "is at or below". */
  lemma InclusiveTexts(rt: Runtime)
    ensures Message(rt, "Level", Ge, 5.0, 5.0) == "Level (5) is at or above threshold of 5"
    ensures Message(rt, "Level", Le, 5.0, 5.0) == "Level (5) is at or below threshold of 5"
  {
    Prints5(rt);
    AtOrAboveConcat();
    AtOrBelowConcat();
  }

  lemma AtOrAboveConcat()
    ensures "Level" + " (" + "5" + ") " + "is at or above threshold of " + "5" == "Level (5) is at or above threshold of 5"
  {
  }

  lemma AtOrBelowConcat()
    ensures "Level" + " (" + "5" + ") " + "is at or below threshold of " + "5" == "Level (5) is at or below threshold of 5"
  {
  }

  lemma Prints5(rt: Runtime)
    ensures NumberToString(rt, 5.0) == "5"
  {
    WholeNumberText(rt, 5);
    assert NatToString(5) == "5";
  }

  /** A condition outside the grammar is ignored without an error. */
  lemma MalformedConditionIgnored(rt: Runtime, v: Value)
    ensures NotificationsOf(rt, Some(Schema(Some([
      Field("level", ftype := NumberType, notifyIf := Some("between 1 and 5"))]))), map["level" := v])
      == Ok([])
  {
    OneField(rt, Field("level", ftype := NumberType, notifyIf := Some("between 1 and 5")), map["level" := v]);
    BetweenUnparsed();
  }

  lemma BetweenUnparsed()
    ensures ParseCondition(Trim("between 1 and 5")) == None
  {
    TrimUnchanged("between 1 and 5");
    assert OpPrefixLength("between 1 and 5") == 0;
  }

  /** `=` and `=>` match the grammar but are not operators the notifier knows, so they never fire. */
  lemma UnknownOperatorsNeverFire(rt: Runtime, x: real)
    ensures ParseCondition("=5") == Some(Condition(Unsupported("="), 5.0))
    ensures FieldNotification(rt, Field("level", notifyIf := Some("=5")), map["level" := Num(x)]) == None
    ensures FieldNotification(rt, Field("level", notifyIf := Some("=>5")), map["level" := Num(x)]) == None
  {
    ParseEquals5();
    ParseEqualsArrow5();
  }

  lemma ParseEquals5()
    ensures Trim("=5") == "=5"
    ensures ParseCondition("=5") == Some(Condition(Unsupported("="), 5.0))
  {
    TrimUnchanged("=5");
    Numeral5();
    ParseConditionComplete("=", "5");
    assert "=" + "5" == "=5";
  }

  lemma ParseEqualsArrow5()
    ensures ParseCondition(Trim("=>5")).Some? && ParseCondition(Trim("=>5")).value.op == Unsupported("=>")
  {
    TrimUnchanged("=>5");
    Numeral5();
    ParseConditionComplete("=>", "5");
    assert "=>" + "5" == "=>5";
  }

  lemma Numeral5()
    ensures IsNumeral("5") && NumeralValue("5") == 5.0
  {
    NumeralRoundTrip(5);
    assert NatToString(5) == "5";
  }

  /** Null is a present value for the notifier, but parses to NaN and never fires. */
  lemma NullNeverFires(rt: Runtime)
    ensures FieldNotification(rt, Field("level", notifyIf := Some("<5")), map["level" := Null]) == None
  {
  }
}

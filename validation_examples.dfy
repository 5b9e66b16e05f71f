/**
 * The validator's behaviour on concrete inputs: the cases of its unit tests and
 * its edge cases. Every lemma holds for any `Runtime`: these inputs never reach
 * a text parser or a non-integral number.
 */
module ValidationExamples {
  import opened Wrappers
  import opened Text
  import opened JsValues
  import opened SchemaValidation
  import Seqs

  lemma OneField(rt: Runtime, f: Field, data: map<string, Value>)
    ensures FieldsErrors(rt, [f], data) == FieldErrors(rt, f, data)
  {
    Seqs.FlatMapSingle(f, (x: Field) => FieldErrors(rt, x, data));
  }

  lemma TwoFields(rt: Runtime, f: Field, g: Field, data: map<string, Value>)
    ensures FieldsErrors(rt, [f, g], data) == FieldErrors(rt, f, data) + FieldErrors(rt, g, data)
  {
    assert [f, g][1..] == [g];
    OneField(rt, g, data);
  }

  /** A valid name and an age within 0..120 pass. */
  lemma ValidDataPasses(rt: Runtime)
    ensures SchemaErrors(rt, map["name" := Str("John Doe"), "age" := Num(30.0)],
      Some(Schema(Some([
        Field("name", ftype := StringType, required := true),
        Field("age", ftype := NumberType, required := true, min := Some(0.0), max := Some(120.0))])))) == []
  {
    var data := map["name" := Str("John Doe"), "age" := Num(30.0)];
    var name := Field("name", ftype := StringType, required := true);
    var age := Field("age", ftype := NumberType, required := true, min := Some(0.0), max := Some(120.0));
    TwoFields(rt, name, age, data);
    assert FieldErrors(rt, name, data) == [] by {
      assert Lookup(data, "name") == Some(Str("John Doe"));
    }
    assert FieldErrors(rt, age, data) == [] by {
      assert Lookup(data, "age") == Some(Num(30.0));
    }
  }

  /** A required field missing from the data is reported under its label. */
  lemma MissingRequiredReported(rt: Runtime)
    ensures SchemaErrors(rt, map[], Some(Schema(Some([
      Field("name", labelText := Some("Name"), ftype := StringType, required := true)])))) == ["Name is required"]
  {
    var f := Field("name", labelText := Some("Name"), ftype := StringType, required := true);
    OneField(rt, f, map[]);
    assert RequiredMessage("Name") == "Name is required";
  }

  /** Without a label the message uses the field's name. */
  lemma MissingRequiredUsesName(rt: Runtime)
    ensures SchemaErrors(rt, map[], Some(Schema(Some([
      Field("age", ftype := NumberType, required := true, min := Some(0.0), max := Some(120.0))])))) == ["age is required"]
  {
    var f := Field("age", ftype := NumberType, required := true, min := Some(0.0), max := Some(120.0));
    OneField(rt, f, map[]);
    assert RequiredMessage("age") == "age is required";
  }

  /** 1500 against a 0..1000 range gives exactly the maximum message. */
  lemma VoltageAboveMaximum(rt: Runtime)
    ensures SchemaErrors(rt, map["voltage" := Num(1500.0)], Some(Schema(Some([
      Field("voltage", labelText := Some("Voltage"), ftype := NumberType, required := true,
            min := Some(0.0), max := Some(1000.0))])))) == ["Voltage must be at most 1000"]
  {
    var data := map["voltage" := Num(1500.0)];
    var f := Field("voltage", labelText := Some("Voltage"), ftype := NumberType, required := true,
                   min := Some(0.0), max := Some(1000.0));
    OneField(rt, f, data);
    assert FieldErrors(rt, f, data) == [AtMostMessage(rt, "Voltage", 1000.0)] by {
      assert Lookup(data, "voltage") == Some(Num(1500.0));
    }
    AtMostText(rt);
  }

  lemma AtMostText(rt: Runtime)
    ensures AtMostMessage(rt, "Voltage", 1000.0) == "Voltage must be at most 1000"
  {
    Prints1000(rt);
    AtMostConcat();
  }

  lemma Prints1000(rt: Runtime)
    ensures NumberToString(rt, 1000.0) == "1000"
  {
    WholeNumberText(rt, 1000);
    Digits1000();
  }

  lemma Digits1000()
    ensures NatToString(1000) == "1000"
  {
  }

  lemma AtMostConcat()
    ensures "Voltage" + " must be at most " + "1000" == "Voltage must be at most 1000"
  {
  }

  /** An optional field with no value passes. */
  lemma OptionalEmptyPasses(rt: Runtime)
    ensures SchemaErrors(rt, map[], Some(Schema(Some([Field("notes", ftype := StringType)])))) == []
  {
    OneField(rt, Field("notes", ftype := StringType), map[]);
  }

  /** A value outside the options lists them all. */
  lemma SelectListsOptions(rt: Runtime)
    ensures FieldErrors(rt, Field("grade", ftype := SelectType, options := Some([Str("A"), Str("B")])), map["grade" := Str("C")])
      == ["grade must be one of: A, B"]
  {
    assert Lookup(map["grade" := Str("C")], "grade") == Some(Str("C"));
    assert !Includes([Str("A"), Str("B")], Str("C"));
    OptionsText(rt);
  }

  lemma OptionsText(rt: Runtime)
    ensures OptionsMessage(rt, "grade", [Str("A"), Str("B")]) == "grade must be one of: A, B"
  {
    var texts := seq(2, i requires 0 <= i < 2 => JoinedText(rt, [Str("A"), Str("B")][i]));
    assert texts == ["A", "B"];
    assert ["A", "B"][1..] == ["B"];
    assert Join(["A", "B"], ", ") == "A, B";
  }

  /** Options are compared strictly: the number option 1 accepts the number 1 but not the text "1". */
  lemma NumberOptionsAreStrict(rt: Runtime)
    ensures FieldErrors(rt, Field("n", ftype := SelectType, options := Some([Num(1.0)])), map["n" := Num(1.0)]) == []
    ensures |FieldErrors(rt, Field("n", ftype := SelectType, options := Some([Num(1.0)])), map["n" := Str("1")])| == 1
  {
    assert Lookup(map["n" := Num(1.0)], "n") == Some(Num(1.0));
    assert Lookup(map["n" := Str("1")], "n") == Some(Str("1"));
    assert !Includes([Num(1.0)], Str("1"));
  }

  /** Options present but empty reject every present value. */
  lemma EmptyOptionsRejectAll(rt: Runtime, v: Value)
    requires !IsEmpty(Some(v))
    ensures FieldErrors(rt, Field("grade", ftype := SelectType, options := Some([])), map["grade" := v])
      == ["grade must be one of: "]
  {
    assert Lookup(map["grade" := v], "grade") == Some(v);
    EmptyOptionsText(rt);
  }

  lemma EmptyOptionsText(rt: Runtime)
    ensures OptionsMessage(rt, "grade", []) == "grade must be one of: "
  {
  }

  /** `false` and `0` are values, not missing: a required boolean `false` and a required number `0` at its minimum pass. */
  lemma FalseAndZeroArePresent(rt: Runtime)
    ensures FieldErrors(rt, Field("ok", ftype := BooleanType, required := true), map["ok" := Bool(false)]) == []
    ensures FieldErrors(rt, Field("n", ftype := NumberType, required := true, min := Some(0.0)), map["n" := Num(0.0)]) == []
  {
    assert Lookup(map["ok" := Bool(false)], "ok") == Some(Bool(false));
    assert Lookup(map["n" := Num(0.0)], "n") == Some(Num(0.0));
  }

  /** With crossed bounds both messages appear, the minimum first. */
  lemma CrossedBoundsBothMessages(rt: Runtime)
    ensures FieldErrors(rt, Field("x", ftype := NumberType, min := Some(10.0), max := Some(5.0)), map["x" := Num(7.0)])
      == ["x must be at least 10", "x must be at most 5"]
  {
    var f := Field("x", ftype := NumberType, min := Some(10.0), max := Some(5.0));
    assert FieldErrors(rt, f, map["x" := Num(7.0)]) == [AtLeastMessage(rt, "x", 10.0), AtMostMessage(rt, "x", 5.0)] by {
      assert Lookup(map["x" := Num(7.0)], "x") == Some(Num(7.0));
    }
    CrossedText(rt);
  }

  lemma CrossedText(rt: Runtime)
    ensures AtLeastMessage(rt, "x", 10.0) == "x must be at least 10"
    ensures AtMostMessage(rt, "x", 5.0) == "x must be at most 5"
  {
    Prints10(rt);
    Prints5(rt);
    CrossedConcat();
  }

  lemma Prints10(rt: Runtime)
    ensures NumberToString(rt, 10.0) == "10"
  {
    WholeNumberText(rt, 10);
    assert NatToString(10) == "10";
  }

  lemma Prints5(rt: Runtime)
    ensures NumberToString(rt, 5.0) == "5"
  {
    WholeNumberText(rt, 5);
    assert NatToString(5) == "5";
  }

  lemma CrossedConcat()
    ensures "x" + " must be at least " + "10" == "x must be at least 10"
    ensures "x" + " must be at most " + "5" == "x must be at most 5"
  {
  }

  /** A too-short text reports only the minimum length even when it also violates a maximum. */
  lemma MinLengthPreferred(rt: Runtime)
    ensures FieldErrors(rt, Field("code", ftype := TextareaType, minLength := Some(3.0), maxLength := Some(1.0)), map["code" := Str("ab")])
      == ["code must be at least 3 characters"]
  {
    assert Lookup(map["code" := Str("ab")], "code") == Some(Str("ab"));
    MinLengthText(rt);
  }

  lemma MinLengthText(rt: Runtime)
    ensures MinLengthMessage(rt, "code", 3.0) == "code must be at least 3 characters"
  {
    Prints3(rt);
  }

  lemma Prints3(rt: Runtime)
    ensures NumberToString(rt, 3.0) == "3"
  {
    WholeNumberText(rt, 3);
    assert NatToString(3) == "3";
  }

  /** A length bound need not be whole: a two-character text is shorter than 2.5. */
  lemma FractionalMinLength(rt: Runtime)
    ensures FieldErrors(rt, Field("code", ftype := StringType, minLength := Some(2.5)), map["code" := Str("ab")])
      == [MinLengthMessage(rt, "code", 2.5)]
  {
    assert Lookup(map["code" := Str("ab")], "code") == Some(Str("ab"));
  }

  /** A date field accepts a boolean, and a number only within the time range of 8.64e15 ms either side of 1970. */
  lemma NonTextDates(rt: Runtime)
    ensures FieldErrors(rt, Field("d", ftype := DateType), map["d" := Bool(true)]) == []
    ensures FieldErrors(rt, Field("d", ftype := DateType), map["d" := Num(8_640_000_000_000_000.0)]) == []
    ensures FieldErrors(rt, Field("d", ftype := DateType), map["d" := Num(9_000_000_000_000_000.0)]) == ["d must be a valid date"]
  {
    assert Lookup(map["d" := Bool(true)], "d") == Some(Bool(true));
    assert Lookup(map["d" := Num(8_640_000_000_000_000.0)], "d") == Some(Num(8_640_000_000_000_000.0));
    assert Lookup(map["d" := Num(9_000_000_000_000_000.0)], "d") == Some(Num(9_000_000_000_000_000.0));
    DateText();
  }

  lemma DateText()
    ensures DateMessage("d") == "d must be a valid date"
  {
  }
}

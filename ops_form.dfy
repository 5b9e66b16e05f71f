/**
 * The OpsEase client's `DynamicForm` component. Its schema is a plain list of
 * fields; a field's value is stored under a key derived from its label (lower
 * case, every run of characters other than `a-z` and `0-9` turned into one
 * `_`), and validation writes at most one message per key.
 */
module OpsForm {
  import opened Wrappers
  import opened Text
  import opened JsValues
  import opened ErrorMaps
  import Email
  import Seqs

  /** A field of an OpsEase form: its label, its `type` string and whether it is required. */
  datatype OpsField = OpsField(labelText: string, ftype: string, required: bool := false)

  /** The class `[a-z0-9]`. */
  predicate IsWordChar(c: char) {
    'a' <= c <= 'z' || '0' <= c <= '9'
  }

  /** The characters a field key is made of: `[a-z0-9_]`. */
  predicate IsKeyChar(c: char) {
    IsWordChar(c) || c == '_'
  }

  /** No `_` directly follows another one. */
  predicate NoDoubleUnderscore(s: string) {
    forall i :: 0 <= i < |s| - 1 ==> !(s[i] == '_' && s[i + 1] == '_')
  }

  /** The length of the run of characters outside `[a-z0-9]` that `s` starts with. */
  function NonWordRun(s: string): (k: nat)
    ensures k <= |s|
    ensures forall i :: 0 <= i < k ==> !IsWordChar(s[i])
    ensures k < |s| ==> IsWordChar(s[k])
  {
    if s == [] || IsWordChar(s[0]) then 0
    else
      var k := 1 + NonWordRun(s[1..]);
      assert forall i :: 1 <= i < k ==> s[i] == s[1..][i - 1];
      k
  }

  /**
   * `s.replace(/[^a-z0-9]+/g, '_')`: word characters are copied and every
   * maximal run of other characters becomes a single `_`.
   */
  function Slug(s: string): (r: string)
    ensures |r| <= |s|
    ensures r == [] <==> s == []
    ensures forall i :: 0 <= i < |r| ==> IsKeyChar(r[i])
    ensures NoDoubleUnderscore(r)
    ensures s != [] ==> (r[0] == '_' <==> !IsWordChar(s[0]))
    ensures s != [] && IsWordChar(s[0]) ==> r[0] == s[0]
    decreases |s|
  {
    if s == [] then []
    else
      var k := NonWordRun(s);
      if k == 0 then
        var rest := Slug(s[1..]);
        assert forall i :: 1 <= i < 1 + |rest| ==> ([s[0]] + rest)[i] == rest[i - 1];
        [s[0]] + rest
      else
        var rest := Slug(s[k..]);
        assert forall i :: 1 <= i < 1 + |rest| ==> ("_" + rest)[i] == rest[i - 1];
        "_" + rest
  }

  /**
   * What position `i` of `s` becomes in the slug, read off the position alone:
   * a word character is copied, the first character of a run of other
   * characters becomes `_`, and the rest of that run disappears.
   */
  function SlugPiece(s: string, i: nat): (r: string)
    requires i < |s|
    ensures |r| <= 1
    ensures IsWordChar(s[i]) ==> r == [s[i]]
    ensures !IsWordChar(s[i]) ==> (r == "_" <==> i == 0 || IsWordChar(s[i - 1]))
  {
    if IsWordChar(s[i]) then [s[i]]
    else if i > 0 && !IsWordChar(s[i - 1]) then []
    else "_"
  }

  /** The pieces of positions `i`, `i + 1`, ... of `s`, joined in order. */
  function PiecesFrom(s: string, i: nat): (r: string)
    requires i <= |s|
    ensures |r| <= |s| - i
    decreases |s| - i
  {
    if i == |s| then [] else SlugPiece(s, i) + PiecesFrom(s, i + 1)
  }

  /** The positions after the first one of a run of non-word characters contribute nothing. */
  lemma {:induction false} PiecesSkipRun(s: string, i: nat, j: nat)
    requires 0 < i <= j <= |s|
    requires forall m :: i - 1 <= m < j ==> !IsWordChar(s[m])
    ensures PiecesFrom(s, i) == PiecesFrom(s, j)
    decreases j - i
  {
    if i < j {
      PiecesSkipRun(s, i + 1, j);
    }
  }

  /** One step of `Slug` on a string that starts with a word character. */
  lemma SlugWordStep(t: string)
    requires t != [] && IsWordChar(t[0])
    ensures Slug(t) == [t[0]] + Slug(t[1..])
  {
  }

  /** One step of `Slug` on a string that starts with a run of `k` non-word characters. */
  lemma SlugRunStep(t: string, k: nat)
    requires t != [] && !IsWordChar(t[0]) && k == NonWordRun(t)
    ensures 0 < k <= |t| && Slug(t) == "_" + Slug(t[k..])
  {
  }

  /** The run of non-word characters that starts at position `i`, read off `s` itself. */
  lemma RunAt(s: string, i: nat)
    requires i < |s| && !IsWordChar(s[i])
    ensures var k := NonWordRun(s[i..]);
      && 0 < k && i + k <= |s|
      && (forall m :: i <= m < i + k ==> !IsWordChar(s[m]))
      && (i + k == |s| || IsWordChar(s[i + k]))
  {
    var t := s[i..];
    var k := NonWordRun(t);
    assert t[0] == s[i];
    assert forall m :: i <= m < i + k ==> s[m] == t[m - i];
    if k < |t| {
      assert t[k] == s[i + k];
    }
  }

  /** A word character's piece followed by the slug of the rest is the slug from that character on. */
  lemma WordStepAt(s: string, i: nat)
    requires i < |s| && IsWordChar(s[i])
    requires PiecesFrom(s, i + 1) == Slug(s[i + 1..])
    ensures PiecesFrom(s, i) == Slug(s[i..])
  {
    var t := s[i..];
    assert t[0] == s[i];
    assert t[1..] == s[i + 1..];
    SlugWordStep(t);
  }

  /** A run's single `_` followed by the slug after the run is the slug from the run on. */
  lemma RunStepAt(s: string, i: nat, k: nat)
    requires i < |s| && !IsWordChar(s[i]) && (i == 0 || IsWordChar(s[i - 1]))
    requires k == NonWordRun(s[i..]) && 0 < k && i + k <= |s|
    requires forall m :: i <= m < i + k ==> !IsWordChar(s[m])
    requires PiecesFrom(s, i + k) == Slug(s[i + k..])
    ensures PiecesFrom(s, i) == Slug(s[i..])
  {
    var t := s[i..];
    assert t[0] == s[i];
    SlugRunStep(t, k);
    PiecesAtRun(s, i, k);
    assert t[k..] == s[i + k..];
  }

  /** From any position that does not continue a run of non-word characters, the pieces make the slug of the rest. */
  lemma {:induction false} PiecesFromAreSlug(s: string, i: nat)
    requires i <= |s|
    requires i == 0 || i == |s| || IsWordChar(s[i - 1]) || IsWordChar(s[i])
    ensures PiecesFrom(s, i) == Slug(s[i..])
    decreases |s| - i
  {
    if i < |s| {
      if IsWordChar(s[i]) {
        PiecesFromAreSlug(s, i + 1);
        WordStepAt(s, i);
      } else {
        RunAt(s, i);
        var k := NonWordRun(s[i..]);
        PiecesFromAreSlug(s, i + k);
        RunStepAt(s, i, k);
      }
    }
  }

  /** A run of `k` non-word characters that starts a run contributes one `_`. */
  lemma PiecesAtRun(s: string, i: nat, k: nat)
    requires 0 < k && i + k <= |s|
    requires i == 0 || IsWordChar(s[i - 1])
    requires forall m :: i <= m < i + k ==> !IsWordChar(s[m])
    ensures PiecesFrom(s, i) == "_" + PiecesFrom(s, i + k)
  {
    PiecesSkipRun(s, i + 1, i + k);
  }

  /**
   * The slug is the concatenation, in order, of every position's piece: each
   * maximal run of non-word characters becomes exactly one `_`, and nothing
   * else is added, dropped or reordered.
   */
  lemma SlugByPosition(s: string)
    ensures Slug(s) == PiecesFrom(s, 0)
  {
    PiecesFromAreSlug(s, 0);
    assert s[0..] == s;
  }

  lemma {:induction false} PiecesKeepWordChars(s: string, i: nat)
    requires i <= |s|
    ensures Seqs.Filter(PiecesFrom(s, i), IsWordChar) == Seqs.Filter(s[i..], IsWordChar)
    decreases |s| - i
  {
    if i < |s| {
      PiecesKeepWordChars(s, i + 1);
      Seqs.FilterAppend(SlugPiece(s, i), PiecesFrom(s, i + 1), IsWordChar);
      assert s[i..] == [s[i]] + s[i + 1..];
      Seqs.FilterAppend([s[i]], s[i + 1..], IsWordChar);
      var piece := SlugPiece(s, i);
      assert Seqs.Filter(piece, IsWordChar) == Seqs.Filter([s[i]], IsWordChar) by {
        if piece != [] {
          assert piece == [piece[0]] + piece[1..];
        }
      }
    }
  }

  /** The word characters of the slug are those of the input, in the same order. */
  lemma SlugKeepsWordChars(s: string)
    ensures Seqs.Filter(Slug(s), IsWordChar) == Seqs.Filter(s, IsWordChar)
  {
    SlugByPosition(s);
    PiecesKeepWordChars(s, 0);
    assert s[0..] == s;
  }

  /** `getFieldName(label)`: the key a field's value and message are stored under. */
  function GetFieldName(labelText: string): (key: string)
    ensures |key| <= |labelText|
    ensures key == [] <==> labelText == []
    ensures forall i :: 0 <= i < |key| ==> IsKeyChar(key[i])
    ensures NoDoubleUnderscore(key)
  {
    Slug(Lower(labelText))
  }

  /** A string already made of word characters and single underscores is its own slug. */
  lemma {:induction false} SlugFixed(s: string)
    requires forall i :: 0 <= i < |s| ==> IsKeyChar(s[i])
    requires NoDoubleUnderscore(s)
    ensures Slug(s) == s
    decreases |s|
  {
    if s != [] {
      if IsWordChar(s[0]) {
        SlugFixed(s[1..]);
        assert s == [s[0]] + s[1..];
      } else {
        assert s[0] == '_';
        assert |s| > 1 ==> IsWordChar(s[1]);
        assert NonWordRun(s) == 1;
        SlugFixed(s[1..]);
        assert s == "_" + s[1..];
      }
    }
  }

  /** Lower case leaves a key unchanged: it has no upper-case letters. */
  lemma LowerKey(s: string)
    requires forall i :: 0 <= i < |s| ==> IsKeyChar(s[i])
    ensures Lower(s) == s
  {
  }

  /** Deriving a key from a key gives the same key back. */
  lemma FieldNameIdempotent(labelText: string)
    ensures GetFieldName(GetFieldName(labelText)) == GetFieldName(labelText)
  {
    var key := GetFieldName(labelText);
    LowerKey(key);
    SlugFixed(key);
  }

  /** Labels that differ only in case and punctuation share one key, and so one value and one message. */
  lemma LabelsCollide()
    ensures GetFieldName("First Name") == "first_name"
    ensures GetFieldName("first-name") == "first_name"
  {
    SpacedNameKey();
    HyphenatedNameKey();
  }

  lemma SpacedNameKey()
    ensures GetFieldName("First Name") == "first_name"
  {
    LowerFirstName();
    SlugFirstName(' ');
    assert "first" + [' '] + "name" == "first name";
  }

  lemma HyphenatedNameKey()
    ensures GetFieldName("first-name") == "first_name"
  {
    LowerFirstHyphenName();
    SlugFirstName('-');
    assert "first" + ['-'] + "name" == "first-name";
  }

  lemma LowerFirstName()
    ensures Lower("First Name") == "first name"
  {
  }

  lemma LowerFirstHyphenName()
    ensures Lower("first-name") == "first-name"
  {
  }

  lemma SlugFirstName(sep: char)
    requires sep == ' ' || sep == '-'
    ensures Slug("first" + [sep] + "name") == "first_name"
  {
    var rest := [sep] + "name";
    assert "first" + [sep] + "name" == "first" + rest;
    WordCharsFirst();
    PrefixSlug("first", "first" + rest, rest);
    SlugSeparatorName(sep);
    assert "first" + "_name" == "first_name";
  }

  lemma WordCharsFirst()
    ensures forall i :: 0 <= i < |"first"| ==> IsWordChar("first"[i])
  {
  }

  lemma SlugSeparatorName(sep: char)
    requires sep == ' ' || sep == '-'
    ensures Slug([sep] + "name") == "_name"
  {
    var s := [sep] + "name";
    assert NonWordRun(s) == 1 by {
      assert s[1..] == "name";
    }
    assert s[1..] == "name";
    SlugFixed("name");
  }

  /** A slug over a word-character prefix copies the prefix. */
  lemma {:induction false} PrefixSlug(p: string, s: string, rest: string)
    requires forall i :: 0 <= i < |p| ==> IsWordChar(p[i])
    requires s == p + rest
    ensures Slug(s) == p + Slug(rest)
    decreases |p|
  {
    if p != [] {
      assert s[1..] == p[1..] + rest;
      PrefixSlug(p[1..], s[1..], rest);
      assert s == [p[0]] + s[1..];
    } else {
      assert s == rest;
    }
  }

  /** `field.required && (!value || value.toString().trim() === '')` */
  predicate MissingRequired(rt: Runtime, f: OpsField, v: Option<Value>) {
    f.required && (!IsPresentTruthy(v) || Trim(ToText(rt, v.value)) == "")
  }

  /** `field.type === 'email' && value && !emailRegex.test(value)` */
  predicate BadEmail(rt: Runtime, f: OpsField, v: Option<Value>) {
    f.ftype == "email" && IsPresentTruthy(v) && !Email.Test(ToText(rt, v.value))
  }

  /** `field.type === 'number' && value && isNaN(value)` */
  predicate BadNumber(rt: Runtime, f: OpsField, v: Option<Value>) {
    f.ftype == "number" && IsPresentTruthy(v) && IsNaN(rt, v.value)
  }

  /**
   * The message a field leaves under its key. The three checks run one after
   * the other and each overwrites the last, so the later checks win.
   */
  function FieldError(rt: Runtime, f: OpsField, data: map<string, Value>): (r: Option<string>)
    ensures var v := Lookup(data, GetFieldName(f.labelText));
      && (r.None? <==> !MissingRequired(rt, f, v) && !BadEmail(rt, f, v) && !BadNumber(rt, f, v))
      && (BadNumber(rt, f, v) ==> r == Some("Please enter a valid number"))
      && (BadEmail(rt, f, v) ==> r == Some("Please enter a valid email address"))
      && (MissingRequired(rt, f, v) && !BadEmail(rt, f, v) && !BadNumber(rt, f, v) ==>
            r == Some(f.labelText + " is required"))
  {
    var v := Lookup(data, GetFieldName(f.labelText));
    LastCheckWins(f.labelText, MissingRequired(rt, f, v), BadEmail(rt, f, v), BadNumber(rt, f, v))
  }

  /** The message left by the three checks in order, given which of them fail. */
  function LastCheckWins(labelText: string, missing: bool, badEmail: bool, badNumber: bool): Option<string> {
    var required := if missing then Some(labelText + " is required") else None;
    var email := if badEmail then Some("Please enter a valid email address") else required;
    if badNumber then Some("Please enter a valid number") else email
  }

  /** `newErrors` after the `forEach` over the schema. */
  function Errors(rt: Runtime, schema: seq<OpsField>, data: map<string, Value>): map<string, string> {
    Written(schema, (f: OpsField) => GetFieldName(f.labelText), (f: OpsField) => FieldError(rt, f, data))
  }

  /** The form is valid exactly when no field draws a message. */
  lemma NoErrorsIffEveryFieldPasses(rt: Runtime, schema: seq<OpsField>, data: map<string, Value>)
    ensures |Errors(rt, schema, data)| == 0 <==> forall i :: 0 <= i < |schema| ==> FieldError(rt, schema[i], data).None?
  {
    NothingWrittenIffAllPass(schema, (f: OpsField) => GetFieldName(f.labelText), (f: OpsField) => FieldError(rt, f, data));
  }

  /**
   * A required e-mail field holding only blanks is reported as a bad address,
   * not as missing: the blank text is truthy, so the e-mail check runs after
   * the required check and overwrites its message.
   */
  lemma BlankRequiredEmail(rt: Runtime, f: OpsField, data: map<string, Value>, blanks: string)
    requires f.required && f.ftype == "email"
    requires blanks != [] && AllSpace(blanks)
    requires GetFieldName(f.labelText) in data && data[GetFieldName(f.labelText)] == Str(blanks)
    ensures FieldError(rt, f, data) == Some("Please enter a valid email address")
  {
    assert !Email.Test(blanks);
  }

  /** The component's state: its schema, the typed values, the messages and the submitting flag. */
  class DynamicForm {
    const rt: Runtime
    const schema: seq<OpsField>
    var formData: map<string, Value>
    var errors: map<string, string>
    var isSubmitting: bool

    constructor(rt: Runtime, schema: seq<OpsField>)
      ensures this.rt == rt && this.schema == schema
      ensures formData == map[] && errors == map[] && !isSubmitting
    {
      this.rt := rt;
      this.schema := schema;
      formData := map[];
      errors := map[];
      isSubmitting := false;
    }

    /** `handleChange`: records the value under the key and clears that key's message if it shows one. */
    method HandleChange(key: string, value: Value)
      modifies this
      ensures formData == old(formData)[key := value]
      ensures errors == ClearError(old(errors), key)
      ensures isSubmitting == old(isSubmitting)
    {
      formData := formData[key := value];
      if key in errors && errors[key] != "" {
        errors := errors - {key};
      }
    }

    /** The `forEach` callback: the three checks on one field, each overwriting the field's entry. */
    method CheckField(newErrors: map<string, string>, f: OpsField) returns (updated: map<string, string>)
      ensures var e := FieldError(rt, f, formData);
        updated == if e.Some? then newErrors[GetFieldName(f.labelText) := e.value] else newErrors
    {
      var key := GetFieldName(f.labelText);
      var v := Lookup(formData, key);
      var missing, badEmail, badNumber := MissingRequired(rt, f, v), BadEmail(rt, f, v), BadNumber(rt, f, v);
      ghost var written: Option<string> := None;
      updated := newErrors;
      if missing {
        updated, written := updated[key := f.labelText + " is required"], Some(f.labelText + " is required");
      }
      assert updated == if written.Some? then newErrors[key := written.value] else newErrors;
      if badEmail {
        updated, written := updated[key := "Please enter a valid email address"], Some("Please enter a valid email address");
      }
      assert updated == if written.Some? then newErrors[key := written.value] else newErrors;
      if badNumber {
        updated, written := updated[key := "Please enter a valid number"], Some("Please enter a valid number");
      }
      assert written == LastCheckWins(f.labelText, missing, badEmail, badNumber);
    }

    /** `validateForm`: rebuilds the messages field by field and reports whether there are none. */
    method ValidateForm() returns (valid: bool)
      modifies this
      ensures formData == old(formData) && isSubmitting == old(isSubmitting)
      ensures errors == Errors(rt, schema, formData)
      ensures valid <==> forall i :: 0 <= i < |schema| ==> FieldError(rt, schema[i], formData).None?
    {
      var newErrors: map<string, string> := map[];
      var i := 0;
      while i < |schema|
        invariant 0 <= i <= |schema|
        invariant newErrors == Errors(rt, schema[..i], formData)
        invariant unchanged(this)
      {
        assert schema[..i + 1][..i] == schema[..i];
        newErrors := CheckField(newErrors, schema[i]);
        i := i + 1;
      }
      assert schema[..|schema|] == schema;
      errors := newErrors;
      NoErrorsIffEveryFieldPasses(rt, schema, formData);
      valid := |newErrors| == 0;
    }

    /**
     * `handleSubmit`: the data passed to `onSubmit`, which happens only when the
     * form is valid and a handler was given. The submitting flag is raised for
     * the call and lowered again afterwards.
     */
    method HandleSubmit(hasOnSubmit: bool) returns (submitted: Option<map<string, Value>>)
      modifies this
      ensures formData == old(formData)
      ensures errors == Errors(rt, schema, formData)
      ensures var valid := forall i :: 0 <= i < |schema| ==> FieldError(rt, schema[i], formData).None?;
        && (submitted.Some? <==> valid && hasOnSubmit)
        && (submitted.Some? ==> submitted.value == formData)
        && isSubmitting == (if valid then false else old(isSubmitting))
    {
      var valid := ValidateForm();
      if !valid {
        return None;
      }
      isSubmitting := true;
      if hasOnSubmit {
        submitted := Some(formData);
      } else {
        submitted := None;
      }
      isSubmitting := false;
    }
  }
}

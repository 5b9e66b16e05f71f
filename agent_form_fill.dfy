/**
 * The OpsEase agent page that lists the forms assigned to the agent: the
 * submissions fetched once are grouped by the form they answer, and each form's
 * card shows how many there are, the first one received and the button label.
 */
module AgentFormFill {
  import opened Wrappers
  import opened JsValues
  import opened Seqs
  import opened Submissions

  /**
   * `submission.formId._id || submission.formId` used as a property name: the
   * id of a populated form, the text of a plain id, and `[object Object]` for a
   * populated form without an id. A null reference has no key: reading `_id`
   * of null throws.
   */
  function GroupKey(ref: FormRef): (k: Option<string>)
    ensures k.None? <==> ref.NullForm?
    ensures ref.PopulatedForm? && ref.id != "" ==> k == Some(ref.id)
    ensures ref.FormIdText? ==> k == Some(ref.text)
  {
    match ref
    case FormIdText(t) => Some(t)
    case PopulatedForm(id) => if id != "" then Some(id) else Some("[object Object]")
    case NullForm => None
  }

  predicate HasKey(s: Submission, k: string) {
    GroupKey(s.formRef) == Some(k)
  }

  /** Every submission refers to a form, so the grouping does not throw. */
  predicate AllKeyed(subs: seq<Submission>) {
    forall i :: 0 <= i < |subs| ==> !subs[i].formRef.NullForm?
  }

  /** `submissionsMap` after the `forEach` has pushed each submission onto its form's list. */
  function Grouped(subs: seq<Submission>): map<string, seq<Submission>>
    requires AllKeyed(subs)
    decreases |subs|
  {
    if subs == [] then map[]
    else
      var m := Grouped(subs[..|subs| - 1]);
      var s := subs[|subs| - 1];
      var k := GroupKey(s.formRef).value;
      m[k := (if k in m then m[k] else []) + [s]]
  }

  /**
   * `fetchSubmissionsForForms`' grouping loop. None when a submission's form
   * reference is null: the loop throws, the error is caught and the page keeps
   * its previous grouping.
   */
  method GroupByForm(subs: seq<Submission>) returns (r: Option<map<string, seq<Submission>>>)
    ensures r.Some? <==> AllKeyed(subs)
    ensures r.Some? ==> r.value == Grouped(subs)
  {
    var submissionsMap: map<string, seq<Submission>> := map[];
    var i := 0;
    while i < |subs|
      invariant 0 <= i <= |subs|
      invariant AllKeyed(subs[..i])
      invariant submissionsMap == Grouped(subs[..i])
    {
      var key := GroupKey(subs[i].formRef);
      if key.None? {
        return None;
      }
      assert subs[..i + 1][..i] == subs[..i];
      var formId := key.value;
      if formId !in submissionsMap {
        submissionsMap := submissionsMap[formId := []];
      }
      submissionsMap := submissionsMap[formId := submissionsMap[formId] + [subs[i]]];
      i := i + 1;
    }
    assert subs[..|subs|] == subs;
    return Some(submissionsMap);
  }

  /** A key has a list exactly when some submission has that key. */
  lemma {:induction false} GroupedKeys(subs: seq<Submission>, k: string)
    requires AllKeyed(subs)
    ensures k in Grouped(subs) <==> exists i :: 0 <= i < |subs| && HasKey(subs[i], k)
    decreases |subs|
  {
    if subs != [] {
      var n := |subs| - 1;
      var init := subs[..n];
      assert AllKeyed(init);
      GroupedKeys(init, k);
      if k in Grouped(init) {
        var i :| 0 <= i < n && HasKey(init[i], k);
        assert init[i] == subs[i];
      }
      if exists i :: 0 <= i < |subs| && HasKey(subs[i], k) {
        var i :| 0 <= i < |subs| && HasKey(subs[i], k);
        if i < n {
          assert init[i] == subs[i];
        }
      }
    }
  }

  /**
   * Each form's list holds exactly the submissions with its key, in the order
   * received; a key has a list only when some submission has that key.
   */
  lemma {:induction false} GroupedIsFilter(subs: seq<Submission>, k: string)
    requires AllKeyed(subs)
    ensures k in Grouped(subs) <==> exists i :: 0 <= i < |subs| && HasKey(subs[i], k)
    ensures k in Grouped(subs) ==> Grouped(subs)[k] == Filter(subs, (s: Submission) => HasKey(s, k))
    decreases |subs|
  {
    GroupedKeys(subs, k);
    if subs != [] {
      var n := |subs| - 1;
      var init := subs[..n];
      var last := subs[n];
      assert AllKeyed(init);
      GroupedIsFilter(init, k);
      assert subs == init + [last];
      FilterAppend(init, [last], (s: Submission) => HasKey(s, k));
      if k !in Grouped(init) {
        FilterNoneKept(init, (s: Submission) => HasKey(s, k));
      }
    }
  }

  /** Every list is non-empty, and every submission is in its own form's list and in no other. */
  lemma GroupsPartition(subs: seq<Submission>, k: string)
    requires AllKeyed(subs)
    ensures k in Grouped(subs) ==> |Grouped(subs)[k]| > 0
    ensures k in Grouped(subs) ==> forall s :: s in Grouped(subs)[k] <==> s in subs && HasKey(s, k)
  {
    GroupedIsFilter(subs, k);
    if k in Grouped(subs) {
      var i :| 0 <= i < |subs| && HasKey(subs[i], k);
      assert subs[i] in Grouped(subs)[k];
    }
  }

  /** Some key of a non-empty grouping. */
  ghost function SomeKey(m: map<string, seq<Submission>>): (k: string)
    requires m != map[]
    ensures k in m
  {
    var k :| k in m; k
  }

  /** The sizes of all the lists of a grouping, added up. */
  ghost function SizeSum(m: map<string, seq<Submission>>): nat
    decreases |m.Keys|
  {
    if m == map[] then 0
    else
      var k := SomeKey(m);
      assert |(m - {k}).Keys| < |m.Keys| by { assert m.Keys == (m - {k}).Keys + {k}; }
      |m[k]| + SizeSum(m - {k})
  }

  /** The sum does not depend on which key is taken out first. */
  lemma {:induction false} SizeSumRemove(m: map<string, seq<Submission>>, k: string)
    requires k in m
    ensures SizeSum(m) == |m[k]| + SizeSum(m - {k})
    decreases |m.Keys|
  {
    var j := SomeKey(m);
    if j != k {
      assert m.Keys == (m - {j}).Keys + {j};
      assert m.Keys == (m - {k}).Keys + {k};
      SizeSumRemove(m - {j}, k);
      SizeSumRemove(m - {k}, j);
      assert m - {j} - {k} == m - {k} - {j};
    }
  }

  /** The list sizes add up to the number of submissions: each one is in exactly one list. */
  lemma {:induction false} GroupSizesSum(subs: seq<Submission>)
    requires AllKeyed(subs)
    ensures SizeSum(Grouped(subs)) == |subs|
    decreases |subs|
  {
    if subs != [] {
      var init := subs[..|subs| - 1];
      assert AllKeyed(init);
      GroupSizesSum(init);
      var m := Grouped(init);
      var k := GroupKey(subs[|subs| - 1].formRef).value;
      var m' := Grouped(subs);
      SizeSumRemove(m', k);
      assert m' - {k} == m - {k};
      if k in m {
        SizeSumRemove(m, k);
      } else {
        assert m - {k} == m;
      }
    }
  }

  /** Submission `i` is the first one received for key `k`. */
  predicate FirstWithKey(subs: seq<Submission>, k: string, i: int) {
    0 <= i < |subs| && HasKey(subs[i], k) && forall j :: 0 <= j < i ==> !HasKey(subs[j], k)
  }

  /** What a form's card shows: the number of submissions, the one shown as the last submission, and the button label. */
  datatype Card = Card(count: nat, latest: Option<Submission>, button: string)

  /** The card of the form with id `formId`: `submissions[form._id] || []`, its first entry, and the label. */
  function FormCard(grouped: map<string, seq<Submission>>, formId: string): (c: Card)
    ensures c.count == (if formId in grouped then |grouped[formId]| else 0)
    ensures c.latest.Some? <==> c.count > 0
    ensures c.button == "Fill Again" <==> c.count > 0
    ensures c.button == "Fill Form" <==> c.count == 0
  {
    var list := if formId in grouped then grouped[formId] else [];
    Card(|list|, if |list| > 0 then Some(list[0]) else None, if |list| > 0 then "Fill Again" else "Fill Form")
  }

  /**
   * On the cards built from a fetch, a form's count is the number of
   * submissions that answer it, and it says "Fill Again" exactly when there is
   * one.
   */
  lemma CardCountsAnswers(subs: seq<Submission>, formId: string)
    requires AllKeyed(subs)
    ensures var c := FormCard(Grouped(subs), formId);
      && c.count == |Filter(subs, (s: Submission) => HasKey(s, formId))|
      && (c.button == "Fill Again" <==> exists i :: 0 <= i < |subs| && HasKey(subs[i], formId))
  {
    GroupedIsFilter(subs, formId);
    if formId !in Grouped(subs) {
      FilterNoneKept(subs, (s: Submission) => HasKey(s, formId));
    } else {
      GroupsPartition(subs, formId);
    }
  }

  /**
   * The submission a card shows as the last one is the first for that form in
   * the fetched list, which the server sorts newest first: the most recent.
   */
  lemma CardShowsMostRecent(subs: seq<Submission>, formId: string, i: nat)
    requires AllKeyed(subs) && FirstWithKey(subs, formId, i)
    ensures FormCard(Grouped(subs), formId).latest == Some(subs[i])
  {
    GroupedIsFilter(subs, formId);
    FilterFirst(subs, (s: Submission) => HasKey(s, formId), i);
  }

  /** The answers previewed in the history: `Object.entries(submission.data || {}).slice(0, 3)`. */
  function HistoryPreview(data: seq<(string, Value)>): (r: seq<(string, Value)>)
    ensures |r| == if |data| < 3 then |data| else 3
    ensures r <= data
  {
    if |data| < 3 then data else data[..3]
  }
}

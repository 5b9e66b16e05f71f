/**
 * The OpsEase form list page: the search box and status filter over the forms,
 * deleting a form from the list, and the check boxes that choose the agents a
 * form is assigned to.
 */
module FormList {
  import opened Wrappers
  import opened Text
  import opened Seqs

  /** A form as the list sees it. `assignedTo` is None when the property is absent. */
  datatype Form = Form(
    id: string,
    title: string,
    description: Option<string> := None,
    assignedTo: Option<seq<string>> := None)

  /** `form.assignedTo && form.assignedTo.length > 0` */
  predicate IsAssigned(f: Form) {
    f.assignedTo.Some? && |f.assignedTo.value| > 0
  }

  /** The search box: an empty query matches all; otherwise the lower-cased title or (truthy) description must contain it. */
  predicate MatchesSearch(f: Form, query: string) {
    || query == ""
    || Contains(Lower(f.title), Lower(query))
    || (f.description.Some? && f.description.value != "" && Contains(Lower(f.description.value), Lower(query)))
  }

  /** The status filter: `All`, `Active` (assigned to some agent) or `Inactive`; any other value matches nothing. */
  predicate MatchesStatus(f: Form, status: string) {
    || status == "All"
    || (status == "Active" && IsAssigned(f))
    || (status == "Inactive" && !IsAssigned(f))
  }

  predicate Shown(f: Form, query: string, status: string) {
    MatchesSearch(f, query) && MatchesStatus(f, status)
  }

  /** `getFilteredForms()`: the forms that pass both filters, in list order; the page shows "Showing n of m". */
  function FilteredForms(forms: seq<Form>, query: string, status: string): (r: seq<Form>)
    ensures |r| <= |forms|
    ensures forall f :: f in r <==> f in forms && Shown(f, query, status)
    ensures forall f :: multiset(r)[f] == if Shown(f, query, status) then multiset(forms)[f] else 0
    ensures IsSubsequence(r, forms)
    ensures status != "All" && status != "Active" && status != "Inactive" ==> r == []
  {
    FilterIsSubsequence(forms, (f: Form) => Shown(f, query, status));
    var r := Filter(forms, (f: Form) => Shown(f, query, status));
    assert r != [] ==> r[0] in r;
    r
  }

  /** An empty query under `All` shows every form. */
  lemma NoFilterShowsAll(forms: seq<Form>)
    ensures FilteredForms(forms, "", "All") == forms
  {
    FilterAllKept(forms, (f: Form) => Shown(f, "", "All"));
  }

  /** `Active` and `Inactive` split the forms that `All` shows: every shown form is in exactly one of them. */
  lemma StatusesPartition(forms: seq<Form>, query: string)
    ensures |FilteredForms(forms, query, "Active")| + |FilteredForms(forms, query, "Inactive")|
         == |FilteredForms(forms, query, "All")|
    ensures multiset(FilteredForms(forms, query, "Active")) + multiset(FilteredForms(forms, query, "Inactive"))
         == multiset(FilteredForms(forms, query, "All"))
  {
    StatusesPartitionMultiset(forms, query);
    assert |multiset(FilteredForms(forms, query, "Active")) + multiset(FilteredForms(forms, query, "Inactive"))|
        == |FilteredForms(forms, query, "Active")| + |FilteredForms(forms, query, "Inactive")|;
  }

  lemma {:induction false} StatusesPartitionMultiset(forms: seq<Form>, query: string)
    ensures multiset(FilteredForms(forms, query, "Active")) + multiset(FilteredForms(forms, query, "Inactive"))
         == multiset(FilteredForms(forms, query, "All"))
    decreases |forms|
  {
    if forms != [] {
      StatusesPartitionMultiset(forms[1..], query);
      var f := forms[0];
      FilteredUnfold(forms, query, "Active");
      FilteredUnfold(forms, query, "Inactive");
      FilteredUnfold(forms, query, "All");
    }
  }

  /** One step of the filter: the first form, if shown, then the filtered rest. */
  lemma FilteredUnfold(forms: seq<Form>, query: string, status: string)
    requires forms != []
    ensures FilteredForms(forms, query, status) ==
      (if Shown(forms[0], query, status) then [forms[0]] else []) + FilteredForms(forms[1..], query, status)
  {
  }

  /** The search ignores case: a query and its lower-case form select the same forms. */
  lemma SearchIgnoresCase(f: Form, query: string)
    ensures MatchesSearch(f, query) <==> MatchesSearch(f, Lower(query))
  {
    assert Lower(Lower(query)) == Lower(query);
  }

  /** After a delete the list is `forms.filter(form => form._id !== formId)`. */
  function RemoveForm(forms: seq<Form>, formId: string): (r: seq<Form>)
    ensures forall f :: f in r <==> f in forms && f.id != formId
    ensures forall f :: multiset(r)[f] == if f.id != formId then multiset(forms)[f] else 0
    ensures IsSubsequence(r, forms)
  {
    FilterIsSubsequence(forms, (f: Form) => f.id != formId);
    Filter(forms, (f: Form) => f.id != formId)
  }

  /** Deleting an id that no form has leaves the list as it was. */
  lemma RemoveAbsentId(forms: seq<Form>, formId: string)
    requires forall f :: f in forms ==> f.id != formId
    ensures RemoveForm(forms, formId) == forms
  {
    FilterAllKept(forms, (f: Form) => f.id != formId);
  }

  /** Form `i` is the first one with the id. */
  predicate FirstWithId(forms: seq<Form>, formId: string, i: int) {
    0 <= i < |forms| && forms[i].id == formId && forall j :: 0 <= j < i ==> forms[j].id != formId
  }

  /** `forms.find(f => f._id === formId)`: the first form with the id, None for `undefined`. */
  function Find(forms: seq<Form>, formId: string): (r: Option<Form>)
    ensures r.None? <==> forall i :: 0 <= i < |forms| ==> forms[i].id != formId
    ensures r.Some? ==> exists i :: FirstWithId(forms, formId, i) && r.value == forms[i]
    decreases |forms|
  {
    if forms == [] then None
    else if forms[0].id == formId then
      assert FirstWithId(forms, formId, 0);
      Some(forms[0])
    else
      var r := Find(forms[1..], formId);
      assert forall i :: 1 <= i < |forms| ==> forms[i] == forms[1..][i - 1];
      if r.Some? then
        var i :| FirstWithId(forms[1..], formId, i) && r.value == forms[1..][i];
        assert FirstWithId(forms, formId, i + 1);
        r
      else r
  }

  /**
   * `openAssignModal`: the agents of the first form with the id (`[]` when it
   * has none). None when no form has the id, where reading `assignedTo` of
   * `undefined` throws.
   */
  function AgentsOf(forms: seq<Form>, formId: string): (r: Option<seq<string>>)
    ensures r.None? <==> forall i :: 0 <= i < |forms| ==> forms[i].id != formId
    ensures r.Some? ==> exists i :: (FirstWithId(forms, formId, i) &&
      r.value == (if forms[i].assignedTo.Some? then forms[i].assignedTo.value else []))
  {
    match Find(forms, formId)
    case None => None
    case Some(f) => Some(if f.assignedTo.Some? then f.assignedTo.value else [])
  }

  /** A check box of the assign dialog: ticking appends the agent, unticking removes every occurrence of it. */
  function ToggleAgent(agentIds: seq<string>, agent: string, checked: bool): (r: seq<string>)
    ensures checked ==> r == agentIds + [agent]
    ensures !checked ==> forall x :: x in r <==> x in agentIds && x != agent
    ensures !checked ==> forall x :: multiset(r)[x] == if x != agent then multiset(agentIds)[x] else 0
    ensures !checked ==> IsSubsequence(r, agentIds)
  {
    if checked then agentIds + [agent]
    else
      FilterIsSubsequence(agentIds, (x: string) => x != agent);
      Filter(agentIds, (x: string) => x != agent)
  }

  /** A box is shown ticked when its agent is in the list, so ticking adds an agent that was absent and keeps the list free of repeats. */
  lemma TickKeepsDistinct(agentIds: seq<string>, agent: string)
    requires agent !in agentIds
    requires forall i, j :: 0 <= i < j < |agentIds| ==> agentIds[i] != agentIds[j]
    ensures var r := ToggleAgent(agentIds, agent, true);
      agent in r && forall i, j :: 0 <= i < j < |r| ==> r[i] != r[j]
  {
  }

  /** Unticking a box just ticked restores the previous selection. */
  lemma UntickUndoesTick(agentIds: seq<string>, agent: string)
    requires agent !in agentIds
    ensures ToggleAgent(ToggleAgent(agentIds, agent, true), agent, false) == agentIds
  {
    var p := (x: string) => x != agent;
    FilterAppend(agentIds, [agent], p);
    FilterAllKept(agentIds, p);
    assert Filter([agent], p) == [];
  }
}

/**
 * The OpsEase form builder page: it asks for a description to generate a
 * schema from, lets the manager edit or delete the generated fields one at a
 * time, and saves the form under a title, either as a new form or as an update
 * of the form being edited.
 */
module FormBuilder {
  import opened Wrappers
  import opened Text
  import opened OpsForm

  /** `schema.filter((_, i) => i !== index)`: the fields at every position but `index`. */
  function DeleteIndex(schema: seq<OpsField>, index: int): (r: seq<OpsField>)
    ensures 0 <= index < |schema| ==> r == schema[..index] + schema[index + 1..]
    ensures !(0 <= index < |schema|) ==> r == schema
    decreases |schema|
  {
    if schema == [] then []
    else if index == 0 then DeleteIndex(schema[1..], -1)
    else
      KeepHead(schema, index);
      [schema[0]] + DeleteIndex(schema[1..], index - 1)
  }

  /** Deleting past the head keeps the head in front of the deletion from the tail. */
  lemma KeepHead(schema: seq<OpsField>, index: int)
    ensures 0 < index < |schema| ==>
      [schema[0]] + (schema[1..][..index - 1] + schema[1..][index..]) == schema[..index] + schema[index + 1..]
  {
    if 0 < index < |schema| {
      assert schema[1..][..index - 1] == schema[1..index];
      assert schema[1..][index..] == schema[index + 1..];
      assert [schema[0]] + schema[1..index] == schema[..index];
    }
  }

  /** What `handleSaveForm` does: stop with a message, update the form with the route's id, or create a new form. */
  datatype SaveOutcome = Rejected(message: string) | UpdateForm(id: string) | CreateForm

  /**
   * `handleSaveForm`'s decision. A blank title is reported before a missing
   * schema; a valid form is an update only when the route has an id AND the
   * page was opened with a form, and a new form otherwise.
   */
  function SaveDecision(title: string, schema: Option<seq<OpsField>>, routeId: Option<string>, hasInitialForm: bool): (r: SaveOutcome)
    ensures r == Rejected("Please enter a form title") <==> AllSpace(title)
    ensures r == Rejected("Please generate a form schema first") <==>
      !AllSpace(title) && (schema.None? || schema.value == [])
    ensures r.Rejected? <==> AllSpace(title) || schema.None? || schema.value == []
    ensures r.UpdateForm? <==> !r.Rejected? && routeId.Some? && routeId.value != "" && hasInitialForm
    ensures r.UpdateForm? ==> r.id == routeId.value
  {
    if Trim(title) == "" then Rejected("Please enter a form title")
    else if schema.None? || schema.value == [] then Rejected("Please generate a form schema first")
    else if routeId.Some? && routeId.value != "" && hasInitialForm then UpdateForm(routeId.value)
    else CreateForm
  }

  /** `handleGenerate`'s guard: a blank description is reported and nothing is requested. */
  function GenerateError(description: string): (r: Option<string>)
    ensures r.Some? <==> AllSpace(description)
    ensures r.Some? ==> r.value == "Please enter a description"
  {
    if Trim(description) == "" then Some("Please enter a description") else None
  }

  /** The page's state that the handlers below change. */
  class FormBuilderPage {
    var description: string
    var formTitle: string
    var generatedSchema: Option<seq<OpsField>>
    var editingField: Option<int>
    var error: string

    /**
     * The preview shows the editor only while a field is being edited, and
     * only for a position of the schema; the delete buttons are shown only
     * while nothing is being edited.
     */
    predicate Valid()
      reads this
    {
      editingField.Some? ==> generatedSchema.Some? && 0 <= editingField.value < |generatedSchema.value|
    }

    /** The page as first rendered, or with `initialForm` loaded. */
    constructor(initialTitle: string, initialSchema: Option<seq<OpsField>>)
      ensures Valid()
      ensures formTitle == initialTitle && generatedSchema == initialSchema
      ensures description == "" && editingField.None? && error == ""
    {
      description := "";
      formTitle := initialTitle;
      generatedSchema := initialSchema;
      editingField := None;
      error := "";
    }

    /** `handleGenerate` up to the request: true when the description is sent to the generator. */
    method HandleGenerate() returns (requested: bool)
      modifies this
      ensures requested <==> GenerateError(description).None?
      ensures error == if requested then "" else GenerateError(description).value
      ensures description == old(description) && generatedSchema == old(generatedSchema)
      ensures formTitle == old(formTitle) && editingField == old(editingField)
    {
      if Trim(description) == "" {
        error := "Please enter a description";
        return false;
      }
      error := "";
      return true;
    }

    /** `handleSaveForm` up to the request: the outcome, with its message shown when the save is refused. */
    method HandleSaveForm(routeId: Option<string>, hasInitialForm: bool) returns (outcome: SaveOutcome)
      modifies this
      ensures outcome == SaveDecision(formTitle, generatedSchema, routeId, hasInitialForm)
      ensures error == if outcome.Rejected? then outcome.message else ""
      ensures description == old(description) && generatedSchema == old(generatedSchema)
      ensures formTitle == old(formTitle) && editingField == old(editingField)
    {
      outcome := SaveDecision(formTitle, generatedSchema, routeId, hasInitialForm);
      if outcome.Rejected? {
        error := outcome.message;
      } else {
        error := "";
      }
    }

    /** `handleEditField`: opens the editor on a field of the schema. */
    method HandleEditField(index: int)
      requires Valid() && generatedSchema.Some? && 0 <= index < |generatedSchema.value|
      modifies this
      ensures Valid()
      ensures editingField == Some(index)
      ensures generatedSchema == old(generatedSchema)
      ensures description == old(description) && formTitle == old(formTitle) && error == old(error)
    {
      editingField := Some(index);
    }

    /**
     * `handleSaveField`: copies the schema, puts the edited field at the
     * position being edited, and closes the editor. Every other field stays.
     */
    method HandleSaveField(updatedField: OpsField)
      requires Valid() && editingField.Some?
      modifies this
      ensures Valid()
      ensures editingField.None?
      ensures generatedSchema.Some? && |generatedSchema.value| == |old(generatedSchema).value|
      ensures generatedSchema.value[old(editingField).value] == updatedField
      ensures forall i :: 0 <= i < |generatedSchema.value| && i != old(editingField).value ==>
        generatedSchema.value[i] == old(generatedSchema).value[i]
      ensures description == old(description) && formTitle == old(formTitle) && error == old(error)
    {
      var schema := generatedSchema.value;
      var updatedSchema := new OpsField[|schema|](i requires 0 <= i < |schema| => schema[i]);
      updatedSchema[editingField.value] := updatedField;
      generatedSchema := Some(updatedSchema[..]);
      editingField := None;
    }

    /** `handleCancelEdit`: closes the editor and keeps the schema. */
    method HandleCancelEdit()
      modifies this
      ensures Valid()
      ensures editingField.None? && generatedSchema == old(generatedSchema)
      ensures description == old(description) && formTitle == old(formTitle) && error == old(error)
    {
      editingField := None;
    }

    /** `handleDeleteField`: removes the field at the position, when there is one. */
    method HandleDeleteField(index: int)
      requires Valid() && editingField.None? && generatedSchema.Some?
      modifies this
      ensures Valid()
      ensures editingField.None?
      ensures generatedSchema == Some(DeleteIndex(old(generatedSchema).value, index))
      ensures description == old(description) && formTitle == old(formTitle) && error == old(error)
    {
      generatedSchema := Some(DeleteIndex(generatedSchema.value, index));
    }
  }

  /** Deleting a field shortens the schema by one and keeps the remaining fields in their order. */
  lemma DeleteShortens(schema: seq<OpsField>, index: int)
    requires 0 <= index < |schema|
    ensures |DeleteIndex(schema, index)| == |schema| - 1
    ensures forall i :: 0 <= i < index ==> DeleteIndex(schema, index)[i] == schema[i]
    ensures forall i :: index <= i < |schema| - 1 ==> DeleteIndex(schema, index)[i] == schema[i + 1]
  {
  }
}

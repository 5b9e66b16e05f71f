# Field forms: validation, notification and the list pages, in Dafny

This project models the logic of two small form systems written in JavaScript:

- **FieldForm.** A back end checks a submitted record against a schema of typed fields. `validateAgainstSchema` returns the error messages in field order. `checkNotifications` turns each `notifyIf` condition of the form `<operator><number>` into a threshold event. The browser-side `DynamicForm` runs a lighter check into a map of messages keyed by field name before it sends anything.
- **OpsEase.** A browser client. The model covers:
  - its `DynamicForm`, which keys values and messages by a slug of each field's label;
  - the form list page's search, status filter, delete and agent check boxes;
  - the submission list's status filter, counters and local status update;
  - the agent page's grouping of submissions by form;
  - the form builder's field editing and save/generate guards;
  - the dashboard's "time ago" phrase and status badge;
  - the seven-day submission chart.

Each operation is modelled in the form the code has:

- **Loops that grow a list or a map** (`forEach` with `push`, or writes into `newErrors`) are methods with loop invariants. Each is proved equal to a recursive function over the field or submission sequence, and the promised properties are proved about that function.
- **React components whose handlers replace state** are classes. Their methods state the whole new state.
- **`filter`, `map` and conditional expressions** are functions with contracts.
- **The chart's in-place count increments** act on an array.

The JavaScript primitives that turn text into numbers or dates, and that print non-integral numbers, are fields of a `Runtime` value passed as a parameter (`JsValues.Runtime`). Numbers, booleans and `null` coerce as the language defines. A whole number below 10^21 prints as its digits, so the exact messages of the unit tests and of the demonstration data are proved for every `Runtime`.

In `FieldForm/backend/src/validation.js:36-41` the `min`/`max` checks are two independent `if`s, so a field whose bounds are crossed (max < min) reports both messages. `SchemaValidation.NumberErrors` and `ValidationExamples.CrossedBoundsBothMessages` state this. The length checks (lines 75-79) are an else-if chain, and the model follows that too.

Files:

- shared: `wrappers.dfy`, `text.dfy`, `js_values.dfy`, `seqs.dfy`, `email.dfy`;
- FieldForm back end: `schema_validation.dfy`, `notifications.dfy`, `validation_examples.dfy`, `notification_examples.dfy`;
- FieldForm client: `error_maps.dfy`, `fieldform_client.dfy`;
- OpsEase client: `ops_form.dfy`, `form_list.dfy`, `submissions.dfy`, `submission_list.dfy`, `agent_form_fill.dfy`, `form_builder.dfy`, `dashboard.dfy`, `charts.dfy`.

## Model

| member | source | states |
|---|---|---|
| SchemaValidation.FieldTypeOf | FieldForm/backend/src/validation.js:30-81 | exactly the eight type strings select a type check; every other type string is unknown and selects none |
| SchemaValidation.LabelOf | FieldForm/backend/src/validation.js:16 | a present, non-empty label is the caption of every message; an absent or empty label falls back to the field name |
| SchemaValidation.NumberErrors | FieldForm/backend/src/validation.js:31-43 | an unparsable value gives only "must be a valid number"; otherwise the minimum message comes first iff num < min, the maximum message comes last iff num > max, and a value equal to a bound passes; two messages appear iff both bounds are violated, which needs max < min |
| SchemaValidation.TextErrors | FieldForm/backend/src/validation.js:71-80 | a non-string gives "must be text"; a too-short text reports its minimum length in preference to its maximum; a bound of 0 or an absent bound is ignored, and a bound need not be whole; at most one message |
| SchemaValidation.TypeErrors | FieldForm/backend/src/validation.js:29-81 | each type gets its own check: file and unknown types never add a message; a number gets the parse-and-bounds messages of its parsed value; string and textarea get the text-length check; a date gets "must be a valid date" exactly when the value is not a valid time; an e-mail passes iff it matches the pattern and otherwise gets "must be a valid email address"; a select with options passes iff some option is strictly equal to the value, without options anything passes; a boolean passes only as true, false, "true" or "false" and otherwise gets "must be true or false"; only a number field can give two messages |
| SchemaValidation.IsValidDate | FieldForm/backend/src/validation.js:64-66 | `new Date(value)` is a valid time for every boolean and null, and for a number exactly when it lies within 8.64e15 ms of 1970 |
| ValidationExamples.NonTextDates | FieldForm/backend/src/validation.js:64-69 | a date field accepts `true` and the largest time value, and rejects 9e15 with "d must be a valid date" |
| SchemaValidation.FieldErrors | FieldForm/backend/src/validation.js:14-27 | an undefined, null or empty-string value gives exactly "<label> is required" when required and nothing when optional, and no type check runs on it; any other value (false and 0 included) gets its type check; at most two messages, and two only with crossed bounds |
| SchemaValidation.FieldsErrorsBound | FieldForm/backend/src/validation.js:14-82 | a schema yields at most two messages per field, and at most one per field unless some number field has crossed bounds |
| SchemaValidation.SchemaErrors | FieldForm/backend/src/validation.js:7-85 | a missing schema or one without fields yields exactly ["Invalid schema"]; otherwise the fields' messages, field after field |
| SchemaValidation.ValidateAgainstSchema | FieldForm/backend/src/validation.js:7-85 | the loop pushing each field's messages returns exactly the schema's message list |
| SchemaValidation.FieldsErrorsAppend | FieldForm/backend/src/validation.js:14-82 | validating two field lists one after the other concatenates their messages |
| SchemaValidation.FieldOrder | FieldForm/backend/src/validation.js:14-82 | the messages are those of the fields before a field, then that field's, then those of the fields after it |
| SchemaValidation.ValidIffEveryFieldValid | FieldForm/backend/src/validation.js:14-84 | a submission is valid iff every field, checked on its own, adds no message |
| SchemaValidation.EmptyDataOptionalFields | FieldForm/backend/src/validation.js:19-27 | an empty record is accepted iff no field of the schema is required |
| SchemaValidation.NoFieldsNoErrors | FieldForm/backend/src/validation.js:14-84 | a schema with an empty field list accepts every record |
| SchemaValidation.PassedImpliesWellFormed | FieldForm/backend/src/validation.js:10-12 | a record that passes was checked against a schema that has a field list |
| Email.TestMatchesPattern | FieldForm/backend/src/validation.js:46-47 | the test used by the model accepts exactly the strings the e-mail pattern matches: a plain local part, one @, and a plain domain with an inner dot |
| Email.AcceptedShape | FieldForm/backend/src/validation.js:46-47 | an accepted address has no white space and exactly one @, which is not its first character |
| Text.Trim | FieldForm/backend/src/validation.js:97 | the trimmed text is no longer than the input, neither starts nor ends with white space, and is empty iff the input is all white space |
| Text.TrimIsInfix | FieldForm/backend/src/validation.js:97 | the trimmed text is a slice of the input, and everything cut off before and after it is white space |
| Text.TrimUnchanged | FieldForm/backend/src/validation.js:97 | a text that neither starts nor ends with white space is its own trim |
| Text.Lower | OpsEase/frontend/src/components/DynamicForm.jsx:10 | lower-casing keeps the length and maps each ASCII capital to its small letter, leaving every other character |
| JsValues.WholeNumberText | FieldForm/backend/src/validation.js:37 | a whole number below 10^21 prints as its decimal digits |
| Notifications.OpPrefixLength | FieldForm/backend/src/validation.js:103 | the greedy operator group takes every leading operator character and stops at the first other character |
| Notifications.OperatorOf | FieldForm/backend/src/validation.js:108-125 | an operator text is unsupported iff it is not one of >, >=, < and <= |
| Notifications.ParseCondition | FieldForm/backend/src/validation.js:103-106 | a condition that does not start with one of `>`, `<`, `=`, or that has no number after the operator, is rejected; an accepted threshold is never negative |
| Notifications.ParseConditionSound | FieldForm/backend/src/validation.js:103-106 | an accepted condition is a non-empty run of operator characters followed by a numeral, and it is read as that operator and that numeral's value |
| Notifications.ParseConditionComplete | FieldForm/backend/src/validation.js:103-106 | every run of operator characters followed by a numeral is accepted and split where it was joined |
| Notifications.Message | FieldForm/backend/src/validation.js:110-124 | each of the four operators' messages starts with the caption and the value in parentheses and ends with the threshold; an operator the switch does not know leaves the message empty, and only such an operator does |
| Notifications.NumeralRoundTrip | FieldForm/backend/src/validation.js:106 | printing a whole number and reading it back as a threshold gives the same number |
| Notifications.ConditionRoundTrip | FieldForm/backend/src/validation.js:103-125 | a supported operator followed by a printed whole number parses back to that operator and threshold |
| Notifications.Holds | FieldForm/backend/src/validation.js:108-125 | an unsupported operator or a NaN value never holds |
| Notifications.FieldNotification | FieldForm/backend/src/validation.js:95-135 | a field fires iff it has a truthy condition, its value is not undefined (null counts), the trimmed condition parses and the comparison holds of the parsed value; the event carries the field name, the parsed value and threshold, the trimmed condition and the operator's message with label or name |
| Notifications.FieldsNotifications | FieldForm/backend/src/validation.js:94-138 | at most one event per field |
| Notifications.NotificationsOf | FieldForm/backend/src/validation.js:91-140 | the notifier fails (throws) iff the schema or its field list is missing; otherwise it yields the fields' events |
| Notifications.CheckNotifications | FieldForm/backend/src/validation.js:91-140 | the loop pushing each event returns exactly the notifier's result |
| Notifications.FieldsNotificationsAppend | FieldForm/backend/src/validation.js:94-138 | notifying two field lists one after the other concatenates their events |
| Notifications.EventsInFieldOrder | FieldForm/backend/src/validation.js:94-138 | the events' field names are a subsequence of the schema's field names: events come out in field order |
| Notifications.NoConditionsNoEvents | FieldForm/backend/src/validation.js:95 | a schema in which no field declares a condition yields no event |
| Notifications.ValidatedNeverThrows | FieldForm/backend/src/validation.js:91-94 | a record that passed validation can be given to the notifier without a throw |
| ValidationExamples.ValidDataPasses | FieldForm/backend/tests/validation.test.js:6-21 | a name and an age of 30 within 0..120 give no message |
| ValidationExamples.MissingRequiredReported | FieldForm/backend/tests/validation.test.js:23-34 | a missing required field labelled Name gives exactly ["Name is required"] |
| ValidationExamples.MissingRequiredUsesName | FieldForm/backend/src/validation.js:16-20 | a missing required field without a label is reported under its name, ["age is required"] |
| ValidationExamples.VoltageAboveMaximum | FieldForm/backend/tests/validation.test.js:36-48 | 1500 against 0..1000 gives exactly ["Voltage must be at most 1000"] |
| ValidationExamples.OptionalEmptyPasses | FieldForm/backend/tests/validation.test.js:50-61 | an optional field with no value gives no message |
| ValidationExamples.SelectListsOptions | FieldForm/backend/src/validation.js:52-56 | a value outside the options lists them joined with ", " |
| ValidationExamples.NumberOptionsAreStrict | FieldForm/backend/src/validation.js:53 | the number option 1 accepts the number 1 and rejects the text "1", since `includes` compares strictly |
| ValidationExamples.EmptyOptionsRejectAll | FieldForm/backend/src/validation.js:53 | an options list that is present but empty rejects every present value |
| ValidationExamples.FalseAndZeroArePresent | FieldForm/backend/src/validation.js:19-25 | a required false check box and a required 0 at its minimum pass: neither counts as missing |
| ValidationExamples.CrossedBoundsBothMessages | FieldForm/backend/src/validation.js:36-41 | with min 10 and max 5, the value 7 gives both messages, the minimum first |
| ValidationExamples.MinLengthPreferred | FieldForm/backend/src/validation.js:75-79 | a text violating both length bounds reports only the minimum |
| ValidationExamples.FractionalMinLength | FieldForm/backend/src/validation.js:75-76 | a minimum length of 2.5 rejects a two-character text with the message that prints 2.5 |
| NotificationExamples.VoltageAboveThresholdNotifies | FieldForm/backend/tests/validation.test.js:65-84 | 450 against ">400" gives exactly one event: field voltage, value 450, threshold 400, condition ">400", message "Voltage (450) exceeds threshold of 400" |
| NotificationExamples.VoltageBelowThresholdSilent | FieldForm/backend/tests/validation.test.js:86-101 | 300 against ">400" gives no event |
| NotificationExamples.SafetyScoreBelowThreshold | FieldForm/backend/src/seed.js:273-280 | the demonstration safety score 65 against "<70" gives exactly the recorded event and message |
| NotificationExamples.InclusiveTexts | FieldForm/backend/src/validation.js:113-124 | the `>=` and `<=` messages read exactly "Level (5) is at or above threshold of 5" and "Level (5) is at or below threshold of 5" |
| NotificationExamples.MalformedConditionIgnored | FieldForm/backend/src/validation.js:103-104 | a condition outside the grammar yields no event and no error, whatever the value |
| NotificationExamples.UnknownOperatorsNeverFire | FieldForm/backend/src/validation.js:108-125 | "=5" and "=>5" match the grammar but never fire, whatever the number |
| NotificationExamples.NullNeverFires | FieldForm/backend/src/validation.js:95-96 | a null value passes the presence check but parses to NaN and never fires |
| ErrorMaps.WrittenKeys | FieldForm/frontend/src/components/DynamicForm.jsx:28-62 | a key has a message iff some field with that key drew one |
| ErrorMaps.LastMessageKept | OpsEase/frontend/src/components/DynamicForm.jsx:34-53 | the message under a key is that of the last field with the key that drew one: later writes overwrite earlier ones |
| ErrorMaps.NothingWrittenIffAllPass | FieldForm/frontend/src/components/DynamicForm.jsx:64-65 | the message map is empty iff no field drew a message |
| ErrorMaps.DistinctKeysKeepEveryMessage | FieldForm/frontend/src/components/DynamicForm.jsx:28-62 | with distinct keys every field's message is shown under its own key |
| ErrorMaps.ClearError | FieldForm/frontend/src/components/DynamicForm.jsx:16-22 | editing a field removes its message when that message is truthy and keeps every other entry unchanged |
| FieldFormClient.LabelText | FieldForm/frontend/src/components/DynamicForm.jsx:33 | the caption is the label itself when present |
| FieldFormClient.FieldError | FieldForm/frontend/src/components/DynamicForm.jsx:29-61 | a falsy value (undefined, "", 0, false) draws "<label> is required" iff the field is required and nothing else; a present number draws "must be a number" when unparsable, otherwise a message iff a bound is violated, with the maximum's message winning when both are; a present e-mail draws "Invalid email address" iff it fails the pattern; other types never draw one |
| FieldFormClient.NoErrorsIffEveryFieldPasses | FieldForm/frontend/src/components/DynamicForm.jsx:64-65 | validation reports success iff no field draws a message |
| FieldFormClient.ErrorKeys | FieldForm/frontend/src/components/DynamicForm.jsx:28-62 | a field name has a message iff some field of that name drew one |
| FieldFormClient.UntickedRequiredCheckbox | FieldForm/frontend/src/components/DynamicForm.jsx:32-35 | a required unticked check box is reported as missing by the client, while the back end accepts false |
| FieldFormClient.DynamicForm.constructor | FieldForm/frontend/src/components/DynamicForm.jsx:6-7 | the form starts with no values and no messages |
| FieldFormClient.DynamicForm.HandleChange | FieldForm/frontend/src/components/DynamicForm.jsx:9-23 | only the edited field's value is set, and only its truthy message is removed |
| FieldFormClient.DynamicForm.ValidateForm | FieldForm/frontend/src/components/DynamicForm.jsx:25-66 | the messages become exactly those of the schema's fields, values stay, and the result is true iff no field draws a message |
| FieldFormClient.DynamicForm.HandleSubmit | FieldForm/frontend/src/components/DynamicForm.jsx:68-74 | the values are handed on, unchanged, iff validation passes |
| OpsForm.Slug | OpsEase/frontend/src/components/DynamicForm.jsx:10 | the replacement is empty only for an empty text, never lengthens, yields only [a-z0-9_] with no two adjacent "_", and starts with "_" exactly when the text starts with a non-word character |
| OpsForm.SlugByPosition | OpsEase/frontend/src/components/DynamicForm.jsx:10 | the replacement equals, position by position, the copy of each word character, one "_" for the first character of each maximal run of other characters and nothing for the rest of the run |
| OpsForm.PiecesFromAreSlug | OpsEase/frontend/src/components/DynamicForm.jsx:10 | from any position that does not continue a run of non-word characters, the position-by-position reading gives the replacement of the rest of the text |
| OpsForm.SlugKeepsWordChars | OpsEase/frontend/src/components/DynamicForm.jsx:10 | the word characters of the replacement are those of the text, in the same order |
| OpsForm.GetFieldName | OpsEase/frontend/src/components/DynamicForm.jsx:9-11 | a key is made of [a-z0-9_], has no two adjacent "_", is no longer than the label, and is empty iff the label is |
| OpsForm.SlugFixed | OpsEase/frontend/src/components/DynamicForm.jsx:10 | a text of word characters and single underscores is left unchanged by the replacement |
| OpsForm.LowerKey | OpsEase/frontend/src/components/DynamicForm.jsx:10 | lower-casing leaves a key unchanged |
| OpsForm.FieldNameIdempotent | OpsEase/frontend/src/components/DynamicForm.jsx:9-11 | deriving a key from a key gives the same key |
| OpsForm.LabelsCollide | OpsEase/frontend/src/components/DynamicForm.jsx:35 | "First Name" and "first-name" share the key first_name, and so one value and one message |
| OpsForm.FieldError | OpsEase/frontend/src/components/DynamicForm.jsx:37-52 | a field draws a message iff it is required and missing or blank, or is a truthy bad e-mail, or is a truthy text that is not a number; the number message beats the e-mail message, which beats the required message |
| OpsForm.NoErrorsIffEveryFieldPasses | OpsEase/frontend/src/components/DynamicForm.jsx:55-56 | validation reports success iff no field draws a message |
| OpsForm.BlankRequiredEmail | OpsEase/frontend/src/components/DynamicForm.jsx:37-47 | a required e-mail field holding only blanks is reported as an invalid address, not as missing |
| OpsForm.DynamicForm.constructor | OpsEase/frontend/src/components/DynamicForm.jsx:4-6 | the form starts with no values, no messages and not submitting |
| OpsForm.DynamicForm.HandleChange | OpsEase/frontend/src/components/DynamicForm.jsx:14-28 | only the key's value is set and only its truthy message is removed |
| OpsForm.DynamicForm.CheckField | OpsEase/frontend/src/components/DynamicForm.jsx:34-53 | the three checks leave the field's message under its key, or leave the map as it was when the field passes |
| OpsForm.DynamicForm.ValidateForm | OpsEase/frontend/src/components/DynamicForm.jsx:31-57 | the messages become exactly those of the schema, values stay, and the result is true iff no field draws a message |
| OpsForm.DynamicForm.HandleSubmit | OpsEase/frontend/src/components/DynamicForm.jsx:60-79 | the values are handed on iff the form is valid and a handler exists, and the submitting flag is lowered again afterwards |
| FormList.FilteredForms | OpsEase/frontend/src/pages/FormList.jsx:94-108 | the shown forms are exactly those passing search and status, each as often as it is in the list, in list order and never more than all forms; an unknown status shows none |
| FormList.NoFilterShowsAll | OpsEase/frontend/src/pages/FormList.jsx:97-102 | an empty query under All shows every form |
| FormList.StatusesPartition | OpsEase/frontend/src/pages/FormList.jsx:102-104 | Active and Inactive split what All shows, in count and as multisets |
| FormList.SearchIgnoresCase | OpsEase/frontend/src/pages/FormList.jsx:97-99 | a query and its lower-case form select the same forms |
| FormList.RemoveForm | OpsEase/frontend/src/pages/FormList.jsx:59 | after a delete the list holds exactly the forms with another id, each as often as before, in order |
| FormList.RemoveAbsentId | OpsEase/frontend/src/pages/FormList.jsx:59 | deleting an id no form has leaves the list unchanged |
| FormList.Find | OpsEase/frontend/src/pages/FormList.jsx:79 | the lookup finds the first form with the id, and nothing iff no form has it |
| FormList.AgentsOf | OpsEase/frontend/src/pages/FormList.jsx:77-82 | the dialog starts from the agents of the first form with the id, or none; it fails iff no form has the id |
| FormList.ToggleAgent | OpsEase/frontend/src/pages/FormList.jsx:294-298 | ticking appends the agent; unticking removes every occurrence and keeps every other agent as often as before and in order |
| FormList.TickKeepsDistinct | OpsEase/frontend/src/pages/FormList.jsx:292-295 | ticking an unticked agent keeps the selection free of repeats |
| FormList.UntickUndoesTick | OpsEase/frontend/src/pages/FormList.jsx:294-298 | unticking an agent just ticked restores the previous selection |
| Submissions.StatusBadge | OpsEase/frontend/src/pages/Dashboard.jsx:144-151 | pending, approved and rejected get their own colour, and every other status gets gray (the same table is at SubmissionList.jsx:82-90 and AgentFormFill.jsx:94-102) |
| SubmissionList.FilterByStatus | OpsEase/frontend/src/pages/SubmissionList.jsx:36-42 | all shows the whole list; any other value shows exactly the submissions with that status, in order, as many as are counted |
| SubmissionList.GetCounts | OpsEase/frontend/src/pages/SubmissionList.jsx:92-99 | the total is the list length, each counter counts its status, and the three add up to at most the total |
| SubmissionList.StatusCountsBounded | OpsEase/frontend/src/pages/SubmissionList.jsx:95-97 | no submission is counted under two statuses |
| SubmissionList.FilterMatchesCounter | OpsEase/frontend/src/pages/SubmissionList.jsx:36-42 | each filter shows as many submissions as its counter says |
| SubmissionList.UpdateStatus | OpsEase/frontend/src/pages/SubmissionList.jsx:52-54 | the update keeps length and order, gives each matching submission the new status with all its other properties kept, and leaves all others unchanged |
| SubmissionList.UpdateAbsentId | OpsEase/frontend/src/pages/SubmissionList.jsx:52-54 | updating an id that no submission has changes nothing |
| SubmissionList.UpdateMovesOne | OpsEase/frontend/src/pages/SubmissionList.jsx:52-54 | with unique ids, a status change moves one submission from its old status's count to the new one's |
| SubmissionList.DecisionMovesCounters | OpsEase/frontend/src/pages/SubmissionList.jsx:240-254 | approving or rejecting a pending submission takes one from pending and adds one to the chosen counter, keeps the total, and removes the buttons from that row |
| AgentFormFill.GroupKey | OpsEase/frontend/src/pages/AgentFormFill.jsx:42 | a populated form groups under its id, a plain id under itself, and a null reference has no key |
| AgentFormFill.GroupByForm | OpsEase/frontend/src/pages/AgentFormFill.jsx:36-53 | the loop yields the grouping iff every submission refers to a form, and otherwise fails |
| AgentFormFill.GroupedKeys | OpsEase/frontend/src/pages/AgentFormFill.jsx:39-47 | a key has a list iff some submission has that key |
| AgentFormFill.GroupedIsFilter | OpsEase/frontend/src/pages/AgentFormFill.jsx:41-47 | each list holds exactly the submissions with its key, in the order received |
| AgentFormFill.GroupsPartition | OpsEase/frontend/src/pages/AgentFormFill.jsx:39-47 | no list is empty, and each submission is in its own key's list and in no other |
| AgentFormFill.GroupSizesSum | OpsEase/frontend/src/pages/AgentFormFill.jsx:39-47 | the list sizes add up to the number of submissions |
| AgentFormFill.FormCard | OpsEase/frontend/src/pages/AgentFormFill.jsx:232-275 | a form without a list shows 0 and "Fill Form"; otherwise it shows its list's size, a last submission and "Fill Again" |
| AgentFormFill.CardCountsAnswers | OpsEase/frontend/src/pages/AgentFormFill.jsx:258 | a card's count is the number of submissions for the form, and it says "Fill Again" iff there is one |
| AgentFormFill.CardShowsMostRecent | OpsEase/frontend/src/pages/AgentFormFill.jsx:232-233 | the submission shown as the last one is the first for that form in the fetched list; the server sorts that list newest first, so it is the most recent |
| AgentFormFill.HistoryPreview | OpsEase/frontend/src/pages/AgentFormFill.jsx:170 | the preview shows the first three answers, or all of them when there are fewer |
| FormBuilder.DeleteIndex | OpsEase/frontend/src/pages/FormBuilder.jsx:108-111 | deleting a position removes exactly that field and keeps the rest in order; an out-of-range position leaves the schema unchanged |
| FormBuilder.DeleteShortens | OpsEase/frontend/src/pages/FormBuilder.jsx:108-111 | a delete in range shortens the schema by one, keeping the fields before and shifting those after |
| FormBuilder.SaveDecision | OpsEase/frontend/src/pages/FormBuilder.jsx:49-80 | a blank title is reported first, then a missing or empty schema; a valid form is an update of the route's id iff there is a route id and an initial form, and a creation otherwise |
| FormBuilder.GenerateError | OpsEase/frontend/src/pages/FormBuilder.jsx:27-31 | a blank description is refused with "Please enter a description", and any other description is sent |
| FormBuilder.FormBuilderPage.constructor | OpsEase/frontend/src/pages/FormBuilder.jsx:9-25 | the page starts with the initial title and fields, no description, no error and no field being edited |
| FormBuilder.FormBuilderPage.HandleGenerate | OpsEase/frontend/src/pages/FormBuilder.jsx:27-47 | the request is sent iff the description is not blank; otherwise the message is shown; the schema and title stay |
| FormBuilder.FormBuilderPage.HandleSaveForm | OpsEase/frontend/src/pages/FormBuilder.jsx:49-91 | the save follows the decision above, and a refusal shows its message |
| FormBuilder.FormBuilderPage.HandleEditField | OpsEase/frontend/src/pages/FormBuilder.jsx:93-95 | the editor opens on the chosen field; the schema, title, description and error stay |
| FormBuilder.FormBuilderPage.HandleSaveField | OpsEase/frontend/src/pages/FormBuilder.jsx:97-102 | the edited field replaces exactly the field being edited, the length and all other fields stay, the editor closes, and title, description and error stay |
| FormBuilder.FormBuilderPage.HandleCancelEdit | OpsEase/frontend/src/pages/FormBuilder.jsx:104-106 | the editor closes; the schema, title, description and error stay |
| FormBuilder.FormBuilderPage.HandleDeleteField | OpsEase/frontend/src/pages/FormBuilder.jsx:108-111 | the schema becomes the deletion of the position; the editor stays closed and title, description and error stay |
| Dashboard.TimeAgo | OpsEase/frontend/src/pages/Dashboard.jsx:124-141 | a missing date is exactly the Unknown case; a date that does not parse shows the calendar date |
| Dashboard.TimeAgoBands | OpsEase/frontend/src/pages/Dashboard.jsx:128-141 | exactly one band answers: under a minute (the future included) is "Just now", then minutes, hours, days and weeks, and four weeks or more is the calendar date |
| Dashboard.TimeAgoCounts | OpsEase/frontend/src/pages/Dashboard.jsx:129-139 | the number shown is the elapsed time in whole units, at least 1 and below the next unit |
| Dashboard.DaysOfHours | OpsEase/frontend/src/pages/Dashboard.jsx:129-138 | flooring to hours and then to days, or to days and then to weeks, is flooring straight to the coarser unit |
| Dashboard.TimeAgoMonotone | OpsEase/frontend/src/pages/Dashboard.jsx:128-139 | an older submission never gets a finer phrase, nor a smaller number in the same unit |
| Dashboard.Render | OpsEase/frontend/src/pages/Dashboard.jsx:125-141 | a missing date reads "Unknown", under a minute "Just now", four weeks or more the calendar text; every counted phrase starts with its number and a space and ends with " ago", with an "s" before " ago" exactly when the number is above one |
| Dashboard.PhrasePlural | OpsEase/frontend/src/pages/Dashboard.jsx:134-139 | the unit takes an "s" iff the number is above one |
| Dashboard.SampleTexts | OpsEase/frontend/src/pages/Dashboard.jsx:134-135 | ninety seconds reads "1 minute ago" and three hours "3 hours ago" |
| Charts.CountOn | OpsEase/frontend/src/components/Charts.jsx:28-41 | a day's count never exceeds the number of submissions |
| Charts.Histogram | OpsEase/frontend/src/components/Charts.jsx:6-41 | the chart has seven consecutive days, oldest first, ending with today |
| Charts.GroupSubmissionsByDate | OpsEase/frontend/src/components/Charts.jsx:5-44 | the two loops produce exactly the seven days ending today, each with the number of submissions made on it |
| Charts.AddToDay | OpsEase/frontend/src/components/Charts.jsx:28-41 | a submission adds one to the entry of its own day and to no other, and to none when it is undated or outside the window |
| Charts.HasDataIffRecent | OpsEase/frontend/src/components/Charts.jsx:46-47 | the chart has data iff some submission was made in the last seven days |
| Charts.PlaceholderIffNoSubmissions | OpsEase/frontend/src/components/Charts.jsx:49-55 | the "No data available" placeholder shows iff there are no submissions at all |
| Charts.ChartTotal | OpsEase/frontend/src/components/Charts.jsx:28-41 | the counts add up to the number of dated submissions in the window, so never to more than were given |

## Left out

- Text-to-number and text-to-date conversions are parameters of the model (`JsValues.Runtime`): `parseFloat` and `Number` on text, and `new Date` on text. So is the printing of a number that is not an integer below 10^21. The local calendar day of a date (`Charts.CreatedDay`'s `midnightOf`) and `toLocaleDateString` in the dashboard (`Dashboard.Render`'s `calendarText`) are parameters too.
- The chart's day labels (`dateStr`, OpsEase/frontend/src/components/Charts.jsx:15-18) are not modelled: a `Charts.DayCount` holds the day's midnight and its count, and no label.
- Numbers are exact reals. Double rounding, `Infinity` and `-0` are not modelled. The `notifyIf` threshold is the exact decimal value of its digits.
- `Text.Lower` lower-cases ASCII letters only. Other capitals, in labels or in the search box, are left as they are.
- String lengths count characters, where JavaScript counts UTF-16 code units.
- Bounds and lengths in a schema are numbers when present, not necessarily whole. Non-numeric or null bounds are not modelled, nor are options that are themselves arrays or objects.
- `file` values are not modelled. The back-end validator never checks them. In the OpsEase client (`OpsEase/frontend/src/components/DynamicForm.jsx:37`) a chosen file counts as present, because a File object is truthy and prints as "[object File]"; the model's values have no such case.
- Objects are finite maps. Keys that collide with `Object.prototype` properties are not modelled in the badge table or the grouping map. Nor is the order in which `Object.entries` lists integer-like keys.
- FieldForm client: `schema.fields` is taken to be present, as the page renders the form only for a loaded schema.
- `FormBuilder.FormBuilderPage.HandleSaveField`: requires that a field is being edited. The page renders the editor, and so can call this handler, only then; see FormPreview.jsx line 34.
- `FormBuilder.FormBuilderPage.HandleDeleteField`: requires that a schema is shown and nothing is being edited. This mirrors the preview, which offers the delete buttons only then.
- The edited field's extra `index` property is not modelled.
- Not modelled:
  - HTTP requests, the generator service, toasts, navigation and timers;
  - persistence, and loading flags;
  - the ordering of asynchronous state updates.
  The handlers are modelled up to the request they send; `HandleGenerate` and `HandleSaveForm` report whether, and which, request is made.
- `Dashboard.TimeAgo` takes the elapsed milliseconds as an integer. Reading the clock and parsing the date are not modelled.

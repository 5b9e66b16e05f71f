/**
 * A submission as the OpsEase pages receive it from the server, and the colour
 * classes of the status badge that the submission list, the dashboard and the
 * agent's form page all draw with the same table.
 */
module Submissions {
  import opened Wrappers
  import opened JsValues

  /**
   * The submission's `formId` property: the form's id as text, the populated
   * form document (its `_id`, "" when absent or empty), or null when the form
   * it referred to no longer exists.
   */
  datatype FormRef = FormIdText(text: string) | PopulatedForm(id: string) | NullForm

  /**
   * `createdAt` is None when the property is absent; `data` lists the answers
   * in the order `Object.entries` yields them.
   */
  datatype Submission = Submission(
    id: string,
    formRef: FormRef,
    status: string,
    createdAt: Option<string> := None,
    data: seq<(string, Value)> := [])

  /** The classes of a status badge. */
  datatype Badge = Yellow | Green | Red | Gray

  /** `badges[status] || gray`: the three known statuses have their own colour, every other status is gray. */
  function StatusBadge(status: string): (b: Badge)
    ensures b == Gray <==> status != "pending" && status != "approved" && status != "rejected"
    ensures b == Yellow <==> status == "pending"
    ensures b == Green <==> status == "approved"
    ensures b == Red <==> status == "rejected"
  {
    match status
    case "pending" => Yellow
    case "approved" => Green
    case "rejected" => Red
    case _ => Gray
  }

  /** The class string each colour stands for. */
  function BadgeClasses(b: Badge): string {
    match b
    case Yellow => "bg-yellow-100 text-yellow-800 border-yellow-300"
    case Green => "bg-green-100 text-green-800 border-green-300"
    case Red => "bg-red-100 text-red-800 border-red-300"
    case Gray => "bg-gray-100 text-gray-800 border-gray-300"
  }
}

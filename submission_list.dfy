/**
 * The OpsEase submission list page: the status filter, the four counters above
 * the table, and approving or rejecting a pending submission, which updates the
 * list in place of a reload.
 */
module SubmissionList {
  import opened Seqs
  import opened Submissions

  /** The number of submissions with the given status. */
  function CountStatus(subs: seq<Submission>, status: string): (n: nat)
    ensures n <= |subs|
    decreases |subs|
  {
    if subs == [] then 0 else (if subs[0].status == status then 1 else 0) + CountStatus(subs[1..], status)
  }

  /** `submissions.filter(s => s.status === status)` */
  function WithStatus(subs: seq<Submission>, status: string): seq<Submission> {
    Filter(subs, (s: Submission) => s.status == status)
  }

  lemma {:induction false} WithStatusCount(subs: seq<Submission>, status: string)
    ensures |WithStatus(subs, status)| == CountStatus(subs, status)
    decreases |subs|
  {
    if subs != [] {
      WithStatusCount(subs[1..], status);
    }
  }

  /** `filterSubmissions`: `all` shows the whole list, any other value the submissions with that status, in list order. */
  function FilterByStatus(subs: seq<Submission>, filter: string): (r: seq<Submission>)
    ensures filter == "all" ==> r == subs
    ensures filter != "all" ==> forall s :: s in r <==> s in subs && s.status == filter
    ensures filter != "all" ==> |r| == CountStatus(subs, filter)
    ensures IsSubsequence(r, subs)
  {
    if filter == "all" then
      FilterIsSubsequence(subs, (s: Submission) => true);
      FilterAllKept(subs, (s: Submission) => true);
      subs
    else
      WithStatusCount(subs, filter);
      FilterIsSubsequence(subs, (s: Submission) => s.status == filter);
      WithStatus(subs, filter)
  }

  /** The counters: all submissions and those pending, approved and rejected. */
  datatype Counts = Counts(total: nat, pending: nat, approved: nat, rejected: nat)

  /** `getCounts()`. The three status counters never add up to more than the total. */
  function GetCounts(subs: seq<Submission>): (c: Counts)
    ensures c.total == |subs|
    ensures c.pending == CountStatus(subs, "pending")
    ensures c.approved == CountStatus(subs, "approved")
    ensures c.rejected == CountStatus(subs, "rejected")
    ensures c.pending + c.approved + c.rejected <= c.total
  {
    WithStatusCount(subs, "pending");
    WithStatusCount(subs, "approved");
    WithStatusCount(subs, "rejected");
    StatusCountsBounded(subs);
    Counts(|subs|, |WithStatus(subs, "pending")|, |WithStatus(subs, "approved")|, |WithStatus(subs, "rejected")|)
  }

  /** The three statuses are distinct, so no submission is counted twice. */
  lemma {:induction false} StatusCountsBounded(subs: seq<Submission>)
    ensures CountStatus(subs, "pending") + CountStatus(subs, "approved") + CountStatus(subs, "rejected") <= |subs|
    decreases |subs|
  {
    if subs != [] {
      StatusCountsBounded(subs[1..]);
    }
  }

  /** The option of the status select shows the same number as the list it selects. */
  lemma FilterMatchesCounter(subs: seq<Submission>)
    ensures |FilterByStatus(subs, "all")| == GetCounts(subs).total
    ensures |FilterByStatus(subs, "pending")| == GetCounts(subs).pending
    ensures |FilterByStatus(subs, "approved")| == GetCounts(subs).approved
    ensures |FilterByStatus(subs, "rejected")| == GetCounts(subs).rejected
  {
  }

  /** The local update after a status change: `submissions.map(s => s._id === id ? { ...s, status } : s)`. */
  function UpdateStatus(subs: seq<Submission>, id: string, status: string): (r: seq<Submission>)
    ensures |r| == |subs|
    ensures forall i :: 0 <= i < |subs| ==> r[i].id == subs[i].id && r[i].formRef == subs[i].formRef
    ensures forall i :: 0 <= i < |subs| && subs[i].id != id ==> r[i] == subs[i]
    ensures forall i :: 0 <= i < |subs| && subs[i].id == id ==> r[i] == subs[i].(status := status)
  {
    seq(|subs|, i requires 0 <= i < |subs| => if subs[i].id == id then subs[i].(status := status) else subs[i])
  }

  /** Approve and Reject are offered exactly for a pending submission. */
  predicate OffersDecision(s: Submission) {
    s.status == "pending"
  }

  /** Updating an id that no submission has changes nothing. */
  lemma UpdateAbsentId(subs: seq<Submission>, id: string, status: string)
    requires forall i :: 0 <= i < |subs| ==> subs[i].id != id
    ensures UpdateStatus(subs, id, status) == subs
  {
  }

  /** With unique ids, a status change moves exactly one submission from its old status's count to the new one's. */
  lemma {:induction false} UpdateMovesOne(subs: seq<Submission>, k: nat, status: string, counted: string)
    requires k < |subs|
    requires forall j :: 0 <= j < |subs| && j != k ==> subs[j].id != subs[k].id
    ensures CountStatus(UpdateStatus(subs, subs[k].id, status), counted) + (if subs[k].status == counted then 1 else 0)
         == CountStatus(subs, counted) + (if status == counted then 1 else 0)
    decreases |subs|
  {
    var id := subs[k].id;
    var r := UpdateStatus(subs, id, status);
    assert r[1..] == UpdateStatus(subs[1..], id, status);
    if k == 0 {
      UpdateAbsentId(subs[1..], id, status);
    } else {
      UpdateMovesOne(subs[1..], k - 1, status, counted);
    }
  }

  /**
   * Approving or rejecting a pending submission (ids unique) takes one from the
   * pending counter and adds one to the chosen counter; the total and the other
   * counter stay, and the submission no longer offers the two buttons.
   */
  lemma DecisionMovesCounters(subs: seq<Submission>, k: nat, status: string)
    requires k < |subs| && OffersDecision(subs[k])
    requires forall j :: 0 <= j < |subs| && j != k ==> subs[j].id != subs[k].id
    requires status == "approved" || status == "rejected"
    ensures var before := GetCounts(subs);
      var r := UpdateStatus(subs, subs[k].id, status);
      var after := GetCounts(r);
      && after.total == before.total
      && after.pending + 1 == before.pending
      && after.approved == before.approved + (if status == "approved" then 1 else 0)
      && after.rejected == before.rejected + (if status == "rejected" then 1 else 0)
      && !OffersDecision(r[k])
  {
    UpdateMovesOne(subs, k, status, "pending");
    UpdateMovesOne(subs, k, status, "approved");
    UpdateMovesOne(subs, k, status, "rejected");
  }
}

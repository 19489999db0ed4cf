/** Data-collection campaigns and the submissions made for them: the
    defaults of a new campaign and submission, the response rate a campaign
    computes from its submissions, the `start` and `complete` actions, and
    the scoped `submit` and `validate` actions on a submission. Timestamps
    are parameters. */
module DataCollecting {
  import opened Wrappers
  import opened Accounts
  import opened Scoping

  datatype CampaignStatus = Planned | Ongoing | CampaignCompleted | Closed

  datatype SubmissionStatus = SubmissionDraft | SubmissionSubmitted | UnderReview | SubmissionValidated | SubmissionRejected

  /** A `DataSubmission` row; `collection`, `submittedBy` and `reviewedBy`
      are ids. */
  datatype Submission = Submission(collection: nat, place: Place, submittedBy: nat, status: SubmissionStatus,
                                   submittedAt: Option<int>, reviewedAt: Option<int>, reviewedBy: Option<nat>)

  /** A new submission: a draft, neither submitted nor reviewed. */
  function NewSubmission(collection: nat, place: Place, contributor: nat): (s: Submission)
    ensures s.status == SubmissionDraft && s.submittedAt.None? && s.reviewedAt.None? && s.reviewedBy.None?
    ensures s.collection == collection && s.place == place && s.submittedBy == contributor
  {
    Submission(collection, place, contributor, SubmissionDraft, None, None, None)
  }

  /** The number of the submissions of campaign `id`. */
  function CountOf(submissions: seq<Submission>, id: nat): (n: nat)
    ensures n <= |submissions|
  {
    if submissions == [] then 0
    else CountOf(submissions[..|submissions| - 1], id) + (if submissions[|submissions| - 1].collection == id then 1 else 0)
  }

  /** The number of those whose status is exactly SUBMITTED. */
  function SubmittedOf(submissions: seq<Submission>, id: nat): (n: nat)
    ensures n <= |submissions|
  {
    if submissions == [] then 0
    else
      var last := submissions[|submissions| - 1];
      SubmittedOf(submissions[..|submissions| - 1], id) + (if last.collection == id && last.status == SubmissionSubmitted then 1 else 0)
  }

  /** Never more submitted submissions than submissions. */
  lemma {:induction false} SubmittedAtMostCount(submissions: seq<Submission>, id: nat)
    ensures SubmittedOf(submissions, id) <= CountOf(submissions, id)
  {
    if submissions != [] {
      SubmittedAtMostCount(submissions[..|submissions| - 1], id);
    }
  }

  /** Every submission of the campaign is counted as submitted exactly when
      every one of them has status SUBMITTED. */
  lemma {:induction false} AllSubmittedIff(submissions: seq<Submission>, id: nat)
    ensures SubmittedOf(submissions, id) == CountOf(submissions, id) <==>
      forall i :: 0 <= i < |submissions| && submissions[i].collection == id ==> submissions[i].status == SubmissionSubmitted
  {
    if submissions != [] {
      var init := submissions[..|submissions| - 1];
      AllSubmittedIff(init, id);
      SubmittedAtMostCount(init, id);
      assert forall i :: 0 <= i < |init| ==> init[i] == submissions[i];
    }
  }

  /** A campaign (`DataCollection`) with the fields its actions update. */
  class Campaign {
    const id: nat
    var status: CampaignStatus
    var responseRate: real
    var updatedAt: int

    /** A new campaign: PLANNED, with a response rate of 0. */
    constructor(id: nat, now: int)
      ensures this.id == id && status == Planned && responseRate == 0.0 && updatedAt == now
    {
      this.id := id;
      status := Planned;
      responseRate := 0.0;
      updatedAt := now;
    }

    /** `calculate_response_rate`: with no submission the rate is kept;
      otherwise it becomes the share of SUBMITTED submissions, in percent,
      and only that field is saved. */
    method CalculateResponseRate(submissions: seq<Submission>)
      modifies this
      ensures CountOf(submissions, id) == 0 ==> responseRate == old(responseRate)
      ensures CountOf(submissions, id) > 0 ==>
        responseRate * (CountOf(submissions, id) as real) == (SubmittedOf(submissions, id) as real) * 100.0
      ensures CountOf(submissions, id) > 0 ==> 0.0 <= responseRate <= 100.0
      ensures status == old(status) && updatedAt == old(updatedAt)
    {
      var total := CountOf(submissions, id);
      var submitted := SubmittedOf(submissions, id);
      if total > 0 {
        SubmittedAtMostCount(submissions, id);
        responseRate := (submitted as real) / (total as real) * 100.0;
        RateBounds(submitted, total);
      }
    }

    /** `start`: the campaign becomes ONGOING, whatever its status was. */
    method Start(now: int)
      modifies this
      ensures status == Ongoing && updatedAt == now && responseRate == old(responseRate)
    {
      status := Ongoing;
      updatedAt := now;
    }

    /** `complete`: the campaign becomes COMPLETED, whatever its status was. */
    method Complete(now: int)
      modifies this
      ensures status == CampaignCompleted && updatedAt == now && responseRate == old(responseRate)
    {
      status := CampaignCompleted;
      updatedAt := now;
    }
  }

  /** The rate computed from `submitted <= total` lies between 0 and 100. */
  lemma RateBounds(submitted: nat, total: nat)
    requires 0 < total && submitted <= total
    ensures var rate := (submitted as real) / (total as real) * 100.0;
      0.0 <= rate <= 100.0 && rate * (total as real) == (submitted as real) * 100.0
  {
    var q := (submitted as real) / (total as real);
    assert q * (total as real) == submitted as real;
    assert q <= 1.0 by {
      if q > 1.0 {
        assert q * (total as real) > total as real;
      }
    }
  }

  /** A validated submission does not count towards the rate: a campaign
      whose single submission was validated has a response rate of 0. */
  lemma ValidatedNotCounted(s: Submission)
    requires s.status == SubmissionValidated
    ensures CountOf([s], s.collection) == 1 && SubmittedOf([s], s.collection) == 0
  {
    assert [s][..0] == [];
  }

  /** The submissions table, seen through `DataSubmissionViewSet`. */
  class Submissions {
    var rows: seq<Submission>

    constructor(rows: seq<Submission>)
      ensures this.rows == rows
    {
      this.rows := rows;
    }

    /** The detail lookup: the submission at `pk`, when the user's scoped
      queryset holds it. */
    predicate Found(u: User, pk: nat)
      reads this
    {
      pk < |rows| && InScope(ScopeOf(u), rows[pk].place)
    }

    /** `submit`: 404 outside the user's scope; otherwise the submission
      becomes SUBMITTED at `now`. */
    method Submit(u: User, pk: nat, now: int) returns (code: int)
      modifies this
      ensures !old(Found(u, pk)) ==> code == 404 && rows == old(rows)
      ensures old(Found(u, pk)) ==>
        && code == 200
        && rows == old(rows)[pk := old(rows)[pk].(status := SubmissionSubmitted, submittedAt := Some(now))]
    {
      if !Found(u, pk) {
        return 404;
      }
      rows := rows[pk := rows[pk].(status := SubmissionSubmitted, submittedAt := Some(now))];
      code := 200;
    }

    /** `validate`: 404 outside the user's scope; otherwise the submission
      becomes VALIDATED, reviewed by the requester at `now`. No role is
      required. */
    method Validate(u: User, pk: nat, now: int) returns (code: int)
      modifies this
      ensures !old(Found(u, pk)) ==> code == 404 && rows == old(rows)
      ensures old(Found(u, pk)) ==>
        && code == 200
        && rows == old(rows)[pk := old(rows)[pk].(status := SubmissionValidated, reviewedBy := Some(u.id), reviewedAt := Some(now))]
    {
      if !Found(u, pk) {
        return 404;
      }
      rows := rows[pk := rows[pk].(status := SubmissionValidated, reviewedBy := Some(u.id), reviewedAt := Some(now))];
      code := 200;
    }
  }

  /** Which submissions `submit` and `validate` reach: exactly those in the
      user's scope. A contributor assigned a commune reaches the
      submissions of that commune, and only those. */
  lemma ReachableSubmissions(u: User, s: Submission)
    requires IsContributor(u) && u.commune.Some?
    ensures InScope(ScopeOf(u), s.place) <==> s.place.commune == u.commune
  {
  }
}

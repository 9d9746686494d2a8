/** The host's list of pending applications, components/application-list.tsx:
    approving or rejecting an applicant removes them from the list once the
    server call succeeds, and a "newbie" badge marks applicants who have not
    joined anything yet. Each handler is split at its `await`. */
module ApplicationList {
  import opened Common
  import opened Seqs

  /** The applicant details the list shows; `participations` is the embedded
      `participations (count)` aggregate, when present. */
  datatype Applicant = Applicant(name: Option<string>, avatarUrl: Option<string>, participations: Option<seq<nat>>)

  datatype PendingApplication = PendingApplication(id: nat, userId: UserId, createdAt: int, user: Applicant)

  /** The two decisions a host can take; their state updates are the same. */
  datatype Decision = Approve | Reject

  /** The newbie badge: no participation aggregate at all, or a first count of exactly zero. */
  predicate IsNewbie(participations: Option<seq<nat>>) {
    participations.None? || (|participations.value| > 0 && participations.value[0] == 0)
  }

  /** An empty aggregate is not a newbie, and a positive first count is not either. */
  lemma NewbieCases(participations: Option<seq<nat>>)
    ensures participations == Some([]) ==> !IsNewbie(participations)
    ensures participations.Some? && |participations.value| > 0 ==>
              (IsNewbie(participations) <==> participations.value[0] == 0)
    ensures participations.None? ==> IsNewbie(participations)
  {
  }

  /** The list without any application by this user, the others in their order. */
  function WithoutUser(applications: seq<PendingApplication>, userId: UserId): (r: seq<PendingApplication>)
    ensures forall a :: a in r <==> a in applications && a.userId != userId
    ensures |r| <= |applications|
  {
    Filter(applications, (a: PendingApplication) => a.userId != userId)
  }

  /** Removing one applicant never disturbs the relative order of the rest. */
  lemma WithoutUserSplits(a: seq<PendingApplication>, b: seq<PendingApplication>, userId: UserId)
    ensures WithoutUser(a + b, userId) == WithoutUser(a, userId) + WithoutUser(b, userId)
  {
    FilterConcat(a, b, (x: PendingApplication) => x.userId != userId);
  }

  /** Removing the same applicant twice is removing them once. */
  lemma WithoutUserIdempotent(applications: seq<PendingApplication>, userId: UserId)
    ensures WithoutUser(WithoutUser(applications, userId), userId) == WithoutUser(applications, userId)
  {
    FilterAll(WithoutUser(applications, userId), (x: PendingApplication) => x.userId != userId);
  }

  class ApplicationList {
    var applications: seq<PendingApplication>
    var processingId: Option<UserId>

    constructor (initialApplications: seq<PendingApplication>)
      ensures applications == initialApplications && processingId.None?
    {
      applications, processingId := initialApplications, None;
    }

    /** Nothing renders once the list is empty. */
    predicate Visible()
      reads this
    {
      |applications| > 0
    }

    /** An applicant's buttons are disabled while their own decision is in flight. */
    predicate ButtonsDisabled(userId: UserId)
      reads this
    {
      processingId == Some(userId)
    }

    /** `handleApprove` / `handleReject` up to the server call: a declined
        confirmation does nothing and makes no call. */
    method StartDecision(decision: Decision, userId: UserId, confirmed: bool) returns (calls: bool)
      modifies this`processingId
      ensures calls == confirmed
      ensures confirmed ==> processingId == Some(userId)
      ensures !confirmed ==> processingId == old(processingId)
    {
      if !confirmed {
        return false;
      }
      processingId := Some(userId);
      calls := true;
    }

    /** After the server call: success drops every application by the user;
        failure only alerts. Either way nothing is in flight any more. */
    method SettleDecision(decision: Decision, userId: UserId, succeeded: bool)
      modifies this`applications, this`processingId
      ensures applications == if succeeded then WithoutUser(old(applications), userId) else old(applications)
      ensures processingId.None?
    {
      if succeeded {
        applications := WithoutUser(applications, userId);
      }
      processingId := None;
    }
  }
}

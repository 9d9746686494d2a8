/** The post-gathering manner review dialog, components/manner-review-modal.tsx:
    the participants the caller may rate, and the sets of reviewees whose
    review is in flight or done. `handleReview` is split at its `await`. */
module MannerReview {
  import opened Common

  /** The joined user of a participation row, as the dialog shows it. */
  datatype ReviewUser = ReviewUser(id: UserId, name: Option<string>, avatarUrl: Option<string>)

  /** `participations.map(p => p.user).filter(u => u && u.id !== currentUserId)`:
      the users present on the rows, other than the caller, in row order. */
  function OtherParticipants(users: seq<Option<ReviewUser>>, currentUserId: UserId): (r: seq<ReviewUser>)
    ensures forall u :: u in r <==> Some(u) in users && u.id != currentUserId
    ensures |r| <= |users|
  {
    if users == [] then []
    else
      var rest := OtherParticipants(users[1..], currentUserId);
      assert forall x :: x in users <==> x == users[0] || x in users[1..];
      if users[0].Some? && users[0].value.id != currentUserId then [users[0].value] + rest else rest
  }

  /** The filter works row by row, so the order of the rows is the order of the result. */
  lemma {:induction false} OtherParticipantsSplit(a: seq<Option<ReviewUser>>, b: seq<Option<ReviewUser>>, currentUserId: UserId)
    ensures OtherParticipants(a + b, currentUserId) == OtherParticipants(a, currentUserId) + OtherParticipants(b, currentUserId)
  {
    if a == [] {
      assert a + b == b;
    } else {
      assert (a + b)[1..] == a[1..] + b;
      OtherParticipantsSplit(a[1..], b, currentUserId);
    }
  }

  /** The caller never appears among the people to rate. */
  lemma NeverRatesSelf(users: seq<Option<ReviewUser>>, currentUserId: UserId)
    ensures forall u :: u in OtherParticipants(users, currentUserId) ==> u.id != currentUserId
  {
  }

  /** What a participant's row shows on the right: the completion marker, or
      the two vote buttons, disabled while that participant's review is in flight. */
  datatype RowControls = CompletedMarker | VoteButtons(disabled: bool)

  class MannerReviewModal {
    const participants: seq<ReviewUser>
    const initialCompletedIds: set<UserId>
    var submittingIds: set<UserId>
    var completedIds: set<UserId>

    constructor (users: seq<Option<ReviewUser>>, currentUserId: UserId, initialCompletedIds: set<UserId>)
      ensures participants == OtherParticipants(users, currentUserId)
      ensures this.initialCompletedIds == initialCompletedIds
      ensures submittingIds == {} && completedIds == initialCompletedIds
      ensures Valid()
    {
      participants := OtherParticipants(users, currentUserId);
      this.initialCompletedIds := initialCompletedIds;
      submittingIds, completedIds := {}, initialCompletedIds;
    }

    /** Nothing the dialog-was-opened-with is ever forgotten. */
    predicate Valid()
      reads this
    {
      initialCompletedIds <= completedIds
    }

    /** The dialog renders at all only when someone is left to rate. */
    predicate Rendered()
      reads this
    {
      |participants| > 0
    }

    /** The controls on one participant's row. */
    function Controls(id: UserId): (r: RowControls)
      reads this
      ensures r.CompletedMarker? <==> id in completedIds
      ensures r.VoteButtons? ==> (r.disabled <==> id in submittingIds)
    {
      if id in completedIds then CompletedMarker else VoteButtons(id in submittingIds)
    }

    /** `handleReview` up to the call of `submitReview`. */
    method StartReview(revieweeId: UserId)
      requires Valid()
      modifies this`submittingIds
      ensures Valid()
      ensures submittingIds == old(submittingIds) + {revieweeId}
      ensures revieweeId in submittingIds
    {
      submittingIds := submittingIds + {revieweeId};
    }

    /** After the call: success marks the reviewee completed, failure only
        alerts; the reviewee leaves the in-flight set either way. */
    method SettleReview(revieweeId: UserId, succeeded: bool)
      requires Valid()
      modifies this`submittingIds, this`completedIds
      ensures Valid()
      ensures completedIds == if succeeded then old(completedIds) + {revieweeId} else old(completedIds)
      ensures old(completedIds) <= completedIds
      ensures submittingIds == old(submittingIds) - {revieweeId}
    {
      if succeeded {
        completedIds := completedIds + {revieweeId};
      }
      submittingIds := submittingIds - {revieweeId};
    }
  }

  /** One vote, start to end: the reviewee is not in flight afterwards, and
      after a success their row shows the completion marker. */
  method Vote(m: MannerReviewModal, revieweeId: UserId, succeeded: bool)
    requires m.Valid()
    modifies m`submittingIds, m`completedIds
    ensures m.Valid()
    ensures revieweeId !in m.submittingIds
    ensures m.submittingIds == old(m.submittingIds) - {revieweeId}
    ensures succeeded ==> m.Controls(revieweeId) == CompletedMarker
    ensures !succeeded ==> m.completedIds == old(m.completedIds)
  {
    m.StartReview(revieweeId);
    m.SettleReview(revieweeId, succeeded);
  }
}

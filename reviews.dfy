/** Manner reviews, app/reviews/actions.ts: a participant gives another a +1
    or -1 vote for one gathering, at most once per (reviewer, reviewee,
    gathering); and the lookup of the votes the caller already gave there. */
module Reviews {
  import opened Common
  import opened Seqs
  import opened Database

  /** `INSERT INTO user_reviews`, refused when (reviewer, reviewee, gathering) is taken. */
  method InsertReview(db: Database, row: Review, fault: Option<StoreError>) returns (err: Option<StoreError>)
    requires db.Valid()
    modifies db`reviews
    ensures db.Valid()
    ensures err == InsertError(old(db.reviews), ReviewKey, row, fault)
    ensures db.reviews == if err.None? then old(db.reviews) + [row] else old(db.reviews)
  {
    err := InsertError(db.reviews, ReviewKey, row, fault);
    if err.None? {
      AppendKeepsUnique(db.reviews, row, ReviewKey);
      db.reviews := db.reviews + [row];
    }
  }

  /** The message thrown for a store error other than a unique violation. */
  function SubmitFailure(e: StoreError): string {
    "Failed to submit review: " + e.message + " (Code: " + e.code + ")"
  }

  /** `submitReview`: guards on the caller, then one insert. */
  method SubmitReview(db: Database, caller: Option<UserId>, gatheringId: GatheringId, revieweeId: UserId,
                      score: Score, fault: Option<StoreError>)
    returns (out: Outcome<Reply>)
    requires db.Valid()
    modifies db`reviews
    ensures db.Valid()
    ensures caller.None? ==> out == Thrown("User not authenticated")
    ensures caller == Some(revieweeId) ==> out == Thrown("Cannot review yourself")
    ensures caller.Some? && caller.value != revieweeId ==>
              var row := Review(caller.value, revieweeId, gatheringId, score);
              var err := InsertError(old(db.reviews), ReviewKey, row, fault);
              && (err.None? ==> out == Returned(Success) && db.reviews == old(db.reviews) + [row])
              && (err.Some? && err.value.code == UniqueViolationCode ==>
                    out == Thrown("Already reviewed this user for this gathering"))
              && (err.Some? && err.value.code != UniqueViolationCode ==> out == Thrown(SubmitFailure(err.value)))
    ensures out != Returned(Success) ==> db.reviews == old(db.reviews)
  {
    if caller.None? {
      return Thrown("User not authenticated");
    }
    if caller.value == revieweeId {
      return Thrown("Cannot review yourself");
    }
    var err := InsertReview(db, Review(caller.value, revieweeId, gatheringId, score), fault);
    if err.Some? {
      if err.value.code == UniqueViolationCode {
        return Thrown("Already reviewed this user for this gathering");
      }
      return Thrown(SubmitFailure(err.value));
    }
    out := Returned(Success);
  }

  /** A second review of the same triple, with the store otherwise healthy, is
      refused as a duplicate. */
  lemma SecondReviewIsDuplicate(reviews: seq<Review>, row: Review)
    requires HasKey(reviews, ReviewKey, ReviewKey(row))
    ensures InsertError(reviews, ReviewKey, row, None) == Some(UniqueViolation)
  {
  }

  /** A second review of the same triple with the other score is refused too. */
  lemma ChangedScoreIsDuplicate(reviews: seq<Review>, row: Review, score: Score)
    requires row in reviews
    ensures InsertError(reviews, ReviewKey, row.(score := score), None) == Some(UniqueViolation)
  {
    var i :| 0 <= i < |reviews| && reviews[i] == row;
    assert ReviewKey(reviews[i]) == ReviewKey(row.(score := score));
    SecondReviewIsDuplicate(reviews, row.(score := score));
  }

  /** One (reviewee, score) pair of `getMyReviewsEx`. */
  datatype GivenReview = GivenReview(revieweeId: UserId, score: Score)

  predicate GivenBy(reviewer: UserId, gatheringId: GatheringId, r: Review) {
    r.reviewerId == reviewer && r.gatheringId == gatheringId
  }

  /** The (reviewee, score) pair of a review row. */
  function Given(row: Review): GivenReview {
    GivenReview(row.revieweeId, row.score)
  }

  /** `SELECT reviewee_id, score FROM user_reviews WHERE reviewer_id = reviewer AND gathering_id = g`. */
  function GivenReviews(reviews: seq<Review>, reviewer: UserId, gatheringId: GatheringId): (r: seq<GivenReview>)
    ensures |r| <= |reviews|
    ensures forall row :: row in reviews && GivenBy(reviewer, gatheringId, row) ==> Given(row) in r
    ensures forall v :: v in r ==> exists row :: row in reviews && GivenBy(reviewer, gatheringId, row) && Given(row) == v
  {
    var mine := Filter(reviews, (row: Review) => GivenBy(reviewer, gatheringId, row));
    var r := seq(|mine|, i requires 0 <= i < |mine| => Given(mine[i]));
    assert forall row :: row in mine ==> Given(row) in r by {
      forall row | row in mine ensures Given(row) in r {
        var i :| 0 <= i < |mine| && mine[i] == row;
        assert r[i] == Given(row);
      }
    }
    assert forall v :: v in r ==> exists row :: row in reviews && GivenBy(reviewer, gatheringId, row) && Given(row) == v by {
      forall v | v in r ensures exists row :: row in reviews && GivenBy(reviewer, gatheringId, row) && Given(row) == v {
        var i :| 0 <= i < |r| && r[i] == v;
        assert mine[i] in mine;
      }
    }
    r
  }

  /** `getMyReviewsEx`: nothing without a caller or when the query fails;
      otherwise exactly the caller's votes in that gathering. */
  method GetMyReviews(db: Database, caller: Option<UserId>, gatheringId: GatheringId, failed: bool)
    returns (r: seq<GivenReview>)
    requires db.Valid()
    ensures caller.None? || failed ==> r == []
    ensures caller.Some? && !failed ==>
              && r == GivenReviews(db.reviews, caller.value, gatheringId)
              && (forall row :: row in db.reviews && GivenBy(caller.value, gatheringId, row) ==>
                    Given(row) in r)
              && (forall v :: v in r ==>
                    exists row :: row in db.reviews && GivenBy(caller.value, gatheringId, row) && Given(row) == v)
    ensures UniqueBy(r, (v: GivenReview) => v.revieweeId)
  {
    if caller.None? || failed {
      return [];
    }
    r := GivenReviews(db.reviews, caller.value, gatheringId);
    GivenReviewsDistinct(db.reviews, caller.value, gatheringId);
  }

  /** Within one gathering, the caller's votes name each reviewee at most once:
      the unique constraint of the table carries over to the lookup. */
  lemma GivenReviewsDistinct(reviews: seq<Review>, reviewer: UserId, gatheringId: GatheringId)
    requires UniqueBy(reviews, ReviewKey)
    ensures UniqueBy(GivenReviews(reviews, reviewer, gatheringId), (v: GivenReview) => v.revieweeId)
  {
    var p := (row: Review) => GivenBy(reviewer, gatheringId, row);
    var mine := Filter(reviews, p);
    FilterKeepsUnique(reviews, p, ReviewKey);
    var r := GivenReviews(reviews, reviewer, gatheringId);
    assert |r| == |mine| && forall i :: 0 <= i < |r| ==> r[i] == Given(mine[i]);
    forall i, j | 0 <= i < j < |r| ensures r[i].revieweeId != r[j].revieweeId {
      assert p(mine[i]) && p(mine[j]);
      assert ReviewKey(mine[i]) != ReviewKey(mine[j]);
    }
  }
}

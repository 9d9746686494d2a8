/** Comments and likes, app/gatherings/community-actions.ts: adding a comment,
    the author-only delete, and the like toggle. */
module Community {
  import opened Common
  import opened Seqs
  import opened Database

  // ---------------------------------------------------------------------
  // Comments
  // ---------------------------------------------------------------------

  /** `addComment`: one new row whose author is the caller. */
  method AddComment(db: Database, caller: Option<UserId>, gatheringId: GatheringId, content: string,
                    fault: Option<StoreError>)
    returns (out: Outcome<()>)
    requires db.Valid()
    modifies db`comments, db`nextCommentId
    ensures db.Valid()
    ensures caller.None? || fault.Some? ==>
              && out == Thrown(if caller.None? then "User is not authenticated" else "Failed to add comment")
              && db.comments == old(db.comments) && db.nextCommentId == old(db.nextCommentId)
    ensures caller.Some? && fault.None? ==>
              && out == Returned(())
              && db.comments == old(db.comments) + [Comment(old(db.nextCommentId), caller.value, gatheringId, content)]
              && db.nextCommentId == old(db.nextCommentId) + 1
  {
    if caller.None? {
      return Thrown("User is not authenticated");
    }
    if fault.Some? {
      return Thrown("Failed to add comment");
    }
    var row := Comment(db.nextCommentId, caller.value, gatheringId, content);
    assert !HasKey(db.comments, CommentKey, row.id);
    AppendKeepsUnique(db.comments, row, CommentKey);
    db.comments := db.comments + [row];
    db.nextCommentId := db.nextCommentId + 1;
    out := Returned(());
  }

  /** The row `DELETE FROM comments WHERE id = commentId AND user_id = u` removes. */
  predicate DeletedBy(u: UserId, commentId: nat, c: Comment) {
    c.id == commentId && c.userId == u
  }

  /** The comments table after that delete. */
  function WithoutComment(comments: seq<Comment>, u: UserId, commentId: nat): (r: seq<Comment>)
    ensures forall c :: c in r <==> c in comments && !DeletedBy(u, commentId, c)
    ensures |r| <= |comments|
  {
    Filter(comments, (c: Comment) => !DeletedBy(u, commentId, c))
  }

  /** Rows written by anyone else are never touched by the delete. */
  lemma WithoutCommentKeepsOthers(comments: seq<Comment>, u: UserId, commentId: nat)
    ensures Filter(WithoutComment(comments, u, commentId), (c: Comment) => c.userId != u)
         == Filter(comments, (c: Comment) => c.userId != u)
  {
    FilterOfFilter(comments, (c: Comment) => !DeletedBy(u, commentId, c), (c: Comment) => c.userId != u);
  }

  /** Deleting a comment that is someone else's (or does not exist) changes nothing. */
  lemma DeleteOthersCommentIsNoOp(comments: seq<Comment>, u: UserId, commentId: nat)
    requires forall c :: c in comments && c.id == commentId ==> c.userId != u
    ensures WithoutComment(comments, u, commentId) == comments
  {
    FilterAll(comments, (c: Comment) => !DeletedBy(u, commentId, c));
  }

  /** `deleteComment`: only the caller's own comment with that id is removed;
      a mismatch removes nothing and is not an error. */
  method DeleteComment(db: Database, caller: Option<UserId>, commentId: nat, gatheringId: GatheringId,
                       fault: Option<StoreError>)
    returns (out: Outcome<()>)
    requires db.Valid()
    modifies db`comments
    ensures db.Valid()
    ensures caller.None? || fault.Some? ==>
              && out == Thrown(if caller.None? then "User is not authenticated" else "Failed to delete comment")
              && db.comments == old(db.comments)
    ensures caller.Some? && fault.None? ==>
              out == Returned(()) && db.comments == WithoutComment(old(db.comments), caller.value, commentId)
  {
    if caller.None? {
      return Thrown("User is not authenticated");
    }
    if fault.Some? {
      return Thrown("Failed to delete comment");
    }
    FilterKeepsUnique(db.comments, (c: Comment) => !DeletedBy(caller.value, commentId, c), CommentKey);
    db.comments := WithoutComment(db.comments, caller.value, commentId);
    out := Returned(());
  }

  // ---------------------------------------------------------------------
  // Likes
  // ---------------------------------------------------------------------

  predicate LikedBy(u: UserId, g: GatheringId, l: Like) {
    l.userId == u && l.gatheringId == g
  }

  /** The caller's likes of the gathering. */
  function Mine(likes: seq<Like>, u: UserId, g: GatheringId): (r: seq<Like>)
    ensures forall l :: l in r <==> l in likes && LikedBy(u, g, l)
  {
    Filter(likes, (l: Like) => LikedBy(u, g, l))
  }

  /** Everybody else's likes, and the caller's likes of other gatherings. */
  function Others(likes: seq<Like>, u: UserId, g: GatheringId): (r: seq<Like>)
    ensures forall l :: l in r <==> l in likes && !LikedBy(u, g, l)
  {
    Filter(likes, (l: Like) => !LikedBy(u, g, l))
  }

  /** What `.single()` finds: the row when exactly one like matches, nothing
      when none or several do (the store reports an error then). */
  function ExistingLike(likes: seq<Like>, u: UserId, g: GatheringId): (r: Option<Like>)
    ensures r.Some? <==> |Mine(likes, u, g)| == 1
    ensures r.Some? ==> r.value in likes && LikedBy(u, g, r.value)
  {
    var mine := Mine(likes, u, g);
    if |mine| == 1 then assert mine[0] in mine; Some(mine[0]) else None
  }

  /** The likes table after `DELETE FROM likes WHERE id = id`. */
  function WithoutLike(likes: seq<Like>, id: nat): (r: seq<Like>)
    ensures forall l :: l in r <==> l in likes && l.id != id
  {
    Filter(likes, (l: Like) => l.id != id)
  }

  /** The likes table after a toggle, with `nextId` the id the store would draw. */
  function ToggledLikes(likes: seq<Like>, u: UserId, g: GatheringId, nextId: nat): seq<Like> {
    match ExistingLike(likes, u, g)
    case Some(l) => WithoutLike(likes, l.id)
    case None => likes + [Like(nextId, u, g)]
  }

  /** With exactly one like by the caller, the toggle removes it and only it. */
  lemma {:induction false} ToggleRemovesTheLike(likes: seq<Like>, u: UserId, g: GatheringId, nextId: nat)
    requires UniqueBy(likes, LikeKey)
    requires |Mine(likes, u, g)| == 1
    ensures Mine(ToggledLikes(likes, u, g, nextId), u, g) == []
    ensures Others(ToggledLikes(likes, u, g, nextId), u, g) == Others(likes, u, g)
  {
    var l := Mine(likes, u, g)[0];
    assert ToggledLikes(likes, u, g, nextId) == WithoutLike(likes, l.id);
    NoLikeLeft(likes, u, g);
    IdCarriedOnlyByTheLike(likes, u, g, l);
    OthersAfterDeleteById(likes, u, g, l.id);
  }

  /** Deleting the caller's only like of the gathering by its id leaves them none. */
  lemma NoLikeLeft(likes: seq<Like>, u: UserId, g: GatheringId)
    requires |Mine(likes, u, g)| == 1
    ensures Mine(WithoutLike(likes, Mine(likes, u, g)[0].id), u, g) == []
  {
    var mine := Mine(likes, u, g);
    forall x | x in likes && LikedBy(u, g, x) ensures x.id == mine[0].id {
      assert x in mine;
    }
    FilterNone(WithoutLike(likes, mine[0].id), (l: Like) => LikedBy(u, g, l));
  }

  /** The id is a primary key, so only the like itself carries its id. */
  lemma IdCarriedOnlyByTheLike(likes: seq<Like>, u: UserId, g: GatheringId, l: Like)
    requires UniqueBy(likes, LikeKey)
    requires l in likes && LikedBy(u, g, l)
    ensures forall x :: x in likes && x.id == l.id ==> LikedBy(u, g, x)
  {
    forall x | x in likes && x.id == l.id ensures LikedBy(u, g, x) {
      var i :| 0 <= i < |likes| && likes[i] == x;
      var j :| 0 <= j < |likes| && likes[j] == l;
      assert LikeKey(likes[i]) == LikeKey(likes[j]);
    }
  }

  /** Deleting by an id that only the caller's like of the gathering carries
      keeps every other row, in order. */
  lemma {:induction false} OthersAfterDeleteById(likes: seq<Like>, u: UserId, g: GatheringId, id: nat)
    requires forall x :: x in likes && x.id == id ==> LikedBy(u, g, x)
    ensures Others(WithoutLike(likes, id), u, g) == Others(likes, u, g)
  {
    if likes != [] {
      var h, t := likes[0], likes[1..];
      assert h in likes;
      assert forall x :: x in t ==> x in likes;
      OthersAfterDeleteById(t, u, g, id);
      if h.id == id {
        assert LikedBy(u, g, h);
        assert WithoutLike(likes, id) == WithoutLike(t, id);
        assert Others(likes, u, g) == Others(t, u, g);
      } else {
        var w := WithoutLike(t, id);
        assert WithoutLike(likes, id) == [h] + w;
        assert ([h] + w)[0] == h && ([h] + w)[1..] == w;
      }
    }
  }

  /** With no like by the caller, the toggle adds exactly one new like, at the end. */
  lemma ToggleAddsALike(likes: seq<Like>, u: UserId, g: GatheringId, nextId: nat)
    requires Mine(likes, u, g) == []
    ensures ToggledLikes(likes, u, g, nextId) == likes + [Like(nextId, u, g)]
    ensures Mine(ToggledLikes(likes, u, g, nextId), u, g) == [Like(nextId, u, g)]
  {
    FilterConcat(likes, [Like(nextId, u, g)], (l: Like) => LikedBy(u, g, l));
  }

  /** Toggling twice with no like by the caller restores the table exactly. */
  lemma ToggleTwiceFromNone(likes: seq<Like>, u: UserId, g: GatheringId, nextId: nat)
    requires forall l :: l in likes ==> l.id < nextId
    requires Mine(likes, u, g) == []
    ensures ToggledLikes(ToggledLikes(likes, u, g, nextId), u, g, nextId + 1) == likes
  {
    var added := Like(nextId, u, g);
    ToggleAddsALike(likes, u, g, nextId);
    assert ExistingLike(likes + [added], u, g) == Some(added);
    FilterConcat(likes, [added], (l: Like) => l.id != nextId);
    FilterAll(likes, (l: Like) => l.id != nextId);
  }

  /** Toggling twice with exactly one like by the caller restores every other
      row in order and leaves the caller again with exactly one like of the
      gathering. A removal draws no id, so the re-inserted like takes the id
      `nextId` the store would have drawn for the first toggle. */
  lemma ToggleTwiceFromOne(likes: seq<Like>, u: UserId, g: GatheringId, nextId: nat)
    requires UniqueBy(likes, LikeKey)
    requires |Mine(likes, u, g)| == 1
    ensures var twice := ToggledLikes(ToggledLikes(likes, u, g, nextId), u, g, nextId);
            && Others(twice, u, g) == Others(likes, u, g)
            && Mine(twice, u, g) == [Like(nextId, u, g)]
  {
    var once := ToggledLikes(likes, u, g, nextId);
    ToggleRemovesTheLike(likes, u, g, nextId);
    ToggleAddsALike(once, u, g, nextId);
    FilterConcat(once, [Like(nextId, u, g)], (l: Like) => !LikedBy(u, g, l));
  }

  /** `toggleLike`: look up the caller's like, then delete it or insert one.
      The outcome of either write is not inspected, and a failed lookup leads
      to the insert, as no row was found. */
  method ToggleLike(db: Database, caller: Option<UserId>, gatheringId: GatheringId,
                    lookupFails: bool, writeFails: bool)
    returns (out: Outcome<()>)
    requires db.Valid()
    modifies db`likes, db`nextLikeId
    ensures db.Valid()
    ensures caller.None? ==>
              out == Thrown("User is not authenticated")
              && db.likes == old(db.likes) && db.nextLikeId == old(db.nextLikeId)
    ensures caller.Some? ==> out == Returned(())
    ensures caller.Some? && !lookupFails && !writeFails ==>
              db.likes == ToggledLikes(old(db.likes), caller.value, gatheringId, old(db.nextLikeId))
    ensures caller.Some? && lookupFails && !writeFails ==>
              db.likes == old(db.likes) + [Like(old(db.nextLikeId), caller.value, gatheringId)]
    ensures caller.Some? && writeFails ==> db.likes == old(db.likes)
    ensures db.nextLikeId == if caller.Some? && !writeFails
                                && (lookupFails || ExistingLike(old(db.likes), caller.value, gatheringId).None?)
                             then old(db.nextLikeId) + 1 else old(db.nextLikeId)
  {
    if caller.None? {
      return Thrown("User is not authenticated");
    }
    var user := caller.value;
    var existing := if lookupFails then None else ExistingLike(db.likes, user, gatheringId);
    if existing.Some? {
      if !writeFails {
        FilterKeepsUnique(db.likes, (l: Like) => l.id != existing.value.id, LikeKey);
        db.likes := WithoutLike(db.likes, existing.value.id);
      }
    } else {
      if !writeFails {
        var row := Like(db.nextLikeId, user, gatheringId);
        assert !HasKey(db.likes, LikeKey, row.id);
        AppendKeepsUnique(db.likes, row, LikeKey);
        db.likes := db.likes + [row];
        db.nextLikeId := db.nextLikeId + 1;
      }
    }
    out := Returned(());
  }
}

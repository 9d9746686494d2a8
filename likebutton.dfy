/** The heart button of a gathering, components/like-button.tsx: an optimistic
    flip of the liked state and the count, rolled back when the server call
    fails. The handler is split at its `await`: `StartToggle` runs up to the
    call of `toggleLike`, `SettleToggle` runs once the call has returned or
    thrown. */
module LikeButton {

  /** The optimistic state after one click: the flag flips and the count
      follows it, up when liking and down when unliking. */
  function Flipped(isLiked: bool, likeCount: int): (r: (bool, int))
    ensures r.0 == !isLiked
    ensures r.0 ==> r.1 == likeCount + 1
    ensures !r.0 ==> r.1 == likeCount - 1
  {
    (!isLiked, if isLiked then likeCount - 1 else likeCount + 1)
  }

  /** Two flips cancel out. */
  lemma FlipTwiceRestores(isLiked: bool, likeCount: int)
    ensures var once := Flipped(isLiked, likeCount);
            Flipped(once.0, once.1) == (isLiked, likeCount)
  {
  }

  class LikeButton {
    const isLoggedIn: bool
    var isLiked: bool
    var likeCount: int
    var isPending: bool
    /** The values saved before the optimistic update, for the rollback. */
    var previousIsLiked: bool
    var previousLikeCount: int

    constructor (initialIsLiked: bool, initialLikeCount: int, isLoggedIn: bool)
      ensures this.isLoggedIn == isLoggedIn
      ensures isLiked == initialIsLiked && likeCount == initialLikeCount && !isPending
    {
      this.isLoggedIn := isLoggedIn;
      isLiked, likeCount, isPending := initialIsLiked, initialLikeCount, false;
      previousIsLiked, previousLikeCount := initialIsLiked, initialLikeCount;
    }

    /** The button is disabled exactly while a toggle is in flight. */
    predicate Disabled()
      reads this
    {
      isPending
    }

    /** The click, up to the server call. Returns whether the call is made; a
        logged-out click only shows an alert. A disabled button takes no clicks. */
    method StartToggle() returns (calls: bool)
      requires !Disabled()
      modifies this`isLiked, this`likeCount, this`isPending, this`previousIsLiked, this`previousLikeCount
      ensures calls == isLoggedIn
      ensures !isLoggedIn ==>
                isLiked == old(isLiked) && likeCount == old(likeCount) && isPending == old(isPending)
      ensures isLoggedIn ==>
                && (isLiked, likeCount) == Flipped(old(isLiked), old(likeCount))
                && isPending
                && previousIsLiked == old(isLiked) && previousLikeCount == old(likeCount)
    {
      if !isLoggedIn {
        return false;
      }
      previousIsLiked, previousLikeCount := isLiked, likeCount;
      var next := Flipped(isLiked, likeCount);
      isLiked, likeCount := next.0, next.1;
      isPending := true;
      calls := true;
    }

    /** After the server call: a failure restores the saved values; either way the button is enabled again. */
    method SettleToggle(succeeded: bool)
      requires isPending
      modifies this`isLiked, this`likeCount, this`isPending
      ensures succeeded ==> isLiked == old(isLiked) && likeCount == old(likeCount)
      ensures !succeeded ==> isLiked == previousIsLiked && likeCount == previousLikeCount
      ensures !isPending && !Disabled()
    {
      if !succeeded {
        isLiked, likeCount := previousIsLiked, previousLikeCount;
      }
      isPending := false;
    }
  }

  /** A click whose server call fails leaves the button exactly as it was. */
  method ClickAndFail(b: LikeButton)
    requires !b.isPending
    modifies b`isLiked, b`likeCount, b`isPending, b`previousIsLiked, b`previousLikeCount
    ensures b.isLiked == old(b.isLiked) && b.likeCount == old(b.likeCount) && !b.isPending
  {
    var calls := b.StartToggle();
    if calls {
      b.SettleToggle(false);
    }
  }

  /** A click whose server call succeeds leaves the flipped state in place. */
  method ClickAndSucceed(b: LikeButton)
    requires !b.isPending && b.isLoggedIn
    modifies b`isLiked, b`likeCount, b`isPending, b`previousIsLiked, b`previousLikeCount
    ensures (b.isLiked, b.likeCount) == Flipped(old(b.isLiked), old(b.likeCount)) && !b.isPending
  {
    var calls := b.StartToggle();
    b.SettleToggle(true);
  }
}

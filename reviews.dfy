/**
 * `useReviews`: an in-memory, append-only list of reviews with a clear-all.
 * A message is trimmed before it is stored, and a message that trims to nothing
 * is not stored at all.
 */
module Reviews {
  import opened Text
  import opened ReviewType

  /**
   * What the store guarantees of each review it holds: a non-empty message with no
   * whitespace at either end.
   */
  predicate WellFormed(r: Review) {
    r.message != [] && !IsWhitespace(r.message[0]) && !IsWhitespace(r.message[|r.message| - 1])
  }

  /** A well-formed message is its own trim, and so is never blank. */
  lemma WellFormedIsTrimmed(r: Review)
    requires WellFormed(r)
    ensures Trim(r.message) == r.message && !AllWhitespace(r.message)
  {
    assert TrimStart(r.message) == r.message;
    assert TrimEnd(r.message) == r.message;
  }

  predicate AllWellFormed(reviews: seq<Review>) {
    forall i :: 0 <= i < |reviews| ==> WellFormed(reviews[i])
  }

  /**
   * The list after adding a review of the given kind: unchanged when the message is
   * blank, and otherwise the old list followed by exactly one new review, carrying
   * the trimmed message. Existing reviews are never altered or reordered, and
   * duplicates are kept.
   */
  function AddedReview(reviews: seq<Review>, kind: ReviewKind, message: string): (r: seq<Review>)
    ensures reviews <= r
    ensures |r| == if AllWhitespace(message) then |reviews| else |reviews| + 1
    ensures |r| > |reviews| ==> r[|reviews|].Kind() == kind && r[|reviews|].message == Trim(message)
  {
    TrimBlank(message);
    if Trim(message) == [] then reviews else reviews + [MakeReview(kind, Trim(message))]
  }

  /** Adding a review keeps every stored message non-empty and trimmed. */
  lemma AddedReviewWellFormed(reviews: seq<Review>, kind: ReviewKind, message: string)
    requires AllWellFormed(reviews)
    ensures AllWellFormed(AddedReview(reviews, kind, message))
  {
    if Trim(message) != [] {
      var added := MakeReview(kind, Trim(message));
      assert WellFormed(added);
      assert AddedReview(reviews, kind, message) == reviews + [added];
    }
  }

  /** The reviews state of the hook. */
  class ReviewStore {
    var reviews: seq<Review>

    ghost predicate Valid()
      reads this
    {
      AllWellFormed(reviews)
    }

    /** The store starts empty. */
    constructor ()
      ensures Valid() && reviews == []
    {
      reviews := [];
    }

    /** `addPositiveReview`: appends a positive review with the trimmed message, unless it is blank. */
    method AddPositiveReview(message: string)
      requires Valid()
      modifies this
      ensures Valid()
      ensures reviews == AddedReview(old(reviews), PositiveKind, message)
    {
      if Trim(message) == [] {
        return;
      }
      AddedReviewWellFormed(reviews, PositiveKind, message);
      var newReview := Positive(Trim(message));
      reviews := reviews + [newReview];
    }

    /** `addNegativeReview`: appends a negative review with the trimmed message, unless it is blank. */
    method AddNegativeReview(message: string)
      requires Valid()
      modifies this
      ensures Valid()
      ensures reviews == AddedReview(old(reviews), NegativeKind, message)
    {
      if Trim(message) == [] {
        return;
      }
      AddedReviewWellFormed(reviews, NegativeKind, message);
      var newReview := Negative(Trim(message));
      reviews := reviews + [newReview];
    }

    /** `clearReviews`: the list becomes empty, whatever it held. */
    method ClearReviews()
      modifies this
      ensures Valid() && reviews == []
    {
      reviews := [];
    }
  }
}

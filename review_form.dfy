/**
  The review form under a product: a star rating, a comment, the submit button's
  enablement and the reset after submitting.
*/
module ReviewForm {
  import opened Strings

  /** What the form hands to its `onSubmit` callback. */
  datatype ReviewInput = ReviewInput(rating: int, comment: string)

  const StarCount := 5

  /** Star `star` is drawn filled exactly when `star <= rating`. */
  predicate StarHighlighted(star: int, rating: int) {
    star <= rating
  }

  /** How many of the stars `from`..5 are filled. */
  function HighlightedFrom(from: nat, rating: int): nat
    requires 1 <= from <= StarCount + 1
    decreases StarCount + 1 - from
  {
    if from == StarCount + 1 then 0
    else (if StarHighlighted(from, rating) then 1 else 0) + HighlightedFrom(from + 1, rating)
  }

  /** `disabled={rating === 0 || comment.trim() === ''}`. */
  predicate SubmitDisabled(rating: int, comment: string): (disabled: bool)
    ensures rating == 0 ==> disabled
    ensures !disabled ==> |comment| > 0
    ensures !disabled <==> rating != 0 && exists i :: 0 <= i < |comment| && !IsJsWhitespace(comment[i])
  {
    rating == 0 || Trim(comment) == []
  }

  class ReviewFormState {
    var rating: int
    var comment: string
    /** Every call made to `onSubmit`, in order. */
    var submitted: seq<ReviewInput>

    /** The rating is 0 (none chosen) or one of the five stars. */
    predicate Valid()
      reads this
    {
      0 <= rating <= StarCount
    }

    constructor()
      ensures Valid() && rating == 0 && comment == "" && submitted == []
    {
      rating := 0;
      comment := "";
      submitted := [];
    }

    /** Clicking one of the five stars. */
    method SelectStar(star: int)
      requires 1 <= star <= StarCount
      modifies this
      ensures Valid()
      ensures rating == star && comment == old(comment) && submitted == old(submitted)
      ensures forall s :: 1 <= s <= StarCount ==> (StarHighlighted(s, rating) <==> s <= star)
    {
      rating := star;
    }

    method SetComment(text: string)
      modifies this
      ensures comment == text && rating == old(rating) && submitted == old(submitted)
      ensures old(Valid()) ==> Valid()
    {
      comment := text;
    }

    /**
      `handleSubmit`: with a signed-in user, one call to `onSubmit` with the current
      rating and comment, then both reset; without one, nothing.
    */
    method HandleSubmit(signedIn: bool)
      modifies this
      ensures signedIn ==> submitted == old(submitted) + [ReviewInput(old(rating), old(comment))]
                           && rating == 0 && comment == ""
      ensures !signedIn ==> submitted == old(submitted) && rating == old(rating) && comment == old(comment)
      ensures old(Valid()) ==> Valid()
      ensures signedIn ==> SubmitDisabled(rating, comment)
    {
      if signedIn {
        submitted := submitted + [ReviewInput(rating, comment)];
        rating := 0;
        comment := "";
      }
    }
  }

  // ----- properties -----

  /** Exactly `rating` stars are filled. */
  lemma {:induction false} HighlightedCount(from: nat, rating: int)
    requires 1 <= from <= StarCount + 1 && 0 <= rating <= StarCount
    ensures HighlightedFrom(from, rating) == if rating >= from then rating - from + 1 else 0
    decreases StarCount + 1 - from
  {
    if from <= StarCount {
      HighlightedCount(from + 1, rating);
    }
  }

  lemma StarsShowRating(rating: int)
    requires 0 <= rating <= StarCount
    ensures HighlightedFrom(1, rating) == rating
  {
    HighlightedCount(1, rating);
  }

  /** Submitting is possible only with a star chosen and a comment that is not blank. */
  lemma EnabledMeansRated(rating: int, comment: string)
    requires !SubmitDisabled(rating, comment)
    ensures rating != 0
    ensures exists i :: 0 <= i < |comment| && !IsJsWhitespace(comment[i])
  {
    assert !AllWhitespace(comment);
  }
}

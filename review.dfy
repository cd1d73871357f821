/** The two-variant `Review` value and its rendering, `renderReview`. */
module ReviewType {
  import opened Wrappers

  /** The tag of a review: the `'positive' | 'negative'` discriminator. */
  datatype ReviewKind = PositiveKind | NegativeKind

  /** A review is exactly one of two variants, each carrying its message. */
  datatype Review = Positive(message: string) | Negative(message: string) {
    function Kind(): ReviewKind {
      if Positive? then PositiveKind else NegativeKind
    }
  }

  /** The review with the given tag and message. */
  function MakeReview(kind: ReviewKind, message: string): (r: Review)
    ensures r.Kind() == kind && r.message == message
  {
    match kind
    case PositiveKind => Positive(message)
    case NegativeKind => Negative(message)
  }

  const PositivePrefix: string := "\U{2713} Opini\U{00F3}n positiva: "
  const NegativePrefix: string := "\U{2717} Opini\U{00F3}n negativa: "

  /** `renderReview`: a fixed label chosen by the tag, followed by the message itself. */
  function RenderReview(r: Review): (s: string)
    ensures |r.message| <= |s| && s[|s| - |r.message|..] == r.message
    ensures r.Positive? ==> |PositivePrefix| <= |s| && s[..|PositivePrefix|] == PositivePrefix
    ensures r.Negative? ==> |NegativePrefix| <= |s| && s[..|NegativePrefix|] == NegativePrefix
  {
    match r
    case Positive(message) => PositivePrefix + message
    case Negative(message) => NegativePrefix + message
  }

  /** Reads a rendered review back: the label gives the tag, the rest is the message. */
  function ParseRenderedReview(s: string): (r: Option<Review>)
    ensures r.Some? ==> |r.value.message| < |s|
  {
    if |PositivePrefix| <= |s| && s[..|PositivePrefix|] == PositivePrefix then
      Some(Positive(s[|PositivePrefix|..]))
    else if |NegativePrefix| <= |s| && s[..|NegativePrefix|] == NegativePrefix then
      Some(Negative(s[|NegativePrefix|..]))
    else None
  }

  /** Rendering loses nothing: both the tag and the message can be read back. */
  lemma RenderReviewRoundTrip(r: Review)
    ensures ParseRenderedReview(RenderReview(r)) == Some(r)
  {
    var s := RenderReview(r);
    if r.Negative? {
      assert s[0] != PositivePrefix[0];
    }
  }

  /** Different reviews render differently; in particular the tag is visible in the output. */
  lemma RenderReviewInjective(r: Review, q: Review)
    requires RenderReview(r) == RenderReview(q)
    ensures r == q
  {
    RenderReviewRoundTrip(r);
    RenderReviewRoundTrip(q);
  }

  /** The positive and the negative rendering of one message differ. */
  lemma RenderReviewTagsDiffer(message: string)
    ensures RenderReview(Positive(message)) != RenderReview(Negative(message))
  {
    if RenderReview(Positive(message)) == RenderReview(Negative(message)) {
      RenderReviewInjective(Positive(message), Negative(message));
    }
  }
}

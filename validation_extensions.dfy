/**
 * The `TrimLength` rule the request validators share: a string passes when it
 * is present, at least one bound is given, and its trimmed length lies within
 * the bounds that are given.
 */
module ValidationExtensions {
  import opened Wrappers
  import Text

  /**
   * `TrimLength(min, max)` applied to `x`; `None` stands for `null`. The length
   * is .NET's `Length`, counted in UTF-16 code units.
   */
  function TrimLength(x: Option<string>, min: Option<int>, max: Option<int>): (r: bool)
    ensures x.None? ==> !r
    ensures min.None? && max.None? ==> !r
    ensures r ==> var n := Text.Utf16Length(Text.Trim(x.value));
      (min.Some? ==> n >= min.value) && (max.Some? ==> n <= max.value)
  {
    x.Some? && (min.Some? || max.Some?)
    && (min.None? || Text.Utf16Length(Text.Trim(x.value)) >= min.value)
    && (max.None? || Text.Utf16Length(Text.Trim(x.value)) <= max.value)
  }

  /** The verdict depends only on the trimmed text: surrounding white space never changes it. */
  lemma TrimLengthIgnoresPadding(pre: string, s: string, post: string, min: Option<int>, max: Option<int>)
    requires Text.AllWhiteSpace(pre) && Text.AllWhiteSpace(post)
    ensures TrimLength(Some(pre + s + post), min, max) == TrimLength(Some(s), min, max)
  {
    Text.TrimIgnoresPadding(pre, s, post);
  }

  /** The same text trimmed first gets the same verdict, so a trimming setter never changes it. */
  lemma TrimLengthOfTrimmed(s: string, min: Option<int>, max: Option<int>)
    ensures TrimLength(Some(Text.Trim(s)), min, max) == TrimLength(Some(s), min, max)
  {
    Text.TrimIdempotent(s);
  }

  /** `looser` gives a bound exactly where `bound` does, and one at least as permissive. */
  predicate LooserMin(looser: Option<int>, bound: Option<int>)
  {
    looser.Some? == bound.Some? && (bound.Some? ==> looser.value <= bound.value)
  }

  predicate LooserMax(looser: Option<int>, bound: Option<int>)
  {
    looser.Some? == bound.Some? && (bound.Some? ==> looser.value >= bound.value)
  }

  /** Lowering a minimum or raising a maximum never turns a pass into a fail. */
  lemma LooserBoundsKeepPass(x: Option<string>, min: Option<int>, max: Option<int>, min2: Option<int>, max2: Option<int>)
    requires LooserMin(min2, min) && LooserMax(max2, max)
    ensures TrimLength(x, min, max) ==> TrimLength(x, min2, max2)
  {
  }

  /** A blank string trims to nothing: it passes only when no positive minimum is given. */
  lemma BlankPassesOnlyWithoutMinimum(s: string, min: Option<int>, max: Option<int>)
    requires Text.AllWhiteSpace(s)
    ensures TrimLength(Some(s), min, max) <==>
      (min.Some? || max.Some?) && (min.None? || min.value <= 0) && (max.None? || max.value >= 0)
  {
    Text.TrimEnds(s);
  }
}

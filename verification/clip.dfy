/** The clip-duration rule of `build_video`, the same expression in both scripts:
    `duration if duration else max(8, min(25, aud_duration + 0.5))`. Seconds are exact reals. */
module Clip {
  import opened Wrappers

  const ShortestClip: real := 8.0
  const LongestClip: real := 25.0
  /** Silence added after the narration. */
  const Tail: real := 0.5

  function Max(a: real, b: real): real {
    if a >= b then a else b
  }

  function Min(a: real, b: real): real {
    if a <= b then a else b
  }

  /** Python's truthiness for the `duration` argument: `None` and zero are false. */
  predicate IsGiven(duration: Option<real>) {
    duration.Some? && duration.value != 0.0
  }

  /** The length of the clip for a narration of `narration` seconds. A given duration is used
      as it is; otherwise the narration plus its tail is clamped to [8, 25]: it is the tail end
      of the narration when that lies in the range, and the nearer bound when it does not. */
  function ClipDuration(duration: Option<real>, narration: real): (d: real)
    ensures IsGiven(duration) ==> d == duration.value
    ensures !IsGiven(duration) ==> ShortestClip <= d <= LongestClip
    ensures !IsGiven(duration) && ShortestClip <= narration + Tail <= LongestClip ==>
              d == narration + Tail
    ensures !IsGiven(duration) && narration + Tail < ShortestClip ==> d == ShortestClip
    ensures !IsGiven(duration) && narration + Tail > LongestClip ==> d == LongestClip
  {
    if IsGiven(duration) then duration.value
    else Max(ShortestClip, Min(LongestClip, narration + Tail))
  }

  /** Of all lengths in [8, 25], the computed one is the nearest to the narration plus its tail. */
  lemma ClipDurationNearest(narration: real, other: real)
    requires ShortestClip <= other <= LongestClip
    ensures var d := ClipDuration(None, narration);
            var target := narration + Tail;
            (if d >= target then d - target else target - d)
              <= (if other >= target then other - target else target - other)
  {
  }

  /** A longer narration never gets a shorter clip. */
  lemma ClipDurationMonotonic(a: real, b: real)
    requires a <= b
    ensures ClipDuration(None, a) <= ClipDuration(None, b)
  {
  }

  /** The whole narration, with its tail, fits in the clip unless it is longer than 24.5 seconds.
      A two-second narration gets an eight-second clip. */
  lemma NarrationFits(narration: real)
    ensures narration + Tail <= LongestClip ==> narration + Tail <= ClipDuration(None, narration)
    ensures ClipDuration(None, 2.0) == 8.0
  {
  }
}

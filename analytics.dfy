/**
 * The scroll-depth part of the engagement logger: the deepest scroll
 * percentage seen since page load. The percentage of each scroll event is
 * an integer input here.
 */
module Analytics {

  function Max(a: int, b: int): (m: int)
    ensures m >= a && m >= b && (m == a || m == b)
  {
    if a >= b then a else b
  }

  /** The value `maxScroll` holds after the scroll events `samples`, starting from 0. */
  function MaxDepth(samples: seq<int>): (r: int)
    ensures r >= 0
    ensures samples != [] ==> r >= samples[|samples| - 1]
  {
    if samples == [] then 0
    else Max(MaxDepth(samples[..|samples| - 1]), samples[|samples| - 1])
  }

  /**
   * The depth is the largest sample, or 0 when no sample is positive: it is
   * at least 0 and every sample, and it is 0 or one of the samples.
   */
  lemma {:induction false} MaxDepthIsMaximum(samples: seq<int>)
    ensures MaxDepth(samples) >= 0
    ensures forall k :: 0 <= k < |samples| ==> samples[k] <= MaxDepth(samples)
    ensures MaxDepth(samples) == 0 || exists k :: 0 <= k < |samples| && samples[k] == MaxDepth(samples)
  {
    if samples != [] {
      var init := samples[..|samples| - 1];
      MaxDepthIsMaximum(init);
      assert forall k :: 0 <= k < |init| ==> samples[k] == init[k];
    }
  }

  /** Later scroll events never lower the depth. */
  lemma {:induction false} MaxDepthMonotone(earlier: seq<int>, later: seq<int>)
    ensures MaxDepth(earlier) <= MaxDepth(earlier + later)
    decreases |later|
  {
    if later != [] {
      var init := later[..|later| - 1];
      MaxDepthMonotone(earlier, init);
      assert (earlier + later)[..|earlier + later| - 1] == earlier + init;
    } else {
      assert earlier + later == earlier;
    }
  }

  class ScrollDepthTracker {
    /** The `maxScroll` variable of the scroll listener. */
    var maxScroll: int
    /** The percentages of the scroll events seen so far. */
    ghost var samples: seq<int>

    ghost predicate Valid()
      reads this
    {
      maxScroll == MaxDepth(samples)
    }

    constructor ()
      ensures Valid() && samples == [] && maxScroll == 0
    {
      maxScroll := 0;
      samples := [];
    }

    /** The scroll listener: `maxScroll = Math.max(maxScroll, percent)`. */
    method OnScroll(percent: int)
      requires Valid()
      modifies this
      ensures Valid()
      ensures samples == old(samples) + [percent]
      ensures maxScroll == Max(old(maxScroll), percent)
      ensures maxScroll >= old(maxScroll)
    {
      maxScroll := Max(maxScroll, percent);
      samples := samples + [percent];
      assert samples[..|samples| - 1] == old(samples);
    }
  }
}

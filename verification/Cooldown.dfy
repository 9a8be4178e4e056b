/** Time logs whose neighbouring entries are at least a cooldown apart. */
module Cooldown {

  ghost predicate Spaced(times: seq<nat>, gap: nat) {
    forall i :: 0 < i < |times| ==> times[i] >= times[i - 1] + gap
  }

  /** n entries a cooldown apart span at least n - 1 cooldowns. */
  lemma {:induction false} SpacedSpan(times: seq<nat>, gap: nat)
    requires |times| > 0 && Spaced(times, gap)
    ensures times[0] + (|times| - 1) * gap <= times[|times| - 1]
  {
    if |times| > 1 {
      SpacedSpan(times[..|times| - 1], gap);
      assert (|times| - 1) * gap == (|times| - 2) * gap + gap;
    }
  }
}

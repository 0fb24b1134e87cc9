// The creative problem of screens/OutsideTheBoxScreen.tsx: hints revealed one
// at a time up to the number of hints, and a solution that, once shown,
// replaces both buttons.
module OutsideTheBox {
  import opened Common
  import opened Content

  /** The render guard: the fallback screen shows for a missing payload, an
      empty problem statement or solution, or a missing hints array. */
  predicate IsPlayable(data: Option<OutsideTheBoxData>)
    ensures data.None? ==> !IsPlayable(data)
    ensures data.Some? && data.value.problemStatement == "" ==> !IsPlayable(data)
    ensures data.Some? && data.value.hints.None? ==> !IsPlayable(data)
    ensures data.Some? && data.value.solutionExplanation == "" ==> !IsPlayable(data)
    ensures (&& data.Some? && data.value.problemStatement != "" && data.value.hints.Some?
             && data.value.solutionExplanation != "")
            ==> IsPlayable(data)
  {
    data.Some? && data.value.problemStatement != "" && data.value.hints.Some? && data.value.solutionExplanation != ""
  }

  /** `hints.slice(0, count)`. */
  function ShownHints(hints: seq<string>, count: nat): (shown: seq<string>)
    ensures |shown| == Min(count, |hints|)
    ensures shown <= hints
  {
    hints[..Min(count, |hints|)]
  }

  /** `revealNextHint`: one more hint while some are hidden. */
  function RevealHint(count: nat, total: nat): (r: nat)
    ensures count <= total ==> r <= total
    ensures r == count <==> count >= total
  {
    if count < total then count + 1 else count
  }

  /** The count after `k` clicks on "Reveal Hint". */
  function RevealHints(count: nat, total: nat, k: nat): nat
    decreases k
  {
    if k == 0 then count else RevealHints(RevealHint(count, total), total, k - 1)
  }

  /** From no hints, `k` clicks reveal the first `min(k, total)` hints: the count
      stops at the number of hints however often the button is clicked. */
  lemma {:induction false} RevealHintsClamps(count: nat, total: nat, k: nat)
    requires count <= total
    ensures RevealHints(count, total, k) == Min(count + k, total)
    decreases k
  {
    if k > 0 {
      RevealHintsClamps(RevealHint(count, total), total, k - 1);
    }
  }

  /** The hints on screen after `k` clicks are the first `min(k, |hints|)` hints, in order. */
  lemma ShownAfterClicks(hints: seq<string>, k: nat)
    ensures ShownHints(hints, RevealHints(0, |hints|, k)) == hints[..Min(k, |hints|)]
  {
    RevealHintsClamps(0, |hints|, k);
  }

  class Problem {
    const hints: seq<string>
    var revealedHintCount: nat
    var isSolutionVisible: bool

    /** No more hints are counted than exist. */
    ghost predicate Valid()
      reads this
    {
      revealedHintCount <= |hints|
    }

    constructor (data: OutsideTheBoxData)
      requires IsPlayable(Some(data))
      ensures hints == data.hints.value && revealedHintCount == 0 && !isSolutionVisible && Valid()
    {
      hints := data.hints.value;
      revealedHintCount, isSolutionVisible := 0, false;
    }

    /** The "Reveal Hint" button, shown until the solution is. */
    predicate HintButtonShown()
      reads this
    {
      !isSolutionVisible
    }

    /** It is disabled once every hint is revealed. */
    predicate HintButtonDisabled()
      reads this
    {
      revealedHintCount >= |hints|
    }

    /** "Reveal Hint". */
    method RevealNextHint()
      requires Valid() && HintButtonShown()
      modifies this
      ensures Valid() && revealedHintCount == RevealHint(old(revealedHintCount), |hints|)
      ensures isSolutionVisible == old(isSolutionVisible)
    {
      if revealedHintCount < |hints| {
        revealedHintCount := revealedHintCount + 1;
      }
    }

    /** "Reveal Solution": the solution shows and both buttons go for good. */
    method RevealSolution()
      requires Valid() && HintButtonShown()
      modifies this
      ensures Valid() && isSolutionVisible && !HintButtonShown()
      ensures revealedHintCount == old(revealedHintCount)
    {
      isSolutionVisible := true;
    }
  }

  /** The hints shown are always a prefix of the hints, with one shown per click
      until the last, so the button is disabled exactly when every hint shows. */
  lemma ShownHintsArePrefix(p: Problem)
    requires p.Valid()
    ensures ShownHints(p.hints, p.revealedHintCount) == p.hints[..p.revealedHintCount]
    ensures p.HintButtonDisabled() <==> ShownHints(p.hints, p.revealedHintCount) == p.hints
  {
  }
}

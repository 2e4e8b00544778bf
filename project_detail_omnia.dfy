/**
 * The screenshot carousel of the Omnia project page: an index into three
 * screenshots, stepped forwards and backwards with wrap-around, or set
 * directly from a thumbnail dot.
 */
module ProjectDetailOmnia {

  /** The number of screenshots in the carousel. */
  const ScreenshotCount := 3

  /** The `nextImage` updater: the last index wraps to 0, any other index moves up by one. */
  function NextIndex(i: int, n: int): (r: int)
    ensures 0 <= i < n ==> 0 <= r < n && r == (i + 1) % n
  {
    if i == n - 1 then 0 else i + 1
  }

  /** The `prevImage` updater: 0 wraps to the last index, any other index moves down by one. */
  function PrevIndex(i: int, n: int): (r: int)
    ensures 0 <= i < n ==> 0 <= r < n && r == (i - 1) % n
  {
    if i == 0 then n - 1 else i - 1
  }

  /** Stepping forwards then backwards, or backwards then forwards, comes back to the same screenshot. */
  lemma NextPrevInverse(i: int, n: int)
    requires 0 <= i < n
    ensures PrevIndex(NextIndex(i, n), n) == i
    ensures NextIndex(PrevIndex(i, n), n) == i
  {
  }

  /** The index after `k` presses of the next arrow. */
  function Forward(i: int, n: int, k: nat): int
    decreases k
  {
    if k == 0 then i else NextIndex(Forward(i, n, k - 1), n)
  }

  /**
   * `k` presses of the next arrow move the index `k` places round the circle:
   * the index reached is the remainder of `i + k` by `n`, with `q` full rounds.
   */
  lemma {:induction false} ForwardIsModular(i: int, n: int, k: nat) returns (q: nat)
    requires 0 <= i < n
    ensures 0 <= Forward(i, n, k) < n
    ensures i + k == q * n + Forward(i, n, k)
    decreases k
  {
    if k == 0 {
      q := 0;
    } else {
      var p := ForwardIsModular(i, n, k - 1);
      if Forward(i, n, k - 1) == n - 1 {
        q := p + 1;
        assert q * n == p * n + n;
      } else {
        q := p;
      }
    }
  }

  /** A full round of the next arrow shows the starting screenshot again. */
  lemma FullRoundIsIdentity(i: int, n: int)
    requires 0 <= i < n
    ensures Forward(i, n, n) == i
  {
    var q := ForwardIsModular(i, n, n);
    MoreRoundsMoreSteps(q, n);
  }

  lemma MoreRoundsMoreSteps(q: nat, n: int)
    requires 0 < n
    ensures q >= 2 ==> q * n >= 2 * n
    ensures q == 0 ==> q * n == 0
  {
    if q >= 2 {
      assert q * n == 2 * n + (q - 2) * n;
    }
  }

  /** The thumbnail dots: one per screenshot, highlighted at the current index. */
  function Dots(current: int): (r: seq<bool>)
    ensures |r| == ScreenshotCount
    ensures forall k :: 0 <= k < ScreenshotCount ==> (r[k] <==> k == current)
  {
    seq(ScreenshotCount, k => k == current)
  }

  /** `OmniaProjectDetail`: the carousel's only state is the current index. */
  class Carousel {
    var currentImageIndex: int

    ghost predicate Valid()
      reads this
    {
      0 <= currentImageIndex < ScreenshotCount
    }

    constructor ()
      ensures currentImageIndex == 0 && Valid()
    {
      currentImageIndex := 0;
    }

    /** The right arrow. */
    method NextImage()
      requires Valid()
      modifies this
      ensures Valid() && currentImageIndex == (old(currentImageIndex) + 1) % ScreenshotCount
    {
      currentImageIndex := NextIndex(currentImageIndex, ScreenshotCount);
    }

    /** The left arrow. */
    method PrevImage()
      requires Valid()
      modifies this
      ensures Valid() && currentImageIndex == (old(currentImageIndex) - 1) % ScreenshotCount
    {
      currentImageIndex := PrevIndex(currentImageIndex, ScreenshotCount);
    }

    /** A thumbnail dot; the dots only pass the indices of existing screenshots. */
    method GoToImage(index: int)
      requires 0 <= index < ScreenshotCount
      modifies this
      ensures Valid() && currentImageIndex == index
      ensures forall k :: 0 <= k < ScreenshotCount ==> (Dots(currentImageIndex)[k] <==> k == index)
    {
      currentImageIndex := index;
    }
  }
}

/**
 * The index arithmetic shared by the two carousels on the home page: the
 * "next" and "previous" buttons move cyclically through `n` slides, and the
 * dot row renders one dot per slide, the current one highlighted.
 */
module CarouselIndex {
  import opened Seqs

  /** `(i + 1) % n`. */
  function Next(i: nat, n: nat): (r: nat)
    requires i < n
    ensures r < n
    ensures i < n - 1 ==> r == i + 1
    ensures i == n - 1 ==> r == 0
  {
    (i + 1) % n
  }

  /** `(i - 1 + n) % n`; adding `n` first keeps the dividend non-negative. */
  function Prev(i: nat, n: nat): (r: nat)
    requires i < n
    ensures r < n
    ensures 0 < i ==> r == i - 1
    ensures i == 0 ==> r == n - 1
  {
    (i - 1 + n) % n
  }

  lemma PrevAfterNext(i: nat, n: nat)
    requires i < n
    ensures Prev(Next(i, n), n) == i
  {
  }

  lemma NextAfterPrev(i: nat, n: nat)
    requires i < n
    ensures Next(Prev(i, n), n) == i
  {
  }

  /** The index reached from `i` after pressing "next" `k` times. */
  function NextTimes(i: nat, n: nat, k: nat): (r: nat)
    requires i < n
    ensures r < n
  {
    if k == 0 then i else Next(NextTimes(i, n, k - 1), n)
  }

  /** The index reached from `i` after pressing "previous" `k` times. */
  function PrevTimes(i: nat, n: nat, k: nat): (r: nat)
    requires i < n
    ensures r < n
  {
    if k == 0 then i else Prev(PrevTimes(i, n, k - 1), n)
  }

  /** Below the last slide, `k` presses of "next" climb `k` positions. */
  lemma {:induction false} NextTimesClimbs(i: nat, n: nat, k: nat)
    requires i + k < n
    ensures NextTimes(i, n, k) == i + k
  {
    if k > 0 {
      NextTimesClimbs(i, n, k - 1);
    }
  }

  /** `a + b` presses are `a` presses followed by `b` presses. */
  lemma {:induction false} NextTimesSplit(i: nat, n: nat, a: nat, b: nat)
    requires i < n
    ensures NextTimes(i, n, a + b) == NextTimes(NextTimes(i, n, a), n, b)
  {
    if b > 0 {
      NextTimesSplit(i, n, a, b - 1);
    }
  }

  /** `n` presses of "next" bring the carousel back to where it started. */
  lemma FullCycleNext(i: nat, n: nat)
    requires i < n
    ensures NextTimes(i, n, n) == i
  {
    var toLast := n - 1 - i;
    NextTimesClimbs(i, n, toLast);
    NextTimesSplit(i, n, toLast, 1 + i);
    NextTimesSplit(n - 1, n, 1, i);
    NextTimesClimbs(0, n, i);
  }

  /** "previous" pressed `k` times undoes "next" pressed `k` times. */
  lemma {:induction false} PrevTimesUndoesNextTimes(i: nat, n: nat, k: nat)
    requires i < n
    ensures PrevTimes(NextTimes(i, n, k), n, k) == i
  {
    if k > 0 {
      var j := NextTimes(i, n, k - 1);
      PrevTimesPeel(Next(j, n), n, k - 1);
      PrevAfterNext(j, n);
      PrevTimesUndoesNextTimes(i, n, k - 1);
    }
  }

  /** `PrevTimes` may take its first step before the others. */
  lemma {:induction false} PrevTimesPeel(i: nat, n: nat, k: nat)
    requires i < n
    ensures PrevTimes(i, n, k + 1) == PrevTimes(Prev(i, n), n, k)
  {
    if k > 0 {
      PrevTimesPeel(i, n, k - 1);
    }
  }

  /** The dot row: entry `index` is true when dot `index` is rendered active (`index === current`). */
  function DotStates(n: nat, current: nat): (r: seq<bool>)
    ensures |r| == n
  {
    if n == 0 then [] else DotStates(n - 1, current) + [n - 1 == current]
  }

  /** With `current < n`, exactly one dot is active, and it is dot `current`. */
  lemma {:induction false} ExactlyOneDotActive(n: nat, current: nat)
    requires current < n
    ensures CountTrue(DotStates(n, current)) == 1
    ensures DotStates(n, current)[current]
  {
    DotCount(n, current);
    DotAt(n, current, current);
  }

  lemma {:induction false} DotCount(n: nat, current: nat)
    ensures CountTrue(DotStates(n, current)) == if current < n then 1 else 0
  {
    if n > 0 {
      DotCount(n - 1, current);
      CountTrueAppend(DotStates(n - 1, current), n - 1 == current);
    }
  }

  lemma {:induction false} DotAt(n: nat, current: nat, index: nat)
    requires index < n
    ensures DotStates(n, current)[index] == (index == current)
  {
    if index < n - 1 {
      DotAt(n - 1, current, index);
    }
  }
}

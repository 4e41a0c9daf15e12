/**
 * The peak-bin search: an arg-max over the magnitudes of bins
 * 1 .. WINDOW_SIZE/2 - 1 written with Iterator::max_by, which keeps the LAST
 * of several equal maxima, and falls back to bin 0 when that range is empty.
 */
module PeakSearch {
  import opened Config

  /** One past the last bin searched: `take(WINDOW_SIZE / 2)` of the spectrum. */
  function SearchEnd(mags: seq<real>): (e: nat)
    ensures e <= |mags| && e <= WINDOW_SIZE / 2
    ensures e == |mags| || e == WINDOW_SIZE / 2
  {
    Min(|mags|, WINDOW_SIZE / 2)
  }

  /**
   * `i` is the greatest index in [lo, end) holding the maximum magnitude:
   * nothing in the range exceeds it and everything after it is strictly smaller.
   */
  ghost predicate IsLastMax(mags: seq<real>, lo: nat, end: nat, i: nat) {
    && lo <= i < end <= |mags|
    && (forall k :: lo <= k < end ==> mags[k] <= mags[i])
    && (forall k :: i < k < end ==> mags[k] < mags[i])
  }

  /**
   * The left fold behind `max_by`: the accumulator `acc` is replaced by the
   * next element `j` unless it compares strictly greater.
   */
  function MaxByFrom(mags: seq<real>, acc: nat, j: nat, end: nat): (r: nat)
    requires 1 <= acc < j <= end <= |mags|
    requires IsLastMax(mags, 1, j, acc)
    ensures IsLastMax(mags, 1, end, r)
    decreases end - j
  {
    if j == end then acc
    else MaxByFrom(mags, if mags[acc] > mags[j] then acc else j, j + 1, end)
  }

  /** The bin chosen as the spectral peak. */
  function PeakBin(mags: seq<real>): (i: nat)
    ensures SearchEnd(mags) <= 1 ==> i == 0
    ensures SearchEnd(mags) > 1 ==> IsLastMax(mags, 1, SearchEnd(mags), i)
  {
    var end := SearchEnd(mags);
    if end <= 1 then 0 else MaxByFrom(mags, 1, 2, end)
  }

  /** The last maximum of a range is unique, so PeakBin is the only index with that property. */
  lemma PeakBinIsUnique(mags: seq<real>, i: nat)
    requires IsLastMax(mags, 1, SearchEnd(mags), i)
    ensures PeakBin(mags) == i
  {
  }

  /** On a tie for the maximum, the later bin wins. */
  lemma PeakBinLastWins(mags: seq<real>, a: nat, b: nat)
    requires 1 <= a < b < SearchEnd(mags)
    requires mags[a] == mags[b]
    requires forall k :: 1 <= k < SearchEnd(mags) ==> mags[k] <= mags[a]
    ensures PeakBin(mags) != a
    ensures PeakBin(mags) >= b
  {
  }

  /** Bin 0 (the DC component) is chosen only when no other bin is searched. */
  lemma PeakBinSkipsDc(mags: seq<real>)
    ensures PeakBin(mags) == 0 <==> |mags| <= 1
  {
  }

  /** A concrete tie: of the equal maxima at bins 1 and 2, bin 2 is reported; bin 0 is ignored. */
  lemma PeakBinExample()
    ensures PeakBin([9.0, 5.0, 5.0, 1.0]) == 2
  {
    PeakBinIsUnique([9.0, 5.0, 5.0, 1.0], 2);
  }
}

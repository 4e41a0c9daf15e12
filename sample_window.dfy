/**
 * The sliding window of recent samples kept by the audio loop (a VecDeque
 * used as a FIFO): the non-blocking drain, the single blocking top-up while
 * the window is filling, and the hop that discards the oldest samples after
 * an analysis cycle.
 */
module SampleWindow {
  import opened Config

  /** The newest `n` elements of `s` (all of `s` when it is shorter), oldest first. */
  function Latest<T>(s: seq<T>, n: nat): (r: seq<T>)
    ensures |r| <= n && |r| <= |s|
    ensures |r| < n ==> r == s
  {
    s[|s| - Min(|s|, n)..]
  }

  /** The newest elements are what is left after dropping the oldest ones, in the same order. */
  lemma LatestIsSuffix<T>(s: seq<T>, n: nat)
    ensures s == s[..|s| - |Latest(s, n)|] + Latest(s, n)
  {
  }

  /** The ring buffer of the audio loop; only the loop owns and mutates it. */
  class RingBuffer {
    var samples: seq<Sample>

    /** The drain step never lets the window grow beyond WINDOW_SIZE. */
    ghost predicate Valid()
      reads this
    {
      |samples| <= WINDOW_SIZE
    }

    /** VecDeque::with_capacity(WINDOW_SIZE): an empty window. */
    constructor ()
      ensures Valid() && samples == []
    {
      samples := [];
    }

    function Len(): nat
      reads this
    {
      |samples|
    }

    method PushBack(x: Sample)
      modifies this
      ensures samples == old(samples) + [x]
    {
      samples := samples + [x];
    }

    /** pop_front: removes the oldest sample; on an empty deque it does nothing. */
    method PopFront()
      modifies this
      ensures old(samples) == [] ==> samples == []
      ensures old(samples) != [] ==> samples == old(samples)[1..]
    {
      if samples != [] {
        samples := samples[1..];
      }
    }

    /**
     * The non-blocking drain: every pending sample is pushed to the back and
     * the front is popped whenever the length would exceed WINDOW_SIZE.
     */
    method Drain(pending: seq<Sample>)
      requires Valid()
      modifies this
      ensures Valid()
      ensures samples == Latest(old(samples) + pending, WINDOW_SIZE)
    {
      ghost var stream := old(samples) + pending;
      ghost var base := |old(samples)|;
      var i := 0;
      while i < |pending|
        invariant 0 <= i <= |pending|
        invariant samples == stream[base + i - Min(base + i, WINDOW_SIZE)..base + i]
      {
        ghost var lo := base + i - Min(base + i, WINDOW_SIZE);
        assert stream[base + i] == pending[i];
        PushBack(pending[i]);
        assert samples == stream[lo..base + i + 1];
        if Len() > WINDOW_SIZE {
          PopFront();
          assert samples == stream[lo + 1..base + i + 1];
        }
        i := i + 1;
      }
    }

    /**
     * While the window is short, wait for one more sample (`next` is what the
     * blocking receive yields, None when the channel is closed) and report
     * that no analysis happens this time round.
     */
    method TopUp(next: Option<Sample>) returns (full: bool)
      requires Valid()
      modifies this
      ensures Valid()
      ensures full <==> |old(samples)| == WINDOW_SIZE
      ensures full ==> samples == old(samples)
      ensures !full ==> samples == old(samples) + ToSeq(next)
    {
      if Len() < WINDOW_SIZE {
        match next {
          case Some(x) => PushBack(x);
          case None =>
        }
        return false;
      }
      return true;
    }

    /** After an analysis cycle: drop the HOP_SIZE oldest samples of a full window. */
    method Hop()
      requires Valid()
      modifies this
      ensures Valid()
      ensures |old(samples)| >= WINDOW_SIZE ==> samples == old(samples)[HOP_SIZE..]
      ensures |old(samples)| < WINDOW_SIZE ==> samples == old(samples)
    {
      if Len() >= WINDOW_SIZE {
        for i := 0 to HOP_SIZE
          invariant samples == old(samples)[i..]
        {
          PopFront();
        }
      }
    }
  }

  /**
   * The window after a completed cycle holds WINDOW_SIZE - HOP_SIZE samples,
   * the newest ones of the analysed frame, in the same order.
   */
  lemma HopKeepsOverlap(frame: seq<Sample>)
    requires |frame| == WINDOW_SIZE
    ensures |frame[HOP_SIZE..]| == WINDOW_SIZE - HOP_SIZE
    ensures frame[HOP_SIZE..] == Latest(frame, WINDOW_SIZE - HOP_SIZE)
    ensures forall k :: 0 <= k < WINDOW_SIZE - HOP_SIZE ==> frame[HOP_SIZE..][k] == frame[k + HOP_SIZE]
  {
  }
}

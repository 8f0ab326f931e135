/** Sliding windows: what a deque of admission times, trimmed at its old end, guarantees about the whole
    history of admissions. */
module Windows {
  predicate Ordered(times: seq<real>) {
    forall i, j :: 0 <= i < j < |times| ==> times[i] <= times[j]
  }

  /** What is left of a bucket once everything older than the edge is dropped from its front. */
  function Evict(bucket: seq<real>, edge: real): seq<real> {
    if bucket != [] && bucket[0] < edge then Evict(bucket[1..], edge) else bucket
  }

  /** Any `limit + 1` consecutive admissions are more than one width apart. */
  predicate Spaced(times: seq<real>, width: real, limit: nat) {
    forall i :: limit <= i < |times| ==> times[i - limit] < times[i] - width
  }

  /** The deque is the recent end of the history; what was dropped is older than one width. */
  ghost predicate Tracks(bucket: seq<real>, times: seq<real>, now: real, width: real, limit: nat) {
    && |bucket| <= limit && |bucket| <= |times|
    && bucket == times[|times| - |bucket|..]
    && Ordered(times) && Spaced(times, width, limit)
    && (forall i :: 0 <= i < |times| ==> times[i] <= now)
    && (forall i :: 0 <= i < |times| - |bucket| ==> times[i] < now - width)
  }

  /** Admissions in a closed window. */
  function InWindow(times: seq<real>, from: real, to: real): set<int> {
    set i | 0 <= i < |times| && from <= times[i] <= to
  }

  /** Trimming drops a prefix, and only what is older than the edge. */
  lemma {:induction false} EvictDrops(bucket: seq<real>, edge: real)
    ensures var b := Evict(bucket, edge);
            && |b| <= |bucket| && b == bucket[|bucket| - |b|..]
            && (b != [] ==> b[0] >= edge)
            && forall i :: 0 <= i < |bucket| - |b| ==> bucket[i] < edge
    decreases |bucket|
  {
    if bucket != [] && bucket[0] < edge {
      EvictDrops(bucket[1..], edge);
    }
  }

  lemma EvictTracks(bucket: seq<real>, times: seq<real>, now: real, width: real, limit: nat)
    requires Tracks(bucket, times, now, width, limit)
    ensures Tracks(Evict(bucket, now - width), times, now, width, limit)
  {
    EvictDrops(bucket, now - width);
    var b := Evict(bucket, now - width);
    var k := |times| - |bucket|;
    assert forall i :: 0 <= i < |bucket| ==> bucket[i] == times[k + i];
    forall i | 0 <= i < |times| - |b| ensures times[i] < now - width {
      if k <= i {
        assert bucket[i - k] == times[i];
      }
    }
  }

  lemma AdmitTracks(bucket: seq<real>, times: seq<real>, now: real, width: real, limit: nat)
    requires Tracks(bucket, times, now, width, limit) && |bucket| < limit
    ensures Tracks(bucket + [now], times + [now], now, width, limit)
  {
    var all := times + [now];
    assert bucket + [now] == all[|all| - |bucket| - 1..];
    forall i | limit <= i < |all| ensures all[i - limit] < all[i] - width {
      if i < |times| {
        assert times[i - limit] < times[i] - width;
      }
    }
  }

  lemma LaterTracks(bucket: seq<real>, times: seq<real>, now: real, later: real, width: real, limit: nat)
    requires Tracks(bucket, times, now, width, limit) && now <= later
    ensures Tracks(bucket, times, later, width, limit)
  {
  }

  function Range(lo: int, hi: int): (r: set<int>)
    ensures |r| == (if lo < hi then hi - lo else 0)
    ensures forall i :: i in r <==> lo <= i < hi
    decreases hi - lo
  {
    if lo < hi then Range(lo, hi - 1) + {hi - 1} else {}
  }

  lemma SubsetSize(s: set<int>, t: set<int>)
    requires s <= t
    ensures |s| <= |t|
  {
    assert t == s + (t - s);
  }

  /** The last admission not after `to`, or -1. */
  function LastUpTo(times: seq<real>, to: real): (last: int)
    ensures -1 <= last < |times|
    ensures last >= 0 ==> times[last] <= to
    ensures forall i :: last < i < |times| ==> times[i] > to
  {
    if times == [] then -1
    else if times[|times| - 1] <= to then |times| - 1
    else LastUpTo(times[..|times| - 1], to)
  }

  /** A spaced history never has more than `limit` admissions in any closed window of the width. */
  lemma WindowBound(times: seq<real>, width: real, limit: nat, from: real)
    requires Ordered(times) && Spaced(times, width, limit)
    ensures |InWindow(times, from, from + width)| <= limit
  {
    var last := LastUpTo(times, from + width);
    if limit <= last {
      assert times[last - limit] < times[last] - width;
      forall i | 0 <= i <= last - limit ensures times[i] < from {
        assert i < last - limit ==> times[i] <= times[last - limit];
      }
    }
    SubsetSize(InWindow(times, from, from + width), Range(last - limit + 1, last + 1));
  }

  /** A trimmed deque is exactly the last closed window, so comparing its length with the limit refuses a call
      if and only if that window is full. */
  lemma TrimmedIsWindow(bucket: seq<real>, times: seq<real>, now: real, width: real, limit: nat)
    requires Tracks(bucket, times, now, width, limit)
    ensures |InWindow(times, now - width, now)| == |Evict(bucket, now - width)|
  {
    EvictTracks(bucket, times, now, width, limit);
    EvictDrops(bucket, now - width);
    var b := Evict(bucket, now - width);
    var lo := |times| - |b|;
    assert b != [] ==> b[0] == times[lo];
    forall i | lo <= i < |times| ensures now - width <= times[i] {
      assert lo < i ==> times[lo] <= times[i];
    }
    assert InWindow(times, now - width, now) == Range(lo, |times|);
  }
}

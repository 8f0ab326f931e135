/** Greedy packing of a sequence into contiguous chunks, for any length function, and why no other packing
    needs fewer chunks. A chunk is a single element, or leaves the reserve free. */
module Packing {
  const HEADER_RESERVE := 120

  function Total<T(!new)>(len: T -> nat, chunk: seq<T>): nat {
    if chunk == [] then 0 else Total(len, chunk[..|chunk| - 1]) + len(chunk[|chunk| - 1])
  }

  function Concat<T(!new)>(chunks: seq<seq<T>>): seq<T> {
    if chunks == [] then [] else Concat(chunks[..|chunks| - 1]) + chunks[|chunks| - 1]
  }

  /** A chunk is one line, or its lines fit beside the header. */
  ghost predicate Fits<T(!new)>(len: T -> nat, chunk: seq<T>, maxLen: int) {
    chunk != [] && (|chunk| == 1 || Total(len, chunk) + HEADER_RESERVE <= maxLen)
  }

  ghost predicate IsSplit<T(!new)>(len: T -> nat, chunks: seq<seq<T>>, items: seq<T>, maxLen: int) {
    Concat(chunks) == items && forall i :: 0 <= i < |chunks| ==> Fits(len, chunks[i], maxLen)
  }

  /** `chunks` is a split of the first `k` lines. */
  ghost predicate Reaches<T(!new)>(len: T -> nat, chunks: seq<seq<T>>, items: seq<T>, maxLen: int, k: int) {
    0 <= k <= |items| && IsSplit(len, chunks, items[..k], maxLen)
  }

  /** No split into at most `n` chunks gets past line `limit`. */
  ghost predicate Bounded<T(!new)>(len: T -> nat, items: seq<T>, maxLen: int, n: nat, limit: nat) {
    forall others, k :: Reaches(len, others, items, maxLen, k) && |others| <= n ==> k <= limit
  }

  lemma {:induction false} TotalAdds<T(!new)>(len: T -> nat, a: seq<T>, b: seq<T>)
    ensures Total(len, a + b) == Total(len, a) + Total(len, b)
    decreases |b|
  {
    if b == [] {
      assert a + b == a;
    } else {
      assert (a + b)[..|a + b| - 1] == a + b[..|b| - 1];
      TotalAdds(len, a, b[..|b| - 1]);
    }
  }

  lemma TotalGrows<T(!new)>(len: T -> nat, items: seq<T>, a: nat, b: nat, c: nat, d: nat)
    requires a <= b <= c <= d <= |items|
    ensures Total(len, items[b..c]) <= Total(len, items[a..d])
  {
    assert items[a..d] == items[a..b] + items[b..c] + items[c..d];
    TotalAdds(len, items[a..b] + items[b..c], items[c..d]);
    TotalAdds(len, items[a..b], items[b..c]);
  }

  lemma NothingReached<T(!new)>(len: T -> nat, items: seq<T>, maxLen: int)
    ensures Bounded(len, items, maxLen, 0, 0)
  {
    forall others, k | Reaches(len, others, items, maxLen, k) && |others| <= 0 ensures k <= 0 {
      assert others == [] && |items[..k]| == k;
    }
  }

  /** Taking the last chunk away leaves a split of the lines before it. */
  lemma DropLast<T(!new)>(len: T -> nat, others: seq<seq<T>>, items: seq<T>, maxLen: int, k: int) returns (j: int)
    requires Reaches(len, others, items, maxLen, k) && others != []
    ensures 0 <= j <= k && Reaches(len, others[..|others| - 1], items, maxLen, j)
    ensures items[j..k] == others[|others| - 1] && Fits(len, items[j..k], maxLen)
  {
    var front, last := others[..|others| - 1], others[|others| - 1];
    j := |Concat(front)|;
    assert items[..k] == Concat(front) + last;
    assert items[..j] == items[..k][..j] == Concat(front);
    assert items[j..k] == items[..k][j..] == last;
    forall m | 0 <= m < |front| ensures Fits(len, front[m], maxLen) {
      assert front[m] == others[m];
    }
    assert Fits(len, others[|others| - 1], maxLen);
  }

  lemma TooLong<T(!new)>(len: T -> nat, items: seq<T>, maxLen: int, j: int, start: nat, i: nat, k: int)
    requires 0 <= j <= start < i < k <= |items|
    requires Total(len, items[start..i + 1]) + HEADER_RESERVE > maxLen
    ensures !Fits(len, items[j..k], maxLen)
  {
    TotalGrows(len, items, j, start, i + 1, k);
  }

  /** If the lines from `start` to `i` are too long together, one more chunk does not get past line `i`. */
  lemma NextChunk<T(!new)>(len: T -> nat, items: seq<T>, maxLen: int, n: nat, start: nat, i: nat)
    requires Bounded(len, items, maxLen, n, start) && start < i < |items|
    requires Total(len, items[start..i + 1]) + HEADER_RESERVE > maxLen
    ensures Bounded(len, items, maxLen, n + 1, i)
  {
    NothingReached(len, items, maxLen);
    forall others, k | Reaches(len, others, items, maxLen, k) && |others| <= n + 1 ensures k <= i {
      if others != [] {
        var j := DropLast(len, others, items, maxLen, k);
        assert j <= start;
        if i < k {
          TooLong(len, items, maxLen, j, start, i, k);
        }
      }
    }
  }

  // ----- The packing loop, step by step -----

  lemma SplitGrows<T(!new)>(len: T -> nat, chunks: seq<seq<T>>, items: seq<T>, maxLen: int, start: nat, i: nat)
    requires start <= i <= |items| && IsSplit(len, chunks, items[..start], maxLen)
    requires Fits(len, items[start..i], maxLen)
    ensures IsSplit(len, chunks + [items[start..i]], items[..i], maxLen)
  {
    var more := chunks + [items[start..i]];
    assert more[..|chunks|] == chunks;
    assert items[..start] + items[start..i] == items[..i];
  }

  /** After `i` lines: the closed chunks split the lines before `start` as cheaply as possible, and the open
      chunk holds the rest. */
  ghost predicate Packed<T(!new)>(len: T -> nat, items: seq<T>, maxLen: int, chunks: seq<seq<T>>,
                                  current: seq<T>, start: nat, i: nat) {
    && start <= i <= |items| && current == items[start..i] && (i > 0 ==> start < i)
    && IsSplit(len, chunks, items[..start], maxLen)
    && (current != [] ==> Fits(len, current, maxLen))
    && Bounded(len, items, maxLen, |chunks|, start)
  }

  lemma AddLine<T(!new)>(len: T -> nat, items: seq<T>, maxLen: int, chunks: seq<seq<T>>,
                    current: seq<T>, start: nat, i: nat)
    requires Packed(len, items, maxLen, chunks, current, start, i) && i < |items|
    requires current == [] || Total(len, current + [items[i]]) + HEADER_RESERVE <= maxLen
    ensures Packed(len, items, maxLen, chunks, current + [items[i]], start, i + 1)
  {
    var more := current + [items[i]];
    assert more == items[start..i + 1];
    assert Fits(len, more, maxLen);
  }

  lemma CloseChunk<T(!new)>(len: T -> nat, items: seq<T>, maxLen: int, chunks: seq<seq<T>>,
                       current: seq<T>, start: nat, i: nat)
    requires Packed(len, items, maxLen, chunks, current, start, i) && i < |items| && current != []
    requires Total(len, current + [items[i]]) + HEADER_RESERVE > maxLen
    ensures Packed(len, items, maxLen, chunks + [current], [items[i]], i, i + 1)
  {
    assert items[start..i + 1] == current + [items[i]] && items[i..i + 1] == [items[i]];
    NextChunk(len, items, maxLen, |chunks|, start, i);
    SplitGrows(len, chunks, items, maxLen, start, i);
  }

  lemma Cheapest<T(!new)>(len: T -> nat, items: seq<T>, maxLen: int, chunks: seq<seq<T>>, current: seq<T>, start: nat)
    requires Packed(len, items, maxLen, chunks, current, start, |items|)
    ensures var all := if current == [] then chunks else chunks + [current];
            && IsSplit(len, all, items, maxLen)
            && forall others :: IsSplit(len, others, items, maxLen) ==> |all| <= |others|
  {
    assert items[..|items|] == items;
    if current != [] {
      SplitGrows(len, chunks, items, maxLen, start, |items|);
    }
    forall others | IsSplit(len, others, items, maxLen)
      ensures |if current == [] then chunks else chunks + [current]| <= |others|
    {
      assert Reaches(len, others, items, maxLen, |items|);
    }
  }

  lemma TotalSnoc<T(!new)>(len: T -> nat, chunk: seq<T>, item: T)
    ensures Total(len, chunk + [item]) == Total(len, chunk) + len(item)
  {
    assert (chunk + [item])[..|chunk|] == chunk;
  }
}

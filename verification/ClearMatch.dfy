/** Choosing a request by score: the best one wins when it is good enough and far enough ahead of the next. */
module ClearMatch {
  import opened Wrappers
  import opened Ordering
  import opened ProductMatch

  /** The two ways to score and sort: attributes plus text overlap, lower id first among equals; or attributes
      only, in the order the candidates came. */
  datatype Route = ByText | ByAttrs

  function Total(m: Attrs, r: Request, route: Route): int {
    MatchScore(m, r) + if route.ByText? then r.overlap else 0
  }

  /** The text route adds what the texts share, point for point; the attribute route ignores it. */
  lemma OverlapAdds(m: Attrs, r: Request, more: nat)
    ensures Total(m, r.(overlap := 0), ByText) == Total(m, r, ByAttrs) == MatchScore(m, r)
    ensures Total(m, r.(overlap := r.overlap + more), ByText) == Total(m, r, ByText) + more
    ensures Total(m, r.(overlap := r.overlap + more), ByAttrs) == Total(m, r, ByAttrs)
  {
  }

  function RouteKey(m: Attrs, r: Request, route: Route): Key {
    Key(-Total(m, r, route), if route.ByText? then r.id else 0, 0)
  }

  function Scored(m: Attrs, candidates: seq<Request>, route: Route): (s: seq<Keyed<Request>>)
    ensures forall x :: x in s <==>
                x.item in candidates && MatchScore(m, x.item) >= 0 && x.key == RouteKey(m, x.item, route)
    decreases |candidates|
  {
    if candidates == [] then []
    else
      var n := |candidates| - 1;
      assert candidates == candidates[..n] + [candidates[n]];
      var rest, r := Scored(m, candidates[..n], route), candidates[n];
      if MatchScore(m, r) >= 0 then rest + [Keyed(RouteKey(m, r, route), r)] else rest
  }

  function Second(s: seq<Keyed<Request>>): int {
    if |s| > 1 then -s[1].key.a else -1
  }

  function ClearTop(s: seq<Keyed<Request>>, minScore: int, minMargin: int): Option<Request> {
    if s != [] && -s[0].key.a >= minScore && -s[0].key.a - Second(s) >= minMargin then Some(s[0].item) else None
  }

  function BestMatch(m: Attrs, candidates: seq<Request>, route: Route, minScore: int, minMargin: int): Option<Request> {
    ClearTop(Sort(Scored(m, candidates, route)), minScore, minMargin)
  }

  /** Score the candidates one by one, sort, and compare the first two. */
  method FindBestMatch(m: Attrs, candidates: seq<Request>, route: Route, minScore: int, minMargin: int)
      returns (best: Option<Request>)
    ensures best == BestMatch(m, candidates, route, minScore, minMargin)
  {
    var scored: seq<Keyed<Request>> := [];
    for k := 0 to |candidates|
      invariant scored == Scored(m, candidates[..k], route)
    {
      assert candidates[..k + 1][..k] == candidates[..k];
      var score := AttrsMatchScore(m, candidates[k]);
      if score >= 0 {
        if route.ByText? {
          score := score + candidates[k].overlap;
        }
        scored := scored + [Keyed(Key(-score, if route.ByText? then candidates[k].id else 0, 0), candidates[k])];
      }
    }
    assert candidates[..|candidates|] == candidates;
    if scored == [] {
      return None;
    }
    SortSorts(scored);
    scored := Sort(scored);
    var topScore := -scored[0].key.a;
    var secondScore := if |scored| > 1 then -scored[1].key.a else -1;
    if topScore >= minScore && topScore - secondScore >= minMargin {
      return Some(scored[0].item);
    }
    return None;
  }

  // ----- What the chosen request is -----

  /** `r` scores at least `minScore` and leads every other scored candidate, and the -1 a lone one is compared
      with, by at least `minMargin`. */
  ghost predicate ClearlyBest(m: Attrs, candidates: seq<Request>, route: Route, minScore: int,
                                minMargin: int, r: Request) {
    && r in candidates && MatchScore(m, r) >= 0
    && Total(m, r, route) >= minScore && Total(m, r, route) + 1 >= minMargin
    && forall o | o in candidates && o != r && MatchScore(m, o) >= 0 ::
         Total(m, r, route) - Total(m, o, route) >= minMargin
  }

  ghost predicate NoRepeats(candidates: seq<Request>) {
    forall i, j :: 0 <= i < j < |candidates| ==> candidates[i] != candidates[j]
  }

  /** A match is always a candidate that was not excluded and scores enough, and no candidate beats it. */
  lemma BestMatchIsBest(m: Attrs, candidates: seq<Request>, route: Route, minScore: int, minMargin: int)
    ensures var best := BestMatch(m, candidates, route, minScore, minMargin);
            best.Some? ==>
              && best.value in candidates && 0 <= MatchScore(m, best.value) && minScore <= Total(m, best.value, route)
              && forall o | o in candidates && MatchScore(m, o) >= 0 ::
                   Total(m, o, route) <= Total(m, best.value, route)
  {
    var scored := Scored(m, candidates, route);
    SortSorts(scored);
    if scored != [] {
      FirstIsLeast(scored);
      forall o | o in candidates && MatchScore(m, o) >= 0
        ensures Before(Sort(scored)[0].key, RouteKey(m, o, route))
      {
        assert Keyed(RouteKey(m, o, route), o) in scored;
      }
    }
  }

  lemma {:induction false} ScoredCount(m: Attrs, candidates: seq<Request>, route: Route, x: Keyed<Request>)
    ensures multiset(Scored(m, candidates, route))[x] ==
            if MatchScore(m, x.item) >= 0 && x.key == RouteKey(m, x.item, route)
            then multiset(candidates)[x.item] else 0
    decreases |candidates|
  {
    if candidates != [] {
      var n := |candidates| - 1;
      assert candidates == candidates[..n] + [candidates[n]];
      ScoredCount(m, candidates[..n], route, x);
    }
  }

  lemma {:induction false} OnceEach(candidates: seq<Request>, r: Request)
    requires NoRepeats(candidates)
    ensures multiset(candidates)[r] <= 1
    decreases |candidates|
  {
    if candidates != [] {
      var n := |candidates| - 1;
      assert candidates == candidates[..n] + [candidates[n]];
      OnceEach(candidates[..n], r);
      if r == candidates[n] {
        assert r !in candidates[..n];
      }
    }
  }

  lemma SecondIsOther(s: seq<Keyed<Request>>)
    requires |s| > 1 && multiset(s)[s[0]] == 1
    ensures s[1] != s[0]
  {
    assert s == [s[0], s[1]] + s[2..];
  }

  lemma MatchIsClear(m: Attrs, candidates: seq<Request>, route: Route, minScore: int, minMargin: int, r: Request)
    requires NoRepeats(candidates) && BestMatch(m, candidates, route, minScore, minMargin) == Some(r)
    ensures ClearlyBest(m, candidates, route, minScore, minMargin, r)
  {
    var scored := Scored(m, candidates, route);
    var s := Sort(scored);
    SortSorts(scored);
    assert s[0] in s;
    if |s| > 1 {
      assert s[1] in s;
    }
    forall o | o in candidates && o != r && MatchScore(m, o) >= 0
      ensures Total(m, r, route) - Total(m, o, route) >= minMargin
    {
      var x := Keyed(RouteKey(m, o, route), o);
      assert x in s && x != s[0];
      assert x in s[1..];
      HeadBefore(s[1..], x);
    }
  }

  lemma ClearIsMatch(m: Attrs, candidates: seq<Request>, route: Route, minScore: int, minMargin: int, r: Request)
    requires minMargin > 0 && NoRepeats(candidates) && ClearlyBest(m, candidates, route, minScore, minMargin, r)
    ensures BestMatch(m, candidates, route, minScore, minMargin) == Some(r)
  {
    var scored := Scored(m, candidates, route);
    var s := Sort(scored);
    SortSorts(scored);
    var x := Keyed(RouteKey(m, r, route), r);
    assert x in s && s[0] in s;
    HeadBefore(s, x);
    if |s| > 1 {
      assert s[1] in s;
      ScoredCount(m, candidates, route, s[0]);
      OnceEach(candidates, s[0].item);
      SecondIsOther(s);
    }
  }

  /** With a positive margin the match is exactly the request that is clearly best, wherever it stands. */
  lemma BestMatchIsClear(m: Attrs, candidates: seq<Request>, route: Route, minScore: int, minMargin: int, r: Request)
    requires minMargin > 0 && NoRepeats(candidates)
    ensures BestMatch(m, candidates, route, minScore, minMargin) == Some(r) <==>
            ClearlyBest(m, candidates, route, minScore, minMargin, r)
  {
    if BestMatch(m, candidates, route, minScore, minMargin) == Some(r) {
      MatchIsClear(m, candidates, route, minScore, minMargin, r);
    } else if ClearlyBest(m, candidates, route, minScore, minMargin, r) {
      ClearIsMatch(m, candidates, route, minScore, minMargin, r);
    }
  }

  // ----- Exactly which request is chosen -----

  /** Candidate `i` comes before candidate `j`: by score, then, for the text route, by id, then as listed. */
  predicate Ahead(m: Attrs, candidates: seq<Request>, route: Route, i: nat, j: nat)
    requires i < |candidates| && j < |candidates|
  {
    var mine, other := Total(m, candidates[i], route), Total(m, candidates[j], route);
    || mine > other
    || (mine == other && route.ByText?
        && (candidates[i].id < candidates[j].id || (candidates[i].id == candidates[j].id && i < j)))
    || (mine == other && route.ByAttrs? && i < j)
  }

  /** Not excluded, good enough, and ahead of every other candidate that is not excluded, by the margin; alone, it is
      compared with -1. */
  ghost predicate Leads(m: Attrs, candidates: seq<Request>, route: Route, minScore: int, minMargin: int, i: nat) {
    && i < |candidates| && MatchScore(m, candidates[i]) >= 0
    && Total(m, candidates[i], route) >= minScore && Total(m, candidates[i], route) + 1 >= minMargin
    && forall j: nat | j < |candidates| && j != i && MatchScore(m, candidates[j]) >= 0 ::
         && Ahead(m, candidates, route, i, j)
         && Total(m, candidates[i], route) - Total(m, candidates[j], route) >= minMargin
  }

  /** Where candidate `i` is found among the scored ones. */
  function Pos(m: Attrs, candidates: seq<Request>, route: Route, i: nat): nat
    requires i <= |candidates|
  {
    |Scored(m, candidates[..i], route)|
  }

  lemma ScoredNext(m: Attrs, candidates: seq<Request>, route: Route, n: nat)
    requires n < |candidates|
    ensures Scored(m, candidates[..n + 1], route) == Scored(m, candidates[..n], route)
              + (if MatchScore(m, candidates[n]) >= 0 then [Keyed(RouteKey(m, candidates[n], route), candidates[n])]
                 else [])
  {
    assert candidates[..n + 1][..n] == candidates[..n];
  }

  lemma PosNext(m: Attrs, candidates: seq<Request>, route: Route, i: nat)
    requires i < |candidates|
    ensures Pos(m, candidates, route, i + 1)
            == Pos(m, candidates, route, i) + if MatchScore(m, candidates[i]) >= 0 then 1 else 0
  {
    ScoredNext(m, candidates, route, i);
  }

  lemma {:induction false} PosGrows(m: Attrs, candidates: seq<Request>, route: Route, i: nat, j: nat)
    requires i < j <= |candidates|
    ensures Pos(m, candidates, route, i) <= Pos(m, candidates, route, j)
    ensures MatchScore(m, candidates[i]) >= 0 ==> Pos(m, candidates, route, i) < Pos(m, candidates, route, j)
    decreases j - i
  {
    PosNext(m, candidates, route, j - 1);
    if i < j - 1 {
      PosGrows(m, candidates, route, i, j - 1);
    }
  }

  predicate Found(s: seq<Keyed<Request>>, p: nat, x: Keyed<Request>) {
    p < |s| && s[p] == x
  }

  lemma FoundStill(s: seq<Keyed<Request>>, more: seq<Keyed<Request>>, p: nat, x: Keyed<Request>)
    ensures Found(s, p, x) ==> Found(s + more, p, x)
    ensures p == |s| && more == [x] ==> Found(s + more, p, x)
  {
  }

  lemma {:induction false} PosAt(m: Attrs, candidates: seq<Request>, route: Route, i: nat, n: nat)
    requires i < n <= |candidates| && MatchScore(m, candidates[i]) >= 0
    ensures Found(Scored(m, candidates[..n], route), Pos(m, candidates, route, i),
                  Keyed(RouteKey(m, candidates[i], route), candidates[i]))
    decreases n
  {
    var s, more := Scored(m, candidates[..n - 1], route), Scored(m, candidates[..n], route);
    var x := Keyed(RouteKey(m, candidates[i], route), candidates[i]);
    ScoredNext(m, candidates, route, n - 1);
    var added := if MatchScore(m, candidates[n - 1]) >= 0
                 then [Keyed(RouteKey(m, candidates[n - 1], route), candidates[n - 1])] else [];
    assert more == s + added;
    if i < n - 1 {
      PosAt(m, candidates, route, i, n - 1);
    }
    FoundStill(s, added, Pos(m, candidates, route, i), x);
  }

  lemma {:induction false} PosOnto(m: Attrs, candidates: seq<Request>, route: Route, k: nat, n: nat) returns (i: nat)
    requires n <= |candidates| && k < |Scored(m, candidates[..n], route)|
    ensures i < n && MatchScore(m, candidates[i]) >= 0 && Pos(m, candidates, route, i) == k
    decreases n
  {
    assert n > 0;
    ScoredNext(m, candidates, route, n - 1);
    if k < |Scored(m, candidates[..n - 1], route)| {
      i := PosOnto(m, candidates, route, k, n - 1);
    } else {
      i := n - 1;
    }
  }

  /** The head of the sorted list and the score after it, in terms of the candidates. */
  lemma HeadAhead(m: Attrs, candidates: seq<Request>, route: Route) returns (i: nat)
    requires Scored(m, candidates, route) != []
    ensures var s := Sort(Scored(m, candidates, route));
            && i < |candidates| && MatchScore(m, candidates[i]) >= 0 && s != []
            && s[0] == Keyed(RouteKey(m, candidates[i], route), candidates[i])
            && (forall j: nat | j < |candidates| && j != i && MatchScore(m, candidates[j]) >= 0 ::
                  Ahead(m, candidates, route, i, j) && Second(s) >= Total(m, candidates[j], route))
            && (Second(s) == -1
                || exists j: nat :: j < |candidates| && j != i && MatchScore(m, candidates[j]) >= 0
                     && Second(s) == Total(m, candidates[j], route))
  {
    var n, scored := |candidates|, Scored(m, candidates, route);
    assert candidates[..n] == candidates;
    SortSorts(scored);
    var h := FirstOfLeast(scored);
    i := PosOnto(m, candidates, route, h, n);
    PosAt(m, candidates, route, i, n);
    var k := h;
    if |scored| > 1 {
      k := SecondOfRest(scored, h);
      var j := PosOnto(m, candidates, route, k, n);
      PosAt(m, candidates, route, j, n);
    }
    forall j: nat | j < n && j != i && MatchScore(m, candidates[j]) >= 0
      ensures Ahead(m, candidates, route, i, j)
              && Second(Sort(scored)) >= Total(m, candidates[j], route)
    {
      PosAt(m, candidates, route, j, n);
      PosGrows(m, candidates, route, if i < j then i else j, if i < j then j else i);
    }
  }

  lemma AheadOneWay(m: Attrs, candidates: seq<Request>, route: Route, i: nat, j: nat)
    requires i < |candidates| && j < |candidates| && i != j
    ensures !(Ahead(m, candidates, route, i, j) && Ahead(m, candidates, route, j, i))
  {
  }

  /** The match is exactly the request that leads, for any settings; without a leader there is none. */
  lemma MatchWhen(m: Attrs, candidates: seq<Request>, route: Route, minScore: int, minMargin: int, r: Request)
    ensures BestMatch(m, candidates, route, minScore, minMargin) == Some(r) <==>
            exists i: nat :: Leads(m, candidates, route, minScore, minMargin, i) && candidates[i] == r
  {
    var scored := Scored(m, candidates, route);
    if scored == [] {
      assert Sort(scored) == [];
      forall i: nat | i < |candidates| ensures MatchScore(m, candidates[i]) < 0 {
        assert candidates[i] in candidates;
        assert Keyed(RouteKey(m, candidates[i], route), candidates[i]) !in scored;
      }
    } else {
      var i := HeadAhead(m, candidates, route);
      forall k: nat | Leads(m, candidates, route, minScore, minMargin, k) ensures k == i {
        if k != i {
          AheadOneWay(m, candidates, route, i, k);
        }
      }
      HeadMatches(m, candidates, route, minScore, minMargin, i);
    }
  }

  lemma HeadMatches(m: Attrs, candidates: seq<Request>, route: Route, minScore: int, minMargin: int, i: nat)
    requires var s := Sort(Scored(m, candidates, route));
             && i < |candidates| && MatchScore(m, candidates[i]) >= 0 && s != []
             && s[0] == Keyed(RouteKey(m, candidates[i], route), candidates[i])
             && (forall j: nat | j < |candidates| && j != i && MatchScore(m, candidates[j]) >= 0 ::
                   Ahead(m, candidates, route, i, j) && Second(s) >= Total(m, candidates[j], route))
             && (Second(s) == -1
                 || exists j: nat :: j < |candidates| && j != i && MatchScore(m, candidates[j]) >= 0
                      && Second(s) == Total(m, candidates[j], route))
    ensures BestMatch(m, candidates, route, minScore, minMargin)
            == if Leads(m, candidates, route, minScore, minMargin, i) then Some(candidates[i]) else None
  {
  }

  // ----- The order of the candidates -----

  lemma ScoredSame(m: Attrs, candidates: seq<Request>, others: seq<Request>, route: Route)
    requires multiset(candidates) == multiset(others)
    ensures multiset(Scored(m, candidates, route)) == multiset(Scored(m, others, route))
  {
    forall x: Keyed<Request>
      ensures multiset(Scored(m, candidates, route))[x] == multiset(Scored(m, others, route))[x]
    {
      ScoredCount(m, candidates, route, x);
      ScoredCount(m, others, route, x);
    }
  }

  lemma SameHeadScore(s: seq<Keyed<Request>>, t: seq<Keyed<Request>>)
    requires Sorted(s) && Sorted(t) && multiset(s) == multiset(t) && s != [] && t != []
    ensures s[0].key.a == t[0].key.a
  {
    assert s[0] in multiset(t) && t[0] in multiset(s);
    HeadBefore(s, t[0]);
    HeadBefore(t, s[0]);
  }

  lemma ClearTopSame(s: seq<Keyed<Request>>, t: seq<Keyed<Request>>, minScore: int, minMargin: int)
    requires Sorted(s) && Sorted(t) && multiset(s) == multiset(t) && minMargin > 0
    requires ClearTop(s, minScore, minMargin).Some?
    ensures ClearTop(t, minScore, minMargin) == ClearTop(s, minScore, minMargin)
  {
    assert |multiset(s)| == |s| && |multiset(t)| == |t|;
    SameHeadScore(s, t);
    assert t[0] in multiset(s);
    assert t[0] == s[0] || t[0] in s[1..];
    if t[0] != s[0] {
      HeadBefore(s[1..], t[0]);
    }
    if |s| > 1 {
      TailMultiset(s);
      TailMultiset(t);
      SameHeadScore(s[1..], t[1..]);
    }
  }

  /** Only one request per id. */
  ghost predicate OnePerId(candidates: seq<Request>) {
    forall r, q | r in candidates && q in candidates && r.id == q.id :: r == q
  }

  /** The text match never depends on the order of the candidates. */
  lemma TextIgnoresOrder(m: Attrs, candidates: seq<Request>, others: seq<Request>, minScore: int, minMargin: int)
    requires multiset(candidates) == multiset(others) && OnePerId(candidates)
    ensures BestMatch(m, candidates, ByText, minScore, minMargin) == BestMatch(m, others, ByText, minScore, minMargin)
  {
    ScoredSame(m, candidates, others, ByText);
    SortIgnoresOrder(Scored(m, candidates, ByText), Scored(m, others, ByText));
  }

  /** Nor does the attribute match, when a positive margin is asked for or no score is high enough. */
  lemma AttrsIgnoreOrder(m: Attrs, candidates: seq<Request>, others: seq<Request>, minScore: int, minMargin: int)
    requires multiset(candidates) == multiset(others) && (minMargin > 0 || minScore > TOP_SCORE)
    ensures BestMatch(m, candidates, ByAttrs, minScore, minMargin) == BestMatch(m, others, ByAttrs, minScore, minMargin)
  {
    if minScore > TOP_SCORE {
      BestMatchIsBest(m, candidates, ByAttrs, minScore, minMargin);
      BestMatchIsBest(m, others, ByAttrs, minScore, minMargin);
    } else {
      var s, t := Scored(m, candidates, ByAttrs), Scored(m, others, ByAttrs);
      ScoredSame(m, candidates, others, ByAttrs);
      SortSorts(s);
      SortSorts(t);
      if ClearTop(Sort(s), minScore, minMargin).Some? {
        ClearTopSame(Sort(s), Sort(t), minScore, minMargin);
      } else if ClearTop(Sort(t), minScore, minMargin).Some? {
        ClearTopSame(Sort(t), Sort(s), minScore, minMargin);
      }
    }
  }

  /** Otherwise it does: of two requests both agreeing in everything, the one listed first is bound. */
  lemma FirstListedWins(m: Attrs, r: Request, q: Request, minScore: int, minMargin: int)
    requires minMargin <= 0 && minScore <= TOP_SCORE
    requires MatchScore(m, r) == TOP_SCORE && MatchScore(m, q) == TOP_SCORE
    ensures BestMatch(m, [r, q], ByAttrs, minScore, minMargin) == Some(r)
  {
    var x, y := Keyed(RouteKey(m, r, ByAttrs), r), Keyed(RouteKey(m, q, ByAttrs), q);
    assert [r, q][..1] == [r] && [r][..0] == [];
    assert Scored(m, [r], ByAttrs) == [x];
    assert Scored(m, [r, q], ByAttrs) == [x, y];
    assert [x, y][1..] == [y] && [y][1..] == [];
    assert Sort([y]) == [y];
    assert Sort([x, y]) == [x, y];
  }
}

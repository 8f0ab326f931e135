/** Asking a supplier which request a price belongs to: ranking the candidates, walking the list one refusal
    at a time, and binding at most once. */
module BindSession {
  import opened Wrappers
  import opened Ordering

  // ----- Ranking -----

  /** A candidate request with its attribute score (negative: excluded) and its text overlap. */
  datatype Candidate = Candidate(id: int, score: int, overlap: nat)

  function ScoreKeys(candidates: seq<Candidate>): (s: seq<Keyed<int>>)
    ensures forall x | x in s ::
              exists c :: c in candidates && c.score >= 0 && x == Keyed(Key(-(c.score + c.overlap), c.id, 0), c.id)
    ensures forall c | c in candidates && c.score >= 0 :: Keyed(Key(-(c.score + c.overlap), c.id, 0), c.id) in s
    ensures (exists c :: c in candidates && c.score >= 0) ==> s != []
  {
    if candidates == [] then []
    else
      var n := |candidates| - 1;
      assert candidates == candidates[..n] + [candidates[n]];
      var rest := ScoreKeys(candidates[..n]);
      var c := candidates[n];
      if c.score >= 0 then rest + [Keyed(Key(-(c.score + c.overlap), c.id, 0), c.id)] else rest
  }

  function IdKeys(candidates: seq<Candidate>): (s: seq<Keyed<int>>)
    ensures |s| == |candidates|
    ensures forall i :: 0 <= i < |s| ==> s[i] == Keyed(Key(candidates[i].id, 0, 0), candidates[i].id)
  {
    seq(|candidates|, i requires 0 <= i < |candidates| => Keyed(Key(candidates[i].id, 0, 0), candidates[i].id))
  }

  function Items(s: seq<Keyed<int>>): (ids: seq<int>)
    ensures |ids| == |s| && forall i :: 0 <= i < |s| ==> ids[i] == s[i].item
  {
    seq(|s|, i requires 0 <= i < |s| => s[i].item)
  }

  function SortKeys(candidates: seq<Candidate>): seq<Keyed<int>> {
    var scored := ScoreKeys(candidates);
    if scored == [] then IdKeys(candidates) else scored
  }

  /** Best score first, lower id first among equals; when every candidate is excluded, all of them by id. */
  function Rank(candidates: seq<Candidate>): seq<int> {
    Items(Sort(SortKeys(candidates)))
  }

  predicate UniqueIds(candidates: seq<Candidate>) {
    forall i, j :: 0 <= i < j < |candidates| ==> candidates[i].id != candidates[j].id
  }

  predicate AllExcluded(candidates: seq<Candidate>) {
    forall c :: c in candidates ==> c.score < 0
  }

  predicate Kept(candidates: seq<Candidate>, id: int) {
    exists c :: c in candidates && c.id == id && (c.score >= 0 || AllExcluded(candidates))
  }

  /** What a sort key says about its candidate. */
  predicate KeyOf(candidates: seq<Candidate>, x: Keyed<int>, c: Candidate) {
    && c in candidates && x.item == c.id
    && if AllExcluded(candidates) then x.key == Key(c.id, 0, 0)
       else c.score >= 0 && x.key == Key(-(c.score + c.overlap), c.id, 0)
  }

  lemma KeyHasCandidate(candidates: seq<Candidate>, x: Keyed<int>)
    requires x in SortKeys(candidates)
    ensures exists c :: KeyOf(candidates, x, c)
  {
    var scored, keys := ScoreKeys(candidates), IdKeys(candidates);
    if scored == [] {
      var j :| 0 <= j < |keys| && keys[j] == x;
      assert candidates[j] in candidates;
      assert forall c | c in candidates && c.score >= 0 :: Keyed(Key(-(c.score + c.overlap), c.id, 0), c.id) in scored;
      assert KeyOf(candidates, x, candidates[j]);
    } else {
      var c :| c in candidates && c.score >= 0 && x == Keyed(Key(-(c.score + c.overlap), c.id, 0), c.id);
      assert KeyOf(candidates, x, c);
    }
  }

  lemma KeptHasKey(candidates: seq<Candidate>, id: int)
    ensures Kept(candidates, id) <==> exists x :: x in SortKeys(candidates) && x.item == id
  {
    var scored, keys := ScoreKeys(candidates), IdKeys(candidates);
    if x :| x in SortKeys(candidates) && x.item == id {
      KeyHasCandidate(candidates, x);
    }
    if Kept(candidates, id) {
      var c :| c in candidates && c.id == id && (c.score >= 0 || AllExcluded(candidates));
      if scored == [] {
        var j :| 0 <= j < |candidates| && candidates[j] == c;
        assert keys[j] in keys && keys[j].item == id;
      } else {
        assert scored[0] in scored;
        assert Keyed(Key(-(c.score + c.overlap), c.id, 0), c.id) in scored;
      }
    }
  }

  /** The ranking keeps exactly the candidates that are not excluded, or all when all are. */
  lemma RankKeeps(candidates: seq<Candidate>, id: int)
    ensures id in Rank(candidates) <==> Kept(candidates, id)
    ensures candidates != [] ==> Rank(candidates) != []
  {
    var keys := SortKeys(candidates);
    SortSorts(keys);
    var sorted := Sort(keys);
    assert Rank(candidates) == Items(sorted);
    KeptHasKey(candidates, id);
    if id in Rank(candidates) {
      var i :| 0 <= i < |sorted| && Items(sorted)[i] == id;
      assert sorted[i] in sorted;
    }
    if x :| x in keys && x.item == id {
      assert x in sorted;
      var i :| 0 <= i < |sorted| && sorted[i] == x;
      assert Items(sorted)[i] == id;
    }
  }

  ghost predicate DistinctItems(s: seq<Keyed<int>>) {
    forall i, j :: 0 <= i < j < |s| ==> s[i].item != s[j].item
  }

  lemma {:induction false} InsertKeepsDistinct(x: Keyed<int>, s: seq<Keyed<int>>)
    requires DistinctItems(s) && forall i :: 0 <= i < |s| ==> s[i].item != x.item
    ensures DistinctItems(Insert(x, s))
  {
    if s != [] && !Before(x.key, s[0].key) {
      InsertKeepsDistinct(x, s[1..]);
      var rest := Insert(x, s[1..]);
      forall j | 0 <= j < |rest| ensures rest[j].item != s[0].item {
        InsertAdds(x, s[1..]);
        assert rest[j] in rest;
      }
    }
  }

  lemma {:induction false} SortKeepsDistinct(s: seq<Keyed<int>>)
    requires DistinctItems(s)
    ensures DistinctItems(Sort(s))
  {
    if s != [] {
      SortKeepsDistinct(s[1..]);
      SortSorts(s[1..]);
      var rest := Sort(s[1..]);
      forall i | 0 <= i < |rest| ensures rest[i].item != s[0].item {
        assert rest[i] in rest;
      }
      InsertKeepsDistinct(s[0], rest);
    }
  }

  lemma {:induction false} ScoreKeysDistinct(candidates: seq<Candidate>)
    requires UniqueIds(candidates)
    ensures DistinctItems(ScoreKeys(candidates))
    decreases |candidates|
  {
    if candidates != [] {
      var n := |candidates| - 1;
      ScoreKeysDistinct(candidates[..n]);
      var rest := ScoreKeys(candidates[..n]);
      forall i | 0 <= i < |rest| ensures rest[i].item != candidates[n].id {
        assert rest[i] in rest;
      }
    }
  }

  /** Different candidates are ranked apart: no id is listed twice. */
  lemma RankDistinct(candidates: seq<Candidate>)
    requires UniqueIds(candidates)
    ensures DistinctIds(Rank(candidates))
  {
    ScoreKeysDistinct(candidates);
    SortKeepsDistinct(SortKeys(candidates));
  }

  predicate AskedBefore(candidates: seq<Candidate>, c: Candidate, d: Candidate) {
    && c in candidates && d in candidates
    && if AllExcluded(candidates) then c.id < d.id
       else c.score >= 0 && d.score >= 0
            && (c.score + c.overlap > d.score + d.overlap
                || (c.score + c.overlap == d.score + d.overlap && c.id < d.id))
  }

  /** It runs from best to worst: by score and overlap, then by id. */
  lemma RankOrders(candidates: seq<Candidate>, i: nat, j: nat)
    requires UniqueIds(candidates) && i < j < |Rank(candidates)|
    ensures exists c, d :: AskedBefore(candidates, c, d) && c.id == Rank(candidates)[i] && d.id == Rank(candidates)[j]
  {
    var keys := SortKeys(candidates);
    SortSorts(keys);
    var sorted := Sort(keys);
    assert sorted[i] in sorted && sorted[j] in sorted;
    SortedAt(sorted, i, j);
    RankDistinct(candidates);
    KeyHasCandidate(candidates, sorted[i]);
    KeyHasCandidate(candidates, sorted[j]);
    var c :| KeyOf(candidates, sorted[i], c);
    var d :| KeyOf(candidates, sorted[j], d);
    assert AskedBefore(candidates, c, d);
  }

  lemma {:induction false} SortedAt(s: seq<Keyed<int>>, i: nat, j: nat)
    requires Sorted(s) && i < j < |s|
    ensures Before(s[i].key, s[j].key)
    decreases i
  {
    if i == 0 {
      assert s[j] in s[1..];
    } else {
      SortedAt(s[1..], i - 1, j - 1);
    }
  }

  // ----- One session -----

  datatype Status = Pending | Resolved | Ignored | Expired | Cancelled

  datatype Session = Session(
    supplier: int, chat: int, route: string, message: int,    // empty route: no business connection
    candidates: seq<int>, current: Option<int>, status: Status, resolved: Option<int>, expiresAt: int)

  datatype ResolveResult =
    | Ok | NotFound | Forbidden | SessionExpired | AlreadyResolved | InvalidCandidate | NotPending

  /** The inbound message: the request it is bound to, if any. */
  datatype MessageIn = MessageIn(boundTo: Option<int>)

  /** What a resolve attempt finds around the session. */
  datatype Attempt = Attempt(
    request: int, supplier: int, chat: int, route: string, now: int,
    message: Option<MessageIn>,
    bindable: Option<bool>)       // None: the request does not exist; false: it is closed or cancelled

  datatype Step = Resolve(a: Attempt) | Cancel | Sweep(now: int) | No | Other

  function Open(supplier: int, chat: int, route: string, message: int, ranked: seq<int>, expiresAt: int): Session
    requires ranked != []
  {
    Session(supplier, chat, route, message, ranked, Some(ranked[0]), Pending, None, expiresAt)
  }

  function ResolveStep(s: Session, a: Attempt): (Session, ResolveResult) {
    if s.supplier != a.supplier then (s, Forbidden)
    else if s.chat != a.chat || s.route != a.route then (s, Forbidden)
    else if s.status != Pending then
      (s, if s.status == Resolved && s.resolved == Some(a.request) then AlreadyResolved else NotPending)
    else if s.expiresAt < a.now then (s.(status := Expired), SessionExpired)
    else if a.request !in s.candidates then (s, InvalidCandidate)
    else if a.message.None? then (s, NotFound)
    else if a.message.value.boundTo == Some(a.request) then
      (s.(status := Resolved, resolved := Some(a.request)), AlreadyResolved)
    else if a.bindable != Some(true) then (s, InvalidCandidate)
    else (s.(status := Resolved, resolved := Some(a.request)), Ok)
  }

  function Filter(ids: seq<int>, out: int): (kept: seq<int>)
    ensures forall x :: x in kept <==> x in ids && x != out
    ensures |kept| <= |ids|
  {
    if ids == [] then [] else (if ids[0] == out then [] else [ids[0]]) + Filter(ids[1..], out)
  }

  /** A "no": drop the presented candidate and present the next one, or give up. */
  function AdvanceStep(s: Session): Session {
    var left := if s.current.Some? && s.current.value in s.candidates then Filter(s.candidates, s.current.value)
                else s.candidates;
    if left == [] then s.(status := Ignored)
    else s.(current := Some(left[0]), candidates := left)
  }

  function Apply(s: Session, step: Step): Session {
    match step
    case Resolve(a) => ResolveStep(s, a).0
    case Cancel => if s.status == Pending then s.(status := Cancelled) else s
    case Sweep(now) => if s.status == Pending && s.expiresAt < now then s.(status := Expired) else s
    case No => if s.status == Pending then AdvanceStep(s) else s
    case Other => if s.status == Pending then s.(status := Ignored) else s
  }

  function Exec(s: Session, steps: seq<Step>): Session
    decreases |steps|
  {
    if steps == [] then s else Exec(Apply(s, steps[0]), steps[1..])
  }

  /** Refusals that counted, and resolve attempts answered with `Ok`, along a run. */
  function Noes(s: Session, steps: seq<Step>): nat
    decreases |steps|
  {
    if steps == [] then 0
    else (if steps[0].No? && s.status == Pending then 1 else 0) + Noes(Apply(s, steps[0]), steps[1..])
  }

  function Oks(s: Session, steps: seq<Step>): nat
    decreases |steps|
  {
    if steps == [] then 0
    else (if steps[0].Resolve? && ResolveStep(s, steps[0].a).1 == Ok then 1 else 0)
          + Oks(Apply(s, steps[0]), steps[1..])
  }

  // ----- The walk down the ranking -----

  predicate DistinctIds(ids: seq<int>) {
    forall i, j :: 0 <= i < j < |ids| ==> ids[i] != ids[j]
  }

  /** After `k` refusals: the list is what is left of the ranking and its head is being presented; anything
      bound comes from there. */
  predicate Walked(s: Session, ranked: seq<int>, k: nat) {
    && (s.status == Pending ==> k < |ranked| && s.candidates == ranked[k..] && s.current == Some(ranked[k]))
    && (s.status == Resolved <==> s.resolved.Some?)
    && (s.resolved.Some? ==> k < |ranked| && s.resolved.value in ranked[k..])
    && k <= |ranked| && (k == |ranked| ==> s.status == Ignored)
  }

  lemma {:induction false} FilterAbsent(ids: seq<int>, out: int)
    requires out !in ids
    ensures Filter(ids, out) == ids
    decreases |ids|
  {
    if ids != [] {
      FilterAbsent(ids[1..], out);
    }
  }

  lemma NoWalks(s: Session, ranked: seq<int>, k: nat)
    requires Walked(s, ranked, k) && s.status == Pending && DistinctIds(ranked)
    ensures Walked(AdvanceStep(s), ranked, k + 1)
    ensures AdvanceStep(s).status == if k + 1 == |ranked| then Ignored else Pending
    ensures AdvanceStep(s).status == Pending ==> |AdvanceStep(s).candidates| == |s.candidates| - 1
  {
    assert ranked[k..][1..] == ranked[k + 1..];
    assert ranked[k] !in ranked[k + 1..];
    FilterAbsent(ranked[k + 1..], ranked[k]);
    assert Filter(s.candidates, ranked[k]) == [] + ranked[k + 1..];
  }

  lemma StepWalks(s: Session, step: Step, ranked: seq<int>, k: nat)
    requires Walked(s, ranked, k) && DistinctIds(ranked)
    ensures Walked(Apply(s, step), ranked, if step.No? && s.status == Pending then k + 1 else k)
    ensures s.status != Pending ==> Apply(s, step) == s
    ensures step.Resolve? && ResolveStep(s, step.a).1 == Ok ==> s.status == Pending && Apply(s, step).status == Resolved
  {
    if step.No? && s.status == Pending {
      NoWalks(s, ranked, k);
    }
  }

  lemma {:induction false} RunWalks(s: Session, steps: seq<Step>, ranked: seq<int>, k: nat)
    requires Walked(s, ranked, k) && DistinctIds(ranked)
    ensures Walked(Exec(s, steps), ranked, k + Noes(s, steps))
    ensures s.status != Pending ==> Exec(s, steps) == s && Noes(s, steps) == 0 && Oks(s, steps) == 0
    ensures Oks(s, steps) <= 1
    decreases |steps|
  {
    if steps != [] {
      StepWalks(s, steps[0], ranked, k);
      RunWalks(Apply(s, steps[0]), steps[1..], ranked, if steps[0].No? && s.status == Pending then k + 1 else k);
    }
  }

  /** Over every run of a session: the k-th refusal presents the (k+1)-th ranked candidate, the list shrinks
      with each, as many refusals as candidates end in `Ignored`, and `Ok` is answered at most once. */
  lemma WalkTheRanking(first: Session, ranked: seq<int>, steps: seq<Step>)
    requires ranked != [] && DistinctIds(ranked)
    requires first == Open(first.supplier, first.chat, first.route, first.message, ranked, first.expiresAt)
    ensures var s, k := Exec(first, steps), Noes(first, steps);
            && k <= |ranked| && Oks(first, steps) <= 1
            && (s.status == Pending ==> k < |ranked| && s.candidates == ranked[k..] && s.current == Some(ranked[k]))
            && (k == |ranked| ==> s.status == Ignored)
  {
    RunWalks(first, steps, ranked, 0);
  }

  lemma LeftIsNotRefused(ranked: seq<int>, k: nat, id: int)
    requires DistinctIds(ranked) && k <= |ranked| && id in ranked[k..]
    ensures id in ranked && id !in ranked[..k]
  {
    var j :| 0 <= j < |ranked[k..]| && ranked[k..][j] == id;
    assert ranked[k + j] == id;
    forall i | 0 <= i < k ensures ranked[..k][i] != id {
      assert ranked[i] != ranked[k + j];
    }
  }

  /** Whatever is bound is one of the original candidates and none of the refused ones, and a session that is
      no longer pending never changes again. */
  lemma RefusedNeverBound(first: Session, ranked: seq<int>, steps: seq<Step>, more: seq<Step>)
    requires ranked != [] && DistinctIds(ranked)
    requires first == Open(first.supplier, first.chat, first.route, first.message, ranked, first.expiresAt)
    ensures var s, k := Exec(first, steps), Noes(first, steps);
            && k <= |ranked|
            && (s.status == Resolved <==> s.resolved.Some?)
            && (s.resolved.Some? ==> s.resolved.value in ranked && s.resolved.value !in ranked[..k])
            && (s.status != Pending ==> Exec(s, more) == s && Oks(s, more) == 0)
  {
    RunWalks(first, steps, ranked, 0);
    var s, k := Exec(first, steps), Noes(first, steps);
    RunWalks(s, more, ranked, k);
    if s.resolved.Some? {
      LeftIsNotRefused(ranked, k, s.resolved.value);
    }
  }

  /** `Ok` exactly for the supplier's own pending, unexpired session, a candidate still on the list, a message not
      yet bound to it and a request still open. */
  lemma OkWhen(s: Session, a: Attempt)
    ensures ResolveStep(s, a).1 == Ok <==>
              && s.supplier == a.supplier && s.chat == a.chat && s.route == a.route
              && s.status == Pending && a.now <= s.expiresAt && a.request in s.candidates
              && a.message.Some? && a.message.value.boundTo != Some(a.request) && a.bindable == Some(true)
    ensures ResolveStep(s, a).1 == Ok ==> ResolveStep(s, a).0.resolved == Some(a.request)
    ensures ResolveStep(s, a).0.resolved != s.resolved ==>
              ResolveStep(s, a).1 == Ok
                || (ResolveStep(s, a).1 == AlreadyResolved && a.message == Some(MessageIn(Some(a.request))))
  {
  }

  predicate Mine(s: Session, a: Attempt) {
    s.supplier == a.supplier && s.chat == a.chat && s.route == a.route
  }

  /** Pending, not past its time, and offering the request. */
  predicate Offers(s: Session, a: Attempt) {
    Mine(s, a) && s.status == Pending && !(s.expiresAt < a.now) && a.request in s.candidates
  }

  /** Every answer with its exact condition and what becomes of the session. */
  lemma AnswerWhen(s: Session, a: Attempt)
    ensures var (s', answer) := ResolveStep(s, a);
            var bound := a.message.Some? && a.message.value.boundTo == Some(a.request);
            && (answer == Forbidden <==> !Mine(s, a))
            && (answer == NotPending <==>
                  Mine(s, a) && s.status != Pending && !(s.status == Resolved && s.resolved == Some(a.request)))
            && (answer == SessionExpired <==> Mine(s, a) && s.status == Pending && s.expiresAt < a.now)
            && (answer == InvalidCandidate <==>
                  || (Mine(s, a) && s.status == Pending && !(s.expiresAt < a.now) && a.request !in s.candidates)
                  || (Offers(s, a) && a.message.Some? && !bound && a.bindable != Some(true)))
            && (answer == NotFound <==> Offers(s, a) && a.message.None?)
            && (answer == AlreadyResolved <==>
                  || (Mine(s, a) && s.status == Resolved && s.resolved == Some(a.request)) || (Offers(s, a) && bound))
            && (answer == Ok <==> Offers(s, a) && a.message.Some? && !bound && a.bindable == Some(true))
            && s' == (if answer == SessionExpired then s.(status := Expired)
                      else if answer == Ok || (answer == AlreadyResolved && s.status == Pending)
                      then s.(status := Resolved, resolved := Some(a.request)) else s)
  {
  }

  /** The other steps end a pending session, each in its own way, or move on to the next candidate. */
  lemma StepMakes(s: Session, step: Step)
    ensures s.status != Pending ==> Apply(s, step) == s
    ensures s.status == Pending ==>
              var s' := Apply(s, step);
              && (step.Cancel? ==> s' == s.(status := Cancelled))
              && (step.Sweep? ==> s' == if s.expiresAt < step.now then s.(status := Expired) else s)
              && (step.Other? ==> s' == s.(status := Ignored))
              && (step.No? && (forall id | id in s.candidates :: s.current == Some(id)) ==> s' == s.(status := Ignored))
              && (step.No? && (exists id | id in s.candidates :: s.current != Some(id)) ==>
                    && s' == s.(current := s'.current, candidates := s'.candidates)
                    && s'.candidates != [] && s'.current == Some(s'.candidates[0])
                    && forall id :: id in s'.candidates <==> id in s.candidates && s.current != Some(id))
  {
    if step.No? && s.status == Pending {
      var left := if s.current.Some? && s.current.value in s.candidates then Filter(s.candidates, s.current.value)
                  else s.candidates;
      assert forall id :: id in left <==> id in s.candidates && s.current != Some(id);
      assert left != [] ==> left[0] in left;
    }
  }

  // ----- The table of sessions -----

  /** A pending session found by the query: expired when on the route and past its time. */
  function Swept(s: Session, route: string, now: int): Session {
    if s.route == route then Apply(s, Sweep(now)) else s
  }

  predicate PendingFor(s: Session, supplier: int, chat: int) {
    s.supplier == supplier && s.chat == chat && s.status == Pending
  }

  predicate OnTime(s: Session, route: string, now: int) {
    s.route == route && now <= s.expiresAt
  }

  predicate Ascending(ids: seq<int>) {
    forall i, j :: 0 <= i < j < |ids| ==> ids[i] < ids[j]
  }

  /** Exactly these sessions are swept. */
  ghost predicate SweptThese(before: map<int, Session>, after: map<int, Session>, ids: seq<int>, route: string,
                             now: int) {
    && after.Keys == before.Keys
    && forall i | i in before :: after[i] == if i in ids then Swept(before[i], route, now) else before[i]
  }

  lemma SweepOne(before: map<int, Session>, after: map<int, Session>, ids: seq<int>, i: int, route: string, now: int)
    requires SweptThese(before, after, ids, route, now) && i in before && i !in ids
    ensures after[i] == before[i]
    ensures SweptThese(before, after[i := Swept(before[i], route, now)], ids + [i], route, now)
  {
  }

  /** Exactly the ones on time, in order of their ids. */
  ghost predicate Picked(active: seq<int>, ids: seq<int>, sessions: map<int, Session>, route: string, now: int) {
    Ascending(active) && forall i :: i in active <==> i in ids && i in sessions && OnTime(sessions[i], route, now)
  }

  lemma PickOne(active: seq<int>, ids: seq<int>, i: int, sessions: map<int, Session>, route: string, now: int)
    requires Picked(active, ids, sessions, route, now) && i in sessions && forall j | j in ids :: j < i
    ensures Picked(active + if OnTime(sessions[i], route, now) then [i] else [], ids + [i], sessions, route, now)
  {
    if OnTime(sessions[i], route, now) {
      assert forall k :: 0 <= k < |active| ==> active[k] in active;
    }
  }

  class BindDesk {
    var sessions: map<int, Session>
    var nextId: int

    ghost predicate Valid()
      reads this
    {
      forall i | i in sessions :: i < nextId
    }

    constructor ()
      ensures Valid() && sessions == map[]
    {
      sessions, nextId := map[], 0;
    }

    method CreateBindSession(supplier: int, chat: int, route: string, message: int,
                             candidates: seq<Candidate>, now: int, ttl: int) returns (id: Option<int>)
      requires Valid()
      modifies this
      ensures Valid()
      ensures id.None? <==> candidates == []
      ensures id.None? ==> sessions == old(sessions)
      ensures UniqueIds(candidates) ==> DistinctIds(Rank(candidates))
      ensures id.Some? ==>
                && id.value !in old(sessions) && Rank(candidates) != []
                && sessions == old(sessions)[id.value :=
                                     Session(supplier, chat, route, message, Rank(candidates),
                                             Some(Rank(candidates)[0]), Pending, None, now + ttl)]
    {
      if UniqueIds(candidates) {
        RankDistinct(candidates);
      }
      if candidates == [] {
        return None;
      }
      var ordered := Rank(candidates);
      RankKeeps(candidates, 0);
      sessions := sessions[nextId := Session(supplier, chat, route, message,
              ordered, Some(ordered[0]), Pending, None, now + ttl)];
      id := Some(nextId);
      nextId := nextId + 1;
    }

    method ResolveBindSession(id: int, a: Attempt) returns (r: ResolveResult)
      requires Valid()
      modifies this`sessions
      ensures Valid()
      ensures id !in old(sessions) ==> r == NotFound && sessions == old(sessions)
      ensures id in old(sessions) ==>
                && r == ResolveStep(old(sessions)[id], a).1
                && sessions == old(sessions)[id := Apply(old(sessions)[id], Resolve(a))]
    {
      if id !in sessions {
        return NotFound;
      }
      var s := sessions[id];
      if s.supplier != a.supplier || s.chat != a.chat || s.route != a.route {
        return Forbidden;
      }
      if s.status != Pending {
        return if s.status == Resolved && s.resolved == Some(a.request) then AlreadyResolved else NotPending;
      }
      if s.expiresAt < a.now {
        sessions := sessions[id := s.(status := Expired)];
        return SessionExpired;
      }
      if a.request !in s.candidates {
        return InvalidCandidate;
      }
      if a.message.None? {
        return NotFound;
      }
      if a.message.value.boundTo == Some(a.request) {
        sessions := sessions[id := s.(status := Resolved, resolved := Some(a.request))];
        return AlreadyResolved;
      }
      if a.bindable != Some(true) {
        return InvalidCandidate;
      }
      sessions := sessions[id := s.(status := Resolved, resolved := Some(a.request))];
      return Ok;
    }

    /** Cancel every pending session of a message; `listed` is what the query returns. */
    method CancelForMessage(message: int, listed: seq<int>)
      requires Valid() && DistinctIds(listed)
      requires forall i :: i in listed <==>
                 i in sessions && sessions[i].message == message && sessions[i].status == Pending
      modifies this`sessions
      ensures Valid() && sessions.Keys == old(sessions).Keys
      ensures forall i | i in sessions ::
                sessions[i] == if old(sessions)[i].message == message then Apply(old(sessions)[i], Cancel)
                               else old(sessions)[i]
    {
      for k := 0 to |listed|
        invariant sessions.Keys == old(sessions).Keys
        invariant forall i | i in sessions ::
                    sessions[i] == if i in listed[..k] then Apply(old(sessions)[i], Cancel) else old(sessions)[i]
      {
        var i := listed[k];
        assert listed[..k + 1] == listed[..k] + [i];
        assert i in listed;
        sessions := sessions[i := sessions[i].(status := Cancelled)];
      }
      assert listed[..|listed|] == listed;
    }

    method CheckActive(i: int, route: string, now: int) returns (isActive: bool)
      requires i in sessions && sessions[i].status == Pending
      modifies this`sessions
      ensures isActive <==> OnTime(old(sessions)[i], route, now)
      ensures sessions == old(sessions)[i := Swept(old(sessions)[i], route, now)]
    {
      isActive := sessions[i].route == route && sessions[i].expiresAt >= now;
      if sessions[i].route == route && sessions[i].expiresAt < now {
        sessions := sessions[i := sessions[i].(status := Expired)];
      }
    }

    /** The supplier's active sessions in this chat and on this route, oldest first; stale ones are expired on the
        way. `listed` is what the query returns; ids grow with the time of creation. */
    method PendingSessions(supplier: int, chat: int, listed: seq<int>, route: string, now: int)
      returns (active: seq<int>)
      requires Valid() && Ascending(listed)
      requires forall i :: i in listed <==> i in sessions && PendingFor(sessions[i], supplier, chat)
      modifies this`sessions
      ensures Valid() && sessions.Keys == old(sessions).Keys
      ensures forall i | i in sessions ::
                sessions[i] == if PendingFor(old(sessions)[i], supplier, chat) then Swept(old(sessions)[i], route, now)
                               else old(sessions)[i]
      ensures Ascending(active)
      ensures forall i :: i in active <==>
                i in sessions && PendingFor(old(sessions)[i], supplier, chat) && OnTime(old(sessions)[i], route, now)
    {
      active := [];
      for k := 0 to |listed|
        invariant SweptThese(old(sessions), sessions, listed[..k], route, now)
        invariant Picked(active, listed[..k], old(sessions), route, now)
      {
        assert listed[..k + 1] == listed[..k] + [listed[k]] && listed[k] in listed;
        SweepOne(old(sessions), sessions, listed[..k], listed[k], route, now);
        PickOne(active, listed[..k], listed[k], old(sessions), route, now);
        var isActive := CheckActive(listed[k], route, now);
        if isActive {
          active := active + [listed[k]];
        }
      }
      assert listed[..|listed|] == listed;
    }

    /** The supplier answered "no" to the presented candidate. */
    method AdvanceYesNo(id: int)
      requires Valid() && id in sessions && sessions[id].status == Pending
      modifies this`sessions
      ensures Valid() && sessions == old(sessions)[id := Apply(old(sessions)[id], No)]
    {
      var s := sessions[id];
      var left := s.candidates;
      if s.current.Some? && s.current.value in left {
        left := Filter(left, s.current.value);
      }
      if left == [] {
        sessions := sessions[id := s.(status := Ignored)];
        return;
      }
      sessions := sessions[id := s.(current := Some(left[0]), candidates := left)];
    }

    /** The supplier chose "other": give up a session that is still pending. */
    method BindOther(id: int)
      requires Valid()
      modifies this`sessions
      ensures Valid()
      ensures sessions == if id in old(sessions) then old(sessions)[id := Apply(old(sessions)[id], Other)]
                          else old(sessions)
    {
      if id in sessions && sessions[id].status == Pending {
        sessions := sessions[id := sessions[id].(status := Ignored)];
      }
    }
  }
}

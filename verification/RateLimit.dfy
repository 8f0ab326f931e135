/** The in-memory rate limiter: one sliding window per key, at most `MAX_BUCKETS` keys, least recently used
    key evicted first. Times are real seconds. */
module RateLimit {
  import opened Windows

  const MAX_BUCKETS := 4096

  datatype Call = Call(key: string, limit: int, window: real, now: real)

  /** What happened, in order. */
  datatype Event = Accepted(key: string, at: real) | Refused(key: string) | Evicted(key: string)

  /** `order` is the key order of the `OrderedDict`, least recently used first; `trace` is the history. */
  datatype State = State(order: seq<string>, hits: map<string, seq<real>>, trace: seq<Event>)

  const INIT := State([], map[], [])

  function Cap(limit: int): nat {
    if limit < 0 then 0 else limit
  }

  /** Drop the least recently used key while the dictionary is full. */
  function MakeRoom(s: State): (s': State)
    decreases |s.order|
  {
    if |s.order| < MAX_BUCKETS then s
    else MakeRoom(State(s.order[1..], s.hits - {s.order[0]}, s.trace + [Evicted(s.order[0])]))
  }

  function Without(order: seq<string>, key: string): seq<string> {
    if order == [] then [] else (if order[0] == key then [] else [order[0]]) + Without(order[1..], key)
  }

  /** Move the key to the end, or give it a fresh bucket once there is room. */
  function Touch(s: State, key: string): (t: State)
    ensures key in t.hits
  {
    if key in s.hits then s.(order := Without(s.order, key) + [key])
    else var r := MakeRoom(s); r.(order := r.order + [key], hits := r.hits[key := []])
  }

  /** Trim the key's bucket and compare its length with the limit. */
  function Decide(t: State, c: Call): State
    requires c.key in t.hits
  {
    var bucket := Evict(t.hits[c.key], c.now - c.window);
    if |bucket| >= c.limit then
      State(t.order, t.hits[c.key := bucket], t.trace + [Refused(c.key)])
    else
      State(t.order, t.hits[c.key := bucket + [c.now]], t.trace + [Accepted(c.key, c.now)])
  }

  function AllowCall(s: State, c: Call): State {
    Decide(Touch(s, c.key), c)
  }

  function Run(calls: seq<Call>): State {
    if calls == [] then INIT else AllowCall(Run(calls[..|calls| - 1]), calls[|calls| - 1])
  }

  // ----- What the history says -----

  /** Accepted calls of a key since its last eviction. */
  function Since(trace: seq<Event>, key: string): seq<real> {
    if trace == [] then []
    else
      var rest := Since(trace[..|trace| - 1], key);
      match trace[|trace| - 1]
      case Accepted(k, at) => if k == key then rest + [at] else rest
      case Refused(k) => rest
      case Evicted(k) => if k == key then [] else rest
  }

  /** Place of the key's last call in the history, or -1 when it has none since its last eviction. */
  function LastUse(trace: seq<Event>, key: string): (i: int)
    ensures -1 <= i < |trace|
  {
    if trace == [] then -1
    else
      var n := |trace| - 1;
      match trace[n]
      case Accepted(k, _) => if k == key then n else LastUse(trace[..n], key)
      case Refused(k) => if k == key then n else LastUse(trace[..n], key)
      case Evicted(k) => if k == key then -1 else LastUse(trace[..n], key)
  }

  /** The keys are in the order of their last use. */
  ghost predicate Increasing(trace: seq<Event>, order: seq<string>) {
    order != [] ==>
      && (forall k | k in order[1..] :: LastUse(trace, order[0]) < LastUse(trace, k))
      && Increasing(trace, order[1..])
  }

  /** The dictionary holds exactly the keys used since their last eviction, least recently used first. */
  ghost predicate Recency(s: State) {
    && (forall k: string :: k in s.order <==> LastUse(s.trace, k) >= 0)
    && (forall k: string :: k in s.hits <==> k in s.order)
    && Increasing(s.trace, s.order)
    && |s.order| <= MAX_BUCKETS
  }

  lemma AppendTrace(trace: seq<Event>, e: Event, key: string)
    ensures LastUse(trace + [e], key) ==
              if e.key == key then (if e.Evicted? then -1 else |trace|) else LastUse(trace, key)
    ensures Since(trace + [e], key) ==
              if e.key != key || e.Refused? then Since(trace, key)
              else if e.Evicted? then [] else Since(trace, key) + [e.at]
  {
    assert (trace + [e])[..|trace|] == trace;
  }

  lemma {:induction false} WithoutKeeps(trace: seq<Event>, order: seq<string>, key: string)
    ensures forall k :: k in Without(order, key) <==> k in order && k != key
    ensures |Without(order, key)| <= |order| && (key in order ==> |Without(order, key)| < |order|)
    ensures Increasing(trace, order) ==> Increasing(trace, Without(order, key))
    decreases |order|
  {
    if order != [] {
      WithoutKeeps(trace, order[1..], key);
      assert order == [order[0]] + order[1..];
      var rest := Without(order[1..], key);
      if order[0] == key {
        assert Without(order, key) == rest;
      } else {
        assert Without(order, key) == [order[0]] + rest && ([order[0]] + rest)[1..] == rest;
      }
    }
  }

  lemma {:induction false} AppendKeeps(trace: seq<Event>, trace': seq<Event>, order: seq<string>, key: string)
    requires Increasing(trace, order)
    requires forall k | k in order ::
               LastUse(trace', k) == LastUse(trace, k) && LastUse(trace', k) < LastUse(trace', key)
    ensures Increasing(trace', order + [key])
    decreases |order|
  {
    if order == [] {
      assert ([] + [key])[1..] == [];
    } else {
      AppendKeeps(trace, trace', order[1..], key);
      assert (order + [key])[1..] == order[1..] + [key];
      assert forall k | k in order[1..] + [key] :: k in order[1..] || k == key;
    }
  }

  lemma {:induction false} OrderTransports(trace: seq<Event>, trace': seq<Event>, order: seq<string>)
    requires Increasing(trace, order) && forall k | k in order :: LastUse(trace', k) == LastUse(trace, k)
    ensures Increasing(trace', order)
    decreases |order|
  {
    if order != [] {
      OrderTransports(trace, trace', order[1..]);
    }
  }

  /** One eviction removes the least recently used key. */
  lemma EvictionKeeps(s: State)
    requires Recency(s) && s.order != []
    ensures var key := s.order[0];
            && Recency(State(s.order[1..], s.hits - {key}, s.trace + [Evicted(key)]))
            && forall k | k in s.hits && k != key :: LastUse(s.trace, key) < LastUse(s.trace, k)
  {
    var key := s.order[0];
    var trace' := s.trace + [Evicted(key)];
    assert s.order == [key] + s.order[1..];
    forall k: string ensures LastUse(trace', k) == if k == key then -1 else LastUse(s.trace, k) {
      AppendTrace(s.trace, Evicted(key), k);
    }
    OrderTransports(s.trace, trace', s.order[1..]);
  }

  lemma MakeRoomKeeps(s: State)
    requires Recency(s)
    ensures var r := MakeRoom(s); Recency(r) && |r.order| < MAX_BUCKETS && r.hits.Keys <= s.hits.Keys
    ensures MakeRoom(s) == s || (s.order != [] && |s.order| == MAX_BUCKETS
              && MakeRoom(s) == State(s.order[1..], s.hits - {s.order[0]}, s.trace + [Evicted(s.order[0])]))
  {
    if |s.order| == MAX_BUCKETS {
      EvictionKeeps(s);
    }
  }

  /** After any call the key is the most recently used one. */
  lemma UseKeeps(s: State, hits: map<string, seq<real>>, e: Event)
    requires Recency(s) && !e.Evicted? && hits.Keys == s.hits.Keys + {e.key}
    requires e.key in s.order || |s.order| < MAX_BUCKETS
    ensures Recency(State(Without(s.order, e.key) + [e.key], hits, s.trace + [e]))
  {
    var trace' := s.trace + [e];
    forall k: string ensures LastUse(trace', k) == if k == e.key then |s.trace| else LastUse(s.trace, k) {
      AppendTrace(s.trace, e, k);
    }
    WithoutKeeps(s.trace, s.order, e.key);
    AppendKeeps(s.trace, trace', Without(s.order, e.key), e.key);
  }

  lemma {:induction false} WithoutAbsent(order: seq<string>, key: string)
    requires key !in order
    ensures Without(order, key) == order
    decreases |order|
  {
    if order != [] {
      WithoutAbsent(order[1..], key);
    }
  }

  lemma TouchedThenUsed(s: State, key: string, hits: map<string, seq<real>>, e: Event)
    requires Recency(s) && !e.Evicted? && e.key == key && hits.Keys == Touch(s, key).hits.Keys
    ensures var t := Touch(s, key);
            Recency(State(t.order, hits, t.trace + [e])) && t.order != [] && t.order[|t.order| - 1] == key
  {
    if key in s.hits {
      UseKeeps(s, hits, e);
    } else {
      MakeRoomKeeps(s);
      WithoutAbsent(MakeRoom(s).order, key);
      UseKeeps(MakeRoom(s), hits, e);
    }
  }

  lemma AllowKeepsRecency(s: State, c: Call)
    requires Recency(s)
    ensures Recency(AllowCall(s, c))
    ensures AllowCall(s, c).order != [] && AllowCall(s, c).order[|AllowCall(s, c).order| - 1] == c.key
  {
    var t, s' := Touch(s, c.key), AllowCall(s, c);
    var e := s'.trace[|t.trace|];
    assert s' == State(t.order, s'.hits, t.trace + [e]);
    assert s'.hits.Keys == t.hits.Keys;
    TouchedThenUsed(s, c.key, s'.hits, e);
  }

  lemma {:induction false} RunRecency(calls: seq<Call>)
    ensures Recency(Run(calls))
    decreases |calls|
  {
    if calls != [] {
      RunRecency(calls[..|calls| - 1]);
      AllowKeepsRecency(Run(calls[..|calls| - 1]), calls[|calls| - 1]);
    }
  }

  // ----- The window of one key -----

  /** All calls of the key use this limit and window, and the clock does not go back. */
  predicate Ruled(calls: seq<Call>, key: string, limit: int, window: real) {
    && (forall i :: 0 <= i < |calls| && calls[i].key == key ==> calls[i].limit == limit && calls[i].window == window)
    && (forall i, j :: 0 <= i < j < |calls| ==> calls[i].now <= calls[j].now)
  }

  ghost predicate KeyOk(s: State, key: string, now: real, limit: int, window: real) {
    && (key in s.hits ==> Tracks(s.hits[key], Since(s.trace, key), now, window, Cap(limit)))
    && (key !in s.hits ==> Since(s.trace, key) == [])
  }

  lemma TouchKeepsKey(s: State, touched: string, key: string, now: real, limit: int, window: real)
    requires Recency(s) && KeyOk(s, key, now, limit, window)
    ensures KeyOk(Touch(s, touched), key, now, limit, window)
  {
    if touched !in s.hits {
      MakeRoomKeeps(s);
      if MakeRoom(s) != s {
        AppendTrace(s.trace, Evicted(s.order[0]), key);
      }
    }
  }

  lemma DecideKeepsOthers(t: State, c: Call, before: real, key: string, limit: int, window: real)
    requires KeyOk(t, key, before, limit, window) && before <= c.now && c.key in t.hits && c.key != key
    ensures KeyOk(Decide(t, c), key, c.now, limit, window)
  {
    AppendTrace(t.trace, Decide(t, c).trace[|t.trace|], key);
    if key in t.hits {
      LaterTracks(t.hits[key], Since(t.trace, key), before, c.now, window, Cap(limit));
    }
  }

  lemma DecideParts(t: State, c: Call)
    requires c.key in t.hits
    ensures var t', b, times := Decide(t, c), Evict(t.hits[c.key], c.now - c.window), Since(t.trace, c.key);
            && c.key in t'.hits
            && t'.hits[c.key] == (if |b| >= c.limit then b else b + [c.now])
            && Since(t'.trace, c.key) == (if |b| >= c.limit then times else times + [c.now])
  {
    AppendTrace(t.trace, Accepted(c.key, c.now), c.key);
    AppendTrace(t.trace, Refused(c.key), c.key);
  }

  lemma DecideKeepsOwn(t: State, c: Call, before: real)
    requires KeyOk(t, c.key, before, c.limit, c.window) && before <= c.now && c.key in t.hits
    ensures KeyOk(Decide(t, c), c.key, c.now, c.limit, c.window)
  {
    BucketKeeps(t.hits[c.key], Since(t.trace, c.key), before, c.now, c.limit, c.window);
    DecideParts(t, c);
  }

  lemma DecideKeepsKey(t: State, c: Call, before: real, key: string, limit: int, window: real)
    requires KeyOk(t, key, before, limit, window) && before <= c.now && c.key in t.hits
    requires c.key == key ==> c.limit == limit && c.window == window
    ensures KeyOk(Decide(t, c), key, c.now, limit, window)
  {
    if c.key == key {
      DecideKeepsOwn(t, c, before);
    } else {
      DecideKeepsOthers(t, c, before, key, limit, window);
    }
  }

  lemma BucketKeeps(bucket: seq<real>, times: seq<real>, before: real, now: real, limit: int, window: real)
    requires Tracks(bucket, times, before, window, Cap(limit)) && before <= now
    ensures var b := Evict(bucket, now - window);
            if |b| >= limit then Tracks(b, times, now, window, Cap(limit))
            else Tracks(b + [now], times + [now], now, window, Cap(limit))
  {
    LaterTracks(bucket, times, before, now, window, Cap(limit));
    EvictTracks(bucket, times, now, window, Cap(limit));
    var b := Evict(bucket, now - window);
    if |b| < limit {
      AdmitTracks(b, times, now, window, Cap(limit));
    }
  }

  lemma AllowKeepsKey(s: State, c: Call, before: real, key: string, limit: int, window: real)
    requires Recency(s) && KeyOk(s, key, before, limit, window) && before <= c.now
    requires c.key == key ==> c.limit == limit && c.window == window
    ensures KeyOk(AllowCall(s, c), key, c.now, limit, window)
  {
    TouchKeepsKey(s, c.key, key, before, limit, window);
    DecideKeepsKey(Touch(s, c.key), c, before, key, limit, window);
  }

  lemma {:induction false} RunKeeps(calls: seq<Call>, key: string, now: real, limit: int, window: real)
    requires Ruled(calls, key, limit, window) && (calls != [] ==> calls[|calls| - 1].now <= now)
    ensures KeyOk(Run(calls), key, now, limit, window)
    decreases |calls|
  {
    if calls != [] {
      var n := |calls| - 1;
      RunKeeps(calls[..n], key, calls[n].now, limit, window);
      RunRecency(calls[..n]);
      AllowKeepsKey(Run(calls[..n]), calls[n], calls[n].now, key, limit, window);
      var s := Run(calls);
      if key in s.hits {
        LaterTracks(s.hits[key], Since(s.trace, key), calls[n].now, now, window, Cap(limit));
      }
    }
  }

  // ----- Guarantees over every history -----

  /** For a key with one rule, any closed window of its width holds at most `limit` calls accepted since the
      key was last evicted. */
  lemma WindowHolds(calls: seq<Call>, key: string, limit: int, window: real, from: real)
    requires Ruled(calls, key, limit, window)
    ensures |InWindow(Since(Run(calls).trace, key), from, from + window)| <= Cap(limit)
  {
    var now := if calls == [] then 0.0 else calls[|calls| - 1].now;
    RunKeeps(calls, key, now, limit, window);
    var s := Run(calls);
    if key in s.hits {
      WindowBound(Since(s.trace, key), window, Cap(limit), from);
    }
  }

  /** And the limiter refuses only when it must: a call is accepted exactly when the closed window ending now
      has room for it. */
  lemma AcceptedWhenRoom(calls: seq<Call>, c: Call)
    requires Ruled(calls, c.key, c.limit, c.window) && (calls != [] ==> calls[|calls| - 1].now <= c.now)
    ensures var s, trace := Run(calls), AllowCall(Run(calls), c).trace;
            && trace != []
            && (trace[|trace| - 1] == Accepted(c.key, c.now) <==>
                  |InWindow(Since(s.trace, c.key), c.now - c.window, c.now)| < c.limit)
  {
    var s := Run(calls);
    assert KeyOk(s, c.key, c.now, c.limit, c.window) by {
      RunKeeps(calls, c.key, c.now, c.limit, c.window);
    }
    RoomInState(s, c);
  }

  lemma RoomInState(s: State, c: Call)
    requires KeyOk(s, c.key, c.now, c.limit, c.window)
    ensures var trace := AllowCall(s, c).trace;
            && trace != []
            && (trace[|trace| - 1] == Accepted(c.key, c.now) <==>
                  |InWindow(Since(s.trace, c.key), c.now - c.window, c.now)| < c.limit)
  {
    if c.key in s.hits {
      TrimmedIsWindow(s.hits[c.key], Since(s.trace, c.key), c.now, c.window, Cap(c.limit));
    } else {
      assert Touch(s, c.key).hits[c.key] == [];
      assert InWindow(Since(s.trace, c.key), c.now - c.window, c.now) == {};
    }
  }

  /** There are never more than `MAX_BUCKETS` keys, each eviction takes the least recently used one, and it
      happens only when a new key meets a full dictionary. */
  lemma LeastRecentlyUsedGoes(calls: seq<Call>, c: Call)
    ensures var s, s' := Run(calls), AllowCall(Run(calls), c);
            && |s.order| <= 4096 && |s'.order| <= 4096
            && (forall k | k in s.hits && k !in s'.hits ::
                  && c.key !in s.hits && |s.order| == 4096
                  && forall other | other in s.hits && other != k :: LastUse(s.trace, k) < LastUse(s.trace, other))
  {
    RunRecency(calls);
    var s := Run(calls);
    AllowKeepsRecency(s, c);
    if c.key !in s.hits {
      MakeRoomKeeps(s);
      if MakeRoom(s) != s {
        EvictionKeeps(s);
      }
    }
  }

  // ----- The limiter -----

  class InMemoryRateLimiter {
    var order: seq<string>
    var hits: map<string, seq<real>>
    ghost var trace: seq<Event>

    ghost function S(): State
      reads this
    {
      State(order, hits, trace)
    }

    constructor ()
      ensures S() == INIT
    {
      order, hits, trace := [], map[], [];
    }

    method MoveToEnd(key: string)
      modifies this`order
      ensures order == Without(old(order), key) + [key]
    {
      var kept: seq<string> := [];
      for i := 0 to |order|
        invariant order == old(order)
        invariant kept + Without(order[i..], key) == Without(order, key)
      {
        assert order[i..] == [order[i]] + order[i + 1..];
        if order[i] != key {
          kept := kept + [order[i]];
        }
      }
      order := kept + [key];
    }

    method TouchKey(key: string)
      modifies this
      ensures S() == Touch(old(S()), key)
    {
      if key in hits {
        MoveToEnd(key);
        return;
      }
      while |order| >= MAX_BUCKETS
        invariant MakeRoom(S()) == MakeRoom(old(S()))
        decreases |order|
      {
        var evicted := order[0];
        trace := trace + [Evicted(evicted)];
        order, hits := order[1..], hits - {evicted};
      }
      order := order + [key];
      hits := hits[key := []];
    }

    method TrimBucket(key: string, threshold: real)
      requires key in hits
      modifies this`hits
      ensures hits == old(hits)[key := Evict(old(hits)[key], threshold)]
    {
      var bucket := hits[key];
      while bucket != [] && bucket[0] < threshold
        invariant hits == old(hits) && Evict(bucket, threshold) == Evict(hits[key], threshold)
        decreases |bucket|
      {
        bucket := bucket[1..];
      }
      hits := hits[key := bucket];
    }

    /** Accept or refuse one call. */
    method Allow(key: string, limit: int, window: real, now: real) returns (ok: bool)
      requires Recency(S())
      modifies this
      ensures S() == AllowCall(old(S()), Call(key, limit, window, now)) && Recency(S())
      ensures trace != [] && trace[|trace| - 1] == if ok then Accepted(key, now) else Refused(key)
    {
      AllowKeepsRecency(S(), Call(key, limit, window, now));
      ok := DecideCall(key, limit, window, now);
    }

    method DecideCall(key: string, limit: int, window: real, now: real) returns (ok: bool)
      modifies this
      ensures S() == AllowCall(old(S()), Call(key, limit, window, now))
      ensures trace != [] && trace[|trace| - 1] == if ok then Accepted(key, now) else Refused(key)
    {
      TouchKey(key);
      ghost var t := S();
      TrimBucket(key, now - window);
      ok := |hits[key]| < limit;
      if ok {
        hits := hits[key := hits[key] + [now]];
        trace := trace + [Accepted(key, now)];
      } else {
        trace := trace + [Refused(key)];
      }
      assert S() == Decide(t, Call(key, limit, window, now));
    }
  }
}

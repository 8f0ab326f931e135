/** Telegram send throttling: a global and a per-chat one-second window. Times are real seconds. */
module Throttle {
  import opened Wrappers
  import opened Windows

  const SECOND := 1.0
  const NAP := 0.05

  /** `admitted` is the history the promises are about. */
  datatype State = State(global: seq<real>, chats: map<int, seq<real>>, admitted: seq<(int, real)>)

  datatype Limits = Limits(global: nat, perChat: nat)

  const DEFAULT := Limits(25, 1)

  function Bucket(chats: map<int, seq<real>>, chat: int): seq<real> {
    if chat in chats then chats[chat] else []
  }

  /** One pass under the lock. */
  function Attempt(s: State, chat: int, now: real, l: Limits): State {
    var g := Evict(s.global, now - SECOND);
    var c := Evict(Bucket(s.chats, chat), now - SECOND);
    if |g| < l.global && |c| < l.perChat then
      State(g + [now], s.chats[chat := c + [now]], s.admitted + [(chat, now)])
    else
      State(g, s.chats[chat := c], s.admitted)
  }

  function Run(attempts: seq<(int, real)>, l: Limits): State {
    if attempts == [] then State([], map[], [])
    else
      var n := |attempts| - 1;
      Attempt(Run(attempts[..n], l), attempts[n].0, attempts[n].1, l)
  }

  function Times(admitted: seq<(int, real)>): seq<real> {
    seq(|admitted|, i requires 0 <= i < |admitted| => admitted[i].1)
  }

  function TimesOf(admitted: seq<(int, real)>, chat: int): seq<real> {
    if admitted == [] then []
    else
      var n := |admitted| - 1;
      var rest := TimesOf(admitted[..n], chat);
      if admitted[n].0 == chat then rest + [admitted[n].1] else rest
  }

  ghost predicate Inv(s: State, now: real, l: Limits) {
    && Tracks(s.global, Times(s.admitted), now, SECOND, l.global)
    && forall chat: int :: Tracks(Bucket(s.chats, chat), TimesOf(s.admitted, chat), now, SECOND, l.perChat)
  }

  lemma TimesSnoc(admitted: seq<(int, real)>, chat: int, now: real, k: int)
    ensures Times(admitted + [(chat, now)]) == Times(admitted) + [now]
    ensures TimesOf(admitted + [(chat, now)], k) == TimesOf(admitted, k) + (if k == chat then [now] else [])
  {
    assert (admitted + [(chat, now)])[..|admitted|] == admitted;
  }

  /** A bucket and its history after one pass at `now`, admitted or not. */
  lemma PassTracks(bucket: seq<real>, times: seq<real>, before: real, now: real, limit: nat, admit: bool)
    requires Tracks(bucket, times, before, SECOND, limit) && before <= now
    requires admit ==> |Evict(bucket, now - SECOND)| < limit
    ensures Tracks(bucket, times, now, SECOND, limit)
    ensures var b, added := Evict(bucket, now - SECOND), if admit then [now] else [];
            Tracks(b + added, times + added, now, SECOND, limit)
  {
    LaterTracks(bucket, times, before, now, SECOND, limit);
    EvictTracks(bucket, times, now, SECOND, limit);
    var b := Evict(bucket, now - SECOND);
    if admit {
      AdmitTracks(b, times, now, SECOND, limit);
    } else {
      assert b + [] == b && times + [] == times;
    }
  }

  predicate Admits(s: State, chat: int, now: real, l: Limits) {
    |Evict(s.global, now - SECOND)| < l.global && |Evict(Bucket(s.chats, chat), now - SECOND)| < l.perChat
  }

  lemma AttemptParts(s: State, chat: int, now: real, l: Limits, k: int)
    ensures var s', admit := Attempt(s, chat, now, l), Admits(s, chat, now, l);
            && Bucket(s'.chats, k) ==
                 (if k != chat then Bucket(s.chats, k)
                  else Evict(Bucket(s.chats, k), now - SECOND) + if admit then [now] else [])
            && TimesOf(s'.admitted, k) == TimesOf(s.admitted, k) + if admit && k == chat then [now] else []
  {
    TimesSnoc(s.admitted, chat, now, k);
  }

  lemma ChatKeeps(s: State, before: real, chat: int, now: real, l: Limits, k: int)
    requires Tracks(Bucket(s.chats, k), TimesOf(s.admitted, k), before, SECOND, l.perChat) && before <= now
    ensures var s' := Attempt(s, chat, now, l);
            Tracks(Bucket(s'.chats, k), TimesOf(s'.admitted, k), now, SECOND, l.perChat)
  {
    var admit := Admits(s, chat, now, l) && k == chat;
    PassTracks(Bucket(s.chats, k), TimesOf(s.admitted, k), before, now, l.perChat, admit);
    AttemptParts(s, chat, now, l, k);
    assert TimesOf(s.admitted, k) + [] == TimesOf(s.admitted, k);
  }

  lemma GlobalKeeps(s: State, before: real, chat: int, now: real, l: Limits)
    requires Tracks(s.global, Times(s.admitted), before, SECOND, l.global) && before <= now
    ensures var s' := Attempt(s, chat, now, l);
            Tracks(s'.global, Times(s'.admitted), now, SECOND, l.global)
  {
    PassTracks(s.global, Times(s.admitted), before, now, l.global, Admits(s, chat, now, l));
    TimesSnoc(s.admitted, chat, now, chat);
    var g, times := Evict(s.global, now - SECOND), Times(s.admitted);
    assert g + [] == g && times + [] == times;
  }

  lemma AttemptKeeps(s: State, before: real, chat: int, now: real, l: Limits)
    requires Inv(s, before, l) && before <= now
    ensures Inv(Attempt(s, chat, now, l), now, l)
  {
    GlobalKeeps(s, before, chat, now, l);
    forall k: int
      ensures Tracks(Bucket(Attempt(s, chat, now, l).chats, k),
                     TimesOf(Attempt(s, chat, now, l).admitted, k), now, SECOND, l.perChat)
    {
      ChatKeeps(s, before, chat, now, l, k);
    }
  }

  predicate Monotonic(attempts: seq<(int, real)>) {
    forall i, j :: 0 <= i < j < |attempts| ==> attempts[i].1 <= attempts[j].1
  }

  const INIT := State([], map[], [])

  lemma NothingTracks(now: real, limit: nat)
    ensures Tracks([], [], now, SECOND, limit)
  {
  }

  lemma InitKeeps(now: real, l: Limits)
    ensures Run([], l) == INIT && Inv(INIT, now, l)
  {
    NothingTracks(now, l.global);
    NothingTracks(now, l.perChat);
    assert Times([]) == [];
  }

  lemma {:induction false} RunKeeps(attempts: seq<(int, real)>, now: real, l: Limits)
    requires Monotonic(attempts) && (attempts != [] ==> attempts[|attempts| - 1].1 <= now)
    ensures Inv(Run(attempts, l), now, l)
    decreases |attempts|
  {
    if attempts == [] {
      InitKeeps(now, l);
    } else {
      var n := |attempts| - 1;
      RunKeeps(attempts[..n], attempts[n].1, l);
      AttemptKeeps(Run(attempts[..n], l), attempts[n].1, attempts[n].0, attempts[n].1, l);
      LaterInv(Run(attempts, l), attempts[n].1, now, l);
    }
  }

  /** For every history of callers under a clock that does not go back, any closed one-second window holds at
      most the global limit of admitted sends, and at most the per-chat limit of any one chat. */
  lemma WindowsHold(attempts: seq<(int, real)>, l: Limits, from: real, chat: int)
    requires Monotonic(attempts)
    ensures |InWindow(Times(Run(attempts, l).admitted), from, from + SECOND)| <= l.global
    ensures |InWindow(TimesOf(Run(attempts, l).admitted, chat), from, from + SECOND)| <= l.perChat
  {
    var now := if attempts == [] then 0.0 else attempts[|attempts| - 1].1;
    assert Inv(Run(attempts, l), now, l) by { RunKeeps(attempts, now, l); }
    WindowsInState(Run(attempts, l), now, l, from, chat);
  }

  lemma WindowsInState(s: State, now: real, l: Limits, from: real, chat: int)
    requires Inv(s, now, l)
    ensures |InWindow(Times(s.admitted), from, from + SECOND)| <= l.global
    ensures |InWindow(TimesOf(s.admitted, chat), from, from + SECOND)| <= l.perChat
  {
    assert Tracks(Bucket(s.chats, chat), TimesOf(s.admitted, chat), now, SECOND, l.perChat);
    WindowBound(Times(s.admitted), SECOND, l.global, from);
    WindowBound(TimesOf(s.admitted, chat), SECOND, l.perChat, from);
  }

  /** A caller is admitted exactly when neither of the windows ending now is full. */
  lemma AdmittedWhenRoom(attempts: seq<(int, real)>, l: Limits, chat: int, now: real)
    requires Monotonic(attempts) && (attempts != [] ==> attempts[|attempts| - 1].1 <= now)
    ensures var s := Run(attempts, l);
            |Attempt(s, chat, now, l).admitted| > |s.admitted| <==>
              && |InWindow(Times(s.admitted), now - SECOND, now)| < l.global
              && |InWindow(TimesOf(s.admitted, chat), now - SECOND, now)| < l.perChat
  {
    var s := Run(attempts, l);
    assert Inv(s, now, l) by { RunKeeps(attempts, now, l); }
    RoomInState(s, l, chat, now);
  }

  lemma RoomInState(s: State, l: Limits, chat: int, now: real)
    requires Inv(s, now, l)
    ensures |Attempt(s, chat, now, l).admitted| > |s.admitted| <==>
              && |InWindow(Times(s.admitted), now - SECOND, now)| < l.global
              && |InWindow(TimesOf(s.admitted, chat), now - SECOND, now)| < l.perChat
  {
    TrimmedIsWindow(s.global, Times(s.admitted), now, SECOND, l.global);
    TrimmedIsWindow(Bucket(s.chats, chat), TimesOf(s.admitted, chat), now, SECOND, l.perChat);
  }

  /** Two sleeps can be needed: waiting out exactly one second meets the old send at the closed edge of the
      window, and only the minimum nap gets past it. */
  lemma TwoSleepsNeeded(chat: int)
    ensures var s0 := Attempt(INIT, chat, 0.0, DEFAULT);
            var s1 := Attempt(s0, chat, 0.0, DEFAULT);
            var s2 := Attempt(s1, chat, 1.0, DEFAULT);
            && s0.admitted == s1.admitted == s2.admitted == [(chat, 0.0)]
            && Delay(Bucket(s1.chats, chat), 0.0) == 1.0 && Delay(Bucket(s2.chats, chat), 1.0) == 0.0
            && Attempt(s2, chat, 1.0 + NAP, DEFAULT).admitted == [(chat, 0.0), (chat, 1.0 + NAP)]
  {
    var s0 := Attempt(INIT, chat, 0.0, DEFAULT);
    assert s0.global == [0.0] && Bucket(s0.chats, chat) == [0.0];
    var s1 := Attempt(s0, chat, 0.0, DEFAULT);
    var s2 := Attempt(s1, chat, 1.0, DEFAULT);
    assert [0.0][1..] == [];
    assert Evict([0.0], 0.0 + NAP) == [];
  }

  // ----- The throttle -----

  function Max(a: real, b: real): real {
    if a < b then b else a
  }

  function Delay(bucket: seq<real>, now: real): (d: real)
    ensures d >= 0.0 && (bucket != [] ==> now + d >= bucket[0] + SECOND)
  {
    if bucket == [] then 0.0 else Max(0.0, SECOND - (now - bucket[0]))
  }

  /** A bucket that cannot keep a lone caller out at time `now`, or (when not `strict`) can do so only at that
      very instant. */
  predicate Opens(bucket: seq<real>, limit: nat, now: real, strict: bool) {
    |bucket| < limit || (bucket != [] && (if strict then now > bucket[0] + SECOND else now >= bucket[0] + SECOND))
  }

  /** After the pass at `now` and a sleep of at least the delay, the bucket is one step further open. */
  lemma OpensNext(bucket: seq<real>, limit: nat, now: real, later: real, slept: bool)
    requires |bucket| <= limit && 1 <= limit && (slept ==> Opens(bucket, limit, now, false))
    requires var b := Evict(bucket, now - SECOND); later >= now + Delay(b, now) && later >= now + NAP
    ensures Opens(Evict(bucket, now - SECOND), limit, later, slept)
  {
    EvictDrops(bucket, now - SECOND);
    var b := Evict(bucket, now - SECOND);
    assert b == [] || b == bucket || |b| < |bucket|;
  }

  lemma OpenAtLast(bucket: seq<real>, limit: nat, now: real)
    requires |bucket| <= limit && 1 <= limit && Opens(bucket, limit, now, true)
    ensures |Evict(bucket, now - SECOND)| < limit
  {
    EvictDrops(bucket, now - SECOND);
  }

  /** How long a refused caller sleeps, given the state its pass left. */
  function Pause(s: State, chat: int, now: real): real {
    Max(Max(Delay(s.global, now), Delay(Bucket(s.chats, chat), now)), NAP)
  }

  /** The asked time is the least that is a nap and lets both oldest sends grow one second old. */
  lemma PauseIsLeast(s: State, chat: int, now: real, d: real)
    ensures d >= Pause(s, chat, now) <==>
              && d >= 0.05
              && (s.global != [] ==> now + d >= s.global[0] + 1.0)
              && (chat in s.chats && s.chats[chat] != [] ==> now + d >= s.chats[chat][0] + 1.0)
  {
  }

  /** Whoever slept at least the asked time after each of two refusals is admitted at the third pass, when nobody
      else sent in between. */
  lemma ThirdPassAdmits(s: State, chat: int, t0: real, t1: real, t2: real, l: Limits)
    requires Inv(s, t0, l) && 1 <= l.global && 1 <= l.perChat && !Admits(s, chat, t0, l)
    requires var s1 := Attempt(s, chat, t0, l);
             && t1 >= t0 + Pause(s1, chat, t0) && !Admits(s1, chat, t1, l)
             && t2 >= t1 + Pause(Attempt(s1, chat, t1, l), chat, t1)
    ensures Admits(Attempt(Attempt(s, chat, t0, l), chat, t1, l), chat, t2, l)
  {
    BucketsBounded(s, t0, chat, l);
    var s1 := Attempt(s, chat, t0, l);
    var s2 := Attempt(s1, chat, t1, l);
    OpensTwice(s.global, l.global, t0, t1, t2);
    OpensTwice(Bucket(s.chats, chat), l.perChat, t0, t1, t2);
  }

  lemma OpensTwice(bucket: seq<real>, limit: nat, t0: real, t1: real, t2: real)
    requires |bucket| <= limit && 1 <= limit
    requires var b1 := Evict(bucket, t0 - SECOND); t1 >= t0 + Delay(b1, t0) && t1 >= t0 + NAP
    requires var b2 := Evict(Evict(bucket, t0 - SECOND), t1 - SECOND); t2 >= t1 + Delay(b2, t1) && t2 >= t1 + NAP
    ensures |Evict(Evict(Evict(bucket, t0 - SECOND), t1 - SECOND), t2 - SECOND)| < limit
  {
    var b1 := Evict(bucket, t0 - SECOND);
    EvictDrops(bucket, t0 - SECOND);
    EvictDrops(b1, t1 - SECOND);
    OpensNext(bucket, limit, t0, t1, false);
    OpensNext(b1, limit, t1, t2, true);
    OpenAtLast(Evict(b1, t1 - SECOND), limit, t2);
  }

  /** How a caller's wait ended: when, after how many sleeps, and whether with an admission. */
  datatype Visit = Visit(state: State, clock: real, sleeps: nat, admitted: bool)

  /** The loop of a caller nobody competes with, for as many sleeps as there is slack listed; `slack` is how much
      longer each sleep really takes. */
  function Lone(s: State, chat: int, now: real, slack: seq<real>, l: Limits): Visit
    decreases |slack|
  {
    var s' := Attempt(s, chat, now, l);
    if Admits(s, chat, now, l) then Visit(s', now, 0, true)
    else if slack == [] then Visit(s', now, 0, false)
    else
      var v := Lone(s', chat, now + Pause(s', chat, now) + slack[0], slack[1..], l);
      v.(sleeps := v.sleeps + 1)
  }

  predicate Delays(slack: seq<real>) {
    forall i :: 0 <= i < |slack| ==> slack[i] >= 0.0
  }

  lemma LoneOnce(s: State, chat: int, now: real, slack: seq<real>, l: Limits)
    requires Admits(s, chat, now, l)
    ensures Lone(s, chat, now, slack, l) == Visit(Attempt(s, chat, now, l), now, 0, true)
    ensures Attempt(s, chat, now, l).admitted == s.admitted + [(chat, now)]
  {
  }

  lemma LoneAgain(s: State, chat: int, now: real, slack: seq<real>, l: Limits)
    requires !Admits(s, chat, now, l) && slack != []
    ensures var s' := Attempt(s, chat, now, l);
            var v := Lone(s', chat, now + Pause(s', chat, now) + slack[0], slack[1..], l);
            && s'.admitted == s.admitted
            && Lone(s, chat, now, slack, l) == v.(sleeps := v.sleeps + 1)
  {
  }

  /** The visit ends with the caller's one admission, after at most `n` sleeps. */
  ghost predicate Served(s: State, chat: int, v: Visit, l: Limits, n: nat) {
    v.admitted && v.sleeps <= n && v.state.admitted == s.admitted + [(chat, v.clock)] && Inv(v.state, v.clock, l)
  }

  lemma ServedAtOnce(s: State, chat: int, before: real, now: real, slack: seq<real>, l: Limits)
    requires Inv(s, before, l) && before <= now && Admits(s, chat, now, l)
    ensures Served(s, chat, Lone(s, chat, now, slack, l), l, 0)
  {
    LoneOnce(s, chat, now, slack, l);
    AttemptKeeps(s, before, chat, now, l);
  }

  lemma ServedLater(s: State, chat: int, now: real, slack: seq<real>, l: Limits, n: nat)
    requires !Admits(s, chat, now, l) && slack != []
    requires var s' := Attempt(s, chat, now, l);
             Served(s', chat, Lone(s', chat, now + Pause(s', chat, now) + slack[0], slack[1..], l), l, n)
    ensures Served(s, chat, Lone(s, chat, now, slack, l), l, n + 1)
  {
    LoneAgain(s, chat, now, slack, l);
  }

  /** However much longer its sleeps take, a lone caller is admitted after at most two of them. */
  lemma TwoSleepsSuffice(s: State, chat: int, now: real, slack: seq<real>, l: Limits)
    requires Inv(s, now, l) && 1 <= l.global && 1 <= l.perChat && |slack| >= 2 && Delays(slack)
    ensures Served(s, chat, Lone(s, chat, now, slack, l), l, 2)
  {
    if Admits(s, chat, now, l) {
      ServedAtOnce(s, chat, now, now, slack, l);
    } else {
      var t1 := now + Pause(Attempt(s, chat, now, l), chat, now) + slack[0];
      OneSleepMore(s, chat, now, t1, slack[1..], l);
      ServedLater(s, chat, now, slack, l, 1);
    }
  }

  lemma OneSleepMore(s: State, chat: int, now: real, t1: real, slack: seq<real>, l: Limits)
    requires Inv(s, now, l) && 1 <= l.global && 1 <= l.perChat && |slack| >= 1 && slack[0] >= 0.0
    requires !Admits(s, chat, now, l) && t1 >= now + Pause(Attempt(s, chat, now, l), chat, now)
    ensures var s1 := Attempt(s, chat, now, l); Served(s1, chat, Lone(s1, chat, t1, slack, l), l, 1)
  {
    var s1 := Attempt(s, chat, now, l);
    AttemptKeeps(s, now, chat, now, l);
    if Admits(s1, chat, t1, l) {
      ServedAtOnce(s1, chat, now, t1, slack, l);
    } else {
      var s2 := Attempt(s1, chat, t1, l);
      var t2 := t1 + Pause(s2, chat, t1) + slack[0];
      ThirdPassAdmits(s, chat, now, t1, t2, l);
      AttemptKeeps(s1, now, chat, t1, l);
      ServedAtOnce(s2, chat, t1, t2, slack[1..], l);
      ServedLater(s1, chat, t1, slack, l, 0);
    }
  }

  class TelegramThrottle {
    const limits: Limits
    var globalHits: seq<real>
    var chatHits: map<int, seq<real>>
    var clock: real
    ghost var admitted: seq<(int, real)>

    ghost function S(): State
      reads this
    {
      State(globalHits, chatHits, admitted)
    }

    ghost predicate Valid()
      reads this
    {
      Inv(S(), clock, limits)
    }

    constructor (limits: Limits, clock: real)
      ensures Valid() && S() == INIT && this.limits == limits && this.clock == clock
    {
      this.limits, this.clock := limits, clock;
      globalHits, chatHits, admitted := [], map[], [];
      new;
      NothingTracks(clock, limits.global);
      NothingTracks(clock, limits.perChat);
      assert Times([]) == [];
    }

    method EvictBucket(bucket: seq<real>, now: real) returns (trimmed: seq<real>)
      ensures trimmed == Evict(bucket, now - SECOND)
    {
      trimmed := bucket;
      var edge := now - SECOND;
      while trimmed != [] && trimmed[0] < edge
        invariant Evict(trimmed, edge) == Evict(bucket, edge)
        decreases |trimmed|
      {
        trimmed := trimmed[1..];
      }
    }

    /** One pass under the lock: admitted, or the time to sleep before the next pass. */
    method Pass(chat: int) returns (delay: Option<real>)
      modifies this`globalHits, this`chatHits, this`admitted
      ensures S() == Attempt(old(S()), chat, clock, limits)
      ensures delay == if Admits(old(S()), chat, clock, limits) then None else Some(Pause(S(), chat, clock))
    {
      globalHits := EvictBucket(globalHits, clock);
      var bucket := EvictBucket(Bucket(chatHits, chat), clock);
      if |globalHits| < limits.global && |bucket| < limits.perChat {
        globalHits := globalHits + [clock];
        chatHits := chatHits[chat := bucket + [clock]];
        admitted := admitted + [(chat, clock)];
        return None;
      }
      chatHits := chatHits[chat := bucket];
      delay := Some(Max(Max(Delay(globalHits, clock), Delay(bucket, clock)), NAP));
    }

    /** A caller nobody competes with: pass and sleep until admitted. It goes through exactly the passes and
        sleeps of the lone visit, and sleeps at most twice. */
    method Wait(chat: int, slack: seq<real>) returns (sleeps: nat)
      requires Valid() && 1 <= limits.global && 1 <= limits.perChat && |slack| >= 2 && Delays(slack)
      modifies this
      ensures Valid() && sleeps <= 2 && admitted == old(admitted) + [(chat, clock)]
      ensures Visit(S(), clock, sleeps, true) == Lone(old(S()), chat, old(clock), slack, limits)
    {
      TwoSleepsSuffice(S(), chat, clock, slack, limits);
      sleeps := WaitLoop(chat, slack);
    }

    method WaitLoop(chat: int, slack: seq<real>) returns (sleeps: nat)
      requires Lone(S(), chat, clock, slack, limits).admitted
      modifies this
      ensures Visit(S(), clock, sleeps, true) == Lone(old(S()), chat, old(clock), slack, limits)
    {
      sleeps := 0;
      ghost var visit := Lone(S(), chat, clock, slack, limits);
      assert slack[0..] == slack;
      while true
        invariant sleeps <= |slack|
        invariant var v := Lone(S(), chat, clock, slack[sleeps..], limits); v.(sleeps := v.sleeps + sleeps) == visit
        decreases |slack| - sleeps
      {
        var delay := Pass(chat);
        if delay.None? {
          return;
        }
        assert slack[sleeps..][1..] == slack[sleeps + 1..];
        clock := clock + delay.value + slack[sleeps];
        sleeps := sleeps + 1;
      }
    }
  }

  lemma BucketsBounded(s: State, now: real, chat: int, l: Limits)
    requires Inv(s, now, l)
    ensures |s.global| <= l.global && |Bucket(s.chats, chat)| <= l.perChat
  {
    assert Tracks(Bucket(s.chats, chat), TimesOf(s.admitted, chat), now, SECOND, l.perChat);
  }

  lemma LaterInv(s: State, now: real, later: real, l: Limits)
    requires Inv(s, now, l) && now <= later
    ensures Inv(s, later, l)
  {
    LaterTracks(s.global, Times(s.admitted), now, later, SECOND, l.global);
    forall chat: int ensures Tracks(Bucket(s.chats, chat), TimesOf(s.admitted, chat), later, SECOND, l.perChat) {
      LaterTracks(Bucket(s.chats, chat), TimesOf(s.admitted, chat), now, later, SECOND, l.perChat);
    }
  }
}

/** Inbox workers that outlive their leases. Between its look into the log and its commit an attempt is open, and
    the commit does not look again; so here a commit may come at any time. An update still has at most one
    effect, as long as no attempt at it begins while another is open; and one that does always opens the way
    to a second effect. */
module LateAttempts {
  import opened Wrappers
  import opened LeaseQueue
  import opened QueueSafety
  import opened Inbox
  import LateWorkers

  /** Another worker has looked for the same update, found it unprocessed, and has not committed. */
  predicate Overlaps(w: InboxWorld, t: Ticket) {
    t.row in w.queue.rows
    && exists s :: s in w.open && s != t && !w.open[s].seen && w.open[s].update == w.queue.rows[t.row].key
  }

  predicate Apart(w: InboxWorld, step: InboxStep) {
    step.Begin? ==> !Overlaps(w, step.ticket)
  }

  ghost predicate IsApartRun(w: InboxWorld, steps: seq<InboxStep>, cfg: Config)
    requires Tallied(w.queue)
    decreases |steps|
  {
    steps == []
    || (InboxAllowed(w, steps[0], Anytime) && Apart(w, steps[0])
        && IsApartRun(InboxApply(w, steps[0], cfg), steps[1..], cfg))
  }

  ghost predicate Solo(w: InboxWorld) {
    && InboxInv(w) && (forall u: int :: w.effects[u] <= 1)
    && (forall t | Unseen(w, t) :: w.open[t].update !in w.log)
    && (forall s, t | Unseen(w, s) && Unseen(w, t) && w.open[s].update == w.open[t].update :: s == t)
  }

  lemma ApartStepKeeps(w: InboxWorld, step: InboxStep, cfg: Config)
    requires Solo(w) && InboxAllowed(w, step, Anytime) && Apart(w, step)
    ensures Solo(InboxApply(w, step, cfg))
  {
    InboxStepKeeps(w, step, cfg);
    ApartStep(w, step, cfg);
  }

  lemma ApartStep(w: InboxWorld, step: InboxStep, cfg: Config)
    requires Solo(w) && InboxAllowed(w, step, Anytime) && Apart(w, step)
    ensures var w' := InboxApply(w, step, cfg);
            && (forall u: int :: w'.effects[u] <= 1)
            && (forall t | Unseen(w', t) :: w'.open[t].update !in w'.log)
            && (forall s, t | Unseen(w', s) && Unseen(w', t) && w'.open[s].update == w'.open[t].update :: s == t)
  {
    var w' := InboxApply(w, step, cfg);
    assert step.Commit? ==> step.ticket !in w'.open;
    forall t | Unseen(w', t) ensures w'.open[t].update !in w'.log {
      assert (step.Begin? && step.ticket == t) || Unseen(w, t);
    }
  }

  lemma {:induction false} ApartRunKeeps(w: InboxWorld, steps: seq<InboxStep>, cfg: Config)
    requires Solo(w) && IsApartRun(w, steps, cfg)
    ensures Solo(InboxExec(w, steps, cfg))
    decreases |steps|
  {
    if steps != [] {
      ApartStepKeeps(w, steps[0], cfg);
      ApartRunKeeps(InboxApply(w, steps[0], cfg), steps[1..], cfg);
    }
  }

  /** However late the commits come: if attempts at one update are never open together, it has at most one
      effect, exactly when it is in the log. */
  lemma ApartAttemptsOnce(now: int, steps: seq<InboxStep>, cfg: Config, u: int)
    requires IsApartRun(InboxInit(now), steps, cfg)
    ensures var w := InboxExec(InboxInit(now), steps, cfg);
            w.effects[u] == if u in w.log then 1 else 0
  {
    ApartRunKeeps(InboxInit(now), steps, cfg);
  }

  lemma ApartCons(w: InboxWorld, step: InboxStep, rest: seq<InboxStep>, cfg: Config)
    requires Tallied(w.queue)
    ensures IsApartRun(w, [step] + rest, cfg) <==>
              InboxAllowed(w, step, Anytime) && Apart(w, step) && IsApartRun(InboxApply(w, step, cfg), rest, cfg)
    ensures InboxExec(w, [step] + rest, cfg) == InboxExec(InboxApply(w, step, cfg), rest, cfg)
  {
    assert ([step] + rest)[1..] == rest;
  }

  /** Two open attempts at one update both commit. */
  lemma BothCommit(w: InboxWorld, s: Ticket, t: Ticket, u: int, cfg: Config)
    requires Tallied(w.queue) && Unseen(w, s) && Unseen(w, t) && s != t
    requires s in w.queue.tickets && t in w.queue.tickets && s.row in w.queue.rows && t.row in w.queue.rows
    requires w.open[s].update == w.open[t].update == u
    ensures var steps := [Commit(s, Handled)] + ([Commit(t, Handled)] + []);
            IsApartRun(w, steps, cfg) && InboxExec(w, steps, cfg).effects[u] == w.effects[u] + 2
  {
    var a, b := Commit(s, Handled), Commit(t, Handled);
    var w' := InboxApply(w, a, cfg);
    assert Unseen(w', t) && w'.open[t] == w.open[t];
    ApartCons(w', b, [], cfg);
    ApartCons(w, a, [b] + [], cfg);
  }

  lemma OverlapDoubles(w: InboxWorld, t: Ticket, cfg: Config) returns (steps: seq<InboxStep>, u: int)
    requires Solo(w) && InboxAllowed(w, Begin(t), Anytime) && Overlaps(w, t)
    ensures var w' := InboxApply(w, Begin(t), cfg);
            IsApartRun(w', steps, cfg) && InboxExec(w', steps, cfg).effects[u] >= 2
    ensures u == w.queue.rows[t.row].key
  {
    u := w.queue.rows[t.row].key;
    var s :| s in w.open && s != t && !w.open[s].seen && w.open[s].update == u;
    assert AttemptOk(w, s) && Unseen(w, s);
    BothCommit(InboxApply(w, Begin(t), cfg), s, t, u, cfg);
    steps := [Commit(s, Handled)] + ([Commit(t, Handled)] + []);
  }

  /** Whatever happens next short of another overlap, no update has more than one effect. */
  ghost predicate HandledOnceFrom(w: InboxWorld, cfg: Config)
    requires Tallied(w.queue)
  {
    forall steps, u: int | IsApartRun(w, steps, cfg) :: InboxExec(w, steps, cfg).effects[u] <= 1
  }

  /** What a worker could check before it starts on a row: beginning is safe exactly when no other attempt at
      the update is open. */
  lemma BeginSafeWhen(w: InboxWorld, t: Ticket, cfg: Config)
    requires Solo(w) && InboxAllowed(w, Begin(t), Anytime)
    ensures HandledOnceFrom(InboxApply(w, Begin(t), cfg), cfg) <==> !Overlaps(w, t)
  {
    var w' := InboxApply(w, Begin(t), cfg);
    if Overlaps(w, t) {
      var steps, u := OverlapDoubles(w, t, cfg);
    } else {
      ApartStepKeeps(w, Begin(t), cfg);
      forall steps, u: int | IsApartRun(w', steps, cfg) ensures InboxExec(w', steps, cfg).effects[u] <= 1 {
        ApartRunKeeps(w', steps, cfg);
      }
    }
  }

  /** While leases are kept, a live worker only ever overlaps with one whose lease has run out. */
  lemma OverlapNeedsExpiry(w: InboxWorld, t: Ticket, cfg: Config)
    requires OnceInv(w, cfg) && t in w.queue.tickets && w.queue.now <= t.until && Overlaps(w, t)
    ensures exists s :: Unseen(w, s) && w.open[s].update == w.queue.rows[t.row].key && s.until < w.queue.now
  {
    var s :| s in w.open && s != t && !w.open[s].seen && w.open[s].update == w.queue.rows[t.row].key;
    assert AttemptOk(w, s) && Unseen(w, s);
    assert Matches(w.queue.rows, t);
    assert s.row in w.queue.rows && s.row == t.row;
    assert w.queue.now <= s.until ==> Matches(w.queue.rows, s);
  }

  // ----- That it can come to this -----

  lemma {:induction false} ApartIsRun(w: InboxWorld, steps: seq<InboxStep>, cfg: Config)
    requires Tallied(w.queue) && IsApartRun(w, steps, cfg)
    ensures IsInboxRun(w, steps, Anytime, cfg)
    decreases |steps|
  {
    if steps != [] {
      ApartIsRun(InboxApply(w, steps[0], cfg), steps[1..], cfg);
    }
  }

  lemma {:induction false} RunsJoin(w: InboxWorld, a: seq<InboxStep>, b: seq<InboxStep>, cfg: Config)
    requires Tallied(w.queue)
    ensures IsInboxRun(w, a + b, Anytime, cfg) <==>
              IsInboxRun(w, a, Anytime, cfg) && IsInboxRun(InboxExec(w, a, cfg), b, Anytime, cfg)
    ensures IsApartRun(w, a + b, cfg) <==> IsApartRun(w, a, cfg) && IsApartRun(InboxExec(w, a, cfg), b, cfg)
    ensures InboxExec(w, a + b, cfg) == InboxExec(InboxExec(w, a, cfg), b, cfg)
    decreases |a|
  {
    if a == [] {
      assert a + b == b;
    } else {
      assert (a + b)[0] == a[0] && (a + b)[1..] == a[1..] + b;
      RunsJoin(InboxApply(w, a[0], cfg), a[1..], b, cfg);
    }
  }

  /** Any run without overlaps that ends where one is about to happen goes on to a second effect. */
  lemma OverlapRuns(w: InboxWorld, before: seq<InboxStep>, t: Ticket, cfg: Config) returns (steps: seq<InboxStep>)
    requires Solo(w) && IsApartRun(w, before, cfg)
    requires InboxAllowed(InboxExec(w, before, cfg), Begin(t), Anytime) && Overlaps(InboxExec(w, before, cfg), t)
    ensures IsInboxRun(w, steps, Anytime, cfg)
    ensures InboxExec(w, steps, cfg).effects[InboxExec(w, before, cfg).queue.rows[t.row].key] >= 2
  {
    var w1 := InboxExec(w, before, cfg);
    ApartRunKeeps(w, before, cfg);
    var last, u := OverlapDoubles(w1, t, cfg);
    ApartIsRun(w, before, cfg);
    ApartIsRun(InboxApply(w1, Begin(t), cfg), last, cfg);
    assert ([Begin(t)] + last)[1..] == last;
    RunsJoin(w, before, [Begin(t)] + last, cfg);
    steps := before + ([Begin(t)] + last);
  }

  const FIRST_TICKET := Ticket(0, "a", 60)
  const SECOND_TICKET := Ticket(0, "b", 121)

  const RECEIVED: seq<InboxStep> := [Webhook(7)] + ([Other(Claim({}, "a"))] + [])
  const RECLAIMED: seq<InboxStep> := [Begin(FIRST_TICKET)] + ([Other(Tick(61))] + ([Other(Claim({}, "b"))] + []))

  /** Row 0 holds update 7, leased to the first worker. */
  ghost predicate Leased(w: InboxWorld) {
    && Tallied(w.queue) && w.queue.rows.Keys == {0} && w.queue.rows[0].key == 7 && w.queue.rows[0].kind == Update
    && w.queue.rows[0].status == Processing && w.queue.rows[0].leasedUntil == Some(60) && w.queue.rows[0].attempts == 0
    && w.queue.now == 0 && w.queue.tickets == {FIRST_TICKET} && w.open == map[] && w.log == {}
  }

  lemma Received() returns (w: InboxWorld)
    ensures IsApartRun(InboxInit(0), RECEIVED, LateWorkers.DEFAULTS)
    ensures w == InboxExec(InboxInit(0), RECEIVED, LateWorkers.DEFAULTS) && Leased(w)
  {
    var w0, cfg := InboxInit(0), LateWorkers.DEFAULTS;
    var w1 := InboxApply(w0, Webhook(7), cfg);
    assert w1.queue.rows == map[0 := NewRow(Update, 7, None, 0)];
    assert w1.queue.rows.Keys - {0} == {};
    LateWorkers.OnlyClaim(w1.queue, 0, "a", cfg);
    w := InboxApply(w1, Other(Claim({}, "a")), cfg);
    ApartCons(w1, Other(Claim({}, "a")), [], cfg);
    ApartCons(w0, Webhook(7), [Other(Claim({}, "a"))] + [], cfg);
  }

  lemma Reclaimed(w: InboxWorld) returns (w': InboxWorld)
    requires Leased(w)
    ensures IsApartRun(w, RECLAIMED, LateWorkers.DEFAULTS) && w' == InboxExec(w, RECLAIMED, LateWorkers.DEFAULTS)
    ensures 0 in w'.queue.rows && w'.queue.rows[0].key == 7
    ensures SECOND_TICKET in w'.queue.tickets && w'.open == map[FIRST_TICKET := Attempt(7, false)]
  {
    var cfg := LateWorkers.DEFAULTS;
    var w1 := InboxApply(w, Begin(FIRST_TICKET), cfg);
    var w2 := InboxApply(w1, Other(Tick(61)), cfg);
    assert w2.queue.rows.Keys - {0} == {};
    LateWorkers.OnlyClaim(w2.queue, 0, "b", cfg);
    w' := InboxApply(w2, Other(Claim({}, "b")), cfg);
    ApartCons(w2, Other(Claim({}, "b")), [], cfg);
    ApartCons(w1, Other(Tick(61)), [Other(Claim({}, "b"))] + [], cfg);
    ApartCons(w, Begin(FIRST_TICKET), [Other(Tick(61))] + ([Other(Claim({}, "b"))] + []), cfg);
  }

  /** From an empty inbox: a worker looks up an update, its lease runs out inside the handler, another worker takes
      the row, and both commit. */
  lemma LateWorkerHandlesTwice() returns (steps: seq<InboxStep>)
    ensures IsInboxRun(InboxInit(0), steps, Anytime, LateWorkers.DEFAULTS)
    ensures InboxExec(InboxInit(0), steps, LateWorkers.DEFAULTS).effects[7] >= 2
  {
    var w := Received();
    var w' := Reclaimed(w);
    RunsJoin(InboxInit(0), RECEIVED, RECLAIMED, LateWorkers.DEFAULTS);
    assert FIRST_TICKET in w'.open;
    steps := OverlapRuns(InboxInit(0), RECEIVED + RECLAIMED, SECOND_TICKET, LateWorkers.DEFAULTS);
  }
}

/** The retry delay holds: a failed row is left alone until it is due, over every run and however late other
    deliveries come. */
module QueueDelays {
  import opened Wrappers
  import opened LeaseQueue
  import opened QueueEdges
  import opened QueueSafety
  import opened QueueTheorems

  lemma {:induction false} BackoffGrows(a: nat, b: nat)
    requires a <= b
    ensures BackoffSeconds(a) <= BackoffSeconds(b)
    decreases b
  {
    if a < b {
      BackoffGrows(a, b - 1);
      BackoffDoubles(b - 1);
    }
  }

  /** Not in hand, not due before a failure at `at` with `attempts` allows it, and not claimed since. */
  predicate Resting(r: Row, at: int, attempts: nat) {
    && r.status != Processing && r.attempts >= attempts
    && (r.status == Pending ==> r.nextAttemptAt >= at + BackoffSeconds(attempts))
  }

  ghost predicate Rests(w: World, i: Id, at: int, attempts: nat, claims: nat) {
    && Tallied(w) && i < w.nextId && at <= w.now
    && (i in w.rows ==> Resting(w.rows[i], at, attempts) && w.tally[i].claims == claims)
  }

  lemma DeliveryRests(r: Row, r': Row, o: Outcome, at: int, attempts: nat, now: int, maxAttempts: nat)
    requires Resting(r, at, attempts) && at <= now && DeliveryMakes(r, r', o, now, maxAttempts)
    ensures Resting(r', at, attempts)
  {
    BackoffGrows(attempts, r.attempts + 1);
  }

  lemma StepRests(w: World, step: Step, i: Id, at: int, attempts: nat, claims: nat, cfg: Config)
    requires Rests(w, i, at, attempts, claims) && Enabled(w, step) && !(step.Replay? && step.id == i)
    requires w.now < at + BackoffSeconds(attempts)
    ensures Rests(Apply(w, step, cfg), i, at, attempts, claims)
  {
    var w' := Apply(w, step, cfg);
    if i in w.rows && i in w'.rows {
      RowDiagram(w, step, i, cfg);
      match step
      case Deliver(t, o) =>
        if t.row == i { DeliveryRests(w.rows[i], w'.rows[i], o, at, attempts, w.now, cfg.maxAttempts); }
      case Claim(locked, owner) => ClaimedWhen(w.rows, locked, w.now, cfg, i);
      case _ =>
    } else if i in w'.rows {
      NewRowIs(w, step, i, cfg);
    }
  }

  lemma TimeGrows(w: World, step: Step, cfg: Config)
    requires Tallied(w)
    ensures w.now <= Apply(w, step, cfg).now
  {
  }

  lemma {:induction false} RunTimeGrows(w: World, steps: seq<Step>, cfg: Config)
    requires Tallied(w)
    ensures w.now <= Exec(w, steps, cfg).now
    decreases |steps|
  {
    if steps != [] {
      TimeGrows(w, steps[0], cfg);
      RunTimeGrows(Apply(w, steps[0], cfg), steps[1..], cfg);
    }
  }

  lemma {:induction false} RunRests(w: World, steps: seq<Step>, i: Id, at: int, attempts: nat, claims: nat, cfg: Config)
    requires Rests(w, i, at, attempts, claims) && IsRun(w, steps, Anytime, cfg) && NoReplay(steps, i)
    requires Exec(w, steps, cfg).now < at + BackoffSeconds(attempts)
    ensures Rests(Exec(w, steps, cfg), i, at, attempts, claims)
    decreases |steps|
  {
    if steps != [] {
      var w', rest := Apply(w, steps[0], cfg), steps[1..];
      assert NoReplay(rest, i) by { assert forall k :: 0 <= k < |rest| ==> rest[k] == steps[k + 1]; }
      RunTimeGrows(w', rest, cfg);
      TimeGrows(w, steps[0], cfg);
      StepRests(w, steps[0], i, at, attempts, claims, cfg);
      RunRests(w', rest, i, at, attempts, claims, cfg);
    }
  }

  /** A row sent back at `t` with its n-th attempt used is not claimed again before `t` plus the n-th delay, whatever
      workers, operators and retention do short of replaying it. */
  lemma NotBeforeRetry(w: World, t: Ticket, error: string, steps: seq<Step>, locked: set<Id>, cfg: Config)
    requires Tallied(w) && t in w.tickets && t.row in w.rows && t.row < w.nextId
    requires var failed := Apply(w, Deliver(t, Refused(error)), cfg);
             failed.rows[t.row].status == Pending && IsRun(failed, steps, Anytime, cfg) && NoReplay(steps, t.row)
    ensures var failed := Apply(w, Deliver(t, Refused(error)), cfg);
            var v := Exec(failed, steps, cfg);
            v.now < w.now + BackoffSeconds(w.rows[t.row].attempts + 1) && t.row in v.rows ==>
              && v.rows[t.row].status != Processing && v.tally[t.row].claims == failed.tally[t.row].claims
              && t.row !in ClaimIds(v.rows, locked, v.now, cfg)
  {
    var i, a := t.row, w.rows[t.row].attempts + 1;
    var failed := Apply(w, Deliver(t, Refused(error)), cfg);
    var v := Exec(failed, steps, cfg);
    RowDiagram(w, Deliver(t, Refused(error)), i, cfg);
    if v.now < w.now + BackoffSeconds(a) {
      RunRests(failed, steps, i, w.now, a, failed.tally[i].claims, cfg);
      ClaimedWhen(v.rows, locked, v.now, cfg, i);
    }
  }

  /** And it is due exactly from then on. */
  lemma DueAfterRetry(r: Row, error: string, now: int, later: int, maxAttempts: nat)
    requires DeliverRow(r, Refused(error), now, maxAttempts).status == Pending
    ensures UpForClaim(DeliverRow(r, Refused(error), now, maxAttempts), later) <==>
            later >= now + BackoffSeconds(r.attempts + 1)
  {
    DeliveryEdge(r, Refused(error), now, maxAttempts);
  }
}

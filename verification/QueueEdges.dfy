/** What each step of the queue makes of one row, in the row's own fields. */
module QueueEdges {
  import opened Wrappers
  import opened Texts
  import opened LeaseQueue

  // ----- Whose turn it is -----

  /** Waiting, due and under no live lease; or in hand under a lease that ran out. */
  predicate UpForClaim(r: Row, now: int) {
    || (r.status == Pending && r.nextAttemptAt <= now && !(r.leasedUntil.Some? && now <= r.leasedUntil.value))
    || (r.status == Processing && r.leasedUntil.Some? && r.leasedUntil.value < now)
  }

  function UpBefore(rows: map<Id, Row>, locked: set<Id>, now: int, i: Id): set<Id> {
    set k | k in rows && k !in locked && k < i && UpForClaim(rows[k], now)
  }

  /** Unlocked, up for a claim, and with fewer such rows before it than a batch holds. */
  predicate HasTurn(rows: map<Id, Row>, locked: set<Id>, now: int, batchSize: nat, i: Id) {
    i in rows && i !in locked && UpForClaim(rows[i], now) && |UpBefore(rows, locked, now, i)| < batchSize
  }

  function Below(s: set<nat>, i: nat): set<nat> {
    set k | k in s && k < i
  }

  lemma BelowLeast(s: set<nat>, m: nat, i: nat)
    requires IsLeast(m, s)
    ensures |Below(s, m)| == 0
    ensures i in s && i != m ==> |Below(s, i)| == |Below(s - {m}, i)| + 1
  {
    assert Below(s, m) == {};
    if i in s && i != m {
      assert Below(s, i) == Below(s - {m}, i) + {m};
    }
  }

  lemma LowestSplits(s: set<nat>, n: nat, i: nat)
    requires n > 0 && s != {}
    ensures i in LowestIds(s, n) <==> i == Least(s) || i in LowestIds(s - {Least(s)}, n - 1)
  {
  }

  predicate AmongLowest(s: set<nat>, n: nat, i: nat) {
    i in s && |Below(s, i)| < n
  }

  lemma AmongSplits(s: set<nat>, n: nat, i: nat)
    requires n > 0 && s != {}
    ensures AmongLowest(s, n, i) <==> i == Least(s) || AmongLowest(s - {Least(s)}, n - 1, i)
  {
    BelowLeast(s, Least(s), i);
  }

  lemma {:induction false} LowestWhen(s: set<nat>, n: nat, i: nat)
    ensures i in LowestIds(s, n) <==> AmongLowest(s, n, i)
    decreases n
  {
    if n > 0 && s != {} {
      LowestWhen(s - {Least(s)}, n - 1, i);
      LowestSplits(s, n, i);
      AmongSplits(s, n, i);
    }
  }

  /** A claim takes exactly the rows whose turn it is. */
  lemma ClaimedWhen(rows: map<Id, Row>, locked: set<Id>, now: int, cfg: Config, i: Id)
    ensures i in ClaimIds(rows, locked, now, cfg) <==> HasTurn(rows, locked, now, cfg.batchSize, i)
  {
    var s := ClaimSet(rows, locked, now);
    LowestWhen(s, cfg.batchSize, i);
    assert Below(s, i) == UpBefore(rows, locked, now, i);
  }

  // ----- The edges -----

  predicate MayAskTwice(r: Row) {
    r.kind == Ask || r.kind == Bargain
  }

  /** The texts after which Telegram may have sent the message all the same. */
  predicate SaysUncertain(error: string) {
    var text := Lower(error);
    Contains(text, "business_peer_usage_missing") || Contains(text, "recently") || Contains(text, "timeout")
    || Contains(text, "timed out")
  }

  lemma MarkerWhen(error: string)
    ensures HasUncertainMarker(error) <==> SaysUncertain(error)
  {
    var text := Lower(error);
    if SaysUncertain(error) {
      var k := if Contains(text, "business_peer_usage_missing") then 0 else if Contains(text, "recently") then 1
               else if Contains(text, "timeout") then 2 else 3;
      assert Contains(text, UNCERTAIN_MARKERS[k]);
    }
  }

  /** The worker that claimed the row may deliver it. */
  predicate Handed(r: Row, maxAttempts: nat) {
    r.status == Pending || (r.status == Processing && !MayAskTwice(r) && r.attempts + 1 < maxAttempts)
  }

  /** One claim: a waiting row is leased. One whose lease ran out becomes uncertain (ask, bargain), or uses up an
      attempt and is leased again or dead. */
  predicate ClaimMakes(r: Row, r': Row, owner: string, now: int, cfg: Config) {
    var leased := r.(status := Processing, leaseOwner := Some(owner), leasedUntil := Some(now + cfg.leaseSeconds));
    if r.status == Pending then r' == leased
    else if MayAskTwice(r) then
      r' == r.(status := Uncertain, lastError := Some("lease_expired"), leaseOwner := None, leasedUntil := None)
    else if r.attempts + 1 < cfg.maxAttempts then
      r' == leased.(attempts := r.attempts + 1, lastError := Some("lease_expired"))
    else
      r' == r.(status := Dead, attempts := r.attempts + 1, lastError := Some("lease_expired"),
               leaseOwner := None, leasedUntil := None)
  }

  /** One delivery: sent; uncertain; or failed, with one more attempt used and a later retry or none. A worker lost
      on the way leaves no trace. */
  predicate DeliveryMakes(r: Row, r': Row, o: Outcome, now: int, maxAttempts: nat) {
    var free := r.(leaseOwner := None, leasedUntil := None);
    match o
    case Accepted(m) => r' == free.(status := Finished, messageId := m, finishedAt := Some(now))
    case Refused(e) =>
      if MayAskTwice(r) && SaysUncertain(e) then r' == free.(status := Uncertain, lastError := Some(e))
      else if r.attempts + 1 < maxAttempts then
        r' == free.(status := Pending, attempts := r.attempts + 1, lastError := Some(e),
                    nextAttemptAt := now + BackoffSeconds(r.attempts + 1))
      else r' == free.(status := Dead, attempts := r.attempts + 1, lastError := Some(e))
    case _ => r' == r
  }

  /** Dead or uncertain and not resolved. */
  predicate Unsettled(r: Row) {
    r.resolvedAt.None? && (r.status == Dead || r.status == Uncertain)
  }

  /** An uncertain ask or bargain needs the operator's confirmation. */
  predicate MayReplay(r: Row, confirmed: bool) {
    Unsettled(r) && (confirmed || r.status == Dead || !MayAskTwice(r))
  }

  predicate ReplayMakes(r: Row, r': Row, now: int) {
    r' == r.(status := Pending, attempts := 0, nextAttemptAt := now, lastError := None, leaseOwner := None,
             leasedUntil := None)
  }

  predicate SentBefore(r: Row, cutoff: int) {
    r.status == Finished && r.finishedAt.Some? && r.finishedAt.value < cutoff
  }

  lemma ClaimEdge(r: Row, owner: string, now: int, cfg: Config)
    requires UpForClaim(r, now)
    ensures ClaimMakes(r, ClaimRow(r, owner, now, cfg), owner, now, cfg)
    ensures Kept(r, cfg.maxAttempts) <==> Handed(r, cfg.maxAttempts)
  {
  }

  lemma DeliveryEdge(r: Row, o: Outcome, now: int, maxAttempts: nat)
    ensures DeliveryMakes(r, DeliverRow(r, o, now, maxAttempts), o, now, maxAttempts)
  {
    if o.Refused? {
      MarkerWhen(o.error);
    }
  }

  /** A whole claim, row by row. */
  lemma ClaimEdges(rows: map<Id, Row>, locked: set<Id>, owner: string, now: int, cfg: Config, i: Id)
    requires i in rows
    ensures var rows' := ClaimRows(rows, ClaimIds(rows, locked, now, cfg), owner, now, cfg);
            && i in rows'
            && if HasTurn(rows, locked, now, cfg.batchSize, i) then ClaimMakes(rows[i], rows'[i], owner, now, cfg)
               else rows'[i] == rows[i]
    ensures HasTurn(rows, locked, now, cfg.batchSize, i) ==>
              (Kept(rows[i], cfg.maxAttempts) <==> Handed(rows[i], cfg.maxAttempts))
  {
    ClaimedWhen(rows, locked, now, cfg, i);
    if HasTurn(rows, locked, now, cfg.batchSize, i) {
      ClaimEdge(rows[i], owner, now, cfg);
    }
  }
}

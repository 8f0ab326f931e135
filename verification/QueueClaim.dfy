/** The claim shared by both queues, as the workers run it. */
module QueueClaim {
  import opened Wrappers
  import opened LeaseQueue
  import opened QueueEdges

  /** The expiry handlers: an ask or bargain becomes uncertain; any other outbox row, and every inbox row,
      uses up an attempt. False means the row must not run again. */
  method OnExpired(row: Row, maxAttempts: nat) returns (r: Row, keep: bool)
    requires row.status == Processing
    ensures r == ExpireRow(row, maxAttempts)
    ensures keep <==> r.status == Processing
    ensures Unsafe(row.kind) ==> r.status == Uncertain && r.attempts == row.attempts && r.leasedUntil.None?
  {
    r := row;
    if Unsafe(r.kind) {
      r := r.(status := Uncertain, lastError := Some("lease_expired"), leaseOwner := None, leasedUntil := None);
      return r, false;
    }
    r := r.(attempts := r.attempts + 1, lastError := Some("lease_expired"));
    if r.attempts >= maxAttempts {
      r := r.(status := Dead, leaseOwner := None, leasedUntil := None);
      return r, false;
    }
    return r, true;
  }

  method LeaseOne(row: Row, owner: string, now: int, cfg: Config) returns (r: Row, keep: bool)
    ensures r == ClaimRow(row, owner, now, cfg)
    ensures keep <==> Kept(row, cfg.maxAttempts)
    ensures keep ==> r.leaseOwner == Some(owner) && r.leasedUntil == Some(now + cfg.leaseSeconds)
    ensures UpForClaim(row, now) ==>
              ClaimMakes(row, r, owner, now, cfg) && (keep <==> Handed(row, cfg.maxAttempts))
  {
    r, keep := row, true;
    if row.status == Processing {
      r, keep := OnExpired(row, cfg.maxAttempts);
    }
    if keep {
      r := r.(status := Processing, leaseOwner := Some(owner), leasedUntil := Some(now + cfg.leaseSeconds));
    }
  }

  /** Lease the locked rows one by one; the database returns them in no particular order. */
  method LeaseRows(rows: map<Id, Row>, ids: seq<Id>, owner: string, now: int, cfg: Config)
    returns (table: map<Id, Row>, claimed: seq<Id>)
    requires forall i | i in ids :: i in rows
    ensures table == LeaseQueue.ClaimRows(rows, ids, owner, now, cfg)
    ensures forall i :: i in claimed <==> i in ids && Kept(rows[i], cfg.maxAttempts)
    ensures forall a, b :: 0 <= a < b < |claimed| ==> claimed[a] != claimed[b]
  {
    var todo := set i | i in ids;
    table, claimed := rows, [];
    while todo != {}
      invariant todo <= set i | i in ids
      invariant table.Keys == rows.Keys
      invariant forall i | i in rows ::
                  table[i] == if i in ids && i !in todo then ClaimRow(rows[i], owner, now, cfg) else rows[i]
      invariant forall i :: i in claimed <==> i in ids && i !in todo && Kept(rows[i], cfg.maxAttempts)
      invariant forall a, b :: 0 <= a < b < |claimed| ==> claimed[a] != claimed[b]
      decreases todo
    {
      var i :| i in todo;
      todo := todo - {i};
      var row, keep := LeaseOne(table[i], owner, now, cfg);
      if keep {
        claimed := claimed + [i];
      }
      table := table[i := row];
    }
  }

  /** Claim pending rows and expired leases under one lock. */
  method ClaimRows(rows: map<Id, Row>, locked: set<Id>, owner: string, now: int, cfg: Config)
    returns (table: map<Id, Row>, claimed: seq<Id>)
    ensures table == LeaseQueue.ClaimRows(rows, ClaimIds(rows, locked, now, cfg), owner, now, cfg)
    ensures forall i :: i in claimed <==>
              i in ClaimIds(rows, locked, now, cfg) && i in rows && Kept(rows[i], cfg.maxAttempts)
    ensures forall a, b :: 0 <= a < b < |claimed| ==> claimed[a] != claimed[b]
    ensures table.Keys == rows.Keys
    ensures forall i | i in rows :: if HasTurn(rows, locked, now, cfg.batchSize, i)
              then ClaimMakes(rows[i], table[i], owner, now, cfg) else table[i] == rows[i]
    ensures forall i :: i in claimed <==>
              HasTurn(rows, locked, now, cfg.batchSize, i) && Handed(rows[i], cfg.maxAttempts)
  {
    var ids := ClaimIds(rows, locked, now, cfg);
    forall i ensures i in ids <==> HasTurn(rows, locked, now, cfg.batchSize, i) {
      ClaimedWhen(rows, locked, now, cfg, i);
    }
    forall i | i in rows
      ensures if HasTurn(rows, locked, now, cfg.batchSize, i)
              then ClaimMakes(rows[i], ClaimRow(rows[i], owner, now, cfg), owner, now, cfg)
                     && (Kept(rows[i], cfg.maxAttempts) <==> Handed(rows[i], cfg.maxAttempts))
              else i !in ids
    {
      ClaimEdges(rows, locked, owner, now, cfg, i);
    }
    table, claimed := LeaseRows(rows, ids, owner, now, cfg);
  }

  /** A limit without an order: any `n` of the candidates, or all of them when there are fewer. */
  method PickBatch(candidates: set<Id>, n: nat) returns (picked: set<Id>)
    ensures picked <= candidates && |picked| <= n
    ensures |picked| < n ==> picked == candidates
  {
    var left := candidates;
    picked := {};
    while |picked| < n && left != {}
      invariant |picked| <= n && left !! picked && left + picked == candidates
      decreases left
    {
      var i :| i in left;
      left, picked := left - {i}, picked + {i};
    }
  }
}

/** The statements of the event-analysis worker, updating the job rows in place, and one whole claim.

    `src/lib/analysis/event-analysis-worker.ts`. */
module EventJobTable {
  import opened Common
  import opened Enrichment
  import opened EventJobs
  import opened EventBudget

  class JobTable {
    var rows: map<JobKey, Row>

    constructor ()
      ensures rows == map[]
    {
      rows := map[];
    }

    /** A statement keyed by the full primary key: it updates one row, or none. */
    method Update(key: JobKey, row: Row)
      modifies this
      ensures rows == if key in old(rows) then old(rows)[key := row] else old(rows)
    {
      if key in rows {
        rows := rows[key := row];
      }
    }

    method Seed(key: JobKey, day: int, version: string, hasLeaf: bool)
      modifies this
      ensures rows == SeededRows(old(rows), key, day, version, hasLeaf)
    {
      if hasLeaf && key !in rows { return; }
      if key !in rows {
        rows := rows[key := Row(Queued, None, day, 0, version)];
      } else if rows[key].status != InProcess {
        rows := rows[key := rows[key].(baselineVersion := version)];
      }
    }

    method ClaimJob(p: Pickup) returns (won: bool)
      modifies this
      ensures won == GuardMatches(old(rows), p)
      ensures rows == if won then old(rows)[p.key := ClaimedRow(old(rows)[p.key])] else old(rows)
    {
      won := p.key in rows && rows[p.key].status == Queued && rows[p.key].attempts == p.attempts;
      if won {
        rows := rows[p.key := rows[p.key].(status := InProcess)];
      }
    }

    /** Count, decide and stamp under the lock of the customer's day. */
    method ReserveTierB(p: Pickup, cap: nat) returns (admitted: bool)
      modifies this
      ensures admitted <==> Admits(old(rows), p, cap)
      ensures rows ==
          if p.key in old(rows) then old(rows)[p.key := ReservedRow(old(rows)[p.key], admitted)] else old(rows)
    {
      var n := |set k | k in rows && k.event.customer == p.key.event.customer && rows[k].budgetDay == p.budgetDay
                        && rows[k].tier == Some(TierB) && rows[k].status != BudgetSkipped|;
      assert (set k | k in rows && k.event.customer == p.key.event.customer && rows[k].budgetDay == p.budgetDay
                      && rows[k].tier == Some(TierB) && rows[k].status != BudgetSkipped)
        == Admitted(rows, p.key.event.customer, p.budgetDay);
      admitted := cap > 0 && n < cap;
      if p.key in rows {
        var row := rows[p.key].(tier := Some(TierB));
        rows := rows[p.key :=
          if admitted then row.(status := InProcess, attempts := 0) else row.(status := BudgetSkipped)];
      }
    }

    method RequeueOrFail(key: JobKey, attempts: nat, maxAttempts: nat)
      modifies this
      ensures rows ==
          if key in old(rows) then old(rows)[key := RetriedRow(old(rows)[key], attempts, maxAttempts)] else old(rows)
    {
      if key in rows {
        var next := attempts + 1;
        if next >= maxAttempts {
          Update(key, rows[key].(status := JobFailed, attempts := next));
        } else {
          Update(key, rows[key].(status := Queued, attempts := next));
        }
      }
    }

    method RecoverStuck(stuck: set<JobKey>)
      modifies this
      ensures rows.Keys == old(rows).Keys
      ensures forall k :: k in rows ==> rows[k] == if k in stuck then RecoveredRow(old(rows)[k]) else old(rows)[k]
    {
      rows := map k | k in rows ::
        if k in stuck && rows[k].status == InProcess then rows[k].(status := Queued) else rows[k];
    }

    /** The analysis outcome of a claimed job, written with the attempt count the worker carries. */
    method SettleAnalysis(key: JobKey, attempts: nat, analysis: Analysis, maxAttempts: nat)
      requires key in rows
      modifies this
      ensures rows == old(rows)[key := AnalyzedRow(old(rows)[key], attempts, analysis, maxAttempts)]
    {
      match analysis {
        case Analyzed => if rows[key].status == InProcess { Update(key, rows[key].(status := JobDone)); }
        case WentStale => if rows[key].status == InProcess { Update(key, rows[key].(status := JobDone)); }
        case SourceGone => Update(key, rows[key].(status := JobFailed));
        case Errored => RequeueOrFail(key, attempts, maxAttempts);
      }
    }

    /** `processEventJob` for a native job: a claim that loses the guard changes nothing; one that wins
        takes the row exactly where `Processed` says, admission being decided by the budget. */
    method ProcessNativeJob(p: Pickup, e: Episode, cap: nat, maxEnrichment: int, maxAttempts: nat) returns (won: bool)
      modifies this
      ensures won == GuardMatches(old(rows), p)
      ensures !won ==> rows == old(rows)
      ensures won ==>
                var claimed := old(rows)[p.key := ClaimedRow(old(rows)[p.key])];
                rows == old(rows)[p.key :=
                  Processed(old(rows)[p.key], p.tier, e.(admitted := Admits(claimed, p, cap)), maxEnrichment,
                    maxAttempts)]
      ensures won && e.eligible && p.tier.None? && p.attempts + 1 < maxEnrichment && !e.aged
                && rows[p.key].status == BudgetSkipped ==>
                exists v :: (v == e.first || v == e.second) && v.Some? && !v.value.knownIocHit
                  && v.value.status == StatusComplete && v.value.coverage == Complete
    {
      if GuardMatches(rows, p) {
        var claimed := rows[p.key := ClaimedRow(rows[p.key])];
        ClaimEnds(rows[p.key], p.tier, e.(admitted := Admits(claimed, p, cap)), maxEnrichment, maxAttempts);
        DecisionTable(e.first, e.second, e.tierAEnabled, p.attempts, maxEnrichment, e.aged);
      }
      won := ClaimJob(p);
      if !won { return; }
      if !e.eligible {
        Update(p.key, rows[p.key].(status := JobDone));
        return;
      }
      var attempts := p.attempts;
      if p.tier.None? {
        var verdict := ClassifyVerdict(e.first);
        if verdict == ToHold {
          verdict := ClassifyVerdict(e.second);
        }
        var exhausted := attempts + 1 >= maxEnrichment || e.aged;
        if (verdict == ToTierA && !e.tierAEnabled) || (verdict == ToHold && !exhausted) {
          Update(p.key, rows[p.key].(status := Queued, attempts := attempts + 1));
          return;
        }
        if verdict == ToTierA {
          Update(p.key, rows[p.key].(tier := Some(TierA), attempts := 0));
        } else {
          var admitted := ReserveTierB(p, cap);
          if !admitted { return; }
        }
        attempts := 0;
      }
      SettleAnalysis(p.key, attempts, e.analysis, maxAttempts);
    }
  }
}

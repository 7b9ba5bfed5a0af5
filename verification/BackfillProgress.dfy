/** What the store's guarded updates achieve over whole runs: who gets an item, how it ends, how a run ends.

    `src/lib/analysis/event-leaf-backfill-store.ts`. The guards alone would also hold of a store that never
    does anything; these results say what each operation has brought about by the time others have acted. */
module BackfillProgress {
  import opened Common
  import opened BackfillPlan
  import opened BackfillStore

  // ---------------------------------------------------------------------------
  // Items
  // ---------------------------------------------------------------------------

  /** The item is in the hands of whoever claimed it at `since`, or finished. */
  predicate Taken(t: Tables, k: ItemKey, since: int) {
    && k in t.items
    && (t.items[k].status.Done? || (t.items[k].status.Processing? && t.items[k].updatedAt == since))
  }

  predicate Abandons(s: Step, r: RunId, since: int) {
    s.Reclaim? && s.id == r && since < s.staleBefore
  }

  predicate ClaimsItem(t: Tables, s: Step, k: ItemKey) {
    s.ClaimItem? && ItemKey(s.id, s.event) == k && ItemIs(t, k.run, k.event, Pending)
  }

  lemma ClaimTakes(t: Tables, s: Step, k: ItemKey)
    requires ClaimsItem(t, s, k)
    ensures Taken(Apply(t, s), k, s.now) && Apply(t, s).items[k].status.Processing?
  {
  }

  lemma StepKeepsTaken(t: Tables, s: Step, k: ItemKey, since: int)
    requires Taken(t, k, since) && !Abandons(s, k.run, since)
    ensures Taken(Apply(t, s), k, since)
  {
  }

  lemma {:induction false} TakenUntilAbandoned(t: Tables, steps: seq<Step>, i: nat, j: nat, k: ItemKey)
    requires i < j <= |steps| && ClaimsItem(At(t, steps, i), steps[i], k)
    requires forall n :: i < n < j ==> !Abandons(steps[n], k.run, steps[i].now)
    ensures Taken(At(t, steps, j), k, steps[i].now)
    decreases j
  {
    hide Apply, Exec, Taken;
    AtNext(t, steps, j - 1);
    if j == i + 1 {
      ClaimTakes(At(t, steps, i), steps[i], k);
    } else {
      TakenUntilAbandoned(t, steps, i, j - 1, k);
      StepKeepsTaken(At(t, steps, j - 1), steps[j - 1], k, steps[i].now);
    }
  }

  /** The model is called at most once per claim: two workers win the same item only if, between them, it
      was reclaimed from the first as stale, later than that worker claimed it. */
  lemma ItemHasOneWorker(t: Tables, steps: seq<Step>, i: nat, j: nat, k: ItemKey)
    requires i < j < |steps|
    requires ClaimsItem(At(t, steps, i), steps[i], k) && ClaimsItem(At(t, steps, j), steps[j], k)
    ensures exists n :: i < n < j && steps[n].Reclaim? && steps[n].id == k.run && steps[i].now < steps[n].staleBefore
  {
    if forall n :: i < n < j ==> !Abandons(steps[n], k.run, steps[i].now) {
      TakenUntilAbandoned(t, steps, i, j, k);
    }
  }

  /** A crashed worker's item is handed out again: once reclaimed as stale it is pending, and the next claim
      of it wins; a reclaim leaves everything fresher, finished or of another run where it was. */
  lemma ReclaimGivesBack(t: Tables, s: Step, k: ItemKey, again: Step)
    requires s.Reclaim? && k in t.items && again.ClaimItem? && ItemKey(again.id, again.event) == k
    ensures var t' := Apply(t, s);
            && k in t'.items
            && (t.items[k].status.Processing? && k.run == s.id && t.items[k].updatedAt < s.staleBefore ==>
                  ClaimsItem(t', again, k) && Taken(Apply(t', again), k, again.now))
            && (!t.items[k].status.Processing? || k.run != s.id || t.items[k].updatedAt >= s.staleBefore ==>
                  t'.items[k] == t.items[k])
  {
  }

  predicate RecordsItem(t: Tables, s: Step, k: ItemKey) {
    s.Record? && ItemKey(s.id, s.event) == k && ItemIs(t, k.run, k.event, Processing)
  }

  lemma RecordFinishes(t: Tables, s: Step, k: ItemKey)
    requires RecordsItem(t, s, k)
    ensures k in Apply(t, s).items && Apply(t, s).items[k] == Item(Done(s.outcome), s.now, s.error)
    ensures k.run in t.runs ==> k.run in Apply(t, s).runs
    ensures k.run in t.runs ==> forall o ::
        Count(Apply(t, s).runs[k.run], o) == Count(t.runs[k.run], o) + if o == s.outcome then 1 else 0
  {
  }

  /** What is recorded stands: from the record on the item holds that outcome, that time and that error. */
  lemma {:induction false} RecordIsFinal(t: Tables, steps: seq<Step>, i: nat, j: nat, k: ItemKey)
    requires Legal(t, steps) && i < j <= |steps| && RecordsItem(At(t, steps, i), steps[i], k)
    ensures k in At(t, steps, j).items
    ensures At(t, steps, j).items[k] == Item(Done(steps[i].outcome), steps[i].now, steps[i].error)
    decreases j
  {
    hide Apply, Exec;
    AtNext(t, steps, j - 1);
    if j == i + 1 {
      RecordFinishes(At(t, steps, i), steps[i], k);
    } else {
      RecordIsFinal(t, steps, i, j - 1, k);
      StepKeepsTerminal(At(t, steps, j - 1), steps[j - 1]);
    }
  }

  lemma OnlyRecordsFinish(t: Tables, s: Step, k: ItemKey)
    requires k in Apply(t, s).items && Apply(t, s).items[k].status.Done?
    ensures (k in t.items && t.items[k].status.Done?)
      || (RecordsItem(t, s, k) && Apply(t, s).items[k].status == Done(s.outcome))
  {
  }

  lemma {:induction false} ItemsKeep(t: Tables, steps: seq<Step>, i: nat, k: ItemKey)
    requires Legal(t, steps) && i <= |steps|
    requires k in At(t, steps, i).items && At(t, steps, i).items[k].status.Done?
    ensures k in Exec(t, steps).items && Exec(t, steps).items[k] == At(t, steps, i).items[k]
    decreases |steps|
  {
    hide Apply;
    if i == |steps| {
      assert steps[..i] == steps;
    } else {
      var n := |steps| - 1;
      LegalPrefix(t, steps, n);
      assert steps[..n][..i] == steps[..i];
      ItemsKeep(t, steps[..n], i, k);
      AtNext(t, steps, n);
      assert steps[..n + 1] == steps;
      StepKeepsTerminal(At(t, steps, n), steps[n]);
    }
  }

  /** And nothing but a record finishes an item: every outcome a store has come to hold was recorded by a
      worker that had the item in hand. */
  lemma {:induction false} OutcomesWereRecorded(t: Tables, steps: seq<Step>, k: ItemKey)
    requires Legal(t, steps) && k in Exec(t, steps).items && Exec(t, steps).items[k].status.Done?
    requires k in t.items ==> !t.items[k].status.Done?
    ensures exists i :: 0 <= i < |steps| && RecordsItem(At(t, steps, i), steps[i], k)
              && Exec(t, steps).items[k].status == Done(steps[i].outcome)
    decreases |steps|
  {
    hide Apply;
    if steps != [] {
      var n := |steps| - 1;
      LegalPrefix(t, steps, n);
      AtNext(t, steps, n);
      assert steps[..n + 1] == steps;
      OnlyRecordsFinish(At(t, steps, n), steps[n], k);
      if k in At(t, steps, n).items && At(t, steps, n).items[k].status.Done? {
        OutcomesWereRecorded(t, steps[..n], k);
        var i :| 0 <= i < n && RecordsItem(At(t, steps[..n], i), steps[..n][i], k)
          && Exec(t, steps[..n]).items[k].status == Done(steps[..n][i].outcome);
        assert steps[..n][..i] == steps[..i];
        ItemsKeep(t, steps, n, k);
      }
    }
  }

  // ---------------------------------------------------------------------------
  // Runs
  // ---------------------------------------------------------------------------

  /** A new run waits to be claimed, by any worker, with nothing requested of it. */
  lemma NewRunIsClaimable(t: Tables, s: Step, owner: string, locked: set<RunId>, now: int)
    requires s.Create? && Inserts(t, s)
    ensures var t' := Apply(t, s);
            && s.id in t'.runs && SameVariant(t'.runs[s.id], s.customer, s.target)
            && t'.runs[s.id].status == RunPending && !t'.runs[s.id].cancelRequested
            && t'.runs[s.id].createdAt == s.now
            && (s.id !in locked ==> Candidate(t', owner, locked, now, s.id))
  {
  }

  /** A claim comes back empty exactly when every active run is locked by another claim or leased to another
      worker for longer: whatever is new, one's own, or lapsed is there to be taken. */
  lemma EmptyClaimMeansAllHeld(t: Tables, owner: string, expires: int, locked: set<RunId>, now: int)
    ensures Enabled(t, Claim(owner, expires, locked, None, now)) <==>
        forall r :: r in t.runs && (t.runs[r].status == RunPending || t.runs[r].status == Running) ==>
          || r in locked
          || (t.runs[r].leaseOwner.Some? && t.runs[r].leaseOwner != Some(owner)
                && t.runs[r].leaseExpires.Some? && t.runs[r].leaseExpires.value > now)
  {
  }

  /** Only an active run of the same customer and target stands in the way of a new one. */
  lemma OnlyItsVariantBlocks(t: Tables, s: Step)
    requires s.Create? && s.id !in t.runs && DistinctIds(s.members) && FreshestFirst(s.members)
    requires forall k :: k in t.items ==> k.run != s.id
    ensures Inserts(t, s) <==>
        forall r :: r in t.runs && (t.runs[r].status == RunPending || t.runs[r].status == Running) ==>
          t.runs[r].customer != s.customer || t.runs[r].target != s.target
  {
    WorkItemsAreDistinct(s.members, s.maxItems);
  }

  /** A step is about one run: every other run, and every other run's items, stay as they are. */
  lemma OtherRunsAreUntouched(t: Tables, s: Step, r: RunId)
    requires if s.Claim? then s.chosen != Some(r) else s.id != r
    ensures r in Apply(t, s).runs <==> r in t.runs
    ensures r in t.runs ==> Apply(t, s).runs[r] == t.runs[r]
    ensures forall k :: k in t.items && k.run == r ==> k in Apply(t, s).items && Apply(t, s).items[k] == t.items[k]
    ensures forall k :: k in Apply(t, s).items && k.run == r ==> k in t.items
  {
  }

  /** Whatever changes a run says when. */
  lemma ChangesAreStamped(t: Tables, s: Step, r: RunId)
    requires r in t.runs
    ensures r in Apply(t, s).runs
    ensures Apply(t, s).runs[r] == t.runs[r] || s.Create? || Apply(t, s).runs[r].lastProgress == s.now
  {
  }

  predicate ClaimsRun(t: Tables, s: Step, r: RunId) {
    s.Claim? && s.chosen == Some(r) && r in t.runs
  }

  /** Once claimed, a run has started, at the time of its first claim, and is never pending again. */
  predicate Started(t: Tables, r: RunId, at: int) {
    r in t.runs && t.runs[r].startedAt == Some(at) && !t.runs[r].status.RunPending?
  }

  lemma ClaimStarts(t: Tables, s: Step, r: RunId)
    requires ClaimsRun(t, s, r)
    ensures r in Apply(t, s).runs
    ensures var run, run' := t.runs[r], Apply(t, s).runs[r];
            && run'.status == Running && run'.cancelRequested == run.cancelRequested
            && run'.leaseOwner == Some(s.owner) && run'.leaseExpires == Some(s.expires)
            && run'.startedAt == Some(if run.startedAt.Some? then run.startedAt.value else s.now)
    ensures t.runs[r].startedAt.None? ==> Started(Apply(t, s), r, s.now)
  {
  }

  lemma StepKeepsStarted(t: Tables, s: Step, r: RunId, at: int)
    requires WellTyped(s) && Started(t, r, at)
    ensures Started(Apply(t, s), r, at)
  {
  }

  lemma {:induction false} StartedAtItsFirstClaim(t: Tables, steps: seq<Step>, i: nat, j: nat, r: RunId)
    requires Legal(t, steps) && i < j <= |steps|
    requires ClaimsRun(At(t, steps, i), steps[i], r) && At(t, steps, i).runs[r].startedAt.None?
    ensures Started(At(t, steps, j), r, steps[i].now)
    decreases j
  {
    hide Apply, Exec, Started, Enabled;
    AtNext(t, steps, j - 1);
    if j == i + 1 {
      ClaimStarts(At(t, steps, i), steps[i], r);
    } else {
      StartedAtItsFirstClaim(t, steps, i, j - 1, r);
      StepKeepsStarted(At(t, steps, j - 1), steps[j - 1], r, steps[i].now);
    }
  }

  predicate CancelsRun(t: Tables, s: Step, r: RunId) {
    s.Cancel? && s.id == r && r in t.runs && t.runs[r].customer == s.customer && Active(t.runs[r])
  }

  /** A cancel ends a run nobody has started, at once, and flags one that is running. */
  lemma CancelEndsOrFlags(t: Tables, s: Step, r: RunId)
    requires CancelsRun(t, s, r)
    ensures r in Apply(t, s).runs
    ensures var run' := Apply(t, s).runs[r];
            && run'.cancelRequested
            && (t.runs[r].status == RunPending ==> run'.status == Cancelled && run'.finishedAt == Some(s.now))
            && (t.runs[r].status == Running ==> run'.status == Running && run'.finishedAt == t.runs[r].finishedAt)
  {
  }

  predicate EndsRun(t: Tables, s: Step, r: RunId) {
    s.Finalize? && s.id == r && r in t.runs && Active(t.runs[r])
  }

  /** A finalize gives an active run the status it was asked for, and keeps an earlier error text unless it
      brings its own. */
  lemma FinalizeEnds(t: Tables, s: Step, r: RunId)
    requires EndsRun(t, s, r)
    ensures r in Apply(t, s).runs
    ensures var run, run' := t.runs[r], Apply(t, s).runs[r];
            && run'.status == s.status && run'.finishedAt == Some(s.now)
            && run'.errorMessage == (if s.error.Some? then s.error else run.errorMessage)
            && run'.cancelRequested == run.cancelRequested
  {
  }

  /** ... for good: the first to end a run decides how it ended. */
  lemma {:induction false} FirstEndDecides(t: Tables, steps: seq<Step>, i: nat, j: nat, r: RunId)
    requires Legal(t, steps) && i < j <= |steps| && EndsRun(At(t, steps, i), steps[i], r)
    ensures r in At(t, steps, j).runs && At(t, steps, j).runs[r].status == steps[i].status
    ensures At(t, steps, j).runs[r].finishedAt == Some(steps[i].now)
    decreases j
  {
    hide Apply, Exec, Enabled;
    AtNext(t, steps, j - 1);
    if j == i + 1 {
      FinalizeEnds(At(t, steps, i), steps[i], r);
    } else {
      FirstEndDecides(t, steps, i, j - 1, r);
      StepKeepsTerminal(At(t, steps, j - 1), steps[j - 1]);
    }
  }

  predicate WasRequested(t: Tables, r: RunId) {
    r in t.runs && t.runs[r].cancelRequested
  }

  lemma StepKeepsRequest(t: Tables, s: Step, r: RunId)
    requires WasRequested(t, r)
    ensures WasRequested(Apply(t, s), r)
  {
  }

  lemma OnlyCancelsRequest(t: Tables, s: Step, r: RunId)
    requires WasRequested(Apply(t, s), r)
    ensures WasRequested(t, r) || CancelsRun(t, s, r)
  {
  }

  // ---------------------------------------------------------------------------
  // A run can always be brought to its end
  // ---------------------------------------------------------------------------

  /** Reclaim, claim and record one unfinished item. */
  function FinishItem(k: ItemKey, before: int, o: Outcome): seq<Step> {
    [Reclaim(k.run, before, 0), ClaimItem(k.run, k.event, 0), Record(k.run, k.event, o, None, 0)]
  }

  lemma ExecThree(t: Tables, a: Step, b: Step, c: Step)
    requires WellTyped(a) && WellTyped(b) && WellTyped(c) && !a.Claim? && !b.Claim? && !c.Claim?
    ensures Exec(t, [a, b, c]) == Apply(Apply(Apply(t, a), b), c)
    ensures Legal(t, [a, b, c])
  {
    hide Apply;
    assert [a, b, c][..2] == [a, b] && [a, b][..1] == [a] && [a][..0] == [];
    assert Exec(t, []) == t;
    assert Exec(t, [a]) == Apply(t, a);
    assert Exec(t, [a, b]) == Apply(Apply(t, a), b);
  }

  lemma {:induction false} ExecConcat(t: Tables, a: seq<Step>, b: seq<Step>)
    requires Legal(t, a) && Legal(Exec(t, a), b)
    ensures Exec(t, a + b) == Exec(Exec(t, a), b) && Legal(t, a + b)
    decreases |b|
  {
    hide Apply, Enabled, WellTyped;
    if b == [] {
      assert a + b == a;
    } else {
      var n := |b| - 1;
      LegalPrefix(Exec(t, a), b, n);
      ExecConcat(t, a, b[..n]);
      assert (a + b)[..|a + b| - 1] == a + b[..n];
      forall i | 0 <= i < |a + b|
        ensures WellTyped((a + b)[i]) && Enabled(At(t, a + b, i), (a + b)[i])
      {
        if i < |a + b| - 1 {
          assert (a + b)[..i] == (a + b[..n])[..i];
          assert (a + b)[i] == (a + b[..n])[i];
        } else {
          assert (a + b)[..i] == a + b[..n];
          assert At(Exec(t, a), b, n) == Exec(Exec(t, a), b[..n]);
        }
      }
    }
  }

  /** It leaves that item finished, every other unfinished item of the run unfinished, and the run active. */
  lemma FinishItemFinishes(t: Tables, k: ItemKey, o: Outcome)
    requires k in t.items && !t.items[k].status.Done?
    ensures var steps := FinishItem(k, t.items[k].updatedAt + 1, o);
            && Legal(t, steps)
            && ItemIs(Exec(t, steps), k.run, k.event, Done(o))
            && Unfinished(Exec(t, steps), k.run) == Unfinished(t, k.run) - {k}
            && (k.run in t.runs && Active(t.runs[k.run]) ==>
                  k.run in Exec(t, steps).runs && Active(Exec(t, steps).runs[k.run]))
  {
    var steps := FinishItem(k, t.items[k].updatedAt + 1, o);
    ExecThree(t, steps[0], steps[1], steps[2]);
    var t1 := Apply(t, steps[0]);
    assert t1.items[k].status == Pending;
    var t2 := Apply(t1, steps[1]);
    assert t2.items[k].status == Processing;
  }

  lemma ExecOne(t: Tables, s: Step)
    requires WellTyped(s) && !s.Claim?
    ensures Exec(t, [s]) == Apply(t, s) && Legal(t, [s])
  {
    hide Apply;
    assert [s][..0] == [] && Exec(t, []) == t;
  }

  /** No run is ever stuck: whatever was crashed, abandoned or left half-way, an active run's items can all
      be reclaimed, claimed and recorded, with any outcome, and the run then completed. */
  lemma {:induction false} ActiveRunCanComplete(t: Tables, r: RunId, o: Outcome, now: int) returns (steps: seq<Step>)
    requires r in t.runs && Active(t.runs[r])
    ensures Legal(t, steps) && r in Exec(t, steps).runs
    ensures Exec(t, steps).runs[r].status == Completed && Exec(t, steps).runs[r].finishedAt == Some(now)
    ensures Unfinished(Exec(t, steps), r) == {}
    ensures forall k :: k in Unfinished(t, r) ==> ItemIs(Exec(t, steps), r, k.event, Done(o))
    decreases |Unfinished(t, r)|
  {
    if k :| k in Unfinished(t, r) {
      var first := FinishItem(k, t.items[k].updatedAt + 1, o);
      FinishItemFinishes(t, k, o);
      hide Apply, Enabled, Exec, FinishItem, Unfinished;
      var t' := Exec(t, first);
      assert Unfinished(t', r) < Unfinished(t, r);
      InsertGrowsByOne(Unfinished(t', r), Unfinished(t, r), k);
      var rest := ActiveRunCanComplete(t', r, o, now);
      ExecConcat(t, first, rest);
      steps := first + rest;
      TerminalIsForever(t', rest, k, r);
    } else {
      var last := Finalize(r, Completed, None, now);
      ExecOne(t, last);
      assert Unfinished(t, r) == {};
      assert Unfinished(Apply(t, last), r) == Unfinished(t, r);
      steps := [last];
    }
  }
}

/** The backfill workers' ticks over the shared store: what each does between claiming a run and ending it.

    `src/lib/instrumentation/event-backfill-worker.ts`. A tick's database calls are separate atomic steps,
    so anything another worker or an operator does may fall between them. */
module BackfillWorker {
  import opened Common
  import P = BackfillPlan
  import opened BackfillProgress
  import opened BackfillStore

  /** Where a worker stands in its tick: on a run it claimed, having counted no unfinished item of it, or
      about to end it with a status it settled on. */
  datatype Phase = Idle | Holding(run: RunId) | Drained(run: RunId) | Closing(run: RunId, status: RunStatus)

  datatype System = System(tables: Tables, workers: map<string, Phase>)

  const EMPTY := System(Tables(map[], map[]), map[])

  datatype Act =
    /** `createRun` or `requestCancel`, by an operator. */
    | Operate(step: Step)
    /** `claimRun`; the tick ends when nothing is claimable. */
    | Claims(step: Step)
    /** `reclaimStaleItems`, `renewLease`, `claimItem` or `recordItemResult` on the claimed run. */
    | Works(owner: string, step: Step)
    /** `countUnfinished`; the tick ends when items remain. */
    | Counts(owner: string)
    /** `isCancelRequested`: between items it may end the run, after draining it picks the status. */
    | ReadsFlag(owner: string)
    /** `finalizeRun`. */
    | Ends(owner: string, now: int)
    /** The tick returns, throws, or the process dies. */
    | Stops(owner: string)

  function PhaseOf(s: System, owner: string): Phase {
    if owner in s.workers then s.workers[owner] else Idle
  }

  predicate CancelRequested(t: Tables, r: RunId) {
    r in t.runs && t.runs[r].cancelRequested
  }

  predicate IsWork(step: Step, r: RunId) {
    match step
    case Reclaim(id, _, _) => id == r
    case Renew(id, _, _, _) => id == r
    case ClaimItem(id, _, _) => id == r
    case Record(id, _, _, _, _) => id == r
    case _ => false
  }

  predicate Allowed(s: System, a: Act) {
    match a
    case Operate(step) => step.Create? || step.Cancel?
    case Claims(step) => step.Claim? && BackfillStore.Enabled(s.tables, step) && PhaseOf(s, step.owner).Idle?
    case Works(w, step) => PhaseOf(s, w).Holding? && IsWork(step, PhaseOf(s, w).run)
    case Counts(w) => PhaseOf(s, w).Holding?
    case ReadsFlag(w) => PhaseOf(s, w).Holding? || PhaseOf(s, w).Drained?
    case Ends(w, _) => PhaseOf(s, w).Closing?
    case Stops(_) => true
  }

  ghost function Next(s: System, a: Act): System
    requires Allowed(s, a)
  {
    match a
    case Operate(step) => s.(tables := BackfillStore.Apply(s.tables, step))
    case Claims(step) =>
      System(BackfillStore.Apply(s.tables, step),
             s.workers[step.owner := if step.chosen.None? then Idle else Holding(step.chosen.value)])
    case Works(_, step) => s.(tables := BackfillStore.Apply(s.tables, step))
    case Counts(w) =>
      var r := PhaseOf(s, w).run;
      s.(workers := s.workers[w := if Unfinished(s.tables, r) == {} then Drained(r) else Idle])
    case ReadsFlag(w) =>
      var phase, cancelled := PhaseOf(s, w), CancelRequested(s.tables, PhaseOf(s, w).run);
      s.(workers := s.workers[w :=
        if cancelled then Closing(phase.run, Cancelled)
        else if phase.Drained? then Closing(phase.run, Completed)
        else phase])
    case Ends(w, now) =>
      var phase := PhaseOf(s, w);
      System(BackfillStore.Apply(s.tables, Finalize(phase.run, phase.status, None, now)), s.workers[w := Idle])
    case Stops(w) => s.(workers := s.workers[w := Idle])
  }

  ghost predicate Possible(acts: seq<Act>)
    decreases acts, 0
  {
    acts == [] || (Possible(acts[..|acts| - 1]) && Allowed(After(acts[..|acts| - 1]), acts[|acts| - 1]))
  }

  ghost function After(acts: seq<Act>): System
    requires Possible(acts)
    decreases acts, 1
  {
    if acts == [] then EMPTY else Next(After(acts[..|acts| - 1]), acts[|acts| - 1])
  }

  /** The run exists and has nothing left to do. */
  ghost predicate IsDrained(t: Tables, r: RunId) {
    r in t.runs && Unfinished(t, r) == {}
  }

  /** Whoever counted a run drained, or is about to complete it, is still right, and so is every run that
      was completed. */
  ghost predicate KnownDrained(s: System) {
    && (forall w :: w in s.workers && s.workers[w].Holding? ==> s.workers[w].run in s.tables.runs)
    && (forall w :: w in s.workers && s.workers[w].Drained? ==> IsDrained(s.tables, s.workers[w].run))
    && (forall w :: w in s.workers && s.workers[w].Closing? ==>
          && (s.workers[w].status.Completed? || s.workers[w].status.Cancelled?)
          && (s.workers[w].status.Completed? ==> IsDrained(s.tables, s.workers[w].run)))
    && (forall r :: r in s.tables.runs && s.tables.runs[r].status.Completed? ==> IsDrained(s.tables, r))
  }

  lemma StepKeepsRunsAndDrained(t: Tables, s: Step, r: RunId)
    requires BackfillStore.Invariant(t) && WellTyped(s) && BackfillStore.Enabled(t, s) && r in t.runs
    ensures r in Apply(t, s).runs
    ensures Unfinished(t, r) == {} ==> Unfinished(Apply(t, s), r) == {}
  {
    StepKeepsScope(t, s, r);
    StepKeepsTerminal(t, s);
    var t' := Apply(t, s);
    hide Apply;
    if Unfinished(t, r) == {} {
      forall k | k in ItemsOf(t', r)
        ensures k !in Unfinished(t', r)
      {
        assert k in ItemsOf(t, r) && k !in Unfinished(t, r);
      }
      assert forall k :: k in Unfinished(t', r) ==> k in ItemsOf(t', r);
    }
  }

  /** Only a finalize to `completed` completes a run. */
  lemma CompletionIsFinalize(t: Tables, s: Step, r: RunId)
    requires r in Apply(t, s).runs && Apply(t, s).runs[r].status.Completed?
    ensures (r in t.runs && t.runs[r].status.Completed?)
        || (s.Finalize? && s.id == r && s.status.Completed? && r in t.runs)
  {
  }

  /** A store step that completes only drained runs keeps every drained run drained. */
  lemma StoreStepKeeps(s: System, step: Step, t': Tables)
    requires BackfillStore.Invariant(s.tables) && WellTyped(step) && BackfillStore.Enabled(s.tables, step)
    requires KnownDrained(s) && t' == Apply(s.tables, step)
    requires step.Finalize? && step.status.Completed? ==> IsDrained(s.tables, step.id)
    ensures BackfillStore.Invariant(t') && KnownDrained(s.(tables := t'))
  {
    StepKeepsInvariant(s.tables, step);
    hide Apply, BackfillStore.Invariant, Unfinished;
    forall r | r in s.tables.runs
      ensures r in t'.runs && (IsDrained(s.tables, r) ==> IsDrained(t', r))
    {
      StepKeepsRunsAndDrained(s.tables, step, r);
    }
    forall r | r in t'.runs && t'.runs[r].status.Completed?
      ensures IsDrained(t', r)
    {
      CompletionIsFinalize(s.tables, step, r);
    }
  }

  lemma StoreActKeeps(s: System, a: Act)
    requires BackfillStore.Invariant(s.tables) && KnownDrained(s) && Allowed(s, a) && (a.Operate? || a.Works?)
    ensures BackfillStore.Invariant(Next(s, a).tables) && KnownDrained(Next(s, a))
  {
    hide BackfillStore.Invariant, KnownDrained;
    StoreStepKeeps(s, a.step, Apply(s.tables, a.step));
    hide Apply;
  }

  lemma ClaimedRunExists(t: Tables, s: Step)
    requires s.Claim? && BackfillStore.Enabled(t, s)
    ensures s.chosen.Some? ==> s.chosen.value in Apply(t, s).runs
  {
  }

  lemma ClaimKeeps(s: System, step: Step)
    requires BackfillStore.Invariant(s.tables) && KnownDrained(s) && Allowed(s, Claims(step))
    ensures BackfillStore.Invariant(Next(s, Claims(step)).tables) && KnownDrained(Next(s, Claims(step)))
  {
    hide BackfillStore.Invariant, Unfinished;
    StoreStepKeeps(s, step, Apply(s.tables, step));
    ClaimedRunExists(s.tables, step);
    hide Apply, BackfillStore.Enabled;
  }

  lemma EndKeeps(s: System, w: string, now: int)
    requires BackfillStore.Invariant(s.tables) && KnownDrained(s) && Allowed(s, Ends(w, now))
    ensures BackfillStore.Invariant(Next(s, Ends(w, now)).tables) && KnownDrained(Next(s, Ends(w, now)))
  {
    hide BackfillStore.Invariant, Unfinished;
    var step := Finalize(PhaseOf(s, w).run, PhaseOf(s, w).status, None, now);
    StoreStepKeeps(s, step, Apply(s.tables, step));
    hide Apply;
  }

  lemma LocalActKeeps(s: System, a: Act)
    requires KnownDrained(s) && Allowed(s, a) && (a.Counts? || a.ReadsFlag? || a.Stops?)
    ensures Next(s, a).tables == s.tables && KnownDrained(Next(s, a))
  {
    hide Unfinished;
  }

  lemma ActKeeps(s: System, a: Act)
    requires BackfillStore.Invariant(s.tables) && KnownDrained(s) && Allowed(s, a)
    ensures BackfillStore.Invariant(Next(s, a).tables) && KnownDrained(Next(s, a))
  {
    hide BackfillStore.Invariant, KnownDrained, Allowed, Next;
    match a
    case Operate(_) => StoreActKeeps(s, a);
    case Works(_, _) => StoreActKeeps(s, a);
    case Claims(step) => ClaimKeeps(s, step);
    case Ends(w, now) => EndKeeps(s, w, now);
    case _ => LocalActKeeps(s, a);
  }

  lemma EmptyKeeps()
    ensures BackfillStore.Invariant(EMPTY.tables) && KnownDrained(EMPTY)
  {
  }

  lemma {:induction false} EveryActKeeps(acts: seq<Act>)
    requires Possible(acts)
    ensures BackfillStore.Invariant(After(acts).tables) && KnownDrained(After(acts))
  {
    hide BackfillStore.Invariant, KnownDrained, Next, Allowed;
    if acts == [] {
      EmptyKeeps();
    } else {
      EveryActKeeps(acts[..|acts| - 1]);
      ActKeeps(After(acts[..|acts| - 1]), acts[|acts| - 1]);
    }
  }

  /** In every run of any number of workers and operators, crashes included, a completed run has lost
      nothing: it has no unfinished item, and its counters account for its whole universe. */
  lemma WorkersCompleteOnlyDrainedRuns(acts: seq<Act>, r: RunId)
    requires Possible(acts) && r in After(acts).tables.runs && After(acts).tables.runs[r].status.Completed?
    ensures Unfinished(After(acts).tables, r) == {}
    ensures Counted(After(acts).tables.runs[r]) == After(acts).tables.runs[r].totalUniverse
  {
    EveryActKeeps(acts);
    hide After, Possible;
  }

  // ---------------------------------------------------------------------------
  // How a run ends
  // ---------------------------------------------------------------------------

  function ActorOf(a: Act): Option<string> {
    match a
    case Operate(_) => None
    case Claims(step) => if step.Claim? then Some(step.owner) else None
    case Works(w, _) => Some(w)
    case Counts(w) => Some(w)
    case ReadsFlag(w) => Some(w)
    case Ends(w, _) => Some(w)
    case Stops(w) => Some(w)
  }

  lemma OthersKeepPhase(s: System, a: Act, w: string)
    requires Allowed(s, a) && ActorOf(a) != Some(w)
    ensures PhaseOf(Next(s, a), w) == PhaseOf(s, w)
  {
    hide Apply, BackfillStore.Enabled, Unfinished;
  }

  /** Whoever is about to report a cancellation read that one was requested; so did whoever reported one.
      No run is ever reported as failed. */
  ghost predicate EndsAreHonest(s: System) {
    && (forall w :: w in s.workers && s.workers[w].Closing? ==>
          && (s.workers[w].status == Completed || s.workers[w].status == Cancelled)
          && (s.workers[w].status == Cancelled ==> WasRequested(s.tables, s.workers[w].run)))
    && (forall r :: r in s.tables.runs ==>
          && s.tables.runs[r].status != RunFailed
          && (s.tables.runs[r].status == Cancelled ==> s.tables.runs[r].cancelRequested))
  }

  lemma StepKeepsHonestRuns(t: Tables, s: Step, r: RunId)
    requires r in Apply(t, s).runs && (s.Finalize? ==> s.status == Completed || s.status == Cancelled)
    requires s.Finalize? && s.status == Cancelled ==> WasRequested(t, s.id)
    requires r in t.runs ==> t.runs[r].status != RunFailed
    requires r in t.runs && t.runs[r].status == Cancelled ==> t.runs[r].cancelRequested
    ensures Apply(t, s).runs[r].status != RunFailed
    ensures Apply(t, s).runs[r].status == Cancelled ==> Apply(t, s).runs[r].cancelRequested
  {
  }

  lemma StoreStepKeepsHonest(s: System, step: Step)
    requires EndsAreHonest(s) && (step.Finalize? ==> step.status == Completed || step.status == Cancelled)
    requires step.Finalize? && step.status == Cancelled ==> WasRequested(s.tables, step.id)
    ensures EndsAreHonest(s.(tables := Apply(s.tables, step)))
  {
    var t' := Apply(s.tables, step);
    forall w | w in s.workers && s.workers[w].Closing? && s.workers[w].status == Cancelled
      ensures WasRequested(t', s.workers[w].run)
    {
      StepKeepsRequest(s.tables, step, s.workers[w].run);
    }
    forall r | r in t'.runs
      ensures t'.runs[r].status != RunFailed && (t'.runs[r].status == Cancelled ==> t'.runs[r].cancelRequested)
    {
      StepKeepsHonestRuns(s.tables, step, r);
    }
    hide Apply;
  }

  lemma ActKeepsHonest(s: System, a: Act)
    requires EndsAreHonest(s) && Allowed(s, a)
    ensures EndsAreHonest(Next(s, a))
  {
    hide Apply, BackfillStore.Enabled, Unfinished;
    match a
    case Operate(step) => StoreStepKeepsHonest(s, step);
    case Works(_, step) => StoreStepKeepsHonest(s, step);
    case Claims(step) => StoreStepKeepsHonest(s, step);
    case Ends(w, now) => StoreStepKeepsHonest(s, Finalize(PhaseOf(s, w).run, PhaseOf(s, w).status, None, now));
    case _ =>
  }

  /** In every run of any number of workers and operators: a run reported as cancelled was asked to be, and
      none is reported as failed. */
  lemma {:induction false} OnlyRequestedRunsAreCancelled(acts: seq<Act>)
    requires Possible(acts)
    ensures EndsAreHonest(After(acts))
    ensures forall r :: r in After(acts).tables.runs ==>
      && After(acts).tables.runs[r].status != RunFailed
      && (After(acts).tables.runs[r].status == Cancelled ==> After(acts).tables.runs[r].cancelRequested)
  {
    hide Next, Allowed;
    if acts != [] {
      OnlyRequestedRunsAreCancelled(acts[..|acts| - 1]);
      ActKeepsHonest(After(acts[..|acts| - 1]), acts[|acts| - 1]);
    }
  }

  lemma {:induction false} PossiblePrefix(acts: seq<Act>, i: nat)
    requires i <= |acts| && Possible(acts)
    ensures Possible(acts[..i])
    decreases |acts|
  {
    hide Next, Allowed;
    if i == |acts| {
      assert acts[..i] == acts;
    } else {
      PossiblePrefix(acts[..|acts| - 1], i);
      assert acts[..|acts| - 1][..i] == acts[..i];
    }
  }

  /** The system just before act `i`. */
  ghost function StateAt(acts: seq<Act>, i: nat): System
    requires Possible(acts) && i <= |acts|
  {
    PossiblePrefix(acts, i);
    After(acts[..i])
  }

  lemma StateNext(acts: seq<Act>, i: nat)
    requires Possible(acts) && i < |acts|
    ensures Allowed(StateAt(acts, i), acts[i]) && StateAt(acts, i + 1) == Next(StateAt(acts, i), acts[i])
    ensures BackfillStore.Invariant(StateAt(acts, i).tables)
  {
    hide Next, Allowed;
    PossiblePrefix(acts, i + 1);
    PossiblePrefix(acts, i);
    assert acts[..i + 1][..i] == acts[..i];
    EveryActKeeps(acts[..i]);
  }

  /** A worker that does nothing in between stands where it stood, whatever the others do. */
  lemma {:induction false} PhaseWaits(acts: seq<Act>, i: nat, j: nat, w: string)
    requires Possible(acts) && i <= j <= |acts|
    requires forall n :: i <= n < j ==> ActorOf(acts[n]) != Some(w)
    ensures PhaseOf(StateAt(acts, j), w) == PhaseOf(StateAt(acts, i), w)
    decreases j
  {
    hide Next, Allowed, After, Possible, PhaseOf, ActorOf;
    if i < j {
      PhaseWaits(acts, i, j - 1, w);
      StateNext(acts, j - 1);
      OthersKeepPhase(StateAt(acts, j - 1), acts[j - 1], w);
    }
  }

  /** What a worker reports is what it settled on, when nobody ended the run first. */
  lemma EndsAsSettled(s: System, w: string, now: int)
    requires Allowed(s, Ends(w, now)) && PhaseOf(s, w).run in s.tables.runs
    requires Active(s.tables.runs[PhaseOf(s, w).run])
    ensures var r, t' := PhaseOf(s, w).run, Next(s, Ends(w, now)).tables;
            r in t'.runs && t'.runs[r].status == PhaseOf(s, w).status && t'.runs[r].finishedAt == Some(now)
    ensures PhaseOf(Next(s, Ends(w, now)), w).Idle?
  {
    FinalizeEnds(s.tables, Finalize(PhaseOf(s, w).run, PhaseOf(s, w).status, None, now), PhaseOf(s, w).run);
    hide Apply;
  }

  predicate Ended(t: Tables, r: RunId, status: RunStatus) {
    r in t.runs && !Active(t.runs[r]) && t.runs[r].status == status
  }

  lemma EndedStaysEnded(s: System, a: Act, r: RunId, status: RunStatus)
    requires EndsAreHonest(s) && Allowed(s, a) && Ended(s.tables, r, status)
    ensures Ended(Next(s, a).tables, r, status)
  {
    hide Apply, BackfillStore.Enabled, Unfinished;
    match a
    case Operate(step) => StepKeepsTerminal(s.tables, step);
    case Works(_, step) => StepKeepsTerminal(s.tables, step);
    case Claims(step) => StepKeepsTerminal(s.tables, step);
    case Ends(w, now) => StepKeepsTerminal(s.tables, Finalize(PhaseOf(s, w).run, PhaseOf(s, w).status, None, now));
    case _ =>
  }

  lemma {:induction false} EndedForGood(acts: seq<Act>, i: nat, j: nat, r: RunId, status: RunStatus)
    requires Possible(acts) && i <= j <= |acts| && Ended(StateAt(acts, i).tables, r, status)
    ensures Ended(StateAt(acts, j).tables, r, status)
    decreases j
  {
    hide Next, Allowed, After, Possible, Ended;
    if i < j {
      EndedForGood(acts, i, j - 1, r, status);
      StateNext(acts, j - 1);
      PossiblePrefix(acts, j - 1);
      OnlyRequestedRunsAreCancelled(acts[..j - 1]);
      assert StateAt(acts, j - 1) == After(acts[..j - 1]);
      EndedStaysEnded(StateAt(acts, j - 1), acts[j - 1], r, status);
    }
  }

  lemma FlagSettles(s: System, w: string)
    requires Allowed(s, ReadsFlag(w))
    ensures var phase, after := PhaseOf(s, w), PhaseOf(Next(s, ReadsFlag(w)), w);
            && (WasRequested(s.tables, phase.run) ==> after == Closing(phase.run, Cancelled))
            && (!WasRequested(s.tables, phase.run) ==>
                  after == if phase.Drained? then Closing(phase.run, Completed) else phase)
  {
  }

  /** The last look at the flag decides: of a run that nobody else ended meanwhile, the worker reports a
      cancellation exactly when one had been requested by the time it looked, and completion otherwise; and
      that is how the run stays, whatever follows. */
  lemma LastLookDecides(acts: seq<Act>, f: nat, e: nat, later: nat, w: string, r: RunId)
    requires Possible(acts) && f < e < later <= |acts| && acts[f] == ReadsFlag(w)
    requires acts[e].Ends? && acts[e].owner == w
    requires forall n :: f < n < e ==> ActorOf(acts[n]) != Some(w)
    requires Allowed(StateAt(acts, f), acts[f]) && PhaseOf(StateAt(acts, f), w).run == r
    requires r in StateAt(acts, e).tables.runs && Active(StateAt(acts, e).tables.runs[r])
    ensures Ended(StateAt(acts, later).tables, r,
                  if WasRequested(StateAt(acts, f).tables, r) then Cancelled else Completed)
  {
    hide Next, After, Possible;
    StateNext(acts, f);
    FlagSettles(StateAt(acts, f), w);
    PhaseWaits(acts, f + 1, e, w);
    StateNext(acts, e);
    EndsAsSettled(StateAt(acts, e), w, acts[e].now);
    EndedForGood(acts, e + 1, later, r, if WasRequested(StateAt(acts, f).tables, r) then Cancelled else Completed);
  }

  /** A tick's calls reach the store, and a won claim puts the run in the worker's hands. */
  lemma CallsReachTheStore(s: System, a: Act)
    requires Allowed(s, a) && (a.Operate? || a.Works? || a.Claims?)
    ensures Next(s, a).tables == Apply(s.tables, a.step)
    ensures a.Claims? && a.step.chosen.Some? ==>
        && PhaseOf(Next(s, a), a.step.owner) == Holding(a.step.chosen.value)
        && LeasedTo(Next(s, a).tables, a.step.chosen.value, a.step.owner, a.step.expires)
    ensures a.Works? ==> PhaseOf(Next(s, a), a.owner) == PhaseOf(s, a.owner)
  {
  }

  lemma CountDrains(s: System, w: string)
    requires Allowed(s, Counts(w))
    ensures var r := PhaseOf(s, w).run;
            PhaseOf(Next(s, Counts(w)), w) == if Unfinished(s.tables, r) == {} then Drained(r) else Idle
  {
  }

  /** A worker that counted nothing left and then saw no cancellation completes the run. */
  lemma DrainedRunIsCompleted(acts: seq<Act>, c: nat, f: nat, e: nat, later: nat, w: string, r: RunId)
    requires Possible(acts) && c < f < e < later <= |acts|
    requires acts[c] == Counts(w) && acts[f] == ReadsFlag(w) && acts[e].Ends? && acts[e].owner == w
    requires forall n :: c < n < e && n != f ==> ActorOf(acts[n]) != Some(w)
    requires Allowed(StateAt(acts, c), acts[c]) && PhaseOf(StateAt(acts, c), w).run == r
    requires Unfinished(StateAt(acts, c).tables, r) == {} && !WasRequested(StateAt(acts, f).tables, r)
    requires r in StateAt(acts, e).tables.runs && Active(StateAt(acts, e).tables.runs[r])
    ensures Ended(StateAt(acts, later).tables, r, Completed)
  {
    hide Next, After, Possible, Unfinished;
    StateNext(acts, c);
    CountDrains(StateAt(acts, c), w);
    PhaseWaits(acts, c + 1, f, w);
    StateNext(acts, f);
    LastLookDecides(acts, f, e, later, w, r);
  }

  predicate Requests(t: Tables, a: Act, r: RunId) {
    a.Operate? && CancelsRun(t, a.step, r)
  }

  /** A cancellation takes: a run that waits is cancelled at once, and of a running one the next look of
      whatever worker has it finds the flag, so by `LastLookDecides` it ends cancelled. */
  lemma CancellationTakes(s: System, a: Act, r: RunId)
    requires Allowed(s, a) && Requests(s.tables, a, r)
    ensures WasRequested(Next(s, a).tables, r)
    ensures s.tables.runs[r].status == RunPending ==> Ended(Next(s, a).tables, r, Cancelled)
  {
    CancelEndsOrFlags(s.tables, a.step, r);
    hide Apply;
  }

  lemma RequestStays(s: System, a: Act, r: RunId)
    requires Allowed(s, a) && WasRequested(s.tables, r)
    ensures WasRequested(Next(s, a).tables, r)
  {
    hide Apply, BackfillStore.Enabled, Unfinished;
    match a
    case Operate(step) => StepKeepsRequest(s.tables, step, r);
    case Works(_, step) => StepKeepsRequest(s.tables, step, r);
    case Claims(step) => StepKeepsRequest(s.tables, step, r);
    case Ends(w, now) => StepKeepsRequest(s.tables, Finalize(PhaseOf(s, w).run, PhaseOf(s, w).status, None, now), r);
    case _ =>
  }

  lemma {:induction false} RequestIsSeen(acts: seq<Act>, i: nat, j: nat, r: RunId)
    requires Possible(acts) && i < j <= |acts| && Requests(StateAt(acts, i).tables, acts[i], r)
    ensures WasRequested(StateAt(acts, j).tables, r)
    decreases j
  {
    hide Next, Allowed, After, Possible, WasRequested, Requests;
    StateNext(acts, j - 1);
    if j == i + 1 {
      CancellationTakes(StateAt(acts, i), acts[i], r);
    } else {
      RequestIsSeen(acts, i, j - 1, r);
      RequestStays(StateAt(acts, j - 1), acts[j - 1], r);
    }
  }

  /** A cancellation requested before a worker's last look is honoured, even when the run has drained since. */
  lemma RequestIsHonoured(acts: seq<Act>, q: nat, f: nat, e: nat, later: nat, w: string, r: RunId)
    requires Possible(acts) && q < f < e < later <= |acts| && Requests(StateAt(acts, q).tables, acts[q], r)
    requires acts[f] == ReadsFlag(w) && acts[e].Ends? && acts[e].owner == w
    requires forall n :: f < n < e ==> ActorOf(acts[n]) != Some(w)
    requires Allowed(StateAt(acts, f), acts[f]) && PhaseOf(StateAt(acts, f), w).run == r
    requires r in StateAt(acts, e).tables.runs && Active(StateAt(acts, e).tables.runs[r])
    ensures Ended(StateAt(acts, later).tables, r, Cancelled)
  {
    hide Next, After, Possible, Requests;
    RequestIsSeen(acts, q, f, r);
    LastLookDecides(acts, f, e, later, w, r);
  }

  // ---------------------------------------------------------------------------
  // A run from end to end
  // ---------------------------------------------------------------------------

  lemma OneMoreAct(acts: seq<Act>, a: Act)
    requires Possible(acts) && Allowed(After(acts), a)
    ensures Possible(acts + [a]) && After(acts + [a]) == Next(After(acts), a)
  {
    hide Next, Allowed;
    assert (acts + [a])[..|acts|] == acts;
  }

  /** What one worker does with a run of one re-analyzable event. */
  function OneItemRun(id: RunId, m: P.Member, customer: string, target: P.Target, w: string): seq<Act> {
    [Operate(Create(id, customer, target, [m], None, 0)),
     Claims(Claim(w, 100, {}, Some(id), 1)),
     Works(w, ClaimItem(id, m.id, 2)),
     Works(w, Record(id, m.id, Reanalyzed, None, 3)),
     Counts(w),
     ReadsFlag(w),
     Ends(w, 4)]
  }

  lemma OneItemPlan(m: P.Member)
    requires P.CategoryOf(m) == P.Reanalyzable
    ensures P.PlanOf([m], None) == P.Plan.Plan(P.Counts.Counts(1, 1, 0, 0, 0), [m.id])
  {
    assert [m][..0] == [];
    assert P.Select([], P.Reanalyzable) == [] && P.Select([], P.Current) == [] && P.Select([], P.Swept) == [];
    assert P.Select([m], P.Reanalyzable) == [m] && P.Select([m], P.Current) == [] && P.Select([m], P.Swept) == [];
    assert P.Ids([m]) == [m.id];
  }

  lemma OrderAndClaim(id: RunId, m: P.Member, customer: string, target: P.Target, w: string)
    requires P.CategoryOf(m) == P.Reanalyzable
    ensures var acts := OneItemRun(id, m, customer, target, w);
            && Possible(acts[..2])
            && After(acts[..2]) == System(
                 Tables(map[id := Run(customer, target, 0, Running, false, 1, 0, 0, 0, 0, 0, Some(w), Some(100),
                                      Some(1), None, 1, None)],
                        map[ItemKey(id, m.id) := Item(Pending, 0, None)]),
                 map[w := Holding(id)])
  {
    var acts, k := OneItemRun(id, m, customer, target, w), ItemKey(id, m.id);
    OneItemPlan(m);
    hide P.PlanOf, P.CategoryOf;
    assert acts[..0] == [] && After([]) == EMPTY;
    OneMoreAct([], acts[0]);
    assert [] + [acts[0]] == acts[..1];
    assert After(acts[..1]).tables.items == map[k := Item(Pending, 0, None)];
    OneMoreAct(acts[..1], acts[1]);
    assert acts[..1] + [acts[1]] == acts[..2];
  }

  lemma WorkOneItem(id: RunId, m: P.Member, customer: string, target: P.Target, w: string)
    requires P.CategoryOf(m) == P.Reanalyzable
    ensures var acts := OneItemRun(id, m, customer, target, w);
            && Possible(acts[..4])
            && After(acts[..4]) == System(
                 Tables(map[id := Run(customer, target, 0, Running, false, 1, 1, 0, 0, 0, 0, Some(w), Some(100),
                                      Some(1), None, 3, None)],
                        map[ItemKey(id, m.id) := Item(Done(Reanalyzed), 3, None)]),
                 map[w := Holding(id)])
  {
    var acts := OneItemRun(id, m, customer, target, w);
    OrderAndClaim(id, m, customer, target, w);
    hide P.CategoryOf, Possible, After;
    OneMoreAct(acts[..2], acts[2]);
    assert acts[..2] + [acts[2]] == acts[..3];
    OneMoreAct(acts[..3], acts[3]);
    assert acts[..3] + [acts[3]] == acts[..4];
  }

  /** A case, from the order to the report: one worker, undisturbed, takes a run of one event to completion,
      with the event counted as re-analyzed and nothing left over. */
  lemma OneItemRunCompletes(id: RunId, m: P.Member, customer: string, target: P.Target, w: string)
    requires P.CategoryOf(m) == P.Reanalyzable
    ensures var acts := OneItemRun(id, m, customer, target, w);
            && Possible(acts) && id in After(acts).tables.runs
            && Unfinished(After(acts).tables, id) == {} && PhaseOf(After(acts), w).Idle?
            && var run := After(acts).tables.runs[id];
               && run.status == Completed && run.reanalyzed == 1 && Counted(run) == run.totalUniverse == 1
               && run.startedAt == Some(1) && run.finishedAt == Some(4)
  {
    var acts := OneItemRun(id, m, customer, target, w);
    WorkOneItem(id, m, customer, target, w);
    hide P.CategoryOf, Possible, After;
    assert Unfinished(After(acts[..4]).tables, id) == {};
    OneMoreAct(acts[..4], acts[4]);
    assert acts[..4] + [acts[4]] == acts[..5];
    OneMoreAct(acts[..5], acts[5]);
    assert acts[..5] + [acts[5]] == acts[..6];
    OneMoreAct(acts[..6], acts[6]);
    assert acts[..6] + [acts[6]] == acts;
  }
}

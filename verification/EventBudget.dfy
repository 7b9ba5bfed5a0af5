/** The job table under any number of workers: the daily tier-B budget and the finality of terminal rows.

    `src/lib/analysis/event-analysis-worker.ts`. A worker processes a job under a per-event advisory
    lock, but its pickup may be stale, its row may be recovered under it by the watchdog, and most of its
    writes carry no status guard. */
module EventBudget {
  import opened Common
  import opened EventJobs

  type WorkerId = nat

  /** Where a worker stands with the job whose event it has locked. */
  datatype Phase = Idle | Claimed(pickup: Pickup) | Analyzing(pickup: Pickup)

  type BudgetKey = (string, int)

  /** `caps` remembers the largest cap any reservation of a customer's day was given. */
  datatype System = System(rows: map<JobKey, Row>, picks: set<Pickup>, workers: map<WorkerId, Phase>,
          caps: map<BudgetKey, nat>)

  const EMPTY := System(map[], {}, map[], map[])

  datatype Translation = Derived | Leaked | Deferred | TranslationError

  datatype Step =
    | Seed(key: JobKey, day: int, version: string, hasLeaf: bool)
    | Pick(key: JobKey)
    | Claim(worker: WorkerId, pickup: Pickup)
    | CancelStale(worker: WorkerId)
    | Hold(worker: WorkerId)
    | AdmitTierA(worker: WorkerId)
    | Reserve(worker: WorkerId, cap: nat)
    | Proceed(worker: WorkerId)
    | Analyze(worker: WorkerId, analysis: Analysis, maxAttempts: nat)
    | Translate(worker: WorkerId, translation: Translation, maxAttempts: nat)
    | Crash(worker: WorkerId)
    | Recover(stuck: set<JobKey>)

  function PhaseOf(s: System, w: WorkerId): Phase {
    if w in s.workers then s.workers[w] else Idle
  }

  predicate LockFree(s: System, event: EventRef) {
    forall w :: w in s.workers && !s.workers[w].Idle? ==> s.workers[w].pickup.key.event != event
  }

  predicate Holds(s: System, w: WorkerId, native: bool) {
    PhaseOf(s, w).Claimed? && Native(PhaseOf(s, w).pickup.key) == native
  }

  predicate Enabled(s: System, step: Step) {
    match step
    case Seed(_, _, _, _) => true
    case Pick(key) => key in s.rows && s.rows[key].status == Queued
    case Claim(w, p) => PhaseOf(s, w).Idle? && p in s.picks && LockFree(s, p.key.event)
    case CancelStale(w) => Holds(s, w, true)
    case Hold(w) => Holds(s, w, true) && PhaseOf(s, w).pickup.tier.None?
    case AdmitTierA(w) => Holds(s, w, true) && PhaseOf(s, w).pickup.tier.None?
    case Reserve(w, _) => Holds(s, w, true) && PhaseOf(s, w).pickup.tier.None?
    case Proceed(w) => Holds(s, w, true) && PhaseOf(s, w).pickup.tier.Some?
    case Analyze(w, _, _) => PhaseOf(s, w).Analyzing?
    case Translate(w, _, _) => Holds(s, w, false)
    case Crash(w) => !PhaseOf(s, w).Idle?
    case Recover(_) => true
  }

  ghost function Admitted(rows: map<JobKey, Row>, customer: string, day: int): set<JobKey> {
    set k | k in rows && k.event.customer == customer && rows[k].budgetDay == day && Counted(rows[k])
  }

  ghost predicate Admits(rows: map<JobKey, Row>, p: Pickup, cap: nat) {
    cap > 0 && |Admitted(rows, p.key.event.customer, p.budgetDay)| < cap
  }

  function LargestCap(s: System, customer: string, day: int): nat {
    if (customer, day) in s.caps then s.caps[(customer, day)] else 0
  }

  /** The claim's guard: status and attempts only. */
  predicate GuardMatches(rows: map<JobKey, Row>, p: Pickup) {
    p.key in rows && rows[p.key].status == Queued && rows[p.key].attempts == p.attempts
  }

  function Put(s: System, w: WorkerId, key: JobKey, row: Row, phase: Phase): System {
    s.(rows := s.rows[key := row], workers := s.workers[w := phase])
  }

  function RowOf(s: System, key: JobKey): Row {
    if key in s.rows then s.rows[key] else Row(Queued, None, 0, 0, "")
  }

  function TranslatedRow(row: Row, attempts: nat, t: Translation, maxAttempts: nat): Row {
    match t
    case Derived => DoneRow(row)
    case Leaked => if row.status == InProcess then FailedRow(row) else row
    case Deferred => RecoveredRow(row)
    case TranslationError => RetriedRow(row, attempts, maxAttempts)
  }

  function SeededRows(rows: map<JobKey, Row>, key: JobKey, day: int, version: string, hasLeaf: bool): map<JobKey, Row> {
    if key in rows then rows[key := ReseededRow(rows[key], version)]
    else if hasLeaf then rows
    else rows[key := Row(Queued, None, day, 0, version)]
  }

  ghost function Apply(s: System, step: Step): System
    requires Enabled(s, step)
  {
    match step
    case Seed(key, day, version, hasLeaf) => s.(rows := SeededRows(s.rows, key, day, version, hasLeaf))
    case Pick(key) =>
      s.(picks := s.picks + {Pickup(key, s.rows[key].tier, s.rows[key].budgetDay, s.rows[key].attempts)})
    case Claim(w, p) =>
      if GuardMatches(s.rows, p) then Put(s, w, p.key, ClaimedRow(s.rows[p.key]), Claimed(p)) else s
    case CancelStale(w) =>
      var p := PhaseOf(s, w).pickup;
      Put(s, w, p.key, DoneRow(RowOf(s, p.key)), Idle)
    case Hold(w) =>
      var p := PhaseOf(s, w).pickup;
      Put(s, w, p.key, HeldRow(RowOf(s, p.key), p.attempts), Idle)
    case AdmitTierA(w) =>
      var p := PhaseOf(s, w).pickup;
      Put(s, w, p.key, TierARow(RowOf(s, p.key)), Analyzing(p.(attempts := 0)))
    case Reserve(w, cap) =>
      var p := PhaseOf(s, w).pickup;
      var customer := p.key.event.customer;
      var admitted := Admits(s.rows, p, cap);
      Put(s, w, p.key, ReservedRow(RowOf(s, p.key), admitted), if admitted then Analyzing(p.(attempts := 0)) else Idle)
      .(caps := s.caps[(customer, p.budgetDay) := Max(cap, LargestCap(s, customer, p.budgetDay))])
    case Proceed(w) => s.(workers := s.workers[w := Analyzing(PhaseOf(s, w).pickup)])
    case Analyze(w, analysis, maxAttempts) =>
      var p := PhaseOf(s, w).pickup;
      Put(s, w, p.key, AnalyzedRow(RowOf(s, p.key), p.attempts, analysis, maxAttempts), Idle)
    case Translate(w, t, maxAttempts) =>
      var p := PhaseOf(s, w).pickup;
      Put(s, w, p.key, TranslatedRow(RowOf(s, p.key), p.attempts, t, maxAttempts), Idle)
    case Crash(w) => s.(workers := s.workers[w := Idle])
    case Recover(stuck) =>
      s.(rows := map k | k in s.rows :: if k in stuck then RecoveredRow(s.rows[k]) else s.rows[k])
  }

  ghost predicate Legal(steps: seq<Step>)
    decreases steps, 0
  {
    steps == [] || (Legal(steps[..|steps| - 1]) && Enabled(Exec(steps[..|steps| - 1]), steps[|steps| - 1]))
  }

  ghost function Exec(steps: seq<Step>): System
    requires Legal(steps)
    decreases steps, 1
  {
    if steps == [] then EMPTY else Apply(Exec(steps[..|steps| - 1]), steps[|steps| - 1])
  }

  // ---------------------------------------------------------------------------
  // Invariant
  // ---------------------------------------------------------------------------

  ghost predicate OnLiveRows(s: System) {
    forall w :: w in s.workers && !s.workers[w].Idle? ==>
      var p := s.workers[w].pickup;
      p.key in s.rows && !Terminal(s.rows[p.key]) && s.rows[p.key].budgetDay == p.budgetDay
  }

  ghost predicate Exclusive(s: System) {
    forall w, v :: w in s.workers && v in s.workers && w != v && !s.workers[w].Idle? && !s.workers[v].Idle? ==>
      s.workers[w].pickup.key.event != s.workers[v].pickup.key.event
  }

  /** One worker at a time has an event, and the row it works on is still alive. */
  ghost predicate Locked(s: System) {
    OnLiveRows(s) && Exclusive(s)
  }

  ghost predicate PicksMatch(s: System) {
    forall p :: p in s.picks ==> p.key in s.rows && s.rows[p.key].budgetDay == p.budgetDay
  }

  ghost predicate WithinCap(s: System) {
    forall customer, day :: |Admitted(s.rows, customer, day)| <= LargestCap(s, customer, day)
  }

  ghost predicate Invariant(s: System) {
    Locked(s) && PicksMatch(s) && WithinCap(s)
  }

  /** Every step but a reservation leaves every count at most where it was. */
  lemma CountedOnlyByReserve(s: System, step: Step, k: JobKey)
    requires Locked(s) && PicksMatch(s) && Enabled(s, step) && !step.Reserve?
    requires k in Apply(s, step).rows && Counted(Apply(s, step).rows[k])
    ensures k in s.rows && Counted(s.rows[k]) && Apply(s, step).rows[k].budgetDay == s.rows[k].budgetDay
  {
  }

  lemma PhasesStayOnLiveRows(s: System, step: Step)
    requires Locked(s) && PicksMatch(s) && Enabled(s, step)
    ensures OnLiveRows(Apply(s, step))
  {
  }

  lemma LocksStayExclusive(s: System, step: Step)
    requires Locked(s) && PicksMatch(s) && Enabled(s, step)
    ensures Exclusive(Apply(s, step))
  {
  }

  lemma StepKeepsPicks(s: System, step: Step)
    requires Locked(s) && PicksMatch(s) && Enabled(s, step)
    ensures PicksMatch(Apply(s, step))
  {
  }

  lemma StepKeepsLocks(s: System, step: Step)
    requires Locked(s) && PicksMatch(s) && Enabled(s, step)
    ensures Locked(Apply(s, step)) && PicksMatch(Apply(s, step))
  {
    PhasesStayOnLiveRows(s, step);
    LocksStayExclusive(s, step);
    StepKeepsPicks(s, step);
    hide Apply, Enabled, PicksMatch;
  }

  lemma SubsetSize<T>(a: set<T>, b: set<T>)
    requires a <= b
    ensures |a| <= |b|
  {
    assert b == a + (b - a);
  }

  lemma NonReserveKeepsCaps(s: System, step: Step)
    requires Enabled(s, step) && !step.Reserve?
    ensures Apply(s, step).caps == s.caps
  {
  }

  lemma OtherStepsKeepCap(s: System, step: Step)
    requires Invariant(s) && Enabled(s, step) && !step.Reserve?
    ensures WithinCap(Apply(s, step))
  {
    hide Enabled, Locked;
    forall customer, day
      ensures |Admitted(Apply(s, step).rows, customer, day)| <= LargestCap(Apply(s, step), customer, day)
    {
      forall k | k in Admitted(Apply(s, step).rows, customer, day)
        ensures k in Admitted(s.rows, customer, day)
      {
        CountedOnlyByReserve(s, step, k);
      }
      SubsetSize(Admitted(Apply(s, step).rows, customer, day), Admitted(s.rows, customer, day));
      NonReserveKeepsCaps(s, step);
    }
  }

  /** A reservation counts its own row at most, in its own day, and nothing else newly. */
  lemma ReserveRows(s: System, step: Step, customer: string, day: int)
    requires Locked(s) && step.Reserve? && Enabled(s, step)
    ensures var p := PhaseOf(s, step.worker).pickup;
      var before, after := Admitted(s.rows, customer, day), Admitted(Apply(s, step).rows, customer, day);
      if (customer, day) == (p.key.event.customer, p.budgetDay) && Admits(s.rows, p, step.cap)
      then after == before + {p.key} else after <= before
  {
    hide Exclusive, Admits;
  }

  lemma ReserveCaps(s: System, step: Step, customer: string, day: int)
    requires step.Reserve? && Enabled(s, step)
    ensures var p := PhaseOf(s, step.worker).pickup;
      LargestCap(Apply(s, step), customer, day)
      == if (customer, day) == (p.key.event.customer, p.budgetDay)
         then Max(step.cap, LargestCap(s, customer, day))
         else LargestCap(s, customer, day)
  {
    hide Admits;
  }

  lemma ReserveAdmitsAtMostOne(s: System, step: Step, customer: string, day: int)
    requires Invariant(s) && step.Reserve? && Enabled(s, step)
    ensures |Admitted(Apply(s, step).rows, customer, day)| <= LargestCap(Apply(s, step), customer, day)
  {
    ReserveRows(s, step, customer, day);
    ReserveCaps(s, step, customer, day);
    hide Locked, PicksMatch, Apply, Enabled, Admitted, LargestCap;
    var p := PhaseOf(s, step.worker).pickup;
    var before, after := Admitted(s.rows, customer, day), Admitted(Apply(s, step).rows, customer, day);
    assert |before| <= LargestCap(s, customer, day);
    if (customer, day) == (p.key.event.customer, p.budgetDay) && Admits(s.rows, p, step.cap) {
      if p.key in before { assert after == before; } else { InsertGrowsByOne(before, after, p.key); }
    } else {
      SubsetSize(after, before);
    }
  }

  /** The reservation itself: it adds its row only below the cap it was given, and counts a row already
      admitted (a stale pickup's) once. */
  lemma ReserveKeepsCap(s: System, step: Step)
    requires Invariant(s) && step.Reserve? && Enabled(s, step)
    ensures WithinCap(Apply(s, step))
  {
    forall customer, day
      ensures |Admitted(Apply(s, step).rows, customer, day)| <= LargestCap(Apply(s, step), customer, day)
    {
      ReserveAdmitsAtMostOne(s, step, customer, day);
    }
  }

  lemma StepKeepsInvariant(s: System, step: Step)
    requires Invariant(s) && Enabled(s, step)
    ensures Invariant(Apply(s, step))
  {
    hide Apply, Enabled, Locked, PicksMatch, WithinCap;
    StepKeepsLocks(s, step);
    if step.Reserve? {
      ReserveKeepsCap(s, step);
    } else {
      OtherStepsKeepCap(s, step);
    }
  }

  lemma EmptyIsWithinCap()
    ensures Invariant(EMPTY)
  {
    forall customer, day ensures Admitted(EMPTY.rows, customer, day) == {} {}
  }

  lemma CapsSpeakOfRows(s: System)
    requires WithinCap(s)
    ensures forall customer, day ::
        |set k | k in s.rows && k.event.customer == customer && s.rows[k].budgetDay == day
             && s.rows[k].tier == Some(TierB) && s.rows[k].status != BudgetSkipped|
        <= LargestCap(s, customer, day)
  {
    forall customer, day
      ensures Admitted(s.rows, customer, day)
        == set k | k in s.rows && k.event.customer == customer && s.rows[k].budgetDay == day
             && s.rows[k].tier == Some(TierB) && s.rows[k].status != BudgetSkipped
    {
    }
  }

  /** The daily budget holds in every run: concurrent ticks, stale pickups, requeues, watchdog recovery,
      crashes and reseeding never push a customer's day above the largest cap it was given. */
  lemma {:induction false} BudgetIsNeverExceeded(steps: seq<Step>)
    requires Legal(steps)
    ensures Invariant(Exec(steps))
    ensures forall customer, day ::
        |set k | k in Exec(steps).rows && k.event.customer == customer && Exec(steps).rows[k].budgetDay == day
             && Exec(steps).rows[k].tier == Some(TierB) && Exec(steps).rows[k].status != BudgetSkipped|
        <= LargestCap(Exec(steps), customer, day)
  {
    hide Apply, Enabled, Locked, PicksMatch;
    if steps == [] {
      EmptyIsWithinCap();
    } else {
      BudgetIsNeverExceeded(steps[..|steps| - 1]);
      StepKeepsInvariant(Exec(steps[..|steps| - 1]), steps[|steps| - 1]);
    }
    CapsSpeakOfRows(Exec(steps));
  }

  /** No unguarded write revives a finished job: done, failed and budget-skipped rows are final. */
  lemma TerminalJobsStayTerminal(s: System, step: Step, k: JobKey)
    requires Invariant(s) && Enabled(s, step)
    requires k in s.rows && Terminal(s.rows[k])
    ensures k in Apply(s, step).rows
    ensures Apply(s, step).rows[k].(baselineVersion := s.rows[k].baselineVersion) == s.rows[k]
  {
    hide WithinCap;
  }

  // ---------------------------------------------------------------------------
  // What each step brings about
  // ---------------------------------------------------------------------------

  /** A reservation admits its row exactly while the day has budget left, counting the rows of the
      customer's day that are tier B and not skipped, and otherwise skips it for good. */
  lemma ReservationIsExact(s: System, w: WorkerId, cap: nat)
    requires Invariant(s) && Enabled(s, Reserve(w, cap))
    ensures var p, rows' := PhaseOf(s, w).pickup, Apply(s, Reserve(w, cap)).rows;
            var spent := set k | k in s.rows && k.event.customer == p.key.event.customer
                           && s.rows[k].budgetDay == p.budgetDay && s.rows[k].tier == Some(TierB)
                           && s.rows[k].status != BudgetSkipped;
            && p.key in s.rows && rows'.Keys == s.rows.Keys && rows'[p.key].tier == Some(TierB)
            && rows'[p.key].status == (if |spent| < cap then InProcess else BudgetSkipped)
            && (|spent| < cap ==> rows'[p.key].attempts == 0)
            && (forall k :: k in s.rows && k != p.key ==> rows'[k] == s.rows[k])
            && (PhaseOf(Apply(s, Reserve(w, cap)), w) == if |spent| < cap then Analyzing(p.(attempts := 0)) else Idle)
  {
    hide WithinCap, Exclusive, PicksMatch;
    var p := PhaseOf(s, w).pickup;
    assert Admitted(s.rows, p.key.event.customer, p.budgetDay)
      == set k | k in s.rows && k.event.customer == p.key.event.customer
           && s.rows[k].budgetDay == p.budgetDay && s.rows[k].tier == Some(TierB)
           && s.rows[k].status != BudgetSkipped;
  }

  /** The step skipped row `k` when its customer's day had no budget left under the cap it was given. */
  ghost predicate SkipsForWantOfBudget(s: System, step: Step, k: JobKey) {
    && step.Reserve? && PhaseOf(s, step.worker).Claimed? && PhaseOf(s, step.worker).pickup.key == k && k in s.rows
    && step.cap <= |set o | o in s.rows && o.event.customer == k.event.customer
                      && s.rows[o].budgetDay == s.rows[k].budgetDay && s.rows[o].tier == Some(TierB)
                      && s.rows[o].status != BudgetSkipped|
  }

  lemma SkipIsForWantOfBudget(s: System, step: Step)
    requires Invariant(s) && step.Reserve? && Enabled(s, step)
    requires Apply(s, step).rows[PhaseOf(s, step.worker).pickup.key].status == BudgetSkipped
    ensures SkipsForWantOfBudget(s, step, PhaseOf(s, step.worker).pickup.key)
  {
    ReservationIsExact(s, step.worker, step.cap);
    hide Apply, WithinCap, Exclusive, PicksMatch;
  }

  lemma OnlyFullDaysSkip(s: System, step: Step, k: JobKey)
    requires Invariant(s) && Enabled(s, step)
    requires k in Apply(s, step).rows && Apply(s, step).rows[k].status == BudgetSkipped
    requires k in s.rows ==> s.rows[k].status != BudgetSkipped
    ensures SkipsForWantOfBudget(s, step, k)
  {
    hide WithinCap, Exclusive, PicksMatch, SkipsForWantOfBudget;
    assert step.Reserve? && PhaseOf(s, step.worker).pickup.key == k;
    SkipIsForWantOfBudget(s, step);
  }

  lemma {:induction false} LegalPrefix(steps: seq<Step>, i: nat)
    requires i <= |steps| && Legal(steps)
    ensures Legal(steps[..i])
    decreases |steps|
  {
    hide Apply, Enabled;
    if i == |steps| {
      assert steps[..i] == steps;
    } else {
      LegalPrefix(steps[..|steps| - 1], i);
      assert steps[..|steps| - 1][..i] == steps[..i];
    }
  }

  /** The system just before step `i`. */
  ghost function At(steps: seq<Step>, i: nat): System
    requires Legal(steps) && i <= |steps|
  {
    LegalPrefix(steps, i);
    Exec(steps[..i])
  }

  lemma AtNext(steps: seq<Step>, i: nat)
    requires Legal(steps) && i < |steps|
    ensures Enabled(At(steps, i), steps[i]) && At(steps, i + 1) == Apply(At(steps, i), steps[i])
    ensures Invariant(At(steps, i))
  {
    hide Apply, Enabled, Invariant;
    LegalPrefix(steps, i + 1);
    LegalPrefix(steps, i);
    assert steps[..i + 1][..i] == steps[..i];
    BudgetIsNeverExceeded(steps[..i]);
  }

  lemma StartIsEmpty(steps: seq<Step>)
    requires Legal(steps)
    ensures At(steps, 0) == EMPTY
  {
    assert steps[..0] == [];
  }

  /** No budget goes to waste: in every run a skipped row was skipped by a reservation that found the rows
      already admitted for its customer's day at, or above, the cap it was given. */
  lemma {:induction false} SkipsOnlyAtTheCap(steps: seq<Step>, n: nat, k: JobKey)
    requires Legal(steps) && n <= |steps| && k in At(steps, n).rows && At(steps, n).rows[k].status == BudgetSkipped
    ensures exists i: nat :: i < n && SkipsForWantOfBudget(At(steps, i), steps[i], k)
    decreases n
  {
    hide Apply, Enabled, Invariant, SkipsForWantOfBudget;
    if n == 0 {
      StartIsEmpty(steps);
    } else {
      AtNext(steps, n - 1);
      if k in At(steps, n - 1).rows && At(steps, n - 1).rows[k].status == BudgetSkipped {
        SkipsOnlyAtTheCap(steps, n - 1, k);
      } else {
        OnlyFullDaysSkip(At(steps, n - 1), steps[n - 1], k);
      }
    }
  }

  /** The steps of one worker from its claim to the release of the job, in the order the episode dictates. */
  ghost function Undisturbed(s: System, w: WorkerId, p: Pickup, e: Episode, cap: nat, maxEnrichment: int,
                             maxAttempts: nat): System
    requires Enabled(s, Claim(w, p)) && GuardMatches(s.rows, p) && Native(p.key)
  {
    var claimed := Apply(s, Claim(w, p));
    if !e.eligible then Apply(claimed, CancelStale(w))
    else if p.tier.Some? then Apply(Apply(claimed, Proceed(w)), Analyze(w, e.analysis, maxAttempts))
    else
      match Decide(e.first, e.second, e.tierAEnabled, p.attempts, maxEnrichment, e.aged)
      case HoldRow => Apply(claimed, Hold(w))
      case AdmitA => Apply(Apply(claimed, AdmitTierA(w)), Analyze(w, e.analysis, maxAttempts))
      case ReserveB =>
        var reserved := Apply(claimed, Reserve(w, cap));
        if PhaseOf(reserved, w).Idle? then reserved else Apply(reserved, Analyze(w, e.analysis, maxAttempts))
  }

  lemma ClaimAlone(s: System, w: WorkerId, p: Pickup)
    requires Enabled(s, Claim(w, p)) && GuardMatches(s.rows, p)
    ensures var s' := Apply(s, Claim(w, p));
            s'.rows == s.rows[p.key := ClaimedRow(s.rows[p.key])] && PhaseOf(s', w) == Claimed(p)
  {
  }

  lemma ClassifyAlone(s: System, w: WorkerId, p: Pickup, cap: nat)
    requires PhaseOf(s, w) == Claimed(p) && Native(p.key) && p.tier.None? && p.key in s.rows
    ensures var held := Apply(s, Hold(w));
            held.rows == s.rows[p.key := HeldRow(s.rows[p.key], p.attempts)] && PhaseOf(held, w).Idle?
    ensures var admitted := Apply(s, AdmitTierA(w));
            && admitted.rows == s.rows[p.key := TierARow(s.rows[p.key])]
            && PhaseOf(admitted, w) == Analyzing(p.(attempts := 0))
    ensures var reserved, yes := Apply(s, Reserve(w, cap)), Admits(s.rows, p, cap);
            && reserved.rows == s.rows[p.key := ReservedRow(s.rows[p.key], yes)]
            && PhaseOf(reserved, w) == if yes then Analyzing(p.(attempts := 0)) else Idle
  {
    hide Admits;
  }

  lemma SettleAlone(s: System, w: WorkerId, p: Pickup, analysis: Analysis, maxAttempts: nat)
    requires p.key in s.rows
    ensures PhaseOf(s, w) == Claimed(p) && Native(p.key) ==>
        Apply(s, CancelStale(w)).rows == s.rows[p.key := DoneRow(s.rows[p.key])]
        && PhaseOf(Apply(s, CancelStale(w)), w).Idle?
    ensures PhaseOf(s, w) == Claimed(p) && Native(p.key) && p.tier.Some? ==>
        Apply(s, Proceed(w)).rows == s.rows && PhaseOf(Apply(s, Proceed(w)), w) == Analyzing(p)
    ensures PhaseOf(s, w) == Analyzing(p) ==>
        Apply(s, Analyze(w, analysis, maxAttempts)).rows
        == s.rows[p.key := AnalyzedRow(s.rows[p.key], p.attempts, analysis, maxAttempts)]
        && PhaseOf(Apply(s, Analyze(w, analysis, maxAttempts)), w).Idle?
  {
    hide AnalyzedRow;
  }

  lemma PutTwice(rows: map<JobKey, Row>, k: JobKey, a: Row, b: Row)
    ensures rows[k := a][k := b] == rows[k := b] && rows[k := a][k] == a
  {
  }

  /** A decision and, where it goes on, the analysis after it. */
  lemma DecidedAlone(s1: System, w: WorkerId, p: Pickup, cap: nat, analysis: Analysis, maxAttempts: nat)
    requires PhaseOf(s1, w) == Claimed(p) && Native(p.key) && p.tier.None? && p.key in s1.rows
    ensures var s' := Apply(s1, Hold(w));
            s'.rows == s1.rows[p.key := HeldRow(s1.rows[p.key], p.attempts)] && PhaseOf(s', w).Idle?
    ensures var s2 := Apply(s1, AdmitTierA(w));
            && Enabled(s2, Analyze(w, analysis, maxAttempts))
            && var s' := Apply(s2, Analyze(w, analysis, maxAttempts));
               && s'.rows == s1.rows[p.key := AnalyzedRow(TierARow(s1.rows[p.key]), 0, analysis, maxAttempts)]
               && PhaseOf(s', w).Idle?
    ensures var s2 := Apply(s1, Reserve(w, cap));
            && (PhaseOf(s2, w).Idle? <==> !Admits(s1.rows, p, cap))
            && (PhaseOf(s2, w).Idle? ==> s2.rows == s1.rows[p.key := ReservedRow(s1.rows[p.key], false)])
            && (!PhaseOf(s2, w).Idle? ==>
                  && Enabled(s2, Analyze(w, analysis, maxAttempts))
                  && var s' := Apply(s2, Analyze(w, analysis, maxAttempts));
                     && s'.rows
                        == s1.rows[p.key := AnalyzedRow(ReservedRow(s1.rows[p.key], true), 0, analysis, maxAttempts)]
                     && PhaseOf(s', w).Idle?)
  {
    var paid, row := p.(attempts := 0), s1.rows[p.key];
    ClassifyAlone(s1, w, p, cap);
    SettleAlone(Apply(s1, AdmitTierA(w)), w, paid, analysis, maxAttempts);
    SettleAlone(Apply(s1, Reserve(w, cap)), w, paid, analysis, maxAttempts);
    hide Apply, Admits, AnalyzedRow, TierARow, ReservedRow, HeldRow;
    PutTwice(s1.rows, p.key, TierARow(row), AnalyzedRow(TierARow(row), 0, analysis, maxAttempts));
    PutTwice(s1.rows, p.key, ReservedRow(row, true), AnalyzedRow(ReservedRow(row, true), 0, analysis, maxAttempts));
  }

  lemma ClassifiedAlone(s: System, s1: System, w: WorkerId, p: Pickup, e: Episode, cap: nat, maxEnrichment: int,
                        maxAttempts: nat)
    requires Enabled(s, Claim(w, p)) && GuardMatches(s.rows, p) && Native(p.key) && e.eligible && p.tier.None?
    requires s1 == Apply(s, Claim(w, p)) && PhaseOf(s1, w) == Claimed(p)
    requires s1.rows == s.rows[p.key := ClaimedRow(s.rows[p.key])]
    ensures var s' := Undisturbed(s, w, p, e, cap, maxEnrichment, maxAttempts);
            && s'.rows == s1.rows[p.key := Processed(s.rows[p.key], p.tier, e.(admitted := Admits(s1.rows, p, cap)),
                                                     maxEnrichment, maxAttempts)]
            && PhaseOf(s', w).Idle?
  {
    DecidedAlone(s1, w, p, cap, e.analysis, maxAttempts);
    hide Apply, Enabled, PhaseOf, Admits, AnalyzedRow, TierARow, ReservedRow, HeldRow, DoneRow, ClaimedRow, Decide,
      Native;
  }

  /** Left alone, those steps take the row exactly where one claim of the sequential model takes it, touch no
      other row and free the worker: what is proved of single claims holds of the table. */
  lemma UndisturbedClaimIsProcessed(s: System, w: WorkerId, p: Pickup, e: Episode, cap: nat, maxEnrichment: int,
                                    maxAttempts: nat)
    requires Enabled(s, Claim(w, p)) && GuardMatches(s.rows, p) && Native(p.key)
    ensures var admitted := Admits(s.rows[p.key := ClaimedRow(s.rows[p.key])], p, cap);
            var s' := Undisturbed(s, w, p, e, cap, maxEnrichment, maxAttempts);
            && s'.rows == s.rows[p.key := Processed(s.rows[p.key], p.tier, e.(admitted := admitted), maxEnrichment,
                                                    maxAttempts)]
            && PhaseOf(s', w).Idle?
  {
    ClaimAlone(s, w, p);
    var s1 := Apply(s, Claim(w, p));
    SettleAlone(s1, w, p, e.analysis, maxAttempts);
    hide Decide, Admits, Apply, AnalyzedRow, TierARow, ReservedRow, HeldRow, DoneRow, ClaimedRow;
    if e.eligible && p.tier.None? {
      hide Undisturbed, Processed;
      ClassifiedAlone(s, s1, w, p, e, cap, maxEnrichment, maxAttempts);
      PutTwice(s.rows, p.key, s1.rows[p.key], Undisturbed(s, w, p, e, cap, maxEnrichment, maxAttempts).rows[p.key]);
    } else if e.eligible {
      SettleAlone(Apply(s1, Proceed(w)), w, p, e.analysis, maxAttempts);
    }
  }

  /** An admission to tier A starts the attempts over, in the row and in the worker's hands. */
  lemma AdmissionStartsOver(s: System, w: WorkerId)
    requires Invariant(s) && Enabled(s, AdmitTierA(w))
    ensures var p, s' := PhaseOf(s, w).pickup, Apply(s, AdmitTierA(w));
            && p.key in s.rows && s'.rows[p.key] == s.rows[p.key].(tier := Some(TierA), attempts := 0)
            && PhaseOf(s', w) == Analyzing(p.(attempts := 0))
            && (forall k :: k in s.rows && k != p.key ==> k in s'.rows && s'.rows[k] == s.rows[k])
  {
    hide WithinCap, PicksMatch, Exclusive;
  }

  /** A claimed job goes its way by its language: English ones are classified or analyzed, all others are
      translations of an English result. */
  lemma RoutedByLanguage(s: System, w: WorkerId, t: Translation, maxAttempts: nat)
    requires PhaseOf(s, w).Claimed?
    ensures var p, english := PhaseOf(s, w).pickup, PhaseOf(s, w).pickup.key.lang == "ENGLISH";
            && (Enabled(s, Translate(w, t, maxAttempts)) <==> !english)
            && (Enabled(s, Hold(w)) <==> english && p.tier.None?)
            && (Enabled(s, Proceed(w)) <==> english && p.tier.Some?)
  {
  }

  /** Seeding brings a job in once, held and unclassified, unless its event has a leaf already; after that it
      updates the source version alone, and not even that while an attempt is in flight. */
  lemma SeedingIsGentle(s: System, step: Step, k: JobKey)
    requires step.Seed?
    ensures var rows' := Apply(s, step).rows;
            && (k in rows' <==> k in s.rows || (k == step.key && !step.hasLeaf))
            && (k in rows' && k !in s.rows ==> rows'[k] == Row(Queued, None, step.day, 0, step.version))
            && (k in s.rows ==> rows'[k].(baselineVersion := s.rows[k].baselineVersion) == s.rows[k])
            && (k in s.rows ==>
                  rows'[k].baselineVersion
                  == if k == step.key && s.rows[k].status != InProcess then step.version
                     else s.rows[k].baselineVersion)
  {
  }

  /** A crashed worker's job comes back: recovered, it is queued as it was, and a fresh pickup of it wins the
      next claim; recovery touches nothing that is not in process. */
  lemma CrashedJobComesBack(s: System, w: WorkerId, stuck: set<JobKey>, k: JobKey)
    requires Enabled(s, Crash(w)) && k in s.rows
    ensures var dead := Apply(s, Crash(w));
            var back := Apply(dead, Recover(stuck));
            && PhaseOf(dead, w).Idle? && dead.rows == s.rows
            && back.rows.Keys == s.rows.Keys
            && back.rows[k] == (if k in stuck && s.rows[k].status == InProcess then s.rows[k].(status := Queued)
                                else s.rows[k])
            && (k in stuck && s.rows[k].status == InProcess ==>
                  && Enabled(back, Pick(k))
                  && var again := Pickup(k, s.rows[k].tier, s.rows[k].budgetDay, s.rows[k].attempts);
                     again in Apply(back, Pick(k)).picks && GuardMatches(Apply(back, Pick(k)).rows, again))
  {
  }

  /** A translation job ends done when its text was derived, failed when a token leaked, queued while its
      native result is not there yet, and is tried again on an error until its attempts are used up. */
  lemma TranslationEnds(s: System, w: WorkerId, t: Translation, maxAttempts: nat)
    requires Invariant(s) && Enabled(s, Translate(w, t, maxAttempts))
    ensures var p, s' := PhaseOf(s, w).pickup, Apply(s, Translate(w, t, maxAttempts));
            && p.key in s.rows && s'.rows.Keys == s.rows.Keys && PhaseOf(s', w).Idle?
            && (forall k :: k in s.rows && k != p.key ==> s'.rows[k] == s.rows[k])
            && (t != TranslationError ==>
                  s'.rows[p.key] == if s.rows[p.key].status != InProcess then s.rows[p.key]
                                    else s.rows[p.key].(status := match t
                                                          case Derived => JobDone
                                                          case Leaked => JobFailed
                                                          case _ => Queued))
            && (t == TranslationError ==>
                  && s'.rows[p.key].attempts == p.attempts + 1
                  && s'.rows[p.key].status == if p.attempts + 1 >= maxAttempts then JobFailed else Queued)
  {
    hide WithinCap, PicksMatch, Exclusive;
  }
}

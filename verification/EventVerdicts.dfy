/** The job table and the enrichment evidence together: which verdict a worker's classification rests on.

    `src/lib/analysis/event-analysis-worker.ts` and `src/lib/analysis/event-enrichment-worker.ts`. The two
    verdict reads of a classification and the write it leads to are separate steps, so enrichment runs and
    other workers may fall anywhere between them. */
module EventVerdicts {
  import opened Common
  import opened Enrichment
  import opened EventJobs
  import opened EventBudget

  /** How far a worker's classification of its claimed job has come. */
  datatype Mind = Undecided | Inconclusive(first: Option<StateRow>) | Resolved(decision: Decision)

  /** `evidence` holds the enrichment runs of each event that have committed, failures included. */
  datatype World = World(jobs: System, evidence: map<EventRef, seq<Attempt>>, minds: map<WorkerId, Mind>)

  const START := World(EMPTY, map[], map[])

  datatype Act =
    /** A run commits its verdict, or its failure marker, from whatever worker. */
    | Enriches(event: EventRef, attempt: Attempt)
    /** The first verdict read of a held job; `tierA`, `maxEnrichment` and `aged` are the settings and the
        age the decision meets. */
    | ReadsFirst(worker: WorkerId, tierA: bool, maxEnrichment: int, aged: bool)
    /** The second, after a bounded enrichment, when the first was inconclusive. */
    | ReadsAgain(worker: WorkerId, tierA: bool, maxEnrichment: int, aged: bool)
    /** Any step of the job table. */
    | Does(step: Step)

  function HistoryOf(s: World, e: EventRef): seq<Attempt> {
    if e in s.evidence then s.evidence[e] else []
  }

  function VerdictNow(s: World, e: EventRef): Option<StateRow> {
    Replay(NOTHING, HistoryOf(s, e)).row
  }

  predicate HitKnown(s: World, e: EventRef) {
    VerdictNow(s, e).Some? && VerdictNow(s, e).value.knownIocHit
  }

  function MindOf(s: World, w: WorkerId): Mind {
    if w in s.minds then s.minds[w] else Undecided
  }

  /** A held native job is being classified. */
  predicate Classifies(s: World, w: WorkerId) {
    Holds(s.jobs, w, true) && PhaseOf(s.jobs, w).pickup.tier.None?
  }

  /** A classification's write is the one its decision asks for. */
  predicate Follows(mind: Mind, step: Step) {
    match step
    case Hold(_) => mind == Resolved(HoldRow)
    case AdmitTierA(_) => mind == Resolved(AdmitA)
    case Reserve(_, _) => mind == Resolved(ReserveB)
    case _ => true
  }

  function WorkerOf(step: Step): Option<WorkerId> {
    match step
    case Claim(w, _) => Some(w)
    case CancelStale(w) => Some(w)
    case Hold(w) => Some(w)
    case AdmitTierA(w) => Some(w)
    case Reserve(w, _) => Some(w)
    case Proceed(w) => Some(w)
    case Analyze(w, _, _) => Some(w)
    case Translate(w, _, _) => Some(w)
    case Crash(w) => Some(w)
    case _ => None
  }

  /** A run's verdict comes out of the fold, so its flag and its evidence agree. */
  ghost predicate Allowed(s: World, a: Act) {
    match a
    case Enriches(_, attempt) => FromFold([attempt])
    case ReadsFirst(w, _, _, _) => Classifies(s, w) && MindOf(s, w).Undecided?
    case ReadsAgain(w, _, _, _) => Classifies(s, w) && MindOf(s, w).Inconclusive?
    case Does(step) =>
      && EventBudget.Enabled(s.jobs, step)
      && (WorkerOf(step).Some? ==> Follows(MindOf(s, WorkerOf(step).value), step))
  }

  ghost function Next(s: World, a: Act): World
    requires Allowed(s, a)
  {
    match a
    case Enriches(e, attempt) => s.(evidence := s.evidence[e := HistoryOf(s, e) + [attempt]])
    case ReadsFirst(w, tierA, maxEnrichment, aged) =>
      var p := PhaseOf(s.jobs, w).pickup;
      var now := VerdictNow(s, p.key.event);
      s.(minds := s.minds[w :=
        if ClassifyVerdict(now) == ToHold then Inconclusive(now)
        else Resolved(Decide(now, now, tierA, p.attempts, maxEnrichment, aged))])
    case ReadsAgain(w, tierA, maxEnrichment, aged) =>
      var p := PhaseOf(s.jobs, w).pickup;
      s.(minds := s.minds[w :=
        Resolved(Decide(MindOf(s, w).first, VerdictNow(s, p.key.event), tierA, p.attempts, maxEnrichment, aged))])
    case Does(step) =>
      World(EventBudget.Apply(s.jobs, step), s.evidence,
            if WorkerOf(step).Some? then s.minds[WorkerOf(step).value := Undecided] else s.minds)
  }

  ghost predicate Possible(acts: seq<Act>)
    decreases acts, 0
  {
    acts == [] || (Possible(acts[..|acts| - 1]) && Allowed(After(acts[..|acts| - 1]), acts[|acts| - 1]))
  }

  ghost function After(acts: seq<Act>): World
    requires Possible(acts)
    decreases acts, 1
  {
    if acts == [] then START else Next(After(acts[..|acts| - 1]), acts[|acts| - 1])
  }

  // ---------------------------------------------------------------------------
  // Once a hit is known
  // ---------------------------------------------------------------------------

  /** The row is tier B, or was skipped for the budget. */
  predicate Budgeted(s: World, k: JobKey) {
    k in s.jobs.rows && (s.jobs.rows[k].tier == Some(TierB) || s.jobs.rows[k].status == BudgetSkipped)
  }

  predicate Reserving(s: World, w: WorkerId, e: EventRef) {
    PhaseOf(s.jobs, w).Claimed? && PhaseOf(s.jobs, w).pickup.key.event == e
  }

  /** A worker on the event resolved to reserve for it, and has not yet written. */
  predicate ReservationPending(s: World, e: EventRef) {
    exists w :: w in s.minds && s.minds[w] == Resolved(ReserveB) && Reserving(s, w, e)
  }

  /** An inconclusive first read really was one. */
  ghost predicate MindsAreHonest(s: World) {
    forall w :: w in s.minds && s.minds[w].Inconclusive? ==> ClassifyVerdict(s.minds[w].first) == ToHold
  }

  /** Committing another run, or a failure, leaves a known hit known. */
  lemma HitStaysKnown(s: World, a: Act, e: EventRef)
    requires Allowed(s, a) && HitKnown(s, e)
    ensures HitKnown(Next(s, a), e)
  {
    hide EventBudget.Apply, EventBudget.Enabled;
    if a.Enriches? && a.event == e {
      var history := HistoryOf(s, e);
      var longer := history + [a.attempt];
      assert longer[..|longer| - 1] == history;
    }
  }

  /** A decision that reads a known hit never is to reserve. */
  lemma KnownHitResolvesElsewhere(first: Option<StateRow>, now: Option<StateRow>, tierA: bool, attempts: nat,
          maxEnrichment: int, aged: bool)
    requires now.Some? && now.value.knownIocHit
    requires ClassifyVerdict(first) == ToHold || first == now
    ensures Decide(first, now, tierA, attempts, maxEnrichment, aged) != ReserveB
  {
  }

  /** Only a reservation budgets a row, and only one of its worker's own event. */
  lemma OnlyReserveBudgets(s: System, step: Step, k: JobKey)
    requires EventBudget.Enabled(s, step) && k in EventBudget.Apply(s, step).rows
    requires var row := EventBudget.Apply(s, step).rows[k]; row.tier == Some(TierB) || row.status == BudgetSkipped
    ensures || (k in s.rows && (s.rows[k].tier == Some(TierB) || s.rows[k].status == BudgetSkipped))
            || (step.Reserve? && PhaseOf(s, step.worker).pickup.key == k)
  {
  }

  /** A step brings a worker onto a claim only by claiming. */
  lemma ClaimedBefore(s: System, step: Step, w: WorkerId)
    requires EventBudget.Enabled(s, step) && PhaseOf(EventBudget.Apply(s, step), w).Claimed?
    ensures WorkerOf(step) == Some(w) || PhaseOf(EventBudget.Apply(s, step), w) == PhaseOf(s, w)
  {
  }

  lemma ActKeepsMinds(s: World, a: Act)
    requires MindsAreHonest(s) && Allowed(s, a)
    ensures MindsAreHonest(Next(s, a))
  {
    hide EventBudget.Apply, EventBudget.Enabled, ClassifyVerdict, Decide, Replay;
  }

  lemma NoReservationBy(s: World, a: Act, e: EventRef, w: WorkerId)
    requires MindsAreHonest(s) && Allowed(s, a) && HitKnown(s, e) && !ReservationPending(s, e)
    requires w in Next(s, a).minds && Next(s, a).minds[w] == Resolved(ReserveB)
    ensures !Reserving(Next(s, a), w, e)
  {
    hide ClassifyVerdict, Decide, Replay;
    if a.Does? {
      if Reserving(Next(s, a), w, e) { ClaimedBefore(s.jobs, a.step, w); }
      hide EventBudget.Apply, EventBudget.Enabled;
    } else if a.ReadsFirst? && a.worker == w {
      var now := VerdictNow(s, PhaseOf(s.jobs, w).pickup.key.event);
      if Reserving(s, w, e) {
        KnownHitResolvesElsewhere(now, now, a.tierA, PhaseOf(s.jobs, w).pickup.attempts, a.maxEnrichment, a.aged);
      }
    } else if a.ReadsAgain? && a.worker == w {
      var now := VerdictNow(s, PhaseOf(s.jobs, w).pickup.key.event);
      if Reserving(s, w, e) {
        KnownHitResolvesElsewhere(MindOf(s, w).first, now, a.tierA, PhaseOf(s.jobs, w).pickup.attempts,
          a.maxEnrichment, a.aged);
      }
    }
  }

  /** With the hit known and no reservation under way, none comes under way. */
  lemma NoReservationStarts(s: World, a: Act, e: EventRef)
    requires MindsAreHonest(s) && Allowed(s, a) && HitKnown(s, e) && !ReservationPending(s, e)
    ensures !ReservationPending(Next(s, a), e)
  {
    var s' := Next(s, a);
    forall w | w in s'.minds && s'.minds[w] == Resolved(ReserveB)
      ensures !Reserving(s', w, e)
    {
      NoReservationBy(s, a, e, w);
    }
  }

  /** Then nothing budgets a row of the event. */
  lemma NothingBudgets(s: World, a: Act, k: JobKey)
    requires Allowed(s, a) && !ReservationPending(s, k.event) && !Budgeted(s, k)
    ensures !Budgeted(Next(s, a), k)
  {
    if a.Does? && Budgeted(Next(s, a), k) {
      OnlyReserveBudgets(s.jobs, a.step, k);
      assert Reserving(s, a.step.worker, k.event);
      assert false;
    }
  }

  /** A reservation that is under way does budget its row, hit or no hit. */
  lemma ReservationBudgets(s: World, w: WorkerId, cap: nat)
    requires Allowed(s, Does(Reserve(w, cap))) && PhaseOf(s.jobs, w).pickup.key in s.jobs.rows
    ensures var k := PhaseOf(s.jobs, w).pickup.key;
            ReservationPending(s, k.event) && Budgeted(Next(s, Does(Reserve(w, cap))), k)
  {
    assert Reserving(s, w, PhaseOf(s.jobs, w).pickup.key.event);
  }

  lemma {:induction false} MindsStayHonest(acts: seq<Act>)
    requires Possible(acts)
    ensures MindsAreHonest(After(acts))
  {
    hide Next, Allowed;
    if acts != [] {
      MindsStayHonest(acts[..|acts| - 1]);
      ActKeepsMinds(After(acts[..|acts| - 1]), acts[|acts| - 1]);
    }
  }

  lemma {:induction false} PossiblePrefix(acts: seq<Act>, i: nat)
    requires i <= |acts| && Possible(acts)
    ensures Possible(acts[..i])
    decreases |acts|
  {
    hide Next, Allowed;
    if i == |acts| {
      assert acts[..i] == acts;
    } else {
      PossiblePrefix(acts[..|acts| - 1], i);
      assert acts[..|acts| - 1][..i] == acts[..i];
    }
  }

  /** The world just before act `i`. */
  ghost function WorldAt(acts: seq<Act>, i: nat): World
    requires Possible(acts) && i <= |acts|
  {
    PossiblePrefix(acts, i);
    After(acts[..i])
  }

  /** Over all interleavings of workers, enrichment runs, recovery, crashes and reseeding: take any moment
      at which the event's hit is stored and no classification that read the verdict earlier is about to
      reserve for it. From then on no row of the event becomes tier B or budget-skipped, whichever worker
      classifies it. */
  lemma {:induction false} KnownHitIsNeverBudgetedAgain(acts: seq<Act>, i: nat, k: JobKey)
    requires Possible(acts) && i <= |acts|
    requires HitKnown(WorldAt(acts, i), k.event) && !ReservationPending(WorldAt(acts, i), k.event)
    requires !Budgeted(WorldAt(acts, i), k)
    ensures HitKnown(After(acts), k.event) && !ReservationPending(After(acts), k.event)
    ensures !Budgeted(After(acts), k)
    decreases |acts|
  {
    hide Next, Allowed, HitKnown, ReservationPending, Budgeted;
    if i == |acts| {
      assert acts[..i] == acts;
    } else {
      var before, last := acts[..|acts| - 1], acts[|acts| - 1];
      assert before[..i] == acts[..i];
      KnownHitIsNeverBudgetedAgain(before, i, k);
      MindsStayHonest(before);
      HitStaysKnown(After(before), last, k.event);
      NoReservationStarts(After(before), last, k.event);
      NothingBudgets(After(before), last, k);
    }
  }

  // ---------------------------------------------------------------------------
  // What every classification's write rests on
  // ---------------------------------------------------------------------------

  lemma WorldNext(acts: seq<Act>, i: nat)
    requires Possible(acts) && i < |acts|
    ensures Allowed(WorldAt(acts, i), acts[i]) && WorldAt(acts, i + 1) == Next(WorldAt(acts, i), acts[i])
  {
    hide Next, Allowed;
    PossiblePrefix(acts, i + 1);
    PossiblePrefix(acts, i);
    assert acts[..i + 1][..i] == acts[..i];
  }

  ghost predicate AllFromFold(s: World) {
    forall e :: e in s.evidence ==> FromFold(s.evidence[e])
  }

  lemma {:induction false} EvidenceIsFromFold(acts: seq<Act>, i: nat)
    requires Possible(acts) && i <= |acts|
    ensures AllFromFold(WorldAt(acts, i))
  {
    if i > 0 {
      EvidenceIsFromFold(acts, i - 1);
      WorldNext(acts, i - 1);
    }
  }

  /** The runs of event `e` that committed, in order. */
  function Committed(acts: seq<Act>, e: EventRef): seq<Attempt> {
    if acts == [] then []
    else
      var before, last := Committed(acts[..|acts| - 1], e), acts[|acts| - 1];
      if last.Enriches? && last.event == e then before + [last.attempt] else before
  }

  lemma StartWorld(acts: seq<Act>)
    requires Possible(acts)
    ensures WorldAt(acts, 0) == START
  {
    assert acts[..0] == [];
  }

  /** What a read finds is every run of the event that committed before it, of whatever worker, and nothing
      else. */
  lemma {:induction false} HistoryIsTheCommittedRuns(acts: seq<Act>, n: nat, e: EventRef)
    requires Possible(acts) && n <= |acts|
    ensures HistoryOf(WorldAt(acts, n), e) == Committed(acts[..n], e)
  {
    hide EventBudget.Apply, EventBudget.Enabled, Possible, After;
    if n == 0 {
      StartWorld(acts);
    } else {
      HistoryIsTheCommittedRuns(acts, n - 1, e);
      WorldNext(acts, n - 1);
      assert acts[..n][..n - 1] == acts[..n - 1];
    }
  }

  /** A step of someone else leaves a worker where it is. */
  lemma OthersKeepPhase(s: System, step: Step, w: WorkerId)
    requires EventBudget.Enabled(s, step) && WorkerOf(step) != Some(w)
    ensures PhaseOf(EventBudget.Apply(s, step), w) == PhaseOf(s, w)
  {
  }

  ghost predicate ReadsAt(acts: seq<Act>, i: nat, w: WorkerId, phase: EventBudget.Phase)
    requires Possible(acts)
  {
    && i < |acts| && (acts[i].ReadsFirst? || acts[i].ReadsAgain?) && acts[i].worker == w
    && phase.Claimed? && PhaseOf(WorldAt(acts, i).jobs, w) == phase
  }

  /** Worker `w` read the verdict first at `f` and last at `r`, on the claim it still holds; both reads are
      the same exactly when the first was conclusive. */
  ghost predicate Read(acts: seq<Act>, f: nat, r: nat, w: WorkerId, phase: EventBudget.Phase)
    requires Possible(acts)
  {
    && f <= r && ReadsAt(acts, f, w, phase) && ReadsAt(acts, r, w, phase)
    && acts[f].ReadsFirst? && (f < r ==> acts[r].ReadsAgain?)
    && (f == r <==> ClassifyVerdict(VerdictNow(WorldAt(acts, f), phase.pickup.key.event)) != ToHold)
  }

  ghost predicate Reading(acts: seq<Act>, f: nat, w: WorkerId, phase: EventBudget.Phase, first: Option<StateRow>)
    requires Possible(acts)
  {
    && ReadsAt(acts, f, w, phase) && acts[f].ReadsFirst?
    && first == VerdictNow(WorldAt(acts, f), phase.pickup.key.event) && ClassifyVerdict(first) == ToHold
  }

  ghost predicate DecidedAs(acts: seq<Act>, f: nat, r: nat, phase: EventBudget.Phase, d: Decision)
    requires Possible(acts) && f <= r < |acts| && phase.Claimed? && (acts[r].ReadsFirst? || acts[r].ReadsAgain?)
  {
    d == Decide(VerdictNow(WorldAt(acts, f), phase.pickup.key.event),
                VerdictNow(WorldAt(acts, r), phase.pickup.key.event),
                acts[r].tierA, phase.pickup.attempts, acts[r].maxEnrichment, acts[r].aged)
  }

  /** What a worker has in mind came from reads of its own, on the claim it holds. */
  ghost predicate Traced(acts: seq<Act>, n: nat, w: WorkerId)
    requires Possible(acts) && n <= |acts|
  {
    var phase := PhaseOf(WorldAt(acts, n).jobs, w);
    match MindOf(WorldAt(acts, n), w)
    case Undecided => true
    case Inconclusive(first) => exists f: nat :: f < n && Reading(acts, f, w, phase, first)
    case Resolved(d) => exists f: nat, r: nat :: r < n && Read(acts, f, r, w, phase) && DecidedAs(acts, f, r, phase, d)
  }

  lemma MindStep(acts: seq<Act>, m: nat, w: WorkerId)
    requires Possible(acts) && m < |acts| && Traced(acts, m, w)
    requires Allowed(WorldAt(acts, m), acts[m]) && WorldAt(acts, m + 1) == Next(WorldAt(acts, m), acts[m])
    ensures Traced(acts, m + 1, w)
  {
    hide ClassifyVerdict, Decide, Replay, After, Possible;
    var s, a := WorldAt(acts, m), acts[m];
    if a.Does? && WorkerOf(a.step) != Some(w) {
      OthersKeepPhase(s.jobs, a.step, w);
      hide EventBudget.Apply, EventBudget.Enabled;
    } else if a.ReadsFirst? && a.worker == w {
      hide EventBudget.Apply, EventBudget.Enabled;
      var phase := PhaseOf(s.jobs, w);
      assert ReadsAt(acts, m, w, phase);
      var now := VerdictNow(s, phase.pickup.key.event);
      if ClassifyVerdict(now) == ToHold {
        assert Reading(acts, m, w, phase, now);
      } else {
        assert Read(acts, m, m, w, phase);
        assert DecidedAs(acts, m, m, phase, MindOf(WorldAt(acts, m + 1), w).decision);
      }
    } else if a.ReadsAgain? && a.worker == w {
      hide EventBudget.Apply, EventBudget.Enabled;
      var phase := PhaseOf(s.jobs, w);
      assert ReadsAt(acts, m, w, phase);
      var f: nat :| f < m && Reading(acts, f, w, phase, MindOf(s, w).first);
      assert Read(acts, f, m, w, phase);
      assert DecidedAs(acts, f, m, phase, MindOf(WorldAt(acts, m + 1), w).decision);
    } else {
      hide EventBudget.Apply, EventBudget.Enabled;
    }
  }

  lemma {:induction false} MindsAreTraced(acts: seq<Act>, n: nat, w: WorkerId)
    requires Possible(acts) && n <= |acts|
    ensures Traced(acts, n, w)
  {
    hide ClassifyVerdict, Decide, Replay, After, Possible;
    if n == 0 {
      assert WorldAt(acts, 0) == START by { StartWorld(acts); }
    } else {
      MindsAreTraced(acts, n - 1, w);
      WorldNext(acts, n - 1);
      MindStep(acts, n - 1, w);
    }
  }

  /** The write a classification makes, judged by the event's history when it read it. */
  ghost predicate FollowsFrom(step: Step, early: seq<Attempt>, late: seq<Attempt>, tierA: bool, bound: bool) {
    var decisive := if FloorSeen(early) || ConclusiveMiss(early) then early else late;
    && (step.AdmitTierA? <==> FloorSeen(decisive) && tierA)
    && (step.Reserve? <==> ConclusiveMiss(decisive) || (!FloorSeen(decisive) && bound))
    && (step.Hold? <==> if FloorSeen(decisive) then !tierA else !ConclusiveMiss(decisive) && !bound)
  }

  lemma HistoriesAreFromFold(s: World, e: EventRef)
    requires AllFromFold(s)
    ensures FromFold(HistoryOf(s, e))
  {
  }

  lemma WriteIsDecided(s: World, step: Step, w: WorkerId)
    requires Allowed(s, Does(step)) && WorkerOf(step) == Some(w) && (step.Hold? || step.AdmitTierA? || step.Reserve?)
    ensures PhaseOf(s.jobs, w).Claimed? && MindOf(s, w).Resolved?
    ensures step.Hold? <==> MindOf(s, w).decision == HoldRow
    ensures step.AdmitTierA? <==> MindOf(s, w).decision == AdmitA
    ensures step.Reserve? <==> MindOf(s, w).decision == ReserveB
  {
  }

  lemma TraceOf(acts: seq<Act>, n: nat, w: WorkerId) returns (f: nat, r: nat)
    requires Possible(acts) && n <= |acts| && Traced(acts, n, w) && MindOf(WorldAt(acts, n), w).Resolved?
    ensures f <= r < n && Read(acts, f, r, w, PhaseOf(WorldAt(acts, n).jobs, w))
    ensures DecidedAs(acts, f, r, PhaseOf(WorldAt(acts, n).jobs, w), MindOf(WorldAt(acts, n), w).decision)
  {
    hide DecidedAs, Possible, After;
    f, r :| r < n && Read(acts, f, r, w, PhaseOf(WorldAt(acts, n).jobs, w))
      && DecidedAs(acts, f, r, PhaseOf(WorldAt(acts, n).jobs, w), MindOf(WorldAt(acts, n), w).decision);
  }

  lemma ReadsJustify(acts: seq<Act>, f: nat, r: nat, step: Step, w: WorkerId, phase: EventBudget.Phase, d: Decision)
    requires Possible(acts) && Read(acts, f, r, w, phase) && DecidedAs(acts, f, r, phase, d)
    requires step.Hold? <==> d == HoldRow
    requires step.AdmitTierA? <==> d == AdmitA
    requires step.Reserve? <==> d == ReserveB
    ensures var p := phase.pickup;
            FollowsFrom(step, HistoryOf(WorldAt(acts, f), p.key.event), HistoryOf(WorldAt(acts, r), p.key.event),
                        acts[r].tierA, p.attempts + 1 >= acts[r].maxEnrichment || acts[r].aged)
  {
    hide Decide, Replay, FloorSeen, ConclusiveMiss, After, Possible, FromFold, WorldAt, ClassifyVerdict;
    var e := phase.pickup.key.event;
    EvidenceIsFromFold(acts, f);
    EvidenceIsFromFold(acts, r);
    HistoriesAreFromFold(WorldAt(acts, f), e);
    HistoriesAreFromFold(WorldAt(acts, r), e);
    DecisionFollowsHistory(HistoryOf(WorldAt(acts, f), e), HistoryOf(WorldAt(acts, r), e), acts[r].tierA,
      phase.pickup.attempts, acts[r].maxEnrichment, acts[r].aged);
  }

  /** Over all interleavings, whatever a worker writes for a held job follows from the runs of its event that
      had committed when that worker read it, on this very claim: it admits to tier A exactly for floor
      evidence, reserves exactly for a conclusive miss or a hold that is used up, and holds the job otherwise. */
  lemma WritesFollowTheHistory(acts: seq<Act>, n: nat, step: Step, w: WorkerId)
    requires Possible(acts) && n < |acts| && acts[n] == Does(step) && WorkerOf(step) == Some(w)
    requires step.Hold? || step.AdmitTierA? || step.Reserve?
    ensures PhaseOf(WorldAt(acts, n).jobs, w).Claimed?
    ensures exists f: nat, r: nat ::
      && r < n && Read(acts, f, r, w, PhaseOf(WorldAt(acts, n).jobs, w))
      && var p := PhaseOf(WorldAt(acts, n).jobs, w).pickup;
         FollowsFrom(step, Committed(acts[..f], p.key.event), Committed(acts[..r], p.key.event),
                     acts[r].tierA, p.attempts + 1 >= acts[r].maxEnrichment || acts[r].aged)
  {
    hide *;
    WorldNext(acts, n);
    MindsAreTraced(acts, n, w);
    WriteIsDecided(WorldAt(acts, n), step, w);
    var f, r := TraceOf(acts, n, w);
    ReadsJustify(acts, f, r, step, w, PhaseOf(WorldAt(acts, n).jobs, w), MindOf(WorldAt(acts, n), w).decision);
    HistoryIsTheCommittedRuns(acts, f, PhaseOf(WorldAt(acts, n).jobs, w).pickup.key.event);
    HistoryIsTheCommittedRuns(acts, r, PhaseOf(WorldAt(acts, n).jobs, w).pickup.key.event);
  }

  // ---------------------------------------------------------------------------
  // A job from end to end
  // ---------------------------------------------------------------------------

  lemma OneMoreAct(acts: seq<Act>, a: Act)
    requires Possible(acts) && Allowed(After(acts), a)
    ensures Possible(acts + [a]) && After(acts + [a]) == Next(After(acts), a)
  {
    hide Next, Allowed;
    assert (acts + [a])[..|acts|] == acts;
  }

  /** A clean run commits, and then one worker takes the event's job from the seed to the stored analysis. */
  function CleanJob(k: JobKey, w: WorkerId, day: int, version: string): seq<Act> {
    [Enriches(k.event, Succeeded(Verdict(false, Complete, [], []), 0)),
     Does(Seed(k, day, version, false)),
     Does(Pick(k)),
     Does(Claim(w, Pickup(k, None, day, 0))),
     ReadsFirst(w, true, 5, false),
     Does(Reserve(w, 1)),
     Does(Analyze(w, Analyzed, 3))]
  }

  lemma CleanRead(e: EventRef)
    ensures var v := Verdict(false, Complete, [], []);
            && FromFold([Succeeded(v, 0)])
            && Replay(NOTHING, [Succeeded(v, 0)]).row == Some(StateRow(StatusComplete, Complete, false, Some(0), None))
  {
    var history := [Succeeded(Verdict(false, Complete, [], []), 0)];
    assert history[..0] == [] && Replay(NOTHING, []) == NOTHING;
  }

  lemma NothingAdmitted(rows: map<JobKey, Row>, k: JobKey, day: int)
    requires forall o :: o in rows ==> rows[o].tier.None?
    ensures Admits(rows, Pickup(k, None, day, 0), 1)
  {
    assert Admitted(rows, k.event.customer, day) == {};
  }

  lemma SeedAndPick(k: JobKey, w: WorkerId, day: int, version: string)
    ensures var acts := CleanJob(k, w, day, version);
            && Possible(acts[..3])
            && After(acts[..3]) == World(
                 System(map[k := Row(Queued, None, day, 0, version)], {Pickup(k, None, day, 0)}, map[], map[]),
                 map[k.event := [Succeeded(Verdict(false, Complete, [], []), 0)]], map[])
  {
    var acts := CleanJob(k, w, day, version);
    CleanRead(k.event);
    hide Replay, FromFold;
    assert acts[..0] == [] && After([]) == START;
    OneMoreAct([], acts[0]);
    assert [] + [acts[0]] == acts[..1];
    var evidence := map[k.event := [Succeeded(Verdict(false, Complete, [], []), 0)]];
    assert HistoryOf(START, k.event) + [acts[0].attempt] == evidence[k.event];
    assert After(acts[..1]).evidence == evidence;
    assert After(acts[..1]) == World(EMPTY, evidence, map[]);
    OneMoreAct(acts[..1], acts[1]);
    assert acts[..1] + [acts[1]] == acts[..2];
    assert After(acts[..2]) == World(System(map[k := Row(Queued, None, day, 0, version)], {}, map[], map[]), evidence,
                                     map[]);
    OneMoreAct(acts[..2], acts[2]);
    assert acts[..2] + [acts[2]] == acts[..3];
  }

  lemma ClaimAndRead(k: JobKey, w: WorkerId, day: int, version: string)
    requires k.lang == "ENGLISH"
    ensures var acts, p := CleanJob(k, w, day, version), Pickup(k, None, day, 0);
            && Possible(acts[..5])
            && After(acts[..5]).jobs == System(
                 map[k := Row(InProcess, None, day, 0, version)], {p}, map[w := Claimed(p)], map[])
            && MindOf(After(acts[..5]), w) == Resolved(ReserveB)
  {
    var acts := CleanJob(k, w, day, version);
    SeedAndPick(k, w, day, version);
    CleanRead(k.event);
    hide Replay, FromFold, Possible, After;
    OneMoreAct(acts[..3], acts[3]);
    assert acts[..3] + [acts[3]] == acts[..4];
    OneMoreAct(acts[..4], acts[4]);
    assert acts[..4] + [acts[4]] == acts[..5];
  }

  /** A case: an event whose one run covered everything and found nothing is reserved for under a budget of
      one, and its analysis is stored. */
  lemma CleanJobIsAnalyzed(k: JobKey, w: WorkerId, day: int, version: string)
    requires k.lang == "ENGLISH"
    ensures var acts := CleanJob(k, w, day, version);
            && Possible(acts) && k in After(acts).jobs.rows
            && After(acts).jobs.rows[k] == Row(JobDone, Some(TierB), day, 0, version)
            && PhaseOf(After(acts).jobs, w).Idle?
  {
    var acts := CleanJob(k, w, day, version);
    ClaimAndRead(k, w, day, version);
    hide Replay, Admits, FromFold, Possible, After;
    NothingAdmitted(After(acts[..5]).jobs.rows, k, day);
    OneMoreAct(acts[..5], acts[5]);
    assert acts[..5] + [acts[5]] == acts[..6];
    OneMoreAct(acts[..6], acts[6]);
    assert acts[..6] + [acts[6]] == acts;
  }
}

/** The baseline-event job rows, their classification into tiers, and one claim's whole path.

    `src/lib/analysis/event-analysis-worker.ts`. */
module EventJobs {
  import opened Common
  import opened Enrichment

  datatype EventRef = EventRef(customer: string, aiceId: string, eventKey: nat)

  datatype JobKey = JobKey(event: EventRef, lang: string, modelName: string, model: string)

  datatype JobStatus = Queued | InProcess | JobDone | JobFailed | BudgetSkipped

  datatype Tier = TierA | TierB

  datatype Row = Row(status: JobStatus, tier: Option<Tier>, budgetDay: int, attempts: nat, baselineVersion: string)

  /** What a pickup reads and a worker carries; it may be out of date when the row is claimed. */
  datatype Pickup = Pickup(key: JobKey, tier: Option<Tier>, budgetDay: int, attempts: nat)

  predicate Native(key: JobKey) {
    key.lang == "ENGLISH"
  }

  predicate Terminal(row: Row) {
    row.status == JobDone || row.status == JobFailed || row.status == BudgetSkipped
  }

  /** The rows a tier-B reservation counts. */
  predicate Counted(row: Row) {
    row.tier == Some(TierB) && row.status != BudgetSkipped
  }

  // ---------------------------------------------------------------------------
  // Row updates, one per statement
  // ---------------------------------------------------------------------------

  function ClaimedRow(row: Row): Row { row.(status := InProcess) }

  function HeldRow(row: Row, attempts: nat): Row { row.(status := Queued, attempts := attempts + 1) }

  function TierARow(row: Row): Row { row.(tier := Some(TierA), attempts := 0) }

  function ReservedRow(row: Row, admitted: bool): Row {
    if admitted then row.(tier := Some(TierB), status := InProcess, attempts := 0)
    else row.(tier := Some(TierB), status := BudgetSkipped)
  }

  /** Written without a status guard, from the attempt count the worker carries. */
  function RetriedRow(row: Row, attempts: nat, maxAttempts: nat): Row {
    row.(status := if attempts + 1 >= maxAttempts then JobFailed else Queued, attempts := attempts + 1)
  }

  /** Guarded: only a row still in process is finished or cancelled. */
  function DoneRow(row: Row): Row {
    if row.status == InProcess then row.(status := JobDone) else row
  }

  function FailedRow(row: Row): Row { row.(status := JobFailed) }

  function RecoveredRow(row: Row): Row {
    if row.status == InProcess then row.(status := Queued) else row
  }

  /** Ingest never rewrites the source version of an attempt in flight. */
  function ReseededRow(row: Row, version: string): Row {
    if row.status == InProcess then row else row.(baselineVersion := version)
  }

  // ---------------------------------------------------------------------------
  // Classification
  // ---------------------------------------------------------------------------

  datatype Class = ToTierA | ToTierB | ToHold

  function ClassifyVerdict(verdict: Option<StateRow>): Class {
    if verdict.None? then ToHold
    else if verdict.value.knownIocHit then ToTierA
    else if verdict.value.status == StatusComplete && verdict.value.coverage == Complete then ToTierB
    else ToHold
  }

  datatype Decision = AdmitA | HoldRow | ReserveB

  /** `classifyHeldJob`: `first` is the stored verdict, `second` the one re-read after a bounded
      enrichment, consulted only when the first is inconclusive. */
  function Decide(first: Option<StateRow>, second: Option<StateRow>, tierAEnabled: bool, attempts: nat,
          maxEnrichment: int, aged: bool): Decision
  {
    var verdict := if ClassifyVerdict(first) == ToHold then ClassifyVerdict(second) else ClassifyVerdict(first);
    match verdict
    case ToTierA => if tierAEnabled then AdmitA else HoldRow
    case ToHold => if attempts + 1 >= maxEnrichment || aged then ReserveB else HoldRow
    case ToTierB => ReserveB
  }

  /** The classification's table, on the fields it reads. The decisive read is the first when that tells a
      hit or a completed run that missed nothing, and otherwise the one after the bounded enrichment. */
  lemma DecisionTable(first: Option<StateRow>, second: Option<StateRow>, tierAEnabled: bool, attempts: nat,
          maxEnrichment: int, aged: bool)
    ensures var hit := (v: Option<StateRow>) => v.Some? && v.value.knownIocHit;
            var miss := (v: Option<StateRow>) =>
              v.Some? && !v.value.knownIocHit && v.value.status == StatusComplete && v.value.coverage == Complete;
            var decisive := if hit(first) || miss(first) then first else second;
            var bound := attempts + 1 >= maxEnrichment || aged;
            var d := Decide(first, second, tierAEnabled, attempts, maxEnrichment, aged);
            && (d == AdmitA <==> hit(decisive) && tierAEnabled)
            && (d == ReserveB <==> miss(decisive) || (!hit(decisive) && bound))
            && (d == HoldRow <==> if hit(decisive) then !tierAEnabled else !miss(decisive) && !bound)
  {
  }

  /** Within its hold bound a job is reserved for only on a conclusive miss: a completed run that covered
      everything and found no hit. Partial, stale or unknown coverage holds it. */
  lemma OnlyConclusiveMissesReserve(first: Option<StateRow>, second: Option<StateRow>, tierAEnabled: bool,
          attempts: nat, maxEnrichment: int, aged: bool)
    requires attempts + 1 < maxEnrichment && !aged
    ensures Decide(first, second, tierAEnabled, attempts, maxEnrichment, aged) == ReserveB <==>
        || (first.Some? && first.value.status == StatusComplete && first.value.coverage == Complete
              && !first.value.knownIocHit)
        || ((first.None? || !first.value.knownIocHit)
              && second.Some? && second.value.status == StatusComplete && second.value.coverage == Complete
              && !second.value.knownIocHit)
  {
    DecisionTable(first, second, tierAEnabled, attempts, maxEnrichment, aged);
  }

  /** Some run so far found floor evidence. */
  ghost predicate FloorSeen(history: seq<Attempt>) {
    exists i :: 0 <= i < |history| && history[i].Succeeded? && HasFloorRow(history[i].verdict.evidence)
  }

  ghost predicate LastRunThrough(history: seq<Attempt>, i: int) {
    0 <= i < |history| && history[i].Succeeded? && forall j :: i < j < |history| ==> history[j].Broke?
  }

  /** The last run that got through covered everything, and no run so far found floor evidence. */
  ghost predicate ConclusiveMiss(history: seq<Attempt>) {
    !FloorSeen(history) && exists i :: LastRunThrough(history, i) && history[i].verdict.coverage == Complete
  }

  lemma {:induction false} LastSuccessIs(history: seq<Attempt>)
    ensures LastSuccess(history).Some? <==> exists i :: LastRunThrough(history, i)
    ensures forall i :: LastRunThrough(history, i) ==> LastSuccess(history) == Some(history[i].verdict)
  {
    if history != [] {
      var front, last := history[..|history| - 1], history[|history| - 1];
      LastSuccessIs(front);
      if last.Succeeded? {
        assert LastRunThrough(history, |history| - 1);
      } else {
        forall i
          ensures LastRunThrough(history, i) <==> LastRunThrough(front, i)
        {
        }
        assert forall i :: LastRunThrough(front, i) ==> LastRunThrough(history, i);
      }
    }
  }

  lemma {:induction false} FloorSeenIs(history: seq<Attempt>)
    ensures FloorSeen(history) <==> LastFloorRun(history).Some?
    ensures LastFloorRun(history).Some? ==> HasFloorRow(LastFloorRun(history).value.evidence)
  {
    if history != [] {
      var front, last := history[..|history| - 1], history[|history| - 1];
      FloorSeenIs(front);
      assert forall i :: 0 <= i < |front| ==> front[i] == history[i];
      if last.Succeeded? && HasFloorRow(last.verdict.evidence) {
        assert history[|history| - 1] == last;
      }
    }
  }

  /** What a read of the stored verdict tells of the event's enrichment history. */
  lemma ReadsTellTheHistory(history: seq<Attempt>)
    requires FromFold(history)
    ensures var v := Replay(NOTHING, history).row;
            && (v.Some? && v.value.knownIocHit <==> FloorSeen(history))
            && (v.Some? && !v.value.knownIocHit && v.value.status == StatusComplete && v.value.coverage == Complete
                <==> ConclusiveMiss(history))
  {
    hide Replay, FloorRows, OtherRows, HasFloorRow;
    HistoryClosedForm(history);
    LastSuccessIs(history);
    FloorSeenIs(history);
    FilterSplit(RowsOf(LastFloorRun(history)));
  }

  /** The decision in terms of the event's history at the two reads: tier A for floor evidence, a
      reservation for a conclusive miss or a hold that is used up, and otherwise another hold. */
  lemma DecisionFollowsHistory(early: seq<Attempt>, late: seq<Attempt>, tierAEnabled: bool, attempts: nat,
          maxEnrichment: int, aged: bool)
    requires FromFold(early) && FromFold(late)
    ensures var decisive := if FloorSeen(early) || ConclusiveMiss(early) then early else late;
            var bound := attempts + 1 >= maxEnrichment || aged;
            var d := Decide(Replay(NOTHING, early).row, Replay(NOTHING, late).row, tierAEnabled, attempts,
                            maxEnrichment, aged);
            && (d == AdmitA <==> FloorSeen(decisive) && tierAEnabled)
            && (d == ReserveB <==> ConclusiveMiss(decisive) || (!FloorSeen(decisive) && bound))
            && (d == HoldRow <==> if FloorSeen(decisive) then !tierAEnabled else !ConclusiveMiss(decisive) && !bound)
  {
    hide FloorSeen, ConclusiveMiss, Replay, Decide;
    ReadsTellTheHistory(early);
    ReadsTellTheHistory(late);
    DecisionTable(Replay(NOTHING, early).row, Replay(NOTHING, late).row, tierAEnabled, attempts, maxEnrichment, aged);
  }

  lemma ReplayAppend(s: Stored, history: seq<Attempt>, n: nat)
    requires n <= |history|
    ensures Replay(s, history) == Replay(Replay(s, history[..n]), history[n..])
    decreases |history|
  {
    if n == |history| {
      assert history[..n] == history;
    } else {
      ReplayAppend(s, history[..|history| - 1], n);
      assert history[..|history| - 1][..n] == history[..n];
      assert history[..|history| - 1][n..] == history[n..][..|history| - 1 - n];
    }
  }

  /** A classification reads the verdict at two points of the event's enrichment history and decides on
      the first conclusive one. If the hit was stored by the time of the deciding read, the job is never
      tier B and never budget-skipped, whatever runs, failures, coverage losses or kill switch come. */
  lemma KnownHitIsNeverBudgeted(history: seq<Attempt>, stored: nat, p: nat, q: nat, tierAEnabled: bool, attempts: nat,
          maxEnrichment: int, aged: bool)
    requires stored <= |history| && p <= q <= |history|
    requires var s := Replay(NOTHING, history[..stored]); s.row.Some? && s.row.value.knownIocHit
    requires stored <= (if ClassifyVerdict(Replay(NOTHING, history[..p]).row) == ToHold then q else p)
    ensures var d :=
        Decide(Replay(NOTHING, history[..p]).row, Replay(NOTHING, history[..q]).row, tierAEnabled, attempts,
          maxEnrichment, aged);
            d == if tierAEnabled then AdmitA else HoldRow
  {
    var r := if ClassifyVerdict(Replay(NOTHING, history[..p]).row) == ToHold then q else p;
    ReplayAppend(NOTHING, history[..r], stored);
    assert history[..r][..stored] == history[..stored];
    NeverDowngraded(Replay(NOTHING, history[..stored]), history[..r][stored..]);
  }

  // ---------------------------------------------------------------------------
  // One claim of a native job, from pickup to release
  // ---------------------------------------------------------------------------

  datatype Analysis = Analyzed | WentStale | SourceGone | Errored

  /** What the world answers during one claim: eligibility, the two verdict reads, the budget, the model. */
  datatype Episode = Episode(
    eligible: bool,
    first: Option<StateRow>,
    second: Option<StateRow>,
    tierAEnabled: bool,
    aged: bool,
    admitted: bool,
    analysis: Analysis)

  function AnalyzedRow(row: Row, attempts: nat, analysis: Analysis, maxAttempts: nat): Row {
    match analysis
    case Analyzed => DoneRow(row)
    case WentStale => DoneRow(row)
    case SourceGone => FailedRow(row)
    case Errored => RetriedRow(row, attempts, maxAttempts)
  }

  /** `processEventJob` on a row its pickup still matches, with nothing else touching the row meanwhile. */
  function Processed(row: Row, pickupTier: Option<Tier>, e: Episode, maxEnrichment: int, maxAttempts: nat): Row {
    var claimed := ClaimedRow(row);
    if !e.eligible then DoneRow(claimed)
    else if pickupTier.Some? then AnalyzedRow(claimed, row.attempts, e.analysis, maxAttempts)
    else
      match Decide(e.first, e.second, e.tierAEnabled, row.attempts, maxEnrichment, e.aged)
      case HoldRow => HeldRow(claimed, row.attempts)
      case AdmitA => AnalyzedRow(TierARow(claimed), 0, e.analysis, maxAttempts)
      case ReserveB =>
        if e.admitted then AnalyzedRow(ReservedRow(claimed, true), 0, e.analysis, maxAttempts)
        else ReservedRow(claimed, false)
  }

  /** How one claim ends, by what it met: done when the event is gone or stale or the analysis is stored,
      failed when its source is gone or the last attempt broke, skipped when the day has no budget left,
      and queued again only for another hold or another attempt. */
  lemma ClaimEnds(row: Row, pickupTier: Option<Tier>, e: Episode, maxEnrichment: int, maxAttempts: nat)
    requires row.status == Queued
    ensures var row' := Processed(row, pickupTier, e, maxEnrichment, maxAttempts);
            var d := Decide(e.first, e.second, e.tierAEnabled, row.attempts, maxEnrichment, e.aged);
            var holds, skips := pickupTier.None? && d == HoldRow, pickupTier.None? && d == ReserveB && !e.admitted;
            var analyzes, attempts := !holds && !skips, if pickupTier.Some? then row.attempts else 0;
            && (row'.status == JobDone <==>
                  !e.eligible || (analyzes && (e.analysis == Analyzed || e.analysis == WentStale)))
            && (row'.status == JobFailed <==>
                  e.eligible && analyzes
                  && (e.analysis == SourceGone || (e.analysis == Errored && attempts + 1 >= maxAttempts)))
            && (row'.status == BudgetSkipped <==> e.eligible && skips)
            && (row'.status == Queued <==>
                  e.eligible
                  && (holds || (analyzes && e.analysis == Errored && attempts + 1 < maxAttempts)))
            && (row'.status == Queued ==> row'.attempts == if holds then row.attempts + 1 else attempts + 1)
            && row'.tier == (if !e.eligible || pickupTier.Some? || holds then row.tier
                             else if d == AdmitA then Some(TierA) else Some(TierB))
            && row'.budgetDay == row.budgetDay && row'.baselineVersion == row.baselineVersion
  {
    hide ClassifyVerdict;
  }

  function Max(a: int, b: int): int { if a >= b then a else b }

  /** The lexicographic measure (still held, attempts left), flattened: how many more claims a row can
      need. Classification resets `attempts`, so both phases are counted while a row is held. */
  function ClaimsLeft(row: Row, maxEnrichment: int, maxAttempts: nat): int {
    if Terminal(row) then 0
    else if row.tier.None? then Max(1, maxEnrichment - row.attempts) + maxAttempts - 1
    else Max(1, maxAttempts - row.attempts)
  }

  /** The pickup was taken while the row was held, and the row has been classified since. The claim's
      guard compares only status and attempts, so such a pickup can still win the claim. */
  predicate StalePickup(row: Row, pickupTier: Option<Tier>) {
    pickupTier.None? && row.tier.Some?
  }

  /** A claim that undoes or wastes attempts, told from what it starts with and meets. A stale pickup of a
      classified row holds it although its attempts are used up, or admits it again and then retries,
      which resets the attempts already used. With the kill switch on, a known hit is held for ever. */
  predicate Undoes(row: Row, pickupTier: Option<Tier>, e: Episode, maxEnrichment: int, maxAttempts: nat) {
    && e.eligible && pickupTier.None?
    && var decision := Decide(e.first, e.second, e.tierAEnabled, row.attempts, maxEnrichment, e.aged);
       if row.tier.None? then decision == HoldRow && row.attempts + 1 >= maxEnrichment
       else if decision == HoldRow then row.attempts + 1 >= maxAttempts
       else row.attempts >= 1 && e.analysis == Errored && maxAttempts >= 2 && (decision == ReserveB ==> e.admitted)
  }

  /** Exactly the claims of that kind fail to bring a row nearer its end; every claim leaves the row queued
      or terminal. */
  lemma ClaimMakesProgress(row: Row, pickupTier: Option<Tier>, e: Episode, maxEnrichment: int, maxAttempts: nat)
    requires row.status == Queued && maxEnrichment >= 1 && maxAttempts >= 1
    requires pickupTier.Some? ==> row.tier.Some?
    ensures var row' := Processed(row, pickupTier, e, maxEnrichment, maxAttempts);
            && (Terminal(row') || row'.status == Queued)
            && (ClaimsLeft(row', maxEnrichment, maxAttempts) < ClaimsLeft(row, maxEnrichment, maxAttempts)
                <==> !Undoes(row, pickupTier, e, maxEnrichment, maxAttempts))
  {
    hide ClassifyVerdict;
  }

  /** With tier A on and a pickup that is not stale, no claim is of that kind. */
  lemma FreshClaimsNeverUndo(row: Row, e: Episode, maxEnrichment: int, maxAttempts: nat)
    requires maxEnrichment >= 1 && e.tierAEnabled
    ensures !Undoes(row, row.tier, e, maxEnrichment, maxAttempts)
  {
    hide ClassifyVerdict;
  }

  /** Claims of one native job in order, each with the tier its pickup carried. */
  function ProcessedAll(row: Row, tiers: seq<Option<Tier>>, episodes: seq<Episode>, maxEnrichment: int,
          maxAttempts: nat): Row
    requires |tiers| == |episodes|
    decreases |tiers|
  {
    if tiers == [] then row
    else
      var n := |tiers| - 1;
      Processed(ProcessedAll(row, tiers[..n], episodes[..n], maxEnrichment, maxAttempts), tiers[n], episodes[n],
        maxEnrichment, maxAttempts)
  }

  /** Every claim found the row queued, with a pickup no newer than the row, and was not of the undoing kind.
      Stale pickups are allowed, and so is the kill switch. */
  ghost predicate SoundClaims(row: Row, tiers: seq<Option<Tier>>, episodes: seq<Episode>, maxEnrichment: int,
          maxAttempts: nat)
    requires |tiers| == |episodes|
  {
    forall i :: 0 <= i < |tiers| ==>
      var before := ProcessedAll(row, tiers[..i], episodes[..i], maxEnrichment, maxAttempts);
      && before.status == Queued && (tiers[i].Some? ==> before.tier.Some?)
      && !Undoes(before, tiers[i], episodes[i], maxEnrichment, maxAttempts)
  }

  lemma {:induction false} EachClaimCosts(row: Row, tiers: seq<Option<Tier>>, episodes: seq<Episode>,
          maxEnrichment: int, maxAttempts: nat)
    requires |tiers| == |episodes| && maxEnrichment >= 1 && maxAttempts >= 1
    requires SoundClaims(row, tiers, episodes, maxEnrichment, maxAttempts)
    ensures ClaimsLeft(ProcessedAll(row, tiers, episodes, maxEnrichment, maxAttempts), maxEnrichment, maxAttempts)
            <= ClaimsLeft(row, maxEnrichment, maxAttempts) - |tiers|
    decreases |tiers|
  {
    hide Undoes, Processed, ClaimsLeft, Decide;
    if tiers != [] {
      var n := |tiers| - 1;
      forall i | 0 <= i < n
        ensures tiers[..n][..i] == tiers[..i] && episodes[..n][..i] == episodes[..i]
      {
      }
      EachClaimCosts(row, tiers[..n], episodes[..n], maxEnrichment, maxAttempts);
      ClaimMakesProgress(ProcessedAll(row, tiers[..n], episodes[..n], maxEnrichment, maxAttempts), tiers[n],
        episodes[n], maxEnrichment, maxAttempts);
    }
  }

  /** A newly seeded job none of whose claims is of the undoing kind is claimed at most
      `maxEnrichment + maxAttempts - 1` times, and after that many claims it is terminal. */
  lemma JobsTerminate(row: Row, tiers: seq<Option<Tier>>, episodes: seq<Episode>, maxEnrichment: int, maxAttempts: nat)
    requires row.status == Queued && row.tier.None? && row.attempts == 0
    requires |tiers| == |episodes| && maxEnrichment >= 1 && maxAttempts >= 1
    requires SoundClaims(row, tiers, episodes, maxEnrichment, maxAttempts)
    ensures |tiers| <= maxEnrichment + maxAttempts - 1
    ensures |tiers| == maxEnrichment + maxAttempts - 1 ==>
        Terminal(ProcessedAll(row, tiers, episodes, maxEnrichment, maxAttempts))
  {
    EachClaimCosts(row, tiers, episodes, maxEnrichment, maxAttempts);
  }

  /** In particular with tier A on and pickups that carry the row's own tier. */
  lemma FreshJobsTerminate(row: Row, tiers: seq<Option<Tier>>, episodes: seq<Episode>, maxEnrichment: int,
          maxAttempts: nat)
    requires row.status == Queued && row.tier.None? && row.attempts == 0
    requires |tiers| == |episodes| && maxEnrichment >= 1 && maxAttempts >= 1
    requires forall i :: 0 <= i < |tiers| ==>
      var before := ProcessedAll(row, tiers[..i], episodes[..i], maxEnrichment, maxAttempts);
      before.status == Queued && tiers[i] == before.tier && episodes[i].tierAEnabled
    ensures |tiers| <= maxEnrichment + maxAttempts - 1
  {
    hide Undoes, Processed;
    forall i | 0 <= i < |tiers|
      ensures !Undoes(ProcessedAll(row, tiers[..i], episodes[..i], maxEnrichment, maxAttempts), tiers[i], episodes[i],
          maxEnrichment, maxAttempts)
    {
      FreshClaimsNeverUndo(ProcessedAll(row, tiers[..i], episodes[..i], maxEnrichment, maxAttempts), episodes[i],
        maxEnrichment, maxAttempts);
    }
    JobsTerminate(row, tiers, episodes, maxEnrichment, maxAttempts);
  }

  /** The bound does not survive stale pickups. With two attempts per phase a job should end within
      three claims; here the third claim carries the pickup the second one also used, taken while the
      row was held, and it still matches on status and attempts. After it the row is queued again. */
  lemma StalePickupBreaksTheBound(day: int, version: string)
    ensures var row := Row(Queued, None, day, 0, version);
            var silent := Episode(true, None, None, true, false, true, Errored);
            var held := Processed(row, row.tier, silent, 2, 2);
            var retried := Processed(held, held.tier, silent, 2, 2);
            var again := Processed(retried, held.tier, silent, 2, 2);
            && held.status == Queued && held.tier == None
            && retried.status == Queued && retried.attempts == held.attempts
            && StalePickup(retried, held.tier) && Undoes(retried, held.tier, silent, 2, 2)
            && again.status == Queued
            && !Terminal(again)
  {
  }
}

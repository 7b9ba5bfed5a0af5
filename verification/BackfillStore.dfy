/** The run and item tables of the event-leaf backfill and the guarded updates its workers issue.

    `src/lib/analysis/event-leaf-backfill-store.ts`. Every operation is one committed transaction, so a
    run of the system is a sequence of steps of any number of workers, in any order. */
module BackfillStore {
  import opened Common
  import opened BackfillPlan

  type RunId = nat

  datatype RunStatus = RunPending | Running | Completed | Cancelled | RunFailed

  /** The terminal item statuses. */
  datatype Outcome = Reanalyzed | AlreadyCurrent | SourceUnavailable | Failed | CapExcluded

  datatype ItemStatus = Pending | Processing | Done(outcome: Outcome)

  datatype Run = Run(
    customer: string,
    target: Target,
    createdAt: int,
    status: RunStatus,
    cancelRequested: bool,
    totalUniverse: nat,
    reanalyzed: nat,
    alreadyCurrent: nat,
    sourceUnavailable: nat,
    failed: nat,
    capExcluded: nat,
    leaseOwner: Option<string>,
    leaseExpires: Option<int>,
    startedAt: Option<int>,
    finishedAt: Option<int>,
    lastProgress: int,
    errorMessage: Option<string>)

  datatype ItemKey = ItemKey(run: RunId, event: EventId)

  datatype Item = Item(status: ItemStatus, updatedAt: int, error: Option<string>)

  datatype Tables = Tables(runs: map<RunId, Run>, items: map<ItemKey, Item>)

  predicate Active(run: Run) {
    run.status == RunPending || run.status == Running
  }

  function Count(run: Run, o: Outcome): nat {
    match o
    case Reanalyzed => run.reanalyzed
    case AlreadyCurrent => run.alreadyCurrent
    case SourceUnavailable => run.sourceUnavailable
    case Failed => run.failed
    case CapExcluded => run.capExcluded
  }

  function Bump(run: Run, o: Outcome): Run {
    match o
    case Reanalyzed => run.(reanalyzed := run.reanalyzed + 1)
    case AlreadyCurrent => run.(alreadyCurrent := run.alreadyCurrent + 1)
    case SourceUnavailable => run.(sourceUnavailable := run.sourceUnavailable + 1)
    case Failed => run.(failed := run.failed + 1)
    case CapExcluded => run.(capExcluded := run.capExcluded + 1)
  }

  // ---------------------------------------------------------------------------
  // One step
  // ---------------------------------------------------------------------------

  /** `now` is the shared clock when the step commits. A claim names the run that
      `ORDER BY created_at LIMIT 1 FOR UPDATE SKIP LOCKED` returned, given the rows locked elsewhere. */
  datatype Step =
    | Create(id: RunId, customer: string, target: Target, members: seq<Member>, maxItems: Option<int>, now: int)
    | Cancel(customer: string, id: RunId, now: int)
    | Claim(owner: string, expires: int, locked: set<RunId>, chosen: Option<RunId>, now: int)
    | Renew(id: RunId, owner: string, expires: int, now: int)
    | ClaimItem(id: RunId, event: EventId, now: int)
    | Reclaim(id: RunId, staleBefore: int, now: int)
    | Record(id: RunId, event: EventId, outcome: Outcome, error: Option<string>, now: int)
    | Finalize(id: RunId, status: RunStatus, error: Option<string>, now: int)

  predicate SameVariant(run: Run, customer: string, target: Target) {
    run.customer == customer && run.target == target
  }

  predicate HasActive(t: Tables, customer: string, target: Target) {
    exists r :: r in t.runs && Active(t.runs[r]) && SameVariant(t.runs[r], customer, target)
  }

  /** The insert commits unless an active run of the variant exists (the partial unique index) or a
      primary key repeats. */
  predicate Inserts(t: Tables, s: Step)
    requires s.Create?
  {
    && !HasActive(t, s.customer, s.target)
    && s.id !in t.runs
    && (var work := PlanOf(s.members, s.maxItems).workItems;
        forall i, j :: 0 <= i < j < |work| ==> work[i] != work[j])
    && (forall k :: k in t.items ==> k.run != s.id)
  }

  function SeededRun(s: Step): Run
    requires s.Create?
  {
    var counts := PlanOf(s.members, s.maxItems).counts;
    Run(s.customer, s.target, s.now, RunPending, false, counts.totalUniverse,
        0, counts.alreadyCurrent, counts.sourceUnavailable, 0, counts.capExcluded,
        None, None, None, None, s.now, None)
  }

  predicate Claimable(run: Run, owner: string, now: int) {
    && Active(run)
    && (run.leaseOwner.None? || run.leaseOwner == Some(owner) || run.leaseExpires.None?
         || run.leaseExpires.value <= now)
  }

  predicate Candidate(t: Tables, owner: string, locked: set<RunId>, now: int, r: RunId) {
    r in t.runs && r !in locked && Claimable(t.runs[r], owner, now)
  }

  /** The choice a claim is allowed: the oldest claimable unlocked run, or nothing when there is none. */
  predicate Enabled(t: Tables, s: Step) {
    s.Claim? ==>
      match s.chosen
      case None => forall r :: r in t.runs ==> !Candidate(t, s.owner, s.locked, s.now, r)
      case Some(c) =>
        && Candidate(t, s.owner, s.locked, s.now, c)
        && forall r :: r in t.runs && Candidate(t, s.owner, s.locked, s.now, r) ==>
             t.runs[c].createdAt <= t.runs[r].createdAt
  }

  predicate RenewSucceeds(t: Tables, r: RunId, owner: string) {
    r in t.runs && t.runs[r].leaseOwner == Some(owner) && Active(t.runs[r])
  }

  predicate ItemIs(t: Tables, r: RunId, event: EventId, status: ItemStatus) {
    ItemKey(r, event) in t.items && t.items[ItemKey(r, event)].status == status
  }

  predicate Stale(t: Tables, k: ItemKey, r: RunId, staleBefore: int)
    requires k in t.items
  {
    k.run == r && t.items[k].status == Processing && t.items[k].updatedAt < staleBefore
  }

  function Apply(t: Tables, s: Step): Tables {
    match s
    case Create(_, _, _, _, _, _) =>
      if !Inserts(t, s) then t
      else
        t.(runs := t.runs[s.id := SeededRun(s)],
           items := t.items + map event | event in PlanOf(s.members, s.maxItems).workItems ::
             ItemKey(s.id, event) := Item(Pending, s.now, None))
    case Cancel(customer, r, now) =>
      if r !in t.runs || t.runs[r].customer != customer || !Active(t.runs[r]) then t
      else
        var run := t.runs[r].(cancelRequested := true, lastProgress := now);
        t.(runs := t.runs[r :=
          if run.status == RunPending then run.(status := Cancelled, finishedAt := Some(now)) else run])
    case Claim(owner, expires, _, chosen, now) =>
      if chosen.None? || chosen.value !in t.runs then t
      else
        var run := t.runs[chosen.value];
        t.(runs := t.runs[chosen.value := run.(
          status := Running,
          startedAt := if run.startedAt.None? then Some(now) else run.startedAt,
          lastProgress := now,
          leaseOwner := Some(owner),
          leaseExpires := Some(expires))])
    case Renew(r, owner, expires, now) =>
      if !RenewSucceeds(t, r, owner) then t
      else t.(runs := t.runs[r := t.runs[r].(leaseExpires := Some(expires), lastProgress := now)])
    case ClaimItem(r, event, now) =>
      if !ItemIs(t, r, event, Pending) then t
      else
        var k := ItemKey(r, event);
        t.(items := t.items[k := t.items[k].(status := Processing, updatedAt := now)])
    case Reclaim(r, staleBefore, _) =>
      t.(items := map k | k in t.items ::
        if Stale(t, k, r, staleBefore) then t.items[k].(status := Pending) else t.items[k])
    case Record(r, event, outcome, error, now) =>
      if !ItemIs(t, r, event, Processing) then t
      else
        t.(items := t.items[ItemKey(r, event) := Item(Done(outcome), now, error)],
           runs := if r in t.runs then t.runs[r := Bump(t.runs[r], outcome).(lastProgress := now)] else t.runs)
    case Finalize(r, status, error, now) =>
      if r !in t.runs || !Active(t.runs[r]) then t
      else
        t.(runs := t.runs[r := t.runs[r].(
          status := status,
          finishedAt := Some(now),
          lastProgress := now,
          errorMessage := if error.Some? then error else t.runs[r].errorMessage)])
  }

  /** The three statuses a worker may finalize to. */
  predicate WellTyped(s: Step) {
    s.Finalize? ==> s.status.Completed? || s.status.Cancelled? || s.status.RunFailed?
  }

  // ---------------------------------------------------------------------------
  // Runs of the system
  // ---------------------------------------------------------------------------

  function Exec(t: Tables, steps: seq<Step>): Tables {
    if steps == [] then t else Apply(Exec(t, steps[..|steps| - 1]), steps[|steps| - 1])
  }

  /** The tables just before step `i`. */
  function At(t: Tables, steps: seq<Step>, i: nat): Tables
    requires i <= |steps|
  {
    Exec(t, steps[..i])
  }

  ghost predicate Legal(t: Tables, steps: seq<Step>) {
    forall i :: 0 <= i < |steps| ==> WellTyped(steps[i]) && Enabled(At(t, steps, i), steps[i])
  }

  lemma AtNext(t: Tables, steps: seq<Step>, i: nat)
    requires i < |steps|
    ensures At(t, steps, i + 1) == Apply(At(t, steps, i), steps[i])
  {
    assert steps[..i + 1][..i] == steps[..i];
  }

  // ---------------------------------------------------------------------------
  // Exact counters
  // ---------------------------------------------------------------------------

  ghost function ItemsOf(t: Tables, r: RunId): set<ItemKey> {
    set k | k in t.items && k.run == r
  }

  ghost function WithStatus(t: Tables, r: RunId, status: ItemStatus): set<ItemKey> {
    set k | k in t.items && k.run == r && t.items[k].status == status
  }

  ghost function Unfinished(t: Tables, r: RunId): set<ItemKey> {
    set k | k in t.items && k.run == r && (t.items[k].status == Pending || t.items[k].status == Processing)
  }

  ghost function Finished(t: Tables, r: RunId): int {
    |WithStatus(t, r, Done(Reanalyzed))| + |WithStatus(t, r, Done(AlreadyCurrent))|
    + |WithStatus(t, r, Done(SourceUnavailable))| + |WithStatus(t, r, Done(Failed))|
    + |WithStatus(t, r, Done(CapExcluded))|
  }

  function Counted(run: Run): nat {
    run.reanalyzed + run.alreadyCurrent + run.sourceUnavailable + run.failed + run.capExcluded
  }

  /** What a counter holds beyond the items that reached its status: the seed written at creation. */
  ghost function Seed(t: Tables, r: RunId, o: Outcome): int
    requires r in t.runs
  {
    Count(t.runs[r], o) - |WithStatus(t, r, Done(o))|
  }

  ghost function FinishedAmong(t: Tables, r: RunId, outcomes: set<Outcome>): set<ItemKey> {
    set k | k in t.items && k.run == r && t.items[k].status.Done? && t.items[k].status.outcome in outcomes
  }

  lemma SplitOff(t: Tables, r: RunId, o: Outcome, rest: set<Outcome>)
    requires o !in rest
    ensures |FinishedAmong(t, r, {o} + rest)| == |WithStatus(t, r, Done(o))| + |FinishedAmong(t, r, rest)|
  {
    DisjointSizes(FinishedAmong(t, r, {o} + rest), WithStatus(t, r, Done(o)), FinishedAmong(t, r, rest));
  }

  const ALL_OUTCOMES: set<Outcome> := {Reanalyzed, AlreadyCurrent, SourceUnavailable, Failed, CapExcluded}

  lemma FinishedSize(t: Tables, r: RunId)
    ensures |FinishedAmong(t, r, ALL_OUTCOMES)| == Finished(t, r)
  {
    var e := {CapExcluded};
    var de := {Failed} + e;
    var cde := {SourceUnavailable} + de;
    var bcde := {AlreadyCurrent} + cde;
    assert {CapExcluded} + {} == e && {Reanalyzed} + bcde == ALL_OUTCOMES;
    assert FinishedAmong(t, r, {}) == {};
    hide FinishedAmong, WithStatus;
    SplitOff(t, r, CapExcluded, {});
    SplitOff(t, r, Failed, e);
    SplitOff(t, r, SourceUnavailable, de);
    SplitOff(t, r, AlreadyCurrent, cde);
    SplitOff(t, r, Reanalyzed, bcde);
  }

  lemma EveryOutcome(o: Outcome)
    ensures o in ALL_OUTCOMES
  {
    match o case Reanalyzed => case AlreadyCurrent => case SourceUnavailable => case Failed => case CapExcluded =>
  }

  lemma UnfinishedOrFinished(t: Tables, r: RunId)
    ensures ItemsOf(t, r) == Unfinished(t, r) + FinishedAmong(t, r, ALL_OUTCOMES)
    ensures Unfinished(t, r) !! FinishedAmong(t, r, ALL_OUTCOMES)
  {
    forall o ensures o in ALL_OUTCOMES { EveryOutcome(o); }
  }

  lemma ItemsPartition(t: Tables, r: RunId)
    ensures |ItemsOf(t, r)| == |Unfinished(t, r)| + Finished(t, r)
  {
    hide *;
    FinishedSize(t, r);
    UnfinishedOrFinished(t, r);
    DisjointSizes(ItemsOf(t, r), Unfinished(t, r), FinishedAmong(t, r, ALL_OUTCOMES));
  }

  ghost predicate ForeignKey(t: Tables) {
    forall k :: k in t.items ==> k.run in t.runs
  }

  lemma StepKeepsScope(t: Tables, s: Step, r: RunId)
    requires ForeignKey(t) && r in t.runs
    ensures var t' := Apply(t, s);
            && r in t'.runs
            && ItemsOf(t', r) == ItemsOf(t, r)
            && t'.runs[r].totalUniverse == t.runs[r].totalUniverse
  {
    var t' := Apply(t, s);
    assert forall k: ItemKey :: k.run == r ==> (k in t.items <==> k in t'.items);
  }

  predicate Records(t: Tables, s: Step, r: RunId, o: Outcome) {
    s.Record? && s.id == r && ItemIs(t, r, s.event, Processing) && s.outcome == o
  }

  lemma RecordGrowsItsStatus(t: Tables, s: Step, r: RunId, o: Outcome)
    requires r in t.runs && Records(t, s, r, o)
    ensures WithStatus(Apply(t, s), r, Done(o)) == WithStatus(t, r, Done(o)) + {ItemKey(r, s.event)}
    ensures ItemKey(r, s.event) !in WithStatus(t, r, Done(o))
    ensures r in Apply(t, s).runs && Count(Apply(t, s).runs[r], o) == Count(t.runs[r], o) + 1
  {
  }

  lemma OtherRecordKeepsStatus(t: Tables, s: Step, r: RunId, o: Outcome)
    requires r in t.runs && s.Record? && !Records(t, s, r, o)
    ensures WithStatus(Apply(t, s), r, Done(o)) == WithStatus(t, r, Done(o))
    ensures r in Apply(t, s).runs && Count(Apply(t, s).runs[r], o) == Count(t.runs[r], o)
  {
  }

  lemma RecordKeepsSeed(t: Tables, s: Step, r: RunId, o: Outcome)
    requires ForeignKey(t) && r in t.runs && s.Record? && r in Apply(t, s).runs
    ensures Seed(Apply(t, s), r, o) == Seed(t, r, o)
  {
    if Records(t, s, r, o) {
      RecordGrowsItsStatus(t, s, r, o);
      hide Apply, WithStatus, Count;
      InsertGrowsByOne(WithStatus(t, r, Done(o)), WithStatus(Apply(t, s), r, Done(o)), ItemKey(r, s.event));
    } else {
      OtherRecordKeepsStatus(t, s, r, o);
    }
  }

  lemma SameStatusSets(t: Tables, t': Tables, r: RunId, o: Outcome)
    requires forall k: ItemKey :: k.run == r ==> (k in t.items <==> k in t'.items)
    requires forall k :: k in t.items && k.run == r ==>
        (t.items[k].status == Done(o) <==> t'.items[k].status == Done(o))
    ensures ItemsOf(t', r) == ItemsOf(t, r) && WithStatus(t', r, Done(o)) == WithStatus(t, r, Done(o))
  {
  }

  lemma OtherStepKeepsCount(t: Tables, s: Step, r: RunId, o: Outcome)
    requires r in t.runs && !s.Record?
    ensures r in Apply(t, s).runs && Count(Apply(t, s).runs[r], o) == Count(t.runs[r], o)
  {
    hide PlanOf;
  }

  lemma OtherStepKeepsStatus(t: Tables, s: Step, r: RunId, o: Outcome)
    requires ForeignKey(t) && r in t.runs && !s.Record?
    ensures WithStatus(Apply(t, s), r, Done(o)) == WithStatus(t, r, Done(o))
  {
    hide PlanOf, SeededRun, Count;
    SameStatusSets(t, Apply(t, s), r, o);
  }

  lemma OtherStepKeepsSeed(t: Tables, s: Step, r: RunId, o: Outcome)
    requires ForeignKey(t) && r in t.runs && !s.Record? && r in Apply(t, s).runs
    ensures Seed(Apply(t, s), r, o) == Seed(t, r, o)
  {
    OtherStepKeepsCount(t, s, r, o);
    OtherStepKeepsStatus(t, s, r, o);
    hide Apply, WithStatus, Count;
  }

  /** No step changes an existing run's item keys, its universe total, or the seed under any counter. */
  lemma StepKeepsSeed(t: Tables, s: Step, r: RunId, o: Outcome)
    requires ForeignKey(t) && r in t.runs
    ensures var t' := Apply(t, s);
            && r in t'.runs
            && ItemsOf(t', r) == ItemsOf(t, r)
            && t'.runs[r].totalUniverse == t.runs[r].totalUniverse
            && Seed(t', r, o) == Seed(t, r, o)
  {
    hide Apply;
    StepKeepsScope(t, s, r);
    if s.Record? {
      RecordKeepsSeed(t, s, r, o);
    } else {
      OtherStepKeepsSeed(t, s, r, o);
    }
  }

  ghost predicate Balanced(t: Tables, r: RunId)
    requires r in t.runs
  {
    Counted(t.runs[r]) + |Unfinished(t, r)| == t.runs[r].totalUniverse
  }

  predicate BothActive(a: Run, b: Run) {
    Active(a) && Active(b) && SameVariant(b, a.customer, a.target)
  }

  ghost predicate AtMostOneActive(t: Tables) {
    forall r, q :: r in t.runs && q in t.runs && BothActive(t.runs[r], t.runs[q]) ==> r == q
  }

  ghost predicate Invariant(t: Tables) {
    && ForeignKey(t)
    && AtMostOneActive(t)
    && forall r :: r in t.runs ==> Balanced(t, r)
  }

  lemma BalanceFromSeeds(t: Tables, t': Tables, r: RunId)
    requires r in t.runs && r in t'.runs && Balanced(t, r)
    requires ItemsOf(t', r) == ItemsOf(t, r) && t'.runs[r].totalUniverse == t.runs[r].totalUniverse
    requires forall o :: Seed(t', r, o) == Seed(t, r, o)
    ensures Balanced(t', r)
  {
    ItemsPartition(t, r);
    ItemsPartition(t', r);
    assert forall o :: Seed(t', r, o) - Seed(t, r, o) == 0;
    assert Seed(t', r, Reanalyzed) == Seed(t, r, Reanalyzed);
    assert Seed(t', r, AlreadyCurrent) == Seed(t, r, AlreadyCurrent);
    assert Seed(t', r, SourceUnavailable) == Seed(t, r, SourceUnavailable);
    assert Seed(t', r, Failed) == Seed(t, r, Failed);
    assert Seed(t', r, CapExcluded) == Seed(t, r, CapExcluded);
  }

  lemma {:induction false} IdsAsSet(ids: seq<EventId>)
    requires forall i, j :: 0 <= i < j < |ids| ==> ids[i] != ids[j]
    ensures |set id | id in ids| == |ids|
  {
    if ids == [] {
      assert (set id | id in ids) == {};
    } else {
      var front, last := ids[..|ids| - 1], ids[|ids| - 1];
      IdsAsSet(front);
      assert ids == front + [last];
      InsertGrowsByOne((set id | id in front), (set id | id in ids), last);
    }
  }

  lemma {:induction false} KeySet(r: RunId, events: set<EventId>)
    ensures |set e | e in events :: ItemKey(r, e)| == |events|
  {
    if events == {} {
      assert (set e | e in events :: ItemKey(r, e)) == {};
    } else {
      var x :| x in events;
      KeySet(r, events - {x});
      InsertGrowsByOne((set e | e in events - {x} :: ItemKey(r, e)), (set e | e in events :: ItemKey(r, e)),
        ItemKey(r, x));
    }
  }

  lemma CreatedItems(t: Tables, s: Step)
    requires s.Create? && Inserts(t, s)
    ensures var t' := Apply(t, s);
            && s.id in t'.runs && t'.runs[s.id] == SeededRun(s)
            && ItemsOf(t', s.id) ==
                 (set event | event in PlanOf(s.members, s.maxItems).workItems :: ItemKey(s.id, event))
            && (forall k :: k in ItemsOf(t', s.id) ==> t'.items[k].status == Pending)
  {
    hide PlanOf, SeededRun;
  }

  lemma AllPending(t: Tables, r: RunId)
    requires forall k :: k in ItemsOf(t, r) ==> t.items[k].status == Pending
    ensures Unfinished(t, r) == ItemsOf(t, r)
    ensures forall o :: WithStatus(t, r, Done(o)) == {}
  {
    assert forall k :: k in ItemsOf(t, r) ==> k in Unfinished(t, r);
    forall o
      ensures WithStatus(t, r, Done(o)) == {}
    {
      assert forall k :: k in WithStatus(t, r, Done(o)) ==> k in ItemsOf(t, r);
    }
  }

  lemma WorkIsAsLarge(r: RunId, work: seq<EventId>)
    requires forall i, j :: 0 <= i < j < |work| ==> work[i] != work[j]
    ensures |set event | event in work :: ItemKey(r, event)| == |work|
  {
    var events := set event | event in work;
    IdsAsSet(work);
    KeySet(r, events);
    assert (set event | event in work :: ItemKey(r, event)) == (set e | e in events :: ItemKey(r, e));
  }

  /** A freshly created run holds exactly the plan: its work items pending, everything else seeded. */
  lemma CreationIsThePlan(t: Tables, s: Step)
    requires s.Create? && Inserts(t, s)
    ensures var t', plan := Apply(t, s), PlanOf(s.members, s.maxItems);
            && s.id in t'.runs
            && Unfinished(t', s.id) == ItemsOf(t', s.id) ==
                 (set event | event in plan.workItems :: ItemKey(s.id, event))
            && Seed(t', s.id, Reanalyzed) == 0
            && Seed(t', s.id, AlreadyCurrent) == plan.counts.alreadyCurrent
            && Seed(t', s.id, SourceUnavailable) == plan.counts.sourceUnavailable
            && Seed(t', s.id, Failed) == 0
            && Seed(t', s.id, CapExcluded) == plan.counts.capExcluded
            && t'.runs[s.id].totalUniverse == |s.members|
            && Balanced(t', s.id)
  {
    var t', plan := Apply(t, s), PlanOf(s.members, s.maxItems);
    CreatedItems(t, s);
    AllPending(t', s.id);
    PlanPartitionsUniverse(s.members, s.maxItems);
    hide Apply, PlanOf, ItemsOf, Unfinished, WithStatus;
    WorkIsAsLarge(s.id, plan.workItems);
  }

  /** A run is active after a step only if it was before, or the step created it. */
  lemma ActivityIsOldOrCreated(t: Tables, s: Step, r: RunId)
    requires WellTyped(s) && Enabled(t, s) && r in Apply(t, s).runs && Active(Apply(t, s).runs[r])
    ensures var run := Apply(t, s).runs[r];
      || (r in t.runs && Active(t.runs[r]) && SameVariant(t.runs[r], run.customer, run.target))
      || (s.Create? && Inserts(t, s) && r == s.id && SameVariant(run, s.customer, s.target))
  {
  }

  lemma StepKeepsOneActive(t: Tables, s: Step)
    requires AtMostOneActive(t) && WellTyped(s) && Enabled(t, s)
    ensures AtMostOneActive(Apply(t, s))
  {
    var t' := Apply(t, s);
    hide Apply, Enabled, WellTyped, Active;
    forall r, q | r in t'.runs && q in t'.runs && BothActive(t'.runs[r], t'.runs[q])
      ensures r == q
    {
      ActivityIsOldOrCreated(t, s, r);
      ActivityIsOldOrCreated(t, s, q);
    }
  }

  lemma StepKeepsInvariant(t: Tables, s: Step)
    requires Invariant(t) && WellTyped(s) && Enabled(t, s)
    ensures Invariant(Apply(t, s))
  {
    var t' := Apply(t, s);
    StepKeepsOneActive(t, s);
    forall r | r in t'.runs
      ensures Balanced(t', r)
    {
      if r in t.runs {
        forall o ensures Seed(t', r, o) == Seed(t, r, o) && ItemsOf(t', r) == ItemsOf(t, r)
          && t'.runs[r].totalUniverse == t.runs[r].totalUniverse {
          StepKeepsSeed(t, s, r, o);
        }
        assert Seed(t', r, Reanalyzed) == Seed(t, r, Reanalyzed);
        BalanceFromSeeds(t, t', r);
      } else {
        CreationIsThePlan(t, s);
      }
    }
  }

  lemma LegalPrefix(t: Tables, steps: seq<Step>, n: nat)
    requires n <= |steps| && Legal(t, steps)
    ensures Legal(t, steps[..n])
  {
    forall i | 0 <= i < n
      ensures At(t, steps[..n], i) == At(t, steps, i)
    {
      assert steps[..n][..i] == steps[..i];
    }
  }

  /** No silent caps, over every interleaving of any number of workers: the five counters and the
      unfinished items always add up to the universe, and a variant never has two active runs. */
  lemma {:induction false} CountersAlwaysBalance(t: Tables, steps: seq<Step>)
    requires Invariant(t) && Legal(t, steps)
    ensures Invariant(Exec(t, steps))
  {
    if steps != [] {
      var n := |steps| - 1;
      LegalPrefix(t, steps, n);
      CountersAlwaysBalance(t, steps[..n]);
      StepKeepsInvariant(Exec(t, steps[..n]), steps[n]);
    }
  }

  lemma {:induction false} SeedIsConstant(t: Tables, steps: seq<Step>, r: RunId, o: Outcome)
    requires Invariant(t) && Legal(t, steps) && r in t.runs
    ensures var t' := Exec(t, steps);
            && r in t'.runs
            && ItemsOf(t', r) == ItemsOf(t, r)
            && t'.runs[r].totalUniverse == t.runs[r].totalUniverse
            && Seed(t', r, o) == Seed(t, r, o)
  {
    if steps != [] {
      var n := |steps| - 1;
      LegalPrefix(t, steps, n);
      SeedIsConstant(t, steps[..n], r, o);
      CountersAlwaysBalance(t, steps[..n]);
      StepKeepsSeed(Exec(t, steps[..n]), steps[n], r, o);
    }
  }

  function PlannedSeed(plan: Plan, o: Outcome): nat {
    match o
    case Reanalyzed => 0
    case AlreadyCurrent => plan.counts.alreadyCurrent
    case SourceUnavailable => plan.counts.sourceUnavailable
    case Failed => 0
    case CapExcluded => plan.counts.capExcluded
  }

  /** From its creation on, whatever happens, each counter of a run is its planned seed plus the number
      of items that reached that status. */
  lemma CounterIsSeedPlusItems(t: Tables, create: Step, steps: seq<Step>, o: Outcome)
    requires create.Create? && Inserts(t, create)
    requires Invariant(t) && Legal(Apply(t, create), steps)
    ensures var t' := Exec(Apply(t, create), steps);
            && create.id in t'.runs
            && Count(t'.runs[create.id], o)
               == PlannedSeed(PlanOf(create.members, create.maxItems), o) + |WithStatus(t', create.id, Done(o))|
            && ItemsOf(t', create.id) ==
                 (set event | event in PlanOf(create.members, create.maxItems).workItems :: ItemKey(create.id, event))
            && t'.runs[create.id].totalUniverse == |create.members|
  {
    hide Apply, Exec, Legal, Invariant, PlanOf, ItemsOf, WithStatus, Unfinished, Active;
    StepKeepsInvariant(t, create);
    CreationIsThePlan(t, create);
    SeedIsConstant(Apply(t, create), steps, create.id, o);
  }

  // ---------------------------------------------------------------------------
  // Terminal states
  // ---------------------------------------------------------------------------

  lemma StepKeepsTerminal(t: Tables, s: Step)
    requires WellTyped(s) && Enabled(t, s)
    ensures forall k :: k in t.items && t.items[k].status.Done? ==>
        k in Apply(t, s).items && Apply(t, s).items[k] == t.items[k]
    ensures forall r :: r in t.runs && !Active(t.runs[r]) ==>
              r in Apply(t, s).runs && Apply(t, s).runs[r].status == t.runs[r].status
                && Apply(t, s).runs[r].finishedAt == t.runs[r].finishedAt
  {
  }

  /** Terminal item rows never change again and terminal run statuses are never left, so a late
      completion cannot overwrite a cancellation. */
  lemma {:induction false} TerminalIsForever(t: Tables, steps: seq<Step>, k: ItemKey, r: RunId)
    requires Legal(t, steps)
    ensures k in t.items && t.items[k].status.Done? ==>
        k in Exec(t, steps).items && Exec(t, steps).items[k] == t.items[k]
    ensures r in t.runs && !Active(t.runs[r]) ==>
              r in Exec(t, steps).runs && Exec(t, steps).runs[r].status == t.runs[r].status
                && Exec(t, steps).runs[r].finishedAt == t.runs[r].finishedAt
  {
    if steps != [] {
      var n := |steps| - 1;
      LegalPrefix(t, steps, n);
      TerminalIsForever(t, steps[..n], k, r);
      assert At(t, steps, n) == Exec(t, steps[..n]);
      StepKeepsTerminal(Exec(t, steps[..n]), steps[n]);
    }
  }

  /** A drained run stays drained. */
  lemma {:induction false} DrainedIsForever(t: Tables, steps: seq<Step>, r: RunId)
    requires Invariant(t) && Legal(t, steps) && r in t.runs && Unfinished(t, r) == {}
    ensures Unfinished(Exec(t, steps), r) == {}
  {
    SeedIsConstant(t, steps, r, Failed);
    forall k | k in ItemsOf(t, r)
      ensures k !in Unfinished(Exec(t, steps), r)
    {
      assert k !in Unfinished(t, r);
      TerminalIsForever(t, steps, k, r);
    }
  }

  // ---------------------------------------------------------------------------
  // The single-owner lease
  // ---------------------------------------------------------------------------

  /** Step `s` gives `owner` the lease on `r` until `expires`. */
  predicate Acquires(t: Tables, s: Step, r: RunId, owner: string) {
    || (s.Claim? && s.owner == owner && s.chosen == Some(r))
    || (s.Renew? && s.owner == owner && s.id == r && RenewSucceeds(t, r, owner))
  }

  ghost predicate ClockMoves(steps: seq<Step>) {
    forall i, j :: 0 <= i < j < |steps| ==> steps[i].now <= steps[j].now
  }

  ghost predicate LeasedTo(t: Tables, r: RunId, owner: string, expires: int) {
    r in t.runs && t.runs[r].leaseOwner == Some(owner) && t.runs[r].leaseExpires == Some(expires)
  }

  lemma StepKeepsLease(t: Tables, s: Step, r: RunId, owner: string, expires: int)
    requires WellTyped(s) && Enabled(t, s) && LeasedTo(t, r, owner, expires)
    requires !Acquires(t, s, r, owner) && s.now < expires
    ensures LeasedTo(Apply(t, s), r, owner, expires)
    ensures forall other :: !Acquires(t, s, r, other)
  {
  }

  lemma AcquisitionLeases(t: Tables, s: Step, r: RunId, owner: string)
    requires Enabled(t, s) && Acquires(t, s, r, owner)
    ensures LeasedTo(Apply(t, s), r, owner, s.expires)
  {
  }

  /** Between a worker's latest acquisition at step `i` and a later step `j`, the lease is untouched
      while the clock stays below its expiry. */
  lemma {:induction false} LeaseHeldUntilExpiry(t: Tables, steps: seq<Step>, i: nat, j: nat, r: RunId, owner: string)
    requires Legal(t, steps) && ClockMoves(steps) && i < j < |steps|
    requires Acquires(At(t, steps, i), steps[i], r, owner)
    requires forall k :: i < k < j ==> !Acquires(At(t, steps, k), steps[k], r, owner)
    requires steps[j].now < steps[i].expires
    ensures LeasedTo(At(t, steps, j), r, owner, steps[i].expires)
    decreases j
  {
    hide Apply, Exec, LeasedTo;
    if j == i + 1 {
      AtNext(t, steps, i);
      AcquisitionLeases(At(t, steps, i), steps[i], r, owner);
    } else {
      assert steps[j - 1].now <= steps[j].now;
      LeaseHeldUntilExpiry(t, steps, i, j - 1, r, owner);
      StepKeepsLease(At(t, steps, j - 1), steps[j - 1], r, owner, steps[i].expires);
      AtNext(t, steps, j - 1);
    }
  }

  /** One worker drains a run at a time: while a worker's last claim or renewal is unexpired on the
      shared clock, no other worker's claim or renewal of that run succeeds. */
  lemma LeaseIsExclusive(t: Tables, steps: seq<Step>, i: nat, j: nat, r: RunId, owner: string, other: string)
    requires Legal(t, steps) && ClockMoves(steps) && i < j < |steps| && other != owner
    requires Acquires(At(t, steps, i), steps[i], r, owner)
    requires forall k :: i < k < j ==> !Acquires(At(t, steps, k), steps[k], r, owner)
    requires steps[j].now < steps[i].expires
    ensures !Acquires(At(t, steps, j), steps[j], r, other)
  {
    LeaseHeldUntilExpiry(t, steps, i, j, r, owner);
  }

  /** A crashed owner's run can be resumed: once its lease has lapsed, any worker's claim returns a run
      at least as old, and returns this one when it is the oldest candidate. */
  lemma LapsedRunIsTakenOver(t: Tables, s: Step, r: RunId)
    requires s.Claim? && Enabled(t, s)
    requires r in t.runs && r !in s.locked && Active(t.runs[r])
    requires t.runs[r].leaseExpires.Some? && t.runs[r].leaseExpires.value <= s.now
    ensures s.chosen.Some? && s.chosen.value in t.runs && t.runs[s.chosen.value].createdAt <= t.runs[r].createdAt
    ensures LeasedTo(Apply(t, s), s.chosen.value, s.owner, s.expires)
    ensures (forall q :: q in t.runs && q != r && Candidate(t, s.owner, s.locked, s.now, q) ==>
        t.runs[r].createdAt < t.runs[q].createdAt)
            ==> s.chosen == Some(r)
  {
    assert Candidate(t, s.owner, s.locked, s.now, r);
  }

  ghost predicate OwnedByAnother(t: Tables, r: RunId, owner: string) {
    r in t.runs && t.runs[r].leaseOwner.Some? && t.runs[r].leaseOwner != Some(owner)
  }

  lemma StepKeepsOutsider(t: Tables, s: Step, r: RunId, owner: string)
    requires Enabled(t, s) && OwnedByAnother(t, r, owner)
    requires s.Claim? && s.owner == owner ==> s.chosen != Some(r)
    ensures OwnedByAnother(Apply(t, s), r, owner)
  {
  }

  /** After another worker took the run, the old owner's renewals change nothing until it wins the run
      back with a claim. */
  lemma {:induction false} OldOwnerCannotRenew(t: Tables, steps: seq<Step>, i: nat, j: nat, r: RunId, owner: string,
          other: string)
    requires Legal(t, steps) && i < j < |steps| && other != owner
    requires Acquires(At(t, steps, i), steps[i], r, other)
    requires forall k :: i < k < j && steps[k].Claim? && steps[k].owner == owner ==> steps[k].chosen != Some(r)
    ensures !RenewSucceeds(At(t, steps, j), r, owner)
    ensures OwnedByAnother(At(t, steps, j), r, owner)
    decreases j
  {
    hide Apply;
    AtNext(t, steps, j - 1);
    if j == i + 1 {
      AcquisitionLeases(At(t, steps, i), steps[i], r, other);
    } else {
      OldOwnerCannotRenew(t, steps, i, j - 1, r, owner, other);
      StepKeepsOutsider(At(t, steps, j - 1), steps[j - 1], r, owner);
    }
  }

  // ---------------------------------------------------------------------------
  // The store itself: rows updated in place by guarded statements
  // ---------------------------------------------------------------------------

  datatype CreateResult = Created(id: RunId) | Existing(id: RunId) | Rejected

  class Store {
    var runs: map<RunId, Run>
    var items: map<ItemKey, Item>

    constructor ()
      ensures View() == Tables(map[], map[])
    {
      runs, items := map[], map[];
    }

    function View(): Tables
      reads this
    {
      Tables(runs, items)
    }

    /** The newest active run of a variant, if any. */
    method FindActiveRun(customer: string, target: Target) returns (found: Option<RunId>)
      ensures found.None? <==> !HasActive(View(), customer, target)
      ensures found.Some? ==>
                && found.value in runs && Active(runs[found.value]) && SameVariant(runs[found.value], customer, target)
                && forall r :: r in runs && Active(runs[r]) && SameVariant(runs[r], customer, target) ==>
                     runs[r].createdAt <= runs[found.value].createdAt
    {
      var rest: set<RunId> := set r | r in runs && Active(runs[r]) && SameVariant(runs[r], customer, target);
      found := None;
      while rest != {}
        invariant forall r :: r in rest ==> r in runs && Active(runs[r]) && SameVariant(runs[r], customer, target)
        invariant found.Some? ==>
            found.value in runs && Active(runs[found.value]) && SameVariant(runs[found.value], customer, target)
        invariant forall r :: r in runs && Active(runs[r]) && SameVariant(runs[r], customer, target) ==>
                    r in rest || (found.Some? && runs[r].createdAt <= runs[found.value].createdAt)
        decreases |rest|
      {
        var r :| r in rest;
        rest := rest - {r};
        if found.None? || runs[found.value].createdAt < runs[r].createdAt {
          found := Some(r);
        }
      }
    }

    method CreateRun(id: RunId, customer: string, target: Target, members: seq<Member>, maxItems: Option<int>, now: int)
      returns (result: CreateResult)
      modifies this
      ensures View() == Apply(old(View()), Create(id, customer, target, members, maxItems, now))
      ensures result == Created(id) <==> Inserts(old(View()), Create(id, customer, target, members, maxItems, now))
      ensures result.Existing? ==>
          result.id in runs && Active(runs[result.id]) && SameVariant(runs[result.id], customer, target)
      ensures result.Existing? <==> old(HasActive(View(), customer, target))
      ensures !result.Created? ==> View() == old(View())
    {
      var existing := FindActiveRun(customer, target);
      if existing.Some? {
        return Existing(existing.value);
      }
      var plan := PlanBackfill(members, maxItems);
      var work := plan.workItems;
      var keysFree := id !in runs
        && (forall i, j :: 0 <= i < j < |work| ==> work[i] != work[j])
        && (forall k :: k in items ==> k.run != id);
      if !keysFree {
        return Rejected;
      }
      runs := runs[id := Run(customer, target, now, RunPending, false, plan.counts.totalUniverse,
                             0, plan.counts.alreadyCurrent, plan.counts.sourceUnavailable, 0, plan.counts.capExcluded,
                             None, None, None, None, now, None)];
      items := items + map event | event in work :: ItemKey(id, event) := Item(Pending, now, None);
      result := Created(id);
    }

    method RequestCancel(customer: string, id: RunId, now: int) returns (ok: bool)
      modifies this
      ensures View() == Apply(old(View()), Cancel(customer, id, now))
      ensures ok <==> id in old(runs) && old(runs)[id].customer == customer && Active(old(runs)[id])
    {
      ok := id in runs && runs[id].customer == customer && Active(runs[id]);
      if ok {
        var run := runs[id];
        if run.status == RunPending {
          run := run.(status := Cancelled, finishedAt := Some(now));
        }
        runs := runs[id := run.(cancelRequested := true, lastProgress := now)];
      }
    }

    /** Claims the oldest claimable run that no concurrent claim has locked. */
    method ClaimRun(now: int, owner: string, expires: int, locked: set<RunId>) returns (claimed: Option<RunId>)
      modifies this
      ensures Enabled(old(View()), Claim(owner, expires, locked, claimed, now))
      ensures View() == Apply(old(View()), Claim(owner, expires, locked, claimed, now))
    {
      var rest: set<RunId> := set r | r in runs && r !in locked && Claimable(runs[r], owner, now);
      claimed := None;
      while rest != {}
        invariant forall r :: r in rest ==> Candidate(View(), owner, locked, now, r)
        invariant claimed.Some? ==> Candidate(View(), owner, locked, now, claimed.value)
        invariant forall r :: r in runs && Candidate(View(), owner, locked, now, r) ==>
                    r in rest || (claimed.Some? && runs[claimed.value].createdAt <= runs[r].createdAt)
        decreases |rest|
      {
        var r :| r in rest;
        rest := rest - {r};
        if claimed.None? || runs[r].createdAt < runs[claimed.value].createdAt {
          claimed := Some(r);
        }
      }
      if claimed.Some? {
        var run := runs[claimed.value];
        if run.startedAt.None? {
          run := run.(startedAt := Some(now));
        }
        runs := runs[claimed.value :=
          run.(status := Running, lastProgress := now, leaseOwner := Some(owner), leaseExpires := Some(expires))];
      }
    }

    method RenewLease(id: RunId, owner: string, now: int, expires: int) returns (held: bool)
      modifies this
      ensures View() == Apply(old(View()), Renew(id, owner, expires, now))
      ensures held == RenewSucceeds(old(View()), id, owner)
    {
      held := id in runs && runs[id].leaseOwner == Some(owner) && Active(runs[id]);
      if held {
        runs := runs[id := runs[id].(leaseExpires := Some(expires), lastProgress := now)];
      }
    }

    method ClaimPending(id: RunId, event: EventId, now: int) returns (won: bool)
      modifies this
      ensures View() == Apply(old(View()), ClaimItem(id, event, now))
      ensures won == ItemIs(old(View()), id, event, Pending)
    {
      var k := ItemKey(id, event);
      won := k in items && items[k].status == Pending;
      if won {
        items := items[k := items[k].(status := Processing, updatedAt := now)];
      }
    }

    method ReclaimStaleItems(id: RunId, staleBefore: int, now: int) returns (n: nat)
      modifies this
      ensures View() == Apply(old(View()), Reclaim(id, staleBefore, now))
      ensures n == |set k | k in old(items) && Stale(old(View()), k, id, staleBefore)|
    {
      var stale :=
        set k | k in items && k.run == id && items[k].status == Processing && items[k].updatedAt < staleBefore;
      assert stale == set k | k in items && Stale(View(), k, id, staleBefore);
      items := map k | k in items :: if k in stale then items[k].(status := Pending) else items[k];
      n := |stale|;
    }

    method CountUnfinished(id: RunId) returns (n: nat)
      ensures n == |Unfinished(View(), id)|
    {
      n := |set k | k in items && k.run == id && (items[k].status == Pending || items[k].status == Processing)|;
    }

    /** The item leaves `processing` and its counter moves in one transaction, or neither does. */
    method RecordItemResult(id: RunId, event: EventId, outcome: Outcome, now: int, error: Option<string>)
      returns (moved: bool)
      modifies this
      ensures View() == Apply(old(View()), Record(id, event, outcome, error, now))
      ensures moved == ItemIs(old(View()), id, event, Processing)
    {
      var k := ItemKey(id, event);
      moved := k in items && items[k].status == Processing;
      if moved {
        items := items[k := Item(Done(outcome), now, error)];
        if id in runs {
          runs := runs[id := Bump(runs[id], outcome).(lastProgress := now)];
        }
      }
    }

    method FinalizeRun(id: RunId, status: RunStatus, now: int, error: Option<string>) returns (moved: bool)
      requires status.Completed? || status.Cancelled? || status.RunFailed?
      modifies this
      ensures View() == Apply(old(View()), Finalize(id, status, error, now))
      ensures moved <==> id in old(runs) && Active(old(runs)[id])
      ensures moved ==> id in runs && runs[id].status == status && runs[id].finishedAt == Some(now)
    {
      moved := id in runs && Active(runs[id]);
      if moved {
        var message := if error.Some? then error else runs[id].errorMessage;
        runs := runs[id :=
          runs[id].(status := status, finishedAt := Some(now), lastProgress := now, errorMessage := message)];
      }
    }
  }
}

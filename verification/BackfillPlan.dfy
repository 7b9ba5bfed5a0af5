/** The scoped event-leaf universe, its split into a materialization plan, and the drain tally.

    `src/lib/analysis/event-leaf-backfill.ts` and `src/lib/analysis/event-leaf-drain.ts`. */
module BackfillPlan {
  import opened Common

  datatype EventId = EventId(aiceId: string, eventKey: nat)

  datatype Target = Target(lang: string, modelName: string, model: string)

  /** One member of the scoped universe with the two flags every count derives from. */
  datatype Member = Member(id: EventId, eventTime: int, alreadyCurrent: bool, sourcePresent: bool)

  datatype Counts = Counts(
    totalUniverse: nat,
    reanalyze: nat,
    alreadyCurrent: nat,
    sourceUnavailable: nat,
    capExcluded: nat)

  datatype Plan = Plan(counts: Counts, workItems: seq<EventId>)

  datatype Tally = Tally(universe: nat, outstanding: nat, sourceUnavailable: nat)

  // ---------------------------------------------------------------------------
  // The universe query
  // ---------------------------------------------------------------------------

  datatype BaselineRow = BaselineRow(id: EventId, eventTime: int, receivedAt: int, version: int)

  datatype LeafRow = LeafRow(id: EventId, target: Target, superseded: bool)

  datatype CustomerDb = CustomerDb(baseline: set<BaselineRow>, leaves: set<LeafRow>, sources: set<EventId>)

  /** `baseline_version` breaks ties on `received_at`, both newest first. */
  predicate Newer(a: BaselineRow, b: BaselineRow) {
    a.receivedAt > b.receivedAt || (a.receivedAt == b.receivedAt && a.version > b.version)
  }

  /** The row `DISTINCT ON (source_aice_id, event_key)` keeps. */
  ghost predicate IsLatest(db: CustomerDb, row: BaselineRow) {
    row in db.baseline && forall other :: other in db.baseline && other.id == row.id ==>
      other == row || Newer(row, other)
  }

  predicate HasLeaf(db: CustomerDb, id: EventId, lang: string) {
    exists leaf :: leaf in db.leaves && leaf.id == id && leaf.target.lang == lang && !leaf.superseded
  }

  predicate HasTargetLeaf(db: CustomerDb, id: EventId, target: Target) {
    exists leaf :: leaf in db.leaves && leaf.id == id && leaf.target == target && !leaf.superseded
  }

  /** An event belongs to the universe when its latest baseline row, and no other, lies in the window. */
  ghost predicate InUniverse(db: CustomerDb, start: int, end: int, target: Target, m: Member) {
    && (exists row :: IsLatest(db, row) && row.id == m.id && row.eventTime == m.eventTime)
    && start <= m.eventTime < end
    && HasLeaf(db, m.id, target.lang)
    && m.alreadyCurrent == HasTargetLeaf(db, m.id, target)
    && m.sourcePresent == (m.id in db.sources)
  }

  ghost predicate DistinctIds(members: seq<Member>) {
    forall i, j :: 0 <= i < j < |members| ==> members[i].id != members[j].id
  }

  ghost predicate FreshestFirst(members: seq<Member>) {
    forall i, j :: 0 <= i < j < |members| ==> members[i].eventTime >= members[j].eventTime
  }

  /** What `loadUniverse` returns: every universe member once, freshest first. */
  ghost predicate IsUniverse(db: CustomerDb, start: int, end: int, target: Target, members: seq<Member>) {
    && (forall m :: m in members <==> InUniverse(db, start, end, target, m))
    && DistinctIds(members)
    && FreshestFirst(members)
  }

  /** Dedupe comes before the window: an event rebaselined out of the window is not a member, however
      many of its older rows still lie inside. */
  lemma DedupeBeforeWindow(db: CustomerDb, start: int, end: int, target: Target, members: seq<Member>,
          latest: BaselineRow)
    requires IsUniverse(db, start, end, target, members)
    requires latest in db.baseline
    requires forall o :: o in db.baseline && o.id == latest.id && o != latest ==>
        o.receivedAt < latest.receivedAt || (o.receivedAt == latest.receivedAt && o.version < latest.version)
    ensures (exists m :: m in members && m.id == latest.id) <==>
        && start <= latest.eventTime < end
        && exists leaf ::
             leaf in db.leaves && leaf.id == latest.id && leaf.target.lang == target.lang && !leaf.superseded
  {
    assert IsLatest(db, latest);
    if start <= latest.eventTime < end && HasLeaf(db, latest.id, target.lang) {
      var m := Member(latest.id, latest.eventTime, HasTargetLeaf(db, latest.id, target), latest.id in db.sources);
      assert InUniverse(db, start, end, target, m);
    }
    forall m | m in members && m.id == latest.id
      ensures m.eventTime == latest.eventTime && HasLeaf(db, latest.id, target.lang) && start <= m.eventTime < end
    {
      assert InUniverse(db, start, end, target, m);
      var row :| IsLatest(db, row) && row.id == m.id && row.eventTime == m.eventTime;
      assert row == latest || (Newer(row, latest) && Newer(latest, row));
    }
  }

  /** A member's flags are what the other two tables say of its event: a live leaf of the very target, and a
      source row. */
  lemma FlagsAreExact(db: CustomerDb, start: int, end: int, target: Target, members: seq<Member>, m: Member)
    requires IsUniverse(db, start, end, target, members) && m in members
    ensures m.alreadyCurrent <==>
        exists leaf :: leaf in db.leaves && leaf.id == m.id && leaf.target == target && !leaf.superseded
    ensures m.sourcePresent <==> m.id in db.sources
  {
    assert InUniverse(db, start, end, target, m);
  }

  // ---------------------------------------------------------------------------
  // Categories
  // ---------------------------------------------------------------------------

  datatype Category = Current | Swept | Reanalyzable

  function CategoryOf(m: Member): Category {
    if m.alreadyCurrent then Current else if !m.sourcePresent then Swept else Reanalyzable
  }

  /** Members of one category, in universe order. */
  function Select(members: seq<Member>, c: Category): seq<Member> {
    if members == [] then []
    else
      var rest := Select(members[..|members| - 1], c);
      var last := members[|members| - 1];
      if CategoryOf(last) == c then rest + [last] else rest
  }

  function Ids(members: seq<Member>): seq<EventId> {
    seq(|members|, i requires 0 <= i < |members| => members[i].id)
  }

  /** A negative cap means no cap. */
  function CapOf(maxItems: Option<int>, n: nat): (cap: nat) {
    if maxItems.Some? && maxItems.value >= 0 && maxItems.value < n then maxItems.value else n
  }

  function PlanOf(members: seq<Member>, maxItems: Option<int>): Plan {
    var work := Select(members, Reanalyzable);
    var kept := CapOf(maxItems, |work|);
    Plan(
      Counts(|members|, kept, |Select(members, Current)|, |Select(members, Swept)|, |work| - kept),
      Ids(work)[..kept])
  }

  function TallyOf(members: seq<Member>): Tally {
    Tally(|members|, |Select(members, Reanalyzable)|, |Select(members, Swept)|)
  }

  method PlanBackfill(members: seq<Member>, maxItems: Option<int>) returns (plan: Plan)
    ensures plan == PlanOf(members, maxItems)
  {
    var alreadyCurrent, sourceUnavailable := 0, 0;
    var reanalyzable: seq<EventId> := [];
    for i := 0 to |members|
      invariant alreadyCurrent == |Select(members[..i], Current)|
      invariant sourceUnavailable == |Select(members[..i], Swept)|
      invariant reanalyzable == Ids(Select(members[..i], Reanalyzable))
    {
      var m := members[i];
      assert members[..i + 1][..i] == members[..i];
      if m.alreadyCurrent {
        alreadyCurrent := alreadyCurrent + 1;
      } else if !m.sourcePresent {
        sourceUnavailable := sourceUnavailable + 1;
      } else {
        reanalyzable := reanalyzable + [m.id];
      }
    }
    assert members[..|members|] == members;
    var cap := if maxItems.Some? && maxItems.value >= 0 then maxItems else None;
    var workItems := if cap.None? || cap.value > |reanalyzable| then reanalyzable else reanalyzable[..cap.value];
    var capExcluded := |reanalyzable| - |workItems|;
    plan := Plan(
      Counts(|members|, |workItems|, alreadyCurrent, sourceUnavailable, capExcluded),
      workItems);
  }

  method TallyDrain(members: seq<Member>) returns (tally: Tally)
    ensures tally == TallyOf(members)
  {
    var outstanding, sourceUnavailable := 0, 0;
    for i := 0 to |members|
      invariant outstanding == |Select(members[..i], Reanalyzable)|
      invariant sourceUnavailable == |Select(members[..i], Swept)|
    {
      var m := members[i];
      assert members[..i + 1][..i] == members[..i];
      if m.alreadyCurrent { continue; }
      if !m.sourcePresent {
        sourceUnavailable := sourceUnavailable + 1;
        continue;
      }
      outstanding := outstanding + 1;
    }
    assert members[..|members|] == members;
    tally := Tally(|members|, outstanding, sourceUnavailable);
  }

  // ---------------------------------------------------------------------------
  // What the plan promises
  // ---------------------------------------------------------------------------

  lemma {:induction false} SelectionsPartition(members: seq<Member>)
    ensures |Select(members, Current)| + |Select(members, Swept)| + |Select(members, Reanalyzable)| == |members|
  {
    if members != [] {
      SelectionsPartition(members[..|members| - 1]);
    }
  }

  /** No silent caps at preview time: the four categories are the whole universe, the drain's
      outstanding set is the planned work plus what the cap excluded, and both sides agree on the
      swept count, for every universe and every cap. */
  lemma PlanPartitionsUniverse(members: seq<Member>, maxItems: Option<int>)
    ensures var counts, tally := PlanOf(members, maxItems).counts, TallyOf(members);
            && counts.reanalyze + counts.alreadyCurrent + counts.sourceUnavailable + counts.capExcluded
               == counts.totalUniverse == |members|
            && tally.outstanding == counts.reanalyze + counts.capExcluded
            && tally.sourceUnavailable == counts.sourceUnavailable
            && tally.universe == counts.totalUniverse
            && counts.reanalyze == |PlanOf(members, maxItems).workItems|
            && (maxItems.Some? && maxItems.value >= 0 ==> counts.reanalyze <= maxItems.value)
            && (maxItems.None? || maxItems.value < 0 ==> counts.capExcluded == 0)
            && (counts.capExcluded > 0 ==> maxItems.Some? && counts.reanalyze == maxItems.value)
  {
    SelectionsPartition(members);
  }

  lemma {:induction false} SelectMembers(members: seq<Member>, c: Category)
    ensures forall m :: m in Select(members, c) <==> m in members && CategoryOf(m) == c
  {
    if members != [] {
      var front, last := members[..|members| - 1], members[|members| - 1];
      SelectMembers(front, c);
      assert members == front + [last];
    }
  }

  /** The positions, among the first `n`, of the members of one category. */
  function Positions(members: seq<Member>, n: nat, c: Category): set<int>
    requires n <= |members|
  {
    set i | 0 <= i < n && CategoryOf(members[i]) == c
  }

  lemma PositionsOneMore(members: seq<Member>, n: nat, c: Category)
    requires n < |members|
    ensures |Positions(members, n + 1, c)| == |Positions(members, n, c)| + if CategoryOf(members[n]) == c then 1 else 0
  {
    hide CategoryOf;
    var before, after := Positions(members, n, c), Positions(members, n + 1, c);
    if CategoryOf(members[n]) == c {
      assert after == before + {n};
    } else {
      assert after == before;
    }
  }

  lemma {:induction false} SelectSize(members: seq<Member>, n: nat, c: Category)
    requires n <= |members|
    ensures |Select(members[..n], c)| == |Positions(members, n, c)|
  {
    hide CategoryOf;
    if n == 0 {
      assert Positions(members, 0, c) == {};
    } else {
      SelectSize(members, n - 1, c);
      assert members[..n][..n - 1] == members[..n - 1];
      PositionsOneMore(members, n - 1, c);
      hide Positions;
    }
  }

  /** The plan's figures in terms of the two flags: current members, members whose source is gone, and the
      rest, of which as many are planned as the cap admits, each under its own event. */
  lemma CountsFollowTheFlags(members: seq<Member>, maxItems: Option<int>)
    ensures var plan := PlanOf(members, maxItems);
            && plan.counts.alreadyCurrent == |set i | 0 <= i < |members| && members[i].alreadyCurrent|
            && plan.counts.sourceUnavailable
               == |set i | 0 <= i < |members| && !members[i].alreadyCurrent && !members[i].sourcePresent|
            && plan.counts.reanalyze + plan.counts.capExcluded
               == |set i | 0 <= i < |members| && !members[i].alreadyCurrent && members[i].sourcePresent|
            && (forall id :: id in plan.workItems ==>
                  exists m :: m in members && m.id == id && !m.alreadyCurrent && m.sourcePresent)
            && (plan.counts.capExcluded == 0 ==>
                  forall m :: m in members && !m.alreadyCurrent && m.sourcePresent ==> m.id in plan.workItems)
  {
    var work := Select(members, Reanalyzable);
    assert members[..|members|] == members;
    SelectSize(members, |members|, Current);
    SelectSize(members, |members|, Swept);
    SelectSize(members, |members|, Reanalyzable);
    SelectMembers(members, Reanalyzable);
    assert Positions(members, |members|, Current) == set i | 0 <= i < |members| && members[i].alreadyCurrent;
    assert Positions(members, |members|, Swept)
      == set i | 0 <= i < |members| && !members[i].alreadyCurrent && !members[i].sourcePresent;
    assert Positions(members, |members|, Reanalyzable)
      == set i | 0 <= i < |members| && !members[i].alreadyCurrent && members[i].sourcePresent;
    forall id | id in PlanOf(members, maxItems).workItems
      ensures exists m :: m in members && m.id == id && !m.alreadyCurrent && m.sourcePresent
    {
      var i :| 0 <= i < |PlanOf(members, maxItems).workItems| && PlanOf(members, maxItems).workItems[i] == id;
      assert work[i] in work && work[i].id == id;
    }
    if PlanOf(members, maxItems).counts.capExcluded == 0 {
      forall m | m in members && !m.alreadyCurrent && m.sourcePresent
        ensures m.id in PlanOf(members, maxItems).workItems
      {
        var i :| 0 <= i < |work| && work[i] == m;
        assert PlanOf(members, maxItems).workItems[i] == m.id;
      }
    }
  }

  lemma {:induction false} SelectKeepsOrder(members: seq<Member>, c: Category)
    requires DistinctIds(members) && FreshestFirst(members)
    ensures DistinctIds(Select(members, c)) && FreshestFirst(Select(members, c))
  {
    if members != [] {
      var front, last := members[..|members| - 1], members[|members| - 1];
      SelectKeepsOrder(front, c);
      SelectMembers(front, c);
      forall m | m in Select(front, c)
        ensures m.id != last.id && m.eventTime >= last.eventTime
      {
        var i :| 0 <= i < |front| && front[i] == m;
        assert members[i] == m;
      }
    }
  }

  lemma UniqueById(members: seq<Member>, a: Member, b: Member)
    requires DistinctIds(members) && a in members && b in members && a.id == b.id
    ensures a == b
  {
    var i :| 0 <= i < |members| && members[i] == a;
    var j :| 0 <= j < |members| && members[j] == b;
  }

  /** The work items are distinct re-analyzable members, and the cap keeps the freshest: nothing the
      cap excluded is newer than anything it kept. */
  lemma CapKeepsFreshest(members: seq<Member>, maxItems: Option<int>, kept: Member, excluded: Member)
    requires DistinctIds(members) && FreshestFirst(members)
    requires kept in members && excluded in members
    requires CategoryOf(excluded) == Reanalyzable
    requires kept.id in PlanOf(members, maxItems).workItems
    requires excluded.id !in PlanOf(members, maxItems).workItems
    ensures CategoryOf(kept) == Reanalyzable
    ensures kept.eventTime >= excluded.eventTime
  {
    var work := Select(members, Reanalyzable);
    var n := CapOf(maxItems, |work|);
    SelectMembers(members, Reanalyzable);
    SelectKeepsOrder(members, Reanalyzable);
    var i :| 0 <= i < n && Ids(work)[..n][i] == kept.id;
    var j :| 0 <= j < |work| && work[j] == excluded;
    assert forall k :: 0 <= k < n ==> Ids(work)[..n][k] == work[k].id;
    UniqueById(members, work[i], kept);
  }

  lemma WorkItemsAreDistinct(members: seq<Member>, maxItems: Option<int>)
    requires DistinctIds(members) && FreshestFirst(members)
    ensures var work := PlanOf(members, maxItems).workItems;
            forall i, j :: 0 <= i < j < |work| ==> work[i] != work[j]
  {
    SelectKeepsOrder(members, Reanalyzable);
  }
}

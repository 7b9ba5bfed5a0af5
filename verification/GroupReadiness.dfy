/** Group report readiness: one tick folds the members' sources into the group's state rows.

    `src/lib/analysis/group-readiness.ts`. */
module GroupReadiness {
  import opened Common
  import opened BucketDates

  /** A state row's `period|bucket_date` key within one group and timezone. */
  datatype Key = Key(period: PeriodKind, date: int)

  const LIVE_KEY := Key(LIVE, 0)

  datatype EventPart = EventPart(count: nat, maxEventAt: int, maxReceivedAt: int)
  datatype StoryPart = StoryPart(count: nat, maxReceivedAt: Option<int>)

  datatype LiveEvents = LiveEvents(maxEventAt: int, maxReceivedAt: int, active: bool)

  /** What reading one member database in the group's timezone gives. */
  datatype Member =
    | Readable(events: map<Key, EventPart>, stories: map<Key, StoryPart>,
               liveEvents: Option<LiveEvents>, liveStoryAt: Option<int>)
    | Throws

  datatype Floors = Floors(daily: int, weekly: int, monthly: int)

  /** `failing` holds the buckets whose own statement would throw this tick. */
  datatype Group = Group(id: string, tz: string, floors: Floors, members: seq<Member>, failing: set<Key>)

  datatype Aggregate = Aggregate(eventCount: nat, maxEventAt: Option<int>, maxReceivedAt: Option<int>,
                                 storyCount: nat, maxStoryReceivedAt: Option<int>)

  const ZERO := Aggregate(0, None, None, 0, None)

  datatype Status = PENDING | READY | DIRTY | ARCHIVED

  datatype StateRow = StateRow(status: Status, eventAt: Option<int>, receivedAt: Option<int>, eventCount: nat,
                               storyAt: Option<int>, storyCount: nat)

  /** Later of two nullable dates; `GREATEST` ignores nulls the same way. */
  function MaxDate(a: Option<int>, b: Option<int>): Option<int> {
    if a.None? then b else if b.None? then a else if a.value >= b.value then a else b
  }

  predicate Advances(stored: Option<int>, next: Option<int>) {
    next.Some? && (stored.None? || next.value > stored.value)
  }

  // ---------------------------------------------------------------------------
  // The union of the members
  // ---------------------------------------------------------------------------

  function WithEvents(cur: Aggregate, p: EventPart): Aggregate {
    cur.(eventCount := cur.eventCount + p.count,
         maxEventAt := MaxDate(cur.maxEventAt, Some(p.maxEventAt)),
         maxReceivedAt := MaxDate(cur.maxReceivedAt, Some(p.maxReceivedAt)))
  }

  function WithStories(cur: Aggregate, p: StoryPart): Aggregate {
    cur.(storyCount := cur.storyCount + p.count, maxStoryReceivedAt := MaxDate(cur.maxStoryReceivedAt, p.maxReceivedAt))
  }

  predicate Mentions(m: Member, key: Key) {
    m.Readable? && (key in m.events || key in m.stories)
  }

  predicate Mentioned(members: seq<Member>, key: Key) {
    exists i :: 0 <= i < |members| && Mentions(members[i], key)
  }

  function WithMember(cur: Aggregate, m: Member, key: Key): Aggregate {
    if m.Throws? then cur
    else
      var c := if key in m.events then WithEvents(cur, m.events[key]) else cur;
      if key in m.stories then WithStories(c, m.stories[key]) else c
  }

  /** Members folded in list order, as the loop does. */
  function Union(members: seq<Member>, key: Key): Aggregate {
    if members == [] then ZERO
    else WithMember(Union(members[..|members| - 1], key), members[|members| - 1], key)
  }

  datatype LiveUnion = LiveUnion(active: bool, eventAt: Option<int>, receivedAt: Option<int>, storyAt: Option<int>)

  function WithLive(cur: LiveUnion, m: Member): LiveUnion {
    if m.Throws? then cur
    else
      var c := if m.liveEvents.Some? then
          cur.(active := cur.active || m.liveEvents.value.active,
               eventAt := MaxDate(cur.eventAt, Some(m.liveEvents.value.maxEventAt)),
               receivedAt := MaxDate(cur.receivedAt, Some(m.liveEvents.value.maxReceivedAt)))
        else cur;
      if m.liveStoryAt.Some? then c.(active := true, storyAt := MaxDate(c.storyAt, m.liveStoryAt)) else c
  }

  function LiveOf(members: seq<Member>): LiveUnion {
    if members == [] then LiveUnion(false, None, None, None)
    else WithLive(LiveOf(members[..|members| - 1]), members[|members| - 1])
  }

  /** Two partial unions side by side. */
  function Merge(a: Aggregate, b: Aggregate): Aggregate {
    Aggregate(a.eventCount + b.eventCount, MaxDate(a.maxEventAt, b.maxEventAt),
              MaxDate(a.maxReceivedAt, b.maxReceivedAt),
              a.storyCount + b.storyCount, MaxDate(a.maxStoryReceivedAt, b.maxStoryReceivedAt))
  }

  lemma MergeLaws(a: Aggregate, b: Aggregate, c: Aggregate)
    ensures Merge(a, b) == Merge(b, a)
    ensures Merge(a, Merge(b, c)) == Merge(Merge(a, b), c)
    ensures Merge(a, ZERO) == a
  {
  }

  lemma WithMemberMerges(cur: Aggregate, m: Member, key: Key)
    ensures WithMember(cur, m, key) == Merge(cur, WithMember(ZERO, m, key))
  {
  }

  lemma {:induction false} UnionConcat(a: seq<Member>, b: seq<Member>, key: Key)
    ensures Union(a + b, key) == Merge(Union(a, key), Union(b, key))
  {
    hide Merge, WithMember;
    MergeLaws(Union(a, key), ZERO, ZERO);
    if b == [] {
      assert a + b == a;
    } else {
      var rest, last := b[..|b| - 1], b[|b| - 1];
      UnionConcat(a, rest, key);
      assert (a + b)[..|a + b| - 1] == a + rest;
      WithMemberMerges(Union(a + rest, key), last, key);
      WithMemberMerges(Union(rest, key), last, key);
      MergeLaws(Union(a, key), Union(rest, key), WithMember(ZERO, last, key));
    }
  }

  /** The union does not depend on the order the members are read in. */
  lemma {:induction false} UnionIgnoresOrder(a: seq<Member>, b: seq<Member>, key: Key)
    requires multiset(a) == multiset(b)
    ensures Union(a, key) == Union(b, key)
  {
    hide Merge, WithMember;
    assert |multiset(a)| == |a| && |multiset(b)| == |b|;
    if a == [] {
      assert b == [];
    } else {
      var m, rest := a[|a| - 1], a[..|a| - 1];
      assert a == rest + [m];
      var front, back := TakeOutOfBoth(a, b);
      UnionIgnoresOrder(rest, front + back, key);
      UnionConcat(rest, [m], key);
      UnionConcat(front, [m] + back, key);
      UnionConcat([m], back, key);
      UnionConcat(front, back, key);
      var f, x, k := Union(front, key), Union([m], key), Union(back, key);
      MergeLaws(x, k, k);
      MergeLaws(f, k, x);
    }
  }

  function EventCountOf(m: Member, key: Key): nat {
    if m.Readable? && key in m.events then m.events[key].count else 0
  }

  function StoryCountOf(m: Member, key: Key): nat {
    if m.Readable? && key in m.stories then m.stories[key].count else 0
  }

  function SumOf(members: seq<Member>, key: Key, count: (Member, Key) -> nat): nat {
    if members == [] then 0 else count(members[0], key) + SumOf(members[1..], key, count)
  }

  lemma {:induction false} SumConcat(a: seq<Member>, b: seq<Member>, key: Key, count: (Member, Key) -> nat)
    ensures SumOf(a + b, key, count) == SumOf(a, key, count) + SumOf(b, key, count)
  {
    if a == [] {
      assert a + b == b;
    } else {
      SumConcat(a[1..], b, key, count);
      assert (a + b)[1..] == a[1..] + b;
    }
  }

  function EventAtOf(m: Member, key: Key): Option<int> {
    if m.Readable? && key in m.events then Some(m.events[key].maxEventAt) else None
  }

  function ReceivedAtOf(m: Member, key: Key): Option<int> {
    if m.Readable? && key in m.events then Some(m.events[key].maxReceivedAt) else None
  }

  function StoryAtOf(m: Member, key: Key): Option<int> {
    if m.Readable? && key in m.stories then m.stories[key].maxReceivedAt else None
  }

  /** `max` is the latest of the members' dates: none exactly when no member has one. */
  ghost predicate IsLatest(max: Option<int>, members: seq<Member>, key: Key, at: (Member, Key) -> Option<int>) {
    match max
    case None => forall i :: 0 <= i < |members| ==> at(members[i], key).None?
    case Some(t) =>
      && (exists i :: 0 <= i < |members| && at(members[i], key) == Some(t))
      && (forall i :: 0 <= i < |members| && at(members[i], key).Some? ==> at(members[i], key).value <= t)
  }

  lemma LatestStep(max: Option<int>, rest: seq<Member>, last: Member, key: Key, at: (Member, Key) -> Option<int>)
    requires IsLatest(max, rest, key, at)
    ensures IsLatest(MaxDate(max, at(last, key)), rest + [last], key, at)
  {
    var all := rest + [last];
    assert all[|rest|] == last;
    assert forall i :: 0 <= i < |rest| ==> all[i] == rest[i];
    if max.Some? {
      var i :| 0 <= i < |rest| && at(rest[i], key) == max;
      assert at(all[i], key) == max;
    }
  }

  lemma NothingIsLatest(key: Key, at: (Member, Key) -> Option<int>)
    ensures IsLatest(None, [], key, at)
  {
  }

  lemma {:induction false} UnionIsSum(members: seq<Member>, key: Key)
    ensures Union(members, key).eventCount == SumOf(members, key, EventCountOf)
    ensures Union(members, key).storyCount == SumOf(members, key, StoryCountOf)
  {
    hide MaxDate;
    if members != [] {
      var rest, last := members[..|members| - 1], members[|members| - 1];
      UnionIsSum(rest, key);
      assert members == rest + [last];
      SumConcat(rest, [last], key, EventCountOf);
      SumConcat(rest, [last], key, StoryCountOf);
    }
  }

  /** What the fold holds: member-wise sums of both counts and the latest of all three watermarks. */
  lemma {:induction false} UnionIsSumAndLatest(members: seq<Member>, key: Key)
    ensures Union(members, key).eventCount == SumOf(members, key, EventCountOf)
    ensures Union(members, key).storyCount == SumOf(members, key, StoryCountOf)
    ensures IsLatest(Union(members, key).maxEventAt, members, key, EventAtOf)
    ensures IsLatest(Union(members, key).maxReceivedAt, members, key, ReceivedAtOf)
    ensures IsLatest(Union(members, key).maxStoryReceivedAt, members, key, StoryAtOf)
  {
    UnionIsSum(members, key);
    hide IsLatest, SumOf;
    if members == [] {
      NothingIsLatest(key, EventAtOf);
      NothingIsLatest(key, ReceivedAtOf);
      NothingIsLatest(key, StoryAtOf);
    } else {
      var rest, last := members[..|members| - 1], members[|members| - 1];
      UnionIsSumAndLatest(rest, key);
      assert members == rest + [last];
      LatestStep(Union(rest, key).maxEventAt, rest, last, key, EventAtOf);
      LatestStep(Union(rest, key).maxReceivedAt, rest, last, key, ReceivedAtOf);
      LatestStep(Union(rest, key).maxStoryReceivedAt, rest, last, key, StoryAtOf);
    }
  }

  // ---------------------------------------------------------------------------
  // What a tick does to one row
  // ---------------------------------------------------------------------------

  datatype Write = NoWrite | Seed(row: StateRow) | Update(row: StateRow)

  predicate Touches(ex: StateRow, agg: Aggregate) {
    || agg.eventCount != ex.eventCount
    || agg.storyCount != ex.storyCount
    || Advances(ex.eventAt, agg.maxEventAt)
    || Advances(ex.receivedAt, agg.maxReceivedAt)
    || Advances(ex.storyAt, agg.maxStoryReceivedAt)
  }

  /** `CASE WHEN status = 'ready' AND EXISTS (...)`: `generated` says a processing or done job exists. */
  function Redirtied(status: Status, generated: bool): Status {
    if status.READY? && generated then DIRTY else status
  }

  function Floor(f: Floors, period: PeriodKind): int
    requires !period.LIVE?
  {
    match period case DAILY => f.daily case WEEKLY => f.weekly case MONTHLY => f.monthly
  }

  /** The statement one non-LIVE candidate key gets. */
  function BucketWrite(key: Key, floors: Floors, ex: Option<StateRow>, agg: Aggregate, generated: bool): Write {
    if key.period.LIVE? || key.date < Floor(floors, key.period) then NoWrite
    else if ex.None? then
      Seed(StateRow(PENDING, agg.maxEventAt, agg.maxReceivedAt, agg.eventCount, agg.maxStoryReceivedAt, agg.storyCount))
    else if ex.value.status.ARCHIVED? || !Touches(ex.value, agg) then NoWrite
    else
      Update(StateRow(Redirtied(ex.value.status, generated),
                      MaxDate(ex.value.eventAt, agg.maxEventAt), MaxDate(ex.value.receivedAt, agg.maxReceivedAt),
                      agg.eventCount, MaxDate(ex.value.storyAt, agg.maxStoryReceivedAt), agg.storyCount))
  }

  /** The statement the LIVE bucket gets; its counts are never written. */
  function LiveWrite(ex: Option<StateRow>, live: LiveUnion, generated: bool): Write {
    if !live.active then NoWrite
    else if ex.None? then Seed(StateRow(READY, live.eventAt, live.receivedAt, 0, live.storyAt, 0))
    else if ex.value.status.ARCHIVED?
            || !(Advances(ex.value.eventAt, live.eventAt) || Advances(ex.value.receivedAt, live.receivedAt)
                 || Advances(ex.value.storyAt, live.storyAt)) then NoWrite
    else
      Update(ex.value.(status := Redirtied(ex.value.status, generated),
                       eventAt := MaxDate(ex.value.eventAt, live.eventAt),
                       receivedAt := MaxDate(ex.value.receivedAt, live.receivedAt),
                       storyAt := MaxDate(ex.value.storyAt, live.storyAt)))
  }

  /** One group's rows in its timezone, and the buckets some job has generated. */
  type Rows = map<Key, StateRow>

  function RowAt(rows: Rows, key: Key): Option<StateRow> {
    if key in rows then Some(rows[key]) else None
  }

  /** Keys a tick looks at: those some member has data for, and the group's live non-LIVE rows. */
  predicate IsCandidate(rows: Rows, members: seq<Member>, key: Key) {
    Mentioned(members, key) || (key in rows && !rows[key].status.ARCHIVED? && !key.period.LIVE?)
  }

  function WriteFor(g: Group, rows: Rows, generated: set<Key>, key: Key): Write {
    if key == LIVE_KEY then LiveWrite(RowAt(rows, key), LiveOf(g.members), key in generated)
    else if IsCandidate(rows, g.members, key) then
      BucketWrite(key, g.floors, RowAt(rows, key), Union(g.members, key), key in generated)
    else NoWrite
  }

  function Written(ex: Option<StateRow>, w: Write): Option<StateRow> {
    if w.NoWrite? then ex else Some(w.row)
  }

  ghost predicate IsReconciled(g: Group, rows: Rows, generated: set<Key>, after: Rows) {
    forall key :: RowAt(after, key) == Written(RowAt(rows, key), WriteFor(g, rows, generated, key))
  }

  // ---------------------------------------------------------------------------
  // What a tick achieves
  // ---------------------------------------------------------------------------

  /** After a tick, every bucket on or past the creation floor that is not archived, and that some member
      has data for or the group already had, holds exactly the members' sums and the latest of what it and
      they had. A ready bucket some job has generated became dirty exactly when anything in it changed, so
      that it is generated again; no other bucket's status moved. */
  lemma TickHoldsTheUnion(g: Group, rows: Rows, generated: set<Key>, after: Rows, key: Key)
    requires IsReconciled(g, rows, generated, after)
    requires match key.period
             case LIVE => false
             case DAILY => g.floors.daily <= key.date
             case WEEKLY => g.floors.weekly <= key.date
             case MONTHLY => g.floors.monthly <= key.date
    requires key in rows ==> !rows[key].status.ARCHIVED?
    requires key in rows || Mentioned(g.members, key)
    ensures key in after
    ensures var u, row := Union(g.members, key), after[key];
      && row.eventCount == u.eventCount && row.storyCount == u.storyCount
      && row.eventAt == MaxDate(if key in rows then rows[key].eventAt else None, u.maxEventAt)
      && row.receivedAt == MaxDate(if key in rows then rows[key].receivedAt else None, u.maxReceivedAt)
      && row.storyAt == MaxDate(if key in rows then rows[key].storyAt else None, u.maxStoryReceivedAt)
    ensures key !in rows ==> after[key].status == PENDING
    ensures key in rows && rows[key].status == READY && key in generated ==>
        (after[key].status == DIRTY <==> after[key].(status := READY) != rows[key])
        && (after[key].status == READY <==> after[key] == rows[key])
    ensures key in rows && !(rows[key].status == READY && key in generated) ==> after[key].status == rows[key].status
  {
    assert RowAt(after, key) == Written(RowAt(rows, key), WriteFor(g, rows, generated, key));
  }

  /** Everything else is left as it was: archived rows, and buckets before the group existed. */
  lemma TickLeavesTheRest(g: Group, rows: Rows, generated: set<Key>, after: Rows, key: Key)
    requires IsReconciled(g, rows, generated, after)
    requires (key in rows && rows[key].status.ARCHIVED?)
             || (key.period.DAILY? && key.date < g.floors.daily)
             || (key.period.WEEKLY? && key.date < g.floors.weekly)
             || (key.period.MONTHLY? && key.date < g.floors.monthly)
             || (key.period.LIVE? && !LiveOf(g.members).active)
    ensures RowAt(after, key) == RowAt(rows, key)
  {
    assert RowAt(after, key) == Written(RowAt(rows, key), WriteFor(g, rows, generated, key));
  }

  /** No key of the group needs a statement. */
  ghost predicate IsIdle(g: Group, rows: Rows, generated: set<Key>) {
    forall key :: WriteFor(g, rows, generated, key) == NoWrite
  }

  /** A second tick over unchanged members writes nothing, whatever jobs have run in between. */
  lemma SecondTickIsIdle(g: Group, rows: Rows, generated: set<Key>, after: Rows, later: set<Key>)
    requires IsReconciled(g, rows, generated, after)
    ensures IsIdle(g, after, later) && IsReconciled(g, after, later, after)
  {
    forall key
      ensures WriteFor(g, after, later, key) == NoWrite
    {
      assert RowAt(after, key) == Written(RowAt(rows, key), WriteFor(g, rows, generated, key));
    }
  }

  function MergeLive(a: LiveUnion, b: LiveUnion): LiveUnion {
    LiveUnion(a.active || b.active, MaxDate(a.eventAt, b.eventAt), MaxDate(a.receivedAt, b.receivedAt),
      MaxDate(a.storyAt, b.storyAt))
  }

  const NO_LIVE := LiveUnion(false, None, None, None)

  lemma MergeLiveLaws(a: LiveUnion, b: LiveUnion, c: LiveUnion, m: Member)
    ensures MergeLive(a, b) == MergeLive(b, a) && MergeLive(a, NO_LIVE) == a
    ensures MergeLive(a, MergeLive(b, c)) == MergeLive(MergeLive(a, b), c)
    ensures WithLive(a, m) == MergeLive(a, WithLive(NO_LIVE, m))
  {
  }

  lemma {:induction false} LiveConcat(a: seq<Member>, b: seq<Member>)
    ensures LiveOf(a + b) == MergeLive(LiveOf(a), LiveOf(b))
  {
    hide MergeLive, WithLive;
    if b == [] {
      assert a + b == a;
      MergeLiveLaws(LiveOf(a), NO_LIVE, NO_LIVE, Throws);
    } else {
      var rest, last := b[..|b| - 1], b[|b| - 1];
      LiveConcat(a, rest);
      assert (a + b)[..|a + b| - 1] == a + rest;
      MergeLiveLaws(LiveOf(a + rest), NO_LIVE, NO_LIVE, last);
      MergeLiveLaws(LiveOf(rest), NO_LIVE, NO_LIVE, last);
      MergeLiveLaws(LiveOf(a), LiveOf(rest), WithLive(NO_LIVE, last), last);
    }
  }

  lemma {:induction false} LiveIgnoresOrder(a: seq<Member>, b: seq<Member>)
    requires multiset(a) == multiset(b)
    ensures LiveOf(a) == LiveOf(b)
  {
    hide MergeLive, WithLive;
    assert |multiset(a)| == |a| && |multiset(b)| == |b|;
    if a == [] {
      assert b == [];
    } else {
      var m, rest := a[|a| - 1], a[..|a| - 1];
      assert a == rest + [m];
      var front, back := TakeOutOfBoth(a, b);
      LiveIgnoresOrder(rest, front + back);
      LiveConcat(rest, [m]);
      LiveConcat(front, [m] + back);
      LiveConcat([m], back);
      LiveConcat(front, back);
      MergeLiveLaws(LiveOf([m]), LiveOf(back), LiveOf(back), m);
      MergeLiveLaws(LiveOf(front), LiveOf(back), LiveOf([m]), m);
    }
  }

  predicate ShowsActivity(m: Member) {
    m.Readable? && ((m.liveEvents.Some? && m.liveEvents.value.active) || m.liveStoryAt.Some?)
  }

  function LiveEventAtOf(m: Member, key: Key): Option<int> {
    if m.Readable? && m.liveEvents.Some? then Some(m.liveEvents.value.maxEventAt) else None
  }

  function LiveReceivedAtOf(m: Member, key: Key): Option<int> {
    if m.Readable? && m.liveEvents.Some? then Some(m.liveEvents.value.maxReceivedAt) else None
  }

  function LiveStoryAtOf(m: Member, key: Key): Option<int> {
    if m.Readable? then m.liveStoryAt else None
  }

  lemma ActivityOneMore(rest: seq<Member>, last: Member)
    ensures (exists i :: 0 <= i < |rest + [last]| && ShowsActivity((rest + [last])[i])) <==>
        (exists i :: 0 <= i < |rest| && ShowsActivity(rest[i])) || ShowsActivity(last)
  {
    hide ShowsActivity;
    var all := rest + [last];
    assert all[|rest|] == last && forall i :: 0 <= i < |rest| ==> all[i] == rest[i];
  }

  lemma LiveStep(cur: LiveUnion, m: Member)
    ensures WithLive(cur, m).active <==> cur.active || ShowsActivity(m)
    ensures WithLive(cur, m).eventAt == MaxDate(cur.eventAt, LiveEventAtOf(m, LIVE_KEY))
    ensures WithLive(cur, m).receivedAt == MaxDate(cur.receivedAt, LiveReceivedAtOf(m, LIVE_KEY))
    ensures WithLive(cur, m).storyAt == MaxDate(cur.storyAt, LiveStoryAtOf(m, LIVE_KEY))
  {
  }

  /** The LIVE activity: present when some member shows any, with the latest of each of their dates. */
  lemma {:induction false} LiveIsAnyAndLatest(members: seq<Member>)
    ensures LiveOf(members).active <==> exists i :: 0 <= i < |members| && ShowsActivity(members[i])
    ensures IsLatest(LiveOf(members).eventAt, members, LIVE_KEY, LiveEventAtOf)
    ensures IsLatest(LiveOf(members).receivedAt, members, LIVE_KEY, LiveReceivedAtOf)
    ensures IsLatest(LiveOf(members).storyAt, members, LIVE_KEY, LiveStoryAtOf)
  {
    hide IsLatest, WithLive, ShowsActivity, MaxDate;
    if members == [] {
      NothingIsLatest(LIVE_KEY, LiveEventAtOf);
      NothingIsLatest(LIVE_KEY, LiveReceivedAtOf);
      NothingIsLatest(LIVE_KEY, LiveStoryAtOf);
    } else {
      var rest, last := members[..|members| - 1], members[|members| - 1];
      LiveIsAnyAndLatest(rest);
      assert members == rest + [last];
      ActivityOneMore(rest, last);
      LiveStep(LiveOf(rest), last);
      LatestStep(LiveOf(rest).eventAt, rest, last, LIVE_KEY, LiveEventAtOf);
      LatestStep(LiveOf(rest).receivedAt, rest, last, LIVE_KEY, LiveReceivedAtOf);
      LatestStep(LiveOf(rest).storyAt, rest, last, LIVE_KEY, LiveStoryAtOf);
    }
  }

  lemma MentionedIgnoresOrder(a: seq<Member>, b: seq<Member>, key: Key)
    requires multiset(a) == multiset(b)
    ensures Mentioned(a, key) ==> Mentioned(b, key)
  {
    if Mentioned(a, key) {
      var i :| 0 <= i < |a| && Mentions(a[i], key);
      assert a[i] in multiset(b);
    }
  }

  /** Reading the members in another order writes the same rows. */
  lemma TickIgnoresMemberOrder(g: Group, h: Group, rows: Rows, generated: set<Key>, key: Key)
    requires h == g.(members := h.members) && multiset(g.members) == multiset(h.members)
    ensures WriteFor(g, rows, generated, key) == WriteFor(h, rows, generated, key)
  {
    hide Union, LiveOf, BucketWrite, LiveWrite, Mentioned;
    UnionIgnoresOrder(g.members, h.members, key);
    LiveIgnoresOrder(g.members, h.members);
    MentionedIgnoresOrder(g.members, h.members, key);
    MentionedIgnoresOrder(h.members, g.members, key);
  }

  /** The LIVE row: seeded ready while some member is active, and only ever pushed forward; a ready one that
      has been generated becomes dirty exactly when it is. */
  lemma TickKeepsLiveCurrent(g: Group, rows: Rows, generated: set<Key>, after: Rows)
    requires IsReconciled(g, rows, generated, after)
    requires LiveOf(g.members).active && (LIVE_KEY in rows ==> !rows[LIVE_KEY].status.ARCHIVED?)
    ensures LIVE_KEY in after
    ensures var live, row := LiveOf(g.members), after[LIVE_KEY];
      && row.eventAt == MaxDate(if LIVE_KEY in rows then rows[LIVE_KEY].eventAt else None, live.eventAt)
      && row.receivedAt == MaxDate(if LIVE_KEY in rows then rows[LIVE_KEY].receivedAt else None, live.receivedAt)
      && row.storyAt == MaxDate(if LIVE_KEY in rows then rows[LIVE_KEY].storyAt else None, live.storyAt)
      && (LIVE_KEY !in rows ==> row.status == READY)
      && (LIVE_KEY in rows ==>
           row.eventCount == rows[LIVE_KEY].eventCount && row.storyCount == rows[LIVE_KEY].storyCount)
      && (LIVE_KEY in rows ==>
           if rows[LIVE_KEY].status == READY && LIVE_KEY in generated
           then (row.status == DIRTY <==> row.(status := READY) != rows[LIVE_KEY])
             && (row.status == READY <==> row == rows[LIVE_KEY])
           else row.status == rows[LIVE_KEY].status)
  {
    assert RowAt(after, LIVE_KEY) == Written(RowAt(rows, LIVE_KEY), WriteFor(g, rows, generated, LIVE_KEY));
  }

  // ---------------------------------------------------------------------------
  // The tick
  // ---------------------------------------------------------------------------

  function At(nonLive: map<Key, Aggregate>, key: Key): Aggregate {
    if key in nonLive then nonLive[key] else ZERO
  }

  /** `nonLive.set` on the key's aggregate, created on first use. */
  function SetAt(nonLive: map<Key, Aggregate>, key: Key, agg: Aggregate): (out: map<Key, Aggregate>)
    ensures forall k :: k in out <==> k in nonLive || k == key
    ensures forall k :: At(out, k) == if k == key then agg else At(nonLive, k)
  {
    nonLive[key := agg]
  }

  method FoldEvents(nonLive: map<Key, Aggregate>, events: map<Key, EventPart>) returns (out: map<Key, Aggregate>)
    ensures forall key :: key in out <==> key in nonLive || key in events
    ensures forall key ::
        At(out, key) == if key in events then WithEvents(At(nonLive, key), events[key]) else At(nonLive, key)
  {
    hide WithEvents, At, SetAt;
    out := nonLive;
    var todo := events.Keys;
    while todo != {}
      invariant todo <= events.Keys
      invariant forall key :: key in out <==> key in nonLive || (key in events && key !in todo)
      invariant forall key :: key in todo || key !in events ==> At(out, key) == At(nonLive, key)
      invariant forall key :: key in events && key !in todo ==>
          At(out, key) == WithEvents(At(nonLive, key), events[key])
      decreases |todo|
    {
      var key :| key in todo;
      out := SetAt(out, key, WithEvents(At(out, key), events[key]));
      todo := todo - {key};
    }
  }

  method FoldStories(nonLive: map<Key, Aggregate>, stories: map<Key, StoryPart>) returns (out: map<Key, Aggregate>)
    ensures forall key :: key in out <==> key in nonLive || key in stories
    ensures forall key ::
        At(out, key) == if key in stories then WithStories(At(nonLive, key), stories[key]) else At(nonLive, key)
  {
    hide WithStories, At, SetAt;
    out := nonLive;
    var todo := stories.Keys;
    while todo != {}
      invariant todo <= stories.Keys
      invariant forall key :: key in out <==> key in nonLive || (key in stories && key !in todo)
      invariant forall key :: key in todo || key !in stories ==> At(out, key) == At(nonLive, key)
      invariant forall key :: key in stories && key !in todo ==>
          At(out, key) == WithStories(At(nonLive, key), stories[key])
      decreases |todo|
    {
      var key :| key in todo;
      out := SetAt(out, key, WithStories(At(out, key), stories[key]));
      todo := todo - {key};
    }
  }

  predicate AllReadable(members: seq<Member>) {
    forall i :: 0 <= i < |members| ==> members[i].Readable?
  }

  lemma MentionedStep(members: seq<Member>, i: nat, key: Key)
    requires i < |members|
    ensures Mentioned(members[..i + 1], key) <==> Mentioned(members[..i], key) || Mentions(members[i], key)
  {
    var longer, shorter := members[..i + 1], members[..i];
    assert longer[i] == members[i];
    assert forall k :: 0 <= k < i ==> longer[k] == shorter[k];
  }

  /** Reading the members: any of them throwing stops the group before it has written anything. */
  lemma UnionStep(members: seq<Member>, i: nat, key: Key)
    requires i < |members|
    ensures Union(members[..i + 1], key) == WithMember(Union(members[..i], key), members[i], key)
  {
    hide WithMember;
    assert members[..i + 1][..i] == members[..i];
  }

  lemma TakenStep(members: seq<Member>, i: nat)
    requires i < |members|
    ensures LiveOf(members[..i + 1]) == WithLive(LiveOf(members[..i]), members[i])
    ensures AllReadable(members[..i + 1]) <==> AllReadable(members[..i]) && members[i].Readable?
  {
    hide WithLive;
    assert members[..i + 1][..i] == members[..i] && members[..i + 1] == members[..i] + [members[i]];
  }

  method ReadMembers(members: seq<Member>) returns (ok: bool, nonLive: map<Key, Aggregate>, live: LiveUnion)
    ensures ok <==> AllReadable(members)
    ensures ok ==> live == LiveOf(members)
    ensures ok ==>
        forall key :: (key in nonLive <==> Mentioned(members, key)) && At(nonLive, key) == Union(members, key)
  {
    hide WithEvents, WithStories, MaxDate;
    nonLive, live, ok := map[], NO_LIVE, true;
    assert forall key :: !Mentioned(members[..0], key) && At(nonLive, key) == Union(members[..0], key);
    assert AllReadable(members[..0]) && live == LiveOf(members[..0]);
    hide Mentioned, At, Union, LiveOf, WithLive;
    for i := 0 to |members|
      invariant AllReadable(members[..i])
      invariant live == LiveOf(members[..i])
      invariant forall key :: key in nonLive <==> Mentioned(members[..i], key)
      invariant forall key :: At(nonLive, key) == Union(members[..i], key)
    {
      var m := members[i];
      if m.Throws? { return false, map[], NO_LIVE; }
      var withEvents := FoldEvents(nonLive, m.events);
      var withStories := FoldStories(withEvents, m.stories);
      TakenStep(members, i);
      forall key
        ensures key in withStories <==> Mentioned(members[..i + 1], key)
        ensures At(withStories, key) == Union(members[..i + 1], key)
      {
        MentionedStep(members, i, key);
        UnionStep(members, i, key);
        assert At(nonLive, key) == Union(members[..i], key);
        assert key in nonLive <==> Mentioned(members[..i], key);
      }
      nonLive := withStories;
      live := WithLive(live, m);
    }
    assert members[..|members|] == members;
  }

  datatype Counts = Counts(seeded: nat, dirtied: nat, patched: nat)

  function Plus(a: Counts, b: Counts): Counts {
    Counts(a.seeded + b.seeded, a.dirtied + b.dirtied, a.patched + b.patched)
  }

  const NO_COUNTS := Counts(0, 0, 0)

  function CountOf(w: Write): Counts {
    match w
    case NoWrite => NO_COUNTS
    case Seed(_) => Counts(1, 0, 0)
    case Update(row) => if row.status.DIRTY? then Counts(0, 1, 0) else Counts(0, 0, 1)
  }

  function Seeds(g: Group, rows: Rows, generated: set<Key>, done: set<Key>): set<Key> {
    set key | key in done && WriteFor(g, rows, generated, key).Seed?
  }

  predicate Dirties(w: Write) {
    w.Update? && w.row.status.DIRTY?
  }

  function Dirtied(g: Group, rows: Rows, generated: set<Key>, done: set<Key>): set<Key> {
    set key | key in done && Dirties(WriteFor(g, rows, generated, key))
  }

  function Patched(g: Group, rows: Rows, generated: set<Key>, done: set<Key>): set<Key> {
    set key | key in done && WriteFor(g, rows, generated, key).Update? && !Dirties(WriteFor(g, rows, generated, key))
  }

  /** The counters of a tick: each statement it ran, counted once under its kind. */
  predicate CountsAre(g: Group, rows: Rows, generated: set<Key>, done: set<Key>, c: Counts) {
    && c.seeded == |Seeds(g, rows, generated, done)|
    && c.dirtied == |Dirtied(g, rows, generated, done)|
    && c.patched == |Patched(g, rows, generated, done)|
  }

  lemma CountNothing(g: Group, rows: Rows, generated: set<Key>)
    ensures CountsAre(g, rows, generated, {}, NO_COUNTS)
  {
    hide WriteFor;
  }

  lemma KindsOneMore(g: Group, rows: Rows, generated: set<Key>, done: set<Key>, key: Key)
    ensures var w, more := WriteFor(g, rows, generated, key), done + {key};
      && Seeds(g, rows, generated, more) == Seeds(g, rows, generated, done) + (if w.Seed? then {key} else {})
      && Dirtied(g, rows, generated, more) == Dirtied(g, rows, generated, done) + (if Dirties(w) then {key} else {})
      && Patched(g, rows, generated, more) ==
           Patched(g, rows, generated, done) + (if w.Update? && !Dirties(w) then {key} else {})
  {
    hide WriteFor, Dirties;
  }

  lemma CountParts(w: Write)
    ensures CountOf(w) ==
        Counts(if w.Seed? then 1 else 0, if Dirties(w) then 1 else 0, if w.Update? && !Dirties(w) then 1 else 0)
  {
  }

  lemma KindsAreDone(g: Group, rows: Rows, generated: set<Key>, done: set<Key>)
    ensures Seeds(g, rows, generated, done) <= done
    ensures Dirtied(g, rows, generated, done) <= done
    ensures Patched(g, rows, generated, done) <= done
  {
    hide WriteFor, Dirties;
  }

  lemma CountOneMore(g: Group, rows: Rows, generated: set<Key>, done: set<Key>, c: Counts, key: Key)
    requires CountsAre(g, rows, generated, done, c) && key !in done
    ensures CountsAre(g, rows, generated, done + {key}, Plus(c, CountOf(WriteFor(g, rows, generated, key))))
  {
    var w, more := WriteFor(g, rows, generated, key), done + {key};
    KindsOneMore(g, rows, generated, done, key);
    KindsAreDone(g, rows, generated, done);
    CountParts(w);
    hide WriteFor, Seeds, Dirtied, Patched, Dirties, CountOf;
    InsertIfNew(Seeds(g, rows, generated, done), Seeds(g, rows, generated, more), key, w.Seed?);
    InsertIfNew(Dirtied(g, rows, generated, done), Dirtied(g, rows, generated, more), key, Dirties(w));
    InsertIfNew(Patched(g, rows, generated, done), Patched(g, rows, generated, more), key, w.Update? && !Dirties(w));
  }

  /** The keys a group's tick visits. */
  function Visited(g: Group, rows: Rows): set<Key> {
    (set i, key | 0 <= i < |g.members| && g.members[i].Readable?
      && key in g.members[i].events.Keys + g.members[i].stories.Keys :: key)
    + (set key | key in rows && !rows[key].status.ARCHIVED? && !key.period.LIVE?)
    + {LIVE_KEY}
  }

  type States = map<(string, string), Rows>
  type Jobs = map<(string, string), set<Key>>

  function RowsIn(states: States, id: string, tz: string): Rows {
    if (id, tz) in states then states[(id, tz)] else map[]
  }

  function JobsIn(jobs: Jobs, id: string, tz: string): set<Key> {
    if (id, tz) in jobs then jobs[(id, tz)] else {}
  }

  function AfterSome(g: Group, existing: Rows, generated: set<Key>, done: set<Key>, key: Key): Option<StateRow> {
    if key in done then Written(RowAt(existing, key), WriteFor(g, existing, generated, key)) else RowAt(existing, key)
  }

  ghost predicate Executed(before: Rows, key: Key, w: Write, after: Rows) {
    forall k :: RowAt(after, k) == if k == key then Written(RowAt(before, k), w) else RowAt(before, k)
  }

  /** The rows part of the way through a tick: the visited ones written, the others as they were. */
  ghost predicate PartWay(g: Group, existing: Rows, generated: set<Key>, done: set<Key>, now: Rows) {
    forall k :: RowAt(now, k) == AfterSome(g, existing, generated, done, k)
  }

  lemma PartWayStart(g: Group, existing: Rows, generated: set<Key>)
    ensures PartWay(g, existing, generated, {}, existing)
  {
  }

  lemma PartWayStep(g: Group, existing: Rows, generated: set<Key>, done: set<Key>, now: Rows, key: Key, w: Write,
          next: Rows)
    requires PartWay(g, existing, generated, done, now) && key !in done
    requires w == WriteFor(g, existing, generated, key) && Executed(now, key, w, next)
    ensures PartWay(g, existing, generated, done + {key}, next)
  {
    hide WriteFor, RowAt, Written;
  }

  lemma BucketStatement(g: Group, rows: Rows, generated: set<Key>, key: Key)
    requires key != LIVE_KEY && IsCandidate(rows, g.members, key)
    ensures WriteFor(g, rows, generated, key)
         == BucketWrite(key, g.floors, RowAt(rows, key), Union(g.members, key), key in generated)
  {
  }

  lemma LiveStatement(g: Group, rows: Rows, generated: set<Key>)
    ensures WriteFor(g, rows, generated, LIVE_KEY)
         == LiveWrite(RowAt(rows, LIVE_KEY), LiveOf(g.members), LIVE_KEY in generated)
  {
  }

  lemma OtherStatement(g: Group, rows: Rows, generated: set<Key>, key: Key)
    requires key != LIVE_KEY && !IsCandidate(rows, g.members, key)
    ensures WriteFor(g, rows, generated, key) == NoWrite
    ensures Written(RowAt(rows, key), NoWrite) == RowAt(rows, key)
  {
  }

  lemma VisitedKeys(g: Group, rows: Rows, keys: set<Key>, mentioned: set<Key>)
    requires forall key :: key in mentioned <==> Mentioned(g.members, key)
    requires keys == mentioned + set key | key in rows && !rows[key].status.ARCHIVED? && !key.period.LIVE?
    ensures keys - {LIVE_KEY} + {LIVE_KEY} == Visited(g, rows)
  {
    forall key
      ensures key in keys || key == LIVE_KEY <==> key in Visited(g, rows)
    {
      if Mentioned(g.members, key) {
        var i :| 0 <= i < |g.members| && Mentions(g.members[i], key);
        assert key in g.members[i].events.Keys + g.members[i].stories.Keys;
      }
    }
  }

  /** Some statement the group needs throws. */
  ghost predicate Breaks(g: Group, rows: Rows, generated: set<Key>) {
    exists key :: key in g.failing && WriteFor(g, rows, generated, key) != NoWrite
  }

  /** The statements run one by one outside a transaction: a tick cut short leaves some rows as they were and
      the others as the whole tick would have. */
  ghost predicate Interrupted(g: Group, rows: Rows, generated: set<Key>, left: Rows) {
    forall key ::
      || RowAt(left, key) == RowAt(rows, key)
      || (key !in g.failing && RowAt(left, key) == Written(RowAt(rows, key), WriteFor(g, rows, generated, key)))
  }

  /** How far a tick has come: the rows, its counters, and no statement so far that would have thrown. */
  ghost predicate Progress(g: Group, existing: Rows, generated: set<Key>, done: set<Key>, now: Rows, c: Counts) {
    && PartWay(g, existing, generated, done, now)
    && CountsAre(g, existing, generated, done, c)
    && forall key :: key in done && key in g.failing ==> WriteFor(g, existing, generated, key) == NoWrite
  }

  lemma ProgressStart(g: Group, existing: Rows, generated: set<Key>)
    ensures Progress(g, existing, generated, {}, existing, NO_COUNTS)
  {
    hide WriteFor;
    CountNothing(g, existing, generated);
    PartWayStart(g, existing, generated);
  }

  lemma PartWayIsInterrupted(g: Group, rows: Rows, generated: set<Key>, done: set<Key>, now: Rows, c: Counts)
    requires Progress(g, rows, generated, done, now, c)
    ensures Interrupted(g, rows, generated, now)
  {
    hide WriteFor, RowAt;
  }

  /** Every member is read and every statement the group needs runs. */
  ghost predicate Succeeds(g: Group, states: States, jobs: Jobs) {
    AllReadable(g.members) && !Breaks(g, RowsIn(states, g.id, g.tz), JobsIn(jobs, g.id, g.tz))
  }

  /** What a tick leaves of one group: reconciled rows; the very rows it found, when a member cannot be read;
      or a part of the reconciliation. */
  ghost predicate Settled(g: Group, before: States, jobs: Jobs, after: States) {
    var rows, generated, left := RowsIn(before, g.id, g.tz), JobsIn(jobs, g.id, g.tz), RowsIn(after, g.id, g.tz);
    if !AllReadable(g.members) then left == rows
    else if Breaks(g, rows, generated) then Interrupted(g, rows, generated, left)
    else IsReconciled(g, rows, generated, left)
  }

  /** The counters of one group's tick; a tick that throws adds nothing to them. */
  ghost function CountsOfGroup(g: Group, states: States, jobs: Jobs): Counts {
    if !Succeeds(g, states, jobs) then NO_COUNTS
    else
      var rows, generated := RowsIn(states, g.id, g.tz), JobsIn(jobs, g.id, g.tz);
      var keys := Visited(g, rows);
      Counts(|Seeds(g, rows, generated, keys)|, |Dirtied(g, rows, generated, keys)|,
        |Patched(g, rows, generated, keys)|)
  }

  ghost function TotalCounts(groups: seq<Group>, states: States, jobs: Jobs): Counts {
    if groups == [] then NO_COUNTS
    else Plus(TotalCounts(groups[..|groups| - 1], states, jobs), CountsOfGroup(groups[|groups| - 1], states, jobs))
  }

  ghost function FailedGroups(groups: seq<Group>, states: States, jobs: Jobs): nat {
    if groups == [] then 0
    else
      FailedGroups(groups[..|groups| - 1], states, jobs) + if Succeeds(groups[|groups| - 1], states, jobs) then 0 else 1
  }

  /** A tick's `GroupReadinessOutcome`. */
  datatype Outcome = Outcome(groups: nat, groupsFailed: nat, counts: Counts)

  lemma BreaksAt(g: Group, rows: Rows, generated: set<Key>, key: Key)
    requires key in g.failing && WriteFor(g, rows, generated, key) != NoWrite
    ensures Breaks(g, rows, generated)
  {
  }

  lemma NothingBroke(g: Group, rows: Rows, generated: set<Key>, keys: set<Key>)
    requires forall key :: key in keys <==> IsCandidate(rows, g.members, key)
    requires forall key :: key in keys + {LIVE_KEY} && key in g.failing ==> WriteFor(g, rows, generated, key) == NoWrite
    ensures !Breaks(g, rows, generated)
  {
    hide WriteFor, IsCandidate;
    forall key | key in g.failing
      ensures WriteFor(g, rows, generated, key) == NoWrite
    {
      if key !in keys + {LIVE_KEY} { OtherStatement(g, rows, generated, key); }
    }
  }

  /** A group's tick depends only on its own rows ... */
  lemma SameStart(g: Group, a: States, b: States, jobs: Jobs, after: States)
    requires RowsIn(a, g.id, g.tz) == RowsIn(b, g.id, g.tz)
    ensures Settled(g, a, jobs, after) == Settled(g, b, jobs, after)
    ensures Succeeds(g, a, jobs) == Succeeds(g, b, jobs)
    ensures CountsOfGroup(g, a, jobs) == CountsOfGroup(g, b, jobs)
  {
    hide Seeds, Dirtied, Patched, Visited, IsReconciled, Interrupted, Breaks, AllReadable;
  }

  /** ... and writes only them. */
  lemma SameEnd(g: Group, before: States, jobs: Jobs, a: States, b: States)
    requires RowsIn(a, g.id, g.tz) == RowsIn(b, g.id, g.tz)
    ensures Settled(g, before, jobs, a) == Settled(g, before, jobs, b)
  {
    hide IsReconciled, Interrupted, Breaks, AllReadable;
  }

  /** No other group's rows, nor this one's under another timezone, have moved. */
  ghost predicate OthersKept(g: Group, before: States, after: States) {
    forall id, tz :: (id, tz) != (g.id, g.tz) ==> RowsIn(after, id, tz) == RowsIn(before, id, tz)
  }

  lemma OthersStart(g: Group, states: States)
    ensures OthersKept(g, states, states)
  {
  }

  lemma OthersKeptTwice(g: Group, a: States, b: States, c: States)
    requires OthersKept(g, a, b) && OthersKept(g, b, c)
    ensures OthersKept(g, a, c)
  {
  }

  /** What the loop over the buckets works on: the candidate keys, and the members' union at each. */
  ghost predicate Gathered(g: Group, existing: Rows, nonLive: map<Key, Aggregate>, keys: set<Key>) {
    && (forall key :: key in keys <==> IsCandidate(existing, g.members, key))
    && (forall key :: At(nonLive, key) == Union(g.members, key))
  }

  lemma GatheredAt(g: Group, existing: Rows, nonLive: map<Key, Aggregate>, keys: set<Key>, key: Key)
    requires Gathered(g, existing, nonLive, keys) && key in keys
    ensures IsCandidate(existing, g.members, key) && At(nonLive, key) == Union(g.members, key)
  {
    hide IsCandidate, At, Union;
  }

  /** A ready bucket with a processing or done job is due for another generation exactly when it changed. */
  predicate DueWhenChanged(g: Group, before: States, jobs: Jobs, after: States, key: Key) {
    (g.id, g.tz) in before && key in before[(g.id, g.tz)] && before[(g.id, g.tz)][key].status == READY ==>
      && (g.id, g.tz) in after && key in after[(g.id, g.tz)]
      && var was, now := before[(g.id, g.tz)][key], after[(g.id, g.tz)][key];
         now.status == if now.(status := READY) != was && (g.id, g.tz) in jobs && key in jobs[(g.id, g.tz)] then DIRTY
                       else READY
  }

  /** In the tables themselves: after a tick over readable members, a ready bucket with a processing or done
      job is due for another generation exactly when the tick changed it. */
  lemma ChangedBucketsAreRegenerated(g: Group, before: States, jobs: Jobs, after: States, key: Key)
    requires Settled(g, before, jobs, after) && Succeeds(g, before, jobs)
    ensures DueWhenChanged(g, before, jobs, after, key)
  {
    var rows, generated, left := RowsIn(before, g.id, g.tz), JobsIn(jobs, g.id, g.tz), RowsIn(after, g.id, g.tz);
    assert RowAt(left, key) == Written(RowAt(rows, key), WriteFor(g, rows, generated, key));
    hide Union, LiveOf, Mentioned, MaxDate, IsReconciled;
  }

  /** `periodic_report_state` by subject and timezone, and the buckets with a processing or done job. */
  class GroupTables {
    var states: States
    var jobs: Jobs

    function RowsOf(id: string, tz: string): Rows
      reads this
    {
      RowsIn(states, id, tz)
    }

    /** One statement; `WHERE` and `ON CONFLICT` confine it to its row. */
    method Execute(g: Group, key: Key, w: Write) returns (c: Counts)
      modifies this`states
      ensures c == CountOf(w)
      ensures Executed(old(RowsOf(g.id, g.tz)), key, w, RowsOf(g.id, g.tz))
      ensures OthersKept(g, old(states), states)
    {
      c := CountOf(w);
      if !w.NoWrite? {
        states := states[(g.id, g.tz) := RowsOf(g.id, g.tz)[key := w.row]];
      }
    }

    /** One more statement of the tick, and its counter. */
    method ExecuteNext(g: Group, ghost existing: Rows, ghost done: set<Key>, c: Counts, key: Key, w: Write)
      returns (sum: Counts)
      requires key !in done && w == WriteFor(g, existing, JobsIn(jobs, g.id, g.tz), key)
          && (key in g.failing ==> w == NoWrite)
      requires Progress(g, existing, JobsIn(jobs, g.id, g.tz), done, RowsOf(g.id, g.tz), c)
      modifies this`states
      ensures Progress(g, existing, JobsIn(jobs, g.id, g.tz), done + {key}, RowsOf(g.id, g.tz), sum)
      ensures OthersKept(g, old(states), states)
    {
      hide WriteFor, CountOf, CountsAre, RowAt, Plus, Executed, PartWay, RowsIn;
      CountOneMore(g, existing, JobsIn(jobs, g.id, g.tz), done, c, key);
      ghost var now := RowsOf(g.id, g.tz);
      var one := Execute(g, key, w);
      PartWayStep(g, existing, JobsIn(jobs, g.id, g.tz), done, now, key, w, RowsOf(g.id, g.tz));
      sum := Plus(c, one);
    }

    /** One pass of the loop over the non-LIVE keys. */
    method WriteBucket(g: Group, existing: Rows, nonLive: map<Key, Aggregate>, ghost done: set<Key>, c: Counts,
            key: Key)
      returns (ok: bool, sum: Counts)
      requires key !in done && key != LIVE_KEY && IsCandidate(existing, g.members, key)
          && At(nonLive, key) == Union(g.members, key)
      requires Progress(g, existing, JobsIn(jobs, g.id, g.tz), done, RowsOf(g.id, g.tz), c)
      modifies this`states
      ensures ok ==> Progress(g, existing, JobsIn(jobs, g.id, g.tz), done + {key}, RowsOf(g.id, g.tz), sum)
      ensures !ok ==>
          Breaks(g, existing, JobsIn(jobs, g.id, g.tz))
          && Interrupted(g, existing, JobsIn(jobs, g.id, g.tz), RowsOf(g.id, g.tz))
      ensures OthersKept(g, old(states), states)
    {
      hide WriteFor, Union, BucketWrite, IsCandidate, RowAt, At, RowsIn, Interrupted, Breaks, Progress;
      var generated := JobsIn(jobs, g.id, g.tz);
      BucketStatement(g, existing, generated, key);
      var w := BucketWrite(key, g.floors, RowAt(existing, key), At(nonLive, key), key in generated);
      if key in g.failing && w != NoWrite {
        PartWayIsInterrupted(g, existing, generated, done, RowsOf(g.id, g.tz), c);
        BreaksAt(g, existing, generated, key);
        return false, c;
      }
      sum := ExecuteNext(g, existing, done, c, key, w);
      ok := true;
    }

    /** The loop over the non-LIVE keys. */
    method WriteBuckets(g: Group, existing: Rows, nonLive: map<Key, Aggregate>, keys: set<Key>)
      returns (ok: bool, c: Counts)
      requires existing == RowsOf(g.id, g.tz)
      requires Gathered(g, existing, nonLive, keys)
      modifies this`states
      ensures ok ==> Progress(g, existing, JobsIn(jobs, g.id, g.tz), keys - {LIVE_KEY}, RowsOf(g.id, g.tz), c)
      ensures !ok ==>
          Breaks(g, existing, JobsIn(jobs, g.id, g.tz))
          && Interrupted(g, existing, JobsIn(jobs, g.id, g.tz), RowsOf(g.id, g.tz))
      ensures OthersKept(g, old(states), states)
    {
      hide *;
      var done: set<Key>, generated := {}, JobsIn(jobs, g.id, g.tz);
      var todo := keys - {LIVE_KEY};
      ok, c := true, NO_COUNTS;
      OthersStart(g, states);
      ProgressStart(g, RowsOf(g.id, g.tz), generated);
      while todo != {}
        invariant todo <= keys - {LIVE_KEY} && done == keys - {LIVE_KEY} - todo
        invariant Progress(g, existing, generated, done, RowsOf(g.id, g.tz), c)
        invariant OthersKept(g, old(states), states)
        decreases |todo|
      {
        var key :| key in todo;
        GatheredAt(g, existing, nonLive, keys, key);
        ghost var before := states;
        ok, c := WriteBucket(g, existing, nonLive, done, c, key);
        OthersKeptTwice(g, old(states), before, states);
        if !ok { return; }
        todo, done := todo - {key}, done + {key};
      }
      assert done == keys - {LIVE_KEY};
    }

    /** `reconcileGroup`. */
    method ReconcileGroup(g: Group) returns (ok: bool, c: Counts)
      modifies this`states
      ensures ok <==> Succeeds(g, old(states), jobs)
      ensures !AllReadable(g.members) ==> states == old(states)
      ensures !ok ==> c == NO_COUNTS
      ensures c == CountsOfGroup(g, old(states), jobs)
      ensures Settled(g, old(states), jobs, states)
      ensures ok ==> forall key :: DueWhenChanged(g, old(states), jobs, states, key)
      ensures OthersKept(g, old(states), states)
    {
      hide DueWhenChanged;
      hide WriteFor, Union, LiveOf, LiveWrite, CountOf, RowAt, Written, At, Plus, Visited, Mentioned, Seeds, Dirtied,
        Patched, AllReadable, Interrupted;
      var nonLive: map<Key, Aggregate>, live: LiveUnion;
      ok, nonLive, live := ReadMembers(g.members);
      c := NO_COUNTS;
      if !ok { return; }
      var existing, generated := RowsOf(g.id, g.tz), JobsIn(jobs, g.id, g.tz);
      var keys := nonLive.Keys + set key | key in existing && !existing[key].status.ARCHIVED? && !key.period.LIVE?;
      var counted: Counts;
      assert Gathered(g, existing, nonLive, keys);
      ok, counted := WriteBuckets(g, existing, nonLive, keys);
      if !ok { return; }
      LiveStatement(g, existing, generated);
      var w := LiveWrite(RowAt(existing, LIVE_KEY), live, LIVE_KEY in generated);
      if LIVE_KEY in g.failing && w != NoWrite {
        PartWayIsInterrupted(g, existing, generated, keys - {LIVE_KEY}, RowsOf(g.id, g.tz), counted);
        return false, NO_COUNTS;
      }
      CountOneMore(g, existing, generated, keys - {LIVE_KEY}, counted, LIVE_KEY);
      var one := Execute(g, LIVE_KEY, w);
      c := Plus(counted, one);
      VisitedKeys(g, existing, keys, nonLive.Keys);
      forall key
        ensures RowAt(RowsOf(g.id, g.tz), key) == Written(RowAt(existing, key), WriteFor(g, existing, generated, key))
      {
        if key !in keys && key != LIVE_KEY { OtherStatement(g, existing, generated, key); }
      }
      NothingBroke(g, existing, generated, keys);
      forall key
        ensures DueWhenChanged(g, old(states), jobs, states, key)
      {
        ChangedBucketsAreRegenerated(g, old(states), jobs, states, key);
      }
    }

    /** `tickGroupReadiness`: a group whose reconcile throws is counted and skipped; every other group is
        reconciled from its own rows, as if it were alone. */
    method TickGroupReadiness(groups: seq<Group>) returns (out: Outcome)
      requires forall i, j :: 0 <= i < j < |groups| ==> groups[i].id != groups[j].id
      modifies this`states
      ensures out == Outcome(|groups|, FailedGroups(groups, old(states), jobs), TotalCounts(groups, old(states), jobs))
      ensures forall i :: 0 <= i < |groups| ==> Settled(groups[i], old(states), jobs, states)
      ensures forall id, tz :: (forall i :: 0 <= i < |groups| ==> groups[i].id != id) ==>
          RowsIn(states, id, tz) == RowsIn(old(states), id, tz)
    {
      hide Settled, CountsOfGroup, RowsIn, AllReadable, Succeeds, DueWhenChanged;
      var failed, c := 0, NO_COUNTS;
      for i := 0 to |groups|
        invariant failed == FailedGroups(groups[..i], old(states), jobs)
        invariant c == TotalCounts(groups[..i], old(states), jobs)
        invariant forall k :: 0 <= k < i ==> Settled(groups[k], old(states), jobs, states)
        invariant forall id, tz :: (forall k :: 0 <= k < i ==> groups[k].id != id) ==>
            RowsIn(states, id, tz) == RowsIn(old(states), id, tz)
      {
        var g := groups[i];
        ghost var before := states;
        assert RowsOf(g.id, g.tz) == old(RowsOf(g.id, g.tz));
        var ok, one := ReconcileGroup(g);
        SameStart(g, old(states), before, jobs, states);
        forall k | 0 <= k < i
          ensures Settled(groups[k], old(states), jobs, states)
        {
          SameEnd(groups[k], old(states), jobs, before, states);
        }
        if ok {
          c := Plus(c, one);
        } else {
          failed := failed + 1;
        }
        assert groups[..i + 1][..i] == groups[..i];
      }
      assert groups[..|groups|] == groups;
      out := Outcome(|groups|, failed, c);
    }
  }

  lemma WhatAWriteChanges(g: Group, rows: Rows, generated: set<Key>, after: Rows, key: Key)
    requires IsReconciled(g, rows, generated, after)
    ensures var w := WriteFor(g, rows, generated, key);
            && (w.Seed? <==> key in after && key !in rows)
            && (w.Update? <==> key in rows && key in after && after[key] != rows[key])
            && (w.Update? ==> w.row == after[key])
            && (key in rows ==> key in after)
            && (w != NoWrite ==> key in Visited(g, rows))
  {
    hide Union, LiveOf;
    assert RowAt(after, key) == Written(RowAt(rows, key), WriteFor(g, rows, generated, key));
    if Mentioned(g.members, key) {
      var i :| 0 <= i < |g.members| && Mentions(g.members[i], key);
      assert key in g.members[i].events.Keys + g.members[i].stories.Keys;
    }
  }

  /** The counters of a group's tick tell its effect: the rows that appeared, those that changed and are dirty
      now, and those that changed otherwise. */
  lemma CountersTellTheRows(g: Group, states: States, jobs: Jobs, after: Rows)
    requires Succeeds(g, states, jobs)
    requires IsReconciled(g, RowsIn(states, g.id, g.tz), JobsIn(jobs, g.id, g.tz), after)
    ensures var rows, c := RowsIn(states, g.id, g.tz), CountsOfGroup(g, states, jobs);
            && c.seeded == |set key | key in after && key !in rows|
            && c.dirtied
               == |set key | key in after && key in rows && after[key] != rows[key] && after[key].status == DIRTY|
            && c.patched
               == |set key | key in after && key in rows && after[key] != rows[key] && after[key].status != DIRTY|
  {
    hide WriteFor, IsReconciled, Visited, RowsIn, JobsIn, Succeeds;
    var rows, generated := RowsIn(states, g.id, g.tz), JobsIn(jobs, g.id, g.tz);
    var keys := Visited(g, rows);
    forall key
      ensures var w := WriteFor(g, rows, generated, key);
        && (w.Seed? <==> key in after && key !in rows)
        && (w.Update? <==> key in rows && key in after && after[key] != rows[key])
        && (w.Update? ==> w.row == after[key])
        && (w != NoWrite ==> key in keys)
    {
      WhatAWriteChanges(g, rows, generated, after, key);
    }
    assert Seeds(g, rows, generated, keys) == set key | key in after && key !in rows;
    assert Dirtied(g, rows, generated, keys)
      == set key | key in after && key in rows && after[key] != rows[key] && after[key].status == DIRTY;
    assert Patched(g, rows, generated, keys)
      == set key | key in after && key in rows && after[key] != rows[key] && after[key].status != DIRTY;
  }

  lemma IdleCounts(g: Group, states: States, jobs: Jobs)
    requires IsIdle(g, RowsIn(states, g.id, g.tz), JobsIn(jobs, g.id, g.tz))
    ensures CountsOfGroup(g, states, jobs) == NO_COUNTS
  {
    hide WriteFor, Visited;
    var rows, generated := RowsIn(states, g.id, g.tz), JobsIn(jobs, g.id, g.tz);
    var done := Visited(g, rows);
    assert Seeds(g, rows, generated, done) == {} && Dirtied(g, rows, generated, done) == {}
      && Patched(g, rows, generated, done) == {};
  }

  /** A whole second tick, over the same groups and unchanged members, writes nothing at all, however many
      jobs have started or finished since: no readable group broke off in the first. */
  lemma {:induction false} SecondTickWritesNothing(groups: seq<Group>, before: States, jobs: Jobs, after: States,
          later: Jobs)
    requires forall i :: 0 <= i < |groups| ==> Settled(groups[i], before, jobs, after)
    requires forall i :: 0 <= i < |groups| && AllReadable(groups[i].members) ==> Succeeds(groups[i], before, jobs)
    ensures TotalCounts(groups, after, later) == NO_COUNTS
  {
    hide IsReconciled, IsIdle, RowsIn, JobsIn, Breaks, Interrupted;
    if groups != [] {
      var g := groups[|groups| - 1];
      SecondTickWritesNothing(groups[..|groups| - 1], before, jobs, after, later);
      if AllReadable(g.members) {
        SecondTickIsIdle(g, RowsIn(before, g.id, g.tz), JobsIn(jobs, g.id, g.tz), RowsIn(after, g.id, g.tz),
          JobsIn(later, g.id, g.tz));
        IdleCounts(g, after, later);
      }
    }
  }

  lemma KeyCompletes(g: Group, rows: Rows, generated: set<Key>, left: Rows, after: Rows, key: Key)
    requires Interrupted(g, rows, generated, left) && IsReconciled(g, left, generated, after)
    ensures RowAt(after, key) == Written(RowAt(rows, key), WriteFor(g, rows, generated, key))
  {
    hide Union, LiveOf, Mentioned;
    assert RowAt(after, key) == Written(RowAt(left, key), WriteFor(g, left, generated, key));
    if RowAt(left, key) != RowAt(rows, key) {
      assert RowAt(left, key) == Written(RowAt(rows, key), WriteFor(g, rows, generated, key));
    }
  }

  /** What a broken-off tick left undone the next one does: together they leave exactly the rows an unbroken
      tick would have left. */
  lemma NextTickCompletes(g: Group, rows: Rows, generated: set<Key>, left: Rows, after: Rows)
    requires Interrupted(g, rows, generated, left) && IsReconciled(g, left, generated, after)
    ensures IsReconciled(g, rows, generated, after)
  {
    forall key
      ensures RowAt(after, key) == Written(RowAt(rows, key), WriteFor(g, rows, generated, key))
    {
      KeyCompletes(g, rows, generated, left, after, key);
    }
  }
}

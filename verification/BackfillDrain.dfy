/** The drain signal read back against a finished run.

    `src/lib/analysis/event-leaf-drain.ts` tallies the customer database alone; this module connects that
    tally to the counters the run kept. */
module BackfillDrain {
  import opened Common
  import opened BackfillPlan
  import opened BackfillStore

  /** The category a recorded outcome says its event now has. */
  function CategoryAfter(o: Outcome): Category {
    match o
    case Reanalyzed => Current
    case AlreadyCurrent => Current
    case SourceUnavailable => Swept
    case Failed => Reanalyzable
    case CapExcluded => Reanalyzable
  }

  /** The universe is still the same events, every recorded outcome is true of it, and events the run
      did not touch have not become outstanding nor, beyond the cap, been served elsewhere. */
  ghost predicate OutcomesHold(before: seq<Member>, t: Tables, r: RunId, after: seq<Member>) {
    && |after| == |before|
    && (forall i :: 0 <= i < |before| ==> after[i].id == before[i].id)
    && (forall i :: 0 <= i < |before| && CategoryOf(before[i]) != Reanalyzable ==> CategoryOf(after[i]) != Reanalyzable)
    && (forall i :: 0 <= i < |before| && CategoryOf(before[i]) == Reanalyzable ==>
          var k := ItemKey(r, before[i].id);
          if k in t.items && t.items[k].status.Done?
          then CategoryOf(after[i]) == CategoryAfter(t.items[k].status.outcome)
          else CategoryOf(after[i]) == Reanalyzable)
  }

  function IdSet(members: seq<Member>): set<EventId> {
    set m | m in members :: m.id
  }

  lemma IdSetSnoc(front: seq<Member>, last: Member)
    ensures IdSet(front + [last]) == IdSet(front) + {last.id}
    ensures (forall i :: 0 <= i < |front| ==> front[i].id != last.id) ==> last.id !in IdSet(front)
  {
  }

  lemma {:induction false} IdSetSize(members: seq<Member>)
    requires DistinctIds(members)
    ensures |IdSet(members)| == |members|
  {
    if members == [] {
      assert IdSet(members) == {};
    } else {
      var front, last := members[..|members| - 1], members[|members| - 1];
      IdSetSize(front);
      IdSetSnoc(front, last);
      assert members == front + [last];
      forall i | 0 <= i < |front|
        ensures front[i].id != last.id
      {
        assert members[i].id == front[i].id;
      }
      hide IdSet;
      InsertGrowsByOne(IdSet(front), IdSet(members), last.id);
    }
  }

  lemma {:induction false} SelectDistinct(members: seq<Member>, c: Category)
    requires DistinctIds(members)
    ensures DistinctIds(Select(members, c))
  {
    if members != [] {
      var front, last := members[..|members| - 1], members[|members| - 1];
      SelectDistinct(front, c);
      SelectMembers(front, c);
      forall m | m in Select(front, c)
        ensures m.id != last.id
      {
        var i :| 0 <= i < |front| && front[i] == m;
        assert members[i] == m;
      }
    }
  }

  /** The events a member sequence leaves outstanding. */
  lemma OutstandingIds(members: seq<Member>)
    requires DistinctIds(members)
    ensures |IdSet(Select(members, Reanalyzable))| == TallyOf(members).outstanding
  {
    SelectDistinct(members, Reanalyzable);
    IdSetSize(Select(members, Reanalyzable));
  }

  ghost function EventsWith(t: Tables, r: RunId, o: Outcome): set<EventId> {
    set k | k in WithStatus(t, r, Done(o)) :: k.event
  }

  lemma EventsWithSize(t: Tables, r: RunId, o: Outcome)
    ensures |EventsWith(t, r, o)| == |WithStatus(t, r, Done(o))|
  {
    KeySet(r, EventsWith(t, r, o));
    var keys := set e | e in EventsWith(t, r, o) :: ItemKey(r, e);
    forall k | k in WithStatus(t, r, Done(o))
      ensures k in keys
    {
      assert k.event in EventsWith(t, r, o) && ItemKey(r, k.event) == k;
    }
    assert keys == WithStatus(t, r, Done(o));
  }

  lemma WorkIsOutstanding(before: seq<Member>, maxItems: Option<int>, id: EventId)
    requires id in PlanOf(before, maxItems).workItems
    ensures id in IdSet(Select(before, Reanalyzable))
  {
    var work, all := PlanOf(before, maxItems).workItems, Select(before, Reanalyzable);
    var i :| 0 <= i < |work| && work[i] == id;
    assert all[i].id == id;
  }

  lemma WorkSizes(before: seq<Member>, maxItems: Option<int>)
    requires DistinctIds(before)
    ensures var plan := PlanOf(before, maxItems);
      && |set event | event in plan.workItems| == |plan.workItems|
      && |IdSet(Select(before, Reanalyzable))| == |plan.workItems| + plan.counts.capExcluded
  {
    SelectDistinct(before, Reanalyzable);
    IdSetSize(Select(before, Reanalyzable));
    IdsAsSet(PlanOf(before, maxItems).workItems);
  }

  lemma BeyondCapSize(before: seq<Member>, maxItems: Option<int>, work: set<EventId>)
    requires DistinctIds(before)
    requires work == set event | event in PlanOf(before, maxItems).workItems
    ensures work <= IdSet(Select(before, Reanalyzable))
    ensures |IdSet(Select(before, Reanalyzable)) - work| == PlanOf(before, maxItems).counts.capExcluded
  {
    hide *;
    forall id | id in work
      ensures id in IdSet(Select(before, Reanalyzable))
    {
      WorkIsOutstanding(before, maxItems, id);
    }
    WorkSizes(before, maxItems);
    DisjointSizes(IdSet(Select(before, Reanalyzable)), work, IdSet(Select(before, Reanalyzable)) - work);
  }

  lemma InEventsWith(t: Tables, r: RunId, o: Outcome, id: EventId)
    ensures id in EventsWith(t, r, o) <==> ItemIs(t, r, id, Done(o))
  {
    assert ItemKey(r, id) in WithStatus(t, r, Done(o)) <==> ItemIs(t, r, id, Done(o));
  }

  lemma InIdSet(members: seq<Member>, i: nat)
    requires DistinctIds(members) && i < |members|
    ensures members[i].id in IdSet(Select(members, Reanalyzable)) <==> CategoryOf(members[i]) == Reanalyzable
  {
    SelectMembers(members, Reanalyzable);
    if members[i].id in IdSet(Select(members, Reanalyzable)) {
      var m :| m in Select(members, Reanalyzable) && m.id == members[i].id;
      UniqueById(members, m, members[i]);
    }
  }

  lemma InMembers(members: seq<Member>, id: EventId) returns (i: nat)
    requires id in IdSet(Select(members, Reanalyzable))
    ensures i < |members| && members[i].id == id
  {
    SelectMembers(members, Reanalyzable);
    var m :| m in Select(members, Reanalyzable) && m.id == id;
    i :| 0 <= i < |members| && members[i] == m;
  }

  lemma StillOutstanding(before: seq<Member>, t: Tables, r: RunId, after: seq<Member>, plan: Plan, work: set<EventId>)
    requires DistinctIds(before) && OutcomesHold(before, t, r, after) && Unfinished(t, r) == {}
    requires work == (set event | event in plan.workItems) && work <= IdSet(Select(before, Reanalyzable))
    requires ItemsOf(t, r) == set event | event in plan.workItems :: ItemKey(r, event)
    ensures IdSet(Select(after, Reanalyzable))
            == EventsWith(t, r, Failed) + EventsWith(t, r, CapExcluded) + (IdSet(Select(before, Reanalyzable)) - work)
    ensures EventsWith(t, r, Failed) + EventsWith(t, r, CapExcluded) <= work
  {
    forall k | k in t.items && k.run == r
      ensures k.event in work && t.items[k].status.Done?
    {
      assert k in ItemsOf(t, r) && k !in Unfinished(t, r);
    }
    var was, now := IdSet(Select(before, Reanalyzable)), IdSet(Select(after, Reanalyzable));
    forall id | id in was + now
      ensures id in now <==>
          ItemIs(t, r, id, Done(Failed)) || ItemIs(t, r, id, Done(CapExcluded)) || (id in was && id !in work)
    {
      var i: nat;
      if id in was { i := InMembers(before, id); } else { i := InMembers(after, id); }
      InIdSet(before, i);
      InIdSet(after, i);
      assert id in work ==> ItemKey(r, id) in ItemsOf(t, r);
    }
    forall id
      ensures id in EventsWith(t, r, Failed) <==> ItemIs(t, r, id, Done(Failed))
      ensures id in EventsWith(t, r, CapExcluded) <==> ItemIs(t, r, id, Done(CapExcluded))
    {
      InEventsWith(t, r, Failed, id);
      InEventsWith(t, r, CapExcluded, id);
    }
  }

  lemma OutcomesKeepIds(before: seq<Member>, t: Tables, r: RunId, after: seq<Member>)
    requires DistinctIds(before) && OutcomesHold(before, t, r, after)
    ensures DistinctIds(after)
  {
  }

  lemma FailedIsNotExcluded(t: Tables, r: RunId)
    ensures EventsWith(t, r, Failed) !! EventsWith(t, r, CapExcluded)
  {
    forall id
      ensures id !in EventsWith(t, r, Failed) || id !in EventsWith(t, r, CapExcluded)
    {
      InEventsWith(t, r, Failed, id);
      InEventsWith(t, r, CapExcluded, id);
    }
  }

  /** Failed and excluded events and those the cap left out are apart, so their numbers add up. */
  lemma OutstandingSize(t: Tables, r: RunId, outstanding: set<EventId>, beyondCap: set<EventId>, work: set<EventId>)
    requires outstanding == EventsWith(t, r, Failed) + EventsWith(t, r, CapExcluded) + beyondCap
    requires EventsWith(t, r, Failed) + EventsWith(t, r, CapExcluded) <= work && beyondCap !! work
    ensures |outstanding| == |WithStatus(t, r, Done(Failed))| + |WithStatus(t, r, Done(CapExcluded))| + |beyondCap|
  {
    EventsWithSize(t, r, Failed);
    EventsWithSize(t, r, CapExcluded);
    FailedIsNotExcluded(t, r);
    hide EventsWith, WithStatus;
    var retried := EventsWith(t, r, Failed) + EventsWith(t, r, CapExcluded);
    DisjointSizes(retried, EventsWith(t, r, Failed), EventsWith(t, r, CapExcluded));
    DisjointSizes(outstanding, retried, beyondCap);
  }

  /** Once a run has no unfinished items and its outcomes are true of the universe, a fresh tally of the
      customer database is exactly what the run reported: its failed plus its cap-excluded events. */
  lemma RetallyAgreesWithRun(t: Tables, create: Step, steps: seq<Step>, after: seq<Member>)
    requires create.Create? && Inserts(t, create) && Invariant(t) && Legal(Apply(t, create), steps)
    requires DistinctIds(create.members)
    requires var t' := Exec(Apply(t, create), steps);
             Unfinished(t', create.id) == {} && OutcomesHold(create.members, t', create.id, after)
    ensures var t' := Exec(Apply(t, create), steps);
            && create.id in t'.runs
            && TallyOf(after).outstanding == t'.runs[create.id].failed + t'.runs[create.id].capExcluded
  {
    hide Apply, Exec, PlanOf, WithStatus, ItemsOf, Invariant, OutcomesHold, EventsWith, IdSet, TallyOf, Select, Legal,
      Inserts, Unfinished, DistinctIds;
    var t', before, plan, r :=
      Exec(Apply(t, create), steps), create.members, PlanOf(create.members, create.maxItems), create.id;
    CounterIsSeedPlusItems(t, create, steps, Failed);
    CounterIsSeedPlusItems(t, create, steps, CapExcluded);
    OutcomesKeepIds(before, t', r, after);
    OutstandingIds(after);
    var work := set event | event in plan.workItems;
    BeyondCapSize(before, create.maxItems, work);
    StillOutstanding(before, t', r, after, plan, work);
    OutstandingSize(t', r, IdSet(Select(after, Reanalyzable)), IdSet(Select(before, Reanalyzable)) - work, work);
  }
}

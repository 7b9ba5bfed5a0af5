/** Leases on the mutual-TLS client state and its reload protocol.

    `src/lib/mtls.ts`. A step is one await-free segment of the module, or the settling of the build the
    lifecycle queue is waiting for. The clock counts steps, so "read the disk at time n" and "called at
    time n" are comparable. */
module MtlsLeases {
  import opened Common

  type LeaseId = nat

  /** An installed state: its reference count, whether a reload replaced it, how often its agent's
      `close()` was started, and when its build read the disk. */
  datatype Entry = Entry(refCount: int, retired: bool, closes: nat, readAt: nat)

  /** `Signing` holds the lease while the token is signed; `Held` is an auth handed to the caller;
      `Returned` is an auth whose `release()` ran, or whose signing failed. */
  datatype LeasePhase = Signing | Held | Returned

  datatype Lease = Lease(state: nat, phase: LeasePhase)

  datatype Job = InitJob(lease: LeaseId) | ReloadJob

  datatype Phase = Idle | Building(readAt: nat, previous: Option<nat>)

  /** `states` lists every state ever installed, oldest first. `waiting` holds the call times of the
      `reload()` calls that share the pending promise. */
  datatype Model = Model(
    states: seq<Entry>,
    current: Option<nat>,
    queue: seq<Job>,
    phase: Phase,
    pending: bool,
    dirty: bool,
    waiting: seq<nat>,
    leases: map<LeaseId, Lease>,
    clock: nat)

  const INITIAL := Model([], None, [], Idle, false, false, [], map[], 0)

  datatype Step =
    | AcquireFast(lease: LeaseId)
    | EnqueueInit(lease: LeaseId)
    | Reload
    | StartJob
    | BuildSucceeds
    | BuildFails
    | SignSucceeds(lease: LeaseId)
    | SignFails(lease: LeaseId)
    | Release(lease: LeaseId)

  predicate Unused(m: Model, l: LeaseId) {
    l !in m.leases && InitJob(l) !in m.queue
  }

  predicate Enabled(m: Model, s: Step) {
    match s
    case AcquireFast(l) => m.current.Some? && Unused(m, l)
    case EnqueueInit(l) => m.current.None? && Unused(m, l)
    case Reload => true
    case StartJob => m.queue != [] && m.phase.Idle?
    case BuildSucceeds => m.phase.Building?
    case BuildFails => m.phase.Building?
    case SignSucceeds(l) => l in m.leases && m.leases[l].phase.Signing?
    case SignFails(l) => l in m.leases && m.leases[l].phase.Signing?
    case Release(l) => l in m.leases && !m.leases[l].phase.Signing?
  }

  function Acquired(e: Entry): Entry {
    e.(refCount := e.refCount + 1)
  }

  /** `releaseState`: drop one reference and close a retired agent whose count reaches zero. */
  function Released(e: Entry): Entry {
    var left := e.(refCount := e.refCount - 1);
    if left.retired && left.refCount == 0 then left.(closes := left.closes + 1) else left
  }

  function Touch(m: Model, i: nat, e: Entry): Model {
    if i < |m.states| then m.(states := m.states[i := e]) else m
  }

  function GiveLease(m: Model, l: LeaseId, i: nat): Model {
    if i < |m.states| then Touch(m, i, Acquired(m.states[i])).(leases := m.leases[l := Lease(i, Signing)]) else m
  }

  function DropLease(m: Model, l: LeaseId): Model
    requires l in m.leases
  {
    var i := m.leases[l].state;
    (if i < |m.states| then Touch(m, i, Released(m.states[i])) else m).(leases := m.leases[l := Lease(i, Returned)])
  }

  /** The synchronous tail of a reload iteration: install, then retire and release what was replaced. */
  function Install(m: Model, readAt: nat, previous: Option<nat>): Model {
    var grown := m.(states := m.states + [Entry(1, false, 0, readAt)], current := Some(|m.states|));
    if previous.Some? && previous.value < |m.states|
    then Touch(grown, previous.value, Released(m.states[previous.value].(retired := true)))
    else grown
  }

  function EndJob(m: Model): Model {
    m.(queue := if m.queue == [] then [] else m.queue[1..], phase := Idle)
  }

  function EndReload(m: Model): Model {
    EndJob(m).(pending := false, waiting := [])
  }

  function Reloading(m: Model): Model {
    if m.pending then m.(dirty := true, waiting := m.waiting + [m.clock])
    else m.(queue := m.queue + [ReloadJob], pending := true, waiting := [m.clock])
  }

  /** The head job starts: a first-use job finds a state or reads the disk, a reload always reads it. */
  function Started(m: Model): Model
    requires m.queue != []
  {
    if m.queue[0].ReloadJob? then m.(dirty := false, phase := Building(m.clock, m.current))
    else if m.current.Some? then EndJob(GiveLease(m, m.queue[0].lease, m.current.value))
    else m.(phase := Building(m.clock, None))
  }

  /** The build settled: install it, and let a dirty reload go round again. */
  function Built(m: Model): Model
    requires m.phase.Building?
  {
    var installed := Install(m, m.phase.readAt, m.phase.previous);
    if m.queue == [] then m
    else if m.queue[0].InitJob? then EndJob(GiveLease(installed, m.queue[0].lease, |m.states|))
    else if m.dirty then installed.(dirty := false, phase := Building(m.clock, Some(|m.states|)))
    else EndReload(installed)
  }

  function Failed(m: Model): Model {
    if m.queue == [] then m
    else if m.queue[0].InitJob? then EndJob(m)
    else EndReload(m)
  }

  function Tick(m: Model): Model {
    m.(clock := m.clock + 1)
  }

  function Apply(m: Model, s: Step): Model
    requires Enabled(m, s)
  {
    Tick(match s
         case AcquireFast(l) => GiveLease(m, l, m.current.value)
         case EnqueueInit(l) => m.(queue := m.queue + [InitJob(l)])
         case Reload => Reloading(m)
         case StartJob => Started(m)
         case BuildSucceeds => Built(m)
         case BuildFails => Failed(m)
         case SignSucceeds(l) => m.(leases := m.leases[l := m.leases[l].(phase := Held)])
         case SignFails(l) => DropLease(m, l)
         case Release(l) => if m.leases[l].phase.Returned? then m else DropLease(m, l))
  }

  // ---------------------------------------------------------------------------
  // Invariant
  // ---------------------------------------------------------------------------

  ghost function LeasesOn(m: Model, i: nat): set<LeaseId> {
    set l | l in m.leases && m.leases[l].state == i && !m.leases[l].phase.Returned?
  }

  /** The reference count is the structural reference of the installed state plus its leases, an agent's
      close has started exactly when it is retired and unreferenced, and only once. */
  ghost predicate CountsReferences(m: Model) {
    forall i :: 0 <= i < |m.states| ==>
      var e := m.states[i];
      && e.refCount == (if m.current == Some(i) then 1 else 0) + |LeasesOn(m, i)|
      && (e.retired <==> m.current != Some(i))
      && e.closes == (if e.retired && e.refCount == 0 then 1 else 0)
  }

  /** Disk reads happen in installation order, and a build in flight read later than all of them. */
  ghost predicate ReadsInOrder(m: Model) {
    && (forall i, j :: 0 <= i < j < |m.states| ==> m.states[i].readAt < m.states[j].readAt)
    && (forall i :: 0 <= i < |m.states| ==> m.states[i].readAt < m.clock)
    && (m.phase.Building? ==>
          && m.phase.readAt < m.clock
          && forall i :: 0 <= i < |m.states| ==> m.states[i].readAt < m.phase.readAt)
  }

  /** One writer: a build in flight belongs to the head of the queue and captured the installed state. */
  ghost predicate SingleWriter(m: Model) {
    && m.current == (if m.states == [] then None else Some(|m.states| - 1))
    && (m.phase.Building? ==> m.queue != [] && m.phase.previous == m.current)
    && (m.phase.Building? && m.queue[0].InitJob? ==> m.current.None?)
  }

  ghost predicate OneReload(m: Model) {
    && (m.pending <==> ReloadJob in m.queue)
    && (forall i, j :: 0 <= i < j < |m.queue| ==> !(m.queue[i].ReloadJob? && m.queue[j].ReloadJob?))
    && (!m.pending ==> m.waiting == [])
  }

  /** A caller waiting on a reload that is past its disk read has the dirty flag to thank. */
  ghost predicate WaitersAreServed(m: Model) {
    && (forall w :: w in m.waiting ==> w < m.clock)
    && (m.phase.Building? && m.queue != [] && m.queue[0].ReloadJob? && !m.dirty ==>
         forall w :: w in m.waiting ==> w < m.phase.readAt)
  }

  ghost predicate LeaseIdsAreFresh(m: Model) {
    && (forall l :: l in m.leases ==> m.leases[l].state < |m.states| && InitJob(l) !in m.queue)
    && (forall i, j :: 0 <= i < j < |m.queue| && m.queue[i].InitJob? ==> m.queue[i] != m.queue[j])
  }

  ghost predicate Invariant(m: Model) {
    CountsReferences(m) && ReadsInOrder(m) && SingleWriter(m) && OneReload(m) && WaitersAreServed(m)
      && LeaseIdsAreFresh(m)
  }

  lemma GiveLeaseAdds(m: Model, l: LeaseId, i: nat, j: nat)
    requires i < |m.states| && l !in m.leases
    ensures |LeasesOn(GiveLease(m, l, i), j)| == |LeasesOn(m, j)| + (if j == i then 1 else 0)
  {
    var m' := GiveLease(m, l, i);
    if j == i {
      InsertGrowsByOne(LeasesOn(m, j), LeasesOn(m', j), l);
    } else {
      assert LeasesOn(m', j) == LeasesOn(m, j);
    }
  }

  lemma GiveLeaseCounts(m: Model, l: LeaseId, i: nat)
    requires CountsReferences(m) && i < |m.states| && l !in m.leases && m.current == Some(i)
    ensures CountsReferences(GiveLease(m, l, i))
  {
    var m' := GiveLease(m, l, i);
    forall j | 0 <= j < |m.states|
      ensures |LeasesOn(m', j)| == |LeasesOn(m, j)| + (if j == i then 1 else 0)
    {
      GiveLeaseAdds(m, l, i, j);
    }
    hide LeasesOn;
  }

  lemma DropLeaseCounts(m: Model, l: LeaseId)
    requires CountsReferences(m) && l in m.leases && !m.leases[l].phase.Returned? && m.leases[l].state < |m.states|
    ensures CountsReferences(DropLease(m, l))
  {
    var m' := DropLease(m, l);
    forall j | 0 <= j < |m.states|
      ensures |LeasesOn(m', j)| == |LeasesOn(m, j)| - (if j == m.leases[l].state then 1 else 0)
    {
      if j == m.leases[l].state {
        InsertGrowsByOne(LeasesOn(m', j), LeasesOn(m, j), l);
      } else {
        assert LeasesOn(m', j) == LeasesOn(m, j);
      }
    }
  }

  lemma InstallCounts(m: Model, readAt: nat)
    requires CountsReferences(m) && SingleWriter(m) && LeaseIdsAreFresh(m)
    ensures CountsReferences(Install(m, readAt, m.current))
  {
    var m' := Install(m, readAt, m.current);
    forall j ensures LeasesOn(m', j) == LeasesOn(m, j) {}
    assert LeasesOn(m, |m.states|) == {};
  }

  lemma SameLeases(m: Model, m': Model)
    requires CountsReferences(m) && m'.states == m.states && m'.current == m.current && m'.leases.Keys == m.leases.Keys
    requires forall l :: l in m.leases ==>
        m'.leases[l].state == m.leases[l].state && m'.leases[l].phase.Returned? == m.leases[l].phase.Returned?
    ensures CountsReferences(m')
  {
    forall j ensures LeasesOn(m', j) == LeasesOn(m, j) {}
  }

  /** What ending the head job leaves of the queue. */
  lemma QueueTail(m: Model)
    requires OneReload(m) && LeaseIdsAreFresh(m) && m.queue != []
    ensures var head, rest := m.queue[0], m.queue[1..];
      && m.queue == [head] + rest && head in m.queue && head !in rest
      && (ReloadJob in rest <==> ReloadJob in m.queue && head != ReloadJob)
      && (forall i, j :: 0 <= i < j < |rest| ==> !(rest[i].ReloadJob? && rest[j].ReloadJob?))
      && (forall i, j :: 0 <= i < j < |rest| && rest[i].InitJob? ==> rest[i] != rest[j])
  {
    var head, rest := m.queue[0], m.queue[1..];
    assert m.queue == [head] + rest;
    assert forall i :: 0 <= i < |rest| ==> rest[i] == m.queue[i + 1];
  }

  lemma AcquireKeeps(m: Model, l: LeaseId)
    requires Invariant(m) && m.current.Some? && Unused(m, l)
    ensures Invariant(Tick(GiveLease(m, l, m.current.value)))
  {
    hide CountsReferences;
    var m' := GiveLease(m, l, m.current.value);
    GiveLeaseCounts(m, l, m.current.value);
    SameLeases(m', Tick(m'));
  }

  lemma EnqueueKeeps(m: Model, s: Step)
    requires Invariant(m) && Enabled(m, s) && (s.EnqueueInit? || s.Reload?)
    ensures Invariant(Apply(m, s))
  {
    hide CountsReferences;
    SameLeases(m, Apply(m, s));
  }

  lemma StartWithStateReads(m: Model)
    requires Invariant(m) && m.queue != [] && m.phase.Idle? && m.queue[0].InitJob? && m.current.Some?
    ensures ReadsInOrder(Tick(Started(m)))
  {
    hide CountsReferences, OneReload, WaitersAreServed, LeaseIdsAreFresh, LeasesOn;
  }

  lemma StartWithStateKeeps(m: Model)
    requires Invariant(m) && m.queue != [] && m.phase.Idle? && m.queue[0].InitJob? && m.current.Some?
    ensures Invariant(Tick(Started(m)))
  {
    hide CountsReferences, ReadsInOrder;
    var given := GiveLease(m, m.queue[0].lease, m.current.value);
    QueueTail(m);
    StartWithStateReads(m);
    GiveLeaseCounts(m, m.queue[0].lease, m.current.value);
    SameLeases(given, Tick(Started(m)));
  }

  lemma StartBuildKeeps(m: Model)
    requires Invariant(m) && m.queue != [] && m.phase.Idle? && (m.queue[0].ReloadJob? || m.current.None?)
    ensures Invariant(Tick(Started(m)))
  {
    hide CountsReferences;
    SameLeases(m, Tick(Started(m)));
  }

  lemma BuiltInitReads(m: Model)
    requires Invariant(m) && m.phase.Building? && m.queue[0].InitJob?
    ensures ReadsInOrder(Tick(Built(m)))
  {
    hide CountsReferences, OneReload, WaitersAreServed, LeaseIdsAreFresh, LeasesOn;
  }

  lemma BuiltInitKeeps(m: Model)
    requires Invariant(m) && m.phase.Building? && m.queue[0].InitJob?
    ensures Invariant(Tick(Built(m)))
  {
    hide CountsReferences, ReadsInOrder;
    var installed := Install(m, m.phase.readAt, m.phase.previous);
    InstallCounts(m, m.phase.readAt);
    QueueTail(m);
    BuiltInitReads(m);
    GiveLeaseCounts(installed, m.queue[0].lease, |m.states|);
    SameLeases(GiveLease(installed, m.queue[0].lease, |m.states|), Tick(Built(m)));
  }

  lemma BuiltReloadReads(m: Model)
    requires Invariant(m) && m.phase.Building? && m.queue[0].ReloadJob?
    ensures ReadsInOrder(Tick(Built(m)))
  {
    hide CountsReferences, OneReload, WaitersAreServed, LeaseIdsAreFresh, LeasesOn;
  }

  lemma BuiltReloadKeeps(m: Model)
    requires Invariant(m) && m.phase.Building? && m.queue[0].ReloadJob?
    ensures Invariant(Tick(Built(m)))
  {
    hide CountsReferences, ReadsInOrder;
    InstallCounts(m, m.phase.readAt);
    SameLeases(Install(m, m.phase.readAt, m.phase.previous), Tick(Built(m)));
    BuiltReloadReads(m);
    QueueTail(m);
  }

  lemma FailedKeeps(m: Model)
    requires Invariant(m) && m.phase.Building?
    ensures Invariant(Tick(Failed(m)))
  {
    hide CountsReferences;
    SameLeases(m, Tick(Failed(m)));
    QueueTail(m);
  }

  lemma SignReads(m: Model, s: Step)
    requires Invariant(m) && Enabled(m, s) && (s.SignSucceeds? || s.SignFails? || s.Release?)
    ensures ReadsInOrder(Apply(m, s))
  {
    hide CountsReferences, OneReload, WaitersAreServed;
  }

  lemma SignKeeps(m: Model, s: Step)
    requires Invariant(m) && Enabled(m, s) && (s.SignSucceeds? || s.SignFails? || s.Release?)
    ensures Invariant(Apply(m, s))
  {
    hide CountsReferences, ReadsInOrder;
    SignReads(m, s);
    if s.SignSucceeds? || m.leases[s.lease].phase.Returned? {
      SameLeases(m, Apply(m, s));
    } else {
      DropLeaseCounts(m, s.lease);
      SameLeases(DropLease(m, s.lease), Apply(m, s));
    }
  }

  lemma AtHead(m: Model)
    requires Invariant(m) && m.phase.Building?
    ensures m.queue != []
  {
  }

  lemma StepKeepsInvariant(m: Model, s: Step)
    requires Invariant(m) && Enabled(m, s)
    ensures Invariant(Apply(m, s))
  {
    hide CountsReferences, ReadsInOrder, SingleWriter, OneReload, WaitersAreServed, LeaseIdsAreFresh;
    match s
    case AcquireFast(l) => AcquireKeeps(m, l);
    case EnqueueInit(_) => EnqueueKeeps(m, s);
    case Reload => EnqueueKeeps(m, s);
    case StartJob => if m.queue[0].InitJob? && m.current.Some? { StartWithStateKeeps(m); } else { StartBuildKeeps(m); }
    case BuildSucceeds => AtHead(m); if m.queue[0].InitJob? { BuiltInitKeeps(m); } else { BuiltReloadKeeps(m); }
    case BuildFails => FailedKeeps(m);
    case SignSucceeds(_) => SignKeeps(m, s);
    case SignFails(_) => SignKeeps(m, s);
    case Release(_) => SignKeeps(m, s);
  }

  // ---------------------------------------------------------------------------
  // Whole runs
  // ---------------------------------------------------------------------------

  ghost predicate Legal(steps: seq<Step>)
    decreases steps, 0
  {
    steps == [] || (Legal(steps[..|steps| - 1]) && Enabled(Exec(steps[..|steps| - 1]), steps[|steps| - 1]))
  }

  ghost function Exec(steps: seq<Step>): Model
    requires Legal(steps)
    decreases steps, 1
  {
    if steps == [] then INITIAL else Apply(Exec(steps[..|steps| - 1]), steps[|steps| - 1])
  }

  lemma InitialIsSound()
    ensures Invariant(INITIAL)
  {
  }

  lemma StepTicks(m: Model, s: Step)
    requires Enabled(m, s)
    ensures Apply(m, s).clock == m.clock + 1
  {
  }

  /** In every run, reference counts are exact, closes are deferred and single, installs are ordered. */
  lemma {:induction false} EveryRunIsSound(steps: seq<Step>)
    requires Legal(steps)
    ensures Invariant(Exec(steps)) && Exec(steps).clock == |steps|
  {
    hide Invariant, Enabled, Apply;
    if steps == [] {
      InitialIsSound();
    } else {
      var before, last := steps[..|steps| - 1], steps[|steps| - 1];
      EveryRunIsSound(before);
      StepKeepsInvariant(Exec(before), last);
      StepTicks(Exec(before), last);
    }
  }

  /** No agent is closed while a request still leases it, and never more than once. */
  lemma LeasedAgentsStayOpen(steps: seq<Step>, l: LeaseId)
    requires Legal(steps) && l in Exec(steps).leases && !Exec(steps).leases[l].phase.Returned?
    ensures var m := Exec(steps);
            m.leases[l].state < |m.states| && m.states[m.leases[l].state].closes == 0
  {
    EveryRunIsSound(steps);
    var m := Exec(steps);
    assert l in LeasesOn(m, m.leases[l].state);
  }

  lemma StepKeepsHistory(m: Model, s: Step, i: nat)
    requires Invariant(m) && Enabled(m, s) && i < |m.states|
    ensures var m' := Apply(m, s);
            && |m.states| <= |m'.states|
            && m'.states[i].readAt == m.states[i].readAt
            && (m.states[i].retired ==> m'.states[i].retired)
  {
    hide CountsReferences, OneReload, WaitersAreServed, ReadsInOrder;
  }

  /** A retired state gets no new lease. */
  lemma RetiredGetsNoLease(m: Model, s: Step, i: nat)
    requires Invariant(m) && Enabled(m, s) && i < |m.states| && m.states[i].retired
    ensures LeasesOn(Apply(m, s), i) <= LeasesOn(m, i)
  {
    hide OneReload, WaitersAreServed, ReadsInOrder;
    var m' := Apply(m, s);
    forall l | l in m'.leases && l !in m.leases
      ensures m'.leases[l].state != i
    {
      assert m'.leases[l].state == |m'.states| - 1;
    }
    forall l | l in m.leases
      ensures l in m'.leases && m'.leases[l].state == m.leases[l].state
          && (m.leases[l].phase.Returned? ==> m'.leases[l].phase.Returned?)
    {
      assert InitJob(l) !in m.queue;
    }
  }

  /** A retired agent's close starts in the very step that ends its last reference, and in no other. */
  lemma CloseFollowsLastLease(m: Model, s: Step, i: nat)
    requires Invariant(m) && Enabled(m, s) && i < |m.states|
    ensures var m' := Apply(m, s);
            && i < |m'.states|
            && (m.states[i].retired ==> m'.states[i].retired)
            && m.states[i].closes <= m'.states[i].closes <= 1
            && (m'.states[i].closes == m.states[i].closes + 1
                <==> m'.states[i].retired && LeasesOn(m', i) == {} && (LeasesOn(m, i) != {} || !m.states[i].retired))
  {
    var m' := Apply(m, s);
    StepKeepsInvariant(m, s);
    StepKeepsHistory(m, s, i);
    hide Apply;
    assert |LeasesOn(m', i)| == 0 <==> LeasesOn(m', i) == {};
    assert |LeasesOn(m, i)| == 0 <==> LeasesOn(m, i) == {};
    if m.states[i].retired {
      RetiredGetsNoLease(m, s, i);
    }
  }

  /** A second `release()` of the same auth changes nothing. */
  lemma DuplicateReleaseIsANoOp(m: Model, l: LeaseId)
    requires Invariant(m) && l in m.leases && m.leases[l].phase.Held?
    ensures var once := Apply(m, Release(l));
            && Enabled(once, Release(l))
            && Apply(once, Release(l)) == Tick(once)
            && once.states[m.leases[l].state].refCount == m.states[m.leases[l].state].refCount - 1
  {
  }

  /** A successful reload answers every call that shared its promise with a state whose build read the
      disk after that call. */
  lemma ReloadAnswersEveryCaller(m: Model, w: nat)
    requires Invariant(m) && m.phase.Building? && w in m.waiting
    requires w !in Apply(m, BuildSucceeds).waiting
    ensures var m' := Apply(m, BuildSucceeds);
            m'.current.Some? && m'.current.value < |m'.states| && w < m'.states[m'.current.value].readAt
  {
    hide CountsReferences;
    AtHead(m);
  }

  /** A late first-use build never overwrites a reload: it only ever installs into an empty slot. */
  lemma InitNeverOverwrites(m: Model)
    requires Invariant(m) && m.phase.Building? && m.queue[0].InitJob?
    ensures m.states == [] && m.current.None?
  {
  }

  /** A failed build leaves the installed state, its leases and its agent alone. */
  lemma FailedBuildChangesNothingInstalled(m: Model)
    requires Invariant(m) && m.phase.Building?
    ensures var m' := Apply(m, BuildFails);
            && m'.states == m.states && m'.current == m.current && m'.leases == m.leases
            && m'.phase.Idle? && m'.queue == m.queue[1..]
            && (m.queue[0].ReloadJob? ==> !m'.pending && m'.waiting == [])
  {
  }

  lemma LegalPrefix(steps: seq<Step>, n: nat)
    requires n <= |steps| && Legal(steps)
    ensures Legal(steps[..n])
    decreases |steps|
  {
    if n < |steps| {
      LegalPrefix(steps[..|steps| - 1], n);
      assert steps[..|steps| - 1][..n] == steps[..n];
    } else {
      assert steps[..n] == steps;
    }
  }

  ghost function At(steps: seq<Step>, n: nat): Model
    requires n <= |steps| && Legal(steps)
  {
    LegalPrefix(steps, n);
    Exec(steps[..n])
  }

  lemma AtNext(steps: seq<Step>, n: nat)
    requires n < |steps| && Legal(steps)
    ensures Invariant(At(steps, n)) && At(steps, n).clock == n
    ensures Enabled(At(steps, n), steps[n]) && At(steps, n + 1) == Apply(At(steps, n), steps[n])
  {
    hide Apply, Invariant, Enabled;
    LegalPrefix(steps, n + 1);
    LegalPrefix(steps, n);
    assert steps[..n + 1][..n] == steps[..n];
    EveryRunIsSound(steps[..n]);
  }

  /** The installed state's disk read never goes back in time. */
  ghost predicate InstalledAfter(m: Model, w: nat) {
    m.current.Some? && m.current.value < |m.states| && w < m.states[m.current.value].readAt
  }

  lemma StepKeepsInstalledAfter(m: Model, s: Step, w: nat)
    requires Invariant(m) && Enabled(m, s) && InstalledAfter(m, w)
    ensures InstalledAfter(Apply(m, s), w)
  {
    StepKeepsInvariant(m, s);
    StepKeepsHistory(m, s, m.current.value);
    hide Apply, CountsReferences, OneReload, WaitersAreServed;
  }

  lemma BuildIsEnabled(m: Model)
    requires Enabled(m, BuildSucceeds)
    ensures m.phase.Building?
  {
  }

  /** The reload guarantee over whole runs: take any `reload()` call, wherever it falls in whatever is
      already in flight; once its promise resolves, the installed state, then and ever after, was built
      from the disk as it was after that call. */
  lemma {:induction false} ResolvedReloadIsFresh(steps: seq<Step>, call: nat, resolved: nat, later: nat)
    requires Legal(steps) && call < resolved < later <= |steps|
    requires steps[call].Reload? && steps[resolved].BuildSucceeds?
    requires call in At(steps, resolved).waiting && call !in At(steps, resolved + 1).waiting
    ensures InstalledAfter(At(steps, later), call)
    decreases later
  {
    hide Apply, Invariant, Enabled;
    AtNext(steps, later - 1);
    if later == resolved + 1 {
      BuildIsEnabled(At(steps, resolved));
      ReloadAnswersEveryCaller(At(steps, resolved), call);
    } else {
      ResolvedReloadIsFresh(steps, call, resolved, later - 1);
      StepKeepsInstalledAfter(At(steps, later - 1), steps[later - 1], call);
    }
  }

  /** Every call starts out waiting, under its own time, whether it queued a job or coalesced. */
  lemma ReloadCallsWait(m: Model)
    requires Invariant(m)
    ensures m.clock in Apply(m, Reload).waiting && Apply(m, Reload).pending
  {
  }

  // ---------------------------------------------------------------------------
  // One request, from its lease to its return
  // ---------------------------------------------------------------------------

  /** `l` is out on state `i`. */
  predicate LeasedOn(m: Model, l: LeaseId, i: nat) {
    l in m.leases && m.leases[l].state == i && !m.leases[l].phase.Returned? && i < |m.states|
  }

  /** The fast path takes its lease in the segment that reads the state: the count is one higher before
      anything else can run. */
  lemma AcquireTakesALease(m: Model, l: LeaseId)
    requires Invariant(m) && Enabled(m, AcquireFast(l))
    ensures var m', i := Apply(m, AcquireFast(l)), m.current.value;
            && m'.leases == m.leases[l := Lease(i, Signing)]
            && i < |m.states| == |m'.states| && m'.current == m.current
            && m'.states[i].refCount == m.states[i].refCount + 1
            && (forall j :: 0 <= j < |m.states| && j != i ==> m'.states[j] == m.states[j])
  {
    hide CountsReferences, OneReload, WaitersAreServed, ReadsInOrder;
  }

  /** The queued path ends the same way: the job that finds a state installed leases that one, the job
      whose build arrives leases what it installs, and either leaves the queue. */
  lemma QueuedRequestGetsItsLease(m: Model, s: Step, l: LeaseId)
    requires Invariant(m) && Enabled(m, s) && m.queue != [] && m.queue[0] == InitJob(l)
    requires (s.StartJob? && m.current.Some?) || s.BuildSucceeds?
    ensures var m' := Apply(m, s);
            && m'.current.Some? && LeasedOn(m', l, m'.current.value) && m'.leases[l].phase.Signing?
            && m'.queue == m.queue[1..] && m'.phase.Idle?
            && m'.states[m'.current.value].refCount
               == 1 + (if s.StartJob? then m.states[m.current.value].refCount else 1)
  {
    hide CountsReferences, OneReload, WaitersAreServed, ReadsInOrder;
  }

  lemma StepKeepsLeased(m: Model, s: Step, l: LeaseId, i: nat)
    requires Invariant(m) && Enabled(m, s) && LeasedOn(m, l, i) && s != SignFails(l) && s != Release(l)
    ensures LeasedOn(Apply(m, s), l, i)
  {
    hide CountsReferences, OneReload, WaitersAreServed, ReadsInOrder;
  }

  lemma LeasedIsOpen(m: Model, l: LeaseId, i: nat)
    requires Invariant(m) && LeasedOn(m, l, i)
    ensures m.states[i].closes == 0 && m.states[i].refCount >= 1
  {
    assert l in LeasesOn(m, i);
  }

  /** From the moment a request holds its lease until it fails to sign or releases, the agent it was given
      stays open, however many reloads install, retire and release in between. */
  lemma {:induction false} LeaseKeepsTheAgentOpen(steps: seq<Step>, from: nat, n: nat, l: LeaseId, i: nat)
    requires Legal(steps) && from <= n <= |steps| && LeasedOn(At(steps, from), l, i)
    requires forall k :: from <= k < n ==> steps[k] != SignFails(l) && steps[k] != Release(l)
    ensures LeasedOn(At(steps, n), l, i)
    ensures At(steps, n).states[i].closes == 0
    decreases n
  {
    hide Apply, Invariant, Enabled, LeasedOn;
    LegalPrefix(steps, n);
    EveryRunIsSound(steps[..n]);
    if n > from {
      LeaseKeepsTheAgentOpen(steps, from, n - 1, l, i);
      AtNext(steps, n - 1);
      StepKeepsLeased(At(steps, n - 1), steps[n - 1], l, i);
    }
    LeasedIsOpen(At(steps, n), l, i);
  }

  lemma EnabledAcquire(m: Model, l: LeaseId)
    requires Invariant(m) && Enabled(m, AcquireFast(l))
    ensures m.current.Some? && LeasedOn(Apply(m, AcquireFast(l)), l, m.current.value)
  {
    AcquireTakesALease(m, l);
    hide Apply;
  }

  /** So a request on the fast path never meets a closing agent: the state installed when it acquired stays
      open until that very request is done with it. */
  lemma AcquiredAgentStaysOpen(steps: seq<Step>, i: nat, n: nat, l: LeaseId)
    requires Legal(steps) && i < n <= |steps| && steps[i] == AcquireFast(l)
    requires forall k :: i < k < n ==> steps[k] != SignFails(l) && steps[k] != Release(l)
    ensures At(steps, i).current.Some? && LeasedOn(At(steps, n), l, At(steps, i).current.value)
    ensures At(steps, n).states[At(steps, i).current.value].closes == 0
  {
    hide Apply, Invariant, Enabled, LeasedOn;
    AtNext(steps, i);
    EnabledAcquire(At(steps, i), l);
    LeaseKeepsTheAgentOpen(steps, i + 1, n, l, At(steps, i).current.value);
  }

  /** Both ways a request ends give its one reference back, and start the close when it was the last on a
      retired state. */
  lemma EndingGivesTheLeaseBack(m: Model, s: Step, l: LeaseId, i: nat)
    requires Invariant(m) && Enabled(m, s) && LeasedOn(m, l, i) && (s == SignFails(l) || s == Release(l))
    ensures var m' := Apply(m, s);
            && m'.leases == m.leases[l := Lease(i, Returned)]
            && |m'.states| == |m.states| && m'.states[i].refCount == m.states[i].refCount - 1
            && m'.states[i].closes == (if m.states[i].retired && m.states[i].refCount == 1 then 1 else 0)
            && (forall j :: 0 <= j < |m.states| && j != i ==> m'.states[j] == m.states[j])
  {
    LeasedIsOpen(m, l, i);
    hide OneReload, WaitersAreServed, ReadsInOrder, CountsReferences;
  }

  /** Signing hands the auth over, with its lease. */
  lemma SignedAuthIsHeld(m: Model, l: LeaseId)
    requires Enabled(m, SignSucceeds(l))
    ensures Apply(m, SignSucceeds(l)).leases == m.leases[l := Lease(m.leases[l].state, Held)]
    ensures Apply(m, SignSucceeds(l)).states == m.states && Enabled(Apply(m, SignSucceeds(l)), Release(l))
  {
  }

  /** Nothing leaks: once every request is done, exactly the installed agent is open. */
  lemma AllDoneMeansAllClosed(steps: seq<Step>, i: nat)
    requires Legal(steps) && i < |Exec(steps).states|
    requires forall l :: l in Exec(steps).leases ==> Exec(steps).leases[l].phase.Returned?
    ensures Exec(steps).states[i].closes == if Exec(steps).current == Some(i) then 0 else 1
  {
    EveryRunIsSound(steps);
    assert LeasesOn(Exec(steps), i) == {};
  }

  // ---------------------------------------------------------------------------
  // The queue moves
  // ---------------------------------------------------------------------------

  /** A queued first-use request is waiting, or has had its lease. */
  predicate QueuedOrServed(m: Model, l: LeaseId) {
    InitJob(l) in m.queue || l in m.leases
  }

  predicate FailsFor(m: Model, s: Step, l: LeaseId) {
    s.BuildFails? && m.queue != [] && m.queue[0] == InitJob(l)
  }

  lemma EnqueuedWaits(m: Model, l: LeaseId)
    requires Enabled(m, EnqueueInit(l))
    ensures QueuedOrServed(Apply(m, EnqueueInit(l)), l)
  {
  }

  lemma StepKeepsQueued(m: Model, s: Step, l: LeaseId)
    requires Invariant(m) && Enabled(m, s) && QueuedOrServed(m, l) && !FailsFor(m, s, l)
    ensures QueuedOrServed(Apply(m, s), l)
  {
    hide CountsReferences, WaitersAreServed, ReadsInOrder;
    if InitJob(l) in m.queue && (s.StartJob? || s.BuildSucceeds? || s.BuildFails?) {
      QueueTail(m);
    }
  }

  /** The lifecycle queue is first in, first out: a step adds one job at the end, or takes the first away. */
  lemma QueueIsFifo(m: Model, s: Step)
    requires Invariant(m) && Enabled(m, s)
    ensures var q := Apply(m, s).queue;
            && (s.EnqueueInit? ==> q == m.queue + [InitJob(s.lease)])
            && (s.Reload? ==> q == if m.pending then m.queue else m.queue + [ReloadJob])
            && (!s.EnqueueInit? && !s.Reload? ==> q == m.queue || (m.queue != [] && q == m.queue[1..]))
            && (s.AcquireFast? || s.SignSucceeds? || s.SignFails? || s.Release? ==> q == m.queue)
  {
    hide CountsReferences, WaitersAreServed, ReadsInOrder;
  }

  /** No deadlock: every caller has its path, and while a job is queued either it can start or its build can
      still arrive or fail. */
  lemma QueueNeverSticks(m: Model, l: LeaseId)
    requires Invariant(m)
    ensures Unused(m, l) ==> (Enabled(m, AcquireFast(l)) <==> m.current.Some?)
    ensures Unused(m, l) ==> (Enabled(m, EnqueueInit(l)) <==> m.current.None?)
    ensures m.queue != [] ==> Enabled(m, StartJob) || (Enabled(m, BuildSucceeds) && Enabled(m, BuildFails))
    ensures l in m.leases && m.leases[l].phase.Signing? ==> Enabled(m, SignSucceeds(l)) && Enabled(m, SignFails(l))
    ensures l in m.leases && m.leases[l].phase.Held? ==> Enabled(m, Release(l))
  {
  }

  /** No queued request is lost: it stays in the queue until it has its lease, or its own build failed. */
  lemma {:induction false} QueuedRequestIsServed(steps: seq<Step>, i: nat, n: nat, l: LeaseId)
    requires Legal(steps) && i < n <= |steps| && steps[i] == EnqueueInit(l)
    ensures QueuedOrServed(At(steps, n), l) || exists k :: i < k < n && FailsFor(At(steps, k), steps[k], l)
    decreases n
  {
    hide Apply, Invariant, Enabled, QueuedOrServed, FailsFor;
    AtNext(steps, n - 1);
    if n == i + 1 {
      EnqueuedWaits(At(steps, i), l);
    } else {
      QueuedRequestIsServed(steps, i, n - 1, l);
      if QueuedOrServed(At(steps, n - 1), l) && !FailsFor(At(steps, n - 1), steps[n - 1], l) {
        StepKeepsQueued(At(steps, n - 1), steps[n - 1], l);
      }
    }
  }

  /** A job that starts without a state to lease reads the disk then and there, and a reload clears the flag
      only calls after this read will set. */
  lemma StartedJobReadsDisk(m: Model)
    requires Invariant(m) && Enabled(m, StartJob) && (m.queue[0].ReloadJob? || m.current.None?)
    ensures var m' := Apply(m, StartJob);
            && m'.phase == Building(m.clock, m.current)
            && m'.queue == m.queue && m'.states == m.states && m'.leases == m.leases
            && (m.queue[0].ReloadJob? ==> !m'.dirty)
  {
    hide CountsReferences, ReadsInOrder, WaitersAreServed;
  }

  /** A build that arrives is installed, with the disk read it made, and what it replaces is retired. */
  lemma BuildIsInstalled(m: Model)
    requires Invariant(m) && m.phase.Building?
    ensures var m', n := Apply(m, BuildSucceeds), |m.states|;
            && |m'.states| == n + 1 && m'.current == Some(n)
            && m'.states[n].readAt == m.phase.readAt && m'.states[n].closes == 0 && !m'.states[n].retired
            && (m.current.Some? ==> m.current.value < n && m'.states[m.current.value].retired)
  {
    AtHead(m);
    hide CountsReferences, ReadsInOrder, WaitersAreServed;
  }

  /** Calls that came during the build send the reload round exactly once more: it reads the disk again at
      once, and with no further call the next build settles the promise and frees the queue. */
  lemma ReloadSettlesInTwoBuilds(m: Model)
    requires Invariant(m) && m.phase.Building? && m.queue[0].ReloadJob?
    ensures var m' := Apply(m, BuildSucceeds);
            if m.dirty then
              && m'.phase == Building(m.clock, m'.current) && !m'.dirty && m'.queue == m.queue
              && m'.pending && m'.waiting == m.waiting && Enabled(m', BuildSucceeds)
              && var m'' := Apply(m', BuildSucceeds); m''.phase.Idle? && !m''.pending && m''.queue == m.queue[1..]
            else m'.phase.Idle? && !m'.pending && m'.waiting == [] && m'.queue == m.queue[1..]
  {
    hide CountsReferences, ReadsInOrder, WaitersAreServed;
  }

  /** A call waits until the build that answers it arrives, or the reload fails. */
  lemma StepKeepsWaiting(m: Model, s: Step, w: nat)
    requires Invariant(m) && Enabled(m, s) && w in m.waiting
    requires !((s.BuildSucceeds? || s.BuildFails?) && m.queue[0].ReloadJob?)
    ensures w in Apply(m, s).waiting && Apply(m, s).pending
  {
    hide CountsReferences, ReadsInOrder, WaitersAreServed, LeaseIdsAreFresh;
  }
}

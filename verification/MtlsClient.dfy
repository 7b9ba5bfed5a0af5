/** The module's objects and variables, updated in place one await-free segment at a time.

    Each method is one segment of `src/lib/mtls.ts`, proved to be the matching step of `MtlsLeases`. */
module MtlsClient {
  import opened Common
  import opened MtlsLeases

  class LeasedState {
    /** Position in installation order; stands for object identity in the abstract view. */
    const id: nat
    const readAt: nat
    var refCount: int
    var retired: bool
    var closes: nat

    constructor (id: nat, readAt: nat)
      ensures this.id == id && View() == Entry(1, false, 0, readAt)
    {
      this.id, this.readAt := id, readAt;
      refCount, retired, closes := 1, false, 0;
    }

    function View(): Entry
      reads this
    {
      Entry(refCount, retired, closes, readAt)
    }

    method Acquire()
      modifies this
      ensures View() == Acquired(old(View()))
    {
      refCount := refCount + 1;
    }

    method Release()
      modifies this
      ensures View() == Released(old(View()))
    {
      refCount := refCount - 1;
      if retired && refCount == 0 {
        closes := closes + 1;
      }
    }
  }

  datatype Auth = Auth(state: LeasedState, phase: LeasePhase)

  datatype Build = NoBuild | InFlight(readAt: nat, previous: LeasedState?)

  class Client {
    var state: LeasedState?
    var installed: seq<LeasedState>
    var queue: seq<Job>
    var build: Build
    var reloadPending: bool
    var reloadDirty: bool
    var waiting: seq<nat>
    var auths: map<LeaseId, Auth>
    var clock: nat

    constructor ()
      ensures Valid() && View() == INITIAL && installed == []
    {
      state, installed, queue, build := null, [], [], NoBuild;
      reloadPending, reloadDirty, waiting, auths, clock := false, false, [], map[], 0;
    }

    ghost predicate Known(s: LeasedState)
      reads this
    {
      s.id < |installed| && installed[s.id] == s
    }

    ghost predicate Valid()
      reads this
    {
      && (forall i :: 0 <= i < |installed| ==> installed[i].id == i)
      && (state != null ==> Known(state))
      && (build.InFlight? && build.previous != null ==> Known(build.previous))
      && (forall l :: l in auths ==> Known(auths[l].state))
    }

    ghost function Index(s: LeasedState?): Option<nat> {
      if s == null then None else Some(s.id)
    }

    ghost function View(): Model
      reads this, installed
    {
      Model(
        seq(|installed|, i requires 0 <= i < |installed| reads this, installed => installed[i].View()),
        Index(state),
        queue,
        if build.NoBuild? then Idle else Building(build.readAt, Index(build.previous)),
        reloadPending,
        reloadDirty,
        waiting,
        map l | l in auths :: Lease(auths[l].state.id, auths[l].phase),
        clock)
    }

    /** `acquire` plus the closure that remembers which state it leased. */
    method GiveOut(l: LeaseId, s: LeasedState)
      requires Valid() && Known(s)
      modifies this`auths, s
      ensures Valid() && View() == GiveLease(old(View()), l, s.id)
      ensures s.refCount == old(s.refCount) + 1 && auths == old(auths)[l := Auth(s, Signing)]
    {
      ghost var before := View();
      s.Acquire();
      auths := auths[l := Auth(s, Signing)];
      assert View().states == before.states[s.id := Acquired(before.states[s.id])];
    }

    method GiveBack(l: LeaseId)
      requires Valid() && l in auths
      modifies this`auths, auths[l].state
      ensures Valid() && View() == DropLease(old(View()), l)
    {
      ghost var before := View();
      var s := auths[l].state;
      auths := auths[l := Auth(s, Returned)];
      s.Release();
      assert View().states == before.states[s.id := Released(before.states[s.id])];
    }

    /** Install a built state; whatever it replaced is retired and loses its structural reference. */
    method InstallBuilt(readAt: nat, previous: LeasedState?) returns (next: LeasedState)
      requires Valid() && (previous != null ==> Known(previous))
      modifies this`installed, this`state, previous
      ensures Valid() && Known(next) && state == next && fresh(next)
      ensures installed == old(installed) + [next]
      ensures View() == Install(old(View()), readAt, Index(previous))
    {
      ghost var before := View();
      next := new LeasedState(|installed|, readAt);
      installed := installed + [next];
      state := next;
      if previous != null {
        previous.retired := true;
        previous.Release();
      }
      assert View().states == Install(before, readAt, Index(previous)).states;
    }

    /** The fast path bumps the count with no microtask boundary; otherwise a first-use job is queued. */
    method AcquireState(l: LeaseId) returns (leased: bool)
      requires Valid() && Unused(View(), l)
      modifies this, installed
      ensures Valid() && installed == old(installed)
      ensures leased == (old(state) != null)
      ensures View() == Apply(old(View()), if leased then AcquireFast(l) else EnqueueInit(l))
      ensures leased ==> state == old(state) && state.refCount == old(state.refCount) + 1
      ensures leased ==> auths == old(auths)[l := Auth(old(state), Signing)]
    {
      hide GiveLease;
      leased := state != null;
      if state != null {
        GiveOut(l, state);
      } else {
        queue := queue + [InitJob(l)];
      }
      clock := clock + 1;
    }

    method CallReload()
      requires Valid()
      modifies this
      ensures Valid() && installed == old(installed)
      ensures View() == Apply(old(View()), MtlsLeases.Reload)
    {
      if reloadPending {
        reloadDirty, waiting := true, waiting + [clock];
      } else {
        queue, reloadPending, waiting := queue + [ReloadJob], true, [clock];
      }
      clock := clock + 1;
    }

    /** The head of the lifecycle queue starts running, up to its first await. */
    method StartHead()
      requires Valid() && Enabled(View(), StartJob)
      modifies this, installed
      ensures Valid() && installed == old(installed)
      ensures View() == Apply(old(View()), StartJob)
    {
      hide GiveLease;
      if queue[0].ReloadJob? {
        reloadDirty := false;
        build := InFlight(clock, state);
      } else if state != null {
        GiveOut(queue[0].lease, state);
        EndHead();
      } else {
        build := InFlight(clock, null);
      }
      clock := clock + 1;
    }

    method EndHead()
      requires Valid() && queue != []
      modifies this`queue, this`build
      ensures Valid() && View() == EndJob(old(View()))
    {
      queue, build := queue[1..], NoBuild;
    }

    /** A first-use build arrives: install it into the empty slot and lease it to the caller. */
    method FinishInit()
      requires Valid() && Enabled(View(), BuildSucceeds) && queue != []
      requires queue[0].InitJob? && build.previous == null
      modifies this
      ensures Valid() && |installed| == |old(installed)| + 1 && installed[..|old(installed)|] == old(installed)
      ensures View() == Apply(old(View()), BuildSucceeds)
    {
      hide GiveLease, Install, EndJob;
      var next := InstallBuilt(build.readAt, null);
      GiveOut(queue[0].lease, next);
      EndHead();
      clock := clock + 1;
    }

    /** A reload's build arrives: install it, retire what it replaced, and go round again if dirty. */
    method FinishReload()
      requires Valid() && Enabled(View(), BuildSucceeds) && queue != [] && queue[0].ReloadJob?
      modifies this, build.previous
      ensures Valid() && |installed| == |old(installed)| + 1 && installed[..|old(installed)|] == old(installed)
      ensures View() == Apply(old(View()), BuildSucceeds)
    {
      hide Install;
      var next := InstallBuilt(build.readAt, build.previous);
      assert View().queue == old(View()).queue;
      if reloadDirty {
        reloadDirty := false;
        build := InFlight(clock, next);
      } else {
        EndHead();
        reloadPending, waiting := false, [];
      }
      clock := clock + 1;
    }

    method FailBuild()
      requires Valid() && Enabled(View(), BuildFails) && queue != []
      modifies this
      ensures Valid() && installed == old(installed)
      ensures View() == Apply(old(View()), BuildFails)
    {
      hide EndJob;
      var wasReload := queue[0].ReloadJob?;
      EndHead();
      if wasReload {
        reloadPending, waiting := false, [];
      }
      clock := clock + 1;
    }

    /** Signing finished: hand the auth out, or give the lease back. */
    method FinishSigning(l: LeaseId, ok: bool)
      requires Valid() && Enabled(View(), SignSucceeds(l))
      modifies this, installed
      ensures Valid() && installed == old(installed)
      ensures View() == Apply(old(View()), if ok then SignSucceeds(l) else SignFails(l))
    {
      hide DropLease;
      if ok {
        MarkHeld(l);
      } else {
        GiveBack(l);
      }
      clock := clock + 1;
    }

    method MarkHeld(l: LeaseId)
      requires Valid() && l in auths
      modifies this`auths
      ensures Valid()
      ensures View() == old(View()).(leases := old(View()).leases[l := old(View()).leases[l].(phase := Held)])
    {
      auths := auths[l := auths[l].(phase := Held)];
    }

    /** `release()`: idempotent per auth. */
    method ReleaseAuth(l: LeaseId)
      requires Valid() && Enabled(View(), MtlsLeases.Release(l))
      modifies this, installed
      ensures Valid() && installed == old(installed)
      ensures View() == Apply(old(View()), MtlsLeases.Release(l))
    {
      hide DropLease;
      if !auths[l].phase.Returned? {
        GiveBack(l);
      }
      clock := clock + 1;
    }
  }
}

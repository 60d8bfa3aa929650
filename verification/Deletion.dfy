/** Guarded deletion: what it leaves alone while blocked, when it completes and what it may leave behind. */
module Deletion {
  import opened Text
  import opened Detection
  import opened Conditions
  import opened Cluster
  import opened Machine
  import opened Lifecycle
  import opened Wakeup
  import opened Provenance
  import opened FixedPoint
  import Helm

  // ---- while GPU pods are active ----

  predicate Waits(pc: Pc) {
    pc.Idle? || pc.Fetch? || pc.MarkRogue? || pc.FreeRogue? || pc.MarkUninstalling? || pc.ListPods? || pc.ReportBlocked?
  }

  /** CR "gpu" is being deleted, holds our finalizer, and no reconcile is past the guard. */
  ghost predicate Guarded(s: Sys) {
    Sound(s) && Waits(s.pc) && AllOwned(TrackOf(s, GPU)) && NoneLiveAtAll(TrackOf(s, GPU))
  }

  /** A pod list taken by this event succeeds and holds an active GPU pod. */
  ghost predicate FindsActive(s: Sys, e: Event) {
    e.Worker? && s.pc.ListPods? ==> e.turn.ok && exists p :: p in s.pods && UsesGpu(p)
  }

  predicate Untouched(s: Sys, s1: Sys) {
    (s1.helm == s.helm && s1.ns == s.ns) || (s.ns.Terminating? && s1.ns.Missing? && s1.helm == [])
  }

  lemma GuardedTrackWrite(t: Track, rv: nat, obj: Option<Cr>)
    requires AllOwned(t) && NoneLiveAtAll(t) && obj.Some? && obj.value.ours && obj.value.deleting
    ensures var t': Track := t + [View(rv, obj)]; AllOwned(t') && NoneLiveAtAll(t')
  {}

  lemma GuardedReports(s: Sys, n: string, u: Update, ok: bool)
    requires Guarded(s)
    ensures var s1 := ApplyStatus(s, n, u, ok).0;
            && AllOwned(TrackOf(s1, GPU)) && NoneLiveAtAll(TrackOf(s1, GPU)) && s1.helm == s.helm && s1.ns == s.ns
  {
    hide Merge, Sound;
    if n == GPU && ok {
      var cr := Server(s, GPU).obj.value;
      assert Owned(Server(s, GPU)) && !Live(Server(s, GPU));
      GuardedTrackWrite(TrackOf(s, GPU), s.nextRv, Some(cr.(status := Merge(cr.status, u, cr.gen, s.now))));
    }
  }

  lemma GuardedReading(s: Sys, t: Turn)
    requires Guarded(s) && FindsActive(s, Worker(t)) && (s.pc.Idle? || s.pc.Fetch? || s.pc.ListPods?)
    ensures Waits(Work(s, t).pc)
  {
    assert Owned(Cached(s, GPU)) && !Live(Cached(s, GPU));
    NothingActiveMeansNone(s.pods);
    hide Sound, Guarded, AllOwned, NoneLiveAtAll, ActiveWorkloadsOf, UsesGpu;
  }

  lemma GuardedWork(s: Sys, t: Turn)
    requires Guarded(s) && FindsActive(s, Worker(t))
    ensures var s1 := Work(s, t); Guarded(s1) && s1.helm == s.helm && s1.ns == s.ns
  {
    WorkKeepsSound(s, t);
    hide Sound, AllOwned, NoneLiveAtAll, ApplyStatus, FetchStep, MarkRogueStep, ReleaseStep, ListPodsStep, FindsActive;
    match s.pc
    case MarkUninstalling => GuardedReports(s, GPU, Only(UNINSTALLING_REPORT), t.ok);
    case ReportBlocked(active) => GuardedReports(s, GPU, BlockedUpdate(active), t.ok);
    case MarkRogue(_) => OthersChangeNothing(s, t);
    case FreeRogue(_, _) => OthersChangeNothing(s, t);
    case _ => ReadsWriteNothing(s, t); GuardedReading(s, t);
  }

  lemma GuardedChange(s: Sys, e: Event, cr: Cr)
    requires Guarded(s) && (e.Edit? || e.Touch? || e.Delete?) && Server(s, e.n).obj == Some(cr)
    ensures var s1 := Change(s, e, cr);
            && AllOwned(TrackOf(s1, GPU)) && NoneLiveAtAll(TrackOf(s1, GPU))
            && s1.pc == s.pc && s1.helm == s.helm && s1.ns == s.ns
  {
    hide Sound;
    assert e.n == GPU ==> Owned(Server(s, GPU)) && !Live(Server(s, GPU));
  }

  lemma GuardedEvent(s: Sys, e: Event)
    requires Guarded(s) && !e.Worker? && !e.Edit? && !e.Touch? && !e.Delete?
    ensures var s1 := Step(s, e);
            && AllOwned(TrackOf(s1, GPU)) && NoneLiveAtAll(TrackOf(s1, GPU))
            && Waits(s1.pc) && Untouched(s, s1)
  {
    assert Server(s, GPU).obj.Some?;
    TrackMoves(s, e);
    hide Guarded, AllOwned, NoneLiveAtAll, TrackOf, AfterNodeEvent, Possible, Fires;
  }

  lemma GuardedStep(s: Sys, e: Event)
    requires Guarded(s) && FindsActive(s, e)
    ensures Guarded(Step(s, e)) && Untouched(s, Step(s, e))
  {
    StepKeepsSound(s, e);
    if e.Worker? {
      GuardedWork(s, e.turn);
    } else if e.Edit? || e.Touch? || e.Delete? {
      if Server(s, e.n).obj.Some? { GuardedChange(s, e, Server(s, e.n).obj.value); }
    } else {
      GuardedEvent(s, e);
    }
  }

  /**
   * However long the run and whatever else happens or fails in it, as long as every pod list
   * finds an active GPU pod: the release, the namespace and our finalizer stay as they are;
   * at most a namespace that was terminating before goes away with its records.
   */
  lemma {:induction false} BlockedDeletionTouchesNothing(s: Sys, es: seq<Event>)
    requires Guarded(s)
    requires forall i | 0 <= i < |es| :: FindsActive(Run(s, es[..i]), es[i])
    ensures Guarded(Run(s, es)) && Owned(Server(Run(s, es), GPU))
    ensures Untouched(s, Run(s, es))
  {
    hide Step, Sound, Waits, FindsActive, NoneLiveAtAll;
    if es != [] {
      var init := es[..|es| - 1];
      forall i | 0 <= i < |init| ensures FindsActive(Run(s, init[..i]), init[i]) {
        assert init[..i] == es[..i];
      }
      BlockedDeletionTouchesNothing(s, init);
      GuardedStep(Run(s, init), es[|es| - 1]);
    }
  }

  // ---- when no GPU pod is active ----

  ghost predicate NoneActive(pods: seq<Pod>) { forall p | p in pods :: !UsesGpu(p) }

  /**
   * No call fails, the process does not restart, no GPU pod becomes active and nobody changes
   * CR "gpu". Everything else may happen.
   */
  ghost predicate Undisturbed(e: Event) {
    match e
    case Worker(t) => FaultFree(t)
    case PodChange(pods) => NoneActive(pods)
    case Create(n, _, _) => n != GPU
    case Edit(n, _) => n != GPU
    case Touch(n, _) => n != GPU
    case Delete(n) => n != GPU
    case Restart(_) => false
    case _ => true
  }

  /** How many calls an unblocked reconcile of the deleted CR still makes. */
  function Remaining(pc: Pc): nat {
    match pc
    case Fetch(n) => if n == GPU then 7 else 0
    case MarkUninstalling => 6
    case ListPods => 5
    case RemoveRelease => 4
    case DeleteNamespace => 3
    case Refetch => 2
    case DropFinalizer(_) => 1
    case _ => 0
  }

  ghost predicate AllLeaving(t: Track) { forall i | 0 <= i < |t| :: Leaving(t[i]) }

  /** The only version the cache can deliver is the server's, and it already announces the uninstall. */
  ghost predicate CaughtUp(s: Sys) { |TrackOf(s, GPU)| == 1 && Stands(s, UNINSTALLING) }

  /** A reconcile of the deleted CR is on its way; current if it reads the current version. */
  ghost predicate InFlight(s: Sys, current: bool) {
    && Remaining(s.pc) > 0 && AllLeaving(TrackOf(s, GPU)) && NoneActive(s.pods)
    && (Remaining(s.pc) <= 5 ==> Stands(s, UNINSTALLING))
    && (Remaining(s.pc) <= 3 ==> !Helm.Visible(s.helm))
    && (Remaining(s.pc) <= 2 ==> !s.ns.Standing?)
    && (s.pc.DropFinalizer? ==> Leaving(s.pc.read))
    && (current ==> CaughtUp(s) && (s.pc.DropFinalizer? ==> s.pc.read == Server(s, GPU)))
  }

  /** Our finalizer is gone, and so is the CR unless others hold it. */
  ghost predicate Removed(s: Sys) {
    && NoneLiveAtAll(TrackOf(s, GPU)) && !Owned(Server(s, GPU))
    && (Server(s, GPU).obj.Some? ==> Server(s, GPU).obj.value.foreign)
    && !s.ns.Standing? && !Helm.Visible(s.helm) && !Installing(s.pc) && !s.pc.AddFinalizer?
  }

  /** Everything but our finalizer is gone, and another reconcile is coming or running. */
  ghost predicate OnlyFinalizerLeft(s: Sys) {
    && AllLeaving(TrackOf(s, GPU)) && NoneActive(s.pods)
    && Stands(s, UNINSTALLING) && !Helm.Visible(s.helm) && !s.ns.Standing?
    && (s.pc.DropFinalizer? ==> Leaving(s.pc.read))
    && if Remaining(s.pc) > 0 then true
       else (s.pc.Idle? || s.pc.Fetch? || s.pc.MarkRogue? || s.pc.FreeRogue?) && (GPU in s.pending || GPU in s.retries)
  }

  // ---- what the other events do ----

  lemma BystanderRest(s: Sys, e: Event)
    requires Undisturbed(e) && !e.Worker?
    ensures var s1 := Step(s, e);
            && Untouched(s, s1) && (NoneActive(s.pods) ==> NoneActive(s1.pods))
            && (s1.pc == s.pc || (s.pc.Idle? && e.Take? && s1.pc == Fetch(e.n)))
            && (GPU in s.pending || GPU in s.retries ==> GPU in s1.pending || GPU in s1.retries || s1.pc == Fetch(GPU))
  {
    hide AfterNodeEvent, Possible, Fires, NoneActive, Server, Cached, TrackOf;
  }

  lemma StillInvisible(s: Sys, s1: Sys)
    requires Untouched(s, s1)
    ensures !Helm.Visible(s.helm) ==> !Helm.Visible(s1.helm)
    ensures !s.ns.Standing? ==> !s1.ns.Standing?
  {}

  lemma StandingFrame(s: Sys, s1: Sys, u: Update)
    requires Server(s1, GPU) == Server(s, GPU)
    ensures Stands(s1, u) == Stands(s, u)
  {}

  lemma BystanderKeepsFlight(s: Sys, e: Event, current: bool)
    requires Undisturbed(e) && !e.Worker? && InFlight(s, current)
    ensures InFlight(Step(s, e), current) && Step(s, e).pc == s.pc
  {
    hide Step, Stands, Untouched, NoneActive, Helm.Visible;
    TrackMoves(s, e);
    BystanderRest(s, e);
    StillInvisible(s, Step(s, e));
    StandingFrame(s, Step(s, e), UNINSTALLING);
  }

  lemma BystanderKeepsRemoved(s: Sys, e: Event)
    requires Undisturbed(e) && !e.Worker? && Removed(s)
    ensures Removed(Step(s, e))
  {
    hide Step, Untouched, NoneActive, Helm.Visible;
    TrackMoves(s, e);
    BystanderRest(s, e);
    StillInvisible(s, Step(s, e));
  }

  lemma BystanderKeepsLeft(s: Sys, e: Event)
    requires Undisturbed(e) && !e.Worker? && OnlyFinalizerLeft(s)
    ensures OnlyFinalizerLeft(Step(s, e))
  {
    hide Step, Stands, Untouched, NoneActive, Helm.Visible;
    TrackMoves(s, e);
    BystanderRest(s, e);
    StillInvisible(s, Step(s, e));
    StandingFrame(s, Step(s, e), UNINSTALLING);
  }

  // ---- what the worker does ----

  lemma LeavingAfterStatus(s: Sys, u: Update, ok: bool)
    requires AllLeaving(TrackOf(s, GPU))
    ensures var s1 := ApplyStatus(s, GPU, u, ok).0;
            && AllLeaving(TrackOf(s1, GPU)) && s1 == s.(views := s1.views, nextRv := s1.nextRv)
  {
    hide Merge;
    if ok {
      var cr := Server(s, GPU).obj.value;
      assert Leaving(Server(s, GPU));
      LeavingAfterWrite(TrackOf(s, GPU), View(s.nextRv, Some(cr.(status := Merge(cr.status, u, cr.gen, s.now)))));
    }
  }

  lemma LeavingAfterWrite(t: Track, v: View)
    requires AllLeaving(t) && Leaving(v)
    ensures AllLeaving(t + [v])
  {}

  lemma FetchesDeleted(s: Sys, current: bool, t: Turn)
    requires InFlight(s, current) && s.pc.Fetch? && FaultFree(t)
    ensures InFlight(Work(s, t), current) && Work(s, t).pc == MarkUninstalling
  {
    assert Leaving(Cached(s, GPU));
    assert Work(s, t) == FetchStep(s, GPU, t) == s.(pc := MarkUninstalling);
    hide NoneActive, Stands, AllLeaving, Helm.Visible;
    StandingFrame(s, Work(s, t), UNINSTALLING);
  }

  lemma Announces(s: Sys, current: bool, t: Turn)
    requires InFlight(s, current) && s.pc.MarkUninstalling? && FaultFree(t)
    ensures InFlight(Work(s, t), current) && Work(s, t).pc == ListPods
  {
    hide NoneActive, Stands, AllLeaving, ApplyStatus, Only, Helm.Visible;
    var s1 := ApplyStatus(s, GPU, UNINSTALLING, t.ok).0;
    LeavingAfterStatus(s, UNINSTALLING, t.ok);
    OneReportIsProper(UNINSTALLING_REPORT);
    AppliedUpdateStands(s, UNINSTALLING);
    if current { StandingUpdateIsSilent(s, UNINSTALLING, t.ok); }
    StandingFrame(s1, Work(s, t), UNINSTALLING);
  }

  /** A call that only moves on, or removes the release or the namespace. */
  lemma ClearsOne(s: Sys, current: bool, s1: Sys)
    requires InFlight(s, current) && 2 <= Remaining(s.pc) <= 5 && Remaining(s1.pc) == Remaining(s.pc) - 1
    requires s1 == s.(pc := s1.pc, helm := s1.helm, ns := s1.ns)
    requires Remaining(s1.pc) <= 3 ==> !Helm.Visible(s1.helm)
    requires Remaining(s1.pc) <= 2 ==> !s1.ns.Standing?
    requires s1.pc.DropFinalizer? ==> s1.pc.read == Cached(s, GPU)
    ensures InFlight(s1, current)
  {
    assert Leaving(Cached(s, GPU));
    hide NoneActive, Stands, AllLeaving, Helm.Visible;
    StandingFrame(s, s1, UNINSTALLING);
  }

  /** The calls from the pod list to the second read. */
  lemma Clears(s: Sys, current: bool, t: Turn)
    requires InFlight(s, current) && 2 <= Remaining(s.pc) <= 5 && FaultFree(t)
    ensures InFlight(Work(s, t), current) && Remaining(Work(s, t).pc) == Remaining(s.pc) - 1
  {
    var s1 := Work(s, t);
    match s.pc
    case ListPods =>
      NothingActiveMeansNone(s.pods);
      PassesGuard(s, t);
      hide InFlight, Work;
      ClearsOne(s, current, s1);
    case RemoveRelease =>
      Removes(s, t);
      hide InFlight, Work, Helm.Visible;
      ClearsOne(s, current, s1);
    case DeleteNamespace =>
      DeletesHouse(s, t);
      hide InFlight, Work, Helm.Visible;
      ClearsOne(s, current, s1);
    case Refetch =>
      assert Leaving(Cached(s, GPU));
      Refetches(s, t);
      hide InFlight, Work, Helm.Visible;
      ClearsOne(s, current, s1);
  }

  lemma PassesGuard(s: Sys, t: Turn)
    requires s.pc == ListPods && ActiveWorkloadsOf(s.pods) == []
    ensures Work(s, t) == s.(pc := RemoveRelease)
  {}

  lemma Removes(s: Sys, t: Turn)
    requires s.pc == RemoveRelease && FaultFree(t)
    ensures var s1 := Work(s, t); s1 == s.(pc := DeleteNamespace, helm := s1.helm) && !Helm.Visible(s1.helm)
  {
    hide Helm.UninstallRelease;
    UninstallHides(s.helm);
  }

  lemma Refetches(s: Sys, t: Turn)
    requires s.pc == Refetch && t.ok && Cached(s, GPU).obj.Some?
    ensures Work(s, t) == s.(pc := DropFinalizer(Cached(s, GPU)))
  {}

  lemma UninstallHides(h: Helm.History)
    ensures var (h1, c) := Helm.UninstallRelease(h, Helm.UNINSTALL_OK); c.Done? && !Helm.Visible(h1)
  {}

  lemma Drops(s: Sys, current: bool, read: View, t: Turn)
    requires Sound(s) && InFlight(s, current) && s.pc == DropFinalizer(read) && FaultFree(t)
    ensures Removed(Work(s, t)) || (!current && OnlyFinalizerLeft(Work(s, t)))
  {
    var s1 := Work(s, t);
    assert s1 == ReleaseStep(s, GPU, read, t);
    if read == Server(s, GPU) {
      assert forall i | 0 <= i < |TrackOf(s, GPU)| :: Leaving(TrackOf(s, GPU)[i]);
      hide Sound, Stands, NoneActive, Helm.Visible;
    } else {
      hide Sound, Stands, NoneActive, AllLeaving, Helm.Visible;
      StandingFrame(s, s1, UNINSTALLING);
    }
  }

  /** Every fault-free call brings the deletion one further. */
  lemma InFlightWorks(s: Sys, current: bool, t: Turn)
    requires Sound(s) && InFlight(s, current) && FaultFree(t)
    ensures var s1 := Work(s, t);
            if Remaining(s.pc) > 1 then InFlight(s1, current) && Remaining(s1.pc) == Remaining(s.pc) - 1
            else Removed(s1) || (!current && OnlyFinalizerLeft(s1))
  {
    assert Remaining(s.pc) > 0;
    hide InFlight, Work, Sound, Removed, OnlyFinalizerLeft;
    match s.pc
    case Fetch(_) => FetchesDeleted(s, current, t);
    case MarkUninstalling => Announces(s, current, t);
    case DropFinalizer(read) => Drops(s, current, read, t);
    case _ => Clears(s, current, t);
  }

  /** A status write changes neither finalizers nor deletion marks. */
  lemma RemovedAfterStatus(s: Sys, n: string, u: Update, ok: bool)
    requires NoneLiveAtAll(TrackOf(s, GPU)) && !Owned(Server(s, GPU))
    requires Server(s, GPU).obj.Some? ==> Server(s, GPU).obj.value.foreign
    ensures var s1 := ApplyStatus(s, n, u, ok).0;
            && NoneLiveAtAll(TrackOf(s1, GPU)) && !Owned(Server(s1, GPU))
            && (Server(s1, GPU).obj.Some? ==> Server(s1, GPU).obj.value.foreign)
            && s1 == s.(views := s1.views, nextRv := s1.nextRv)
  {
    hide Merge;
  }

  lemma RemovedReports(s: Sys, t: Turn)
    requires Removed(s) && Reports(s.pc)
    ensures Removed(Work(s, t))
  {
    hide ApplyStatus, NoneLiveAtAll, Helm.Visible, Only, BlockedUpdate;
    match s.pc
    case MarkUninstalling => RemovedAfterStatus(s, GPU, Only(UNINSTALLING_REPORT), t.ok);
    case ReportBlocked(active) => RemovedAfterStatus(s, GPU, BlockedUpdate(active), t.ok);
    case MarkRogue(n) => RemovedAfterStatus(s, n, Only(ROGUE_REPORT), t.ok);
    case _ =>
  }

  lemma RemovedUninstalls(s: Sys, t: Turn)
    requires Removed(s) && s.pc.RemoveRelease?
    ensures Removed(Work(s, t))
  {
    assert Work(s, t) == RemoveReleaseStep(s, t);
    var (h, c) := Helm.UninstallRelease(s.helm, t.removal);
    assert h == s.helm && !c.Crashed?;
    hide Helm.UninstallRelease, Helm.Visible, NoneLiveAtAll, Work;
  }

  lemma RemovedUpdates(s: Sys, t: Turn)
    requires Sound(s) && Removed(s) && (s.pc.FreeRogue? || s.pc.DropFinalizer?)
    ensures Removed(Work(s, t))
  {
    assert s.pc.FreeRogue? ==> s.pc.n != GPU;
    hide Sound, NoneLiveAtAll, Helm.Visible, Released;
  }

  lemma RemovedReads(s: Sys, t: Turn)
    requires Removed(s)
    requires s.pc.Idle? || s.pc.Fetch? || s.pc.ListPods? || s.pc.Refetch?
    ensures Removed(Work(s, t))
  {
    assert !Live(Cached(s, GPU));
    ReadsWriteNothing(s, t);
    WorkFollows(s, t);
    if s.pc.Fetch? { DyingIsNotInstalled(s, t); }
    hide Work, NoneLiveAtAll, Helm.Visible;
  }

  lemma DyingIsNotInstalled(s: Sys, t: Turn)
    requires s.pc.Fetch? && !Live(Cached(s, GPU))
    ensures !Installing(Work(s, t).pc) && !Work(s, t).pc.AddFinalizer?
  {
    hide Cached;
  }

  /** Nothing brings our finalizer, the release or the namespace back. */
  lemma RemovedWorks(s: Sys, t: Turn)
    requires Sound(s) && Removed(s)
    ensures Removed(Work(s, t))
  {
    assert !Installing(s.pc) && !s.pc.AddFinalizer? && !s.ns.Standing?;
    hide Sound, Removed, Work;
    if Reports(s.pc) {
      RemovedReports(s, t);
    } else if s.pc.RemoveRelease? {
      RemovedUninstalls(s, t);
    } else if s.pc.FreeRogue? || s.pc.DropFinalizer? {
      RemovedUpdates(s, t);
    } else if s.pc.DeleteNamespace? {
      DeletesHouse(s, t);
      RemovedMoves(s, Work(s, t));
    } else {
      RemovedReads(s, t);
    }
  }

  lemma RemovedMoves(s: Sys, s1: Sys)
    requires Removed(s) && s1.views == s.views && s1.helm == s.helm && !s1.ns.Standing?
    requires !Installing(s1.pc) && !s1.pc.AddFinalizer?
    ensures Removed(s1)
  {}

  /** The worker rests or serves another CR. */
  lemma ElsewhereWorks(s: Sys, t: Turn)
    requires Sound(s) && OnlyFinalizerLeft(s) && Remaining(s.pc) == 0
    ensures OnlyFinalizerLeft(Work(s, t))
  {
    var s1 := Work(s, t);
    if s.pc.MarkRogue? || s.pc.FreeRogue? {
      OthersChangeNothing(s, t);
      OthersKeepQueue(s, t);
    } else {
      ReadsWriteNothing(s, t);
      FetchesAnother(s, t);
    }
    hide Sound, Stands, NoneActive, AllLeaving, Helm.Visible, Work;
    StandingFrame(s, s1, UNINSTALLING);
  }

  lemma OthersKeepQueue(s: Sys, t: Turn)
    requires s.pc.MarkRogue? || s.pc.FreeRogue?
    ensures var s1 := Work(s, t); s1.pending == s.pending && s.retries <= s1.retries && s1.pods == s.pods
  {
    hide Merge, Only, Released;
  }

  lemma FetchesAnother(s: Sys, t: Turn)
    requires s.pc.Idle? || (s.pc.Fetch? && s.pc.n != GPU)
    ensures var s1 := Work(s, t);
            && s1.pending == s.pending && s.retries <= s1.retries && s1.pods == s.pods
            && (s1.pc.Idle? || s1.pc.MarkRogue? || s1.pc.FreeRogue?)
  {
    hide Cached;
  }

  // ---- every run ----

  ghost predicate Deleting(s: Sys, current: bool, steps: nat) {
    (InFlight(s, current) && Remaining(s.pc) + steps == 7) || Removed(s) || (!current && OnlyFinalizerLeft(s))
  }

  lemma DeletingStep(s: Sys, current: bool, steps: nat, e: Event)
    requires Sound(s) && Deleting(s, current, steps) && Undisturbed(e)
    ensures Deleting(Step(s, e), current, steps + if e.Worker? then 1 else 0)
  {
    hide Sound, InFlight, Removed, OnlyFinalizerLeft;
    if !e.Worker? {
      if InFlight(s, current) { BystanderKeepsFlight(s, e, current); }
      if Removed(s) { BystanderKeepsRemoved(s, e); }
      if OnlyFinalizerLeft(s) { BystanderKeepsLeft(s, e); }
    } else if InFlight(s, current) && Remaining(s.pc) + steps == 7 {
      InFlightWorks(s, current, e.turn);
    } else if Removed(s) {
      RemovedWorks(s, e.turn);
    } else {
      RetriedWorks(s, e.turn);
    }
  }

  /** A further reconcile with only the finalizer left to drop: until then it writes nothing. */
  lemma RetriedWorks(s: Sys, t: Turn)
    requires Sound(s) && OnlyFinalizerLeft(s) && FaultFree(t)
    ensures OnlyFinalizerLeft(Work(s, t)) || Removed(Work(s, t))
  {
    hide Sound, Removed, Work, Stands, AllLeaving, Helm.Visible;
    if Remaining(s.pc) == 0 {
      ElsewhereWorks(s, t);
    } else {
      InFlightWorks(s, false, t);
      if Remaining(s.pc) > 1 {
        RetriedWritesNothing(s, t);
        StandingFrame(s, Work(s, t), UNINSTALLING);
      }
    }
  }

  lemma RetriedWritesNothing(s: Sys, t: Turn)
    requires OnlyFinalizerLeft(s) && Remaining(s.pc) > 1 && FaultFree(t)
    ensures SameOutput(s, Work(s, t))
  {
    if s.pc.MarkUninstalling? {
      StandingUpdateIsSilent(s, UNINSTALLING, t.ok);
    } else if s.pc.RemoveRelease? {
      InvisibleIsLeft(s.helm);
    } else if !s.pc.DeleteNamespace? {
      ReadsWriteNothing(s, t);
    }
    hide Stands, AllLeaving, NoneActive, ApplyStatus, Helm.Visible, Helm.UninstallRelease, FetchStep, ListPodsStep, RefetchStep;
  }

  lemma InvisibleIsLeft(h: Helm.History)
    requires !Helm.Visible(h)
    ensures Helm.UninstallRelease(h, Helm.UNINSTALL_OK) == (h, Helm.Done)
  {}

  lemma {:induction false} DeletionGoesOn(s: Sys, es: seq<Event>, current: bool)
    requires Sound(s) && ReadyToDelete(s) && (current ==> CaughtUp(s))
    requires es != [] && es[0] == Take(GPU) && forall e | e in es :: Undisturbed(e)
    ensures Deleting(Run(s, es), current, WorkerSteps(es)) && Sound(Run(s, es))
  {
    hide Step, Sound, Deleting, Undisturbed, ReadyToDelete, CaughtUp;
    var init, e := es[..|es| - 1], es[|es| - 1];
    if init == [] {
      NothingYet(s, es);
      assert Run(s, init) == s;
      StepKeepsSound(s, e);
      StartsDeletion(s, current);
    } else {
      assert e in es && forall x | x in init :: x in es;
      DeletionGoesOn(s, init, current);
      StepKeepsSound(Run(s, init), e);
      DeletingStep(Run(s, init), current, WorkerSteps(init), e);
    }
  }

  /** The deleted CR is queued and the worker is free. */
  ghost predicate ReadyToDelete(s: Sys) {
    s.pc.Idle? && GPU in s.pending && AllLeaving(TrackOf(s, GPU)) && NoneActive(s.pods)
  }

  lemma StartsDeletion(s: Sys, current: bool)
    requires ReadyToDelete(s) && (current ==> CaughtUp(s))
    ensures Deleting(Step(s, Take(GPU)), current, 0)
  {
    hide AllLeaving, NoneActive, Stands, Helm.Visible;
    StandingFrame(s, Step(s, Take(GPU)), UNINSTALLING);
  }

  lemma DeletingMeans(s: Sys, current: bool, steps: nat)
    requires Deleting(s, current, steps) && Housed(s) && (s.pc.Idle? || steps >= 7)
    ensures Removed(s) || (!current && OnlyFinalizerLeft(s))
    ensures !s.ns.Standing? && !Helm.Visible(s.helm) && (s.helm != [] ==> s.ns.Terminating?)
  {
    hide AllLeaving, NoneLiveAtAll, Stands, NoneActive, Helm.Visible;
  }

  /**
   * Once no GPU pod is active, the next reconcile completes the deletion, if the cache has
   * caught up with the server and the uninstall was announced before. For every undisturbed
   * run from any such reachable state that starts by taking the request: when the worker is
   * idle again, and at the latest after seven of its calls, and ever after, our finalizer is gone, the CR too
   * unless others hold it, the namespace is missing or terminating, and so is any record left.
   */
  lemma DeletionCompletes(init: Sys, past: seq<Event>, es: seq<Event>)
    requires Initial(init) && ReadyToDelete(Run(init, past)) && CaughtUp(Run(init, past))
    requires es != [] && es[0] == Take(GPU) && forall e | e in es :: Undisturbed(e)
    ensures var r := Run(Run(init, past), es);
            r.pc.Idle? || WorkerSteps(es) >= 7 ==>
              && !Owned(Server(r, GPU)) && (Server(r, GPU).obj.Some? ==> Server(r, GPU).obj.value.foreign)
              && !r.ns.Standing? && !Helm.Visible(r.helm) && (r.helm != [] ==> r.ns.Terminating?)
  {
    RunsAreSound(init, past);
    DeletionGoesOn(Run(init, past), es, true);
    RunConcat(init, past, es);
    RunsAreHoused(init, past + es);
    hide Run, Sound, Housed, ReadyToDelete, CaughtUp, NoneLiveAtAll, Deleting, Helm.Visible;
    var r := Run(Run(init, past), es);
    if r.pc.Idle? || WorkerSteps(es) >= 7 { DeletingMeans(r, true, WorkerSteps(es)); }
  }

  /**
   * In general the reconcile may read a version older than its own announcement. Then it ends
   * with the finalizer gone, or with nothing but the finalizer left, the announcement made and
   * another reconcile coming, which completes the deletion once the cache has caught up.
   */
  lemma DeletionConverges(init: Sys, past: seq<Event>, es: seq<Event>)
    requires Initial(init) && ReadyToDelete(Run(init, past))
    requires es != [] && es[0] == Take(GPU) && forall e | e in es :: Undisturbed(e)
    ensures var r := Run(Run(init, past), es);
            r.pc.Idle? || WorkerSteps(es) >= 7 ==>
              && !r.ns.Standing? && !Helm.Visible(r.helm) && (r.helm != [] ==> r.ns.Terminating?)
              && (Removed(r) || OnlyFinalizerLeft(r))
    ensures var r := Run(Run(init, past), es);
            r.pc.Idle? && OnlyFinalizerLeft(r) ==>
              && (GPU in r.pending || GPU in r.retries)
              && (GPU in r.pending && |TrackOf(r, GPU)| == 1 ==> ReadyToDelete(r) && CaughtUp(r))
  {
    RunsAreSound(init, past);
    DeletionGoesOn(Run(init, past), es, false);
    RunConcat(init, past, es);
    RunsAreHoused(init, past + es);
    hide Run, Sound, Housed, NoneLiveAtAll, AllLeaving, NoneActive, Stands, Deleting, Helm.Visible, Removed;
    var r := Run(Run(init, past), es);
    if r.pc.Idle? || WorkerSteps(es) >= 7 { DeletingMeans(r, false, WorkerSteps(es)); }
  }

  // ---- which reconcile completes it ----

  lemma DropsOrRetries(s: Sys, t: Turn)
    requires s.pc.DropFinalizer? && Leaving(s.pc.read) && FaultFree(t) && Leaving(Server(s, GPU))
    ensures Work(s, t).pc.Idle? && (Owned(Server(Work(s, t), GPU)) <==> s.pc.read != Server(s, GPU))
  {}

  /** Until its last call the reconcile holds on to the version it read, and the server's does not change. */
  lemma {:induction false} DropWaits(s: Sys, es: seq<Event>, i: nat, k: nat)
    requires i < k <= |es| && (forall e | e in es :: Undisturbed(e))
    requires At(s, es, i + 1).pc.DropFinalizer? && Leaving(At(s, es, i + 1).pc.read) && Leaving(Server(At(s, es, i + 1), GPU))
    requires forall j | i < j <= k :: !At(s, es, j).pc.Idle?
    ensures At(s, es, k).pc == At(s, es, i + 1).pc && Server(At(s, es, k), GPU) == Server(At(s, es, i + 1), GPU)
  {
    hide Step, Run, NoneActive;
    if k > i + 1 {
      DropWaits(s, es, i, k - 1);
      NextState(s, es, k - 1);
      assert es[k - 1] in es;
      DropWaitsOnce(At(s, es, k - 1), es[k - 1]);
    }
  }

  lemma DropWaitsOnce(s: Sys, e: Event)
    requires s.pc.DropFinalizer? && Leaving(s.pc.read) && Leaving(Server(s, GPU)) && Undisturbed(e) && !Step(s, e).pc.Idle?
    ensures Step(s, e).pc == s.pc && Server(Step(s, e), GPU) == Server(s, GPU)
  {
    if e.Worker? {
      DropsOrRetries(s, e.turn);
    } else {
      TrackMoves(s, e);
      BystanderRest(s, e);
    }
    hide Step, NoneActive;
  }

  /**
   * As long as our finalizer is there, a reconcile of such a run completes the deletion exactly
   * when its second read of the CR finds the cache caught up with the server.
   */
  lemma SecondReadDecides(init: Sys, past: seq<Event>, es: seq<Event>, i: nat, m: nat)
    requires Initial(init) && ReadyToDelete(Run(init, past))
    requires es != [] && es[0] == Take(GPU) && forall e | e in es :: Undisturbed(e)
    requires i < m <= |es| && es[i].Worker?
    requires var s := Run(init, past);
             && At(s, es, i).pc.Refetch? && Owned(Server(At(s, es, i), GPU))
             && At(s, es, m).pc.Idle? && forall k | i < k < m :: !At(s, es, k).pc.Idle?
    ensures var s := Run(init, past);
            !Owned(Server(At(s, es, m), GPU)) <==> |TrackOf(At(s, es, i), GPU)| == 1
  {
    SecondReadState(init, past, es, i);
    SecondReadEnds(Run(init, past), es, i, m);
  }

  lemma SecondReadEnds(s: Sys, es: seq<Event>, i: nat, m: nat)
    requires (forall e | e in es :: Undisturbed(e)) && i < m <= |es| && es[i].Worker?
    requires At(s, es, i).pc.Refetch? && Sound(At(s, es, i)) && AllLeaving(TrackOf(At(s, es, i), GPU))
    requires At(s, es, m).pc.Idle? && forall k | i < k < m :: !At(s, es, k).pc.Idle?
    ensures !Owned(Server(At(s, es, m), GPU)) <==> |TrackOf(At(s, es, i), GPU)| == 1
  {
    hide Run, Step, At, NoneActive, Undisturbed, Sound, AllLeaving;
    assert es[i] in es && es[m - 1] in es;
    var x := At(s, es, i);
    NextState(s, es, i);
    WorkersAreFaultFree(es[i]);
    ReadsAgain(x, es[i].turn);
    DropWaits(s, es, i, m - 1);
    NextState(s, es, m - 1);
    DropEnds(At(s, es, m - 1), es[m - 1]);
    OldestIsNewest(x);
  }

  lemma WorkersAreFaultFree(e: Event)
    requires Undisturbed(e) && e.Worker?
    ensures FaultFree(e.turn)
  {}

  lemma SecondReadState(init: Sys, past: seq<Event>, es: seq<Event>, i: nat)
    requires Initial(init) && ReadyToDelete(Run(init, past)) && i <= |es|
    requires es != [] && es[0] == Take(GPU) && forall e | e in es :: Undisturbed(e)
    requires At(Run(init, past), es, i).pc.Refetch? && Owned(Server(At(Run(init, past), es, i), GPU))
    ensures var x := At(Run(init, past), es, i); Sound(x) && AllLeaving(TrackOf(x, GPU))
  {
    var s := Run(init, past);
    RunsAreSound(init, past);
    NothingYet(s, es);
    assert i > 0 && es[..i] != [] && es[..i][0] == Take(GPU);
    assert forall e | e in es[..i] :: e in es;
    hide Run, Sound, NoneActive, Stands, ReadyToDelete, Undisturbed;
    DeletionGoesOn(s, es[..i], false);
  }

  lemma ReadsAgain(s: Sys, t: Turn)
    requires s.pc == Refetch && AllLeaving(TrackOf(s, GPU)) && FaultFree(t)
    ensures var s1 := Step(s, Worker(t));
            && s1.pc == DropFinalizer(Cached(s, GPU)) && TrackOf(s1, GPU) == TrackOf(s, GPU) && Leaving(Cached(s, GPU))
            && Leaving(Server(s, GPU)) && Server(s1, GPU) == Server(s, GPU)
  {
    assert Leaving(Cached(s, GPU)) && Leaving(Server(s, GPU));
    Refetches(s, t);
    hide Work;
  }

  lemma DropEnds(s: Sys, e: Event)
    requires s.pc.DropFinalizer? && Leaving(s.pc.read) && Leaving(Server(s, GPU)) && Undisturbed(e) && Step(s, e).pc.Idle?
    ensures Owned(Server(Step(s, e), GPU)) <==> s.pc.read != Server(s, GPU)
  {
    if e.Worker? {
      DropsOrRetries(s, e.turn);
    } else {
      BystanderRest(s, e);
    }
    hide Work, NoneActive;
  }

  lemma OldestIsNewest(s: Sys)
    requires Sound(s)
    ensures Cached(s, GPU) == Server(s, GPU) <==> |TrackOf(s, GPU)| == 1
  {}
}

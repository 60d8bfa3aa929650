/** No lost wakeup: whatever needs another reconcile of "gpu" has one coming. */
module Wakeup {
  import opened Text
  import opened Values
  import opened Detection
  import opened Conditions
  import opened Cluster
  import opened Machine
  import opened Lifecycle
  import Helm

  /** A reconcile of "gpu" is queued, scheduled, retried, announced by an undelivered version, or running. */
  ghost predicate Coming(s: Sys) {
    GPU in s.pending || GPU in s.timers || GPU in s.retries || |TrackOf(s, GPU)| > 1 || Subject(s.pc) == Some(GPU)
  }

  /** The last reconcile ended in a hard preflight error and the nodes still give that same result. */
  ghost predicate StoppedRightly(s: Sys) {
    s.stopped.Some? && s.stopped.value.Stop? && PreflightOf(s.nodes) == s.stopped.value
  }

  ghost predicate LeavingWithoutUs(v: View) { v.obj.Some? && v.obj.value.deleting && !v.obj.value.ours }

  ghost predicate Awake(s: Sys) {
    Server(s, GPU).obj.Some? ==> Coming(s) || StoppedRightly(s) || LeavingWithoutUs(Server(s, GPU))
  }

  /** A verdict about to be recorded is current, or another look is already queued. */
  ghost predicate VerdictCurrent(s: Sys) {
    s.pc.Halt? ==> s.pc.verdict.Warn? ||
                   (s.pc.verdict.Stop? && (PreflightOf(s.nodes) == s.pc.verdict || GPU in s.pending))
  }

  predicate Leaving(v: View) { Owned(v) && !Live(v) }

  /** During a deletion the version that started it is still current in the cache, or a delivery queued another look. */
  ghost predicate DeletionCurrent(s: Sys) {
    && (Removing(s.pc) ==> Leaving(Cached(s, GPU)) || GPU in s.pending)
    && (s.pc.DropFinalizer? ==> Leaving(s.pc.read) || GPU in s.pending)
  }

  ghost predicate Vigilant(s: Sys) {
    Sound(s) && Awake(s) && VerdictCurrent(s) && DeletionCurrent(s)
  }

  /** The listing of CRs in the map function succeeds. */
  predicate ListingWorks(e: Event) {
    match e
    case NodeChange(_, listed) => listed
    case DriverChange(_, _, listed) => listed
    case _ => true
  }

  // ---- worker steps ----

  lemma HaltKeepsVigilant(s: Sys, p: Preflight, t: Turn)
    requires Vigilant(s) && s.pc == Halt(p) && Sound(Work(s, t))
    ensures Vigilant(Work(s, t))
  {
    hide Sound, Merge, Only, VerdictReport, PreflightOf;
  }

  lemma RetryIsVigilant(s: Sys, s1: Sys)
    requires Sound(s1) && s1.pc.Idle? && (GPU in s1.retries || GPU in s1.timers || GPU in s1.pending || |TrackOf(s1, GPU)| > 1)
    ensures Vigilant(s1)
  {
    hide Sound;
  }

  /** What a status update leaves alone; writing one for "gpu" announces a new version. */
  lemma StatusFrame(s: Sys, n: string, u: Update, ok: bool)
    ensures var s1 := ApplyStatus(s, n, u, ok).0;
            && s1 == s.(views := s1.views, nextRv := s1.nextRv)
            && Cached(s1, GPU) == Cached(s, GPU)
            && (TrackOf(s1, GPU) == TrackOf(s, GPU) || (n == GPU && |TrackOf(s1, GPU)| > 1))
  {
    hide Merge;
  }

  lemma MarkRogueKeepsVigilant(s: Sys, t: Turn)
    requires Vigilant(s) && s.pc.MarkRogue? && Sound(Work(s, t))
    ensures Vigilant(Work(s, t))
  {
    assert s.pc.n != GPU;
    hide Sound, ApplyStatus, Only, PreflightOf;
    StatusFrame(s, s.pc.n, Only(ROGUE_REPORT), t.ok);
  }

  lemma ReleaseFrame(s: Sys, n: string, read: View, t: Turn)
    requires n != GPU
    ensures var s1 := ReleaseStep(s, n, read, t);
            && TrackOf(s1, GPU) == TrackOf(s, GPU)
            && s1 == s.(views := s1.views, nextRv := s1.nextRv, pc := Idle, retries := s1.retries)
            && s.retries <= s1.retries
  {
    hide Released;
  }

  lemma FreeRogueKeepsVigilant(s: Sys, t: Turn)
    requires Vigilant(s) && s.pc.FreeRogue? && Sound(Work(s, t))
    ensures Vigilant(Work(s, t))
  {
    assert s.pc.n != GPU;
    assert Work(s, t) == ReleaseStep(s, s.pc.n, s.pc.read, t);
    hide Sound, PreflightOf, ReleaseStep, Work;
    ReleaseFrame(s, s.pc.n, s.pc.read, t);
  }

  lemma FetchKeepsVigilant(s: Sys, n: string, t: Turn)
    requires Vigilant(s) && s.pc == Fetch(n) && Sound(Work(s, t))
    ensures Vigilant(Work(s, t))
  {
    hide Sound, PreflightOf;
  }

  lemma InstallingKeepsVigilant(s: Sys, t: Turn)
    requires Vigilant(s) && Sound(Work(s, t))
    requires s.pc.CheckNodes? || s.pc.ReportHelm? || s.pc.ReadDrivers? || s.pc.ReadPolicy? || s.pc.Publish?
    ensures Vigilant(Work(s, t))
  {
    hide Sound, Merge, Only, PreflightOf, DriverCheckOf, PolicyReport, FullUpdate, HelmFailedUpdate, SetAll;
  }

  lemma DeployKeepsVigilant(s: Sys, t: Turn)
    requires Vigilant(s) && s.pc.Deploy? && Sound(Work(s, t))
    ensures Vigilant(Work(s, t))
  {
    hide Sound, Helm.InstallOrUpgrade, BuildValues, PreflightOf;
    RestartServes(s, s.cfg);
  }

  lemma RestartServes(s: Sys, cfg: Config)
    ensures Server(s, GPU).obj.Some? ==> GPU in Restarted(s, cfg).pending
  {}

  lemma UpdatesKeepVigilant(s: Sys, t: Turn)
    requires Vigilant(s) && (s.pc.AddFinalizer? || s.pc.DropFinalizer?) && Sound(Work(s, t))
    ensures Vigilant(Work(s, t))
  {
    hide Sound, PreflightOf;
  }

  lemma RemovingKeepsVigilant(s: Sys, t: Turn)
    requires Vigilant(s) && Sound(Work(s, t))
    requires s.pc.ListPods? || s.pc.DeleteNamespace? || s.pc.Refetch?
    ensures Vigilant(Work(s, t))
  {
    hide Sound, PreflightOf, ActiveWorkloadsOf;
  }

  lemma ReleaseGone(s: Sys, helm: Helm.History)
    requires Vigilant(s) && s.pc.RemoveRelease? && Sound(s.(helm := helm, pc := DeleteNamespace))
    ensures Vigilant(s.(helm := helm, pc := DeleteNamespace))
  {
    hide Sound, PreflightOf;
  }

  lemma RemoveReleaseKeepsVigilant(s: Sys, t: Turn)
    requires Vigilant(s) && s.pc.RemoveRelease? && Sound(Work(s, t))
    ensures Vigilant(Work(s, t))
  {
    assert Work(s, t) == RemoveReleaseStep(s, t);
    hide Sound, Vigilant, Helm.UninstallRelease, Restarted, Work;
    var (h, c) := Helm.UninstallRelease(s.helm, t.removal);
    match c
    case Done => ReleaseGone(s, h);
    case Errored => RetryIsVigilant(s, Work(s, t));
    case Crashed => RestartKeepsVigilant(s.(helm := h), s.cfg);
  }

  lemma RestartIdle(s: Sys, cfg: Config)
    ensures Restarted(s, cfg).pc.Idle? && Server(Restarted(s, cfg), GPU).obj == Server(s, GPU).obj
  {}

  lemma ReportingKeepsVigilant(s: Sys, t: Turn)
    requires Vigilant(s) && (s.pc.MarkUninstalling? || s.pc.ReportBlocked?) && Sound(Work(s, t))
    ensures Vigilant(Work(s, t))
  {
    hide Sound, ApplyStatus, Only, PreflightOf, BlockedUpdate;
    if s.pc.MarkUninstalling? {
      StatusFrame(s, GPU, Only(UNINSTALLING_REPORT), t.ok);
    } else {
      StatusFrame(s, GPU, BlockedUpdate(s.pc.active), t.ok);
    }
  }

  lemma WorkKeepsVigilant(s: Sys, t: Turn)
    requires Vigilant(s)
    ensures Vigilant(Work(s, t))
  {
    WorkKeepsSound(s, t);
    hide Vigilant, Work;
    match s.pc
    case Idle => assert Work(s, t) == s by { IdleRests(s, t); }
    case Fetch(n) => FetchKeepsVigilant(s, n, t);
    case Halt(p) => HaltKeepsVigilant(s, p, t);
    case Deploy(_, _) => DeployKeepsVigilant(s, t);
    case MarkRogue(_) => MarkRogueKeepsVigilant(s, t);
    case FreeRogue(_, _) => FreeRogueKeepsVigilant(s, t);
    case AddFinalizer(_) => UpdatesKeepVigilant(s, t);
    case DropFinalizer(_) => UpdatesKeepVigilant(s, t);
    case CheckNodes(_) => InstallingKeepsVigilant(s, t);
    case ReportHelm(_, _) => InstallingKeepsVigilant(s, t);
    case ReadDrivers(_, _) => InstallingKeepsVigilant(s, t);
    case ReadPolicy(_, _, _) => InstallingKeepsVigilant(s, t);
    case Publish(_, _, _, _) => InstallingKeepsVigilant(s, t);
    case MarkUninstalling => ReportingKeepsVigilant(s, t);
    case ReportBlocked(_) => ReportingKeepsVigilant(s, t);
    case RemoveRelease => RemoveReleaseKeepsVigilant(s, t);
    case _ => RemovingKeepsVigilant(s, t);
  }

  lemma IdleRests(s: Sys, t: Turn)
    requires s.pc.Idle?
    ensures Work(s, t) == s
  {}

  // ---- everything else ----

  /** A change that appends a version of "gpu" announces itself. */
  lemma WriteIsVigilant(s: Sys, obj: Option<Cr>)
    requires Vigilant(s) && Sound(Write(s, GPU, obj))
    ensures Vigilant(Write(s, GPU, obj))
  {
    hide Sound, PreflightOf;
  }

  lemma OtherWriteIsVigilant(s: Sys, n: string, obj: Option<Cr>)
    requires Vigilant(s) && n != GPU && Sound(Write(s, n, obj))
    ensures Vigilant(Write(s, n, obj))
  {
    hide Sound, PreflightOf;
  }

  lemma ChangeKeepsVigilant(s: Sys, e: Event, cr: Cr)
    requires Vigilant(s) && Sound(Change(s, e, cr))
    ensures Vigilant(Change(s, e, cr))
  {
    hide Sound, Vigilant, Write;
    if Change(s, e, cr) != s {
      var obj := if e.Edit? then Some(cr.(spec := e.spec, gen := cr.gen + 1))
                 else if e.Touch? then
                   if cr.deleting && !cr.ours && !e.foreign then None else Some(cr.(foreign := e.foreign))
                 else if !cr.ours && !cr.foreign then None
                 else Some(cr.(deleting := true, gen := cr.gen + 1));
      assert Change(s, e, cr) == Write(s, e.n, obj);
      if e.n == GPU { WriteIsVigilant(s, obj); } else { OtherWriteIsVigilant(s, e.n, obj); }
    }
  }

  lemma NodeChangeKeepsVigilant(s: Sys, change: NodeEvent)
    requires Vigilant(s) && Sound(NodeChangeStep(s, change, true))
    ensures Vigilant(NodeChangeStep(s, change, true))
  {
    assert s.pc.Halt? ==> AllOwned(TrackOf(s, GPU));
    hide Sound, GpuView, Judge, AfterNodeEvent, Fires;
    if Possible(s.nodes, change) && !Fires(s.nodes, change) {
      FiresExactly(s.nodes, change);
    } else if Possible(s.nodes, change) {
      assert Cached(s, GPU).obj.Some? ==> GPU in CachedNames(s);
    }
  }

  lemma QueueKeepsVigilant(s: Sys, e: Event)
    requires Vigilant(s) && Sound(Step(s, e)) && ListingWorks(e)
    requires e.Take? || e.TimerFires? || e.RetryFires? || e.Deliver? || e.DriverChange? || e.PodChange? || e.PolicyChange? || e.Tick?
             || e.NamespaceGone?
    ensures Vigilant(Step(s, e))
  {
    hide Sound, PreflightOf;
  }

  lemma StepKeepsVigilant(s: Sys, e: Event)
    requires Vigilant(s) && ListingWorks(e)
    ensures Vigilant(Step(s, e))
  {
    StepKeepsSound(s, e);
    match e
    case Worker(t) => WorkKeepsVigilant(s, t);
    case NodeChange(change, listed) => NodeChangeKeepsVigilant(s, change);
    case Create(n, spec, foreign) => CreateKeepsVigilant(s, e);
    case Restart(cfg) => RestartKeepsVigilant(s, cfg);
    case Edit(n, _) => if Server(s, n).obj.Some? { ChangeKeepsVigilant(s, e, Server(s, n).obj.value); }
    case Touch(n, _) => if Server(s, n).obj.Some? { ChangeKeepsVigilant(s, e, Server(s, n).obj.value); }
    case Delete(n) => if Server(s, n).obj.Some? { ChangeKeepsVigilant(s, e, Server(s, n).obj.value); }
    case _ => QueueKeepsVigilant(s, e);
  }

  lemma CreateKeepsVigilant(s: Sys, e: Event)
    requires Vigilant(s) && e.Create? && Sound(Step(s, e))
    ensures Vigilant(Step(s, e))
  {
    hide Sound, PreflightOf;
  }

  lemma RestartKeepsVigilant(s: Sys, cfg: Config)
    requires Sound(Restarted(s, cfg))
    ensures Vigilant(Restarted(s, cfg))
  {
    hide Sound, Restarted;
    RestartServes(s, cfg);
    RestartIdle(s, cfg);
  }

  /**
   * In every run in which the map function can list the CRs: while CR "gpu" exists, another
   * reconcile of it is coming, or the last one stopped on a preflight error that still stands,
   * or the CR is being deleted without our finalizer.
   */
  lemma {:induction false} NoLostWakeup(s: Sys, es: seq<Event>)
    requires Initial(s) && forall e | e in es :: ListingWorks(e)
    ensures Vigilant(Run(s, es))
    ensures var r := Run(s, es);
            Server(r, GPU).obj.Some? ==> Coming(r) || StoppedRightly(r) || LeavingWithoutUs(Server(r, GPU))
  {
    if es != [] {
      NoLostWakeup(s, es[..|es| - 1]);
      assert es[|es| - 1] in es;
      StepKeepsVigilant(Run(s, es[..|es| - 1]), es[|es| - 1]);
    }
  }

  /** Without the listing a node change can be lost: a corrected node pool is not looked at again. */
  lemma FailedListingLosesWakeup(s: Sys, change: NodeEvent)
    requires Vigilant(s) && Server(s, GPU).obj.Some? && !Coming(s) && !LeavingWithoutUs(Server(s, GPU))
    requires Possible(s.nodes, change) && PreflightOf(AfterNodeEvent(s.nodes, change)) != PreflightOf(s.nodes)
    ensures !Awake(Step(s, NodeChange(change, false))) && Awake(Step(s, NodeChange(change, true)))
  {
    hide GpuView, Judge, AfterNodeEvent;
    StepKeepsVigilant(s, NodeChange(change, true));
    hide Sound;
  }
}

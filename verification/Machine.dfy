/**
 * The reconciler, the API server, the caches and the work queue as one transition system.
 *
 * A worker step is one API or Helm call of gpu_controller.go; between any two of them every
 * other event may happen, and every call may fail. Objects the controller only reads (nodes,
 * pods, DaemonSets) are represented by the cache's copy. Gpu CRs are written too, so they are
 * tracked from the cached version to the server's: reads may lag but never go backwards, and
 * an update succeeds only on the server's version. Only this controller writes the status,
 * its finalizer and the release, and a status re-read sees the last status written.
 */
module Machine {
  import opened Text
  import opened Values
  import opened Detection
  import opened Conditions
  import opened Cluster
  import Helm

  // ---- state ----

  datatype Artifacts = Artifacts(chart: Option<string>, base: Option<Fields>)

  /** The embedded chart's version and parsed base values; None where loading fails. */
  type Config = c: Artifacts | c.chart.Some? ==> c.chart.value != "" witness Artifacts(None, None)

  datatype Cr = Cr(gen: nat, deleting: bool, ours: bool, foreign: bool, spec: GpuSpec, status: GpuStatus)

  datatype View = View(rv: nat, obj: Option<Cr>)

  /** The versions of one CR from the cached one (first) to the server's (last). */
  type Track = t: seq<View> | |t| > 0 witness [View(0, None)]

  const GPU := "gpu"

  /** The namespace gpu-operator, which also holds the release records. */
  datatype Namespace = Missing | Standing | Terminating

  /** Where the worker is: which call of which reconcile comes next, with the locals it needs. */
  datatype Pc =
    | Idle
    | Fetch(n: string)
    | MarkRogue(n: string)
    | FreeRogue(n: string, read: View)
    | AddFinalizer(read: View)
    | CheckNodes(spec: GpuSpec)
    | Halt(verdict: Preflight)
    | Deploy(spec: GpuSpec, os: OsType)
    | ReportHelm(os: OsType, error: string)
    | ReadDrivers(os: OsType, version: string)
    | ReadPolicy(os: OsType, version: string, driver: DriverCheck)
    | Publish(os: OsType, version: string, driver: DriverCheck, validator: Report)
    | MarkUninstalling
    | ListPods
    | ReportBlocked(active: seq<(string, string)>)
    | RemoveRelease
    | DeleteNamespace
    | Refetch
    | DropFinalizer(read: View)

  /** stopped and basis are history variables: the last hard preflight verdict, the inputs of the last full apply. */
  datatype Sys = Sys(
    cfg: Config,
    views: map<string, Track>, nextRv: nat, now: nat,
    nodes: seq<Node>, pods: seq<Pod>, drivers: seq<DaemonSet>, policy: Policy,
    helm: Helm.History, ns: Namespace,
    pending: set<string>, timers: set<string>, retries: set<string>,
    pc: Pc,
    stopped: Option<Preflight>, basis: Option<seq<Condition>>)

  function TrackOf(s: Sys, n: string): Track {
    if n in s.views then s.views[n] else [View(0, None)]
  }

  function Cached(s: Sys, n: string): View { TrackOf(s, n)[0] }

  function Server(s: Sys, n: string): View { TrackOf(s, n)[|TrackOf(s, n)| - 1] }

  function CachedNames(s: Sys): set<string> {
    set n | n in s.views && Cached(s, n).obj.Some?
  }

  function ServerNames(s: Sys): set<string> {
    set n | n in s.views && Server(s, n).obj.Some?
  }

  function Subject(pc: Pc): Option<string> {
    match pc
    case Idle => None
    case Fetch(n) => Some(n)
    case MarkRogue(n) => Some(n)
    case FreeRogue(n, _) => Some(n)
    case _ => Some(GPU)
  }

  // ---- writes and ends of a reconcile ----

  function Write(s: Sys, n: string, obj: Option<Cr>): Sys {
    s.(views := s.views[n := TrackOf(s, n) + [View(s.nextRv, obj)]], nextRv := s.nextRv + 1)
  }

  function Done(s: Sys): Sys { s.(pc := Idle) }

  /** An error return: the queue retries the request. */
  function Retry(s: Sys, n: string): Sys { s.(pc := Idle, retries := s.retries + {n}) }

  /** RequeueAfter. */
  function Later(s: Sys, n: string): Sys { s.(pc := Idle, timers := s.timers + {n}) }

  /** applyStatus: merge into the stored status, patch only if that changes it; false is an error. */
  function ApplyStatus(s: Sys, n: string, u: Update, ok: bool): (Sys, bool) {
    if !ok || Server(s, n).obj.None? then (s, false)
    else
      var cr := Server(s, n).obj.value;
      var st := Merge(cr.status, u, cr.gen, s.now);
      (if st == cr.status then s else Write(s, n, Some(cr.(status := st))), true)
  }

  /** Process restart: caches refilled, every CR queued, nothing else remembered. */
  function Restarted(s: Sys, cfg: Config): Sys {
    s.(cfg := cfg, views := map n | n in s.views :: [Server(s, n)],
       pending := ServerNames(s), timers := {}, retries := {}, pc := Idle, stopped := None)
  }

  // ---- the worker ----

  /** How the calls of one worker step go; an install refused late has already made the namespace. */
  datatype Turn = Turn(ok: bool, error: string, helm: Helm.Oracle, removal: Helm.UninstallOracle, late: bool)

  function Only(r: Report): Update { Update([r], false, "", None) }

  const ROGUE_REPORT := Report(CondReady, False, ForbiddenName, OnlySingleton)
  const UNINSTALLING_REPORT := Report(CondHelmInstalled, Unknown, Uninstalling, UninstallingOperator)

  function PassedReport(os: OsType): Report { Report(CondPreflight, True, Passed, AllNodesRun(os)) }

  function VerdictReport(p: Preflight): Report {
    match p
    case Warn(reason) => Report(CondPreflight, Unknown, Waiting, PreflightSays(reason))
    case Stop(reason) => Report(CondPreflight, False, Failed, PreflightSays(reason))
    case Proceed(os) => PassedReport(os)
  }

  function HelmFailedUpdate(os: OsType, error: string): Update {
    Update([PassedReport(os), Report(CondHelmInstalled, False, Failed, HelmFailed(error))], false, "", None)
  }

  function DriverReport(d: DriverCheck): Report { Report(CondDriverReady, d.status, d.reason, d.message) }

  function FullUpdate(os: OsType, version: string, d: DriverCheck, validator: Report): Update {
    Update([PassedReport(os), Report(CondHelmInstalled, True, Installed, VersionInstalled(version)),
            DriverReport(d), validator], true, version, Some(d.info))
  }

  /** Reconcile's branches right after the CR was read. */
  function Gate(n: string, read: View): Pc
    requires read.obj.Some?
  {
    var cr := read.obj.value;
    if cr.deleting then
      if !cr.ours then Idle else if n != GPU then FreeRogue(n, read) else MarkUninstalling
    else if n != GPU then MarkRogue(n)
    else if !cr.ours then AddFinalizer(read)
    else CheckNodes(cr.spec)
  }

  function FetchStep(s: Sys, n: string, t: Turn): Sys {
    if !t.ok then Retry(s, n)
    else if Cached(s, n).obj.None? then Done(s)
    else s.(pc := Gate(n, Cached(s, n)))
  }

  function MarkRogueStep(s: Sys, n: string, t: Turn): Sys {
    var (s1, ok) := ApplyStatus(s, n, Only(ROGUE_REPORT), t.ok);
    if ok then Done(s1) else Retry(s1, n)
  }

  /** The object after our finalizer is gone: a deleting object without finalizers disappears. */
  function Released(cr: Cr): Option<Cr> {
    if cr.deleting && !cr.foreign then None else Some(cr.(ours := false))
  }

  /** Update without our finalizer; the API server refuses it unless the version read is current. */
  function ReleaseStep(s: Sys, n: string, read: View, t: Turn): Sys {
    if !t.ok || read.obj.None? || read != Server(s, n) then Retry(s, n)
    else if !read.obj.value.ours then Done(s)
    else Done(Write(s, n, Released(read.obj.value)))
  }

  function AddFinalizerStep(s: Sys, read: View, t: Turn): Sys {
    if !t.ok || read.obj.None? || read != Server(s, GPU) then Retry(s, GPU)
    else Done(Write(s, GPU, Some(read.obj.value.(ours := true))))
  }

  function CheckNodesStep(s: Sys, spec: GpuSpec, t: Turn): Sys {
    if !t.ok then Retry(s, GPU)
    else match PreflightOf(s.nodes)
      case Proceed(os) => s.(pc := Deploy(spec, os))
      case _ => s.(pc := Halt(PreflightOf(s.nodes)))
  }

  function HaltStep(s: Sys, p: Preflight, t: Turn): Sys {
    var (s1, ok) := ApplyStatus(s, GPU, Only(VerdictReport(p)), t.ok);
    if !ok then Retry(s1, GPU)
    else if p.Warn? then Later(s1, GPU)
    else Done(s1).(stopped := Some(p))
  }

  function DeployOracle(s: Sys, t: Turn): Helm.Oracle {
    if s.ns.Terminating? then Helm.WithoutCreation(s.helm, t.helm) else t.helm
  }

  /** The namespace after a deploy: an install that gets far enough creates a missing one. */
  function Housing(ns: Namespace, after: Helm.History, t: Turn): Namespace {
    if ns.Missing? && (after != [] || (t.late && Helm.ReachesApply(t.helm))) then Standing else ns
  }

  function DeployStep(s: Sys, spec: GpuSpec, os: OsType, t: Turn): Sys {
    if s.cfg.chart.None? || (os.GardenLinux? && s.cfg.base.None?) then Retry(s, GPU)
    else
      var base := if s.cfg.base.Some? then s.cfg.base.value else map[];
      var r := Helm.InstallOrUpgrade(s.helm, s.cfg.chart.value, BuildValues(base, spec, os), DeployOracle(s, t));
      var s1 := s.(helm := r.history, ns := Housing(s.ns, r.history, t));
      match r.outcome
      case Error => s1.(pc := ReportHelm(os, t.error))
      case Crash => Restarted(s1, s1.cfg)
      case _ => s1.(pc := ReadDrivers(os, s.cfg.chart.value))
  }

  function ReportHelmStep(s: Sys, os: OsType, error: string, t: Turn): Sys {
    Retry(ApplyStatus(s, GPU, HelmFailedUpdate(os, error), t.ok).0, GPU)
  }

  function ReadDriversStep(s: Sys, os: OsType, version: string, t: Turn): Sys {
    s.(pc := ReadPolicy(os, version, DriverCheckOf(if t.ok then Got(s.drivers) else ListFailed(t.error))))
  }

  function ReadPolicyStep(s: Sys, os: OsType, version: string, d: DriverCheck, t: Turn): Sys {
    s.(pc := Publish(os, version, d, PolicyReport(if t.ok then Read(s.policy) else ReadFailed(t.error))))
  }

  function PublishStep(s: Sys, os: OsType, version: string, d: DriverCheck, validator: Report, t: Turn): Sys {
    var u := FullUpdate(os, version, d, validator);
    var (s1, ok) := ApplyStatus(s, GPU, u, t.ok);
    if !ok then Retry(s1, GPU)
    else
      var cr := Server(s, GPU).obj;
      Later(s1, GPU).(basis := if cr.None? then s.basis
                               else Some(SetAll(cr.value.status.conditions, u.reports, cr.value.gen, s.now)))
  }

  function ListPodsStep(s: Sys, t: Turn): Sys {
    if !t.ok || ActiveWorkloadsOf(s.pods) == [] then s.(pc := RemoveRelease)
    else s.(pc := ReportBlocked(ActiveWorkloadsOf(s.pods)))
  }

  function BlockedUpdate(active: seq<(string, string)>): Update {
    Only(Report(CondWorkloadProtection, False, ActiveWorkloads, DeletionBlocked(active)))
  }

  function RemoveReleaseStep(s: Sys, t: Turn): Sys {
    var (h, c) := Helm.UninstallRelease(s.helm, t.removal);
    var s1 := s.(helm := h);
    match c
    case Done => s1.(pc := DeleteNamespace)
    case Errored => Retry(s1, GPU)
    case Crashed => Restarted(s1, s1.cfg)
  }

  /** Deletion starts and goes on in the background; a missing namespace counts as deleted. */
  function DeleteNamespaceStep(s: Sys, t: Turn): Sys {
    if !t.ok then Retry(s, GPU)
    else s.(ns := if s.ns.Standing? then Terminating else s.ns, pc := Refetch)
  }

  function RefetchStep(s: Sys, t: Turn): Sys {
    if !t.ok then Retry(s, GPU)
    else if Cached(s, GPU).obj.None? then Done(s)
    else s.(pc := DropFinalizer(Cached(s, GPU)))
  }

  function Work(s: Sys, t: Turn): Sys {
    match s.pc
    case Idle => s
    case Fetch(n) => FetchStep(s, n, t)
    case MarkRogue(n) => MarkRogueStep(s, n, t)
    case FreeRogue(n, read) => ReleaseStep(s, n, read, t)
    case AddFinalizer(read) => AddFinalizerStep(s, read, t)
    case CheckNodes(spec) => CheckNodesStep(s, spec, t)
    case Halt(p) => HaltStep(s, p, t)
    case Deploy(spec, os) => DeployStep(s, spec, os, t)
    case ReportHelm(os, error) => ReportHelmStep(s, os, error, t)
    case ReadDrivers(os, version) => ReadDriversStep(s, os, version, t)
    case ReadPolicy(os, version, d) => ReadPolicyStep(s, os, version, d, t)
    case Publish(os, version, d, validator) => PublishStep(s, os, version, d, validator, t)
    case MarkUninstalling => ApplyStatus(s, GPU, Only(UNINSTALLING_REPORT), t.ok).0.(pc := ListPods)
    case ListPods => ListPodsStep(s, t)
    case ReportBlocked(active) => Later(ApplyStatus(s, GPU, BlockedUpdate(active), t.ok).0, GPU)
    case RemoveRelease => RemoveReleaseStep(s, t)
    case DeleteNamespace => DeleteNamespaceStep(s, t)
    case Refetch => RefetchStep(s, t)
    case DropFinalizer(read) => ReleaseStep(s, GPU, read, t)
  }

  // ---- everything else that happens ----

  datatype Event =
    | Worker(turn: Turn)
    | Take(n: string)
    | TimerFires(n: string)
    | RetryFires(n: string)
    | Deliver(n: string)
    | Create(n: string, spec: GpuSpec, foreign: bool)
    | Edit(n: string, spec: GpuSpec)
    | Touch(n: string, foreign: bool)
    | Delete(n: string)
    | NodeChange(change: NodeEvent, listed: bool)
    | DriverChange(drivers: seq<DaemonSet>, fires: bool, listed: bool)
    | PodChange(pods: seq<Pod>)
    | PolicyChange(policy: Policy)
    | NamespaceGone
    | Tick
    | Restart(cfg: Config)

  /** The map function behind the node and DaemonSet watches queues every CR in the cache. */
  function Enqueue(s: Sys, listed: bool): Sys {
    if listed then s.(pending := s.pending + CachedNames(s)) else s
  }

  /** A user's change to an existing CR. */
  function Change(s: Sys, e: Event, cr: Cr): Sys {
    match e
    case Edit(n, spec) => if spec == cr.spec then s else Write(s, n, Some(cr.(spec := spec, gen := cr.gen + 1)))
    case Touch(n, foreign) =>
      if cr.deleting && !cr.ours && !foreign then Write(s, n, None)
      else if cr.deleting && foreign && !cr.foreign then s
      else Write(s, n, Some(cr.(foreign := foreign)))
    case Delete(n) =>
      if cr.deleting then s
      else if !cr.ours && !cr.foreign then Write(s, n, None)
      else Write(s, n, Some(cr.(deleting := true, gen := cr.gen + 1)))
    case _ => s
  }

  function NodeChangeStep(s: Sys, change: NodeEvent, listed: bool): Sys {
    if !Possible(s.nodes, change) then s
    else
      var s1 := s.(nodes := AfterNodeEvent(s.nodes, change));
      if Fires(s.nodes, change) then Enqueue(s1, listed) else s1
  }

  /** An event that is impossible in a state leaves it as it is. */
  function Step(s: Sys, e: Event): Sys {
    match e
    case Worker(t) => Work(s, t)
    case Take(n) => if s.pc.Idle? && n in s.pending then StartStep(s, n) else s
    case TimerFires(n) => if n in s.timers then s.(timers := s.timers - {n}, pending := s.pending + {n}) else s
    case RetryFires(n) => if n in s.retries then s.(retries := s.retries - {n}, pending := s.pending + {n}) else s
    case Deliver(n) =>
      if |TrackOf(s, n)| > 1 then s.(views := s.views[n := TrackOf(s, n)[1..]], pending := s.pending + {n}) else s
    case Create(n, spec, foreign) =>
      if Server(s, n).obj.Some? then s
      else Write(s, n, Some(Cr(1, false, false, foreign, spec, NO_STATUS)))
             .(basis := if n == GPU then None else s.basis)
    case NodeChange(change, listed) => NodeChangeStep(s, change, listed)
    case DriverChange(drivers, fires, listed) =>
      if fires then Enqueue(s.(drivers := drivers), listed) else s.(drivers := drivers)
    case PodChange(pods) => s.(pods := pods)
    case PolicyChange(policy) => s.(policy := policy)
    case NamespaceGone => if s.ns.Terminating? then s.(ns := Missing, helm := []) else s
    case Tick => s.(now := s.now + 1)
    case Restart(cfg) => Restarted(s, cfg)
    case _ => if Server(s, e.n).obj.None? then s else Change(s, e, Server(s, e.n).obj.value)
  }

  function StartStep(s: Sys, n: string): Sys {
    s.(pending := s.pending - {n}, pc := Fetch(n), stopped := if n == GPU then None else s.stopped)
  }

  function Run(s: Sys, es: seq<Event>): Sys {
    if es == [] then s else Step(Run(s, es[..|es| - 1]), es[|es| - 1])
  }

  lemma RunOneMore(s: Sys, es: seq<Event>, e: Event)
    ensures Run(s, es + [e]) == Step(Run(s, es), e)
  {
    assert (es + [e])[..|es|] == es;
  }

  lemma {:induction false} RunConcat(s: Sys, a: seq<Event>, b: seq<Event>)
    ensures Run(s, a + b) == Run(Run(s, a), b)
  {
    hide Step;
    if b == [] {
      assert a + b == a;
    } else {
      RunConcat(s, a, b[..|b| - 1]);
      assert (a + b)[..|a + b| - 1] == a + b[..|b| - 1];
    }
  }

  /** The operator starts in a cluster without Gpu CRs and without a release. */
  ghost predicate Initial(s: Sys) {
    && s.views == map[] && s.nextRv > 0 && s.helm == [] && s.pending == s.timers == s.retries == {}
    && s.pc.Idle? && s.stopped.None? && s.basis.None?
  }
}

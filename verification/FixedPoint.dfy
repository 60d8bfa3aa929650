/** Fixed point: with nothing changing and nothing failing, at most two reconciles write anything. */
module FixedPoint {
  import opened Text
  import opened Values
  import opened Detection
  import opened Conditions
  import opened Cluster
  import opened Machine
  import opened Lifecycle
  import opened Provenance
  import Helm

  // ---- quiet runs ----

  predicate FaultFree(t: Turn) { t.ok && t.helm == Helm.NO_FAULT && t.removal == Helm.UNINSTALL_OK }

  /** The worker, the queue, the cache and the clock go on; nobody else does anything. */
  predicate Quiet(e: Event) {
    match e
    case Worker(t) => FaultFree(t)
    case Take(_) => true
    case TimerFires(_) => true
    case RetryFires(_) => true
    case Deliver(_) => true
    case NamespaceGone => true
    case Tick => true
    case _ => false
  }

  /** Quiet, and Helm is not asked to create anything in a terminating namespace: that call would fail. */
  predicate Smooth(s: Sys, e: Event) { Quiet(e) && (e.Worker? && s.pc.Deploy? ==> !s.ns.Terminating?) }

  ghost predicate SmoothRun(s: Sys, es: seq<Event>) { forall i | 0 <= i < |es| :: Smooth(At(s, es, i), es[i]) }

  /** A worker step that changes CR "gpu", the release or the namespace. */
  ghost predicate Writes(s: Sys, e: Event) { e.Worker? && !SameOutput(s, Step(s, e)) }

  ghost predicate SameOutput(s: Sys, s1: Sys) {
    s1.helm == s.helm && s1.ns == s.ns && Server(s1, GPU) == Server(s, GPU)
  }

  ghost predicate SameEnvironment(s: Sys, s1: Sys) {
    s1.cfg == s.cfg && s1.nodes == s.nodes && s1.pods == s.pods && s1.drivers == s.drivers && s1.policy == s.policy
  }

  // ---- updates that no longer change the status ----

  ghost predicate Stable(st: GpuStatus, u: Update, gen: nat) { forall now: nat :: Merge(st, u, gen, now) == st }

  ghost predicate Stands(s: Sys, u: Update) {
    var obj := Server(s, GPU).obj;
    obj.Some? ==> Stable(obj.value.status, u, obj.value.gen)
  }

  lemma MergeIsStable(st: GpuStatus, u: Update, gen: nat, now: nat)
    requires Proper(u)
    ensures Stable(Merge(st, u, gen, now), u, gen)
  {
    hide Merge;
    forall later: nat ensures Merge(Merge(st, u, gen, now), u, gen, later) == Merge(st, u, gen, now) {
      MergeTwice(st, u, gen, now, later);
    }
  }

  lemma OnlyStable(st: GpuStatus, r: Report, gen: nat)
    ensures Stable(st, Only(r), gen) <==> Holds(st.conditions, r, gen)
  {
    if Holds(st.conditions, r, gen) {
      forall now: nat ensures Merge(st, Only(r), gen, now) == st {
        SetAllNothingNew(st.conditions, Only(r).reports, gen, now);
      }
    }
    if Stable(st, Only(r), gen) {
      assert Merge(st, Only(r), gen, 0) == st;
      FindAfterMerge(st, Only(r), gen, 0, r.kind);
    }
  }

  /** A report on another type does not disturb one that stands. */
  lemma OtherReportKeepsStable(st: GpuStatus, r: Report, other: Report, gen: nat, now: nat)
    requires r.kind != other.kind && Stable(st, Only(r), gen)
    ensures Stable(Merge(st, Only(other), gen, now), Only(r), gen)
  {
    hide Stable, Merge;
    OnlyStable(st, r, gen);
    FindAfterMerge(st, Only(other), gen, now, r.kind);
    OnlyStable(Merge(st, Only(other), gen, now), r, gen);
  }

  lemma StandingUpdateIsSilent(s: Sys, u: Update, ok: bool)
    requires Stands(s, u)
    ensures ApplyStatus(s, GPU, u, ok).0 == s
  {
    hide Merge;
  }

  lemma AppliedUpdateStands(s: Sys, u: Update)
    requires Proper(u)
    ensures Stands(ApplyStatus(s, GPU, u, true).0, u)
  {
    hide Merge, Stable;
    if Server(s, GPU).obj.Some? {
      var cr := Server(s, GPU).obj.value;
      MergeIsStable(cr.status, u, cr.gen, s.now);
    }
  }

  lemma OtherReportKeepsStanding(s: Sys, r: Report, other: Report, ok: bool)
    requires r.kind != other.kind && Stands(s, Only(r))
    ensures Stands(ApplyStatus(s, GPU, Only(other), ok).0, Only(r))
  {
    hide Merge, Stable, Only;
    if Server(s, GPU).obj.Some? {
      var cr := Server(s, GPU).obj.value;
      OtherReportKeepsStable(cr.status, r, other, cr.gen, s.now);
    }
  }

  // ---- a live CR ----

  predicate LikeLive(v: View, spec: GpuSpec) { Live(v) && v.obj.value.spec == spec }

  ghost predicate AllLikeLive(t: Track, spec: GpuSpec) { forall i | 0 <= i < |t| :: LikeLive(t[i], spec) }

  predicate ChartLoads(s: Sys, os: OsType) {
    s.cfg.chart.Some? && (os.GardenLinux? ==> s.cfg.base.Some?)
  }

  function Wanted(s: Sys, spec: GpuSpec, os: OsType): Fields {
    BuildValues(if s.cfg.base.Some? then s.cfg.base.value else map[], spec, os)
  }

  ghost predicate HelmSettled(s: Sys, spec: GpuSpec, os: OsType) {
    && ChartLoads(s, os) && s.ns.Standing?
    && Helm.InstallOrUpgrade(s.helm, s.cfg.chart.value, Wanted(s, spec, os), Helm.NO_FAULT)
       == Helm.Applied(s.helm, Helm.Unchanged, 0)
  }

  function FullOf(s: Sys, os: OsType, version: string): Update {
    FullUpdate(os, version, DriverCheckOf(Got(s.drivers)), PolicyReport(Read(s.policy)))
  }

  ghost predicate LiveSettled(s: Sys, spec: GpuSpec) {
    match PreflightOf(s.nodes)
    case Proceed(os) => ChartLoads(s, os) ==> HelmSettled(s, spec, os) && Stands(s, FullOf(s, os, s.cfg.chart.value))
    case p => Stands(s, Only(VerdictReport(p)))
  }

  ghost predicate Installed(s: Sys, spec: GpuSpec, os: OsType, version: string) {
    PreflightOf(s.nodes) == Proceed(os) && HelmSettled(s, spec, os) && s.cfg.chart == Some(version)
  }

  /** What the worker holds at each call is what the frozen cluster says. */
  ghost predicate LivePc(s: Sys, spec: GpuSpec) {
    match s.pc
    case CheckNodes(sp) => sp == spec
    case Halt(p) => p == PreflightOf(s.nodes) && !p.Proceed?
    case Deploy(sp, os) => sp == spec && PreflightOf(s.nodes) == Proceed(os)
    case ReportHelm(_, _) => false
    case ReadDrivers(os, version) => Installed(s, spec, os, version)
    case ReadPolicy(os, version, d) => Installed(s, spec, os, version) && d == DriverCheckOf(Got(s.drivers))
    case Publish(os, version, d, v) =>
      Installed(s, spec, os, version) && d == DriverCheckOf(Got(s.drivers)) && v == PolicyReport(Read(s.policy))
    case _ => !Removing(s.pc)
  }

  ghost predicate LiveCalm(s: Sys, spec: GpuSpec) {
    && Sound(s) && AllLikeLive(TrackOf(s, GPU), spec) && LivePc(s, spec)
    && Helm.WellFormed(s.helm) && (Helm.Recoverable(s.helm) || s.ns.Terminating?)
  }

  /** The reconcile in progress has deployed and is about to report. */
  predicate Finishing(pc: Pc) { pc.ReadDrivers? || pc.ReadPolicy? || pc.Publish? }

  ghost predicate LiveDone(s: Sys, spec: GpuSpec) { Owned(Server(s, GPU)) && LiveSettled(s, spec) }

  ghost predicate LiveAlmost(s: Sys, spec: GpuSpec) {
    Owned(Server(s, GPU)) && (LiveSettled(s, spec) || Finishing(s.pc))
  }

  /** What one smooth event does to a live CR: the three stages are kept. */
  ghost predicate LiveKeeps(s: Sys, s1: Sys, spec: GpuSpec) {
    && LiveCalm(s1, spec)
    && (Owned(Server(s, GPU)) ==> Owned(Server(s1, GPU)))
    && (LiveAlmost(s, spec) ==> LiveAlmost(s1, spec))
    && (LiveDone(s, spec) ==> LiveDone(s1, spec))
  }

  /** And a write by the worker takes it at least one further. */
  ghost predicate LiveGoes(s: Sys, s1: Sys, spec: GpuSpec) {
    && LiveKeeps(s, s1, spec)
    && (LiveDone(s, spec) ==> SameOutput(s, s1))
    && (!SameOutput(s, s1) ==> Owned(Server(s1, GPU)) && (Owned(Server(s, GPU)) ==> LiveAlmost(s1, spec)))
  }

  lemma SettledFrame(s: Sys, s1: Sys, spec: GpuSpec)
    requires SameEnvironment(s, s1) && SameOutput(s, s1)
    ensures LiveSettled(s, spec) == LiveSettled(s1, spec)
  {
    hide Helm.InstallOrUpgrade, BuildValues, Stable, PreflightOf, DriverCheckOf, PolicyReport, Server, FullUpdate;
  }

  /** A step that writes nothing. */
  lemma LiveMoves(s: Sys, s1: Sys, spec: GpuSpec)
    requires LiveCalm(s, spec) && Sound(s1) && SameEnvironment(s, s1) && SameOutput(s, s1) && LivePc(s1, spec)
    requires AllLikeLive(TrackOf(s1, GPU), spec)
    requires Finishing(s.pc) ==> Finishing(s1.pc)
    ensures LiveGoes(s, s1, spec)
  {
    hide Sound, TrackOf, AllLikeLive, LivePc, LiveSettled;
    SettledFrame(s, s1, spec);
  }

  /** The last step of a reconcile that reports. */
  lemma LiveEnds(s: Sys, s1: Sys, spec: GpuSpec)
    requires LiveCalm(s, spec) && Sound(s1) && s1.pc.Idle? && s1.helm == s.helm && s1.ns == s.ns
    requires AllLikeLive(TrackOf(s1, GPU), spec) && Owned(Server(s1, GPU)) && LiveSettled(s1, spec)
    requires LiveSettled(s, spec) ==> SameOutput(s, s1)
    ensures LiveGoes(s, s1, spec) && LiveDone(s1, spec)
  {
    hide Sound, TrackOf, AllLikeLive, LiveSettled;
  }

  lemma LikeAfterApply(s: Sys, spec: GpuSpec, u: Update, ok: bool)
    requires AllLikeLive(TrackOf(s, GPU), spec)
    ensures var (s1, done) := ApplyStatus(s, GPU, u, ok);
            && AllLikeLive(TrackOf(s1, GPU), spec) && done == ok
            && SameEnvironment(s, s1) && s1.helm == s.helm && s1.ns == s.ns
            && Owned(Server(s1, GPU)) == Owned(Server(s, GPU))
  {
    hide Merge;
  }

  lemma LiveFetch(s: Sys, spec: GpuSpec, n: string, t: Turn)
    requires LiveCalm(s, spec) && s.pc == Fetch(n) && FaultFree(t) && Sound(FetchStep(s, n, t))
    ensures LiveGoes(s, FetchStep(s, n, t), spec)
  {
    assert LikeLive(Cached(s, GPU), spec);
    hide LiveGoes, Sound, AllLikeLive;
    LiveMoves(s, FetchStep(s, n, t), spec);
  }

  lemma LiveAdopts(s: Sys, spec: GpuSpec, read: View, t: Turn)
    requires LiveCalm(s, spec) && s.pc == AddFinalizer(read) && FaultFree(t) && Sound(AddFinalizerStep(s, read, t))
    ensures LiveGoes(s, AddFinalizerStep(s, read, t), spec)
  {
    var s1 := AddFinalizerStep(s, read, t);
    assert !Owned(read);
    if read == Server(s, GPU) {
      hide Sound, LiveSettled;
      assert read == TrackOf(s, GPU)[|TrackOf(s, GPU)| - 1];
      assert LikeLive(read, spec);
    } else {
      LiveMoves(s, s1, spec);
    }
  }

  /** The one update that a settled live CR's reconcile ends with. */
  ghost predicate Decisive(s: Sys, spec: GpuSpec, u: Update) {
    match PreflightOf(s.nodes)
    case Proceed(os) => HelmSettled(s, spec, os) && u == FullOf(s, os, s.cfg.chart.value)
    case p => u == Only(VerdictReport(p))
  }

  lemma DecisiveSettles(s: Sys, s1: Sys, spec: GpuSpec, u: Update)
    requires Decisive(s, spec, u) && SameEnvironment(s, s1) && s1.helm == s.helm && s1.ns == s.ns
    ensures LiveSettled(s1, spec) <==> Stands(s1, u)
  {
    hide PreflightOf, FullUpdate, VerdictReport, Only, Stands, DriverCheckOf, PolicyReport, Helm.InstallOrUpgrade, BuildValues;
  }

  lemma LiveReports(s: Sys, s1: Sys, spec: GpuSpec, u: Update)
    requires LiveCalm(s, spec) && Owned(Server(s, GPU)) && Decisive(s, spec, u) && Proper(u) && Sound(s1) && s1.pc.Idle?
    requires var r := ApplyStatus(s, GPU, u, true).0;
             s1.views == r.views && s1.helm == r.helm && s1.ns == r.ns && SameEnvironment(r, s1)
    ensures LiveGoes(s, s1, spec) && LiveDone(s1, spec)
  {
    hide LiveGoes, LiveDone, LiveSettled, Decisive, Sound, ApplyStatus, Stable, AllLikeLive, Proper;
    LikeAfterApply(s, spec, u, true);
    AppliedUpdateStands(s, u);
    DecisiveSettles(s, s, spec, u);
    DecisiveSettles(s, s1, spec, u);
    if LiveSettled(s, spec) { StandingUpdateIsSilent(s, u, true); }
    LiveEnds(s, s1, spec);
  }

  lemma LiveHalts(s: Sys, spec: GpuSpec, p: Preflight, t: Turn)
    requires LiveCalm(s, spec) && s.pc == Halt(p) && FaultFree(t) && Sound(HaltStep(s, p, t))
    ensures var s1 := HaltStep(s, p, t); LiveGoes(s, s1, spec) && LiveDone(s1, spec)
  {
    assert AllOwned(TrackOf(s, GPU)) && Decisive(s, spec, Only(VerdictReport(p)));
    hide LiveGoes, LiveDone, Sound, ApplyStatus, PreflightOf, Only, VerdictReport, Decisive, AllLikeLive;
    OneReportIsProper(VerdictReport(p));
    LiveReports(s, HaltStep(s, p, t), spec, Only(VerdictReport(p)));
  }

  lemma OneReportIsProper(r: Report)
    ensures Proper(Only(r))
  {}

  lemma PublishIsApply(s: Sys, t: Turn)
    requires s.pc.Publish? && s.pc.driver == DriverCheckOf(Got(s.drivers)) && s.pc.validator == PolicyReport(Read(s.policy))
    ensures var s1, r := Work(s, t), ApplyStatus(s, GPU, FullOf(s, s.pc.os, s.pc.version), t.ok).0;
            && s1.pc.Idle? && s1.views == r.views && s1.helm == r.helm && s1.ns == r.ns && SameEnvironment(r, s1)
  {
    hide ApplyStatus, FullUpdate, SetAll, DriverCheckOf, PolicyReport, Server;
  }

  lemma LivePublishes(s: Sys, spec: GpuSpec, t: Turn)
    requires LiveCalm(s, spec) && s.pc.Publish? && FaultFree(t) && Sound(Work(s, t))
    ensures LiveGoes(s, Work(s, t), spec) && LiveDone(Work(s, t), spec)
  {
    var u := FullOf(s, s.pc.os, s.pc.version);
    PublishIsApply(s, t);
    assert AllOwned(TrackOf(s, GPU));
    hide LiveGoes, LiveDone, Sound, Work, ApplyStatus, PreflightOf, FullOf, HelmSettled, AllLikeLive, DriverCheckOf, PolicyReport;
    FullIsProper(s.pc.os, s.pc.version, s);
    LiveReports(s, Work(s, t), spec, u);
  }

  lemma FullIsProper(os: OsType, version: string, s: Sys)
    ensures Proper(FullOf(s, os, version))
  {
    hide DriverCheckOf;
    assert PolicyReport(Read(s.policy)).kind == CondValidatorPassed;
  }

  lemma LiveDeploys(s: Sys, spec: GpuSpec, os: OsType, t: Turn)
    requires LiveCalm(s, spec) && s.pc == Deploy(spec, os) && FaultFree(t) && !s.ns.Terminating?
    requires Sound(DeployStep(s, spec, os, t))
    ensures LiveGoes(s, DeployStep(s, spec, os, t), spec)
  {
    var s1 := DeployStep(s, spec, os, t);
    hide Sound, LiveGoes, Helm.InstallOrUpgrade, BuildValues, PreflightOf, AllLikeLive, Stable, FullOf,
         Helm.Recoverable, Helm.UpToDate, Helm.WellFormed;
    if ChartLoads(s, os) {
      var config := Wanted(s, spec, os);
      BuiltNeverEmpty(if s.cfg.base.Some? then s.cfg.base.value else map[], spec, os);
      Helm.SelfHeals(s.helm, s.cfg.chart.value, config);
      Helm.InstallOrUpgradeKeepsShape(s.helm, s.cfg.chart.value, config, Helm.NO_FAULT);
      DesiredIsRecoverable(s1.helm, s.cfg.chart.value, config);
      assert LivePc(s1, spec);
      LiveDeployed(s, s1, spec);
    } else {
      LiveMoves(s, s1, spec);
    }
  }

  lemma LiveDeployed(s: Sys, s1: Sys, spec: GpuSpec)
    requires LiveCalm(s, spec) && s.pc.Deploy? && LiveCalm(s1, spec) && Finishing(s1.pc)
    requires SameEnvironment(s, s1) && Server(s1, GPU) == Server(s, GPU)
    requires forall os | PreflightOf(s.nodes) == Proceed(os) && HelmSettled(s, spec, os) :: s1.helm == s.helm && s1.ns == s.ns
    requires PreflightOf(s.nodes).Proceed? && ChartLoads(s, PreflightOf(s.nodes).os)
    ensures LiveGoes(s, s1, spec)
  {
    assert AllOwned(TrackOf(s, GPU));
    hide Sound, HelmSettled, PreflightOf, AllLikeLive, LivePc, Stands, FullOf, Helm.Recoverable, Helm.WellFormed;
    if LiveSettled(s, spec) { SettledFrame(s, s1, spec); }
  }

  lemma DesiredIsRecoverable(h: Helm.History, chart: string, config: Fields)
    requires Helm.AtDesired(h, chart, config)
    ensures Helm.Recoverable(h) && h != []
  {}

  lemma LiveReads(s: Sys, spec: GpuSpec, t: Turn)
    requires LiveCalm(s, spec) && FaultFree(t) && Sound(Work(s, t))
    requires s.pc.Idle? || s.pc.CheckNodes? || s.pc.ReadDrivers? || s.pc.ReadPolicy?
    ensures LiveGoes(s, Work(s, t), spec)
  {
    hide Sound, Helm.InstallOrUpgrade, BuildValues, PreflightOf, AllLikeLive, DriverCheckOf, PolicyReport, LiveGoes;
    LiveMoves(s, Work(s, t), spec);
  }

  lemma RogueReportFrame(s: Sys, n: string, u: Update, ok: bool)
    requires n != GPU
    ensures var s1 := ApplyStatus(s, n, u, ok).0;
            TrackOf(s1, GPU) == TrackOf(s, GPU) && s1 == s.(views := s1.views, nextRv := s1.nextRv)
  {
    hide Merge;
  }

  /** A reconcile of another CR. */
  lemma OthersChangeNothing(s: Sys, t: Turn)
    requires Sound(s) && (s.pc.MarkRogue? || s.pc.FreeRogue?)
    ensures SameOutput(s, Work(s, t)) && SameEnvironment(s, Work(s, t)) && Work(s, t).pc.Idle?
    ensures TrackOf(Work(s, t), GPU) == TrackOf(s, GPU)
  {
    assert s.pc.n != GPU;
    hide Sound, Only, Released, ApplyStatus;
    if s.pc.MarkRogue? { RogueReportFrame(s, s.pc.n, Only(ROGUE_REPORT), t.ok); }
  }

  lemma LiveWorks(s: Sys, spec: GpuSpec, t: Turn)
    requires LiveCalm(s, spec) && Smooth(s, Worker(t))
    ensures LiveGoes(s, Work(s, t), spec)
    ensures s.pc.Halt? || s.pc.Publish? ==> LiveDone(Work(s, t), spec)
  {
    WorkKeepsSound(s, t);
    hide LiveGoes, LiveDone, Sound, FetchStep, MarkRogueStep, ReleaseStep, AddFinalizerStep, CheckNodesStep, HaltStep, AllLikeLive,
         DeployStep, ReportHelmStep, ReadDriversStep, ReadPolicyStep, PublishStep, ListPodsStep, RemoveReleaseStep, RefetchStep;
    match s.pc
    case Fetch(n) => LiveFetch(s, spec, n, t);
    case AddFinalizer(read) => LiveAdopts(s, spec, read, t);
    case Halt(p) => LiveHalts(s, spec, p, t);
    case Deploy(_, os) => LiveDeploys(s, spec, os, t);
    case Publish(_, _, _, _) => LivePublishes(s, spec, t);
    case MarkRogue(_) => OthersChangeNothing(s, t); LiveMoves(s, Work(s, t), spec);
    case FreeRogue(_, _) => OthersChangeNothing(s, t); LiveMoves(s, Work(s, t), spec);
    case _ => LiveReads(s, spec, t);
  }

  lemma QuietKeepsLive(s: Sys, spec: GpuSpec, e: Event)
    requires LiveCalm(s, spec) && Quiet(e) && !e.Worker? && !e.NamespaceGone? && Sound(Step(s, e))
    ensures LiveGoes(s, Step(s, e), spec)
  {
    QuietFrame(s, e);
    hide Sound, LiveGoes, Step, LivePc;
    assert LivePc(Step(s, e), spec) by { PcFrame(s, Step(s, e), spec); }
    LiveMoves(s, Step(s, e), spec);
  }

  /** Between worker steps only the queue, the cache and the clock move. */
  lemma QuietFrame(s: Sys, e: Event)
    requires Quiet(e) && !e.Worker?
    ensures var s1 := Step(s, e);
            && SameEnvironment(s, s1) && (e.NamespaceGone? || SameOutput(s, s1))
            && (TrackOf(s1, GPU) == TrackOf(s, GPU) || (|TrackOf(s, GPU)| > 1 && TrackOf(s1, GPU) == TrackOf(s, GPU)[1..]))
            && (s1.pc == s.pc || (s.pc.Idle? && s1.pc.Fetch?))
  {}

  lemma PcFrame(s: Sys, s1: Sys, spec: GpuSpec)
    requires SameEnvironment(s, s1) && SameOutput(s, s1) && LivePc(s, spec) && (s1.pc == s.pc || s1.pc.Fetch?)
    ensures LivePc(s1, spec)
  {
    hide Helm.InstallOrUpgrade, BuildValues, PreflightOf, DriverCheckOf, PolicyReport;
  }

  /** A release that is settled sits in a standing namespace, so the end of a terminating one disturbs nothing. */
  lemma NamespaceGoesLive(s: Sys, spec: GpuSpec)
    requires LiveCalm(s, spec) && s.ns.Terminating? && Sound(s.(ns := Missing, helm := []))
    ensures LiveKeeps(s, s.(ns := Missing, helm := []), spec)
  {
    hide Sound, AllLikeLive, PreflightOf, Stable, FullUpdate, DriverCheckOf, PolicyReport, Helm.InstallOrUpgrade, BuildValues, Only;
    assert Server(s.(ns := Missing, helm := []), GPU) == Server(s, GPU);
  }

  lemma LiveStep(s: Sys, spec: GpuSpec, e: Event)
    requires LiveCalm(s, spec) && Smooth(s, e)
    ensures LiveKeeps(s, Step(s, e), spec)
    ensures e.Worker? ==> LiveGoes(s, Step(s, e), spec)
    ensures e.Worker? && (s.pc.Halt? || s.pc.Publish?) ==> LiveDone(Step(s, e), spec)
  {
    StepKeepsSound(s, e);
    if e.Worker? {
      LiveWorks(s, spec, e.turn);
    } else if e.NamespaceGone? {
      if s.ns.Terminating? { NamespaceGoesLive(s, spec); }
    } else {
      QuietKeepsLive(s, spec, e);
    }
  }

  // ---- a CR being deleted ----

  const UNINSTALLING: Update := Only(UNINSTALLING_REPORT)

  ghost predicate NoneLiveAtAll(t: Track) { forall i | 0 <= i < |t| :: !Live(t[i]) }

  predicate Blocked(s: Sys) { ActiveWorkloadsOf(s.pods) != [] }

  /** The deletion has done all it can: it stays blocked, or only the finalizer is left. */
  ghost predicate Cleared(s: Sys) {
    && Stands(s, UNINSTALLING)
    && if Blocked(s) then Stands(s, BlockedUpdate(ActiveWorkloadsOf(s.pods))) else !Helm.Visible(s.helm) && !s.ns.Standing?
  }

  ghost predicate DyingPc(s: Sys) {
    match s.pc
    case ListPods => Stands(s, UNINSTALLING)
    case ReportBlocked(active) => Stands(s, UNINSTALLING) && Blocked(s) && active == ActiveWorkloadsOf(s.pods)
    case RemoveRelease => Stands(s, UNINSTALLING) && !Blocked(s)
    case DeleteNamespace => Stands(s, UNINSTALLING) && !Blocked(s) && !Helm.Visible(s.helm)
    case Refetch => Cleared(s) && !Blocked(s)
    case DropFinalizer(_) => Cleared(s) && !Blocked(s)
    case _ => !Installing(s.pc) && !s.pc.AddFinalizer?
  }

  ghost predicate DyingCalm(s: Sys) { Sound(s) && NoneLiveAtAll(TrackOf(s, GPU)) && DyingPc(s) }

  /** The reconcile in progress has announced the uninstall. */
  predicate Clearing(pc: Pc) { Removing(pc) && !pc.MarkUninstalling? }

  ghost predicate DyingAlmost(s: Sys) { Cleared(s) || Clearing(s.pc) }

  ghost predicate DyingDone(s: Sys) { Cleared(s) && (Blocked(s) || !Owned(Server(s, GPU))) }

  ghost predicate DyingKeeps(s: Sys, s1: Sys) {
    && DyingCalm(s1)
    && (DyingAlmost(s) ==> DyingAlmost(s1))
    && (Cleared(s) ==> Cleared(s1))
    && (DyingDone(s) ==> DyingDone(s1))
  }

  ghost predicate DyingGoes(s: Sys, s1: Sys) {
    && DyingKeeps(s, s1)
    && (DyingDone(s) ==> SameOutput(s, s1))
    && (!SameOutput(s, s1) ==> DyingAlmost(s1) && (Cleared(s) ==> DyingDone(s1)))
  }

  lemma ClearedFrame(s: Sys, s1: Sys)
    requires SameEnvironment(s, s1) && SameOutput(s, s1)
    ensures Cleared(s1) == Cleared(s) && DyingDone(s1) == DyingDone(s)
  {
    hide Stable, ActiveWorkloadsOf, Server, Only, BlockedUpdate;
  }

  lemma DyingMoves(s: Sys, s1: Sys)
    requires DyingCalm(s) && Sound(s1) && SameEnvironment(s, s1) && SameOutput(s, s1) && DyingPc(s1)
    requires NoneLiveAtAll(TrackOf(s1, GPU))
    requires Clearing(s.pc) ==> Clearing(s1.pc) || Cleared(s)
    ensures DyingGoes(s, s1)
  {
    hide Sound, TrackOf, NoneLiveAtAll, Cleared, DyingPc;
    ClearedFrame(s, s1);
  }

  lemma DyingAfterApply(s: Sys, u: Update, ok: bool)
    requires NoneLiveAtAll(TrackOf(s, GPU))
    ensures var s1 := ApplyStatus(s, GPU, u, ok).0;
            && NoneLiveAtAll(TrackOf(s1, GPU)) && SameEnvironment(s, s1) && s1.helm == s.helm && s1.ns == s.ns
            && Owned(Server(s1, GPU)) == Owned(Server(s, GPU)) && s1.pc == s.pc
  {
    hide Merge;
  }

  /** What a best-effort report during deletion makes of the stages. */
  lemma DyingReports(s: Sys, s1: Sys, u: Update)
    requires DyingCalm(s) && Sound(s1) && NoneLiveAtAll(TrackOf(s1, GPU)) && DyingPc(s1)
    requires SameEnvironment(s, s1) && s1.helm == s.helm && s1.ns == s.ns
    requires Owned(Server(s1, GPU)) == Owned(Server(s, GPU))
    requires Stands(s, u) ==> SameOutput(s, s1)
    requires Cleared(s) ==> Stands(s, u)
    requires Clearing(s1.pc) || Cleared(s1)
    ensures DyingGoes(s, s1)
  {
    hide Sound, TrackOf, NoneLiveAtAll, DyingPc, Cleared, Stands;
    if SameOutput(s, s1) { ClearedFrame(s, s1); }
  }

  lemma DyingAnnounces(s: Sys, t: Turn)
    requires DyingCalm(s) && s.pc == MarkUninstalling && FaultFree(t) && Sound(Work(s, t))
    ensures DyingGoes(s, Work(s, t))
  {
    hide Sound, DyingGoes, ApplyStatus, Stable, NoneLiveAtAll, Only, ActiveWorkloadsOf;
    DyingAfterApply(s, UNINSTALLING, t.ok);
    OneReportIsProper(UNINSTALLING_REPORT);
    AppliedUpdateStands(s, UNINSTALLING);
    if Stands(s, UNINSTALLING) { StandingUpdateIsSilent(s, UNINSTALLING, t.ok); }
    DyingReports(s, Work(s, t), UNINSTALLING);
  }

  lemma DyingBlocks(s: Sys, active: seq<(string, string)>, t: Turn)
    requires DyingCalm(s) && s.pc == ReportBlocked(active) && FaultFree(t) && Sound(Work(s, t))
    ensures DyingGoes(s, Work(s, t))
  {
    hide Sound, DyingGoes, ApplyStatus, Stable, NoneLiveAtAll, Only, ActiveWorkloadsOf;
    var r := Report(CondWorkloadProtection, False, ActiveWorkloads, DeletionBlocked(active));
    var u := BlockedUpdate(active);
    DyingAfterApply(s, u, t.ok);
    OneReportIsProper(r);
    AppliedUpdateStands(s, u);
    OtherReportKeepsStanding(s, UNINSTALLING_REPORT, r, t.ok);
    if Stands(s, u) { StandingUpdateIsSilent(s, u, t.ok); }
    DyingReports(s, Work(s, t), u);
  }

  lemma DyingUninstalls(s: Sys, t: Turn)
    requires DyingCalm(s) && s.pc == RemoveRelease && FaultFree(t) && Sound(RemoveReleaseStep(s, t))
    ensures DyingGoes(s, RemoveReleaseStep(s, t))
  {
    var s1 := RemoveReleaseStep(s, t);
    hide Sound, Helm.Visible, RemoveReleaseStep, Stable, NoneLiveAtAll, Only, ActiveWorkloadsOf;
    UninstallsVisible(s, t);
  }

  lemma UninstallsVisible(s: Sys, t: Turn)
    requires FaultFree(t)
    ensures var s1 := RemoveReleaseStep(s, t);
            && s1 == s.(helm := s1.helm, pc := DeleteNamespace) && !Helm.Visible(s1.helm)
            && (!Helm.Visible(s.helm) ==> s1.helm == s.helm)
  {}

  lemma DyingDeletesNamespace(s: Sys, t: Turn)
    requires DyingCalm(s) && s.pc == DeleteNamespace && FaultFree(t) && Sound(Work(s, t))
    ensures DyingGoes(s, Work(s, t))
  {
    hide Sound, Helm.Visible, Stable, NoneLiveAtAll, Only, ActiveWorkloadsOf;
  }

  lemma DyingDrops(s: Sys, read: View, t: Turn)
    requires DyingCalm(s) && s.pc == DropFinalizer(read) && FaultFree(t) && Sound(ReleaseStep(s, GPU, read, t))
    ensures DyingGoes(s, ReleaseStep(s, GPU, read, t))
  {
    var s1 := ReleaseStep(s, GPU, read, t);
    assert SameEnvironment(s, s1);
    if SameOutput(s, s1) {
      hide Sound, DyingGoes, Stable, Only, ActiveWorkloadsOf;
      ClearedFrame(s, s1);
      DyingMoves(s, s1);
    } else {
      hide Sound, Stable, Only, ActiveWorkloadsOf;
      assert read == TrackOf(s, GPU)[|TrackOf(s, GPU)| - 1];
      assert s1.helm == s.helm && s1.ns == s.ns && s1.pc.Idle?;
      assert Stands(s1, UNINSTALLING) && !Owned(Server(s1, GPU));
    }
  }

  lemma DyingReads(s: Sys, t: Turn)
    requires DyingCalm(s) && FaultFree(t) && Sound(Work(s, t))
    requires s.pc.Idle? || s.pc.Fetch? || s.pc.ListPods? || s.pc.Refetch?
    ensures DyingGoes(s, Work(s, t))
  {
    ReadsWriteNothing(s, t);
    ReadsKeepDyingPc(s, t);
    hide Sound, NoneLiveAtAll, DyingGoes, DyingPc, Work, Cleared;
    DyingMoves(s, Work(s, t));
  }

  lemma ReadsWriteNothing(s: Sys, t: Turn)
    requires s.pc.Idle? || s.pc.Fetch? || s.pc.ListPods? || s.pc.Refetch?
    ensures var s1 := Work(s, t);
            SameOutput(s, s1) && SameEnvironment(s, s1) && TrackOf(s1, GPU) == TrackOf(s, GPU)
            && (Clearing(s.pc) ==> Clearing(s1.pc) || s.pc.Refetch?)
  {
    hide Gate, ActiveWorkloadsOf;
  }

  lemma ReadsKeepDyingPc(s: Sys, t: Turn)
    requires DyingCalm(s) && FaultFree(t) && (s.pc.Idle? || s.pc.Fetch? || s.pc.ListPods? || s.pc.Refetch?)
    ensures DyingPc(Work(s, t))
  {
    assert !Live(Cached(s, GPU));
    hide DyingCalm, Sound, NoneLiveAtAll, ActiveWorkloadsOf, Stands, Cleared, DyingPc;
    match s.pc
    case Idle =>
    case Fetch(n) => DyingFetch(s, n, t);
    case ListPods => DyingLists(s, t);
    case _ => DyingRefetches(s, t);
  }

  lemma DyingFetch(s: Sys, n: string, t: Turn)
    requires s.pc == Fetch(n) && t.ok && !Live(Cached(s, GPU))
    ensures DyingPc(Work(s, t))
  {
    hide Cleared, Stands;
  }

  lemma DyingLists(s: Sys, t: Turn)
    requires s.pc == ListPods && t.ok && DyingPc(s)
    ensures DyingPc(Work(s, t))
  {
    hide Cleared, Stable, ActiveWorkloadsOf, Only;
  }

  lemma DyingRefetches(s: Sys, t: Turn)
    requires s.pc == Refetch && t.ok && DyingPc(s)
    ensures DyingPc(Work(s, t))
  {
    hide Stable, ActiveWorkloadsOf, Only;
  }

  lemma DyingWorks(s: Sys, t: Turn)
    requires DyingCalm(s) && FaultFree(t)
    ensures DyingGoes(s, Work(s, t))
  {
    WorkKeepsSound(s, t);
    hide DyingGoes, Sound, Cleared, Stands, FetchStep, MarkRogueStep, ReleaseStep, AddFinalizerStep, CheckNodesStep, HaltStep,
         ApplyStatus, NoneLiveAtAll, Blocked,
         DeployStep, ReportHelmStep, ReadDriversStep, ReadPolicyStep, PublishStep, ListPodsStep, RemoveReleaseStep, RefetchStep;
    match s.pc
    case MarkUninstalling => DyingAnnounces(s, t);
    case ReportBlocked(active) => DyingBlocks(s, active, t);
    case RemoveRelease => DyingUninstalls(s, t);
    case DeleteNamespace => DyingDeletesNamespace(s, t);
    case DropFinalizer(read) => DyingDrops(s, read, t);
    case MarkRogue(_) => OthersChangeNothing(s, t); DyingMoves(s, Work(s, t));
    case FreeRogue(_, _) => OthersChangeNothing(s, t); DyingMoves(s, Work(s, t));
    case _ => DyingReads(s, t);
  }

  lemma DyingPcFrame(s: Sys, s1: Sys)
    requires SameEnvironment(s, s1) && SameOutput(s, s1) && DyingPc(s) && (s1.pc == s.pc || s1.pc.Fetch?)
    ensures DyingPc(s1)
  {
    hide Stable, ActiveWorkloadsOf, Only;
  }

  lemma NamespaceGoesDying(s: Sys)
    requires DyingCalm(s) && Sound(s.(ns := Missing, helm := []))
    ensures DyingKeeps(s, s.(ns := Missing, helm := []))
  {
    hide Sound, NoneLiveAtAll, Stable, ActiveWorkloadsOf, Only;
    assert Server(s.(ns := Missing, helm := []), GPU) == Server(s, GPU);
    NoReleaseIsNotVisible();
  }

  lemma NoReleaseIsNotVisible()
    ensures !Helm.Visible([])
  {}

  lemma DyingStep(s: Sys, e: Event)
    requires DyingCalm(s) && Quiet(e)
    ensures DyingKeeps(s, Step(s, e)) && (e.Worker? ==> DyingGoes(s, Step(s, e)))
  {
    StepKeepsSound(s, e);
    if e.Worker? {
      DyingWorks(s, e.turn);
    } else if e.NamespaceGone? {
      if s.ns.Terminating? { NamespaceGoesDying(s); }
    } else {
      QuietFrame(s, e);
      hide Sound, DyingGoes, Step, DyingPc;
      DyingPcFrame(s, Step(s, e));
      DyingMoves(s, Step(s, e));
    }
  }

  // ---- no CR of ours ----

  /** CR "gpu" does not exist or is being deleted without our finalizer. */
  ghost predicate NothingOfOurs(s: Sys) {
    && Sound(s) && !Removing(s.pc) && !Installing(s.pc) && !s.pc.AddFinalizer?
    && forall i | 0 <= i < |TrackOf(s, GPU)| :: !Live(TrackOf(s, GPU)[i]) && !Owned(TrackOf(s, GPU)[i])
  }

  lemma NothingIsFetched(s: Sys, t: Turn)
    requires NothingOfOurs(s) && (s.pc.Idle? || s.pc.Fetch?)
    ensures Work(s, t).pc.Idle? || Work(s, t).pc.MarkRogue? || Work(s, t).pc.FreeRogue?
  {
    assert !Live(Cached(s, GPU)) && !Owned(Cached(s, GPU));
    hide Sound, NothingOfOurs;
  }

  lemma NothingStep(s: Sys, e: Event)
    requires NothingOfOurs(s) && Quiet(e)
    ensures NothingOfOurs(Step(s, e)) && (e.Worker? ==> SameOutput(s, Step(s, e)))
  {
    StepKeepsSound(s, e);
    if e.Worker? && (s.pc.MarkRogue? || s.pc.FreeRogue?) {
      OthersChangeNothing(s, e.turn);
    } else if e.Worker? {
      ReadsWriteNothing(s, e.turn);
      NothingIsFetched(s, e.turn);
      hide Sound, Work;
    } else {
      QuietFrame(s, e);
      hide Sound, Step;
    }
  }

  // ---- the theorem ----

  /** The worker is idle and the cache holds the current version of CR "gpu". */
  ghost predicate AtRest(s: Sys) { s.pc.Idle? && |TrackOf(s, GPU)| == 1 }

  /** What a quiet run keeps, by what CR "gpu" was at its start. */
  ghost predicate Calm(s: Sys, start: Sys) {
    var v := Server(start, GPU);
    if Live(v) then LiveCalm(s, v.obj.value.spec) else if Owned(v) then DyingCalm(s) else NothingOfOurs(s)
  }

  ghost predicate First(s: Sys, start: Sys) {
    var v := Server(start, GPU);
    if Live(v) then Owned(Server(s, GPU)) else Owned(v) ==> Cleared(s)
  }

  ghost predicate AlmostFirst(s: Sys, start: Sys) {
    var v := Server(start, GPU);
    if Live(v) then Owned(Server(s, GPU)) else Owned(v) ==> DyingAlmost(s)
  }

  ghost predicate Second(s: Sys, start: Sys) {
    var v := Server(start, GPU);
    if Live(v) then LiveDone(s, v.obj.value.spec) else Owned(v) ==> DyingDone(s)
  }

  ghost predicate AlmostSecond(s: Sys, start: Sys) {
    var v := Server(start, GPU);
    if Live(v) then LiveAlmost(s, v.obj.value.spec) else Owned(v) ==> DyingDone(s)
  }

  ghost predicate StagesKept(s: Sys, s1: Sys, start: Sys) {
    && Calm(s1, start)
    && (AlmostFirst(s, start) ==> AlmostFirst(s1, start)) && (First(s, start) ==> First(s1, start))
    && (AlmostSecond(s, start) && First(s, start) ==> AlmostSecond(s1, start))
    && (Second(s, start) ==> Second(s1, start))
  }

  ghost predicate Goes(s: Sys, s1: Sys, start: Sys) {
    && StagesKept(s, s1, start)
    && (Second(s, start) ==> SameOutput(s, s1))
    && (!SameOutput(s, s1) ==> AlmostFirst(s1, start) && (First(s, start) ==> AlmostSecond(s1, start)))
  }

  lemma CalmStep(s: Sys, start: Sys, e: Event)
    requires Calm(s, start) && Smooth(s, e)
    ensures StagesKept(s, Step(s, e), start) && (e.Worker? ==> Goes(s, Step(s, e), start))
  {
    var v := Server(start, GPU);
    if Live(v) {
      LiveStep(s, v.obj.value.spec, e);
      hide LiveCalm, LiveSettled, Step;
    } else if Owned(v) {
      DyingStep(s, e);
      hide DyingCalm, Cleared, Step;
    } else {
      NothingStep(s, e);
      hide NothingOfOurs, Step;
    }
  }

  /** From one state of a quiet run to a later one. */
  lemma {:induction false} CalmRun(s: Sys, es: seq<Event>, i: nat, k: nat)
    requires i <= k <= |es| && SmoothRun(s, es) && Calm(At(s, es, i), s)
    ensures Calm(At(s, es, k), s)
    ensures AlmostFirst(At(s, es, i), s) ==> AlmostFirst(At(s, es, k), s)
    ensures First(At(s, es, i), s) ==> First(At(s, es, k), s)
    ensures AlmostSecond(At(s, es, i), s) && First(At(s, es, i), s) ==> AlmostSecond(At(s, es, k), s)
    ensures Second(At(s, es, i), s) ==> Second(At(s, es, k), s)
  {
    hide Calm, First, AlmostFirst, Second, AlmostSecond, Step, At, SameOutput, Smooth, Goes;
    if i < k {
      CalmRun(s, es, i, k - 1);
      NextState(s, es, k - 1);
      CalmStep(At(s, es, k - 1), s, es[k - 1]);
    }
  }

  lemma RestIsCalm(s: Sys)
    requires AtRest(s) && Sound(s) && Helm.WellFormed(s.helm) && (Helm.Recoverable(s.helm) || s.ns.Terminating?)
    ensures Calm(s, s)
  {
    hide Sound;
  }

  lemma IdleMeansReached(s: Sys, start: Sys)
    requires s.pc.Idle?
    ensures AlmostFirst(s, start) ==> First(s, start)
    ensures AlmostSecond(s, start) ==> Second(s, start)
  {
    hide Cleared, LiveSettled;
  }

  lemma {:induction false} RunsKeepHistoryShape(s: Sys, es: seq<Event>)
    requires Initial(s)
    ensures Helm.WellFormed(Run(s, es).helm) && Helm.Bounded(Run(s, es).helm)
  {
    hide Step, Helm.WellFormed, Helm.Bounded;
    if es == [] {
      assert Run(s, es) == s;
      NoHistoryIsFine();
    } else {
      RunsKeepHistoryShape(s, es[..|es| - 1]);
      StepKeepsHistoryShape(Run(s, es[..|es| - 1]), es[|es| - 1]);
    }
  }

  lemma NoHistoryIsFine()
    ensures Helm.WellFormed([]) && Helm.Bounded([])
  {}

  lemma StepKeepsHistoryShape(s: Sys, e: Event)
    requires Helm.WellFormed(s.helm) && Helm.Bounded(s.helm)
    ensures Helm.WellFormed(Step(s, e).helm) && Helm.Bounded(Step(s, e).helm)
  {
    hide Helm.InstallOrUpgrade, Helm.UninstallRelease, BuildValues, Helm.WellFormed, Helm.Bounded;
    OnlyTwoStepsTouchHelm(s, e);
    if e.Worker? && s.pc.Deploy? {
      assert Step(s, e) == DeployStep(s, s.pc.spec, s.pc.os, e.turn);
      if s.cfg.chart.Some? {
        var config := Wanted(s, s.pc.spec, s.pc.os);
        Helm.InstallOrUpgradeKeepsShape(s.helm, s.cfg.chart.value, config, DeployOracle(s, e.turn));
        Helm.HistoryStaysBounded(s.helm, s.cfg.chart.value, config, DeployOracle(s, e.turn));
      }
    } else if e.Worker? && s.pc.RemoveRelease? {
      assert Step(s, e) == RemoveReleaseStep(s, e.turn);
      Helm.UninstallKeepsShape(s.helm, e.turn.removal);
    } else {
      NoHistoryIsFine();
    }
  }

  /**
   * From any reachable state at rest whose newest release is absent, deployed, failed,
   * pending-install or pending-upgrade, or on its way out with its namespace: in a run in which nothing else changes and no call
   * fails, whatever the queue, the cache and the clock do, two reconciles that write are the
   * last ones that do. Steps i and j write, the worker was idle between them and after them.
   */
  lemma AtMostTwoReconcilesWrite(init: Sys, past: seq<Event>, es: seq<Event>, i: nat, m: nat, j: nat, n: nat, k: nat)
    requires Initial(init) && AtRest(Run(init, past)) && SmoothRun(Run(init, past), es)
    requires Helm.Recoverable(Run(init, past).helm) || Run(init, past).ns.Terminating?
    requires i < m <= j < n <= k < |es|
    requires var s := Run(init, past);
             && Writes(At(s, es, i), es[i]) && At(s, es, m).pc.Idle?
             && Writes(At(s, es, j), es[j]) && At(s, es, n).pc.Idle?
    ensures var s := Run(init, past); !Writes(At(s, es, k), es[k])
  {
    var s := Run(init, past);
    RunsAreSound(init, past);
    RunsKeepHistoryShape(init, past);
    RestIsCalm(s);
    TwoWritesAreTheLast(s, es, i, m, j, n, k);
  }

  lemma TwoWritesAreTheLast(s: Sys, es: seq<Event>, i: nat, m: nat, j: nat, n: nat, k: nat)
    requires Calm(s, s) && SmoothRun(s, es) && i < m <= j < n <= k < |es|
    requires Writes(At(s, es, i), es[i]) && At(s, es, m).pc.Idle?
    requires Writes(At(s, es, j), es[j]) && At(s, es, n).pc.Idle?
    ensures !Writes(At(s, es, k), es[k])
  {
    hide Calm, First, AlmostFirst, Second, AlmostSecond, Step, Run, SameOutput, Smooth;
    NothingYet(s, es);
    CalmRun(s, es, 0, i);
    CalmWrite(s, es, i);
    CalmRun(s, es, i + 1, m);
    IdleMeansReached(At(s, es, m), s);
    CalmRun(s, es, m, j);
    CalmWrite(s, es, j);
    CalmRun(s, es, j + 1, n);
    IdleMeansReached(At(s, es, n), s);
    CalmRun(s, es, n, k);
    CalmWrite(s, es, k);
  }

  lemma CalmWrite(s: Sys, es: seq<Event>, i: nat)
    requires i < |es| && Smooth(At(s, es, i), es[i]) && Calm(At(s, es, i), s)
    ensures es[i].Worker? ==> Goes(At(s, es, i), At(s, es, i + 1), s)
    ensures Writes(At(s, es, i), es[i]) <==> es[i].Worker? && !SameOutput(At(s, es, i), At(s, es, i + 1))
  {
    hide Run, Step, Goes, Calm, SameOutput, Smooth;
    NextState(s, es, i);
    CalmStep(At(s, es, i), s, es[i]);
  }

  lemma ReportIsLast(s: Sys, es: seq<Event>, i: nat, k: nat)
    requires Calm(s, s) && Live(Server(s, GPU)) && SmoothRun(s, es) && i < k < |es|
    requires es[i].Worker? && (At(s, es, i).pc.Halt? || At(s, es, i).pc.Publish?)
    ensures !Writes(At(s, es, k), es[k])
  {
    NothingYet(s, es);
    hide LiveDone, LiveCalm, DyingCalm, NothingOfOurs, LiveGoes, First, AlmostFirst, AlmostSecond, Step, Run, SameOutput, Smooth;
    CalmRun(s, es, 0, i);
    NextState(s, es, i);
    LiveStep(At(s, es, i), Server(s, GPU).obj.value.spec, es[i]);
    CalmRun(s, es, 0, i + 1);
    CalmRun(s, es, i + 1, k);
    CalmWrite(s, es, k);
  }

  /**
   * Once a reconcile of the live CR in such a run has reported, whether it deployed or halted,
   * the worker never writes again.
   */
  lemma ReportedIsFixed(init: Sys, past: seq<Event>, es: seq<Event>, i: nat, k: nat)
    requires Initial(init) && AtRest(Run(init, past)) && SmoothRun(Run(init, past), es)
    requires Helm.Recoverable(Run(init, past).helm) || Run(init, past).ns.Terminating?
    requires Live(Server(Run(init, past), GPU)) && i < k < |es|
    requires var s := Run(init, past); es[i].Worker? && (At(s, es, i).pc.Halt? || At(s, es, i).pc.Publish?)
    ensures var s := Run(init, past); !Writes(At(s, es, k), es[k])
  {
    RunsAreSound(init, past);
    RunsKeepHistoryShape(init, past);
    RestIsCalm(Run(init, past));
    ReportIsLast(Run(init, past), es, i, k);
  }
}

/** No orphaned release: the invariant behind it and the theorems over all runs. */
module Lifecycle {
  import opened Text
  import opened Values
  import opened Detection
  import opened Conditions
  import opened Cluster
  import opened Machine
  import Helm

  // ---- what a track of CR versions keeps ----

  predicate Owned(v: View) { v.obj.Some? && v.obj.value.ours }

  predicate Live(v: View) { v.obj.Some? && !v.obj.value.deleting }

  /** Versions are numbered upwards. */
  ghost predicate Numbered(t: Track, next: nat) {
    (forall i, j | 0 <= i < j < |t| :: t[i].rv < t[j].rv) && t[|t| - 1].rv < next
  }

  /** After a live version with our finalizer, no later version is without it. */
  ghost predicate HoldsOn(t: Track) {
    forall i, j | 0 <= i <= j < |t| && Live(t[i]) && Owned(t[i]) :: Owned(t[j])
  }

  /** After a deleting version with our finalizer, no later version is live with it. */
  ghost predicate DyingOnce(t: Track) {
    forall i, j | 0 <= i < j < |t| && !Live(t[i]) && Owned(t[i]) :: !(Owned(t[j]) && Live(t[j]))
  }

  ghost predicate TrackOk(t: Track, next: nat) {
    Numbered(t, next) && HoldsOn(t) && DyingOnce(t)
  }

  ghost predicate AllOwned(t: Track) { forall i | 0 <= i < |t| :: Owned(t[i]) }

  ghost predicate NoneLive(t: Track) { forall i | 0 <= i < |t| && Owned(t[i]) :: !Live(t[i]) }

  /** A write that keeps our finalizer where it is and does not revive the object. */
  ghost predicate Benign(last: View, obj: Option<Cr>) {
    if Owned(last) then obj.Some? && obj.value.ours && (last.obj.value.deleting ==> obj.value.deleting)
    else obj.None? || !obj.value.ours
  }

  lemma BenignWrite(t: Track, next: nat, obj: Option<Cr>)
    requires TrackOk(t, next) && Benign(t[|t| - 1], obj)
    ensures var t' := t + [View(next, obj)];
            TrackOk(t', next + 1) && (AllOwned(t) ==> AllOwned(t')) && (NoneLive(t) ==> NoneLive(t'))
  {}

  lemma DeliverOne(t: Track, next: nat)
    requires TrackOk(t, next) && |t| > 1
    ensures var t': Track := t[1..]; TrackOk(t', next) && (AllOwned(t) ==> AllOwned(t')) && (NoneLive(t) ==> NoneLive(t'))
  {}

  // ---- the invariant ----

  /** From passing the gate to the end of a reconcile that may install. */
  predicate Installing(pc: Pc) {
    pc.CheckNodes? || pc.Halt? || pc.Deploy? || pc.ReportHelm? || pc.ReadDrivers? || pc.ReadPolicy? || pc.Publish?
  }

  /** A reconcile of the deleted CR, up to the removal of the finalizer. */
  predicate Removing(pc: Pc) {
    pc.MarkUninstalling? || pc.ListPods? || pc.ReportBlocked? || pc.RemoveRelease?
    || pc.DeleteNamespace? || pc.Refetch? || pc.DropFinalizer?
  }

  predicate Uninstalled(pc: Pc) { pc.DeleteNamespace? || pc.Refetch? || pc.DropFinalizer? }

  /** A version held across calls is the cached one or older. */
  ghost predicate HeldOk(t: Track, read: View) {
    read.obj.Some? && (read == t[0] || read.rv < t[0].rv)
  }

  ghost predicate PcOk(t: Track, pc: Pc, helm: Helm.History) {
    && (Installing(pc) ==> AllOwned(t))
    && (Removing(pc) ==> NoneLive(t))
    && (Uninstalled(pc) ==> !Helm.Visible(helm))
    && (pc.AddFinalizer? ==> HeldOk(t, pc.read) && !Owned(pc.read) && Live(pc.read))
    && (pc.DropFinalizer? ==> HeldOk(t, pc.read))
    && (pc.MarkRogue? || pc.FreeRogue? ==> pc.n != GPU)
  }

  ghost predicate Sound(s: Sys) {
    var t := TrackOf(s, GPU);
    && TrackOk(t, s.nextRv)
    && (Helm.Visible(s.helm) ==> AllOwned(t))
    && PcOk(t, s.pc, s.helm)
  }

  /** A version read earlier that is still the server's is the only version there is. */
  lemma CurrentReadIsAll(t: Track, next: nat, read: View)
    requires TrackOk(t, next) && HeldOk(t, read) && read == t[|t| - 1]
    ensures t == [read]
  {}

  /** A write to any CR that is benign for "gpu", with the worker left where it is or sent elsewhere. */
  lemma WriteKeepsSound(s: Sys, n: string, obj: Option<Cr>)
    requires Sound(s) && (n == GPU ==> Benign(Server(s, GPU), obj))
    ensures Sound(Write(s, n, obj))
  {
    if n == GPU {
      BenignWrite(TrackOf(s, GPU), s.nextRv, obj);
    }
  }

  lemma StatusKeepsSound(s: Sys, n: string, u: Update, ok: bool)
    requires Sound(s)
    ensures var s1 := ApplyStatus(s, n, u, ok).0;
            Sound(s1) && s1.pc == s.pc && s1.helm == s.helm
  {
    hide Merge;
    if ok && Server(s, n).obj.Some? {
      var cr := Server(s, n).obj.value;
      WriteKeepsSound(s, n, Some(cr.(status := Merge(cr.status, u, cr.gen, s.now))));
    }
  }

  lemma RestartKeepsSound(s: Sys, cfg: Config)
    requires Sound(s)
    ensures Sound(Restarted(s, cfg))
  {}

  // ---- every event keeps it ----

  lemma FetchKeepsSound(s: Sys, n: string, t: Turn)
    requires Sound(s) && s.pc == Fetch(n)
    ensures Sound(FetchStep(s, n, t))
  {
    hide TrackOk, AllOwned, NoneLive, HeldOk, Gate;
    if t.ok && Cached(s, n).obj.Some? {
      if n == GPU { GateOpensSoundly(TrackOf(s, GPU), s.nextRv, s.helm); } else { GateKeepsRoguesOut(n, Cached(s, n)); }
    }
  }

  lemma GateOpensSoundly(t: Track, next: nat, helm: Helm.History)
    requires TrackOk(t, next) && t[0].obj.Some?
    ensures PcOk(t, Gate(GPU, t[0]), helm)
  {
    if Live(t[0]) && Owned(t[0]) {
      assert AllOwned(t);
    } else if Owned(t[0]) {
      assert NoneLive(t);
    }
  }

  /** A CR with another name never gets near Helm. */
  lemma GateKeepsRoguesOut(n: string, read: View)
    requires n != GPU && read.obj.Some?
    ensures Gate(n, read).Idle? || ((Gate(n, read).MarkRogue? || Gate(n, read).FreeRogue?) && Gate(n, read).n == n)
  {}

  lemma AddFinalizerKeepsSound(s: Sys, read: View, t: Turn)
    requires Sound(s) && s.pc == AddFinalizer(read)
    ensures Sound(AddFinalizerStep(s, read, t))
  {
    if t.ok && read == Server(s, GPU) {
      CurrentReadIsAll(TrackOf(s, GPU), s.nextRv, read);
    }
  }

  lemma FreeRogueKeepsSound(s: Sys, n: string, read: View, t: Turn)
    requires Sound(s) && s.pc == FreeRogue(n, read)
    ensures Sound(ReleaseStep(s, n, read, t))
  {
    assert n != GPU;
    hide Sound, Write;
    if read.obj.Some? {
      WriteKeepsSound(s, n, Released(read.obj.value));
      MoveKeepsSound(Write(s, n, Released(read.obj.value)), Done(Write(s, n, Released(read.obj.value))));
    }
    MoveKeepsSound(s, Done(s));
    MoveKeepsSound(s, Retry(s, n));
  }

  lemma DropFinalizerKeepsSound(s: Sys, read: View, t: Turn)
    requires Sound(s) && s.pc == DropFinalizer(read)
    ensures Sound(ReleaseStep(s, GPU, read, t))
  {
    if t.ok && read == Server(s, GPU) {
      CurrentReadIsAll(TrackOf(s, GPU), s.nextRv, read);
    }
  }

  /** A new release history, allowed by where the worker is, followed by a move or a restart. */
  lemma HelmKeepsSound(s: Sys, s1: Sys, s2: Sys)
    requires Sound(s) && s1.views == s.views && s1.nextRv == s.nextRv && s1.pc == s.pc
    requires Helm.Visible(s1.helm) ==> Helm.Visible(s.helm) || Installing(s.pc)
    requires !Uninstalled(s.pc)
    requires s2 == Restarted(s1, s1.cfg) || (
               && s2.views == s.views && s2.nextRv == s.nextRv && s2.helm == s1.helm
               && (Installing(s2.pc) ==> Installing(s.pc))
               && (Removing(s2.pc) ==> Removing(s.pc))
               && (Uninstalled(s2.pc) ==> !Helm.Visible(s1.helm))
               && (s2.pc.Idle? || Installing(s2.pc) || s2.pc.DeleteNamespace?))
    ensures Sound(s2)
  {
    hide TrackOk, NoneLive, AllOwned, Restarted, Helm.Visible;
    assert Sound(s1);
    RestartKeepsSound(s1, s1.cfg);
  }

  lemma DeployKeepsSound(s: Sys, spec: GpuSpec, os: OsType, t: Turn)
    requires Sound(s) && s.pc == Deploy(spec, os)
    ensures Sound(DeployStep(s, spec, os, t))
  {
    hide Helm.InstallOrUpgrade, BuildValues, Sound, Restarted;
    var s2 := DeployStep(s, spec, os, t);
    if s.cfg.chart.Some? && !(os.GardenLinux? && s.cfg.base.None?) {
      var base := if s.cfg.base.Some? then s.cfg.base.value else map[];
      var r := Helm.InstallOrUpgrade(s.helm, s.cfg.chart.value, BuildValues(base, spec, os), DeployOracle(s, t));
      HelmKeepsSound(s, s.(helm := r.history, ns := Housing(s.ns, r.history, t)), s2);
    } else {
      MoveKeepsSound(s, s2);
    }
  }

  lemma RemoveReleaseKeepsSound(s: Sys, t: Turn)
    requires Sound(s) && s.pc == RemoveRelease
    ensures Sound(RemoveReleaseStep(s, t))
  {
    hide Sound, Restarted, Helm.UninstallRelease, Helm.Visible;
    UninstallShowsNothingNew(s.helm, t.removal);
    if Helm.UninstallRelease(s.helm, t.removal).1.Done? { Helm.UninstallClears(s.helm, t.removal); }
    HelmKeepsSound(s, s.(helm := Helm.UninstallRelease(s.helm, t.removal).0), RemoveReleaseStep(s, t));
  }

  lemma UninstallShowsNothingNew(h: Helm.History, o: Helm.UninstallOracle)
    ensures Helm.Visible(Helm.UninstallRelease(h, o).0) ==> Helm.Visible(h)
  {}

  /** A worker step that writes nothing and stays in its phase or ends. */
  lemma MoveKeepsSound(s: Sys, s1: Sys)
    requires Sound(s) && s1.views == s.views && s1.nextRv == s.nextRv && s1.helm == s.helm
    requires Installing(s1.pc) ==> Installing(s.pc)
    requires Removing(s1.pc) ==> Removing(s.pc)
    requires Uninstalled(s1.pc) ==> Uninstalled(s.pc)
    requires !s1.pc.AddFinalizer? && !s1.pc.MarkRogue? && !s1.pc.FreeRogue?
    requires s1.pc.DropFinalizer? ==> s1.pc.read == Cached(s, GPU) && s1.pc.read.obj.Some?
    ensures Sound(s1)
  {
    hide TrackOk, AllOwned, NoneLive;
  }

  /** A step that writes a status and then moves on. */
  lemma ReportingKeepsSound(s: Sys, n: string, u: Update, ok: bool, s1: Sys)
    requires Sound(s)
    requires var r := ApplyStatus(s, n, u, ok).0;
             s1.views == r.views && s1.nextRv == r.nextRv && s1.helm == r.helm
    requires s1.pc.Idle? || (s1.pc.ListPods? && Removing(s.pc))
    ensures Sound(s1)
  {
    hide Sound, ApplyStatus;
    StatusKeepsSound(s, n, u, ok);
    MoveKeepsSound(ApplyStatus(s, n, u, ok).0, s1);
  }

  lemma ReadingKeepsSound(s: Sys, t: Turn)
    requires Sound(s)
    requires s.pc.CheckNodes? || s.pc.ReadDrivers? || s.pc.ReadPolicy? || s.pc.ListPods? || s.pc.DeleteNamespace? || s.pc.Refetch?
    ensures Sound(Work(s, t))
  {
    hide PreflightOf, DriverCheckOf, PolicyReport, ActiveWorkloadsOf, Sound;
    MoveKeepsSound(s, Work(s, t));
  }

  lemma WorkKeepsSound(s: Sys, t: Turn)
    requires Sound(s)
    ensures Sound(Work(s, t))
  {
    hide Sound, FetchStep, ApplyStatus, ReleaseStep, AddFinalizerStep, DeployStep, RemoveReleaseStep,
         CheckNodesStep, ListPodsStep, RefetchStep, ReadDriversStep, ReadPolicyStep,
         Only, VerdictReport, HelmFailedUpdate, FullUpdate, BlockedUpdate, SetAll, Merge;
    match s.pc
    case Idle =>
    case Fetch(n) => FetchKeepsSound(s, n, t);
    case FreeRogue(n, read) => FreeRogueKeepsSound(s, n, read, t);
    case AddFinalizer(read) => AddFinalizerKeepsSound(s, read, t);
    case Deploy(spec, os) => DeployKeepsSound(s, spec, os, t);
    case RemoveRelease => RemoveReleaseKeepsSound(s, t);
    case DropFinalizer(read) => DropFinalizerKeepsSound(s, read, t);
    case MarkRogue(n) => ReportingKeepsSound(s, n, Only(ROGUE_REPORT), t.ok, Work(s, t));
    case Halt(p) => ReportingKeepsSound(s, GPU, Only(VerdictReport(p)), t.ok, Work(s, t));
    case ReportHelm(os, error) => ReportingKeepsSound(s, GPU, HelmFailedUpdate(os, error), t.ok, Work(s, t));
    case Publish(os, version, d, v) => ReportingKeepsSound(s, GPU, FullUpdate(os, version, d, v), t.ok, Work(s, t));
    case MarkUninstalling => ReportingKeepsSound(s, GPU, Only(UNINSTALLING_REPORT), t.ok, Work(s, t));
    case ReportBlocked(active) => ReportingKeepsSound(s, GPU, BlockedUpdate(active), t.ok, Work(s, t));
    case _ => ReadingKeepsSound(s, t);
  }

  lemma ChangeKeepsSound(s: Sys, e: Event, cr: Cr)
    requires Sound(s) && (e.Edit? || e.Touch? || e.Delete?) && Server(s, e.n).obj == Some(cr)
    ensures Sound(Change(s, e, cr))
  {
    hide Sound, Write;
    match e
    case Edit(n, spec) => WriteKeepsSound(s, n, Some(cr.(spec := spec, gen := cr.gen + 1)));
    case Touch(n, foreign) =>
      if cr.deleting && !cr.ours && !foreign { WriteKeepsSound(s, n, None); }
      WriteKeepsSound(s, n, Some(cr.(foreign := foreign)));
    case Delete(n) =>
      if !cr.ours && !cr.foreign { WriteKeepsSound(s, n, None); }
      WriteKeepsSound(s, n, Some(cr.(deleting := true, gen := cr.gen + 1)));
  }

  lemma StepKeepsSound(s: Sys, e: Event)
    requires Sound(s)
    ensures Sound(Step(s, e))
  {
    hide Work, Change, AfterNodeEvent, Possible, Fires;
    match e
    case Worker(t) => WorkKeepsSound(s, t);
    case Deliver(n) => if n == GPU && |TrackOf(s, GPU)| > 1 { DeliverOne(TrackOf(s, GPU), s.nextRv); }
    case Create(n, spec, foreign) =>
      if Server(s, n).obj.None? { WriteKeepsSound(s, n, Some(Cr(1, false, false, foreign, spec, NO_STATUS))); }
    case Restart(cfg) => RestartKeepsSound(s, cfg);
    case Edit(_, _) => if Server(s, e.n).obj.Some? { ChangeKeepsSound(s, e, Server(s, e.n).obj.value); }
    case Touch(_, _) => if Server(s, e.n).obj.Some? { ChangeKeepsSound(s, e, Server(s, e.n).obj.value); }
    case Delete(_) => if Server(s, e.n).obj.Some? { ChangeKeepsSound(s, e, Server(s, e.n).obj.value); }
    case _ =>
  }

  lemma {:induction false} RunsAreSound(s: Sys, es: seq<Event>)
    requires Initial(s)
    ensures Sound(Run(s, es))
  {
    if es != [] {
      RunsAreSound(s, es[..|es| - 1]);
      StepKeepsSound(Run(s, es[..|es| - 1]), es[|es| - 1]);
    }
  }

  // ---- no orphaned release ----

  ghost predicate HeldByGpu(s: Sys) { Owned(Server(s, GPU)) }

  /**
   * In every run, whatever fails or is cut off and whenever the CR is deleted: a release that
   * is deployed or failed exists only while CR "gpu" exists with our finalizer. So what can be
   * left behind has a newest revision that is pending or uninstalling.
   */
  lemma NoVisibleOrphan(s: Sys, es: seq<Event>)
    requires Initial(s)
    ensures Helm.Visible(Run(s, es).helm) ==> HeldByGpu(Run(s, es))
    ensures Run(s, es).helm != [] && !HeldByGpu(Run(s, es)) ==>
              Run(s, es).helm[|Run(s, es).helm| - 1].status !in {Helm.Deployed, Helm.Failed}
  {
    hide Run, TrackOf;
    RunsAreSound(s, es);
    var h := Run(s, es).helm;
    assert h != [] ==> (Helm.Visible(h) <==> h[|h| - 1].status in {Helm.Deployed, Helm.Failed});
  }

  /** The action comes to an end and records it. */
  predicate Ends(fate: Helm.Fate) { !fate.Cut? && !fate.Unrecorded? }

  /** No Helm call of the step is left unfinished, and no uninstall gives up halfway. */
  predicate Gentle(e: Event) {
    e.Worker? ==> Ends(e.turn.helm.recover) && Ends(e.turn.helm.apply) && Ends(e.turn.removal.fate)
                  && e.turn.removal.fate != Helm.Fails(false)
  }

  /** The release is absent or one the operator can see. */
  predicate Tidy(h: Helm.History) { h == [] || Helm.Visible(h) }

  lemma GentleDeployKeepsTidy(h: Helm.History, chart: string, config: Fields, o: Helm.Oracle)
    requires Tidy(h) && Ends(o.recover) && Ends(o.apply)
    ensures Tidy(Helm.InstallOrUpgrade(h, chart, config, o).history)
  {
    hide Helm.Stored, Helm.UpToDate, Helm.Prune;
  }

  predicate Reports(pc: Pc) {
    pc.MarkRogue? || pc.Halt? || pc.ReportHelm? || pc.Publish? || pc.MarkUninstalling? || pc.ReportBlocked?
  }

  lemma ReportingLeavesHelm(s: Sys, t: Turn)
    requires Reports(s.pc)
    ensures var s1 := Work(s, t); s1.helm == s.helm && s1.ns == s.ns && (s1.pc.Idle? || s1.pc.ListPods?)
  {
    hide Merge, SetAll, Server, VerdictReport, FullUpdate, HelmFailedUpdate, Only, BlockedUpdate;
  }

  lemma OtherWorkLeavesHelm(s: Sys, t: Turn)
    requires !s.pc.Deploy? && !s.pc.RemoveRelease?
    ensures var s1 := Work(s, t);
            && s1.helm == s.helm && (s.pc.DeleteNamespace? || s1.ns == s.ns)
            && (s1.pc.Refetch? ==> s.pc.Refetch? || s.pc.DeleteNamespace?)
            && (s1.pc.DropFinalizer? ==> s.pc.Refetch? || s.pc.DropFinalizer?)
  {
    hide ApplyStatus, HaltStep, MarkRogueStep, ReportHelmStep, PublishStep, PreflightOf, DriverCheckOf, PolicyReport,
         ActiveWorkloadsOf, Cached, Server, Released;
    if Reports(s.pc) { ReportingLeavesHelm(s, t); }
  }

  /** Only two worker steps and the end of the namespace touch the release. */
  lemma OnlyTwoStepsTouchHelm(s: Sys, e: Event)
    ensures Step(s, e).helm == s.helm || (e.Worker? && (s.pc.Deploy? || s.pc.RemoveRelease?))
            || (e.NamespaceGone? && Step(s, e).helm == [])
  {
    hide AfterNodeEvent, Work, Fires, Possible, Server, Cached;
    if e.Worker? && !s.pc.Deploy? && !s.pc.RemoveRelease? { OtherWorkLeavesHelm(s, e.turn); }
  }

  lemma GentleStepKeepsTidy(s: Sys, e: Event)
    requires Tidy(s.helm) && Gentle(e)
    ensures Tidy(Step(s, e).helm)
  {
    hide Helm.InstallOrUpgrade, Helm.UninstallRelease, BuildValues, Helm.Visible;
    OnlyTwoStepsTouchHelm(s, e);
    if e.Worker? && s.pc.Deploy? {
      assert Step(s, e) == DeployStep(s, s.pc.spec, s.pc.os, e.turn);
      if s.cfg.chart.Some? {
        var base := if s.cfg.base.Some? then s.cfg.base.value else map[];
        GentleDeployKeepsTidy(s.helm, s.cfg.chart.value, BuildValues(base, s.pc.spec, s.pc.os), DeployOracle(s, e.turn));
      }
    } else if e.Worker? && s.pc.RemoveRelease? {
      assert Step(s, e) == RemoveReleaseStep(s, e.turn);
      GentleRemovalKeepsTidy(s.helm, e.turn.removal);
    }
  }

  lemma GentleRemovalKeepsTidy(h: Helm.History, o: Helm.UninstallOracle)
    requires Tidy(h) && Ends(o.fate) && o.fate != Helm.Fails(false)
    ensures Tidy(Helm.UninstallRelease(h, o).0)
  {}

  /** Over runs without such accidents not even a terminating namespace holds a release that "gpu" does not. */
  lemma {:induction false} GentleRunsLeaveNothing(s: Sys, es: seq<Event>)
    requires Initial(s) && forall e | e in es :: Gentle(e)
    ensures Tidy(Run(s, es).helm)
    ensures Run(s, es).helm != [] ==> HeldByGpu(Run(s, es))
  {
    if es != [] {
      GentleRunsLeaveNothing(s, es[..|es| - 1]);
      assert es[|es| - 1] in es;
      GentleStepKeepsTidy(Run(s, es[..|es| - 1]), es[|es| - 1]);
    }
    NoVisibleOrphan(s, es);
  }

  // ---- and of any status ----

  /** Records need a namespace; in a standing one they need a CR that holds our finalizer in every version. */
  ghost predicate Housed(s: Sys) {
    && (s.ns.Missing? ==> s.helm == [])
    && (s.ns.Standing? && s.helm != [] ==> AllOwned(TrackOf(s, GPU)))
    && (s.pc.Refetch? || s.pc.DropFinalizer? ==> !s.ns.Standing?)
  }

  lemma OwnedAfterWrite(s: Sys, n: string, obj: Option<Cr>)
    requires AllOwned(TrackOf(s, GPU)) && (n == GPU ==> obj.Some? && obj.value.ours)
    ensures AllOwned(TrackOf(Write(s, n, obj), GPU))
  {}

  lemma OwnedAfterStatus(s: Sys, n: string, u: Update, ok: bool)
    requires AllOwned(TrackOf(s, GPU))
    ensures AllOwned(TrackOf(ApplyStatus(s, n, u, ok).0, GPU))
  {
    hide Merge;
    if ok && Server(s, n).obj.Some? {
      var cr := Server(s, n).obj.value;
      assert n == GPU ==> Owned(Server(s, GPU));
      OwnedAfterWrite(s, n, Some(cr.(status := Merge(cr.status, u, cr.gen, s.now))));
    }
  }

  lemma OwnedAfterUpdate(s: Sys, t: Turn)
    requires Sound(s) && AllOwned(TrackOf(s, GPU)) && (s.pc.AddFinalizer? || s.pc.FreeRogue?)
    ensures AllOwned(TrackOf(Work(s, t), GPU))
  {
    hide TrackOk, Released;
    assert Owned(Server(s, GPU));
  }

  lemma OwnedAfterDeploy(s: Sys, spec: GpuSpec, os: OsType, t: Turn)
    requires AllOwned(TrackOf(s, GPU))
    ensures AllOwned(TrackOf(DeployStep(s, spec, os, t), GPU))
  {
    hide AllOwned, Restarted, Helm.InstallOrUpgrade, BuildValues;
    OwnedAfterRestart(s, s.cfg);
  }

  lemma OwnedAfterRemoval(s: Sys, t: Turn)
    requires AllOwned(TrackOf(s, GPU))
    ensures AllOwned(TrackOf(RemoveReleaseStep(s, t), GPU))
  {
    hide AllOwned, Restarted, Helm.UninstallRelease;
    OwnedAfterRestart(s, s.cfg);
    var (h, c) := Helm.UninstallRelease(s.helm, t.removal);
    assert c.Crashed? ==> RemoveReleaseStep(s, t) == Restarted(s.(helm := h), s.cfg);
  }

  lemma OwnedAfterRestart(s: Sys, cfg: Config)
    requires AllOwned(TrackOf(s, GPU))
    ensures forall s1: Sys | s1.views == s.views :: AllOwned(TrackOf(Restarted(s1, cfg), GPU))
  {}

  lemma WorkKeepsOwned(s: Sys, t: Turn)
    requires Sound(s) && AllOwned(TrackOf(s, GPU)) && !s.pc.DropFinalizer?
    ensures AllOwned(TrackOf(Work(s, t), GPU))
  {
    hide Sound, AllOwned, ApplyStatus, ReleaseStep, AddFinalizerStep, DeployStep, RemoveReleaseStep, SetAll, Gate,
         PreflightOf, ActiveWorkloadsOf, DriverCheckOf, PolicyReport;
    match s.pc
    case AddFinalizer(_) => OwnedAfterUpdate(s, t);
    case FreeRogue(_, _) => OwnedAfterUpdate(s, t);
    case Deploy(spec, os) => OwnedAfterDeploy(s, spec, os, t);
    case RemoveRelease => OwnedAfterRemoval(s, t);
    case MarkRogue(n) => OwnedAfterStatus(s, n, Only(ROGUE_REPORT), t.ok);
    case Halt(p) => OwnedAfterStatus(s, GPU, Only(VerdictReport(p)), t.ok);
    case ReportHelm(os, error) => OwnedAfterStatus(s, GPU, HelmFailedUpdate(os, error), t.ok);
    case Publish(os, version, d, v) => OwnedAfterStatus(s, GPU, FullUpdate(os, version, d, v), t.ok);
    case MarkUninstalling => OwnedAfterStatus(s, GPU, Only(UNINSTALLING_REPORT), t.ok);
    case ReportBlocked(active) => OwnedAfterStatus(s, GPU, BlockedUpdate(active), t.ok);
    case _ =>
  }

  lemma ChangeKeepsOwned(s: Sys, e: Event, cr: Cr)
    requires AllOwned(TrackOf(s, GPU)) && (e.Edit? || e.Touch? || e.Delete?) && Server(s, e.n).obj == Some(cr)
    ensures AllOwned(TrackOf(Change(s, e, cr), GPU))
  {
    assert e.n == GPU ==> Owned(Server(s, GPU));
  }

  lemma ChangeElsewhere(s: Sys, e: Event, cr: Cr)
    requires (e.Edit? || e.Touch? || e.Delete?) && e.n != GPU
    ensures TrackOf(Change(s, e, cr), GPU) == TrackOf(s, GPU)
  {}

  /** The cache and a restart only drop old versions of "gpu". */
  lemma TrackMoves(s: Sys, e: Event)
    requires !e.Worker? && (e.Create? ==> e.n != GPU || Server(s, GPU).obj.Some?)
    requires e.Edit? || e.Touch? || e.Delete? ==> e.n != GPU
    ensures var t, t1 := TrackOf(s, GPU), TrackOf(Step(s, e), GPU);
            t1 == t || (|t| > 1 && t1 == t[1..]) || (e.Restart? && t1 == [t[|t| - 1]])
  {
    hide Change, AfterNodeEvent, Possible, Fires;
    if e.Edit? || e.Touch? || e.Delete? {
      if Server(s, e.n).obj.Some? { ChangeElsewhere(s, e, Server(s, e.n).obj.value); }
    }
  }

  /** Once every version of "gpu" has our finalizer, only the step that drops it can change that. */
  lemma OwnedStays(s: Sys, e: Event)
    requires Sound(s) && AllOwned(TrackOf(s, GPU)) && !(e.Worker? && s.pc.DropFinalizer?)
    ensures AllOwned(TrackOf(Step(s, e), GPU))
  {
    if e.Worker? {
      WorkKeepsOwned(s, e.turn);
    } else if e.Edit? || e.Touch? || e.Delete? {
      if Server(s, e.n).obj.Some? { ChangeKeepsOwned(s, e, Server(s, e.n).obj.value); }
    } else {
      assert Owned(Server(s, GPU));
      TrackMoves(s, e);
      hide Sound, Step, TrackOf;
    }
  }

  /** Steps that create or remove neither records nor the namespace. */
  lemma OtherStepsKeepHouse(s: Sys, e: Event)
    requires e.Worker? ==> !s.pc.Deploy? && !s.pc.RemoveRelease? && !s.pc.DeleteNamespace?
    requires !e.NamespaceGone?
    ensures var s1 := Step(s, e);
            && s1.helm == s.helm && s1.ns == s.ns && (s1.pc.Refetch? ==> s.pc.Refetch?)
            && (s1.pc.DropFinalizer? ==> s.pc.Refetch? || s.pc.DropFinalizer?)
  {
    hide Work, Server, AfterNodeEvent, Possible, Fires, Cached;
    if e.Worker? { OtherWorkLeavesHelm(s, e.turn); }
  }

  lemma DeployKeepsHouse(s: Sys, t: Turn)
    requires Sound(s) && Housed(s) && s.pc.Deploy?
    ensures Housed(Work(s, t))
  {
    assert AllOwned(TrackOf(s, GPU));
    WorkKeepsOwned(s, t);
    hide Sound, AllOwned, Helm.InstallOrUpgrade, BuildValues;
  }

  lemma RemovalKeepsHouse(s: Sys, t: Turn)
    requires Sound(s) && Housed(s) && s.pc.RemoveRelease?
    ensures Housed(Work(s, t))
  {
    if AllOwned(TrackOf(s, GPU)) { WorkKeepsOwned(s, t); }
    UninstallMakesNothing(s.helm, t.removal);
    hide Sound, AllOwned, Helm.UninstallRelease;
  }

  lemma UninstallMakesNothing(h: Helm.History, o: Helm.UninstallOracle)
    ensures h == [] ==> Helm.UninstallRelease(h, o).0 == []
  {}

  lemma StepKeepsHouse(s: Sys, e: Event)
    requires Sound(s) && Housed(s)
    ensures Housed(Step(s, e))
  {
    hide Sound, AllOwned, Work, TrackOf;
    if e.Worker? && s.pc.Deploy? {
      DeployKeepsHouse(s, e.turn);
    } else if e.Worker? && s.pc.RemoveRelease? {
      RemovalKeepsHouse(s, e.turn);
    } else if e.Worker? && s.pc.DeleteNamespace? {
      assert Work(s, e.turn) == DeleteNamespaceStep(s, e.turn) by { DeletesHouse(s, e.turn); }
      if s.ns.Standing? && s.helm != [] { OwnedStays(s, e); }
    } else if !e.NamespaceGone? {
      OtherStepsKeepHouse(s, e);
      if s.ns.Standing? && s.helm != [] { OwnedStays(s, e); }
    }
  }

  lemma DeletesHouse(s: Sys, t: Turn)
    requires s.pc.DeleteNamespace?
    ensures Work(s, t) == DeleteNamespaceStep(s, t)
  {}

  lemma {:induction false} RunsAreHoused(s: Sys, es: seq<Event>)
    requires Initial(s)
    ensures Housed(Run(s, es))
  {
    hide Step;
    if es != [] {
      RunsAreHoused(s, es[..|es| - 1]);
      RunsAreSound(s, es[..|es| - 1]);
      StepKeepsHouse(Run(s, es[..|es| - 1]), es[|es| - 1]);
    }
  }

  /**
   * No orphaned release: in every run, whatever fails, stops halfway or is cut off and whenever
   * the CR is deleted, a release of any status exists only while CR "gpu" holds our finalizer
   * or its namespace, and every record with it, is already being deleted.
   */
  lemma NoOrphan(s: Sys, es: seq<Event>)
    requires Initial(s)
    ensures var r := Run(s, es); r.helm != [] ==> HeldByGpu(r) || r.ns.Terminating?
  {
    RunsAreHoused(s, es);
    hide Run;
  }
}

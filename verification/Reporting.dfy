/** What the stored status of "gpu" says in every reachable state. */
module Reporting {
  import opened Text
  import opened Values
  import opened Detection
  import opened Conditions
  import opened Cluster
  import opened Machine
  import opened Lifecycle
  import Helm

  // ---- the invariant on a status ----

  /** The reconciler's full report is there, or no part of it is. */
  ghost predicate AllOrNothing(st: GpuStatus) {
    var full := Find(st.conditions, CondReady).Some?;
    && Find(st.conditions, CondDriverReady).Some? == full
    && Find(st.conditions, CondValidatorPassed).Some? == full
    && (st.operatorVersion != "") == full
    && st.driver.Some? == full
    && (full ==> Find(st.conditions, CondPreflight).Some? && Find(st.conditions, CondHelmInstalled).Some?)
  }

  /** The messages of the driver and validator checks. */
  predicate Observation(m: Message) {
    m.DriverListFailed? || m.DriverNotFound? || m.DriverUnscheduled? || m.DriverProgress? || m.DriverDone?
    || m.PolicyNotFound? || m.PolicyReadFailed? || m.PolicyState?
  }

  /** What these checks report. */
  predicate Shape(status: Truth, reason: Why, message: Message) {
    Observation(message) &&
    match status
    case True => reason == Ready
    case Unknown => reason == Waiting || reason == Progressing
    case False => reason == ReadError
  }

  ghost predicate Observed(c: Option<Condition>) {
    c.Some? && Shape(c.value.status, c.value.reason, c.value.message)
  }

  /** What preflight and Helm report cannot be taken for one of these checks. */
  predicate Distinct(status: Truth, reason: Why, message: Message) {
    (status.False? ==> reason == Failed) && (status.Unknown? ==> !Observation(message))
  }

  ghost predicate ToldApart(c: Option<Condition>) {
    c.Some? ==> Distinct(c.value.status, c.value.reason, c.value.message)
  }

  ghost predicate SaySame(a: Option<Condition>, b: Option<Condition>) {
    && a.Some? && b.Some?
    && a.value.status == b.value.status && a.value.reason == b.value.reason && a.value.message == b.value.message
  }

  /** The driver and validator conditions are those of the last full apply, the others may have moved on. */
  ghost predicate InputsSince(st: GpuStatus, basis: Option<seq<Condition>>) {
    && ToldApart(Find(st.conditions, CondPreflight)) && ToldApart(Find(st.conditions, CondHelmInstalled))
    && (basis.Some? ==> SaySame(Find(st.conditions, CondDriverReady), Find(basis.value, CondDriverReady))
                        && SaySame(Find(st.conditions, CondValidatorPassed), Find(basis.value, CondValidatorPassed)))
  }

  /** The inputs of Ready at a full apply. */
  ghost predicate GoodInputs(cs: seq<Condition>) {
    && Rank(Find(cs, CondPreflight)) == 2 && Rank(Find(cs, CondHelmInstalled)) == 2
    && Observed(Find(cs, CondDriverReady)) && Observed(Find(cs, CondValidatorPassed))
  }

  ghost predicate Says(c: Condition, r: Report) {
    c.status == r.status && c.reason == r.reason && c.message == r.message
  }

  /** Ready is stored exactly since the first full apply, and says what the inputs of the last one gave. */
  ghost predicate ReadyIsLastSummary(st: GpuStatus, basis: Option<seq<Condition>>) {
    var c := Find(st.conditions, CondReady);
    && (c.Some? <==> basis.Some?)
    && (c.Some? && basis.Some? ==> GoodInputs(basis.value) && Says(c.value, ReadySummary(basis.value)))
  }

  ghost predicate StatusOk(st: GpuStatus, gen: nat, basis: Option<seq<Condition>>) {
    && UniqueKinds(st.conditions) && GenerationsBelow(st.conditions, gen)
    && AllOrNothing(st) && ReadyIsLastSummary(st, basis) && InputsSince(st, basis)
  }

  // ---- updates keep it ----

  const EARLY_KINDS: set<CondType> := {CondPreflight, CondHelmInstalled, CondWorkloadProtection}

  /** An update written before or instead of the full one. */
  ghost predicate Early(u: Update) {
    && DistinctReports(u.reports) && !u.includeReady && u.operatorVersion == "" && u.driver.None?
    && forall r | r in u.reports :: r.kind in EARLY_KINDS && EarlySays(r)
  }

  predicate EarlySays(r: Report) { r.kind != CondWorkloadProtection ==> Distinct(r.status, r.reason, r.message) }

  lemma EarlyStaysApart(st: GpuStatus, u: Update, gen: nat, now: nat, k: CondType)
    requires Early(u) && ToldApart(Find(st.conditions, k)) && (k == CondPreflight || k == CondHelmInstalled)
    ensures ToldApart(Find(Merge(st, u, gen, now).conditions, k))
  {
    hide Merge, Distinct;
    FindAfterMerge(st, u, gen, now, k);
    ReportedIsIn(u.reports, k);
  }

  lemma {:induction false} ReportedIsIn(rs: seq<Report>, k: CondType)
    ensures Reported(rs, k).Some? ==> Reported(rs, k).value in rs && Reported(rs, k).value.kind == k
  {
    if rs != [] { ReportedIsIn(rs[1..], k); }
  }

  lemma EarlyKeepsOthers(st: GpuStatus, u: Update, gen: nat, now: nat, k: CondType)
    requires Early(u) && k !in EARLY_KINDS
    ensures Find(Merge(st, u, gen, now).conditions, k) == Find(st.conditions, k)
  {
    hide Merge;
    FindAfterMerge(st, u, gen, now, k);
    ReportedNone(u.reports, k);
  }

  lemma EarlyLosesNothing(st: GpuStatus, u: Update, gen: nat, now: nat, k: CondType)
    requires GenerationsBelow(st.conditions, gen) && Early(u)
    ensures Find(st.conditions, k).Some? ==> Find(Merge(st, u, gen, now).conditions, k).Some?
  {
    hide Merge, GenerationsBelow;
    MergeKeeps(st, u, gen, now);
    assert Keeps(Find(st.conditions, k), Find(Merge(st, u, gen, now).conditions, k), gen, now);
  }

  lemma EarlyKeepsStatus(st: GpuStatus, u: Update, gen: nat, now: nat, basis: Option<seq<Condition>>)
    requires StatusOk(st, gen, basis) && Early(u)
    ensures StatusOk(Merge(st, u, gen, now), gen, basis)
  {
    hide Merge, GoodInputs, ReadySummary, UniqueKinds, GenerationsBelow, Find, DistinctReports, Says, ToldApart, SaySame;
    assert Proper(u);
    MergeKeepsUnique(st, u, gen, now);
    MergeKeeps(st, u, gen, now);
    EarlyKeepsOthers(st, u, gen, now, CondReady);
    EarlyKeepsOthers(st, u, gen, now, CondDriverReady);
    EarlyKeepsOthers(st, u, gen, now, CondValidatorPassed);
    EarlyLosesNothing(st, u, gen, now, CondPreflight);
    EarlyLosesNothing(st, u, gen, now, CondHelmInstalled);
    EarlyTouchesNoField(st, u, gen, now);
    EarlyStaysApart(st, u, gen, now, CondPreflight);
    EarlyStaysApart(st, u, gen, now, CondHelmInstalled);
  }

  lemma EarlyTouchesNoField(st: GpuStatus, u: Update, gen: nat, now: nat)
    requires Early(u)
    ensures Merge(st, u, gen, now).operatorVersion == st.operatorVersion && Merge(st, u, gen, now).driver == st.driver
  {}

  predicate GoodFull(version: string, d: DriverCheck, validator: Report) {
    version != "" && Shape(d.status, d.reason, d.message) && validator.kind == CondValidatorPassed
    && Shape(validator.status, validator.reason, validator.message)
  }

  lemma FullReports(os: OsType, version: string, d: DriverCheck, v: Report)
    requires GoodFull(version, d, v)
    ensures var u := FullUpdate(os, version, d, v);
            && Proper(u)
            && Reported(u.reports, CondPreflight) == Some(PassedReport(os))
            && Reported(u.reports, CondHelmInstalled) == Some(u.reports[1]) && u.reports[1].status.True?
            && Reported(u.reports, CondDriverReady) == Some(DriverReport(d))
            && Reported(u.reports, CondValidatorPassed) == Some(v)
  {
    var rs := FullUpdate(os, version, d, v).reports;
    ReportedSelf(rs, rs[0]);
    ReportedSelf(rs, rs[1]);
    ReportedSelf(rs, rs[2]);
    ReportedSelf(rs, rs[3]);
  }

  lemma FullInputsAreGood(st: GpuStatus, os: OsType, version: string, d: DriverCheck, v: Report, gen: nat, now: nat)
    requires GoodFull(version, d, v)
    ensures GoodInputs(SetAll(st.conditions, FullUpdate(os, version, d, v).reports, gen, now))
  {
    hide SetAll, FullUpdate;
    FullReports(os, version, d, v);
    var rs := FullUpdate(os, version, d, v).reports;
    FindAfterSetAll(st.conditions, rs, gen, now, CondPreflight);
    FindAfterSetAll(st.conditions, rs, gen, now, CondHelmInstalled);
    FindAfterSetAll(st.conditions, rs, gen, now, CondDriverReady);
    FindAfterSetAll(st.conditions, rs, gen, now, CondValidatorPassed);
  }

  lemma FullSetsFields(st: GpuStatus, os: OsType, version: string, d: DriverCheck, v: Report, gen: nat, now: nat)
    requires version != ""
    ensures var m := Merge(st, FullUpdate(os, version, d, v), gen, now);
            && m.operatorVersion == version && m.driver == Some(d.info)
            && m.conditions == WithReady(SetAll(st.conditions, FullUpdate(os, version, d, v).reports, gen, now), gen, now)
  {
    hide SetAll, WithReady;
  }

  /** What a full update makes of the conditions cs it has set is fine. */
  lemma FullStatusIsOk(m: GpuStatus, cs: seq<Condition>, gen: nat)
    requires UniqueKinds(m.conditions) && GenerationsBelow(m.conditions, gen) && GoodInputs(cs)
    requires forall k | k != CondReady :: Find(m.conditions, k) == Find(cs, k)
    requires Find(m.conditions, CondReady).Some? && Says(Find(m.conditions, CondReady).value, ReadySummary(cs))
    requires m.operatorVersion != "" && m.driver.Some?
    ensures StatusOk(m, gen, Some(cs))
  {
    hide Find, ReadySummary, UniqueKinds, GenerationsBelow, Says, Shape;
  }

  lemma FullKeepsStatus(st: GpuStatus, os: OsType, version: string, d: DriverCheck, v: Report, gen: nat, now: nat,
                        basis: Option<seq<Condition>>)
    requires StatusOk(st, gen, basis) && GoodFull(version, d, v)
    ensures var u := FullUpdate(os, version, d, v);
            StatusOk(Merge(st, u, gen, now), gen, Some(SetAll(st.conditions, u.reports, gen, now)))
  {
    var u := FullUpdate(os, version, d, v);
    assert version != "";
    hide StatusOk, Merge, FullUpdate, ReadySummary, SetAll, WithReady, UniqueKinds, GenerationsBelow, GoodInputs, GoodFull, Find;
    var cs := SetAll(st.conditions, u.reports, gen, now);
    StatusHas(st, gen, basis);
    FullReports(os, version, d, v);
    MergeKeepsUnique(st, u, gen, now);
    MergeKeeps(st, u, gen, now);
    FullInputsAreGood(st, os, version, d, v, gen, now);
    FullSetsFields(st, os, version, d, v, gen, now);
    ReadyKeepsInputs(cs, gen, now);
    ReadyIsReady(cs);
    FullStatusIsOk(Merge(st, u, gen, now), cs, gen);
  }

  lemma StatusHas(st: GpuStatus, gen: nat, basis: Option<seq<Condition>>)
    requires StatusOk(st, gen, basis)
    ensures UniqueKinds(st.conditions) && GenerationsBelow(st.conditions, gen)
  {}

  // ---- in the machine ----

  predicate PcShape(pc: Pc) {
    && (pc.ReadDrivers? ==> pc.version != "")
    && (pc.ReadPolicy? ==> pc.version != "" && Shape(pc.driver.status, pc.driver.reason, pc.driver.message))
    && (pc.Publish? ==> GoodFull(pc.version, pc.driver, pc.validator))
    && (pc.MarkRogue? || pc.FreeRogue? ==> pc.n != GPU)
  }

  ghost predicate ServerStatusOk(v: View, basis: Option<seq<Condition>>) {
    v.obj.Some? ==> StatusOk(v.obj.value.status, v.obj.value.gen, basis)
  }

  ghost predicate ReportsOk(s: Sys) { ServerStatusOk(Server(s, GPU), s.basis) && PcShape(s.pc) }

  /** Nothing but the worker's position moved, or a restart trimmed the caches. */
  lemma MoveKeepsReports(s: Sys, s1: Sys)
    requires ReportsOk(s) && Server(s1, GPU) == Server(s, GPU) && s1.basis == s.basis && PcShape(s1.pc)
    ensures ReportsOk(s1)
  {}

  lemma ApplyEarly(s: Sys, u: Update, ok: bool)
    requires ReportsOk(s) && Early(u)
    ensures var s1 := ApplyStatus(s, GPU, u, ok).0; ServerStatusOk(Server(s1, GPU), s.basis) && s1.basis == s.basis
  {
    hide StatusOk, Merge, Early, PcShape;
    if Server(s, GPU).obj.Some? {
      var cr := Server(s, GPU).obj.value;
      EarlyKeepsStatus(cr.status, u, cr.gen, s.now, s.basis);
    }
  }

  lemma ApplyElsewhere(s: Sys, n: string, u: Update, ok: bool)
    requires n != GPU
    ensures var s1 := ApplyStatus(s, n, u, ok).0; Server(s1, GPU) == Server(s, GPU) && s1.basis == s.basis
  {
    hide Merge;
  }

  lemma OnlyIsEarly(r: Report)
    requires r.kind in EARLY_KINDS && EarlySays(r)
    ensures Early(Only(r))
  {}

  lemma HelmFailedIsEarly(os: OsType, error: string)
    ensures Early(HelmFailedUpdate(os, error))
  {}

  lemma PublishKeepsReports(s: Sys, t: Turn)
    requires ReportsOk(s) && s.pc.Publish?
    ensures ReportsOk(Work(s, t))
  {
    hide StatusOk, Merge, FullUpdate, SetAll, GoodFull;
    var pc := s.pc;
    if Server(s, GPU).obj.Some? {
      var cr := Server(s, GPU).obj.value;
      FullKeepsStatus(cr.status, pc.os, pc.version, pc.driver, pc.validator, cr.gen, s.now, s.basis);
    }
  }

  /** An early update and a move on. */
  lemma EarlyEnds(s: Sys, u: Update, ok: bool, s1: Sys)
    requires ReportsOk(s) && Early(u) && PcShape(s1.pc)
    requires var r := ApplyStatus(s, GPU, u, ok).0; s1.views == r.views && s1.basis == r.basis
    ensures ReportsOk(s1)
  {
    hide ServerStatusOk, ApplyStatus, Early, PcShape;
    ApplyEarly(s, u, ok);
  }

  lemma HaltKeepsReports(s: Sys, p: Preflight, t: Turn)
    requires ReportsOk(s) && s.pc == Halt(p)
    ensures ReportsOk(HaltStep(s, p, t))
  {
    VerdictIsEarly(p);
    hide ReportsOk, ApplyStatus, Early, Only, VerdictReport;
    EarlyEnds(s, Only(VerdictReport(p)), t.ok, HaltStep(s, p, t));
  }

  lemma VerdictIsEarly(p: Preflight)
    ensures Early(Only(VerdictReport(p)))
  {}

  lemma HelmFailureKeepsReports(s: Sys, os: OsType, error: string, t: Turn)
    requires ReportsOk(s) && s.pc == ReportHelm(os, error)
    ensures ReportsOk(ReportHelmStep(s, os, error, t))
  {
    HelmFailedIsEarly(os, error);
    hide ReportsOk, ApplyStatus, Early, HelmFailedUpdate;
    EarlyEnds(s, HelmFailedUpdate(os, error), t.ok, ReportHelmStep(s, os, error, t));
  }

  lemma RemovalKeepsReports(s: Sys, t: Turn)
    requires ReportsOk(s) && (s.pc.MarkUninstalling? || s.pc.ReportBlocked?)
    ensures ReportsOk(Work(s, t))
  {
    var r := if s.pc.MarkUninstalling? then UNINSTALLING_REPORT
             else Report(CondWorkloadProtection, False, ActiveWorkloads, DeletionBlocked(s.pc.active));
    OnlyIsEarly(r);
    hide ReportsOk, ApplyStatus, Early, Only;
    EarlyEnds(s, Only(r), t.ok, Work(s, t));
  }

  lemma RogueKeepsReports(s: Sys, n: string, t: Turn)
    requires ReportsOk(s) && s.pc == MarkRogue(n)
    ensures ReportsOk(MarkRogueStep(s, n, t))
  {
    hide ServerStatusOk, ApplyStatus;
    ApplyElsewhere(s, n, Only(ROGUE_REPORT), t.ok);
  }

  /** A new release history, then another call or a restart. */
  lemma HelmKeepsReports(s: Sys, s1: Sys, s2: Sys)
    requires ReportsOk(s) && s1.views == s.views && s1.basis == s.basis
    requires s2 == Restarted(s1, s1.cfg) || (s2.views == s.views && s2.basis == s.basis && PcShape(s2.pc))
    ensures ReportsOk(s2)
  {
    hide ServerStatusOk;
  }

  lemma DeployKeepsReports(s: Sys, spec: GpuSpec, os: OsType, t: Turn)
    requires ReportsOk(s)
    ensures ReportsOk(DeployStep(s, spec, os, t))
  {
    hide ReportsOk, Helm.InstallOrUpgrade, BuildValues, Restarted, Server;
    var s2 := DeployStep(s, spec, os, t);
    if s.cfg.chart.None? || (os.GardenLinux? && s.cfg.base.None?) {
      HelmKeepsReports(s, s, s2);
    } else {
      var base := if s.cfg.base.Some? then s.cfg.base.value else map[];
      var r := Helm.InstallOrUpgrade(s.helm, s.cfg.chart.value, BuildValues(base, spec, os), DeployOracle(s, t));
      HelmKeepsReports(s, s.(helm := r.history, ns := Housing(s.ns, r.history, t)), s2);
    }
  }

  lemma RemoveReleaseKeepsReports(s: Sys, t: Turn)
    requires ReportsOk(s)
    ensures ReportsOk(RemoveReleaseStep(s, t))
  {
    hide ReportsOk, Helm.UninstallRelease, Restarted, Server;
    HelmKeepsReports(s, s.(helm := Helm.UninstallRelease(s.helm, t.removal).0), RemoveReleaseStep(s, t));
  }

  lemma DriverShape(l: Listed<DaemonSet>)
    ensures Shape(DriverCheckOf(l).status, DriverCheckOf(l).reason, DriverCheckOf(l).message)
  {}

  lemma PolicyShape(r: PolicyRead)
    ensures var p := PolicyReport(r); p.kind == CondValidatorPassed && Shape(p.status, p.reason, p.message)
  {}

  lemma ReadingKeepsReports(s: Sys, t: Turn)
    requires ReportsOk(s)
    requires s.pc.Fetch? || s.pc.CheckNodes? || s.pc.ReadDrivers? || s.pc.ReadPolicy? || s.pc.ListPods?
             || s.pc.DeleteNamespace? || s.pc.Refetch? || s.pc.Idle?
    ensures ReportsOk(Work(s, t))
  {
    hide ServerStatusOk, Shape, PreflightOf, ActiveWorkloadsOf, DriverCheckOf, PolicyReport;
    DriverShape(if t.ok then Got(s.drivers) else ListFailed(t.error));
    PolicyShape(if t.ok then Read(s.policy) else ReadFailed(t.error));
    MoveKeepsReports(s, Work(s, t));
  }

  predicate Newer(before: Option<Cr>, after: Cr) {
    before.Some? && after.status == before.value.status && after.gen >= before.value.gen
  }

  /** A write of "gpu" that leaves the status as it is. */
  lemma WriteKeepsReports(s: Sys, n: string, cr: Option<Cr>)
    requires ReportsOk(s)
    requires n == GPU && cr.Some? ==> Newer(Server(s, GPU).obj, cr.value)
    ensures ReportsOk(Write(s, n, cr))
  {
    hide AllOrNothing, ReadyIsLastSummary, UniqueKinds;
  }

  lemma FinalizersKeepReports(s: Sys, t: Turn)
    requires ReportsOk(s) && (s.pc.AddFinalizer? || s.pc.FreeRogue? || s.pc.DropFinalizer?)
    ensures ReportsOk(Work(s, t))
  {
    hide ServerStatusOk, Write;
    var read := s.pc.read;
    var n := if s.pc.FreeRogue? then s.pc.n else GPU;
    MoveKeepsReports(s, Done(s));
    MoveKeepsReports(s, Retry(s, n));
    if read.obj.Some? && read == Server(s, n) {
      var obj := if s.pc.AddFinalizer? then Some(read.obj.value.(ours := true)) else Released(read.obj.value);
      WriteKeepsReports(s, n, obj);
      MoveKeepsReports(Write(s, n, obj), Done(Write(s, n, obj)));
    }
  }

  lemma WorkKeepsReports(s: Sys, t: Turn)
    requires ReportsOk(s)
    ensures ReportsOk(Work(s, t))
  {
    hide ReportsOk, ApplyStatus, FetchStep, MarkRogueStep, ReleaseStep, AddFinalizerStep, CheckNodesStep, HaltStep,
         DeployStep, ReportHelmStep, ReadDriversStep, ReadPolicyStep, PublishStep, ListPodsStep, RemoveReleaseStep, RefetchStep;
    match s.pc
    case Halt(p) => HaltKeepsReports(s, p, t);
    case ReportHelm(os, error) => HelmFailureKeepsReports(s, os, error, t);
    case MarkUninstalling => RemovalKeepsReports(s, t);
    case ReportBlocked(_) => RemovalKeepsReports(s, t);
    case MarkRogue(n) => RogueKeepsReports(s, n, t);
    case Deploy(spec, os) => DeployKeepsReports(s, spec, os, t);
    case RemoveRelease => RemoveReleaseKeepsReports(s, t);
    case AddFinalizer(_) => FinalizersKeepReports(s, t);
    case FreeRogue(_, _) => FinalizersKeepReports(s, t);
    case DropFinalizer(_) => FinalizersKeepReports(s, t);
    case Publish(_, _, _, _) => PublishKeepsReports(s, t);
    case _ => ReadingKeepsReports(s, t);
  }

  lemma ChangeKeepsReports(s: Sys, e: Event, cr: Cr)
    requires ReportsOk(s) && (e.Edit? || e.Touch? || e.Delete?) && Server(s, e.n).obj == Some(cr)
    ensures ReportsOk(Change(s, e, cr)) && Change(s, e, cr).basis == s.basis
  {
    hide ReportsOk, Server, TrackOf;
    match e
    case Edit(n, spec) => WriteKeepsReports(s, n, Some(cr.(spec := spec, gen := cr.gen + 1)));
    case Touch(n, foreign) =>
      WriteKeepsReports(s, n, None);
      WriteKeepsReports(s, n, Some(cr.(foreign := foreign)));
    case Delete(n) =>
      WriteKeepsReports(s, n, None);
      WriteKeepsReports(s, n, Some(cr.(deleting := true, gen := cr.gen + 1)));
  }

  lemma CreateKeepsReports(s: Sys, e: Event)
    requires ReportsOk(s) && e.Create?
    ensures ReportsOk(Step(s, e))
  {
    if e.n != GPU && Server(s, e.n).obj.None? {
      hide ServerStatusOk;
      var obj := Some(Cr(1, false, false, e.foreign, e.spec, NO_STATUS));
      MoveKeepsReports(s, Write(s, e.n, obj));
    }
  }

  lemma StepKeepsReports(s: Sys, e: Event)
    requires ReportsOk(s)
    ensures ReportsOk(Step(s, e))
  {
    hide ReportsOk, Work, Change;
    match e {
      case Worker(t) => WorkKeepsReports(s, t);
      case Create(_, _, _) => CreateKeepsReports(s, e);
      case Edit(_, _) => if Server(s, e.n).obj.Some? { ChangeKeepsReports(s, e, Server(s, e.n).obj.value); }
      case Touch(_, _) => if Server(s, e.n).obj.Some? { ChangeKeepsReports(s, e, Server(s, e.n).obj.value); }
      case Delete(_) => if Server(s, e.n).obj.Some? { ChangeKeepsReports(s, e, Server(s, e.n).obj.value); }
      case _ => OthersKeepReports(s, e);
    }
  }

  lemma OthersKeepReports(s: Sys, e: Event)
    requires ReportsOk(s) && !e.Worker? && !e.Create? && !e.Edit? && !e.Touch? && !e.Delete?
    ensures ReportsOk(Step(s, e))
  {
    hide ServerStatusOk, Step;
    TrackMoves(s, e);
    OthersLeaveBasis(s, e);
    MoveKeepsReports(s, Step(s, e));
  }

  lemma OthersLeaveBasis(s: Sys, e: Event)
    requires !e.Worker? && !e.Create? && !e.Edit? && !e.Touch? && !e.Delete?
    ensures var s1 := Step(s, e); s1.basis == s.basis && (s1.pc == s.pc || s1.pc.Idle? || s1.pc.Fetch?)
  {
    hide Cached, Server, AfterNodeEvent, Possible, Fires;
  }

  // ---- the theorems ----

  /** Ready never says more than the driver and validator checks of the same report do. */
  lemma ReadyCites(cs: seq<Condition>)
    requires GoodInputs(cs)
    ensures var r := ReadySummary(cs);
            && r.reason in {Ready, Waiting, Progressing, ReadError}
            && (r.status.False? <==> r.reason == ReadError)
            && (r.status.True? <==> Rank(Find(cs, CondDriverReady)) == 2 && Rank(Find(cs, CondValidatorPassed)) == 2)
            && (!r.status.True? ==>
                  Says(Find(cs, CondDriverReady).value, r) || Says(Find(cs, CondValidatorPassed).value, r))
  {
    var i := SummaryIsMinimum(cs);
    assert MANAGED[0] == CondPreflight && MANAGED[1] == CondHelmInstalled;
    assert MANAGED[2] == CondDriverReady && MANAGED[3] == CondValidatorPassed;
    assert Rank(Find(cs, MANAGED[0])) == 2 && Rank(Find(cs, MANAGED[1])) == 2;
  }

  /** Nothing that early exits write since has overtaken the stored Ready. */
  predicate NotOvertaken(st: GpuStatus) {
    var p, h, r := Find(st.conditions, CondPreflight), Find(st.conditions, CondHelmInstalled), Find(st.conditions, CondReady);
    && p.Some? && h.Some? && r.Some? && !p.value.status.False? && !h.value.status.False?
    && ((p.value.status.True? && h.value.status.True?) || r.value.status.False?)
  }

  /** The summary in terms of the four ranks and the deciding condition. */
  lemma SummaryOfFour(cs: seq<Condition>) returns (k: CondType)
    ensures var p, h, d, v := Rank(Find(cs, CondPreflight)), Rank(Find(cs, CondHelmInstalled)),
                              Rank(Find(cs, CondDriverReady)), Rank(Find(cs, CondValidatorPassed));
            && k == (if p <= h && p <= d && p <= v then CondPreflight else if h <= d && h <= v then CondHelmInstalled
                     else if d <= v then CondDriverReady else CondValidatorPassed)
            && var r, c := ReadySummary(cs), Find(cs, k);
               && RankOf(r.status) == Rank(c)
               && (Rank(c) < 2 && c.Some? ==> Says(c.value, r))
               && (Rank(c) == 2 ==> r.reason == Ready && r.message == Operational)
  {
    hide Find, ReadySummary;
    var i := SummaryIsMinimum(cs);
    assert MANAGED[0] == CondPreflight && MANAGED[1] == CondHelmInstalled;
    assert MANAGED[2] == CondDriverReady && MANAGED[3] == CondValidatorPassed;
    k := MANAGED[i];
  }

  /** Once stored, Ready says what the stored conditions summarise to now exactly if it is not overtaken. */
  lemma ReadyIsCurrentIff(st: GpuStatus, gen: nat, basis: Option<seq<Condition>>)
    requires StatusOk(st, gen, basis) && Find(st.conditions, CondReady).Some?
    ensures Says(Find(st.conditions, CondReady).value, ReadySummary(st.conditions)) <==> NotOvertaken(st)
  {
    hide UniqueKinds, GenerationsBelow, Find, ReadySummary;
    var k := SummaryOfFour(st.conditions);
    var b := SummaryOfFour(basis.value);
    ReadyCites(basis.value);
  }

  lemma {:induction false} ReportsAreOk(s: Sys, es: seq<Event>)
    requires Initial(s)
    ensures ReportsOk(Run(s, es))
  {
    if es != [] {
      ReportsAreOk(s, es[..|es| - 1]);
      StepKeepsReports(Run(s, es[..|es| - 1]), es[|es| - 1]);
    }
  }

  /**
   * In every reachable state in which CR "gpu" exists: no condition type is doubled and none
   * claims a generation beyond the object's; Ready, DriverReady, ValidatorPassed, the operator
   * version and the driver block are all there or all missing; and Ready says what the
   * conditions of the last full report summarise to, False only after a read error.
   */
  lemma StatusIsConsistent(s: Sys, es: seq<Event>)
    requires Initial(s) && Server(Run(s, es), GPU).obj.Some?
    ensures var r := Run(s, es);
            var cr := Server(r, GPU).obj.value;
            && UniqueKinds(cr.status.conditions) && GenerationsBelow(cr.status.conditions, cr.gen)
            && AllOrNothing(cr.status)
            && var ready := Find(cr.status.conditions, CondReady);
               && (ready.Some? <==> r.basis.Some?)
               && (ready.Some? ==>
                     && Says(ready.value, ReadySummary(r.basis.value))
                     && ready.value.reason in {Ready, Waiting, Progressing, ReadError}
                     && (ready.value.status.False? <==> ready.value.reason == ReadError))
  {
    ReportsAreOk(s, es);
    hide Run, AllOrNothing, GenerationsBelow, UniqueKinds, GoodInputs;
    if Run(s, es).basis.Some? && Find(Server(Run(s, es), GPU).obj.value.status.conditions, CondReady).Some? {
      ReadyCites(Run(s, es).basis.value);
    }
  }

  /**
   * In every reachable state in which Ready of "gpu" is stored, it says what the stored
   * conditions summarise to if and only if neither Preflight nor HelmInstalled is False, and
   * both are True or Ready is False.
   */
  lemma ReadyIsCurrent(s: Sys, es: seq<Event>)
    requires Initial(s) && Server(Run(s, es), GPU).obj.Some?
    requires Find(Server(Run(s, es), GPU).obj.value.status.conditions, CondReady).Some?
    ensures var st := Server(Run(s, es), GPU).obj.value.status;
            Says(Find(st.conditions, CondReady).value, ReadySummary(st.conditions)) <==> NotOvertaken(st)
  {
    ReportsAreOk(s, es);
    hide Run, StatusOk, NotOvertaken, Says;
    var cr := Server(Run(s, es), GPU).obj.value;
    ReadyIsCurrentIff(cr.status, cr.gen, Run(s, es).basis);
  }

  lemma StatusKeepsBasis(s: Sys, n: string, u: Update, ok: bool)
    ensures ApplyStatus(s, n, u, ok).0.basis == s.basis
  {
    hide Merge;
  }

  lemma BasisStays(s: Sys, e: Event)
    requires Server(s, GPU).obj.Some? && s.basis.Some?
    ensures Step(s, e).basis.Some?
  {
    hide ApplyStatus, PreflightOf, DriverCheckOf, PolicyReport, ActiveWorkloadsOf, SetAll, Gate, Helm.InstallOrUpgrade,
         BuildValues, Helm.UninstallRelease, VerdictReport, FullUpdate, HelmFailedUpdate, Only, BlockedUpdate,
         Released, AfterNodeEvent, Possible, Fires, Cached;
    forall n, u, ok ensures ApplyStatus(s, n, u, ok).0.basis == s.basis { StatusKeepsBasis(s, n, u, ok); }
  }

  /** While CR "gpu" exists, a full report once made never loses a part of it. */
  lemma FullReportStays(s: Sys, es: seq<Event>, e: Event)
    requires Initial(s)
    requires Server(Run(s, es), GPU).obj.Some? && Server(Step(Run(s, es), e), GPU).obj.Some?
    requires Find(Server(Run(s, es), GPU).obj.value.status.conditions, CondReady).Some?
    ensures var st := Server(Step(Run(s, es), e), GPU).obj.value.status;
            && (forall k | k != CondWorkloadProtection :: Find(st.conditions, k).Some?)
            && st.operatorVersion != "" && st.driver.Some?
  {
    ReportsAreOk(s, es);
    StepKeepsReports(Run(s, es), e);
    hide Run, Step;
    BasisStays(Run(s, es), e);
  }

  // ---- a status re-read that lags ----

  /** The merge patch from the status re-read to the merged one, applied to the server's. */
  function Patched(server: GpuStatus, read: GpuStatus, merged: GpuStatus): GpuStatus {
    GpuStatus(if merged.conditions == read.conditions then server.conditions else merged.conditions,
              if merged.operatorVersion == read.operatorVersion then server.operatorVersion else merged.operatorVersion,
              if merged.driver == read.driver then server.driver else merged.driver)
  }

  /**
   * Why the re-read is assumed to be current, which a cached client does not promise: an early
   * report made on an older status keeps a report all there or all missing exactly if it
   * changes nothing or the older status has Ready exactly if the server's does.
   */
  lemma StaleRereadTearsReport(server: GpuStatus, read: GpuStatus, u: Update, gen: nat, now: nat)
    requires AllOrNothing(server) && AllOrNothing(read) && GenerationsBelow(read.conditions, gen) && Early(u)
    ensures var merged := Merge(read, u, gen, now);
            && (read == server ==> Patched(server, read, merged) == merged)
            && (AllOrNothing(Patched(server, read, merged)) <==>
                  merged == read || (Find(read.conditions, CondReady).Some? <==> Find(server.conditions, CondReady).Some?))
  {
    hide Merge, Find, Early, GenerationsBelow;
    EarlyTouchesNoField(read, u, gen, now);
    EarlyKeepsOthers(read, u, gen, now, CondReady);
    EarlyKeepsOthers(read, u, gen, now, CondDriverReady);
    EarlyKeepsOthers(read, u, gen, now, CondValidatorPassed);
    EarlyLosesNothing(read, u, gen, now, CondPreflight);
    EarlyLosesNothing(read, u, gen, now, CondHelmInstalled);
  }
}

/** Installation: how many calls of the worker bring a live CR to its desired state. */
module Installation {
  import opened Values
  import opened Detection
  import opened Conditions
  import opened Cluster
  import opened Machine
  import opened Lifecycle
  import opened Provenance
  import opened FixedPoint
  import opened Outcomes
  import Helm

  /** How many calls a reconcile that deploys still makes. */
  function ToReport(pc: Pc): nat {
    match pc
    case Fetch(n) => if n == GPU then 6 else 0
    case CheckNodes(_) => 5
    case Deploy(_, _) => 4
    case ReadDrivers(_, _) => 3
    case ReadPolicy(_, _, _) => 2
    case Publish(_, _, _, _) => 1
    case _ => 0
  }

  /** Nothing stands in the way: one supported system on all GPU nodes, and a chart with values for it. */
  ghost predicate Deployable(s: Sys, os: OsType) { PreflightOf(s.nodes) == Proceed(os) && ChartLoads(s, os) }

  /** A reconcile of the adopted CR is on its way to its report. */
  ghost predicate Deploying(s: Sys, spec: GpuSpec, os: OsType) {
    && LiveCalm(s, spec) && Deployable(s, os) && ToReport(s.pc) > 0
    && (s.pc.Fetch? ==> |TrackOf(s, GPU)| == 1 && Owned(Cached(s, GPU)))
  }

  lemma FetchDeploys(s: Sys, spec: GpuSpec, os: OsType, t: Turn)
    requires Deploying(s, spec, os) && s.pc.Fetch? && FaultFree(t)
    ensures var s1 := Work(s, t); s1 == s.(pc := CheckNodes(spec))
  {
    assert LikeLive(Cached(s, GPU), spec);
    hide Sound, PreflightOf;
  }

  lemma CallsGoOn(s: Sys, spec: GpuSpec, os: OsType, t: Turn)
    requires Deploying(s, spec, os) && Smooth(s, Worker(t)) && 2 <= ToReport(s.pc) <= 5
    ensures ToReport(Work(s, t).pc) == ToReport(s.pc) - 1
  {
    hide Sound, AllLikeLive, PreflightOf, HelmSettled, DriverCheckOf, PolicyReport, Work, Helm.WellFormed, Helm.Recoverable;
    WorkFollows(s, t);
    if s.pc.CheckNodes? { CheckingNodes(s, t); }
    if s.pc.Deploy? { DeployGoesOn(s, spec, os, t); }
  }

  lemma DeployGoesOn(s: Sys, spec: GpuSpec, os: OsType, t: Turn)
    requires s.pc == Deploy(spec, os) && ChartLoads(s, os) && Smooth(s, Worker(t))
    requires Helm.WellFormed(s.helm) && Helm.Recoverable(s.helm)
    ensures Work(s, t).pc.ReadDrivers?
  {
    hide Helm.InstallOrUpgrade, BuildValues, Helm.WellFormed, Helm.Recoverable;
    Helm.SelfHeals(s.helm, s.cfg.chart.value, Wanted(s, spec, os));
  }

  lemma DeployingStep(s: Sys, spec: GpuSpec, os: OsType, e: Event)
    requires Deploying(s, spec, os) && Smooth(s, e)
    ensures var s1 := Step(s, e);
            if !e.Worker? then Deploying(s1, spec, os) && s1.pc == s.pc
            else if ToReport(s.pc) == 1 then LiveCalm(s1, spec) && LiveDone(s1, spec) && Deployable(s1, os)
            else Deploying(s1, spec, os) && ToReport(s1.pc) == ToReport(s.pc) - 1
  {
    LiveStep(s, spec, e);
    KeepsDeployable(s, os, e);
    if !e.Worker? {
      QuietFrame(s, e);
    } else if s.pc.Fetch? {
      FetchDeploys(s, spec, os, e.turn);
    } else if ToReport(s.pc) > 1 {
      CallsGoOn(s, spec, os, e.turn);
    }
    hide LiveCalm, LiveDone, Deployable, Step;
  }

  lemma ReportingKeepsEnvironment(s: Sys, t: Turn)
    requires Reports(s.pc)
    ensures SameEnvironment(s, Work(s, t))
  {
    hide Merge, SetAll, Server, VerdictReport, FullUpdate, HelmFailedUpdate, Only, BlockedUpdate;
  }

  lemma HelmKeepsEnvironment(s: Sys, t: Turn)
    requires s.pc.Deploy? || s.pc.RemoveRelease?
    ensures SameEnvironment(s, Work(s, t))
  {
    hide Helm.InstallOrUpgrade, Helm.UninstallRelease, BuildValues;
  }

  lemma QuietKeepsEnvironment(s: Sys, e: Event)
    requires Quiet(e)
    ensures SameEnvironment(s, Step(s, e))
  {
    if !e.Worker? {
      QuietFrame(s, e);
    } else if Reports(s.pc) {
      ReportingKeepsEnvironment(s, e.turn);
    } else if s.pc.Deploy? || s.pc.RemoveRelease? {
      HelmKeepsEnvironment(s, e.turn);
    } else {
      hide ApplyStatus, DeployStep, RemoveReleaseStep, HaltStep, MarkRogueStep, ReportHelmStep, PublishStep,
           PreflightOf, DriverCheckOf, PolicyReport, ActiveWorkloadsOf, Cached, Server, Released, Gate;
    }
  }

  lemma KeepsDeployable(s: Sys, os: OsType, e: Event)
    requires Deployable(s, os) && Quiet(e)
    ensures Deployable(Step(s, e), os)
  {
    hide PreflightOf, Step;
    QuietKeepsEnvironment(s, e);
  }

  lemma StartsDeploying(s: Sys, spec: GpuSpec, os: OsType)
    requires LiveCalm(s, spec) && AtRest(s) && GPU in s.pending && Owned(Server(s, GPU)) && Deployable(s, os)
    ensures var s1 := Step(s, Take(GPU)); Deploying(s1, spec, os) && ToReport(s1.pc) == 6
  {
    LiveStep(s, spec, Take(GPU));
    KeepsDeployable(s, os, Take(GPU));
    QuietFrame(s, Take(GPU));
    assert Step(s, Take(GPU)).pc == Fetch(GPU);
    hide LiveCalm, Deployable, Step;
  }

  ghost predicate Underway(s: Sys, spec: GpuSpec, os: OsType, steps: nat) {
    (Deploying(s, spec, os) && ToReport(s.pc) + steps == 6)
    || (LiveCalm(s, spec) && LiveDone(s, spec) && Deployable(s, os) && steps >= 6)
  }

  lemma UnderwayStep(s: Sys, spec: GpuSpec, os: OsType, steps: nat, e: Event)
    requires Underway(s, spec, os, steps) && Smooth(s, e)
    ensures Underway(Step(s, e), spec, os, steps + if e.Worker? then 1 else 0)
  {
    hide LiveCalm, LiveDone, Deployable, Step, Smooth;
    if Deploying(s, spec, os) && ToReport(s.pc) + steps == 6 {
      DeployingStep(s, spec, os, e);
    } else {
      LiveStep(s, spec, e);
      SmoothIsQuiet(s, e);
      KeepsDeployable(s, os, e);
    }
  }

  lemma SmoothIsQuiet(s: Sys, e: Event)
    requires Smooth(s, e)
    ensures Quiet(e)
  {}

  lemma {:induction false} InstallationGoesOn(s: Sys, es: seq<Event>, spec: GpuSpec, os: OsType)
    requires LiveCalm(s, spec) && AtRest(s) && GPU in s.pending && Owned(Server(s, GPU)) && Deployable(s, os)
    requires es != [] && es[0] == Take(GPU) && SmoothRun(s, es)
    ensures Underway(Run(s, es), spec, os, WorkerSteps(es)) && SameEnvironment(s, Run(s, es))
  {
    hide LiveCalm, Deployable, Step, Smooth, Underway, AtRest;
    var init, e := es[..|es| - 1], es[|es| - 1];
    if init == [] {
      assert Run(s, init) == s;
      StartsDeploying(s, spec, os);
      QuietKeepsEnvironment(s, e);
      StartsUnderway(Step(s, Take(GPU)), spec, os);
    } else {
      SmoothPrefix(s, es);
      SmoothIsQuiet(Run(s, init), e);
      QuietKeepsEnvironment(Run(s, init), e);
      InstallationGoesOn(s, init, spec, os);
      UnderwayStep(Run(s, init), spec, os, WorkerSteps(init), e);
    }
  }

  lemma StartsUnderway(s: Sys, spec: GpuSpec, os: OsType)
    requires Deploying(s, spec, os) && ToReport(s.pc) == 6
    ensures Underway(s, spec, os, 0)
  {}

  lemma SmoothPrefix(s: Sys, es: seq<Event>)
    requires es != [] && SmoothRun(s, es)
    ensures SmoothRun(s, es[..|es| - 1]) && Smooth(Run(s, es[..|es| - 1]), es[|es| - 1])
  {
    hide Smooth, Run;
    var init := es[..|es| - 1];
    assert Smooth(At(s, es, |es| - 1), es[|es| - 1]);
    forall i | 0 <= i < |init| ensures Smooth(At(s, init, i), init[i]) {
      assert init[..i] == es[..i] && Smooth(At(s, es, i), es[i]);
    }
  }

  /** A full report that stands is stored as such. */
  lemma StandingReportIsStored(s: Sys, os: OsType, version: string)
    requires Stands(s, FullOf(s, os, version)) && Server(s, GPU).obj.Some? && version != ""
    ensures var cr := Server(s, GPU).obj.value;
            FullyStored(cr.status, os, version, DriverCheckOf(Got(s.drivers)), PolicyReport(Read(s.policy)), cr.gen)
  {
    var cr := Server(s, GPU).obj.value;
    var d, v := DriverCheckOf(Got(s.drivers)), PolicyReport(Read(s.policy));
    PolicyTells(Read(s.policy));
    hide FullyStored, DriverCheckOf, PolicyReport, FullUpdate, Merge;
    FullUpdateTells(cr.status, os, version, d, v, cr.gen, 0);
    assert Merge(cr.status, FullUpdate(os, version, d, v), cr.gen, 0) == cr.status;
  }

  /** What the stored report says of driver and validator, in terms of the cluster alone. */
  ghost predicate ReportsCluster(s: Sys, st: GpuStatus) {
    var driver, validator := Find(st.conditions, CondDriverReady), Find(st.conditions, CondValidatorPassed);
    && driver.Some? && validator.Some?
    && (AllSane(s.drivers) && SumDesired(s.drivers) < 0x8000_0000 ==>
          (driver.value.status.True? <==> SomeDesired(s.drivers) && AllComplete(s.drivers)))
    && (validator.value.status.True? <==> s.policy == Policy("ready"))
  }

  lemma StoredReportsCluster(s: Sys, st: GpuStatus, os: OsType, version: string, gen: nat)
    requires FullyStored(st, os, version, DriverCheckOf(Got(s.drivers)), PolicyReport(Read(s.policy)), gen)
    ensures ReportsCluster(s, st)
  {
    PolicyTells(Read(s.policy));
    if AllSane(s.drivers) && SumDesired(s.drivers) < 0x8000_0000 { DriverReadyIsExact(s.drivers); }
    hide CheckDrivers, PolicyReport, Find, AllSane, SomeDesired, AllComplete, SumDesired, ReadySummary;
  }

  /**
   * From any reachable rest with a live CR that holds our finalizer, one supported system on
   * all GPU nodes and a loading chart: in every run in which nothing else changes and no call
   * fails, after six calls of the worker and ever after, the newest revision is deployed with
   * the chart and with values that mean those wanted, the namespace stands, and the full
   * report is stored: the release, the driver check and the policy as the cluster shows them,
   * and Ready their summary.
   */
  lemma InstallationCompletes(init: Sys, past: seq<Event>, es: seq<Event>, os: OsType)
    requires Initial(init) && AtRest(Run(init, past)) && GPU in Run(init, past).pending
    requires Helm.Recoverable(Run(init, past).helm) || Run(init, past).ns.Terminating?
    requires var v := Server(Run(init, past), GPU); Live(v) && Owned(v)
    requires Deployable(Run(init, past), os)
    requires es != [] && es[0] == Take(GPU) && SmoothRun(Run(init, past), es)
    ensures var s, r := Run(init, past), Run(Run(init, past), es);
            var spec := Server(s, GPU).obj.value.spec;
            SameEnvironment(s, r) &&
            (WorkerSteps(es) >= 6 ==>
              && r.ns.Standing? && r.cfg.chart.Some? && Deployable(r, os)
              && LikeLive(Server(r, GPU), spec) && Owned(Server(r, GPU))
              && Helm.AtDesired(r.helm, r.cfg.chart.value, BuildValues(if r.cfg.base.Some? then r.cfg.base.value else map[], spec, os))
              && var cr := Server(r, GPU).obj.value;
                 && FullyStored(cr.status, os, r.cfg.chart.value, DriverCheckOf(Got(r.drivers)),
                                PolicyReport(Read(r.policy)), cr.gen)
                 && ReportsCluster(r, cr.status))
  {
    var s := Run(init, past);
    RunsAreSound(init, past);
    RunsKeepHistoryShape(init, past);
    RestIsCalm(s);
    var spec := Server(s, GPU).obj.value.spec;
    hide Run, LiveCalm, FullyStored, ReportsCluster, Stands, BuildValues, DriverCheckOf, PolicyReport;
    InstallationGoesOn(s, es, spec, os);
    var r := Run(s, es);
    if WorkerSteps(es) >= 6 {
      UnderwayEnds(r, spec, os, WorkerSteps(es));
      StandingReportIsStored(r, os, r.cfg.chart.value);
      StoredReportsCluster(r, Server(r, GPU).obj.value.status, os, r.cfg.chart.value, Server(r, GPU).obj.value.gen);
    }
  }

  lemma UnderwayEnds(s: Sys, spec: GpuSpec, os: OsType, steps: nat)
    requires Underway(s, spec, os, steps) && steps >= 6
    ensures s.ns.Standing? && s.cfg.chart.Some? && Stands(s, FullOf(s, os, s.cfg.chart.value))
    ensures Helm.AtDesired(s.helm, s.cfg.chart.value, Wanted(s, spec, os)) && Owned(Server(s, GPU))
    ensures LikeLive(Server(s, GPU), spec) && Deployable(s, os)
  {
    assert LiveCalm(s, spec);
    assert LikeLive(Server(s, GPU), spec);
    hide LiveCalm, PreflightOf, Stands, FullOf, BuildValues, Helm.InstallOrUpgrade;
    Helm.UnchangedMeansDesired(s.helm, s.cfg.chart.value, Wanted(s, spec, os), Helm.NO_FAULT);
  }
}

/** Concrete runs: Ready overtaken by a failed upgrade, and a node change that nobody looks at. */
module Witnesses {
  import opened Text
  import opened Values
  import opened Detection
  import opened Conditions
  import opened Cluster
  import opened Machine
  import opened Lifecycle
  import opened Provenance
  import opened Wakeup
  import opened FixedPoint
  import opened Reporting
  import Installation
  import Outcomes
  import Helm

  const FINE: Turn := Turn(true, "", Helm.NO_FAULT, Helm.UNINSTALL_OK, false)

  const SPEC: GpuSpec := GpuSpec(None, None)

  /** A state known up to the versions of "gpu", the worker's position and the queue. */
  ghost predicate Scene(s0: Sys, s: Sys, t: Track, pc: Pc, pending: set<string>) {
    && SameEnvironment(s0, s) && s.helm == s0.helm && s.ns == s0.ns
    && TrackOf(s, GPU) == t && s.pc == pc && s.pending == pending && s.timers == s.retries == {}
  }

  lemma Delivers(s0: Sys, s: Sys, a: View, b: View)
    requires Scene(s0, s, [a, b], Idle, {})
    ensures Scene(s0, Step(s, Deliver(GPU)), [b], Idle, {GPU})
  {}

  lemma Takes(s0: Sys, s: Sys, v: View)
    requires Scene(s0, s, [v], Idle, {GPU})
    ensures Scene(s0, Step(s, Take(GPU)), [v], Fetch(GPU), {})
  {}

  lemma Fetches(s0: Sys, s: Sys, v: View)
    requires Scene(s0, s, [v], Fetch(GPU), {}) && v.obj.Some?
    ensures Scene(s0, Step(s, Worker(FINE)), [v], Gate(GPU, v), {})
  {}

  lemma Creates(s: Sys)
    requires Initial(s)
    ensures Scene(s, Step(s, Create(GPU, SPEC, false)),
                  [View(0, None), View(s.nextRv, Some(Cr(1, false, false, false, SPEC, NO_STATUS)))], Idle, {})
  {}

  lemma Adopts(s0: Sys, s: Sys, v: View)
    requires v.obj.Some? && Scene(s0, s, [v], AddFinalizer(v), {})
    ensures Scene(s0, Step(s, Worker(FINE)), [v, View(s.nextRv, Some(v.obj.value.(ours := true)))], Idle, {})
  {}

  const ADOPTION: seq<Event> :=
    [Create(GPU, SPEC, false), Deliver(GPU), Take(GPU), Worker(FINE), Worker(FINE), Deliver(GPU)]

  const ADOPTED: Cr := Cr(1, false, true, false, SPEC, NO_STATUS)

  lemma Prefixes(es: seq<Event>, i: nat)
    requires i < |es|
    ensures es[..i + 1] == es[..i] + [es[i]]
  {}

  /** A new CR is created and taken over. */
  lemma Adoption(s: Sys) returns (v: View)
    requires Initial(s)
    ensures v.obj == Some(ADOPTED) && Scene(s, Run(s, ADOPTION), [v], Idle, {GPU})
  {
    hide Step, Scene;
    var es := ADOPTION;
    NothingYet(s, es);
    NextState(s, es, 0);
    NextState(s, es, 1);
    NextState(s, es, 2);
    NextState(s, es, 3);
    NextState(s, es, 4);
    NextState(s, es, 5);
    assert es[..6] == es;
    hide Run;
    var v1 := View(s.nextRv, Some(Cr(1, false, false, false, SPEC, NO_STATUS)));
    Creates(s);
    Delivers(s, At(s, es, 1), View(0, None), v1);
    Takes(s, At(s, es, 2), v1);
    Fetches(s, At(s, es, 3), v1);
    Adopts(s, At(s, es, 4), v1);
    v := View(At(s, es, 4).nextRv, Some(ADOPTED));
    Delivers(s, At(s, es, 5), v1, v);
  }

  // ---- a lost wakeup ----

  const GPU_LABELS: map<string, string> := map[INSTANCE_TYPE_LABEL := "g6.xlarge"]

  /** A fresh cluster of one GPU node with a finished driver and a passed validation. */
  function Fresh(osImage: string): Sys {
    Sys(Artifacts(Some("25.3.4"), None), map[], 1, 0, [Node("gpu-node", GPU_LABELS, osImage)], [],
        [DaemonSet(1, 1, 1, 1, ["nvcr.io/nvidia/driver:580-ubuntu22.04"])], Policy("ready"),
        [], Missing, {}, {}, {}, Idle, None, None)
  }

  lemma OneNodeVerdict(osImage: string)
    ensures PreflightOf(Fresh(osImage).nodes) ==
            if DetectOs(osImage).Some? then Proceed(DetectOs(osImage).value)
            else Stop(UnsupportedOs([("gpu-node", osImage)]))
  {
    hide DetectOs;
    assert INSTANCE_TYPE_PREFIXES[1] <= "g6.xlarge";
    var nodes := Fresh(osImage).nodes;
    assert IsGpuNode(nodes[0].labels) && GpuView(nodes[1..]) == [];
    var view := GpuView(nodes);
    assert view[0] == ("gpu-node", osImage) && |view| == 1;
    assert view[1..] == [] && DetectOs(view[0].1) == DetectOs(osImage);
    assert Unsupported(view) == if DetectOs(osImage).None? then view else [];
    assert view == [("gpu-node", osImage)];
    forall os ensures Runs(view, os) <==> DetectOs(osImage) == Some(os) {
      if DetectOs(osImage) == Some(os) { assert DetectOs(view[0].1) == Some(os); }
    }
    assert PreflightOf(nodes) == Judge(view);
    if DetectOs(osImage).None? {
      assert Unsupported(view) == view != [];
      assert Judge(view) == Stop(UnsupportedOs(view));
    } else {
      assert Unsupported(view) == [];
      assert Runs(view, GardenLinux) <==> DetectOs(osImage) == Some(GardenLinux);
      assert Runs(view, Ubuntu) <==> DetectOs(osImage) == Some(Ubuntu);
      match DetectOs(osImage).value {
        case GardenLinux =>
        case Ubuntu =>
      }
    }
  }

  lemma KnownImages()
    ensures DetectOs("Talos").None? && DetectOs("Ubuntu") == Some(Ubuntu)
  {
    assert |Lower("Talos")| == 5;
    assert Lower("Ubuntu") == "ubuntu";
    assert "ubuntu"[0..] == "ubuntu" && Contains("ubuntu", "ubuntu");
  }

  lemma Checks(s0: Sys, s: Sys, v: View, p: Preflight)
    requires Scene(s0, s, [v], CheckNodes(SPEC), {}) && PreflightOf(s0.nodes) == p && p.Stop?
    ensures Scene(s0, Step(s, Worker(FINE)), [v], Halt(p), {})
  {
    hide PreflightOf;
  }

  lemma HaltsAndReports(s0: Sys, s: Sys, v: View, p: Preflight) returns (w: View)
    requires Scene(s0, s, [v], Halt(p), {}) && p.Stop? && v.obj == Some(ADOPTED)
    ensures Scene(s0, Step(s, Worker(FINE)), [v, w], Idle, {})
    ensures w.obj.Some? && Gate(GPU, w) == CheckNodes(SPEC)
    ensures Stable(w.obj.value.status, Only(VerdictReport(p)), w.obj.value.gen)
  {
    var u := Only(VerdictReport(p));
    var st := Merge(NO_STATUS, u, 1, s.now);
    w := View(s.nextRv, Some(ADOPTED.(status := st)));
    assert st != NO_STATUS by { FindAfterMerge(NO_STATUS, u, 1, s.now, CondPreflight); }
    MergeIsStable(NO_STATUS, u, 1, s.now);
    hide Merge, Stable;
  }

  lemma HaltsSilently(s0: Sys, s: Sys, v: View, p: Preflight)
    requires Scene(s0, s, [v], Halt(p), {}) && p.Stop? && v.obj.Some?
    requires Stable(v.obj.value.status, Only(VerdictReport(p)), v.obj.value.gen)
    ensures Scene(s0, Step(s, Worker(FINE)), [v], Idle, {})
  {
    StandingUpdateIsSilent(s, Only(VerdictReport(p)), true);
    hide Stable, ApplyStatus;
  }

  const STOP_AND_REST: seq<Event> :=
    [Take(GPU), Worker(FINE), Worker(FINE), Worker(FINE), Deliver(GPU),
     Take(GPU), Worker(FINE), Worker(FINE), Worker(FINE)]

  /** The first reconcile stops and says so, the one its own report triggers finds nothing to do. */
  lemma StopsAndRests(s0: Sys, s: Sys, v: View, p: Preflight) returns (w: View)
    requires Scene(s0, s, [v], Idle, {GPU}) && v.obj == Some(ADOPTED) && PreflightOf(s0.nodes) == p && p.Stop?
    ensures w.obj.Some? && !w.obj.value.deleting && Scene(s0, Run(s, STOP_AND_REST), [w], Idle, {})
  {
    hide Step, Scene, Stable, PreflightOf;
    var es := STOP_AND_REST;
    NothingYet(s, es);
    NextState(s, es, 0);
    NextState(s, es, 1);
    NextState(s, es, 2);
    NextState(s, es, 3);
    NextState(s, es, 4);
    NextState(s, es, 5);
    NextState(s, es, 6);
    NextState(s, es, 7);
    NextState(s, es, 8);
    assert es[..9] == es;
    hide Run;
    Takes(s0, s, v);
    Fetches(s0, At(s, es, 1), v);
    Checks(s0, At(s, es, 2), v, p);
    w := HaltsAndReports(s0, At(s, es, 3), v, p);
    Delivers(s0, At(s, es, 4), v, w);
    Takes(s0, At(s, es, 5), w);
    Fetches(s0, At(s, es, 6), w);
    Checks(s0, At(s, es, 7), w, p);
    HaltsSilently(s0, At(s, es, 8), w, p);
  }

  const REIMAGED: NodeEvent := Updated(0, GPU_LABELS, "Ubuntu")

  /**
   * A run of a fresh cluster with one GPU node of an unsupported system: the operator stops and
   * rests. The node is reimaged to a supported one, the map function cannot list the CRs, and
   * nothing will ever look at "gpu" again, although it could now be installed.
   */
  lemma WakeupIsLost() returns (es: seq<Event>)
    ensures Initial(Fresh("Talos"))
    ensures var r := Run(Fresh("Talos"), es + [NodeChange(REIMAGED, false)]);
            !Awake(r) && PreflightOf(r.nodes) == Proceed(Ubuntu)
  {
    var s := Fresh("Talos");
    KnownImages();
    OneNodeVerdict("Talos");
    OneNodeVerdict("Ubuntu");
    hide Run, PreflightOf, DetectOs, Vigilant, Scene, Awake, Step;
    var v := Adoption(s);
    var w := StopsAndRests(s, Run(s, ADOPTION), v, PreflightOf(s.nodes));
    es := ADOPTION + STOP_AND_REST;
    RunConcat(s, ADOPTION, STOP_AND_REST);
    NoLostWakeup(s, es);
    RunOneMore(s, es, NodeChange(REIMAGED, false));
    LosesIt(s, Run(s, es), w);
  }

  lemma LosesIt(s: Sys, r: Sys, w: View)
    requires s == Fresh("Talos") && Scene(s, r, [w], Idle, {}) && Vigilant(r)
    requires w.obj.Some? && !w.obj.value.deleting
    requires PreflightOf(s.nodes).Stop? && PreflightOf(Fresh("Ubuntu").nodes) == Proceed(Ubuntu)
    ensures var r1 := Step(r, NodeChange(REIMAGED, false)); !Awake(r1) && PreflightOf(r1.nodes) == Proceed(Ubuntu)
  {
    hide PreflightOf, Vigilant;
    assert AfterNodeEvent(s.nodes, REIMAGED) == Fresh("Ubuntu").nodes;
    FailedListingLosesWakeup(r, REIMAGED);
  }

  // ---- Ready overtaken ----

  const INSTALLATION: seq<Event> :=
    [Take(GPU), Worker(FINE), Worker(FINE), Worker(FINE), Worker(FINE), Worker(FINE), Worker(FINE)]

  lemma Proceeds(s0: Sys, s: Sys, v: View, os: OsType)
    requires Scene(s0, s, [v], CheckNodes(SPEC), {}) && PreflightOf(s0.nodes) == Proceed(os)
    ensures Scene(s0, Step(s, Worker(FINE)), [v], Deploy(SPEC, os), {})
  {
    hide PreflightOf;
  }

  lemma PastDeploy(s: Sys)
    requires s.pc.Deploy? || s.pc.ReadDrivers? || s.pc.ReadPolicy? || s.pc.ReportHelm? || s.pc.Publish? || s.pc.Idle?
    ensures var pc := Step(s, Worker(FINE)).pc;
            pc.ReadDrivers? || pc.ReadPolicy? || pc.ReportHelm? || pc.Publish? || pc.Idle?
  {
    hide Work;
    WorkFollows(s, FINE);
  }

  lemma ComesToDeploy(s0: Sys, s: Sys, v: View, os: OsType)
    requires Scene(s0, s, [v], Idle, {GPU}) && v.obj == Some(ADOPTED) && PreflightOf(s0.nodes) == Proceed(os)
    ensures At(s, INSTALLATION, 0).pc.Idle? && At(s, INSTALLATION, 1).pc.Fetch? && At(s, INSTALLATION, 2).pc.CheckNodes?
    ensures At(s, INSTALLATION, 3).pc.Deploy? && At(s, INSTALLATION, 3).ns == s0.ns
  {
    hide Step, PreflightOf, At, Run;
    var es := INSTALLATION;
    NothingYet(s, es);
    NextState(s, es, 0);
    NextState(s, es, 1);
    NextState(s, es, 2);
    Takes(s0, s, v);
    Fetches(s0, At(s, es, 1), v);
    Proceeds(s0, At(s, es, 2), v, os);
  }

  lemma GoesPastDeploy(s: Sys)
    requires At(s, INSTALLATION, 3).pc.Deploy?
    ensures forall i | 4 <= i < 7 :: !At(s, INSTALLATION, i).pc.Deploy?
  {
    hide Step, At, Run;
    var es := INSTALLATION;
    NextState(s, es, 3);
    NextState(s, es, 4);
    NextState(s, es, 5);
    PastDeploy(At(s, es, 3));
    PastDeploy(At(s, es, 4));
    PastDeploy(At(s, es, 5));
  }

  lemma InstallationIsSmooth(s0: Sys, s: Sys, v: View, os: OsType)
    requires Scene(s0, s, [v], Idle, {GPU}) && v.obj == Some(ADOPTED) && PreflightOf(s0.nodes) == Proceed(os)
    requires !s0.ns.Terminating?
    ensures SmoothRun(s, INSTALLATION) && WorkerSteps(INSTALLATION) == 6
  {
    ComesToDeploy(s0, s, v, os);
    GoesPastDeploy(s);
    SixSteps();
    hide At, Scene, PreflightOf, WorkerSteps;
  }

  lemma SixSteps()
    ensures WorkerSteps(INSTALLATION) == 6
  {
    var es := INSTALLATION;
    Prefixes(es, 0);
    Prefixes(es, 1);
    Prefixes(es, 2);
    Prefixes(es, 3);
    Prefixes(es, 4);
    Prefixes(es, 5);
    assert es[..6] == es[..|es| - 1] && es[..0] == [];
    forall i | 0 <= i < 7 ensures WorkerSteps(es[..i + 1]) == WorkerSteps(es[..i]) + if es[i].Worker? then 1 else 0 {
      assert es[..i + 1][..|es[..i + 1]| - 1] == es[..i];
    }
    assert es[..7] == es;
  }

  /** The store cannot be reached. */
  const HELM_DOWN: Turn := FINE.(helm := Helm.NO_FAULT.(config := false))

  /** Known up to the queue: an adopted CR, its only version, and where the worker is. */
  ghost predicate Stage(s0: Sys, s: Sys, v: View, pc: Pc) {
    SameEnvironment(s0, s) && TrackOf(s, GPU) == [v] && s.pc == pc && s.now == s0.now
  }

  lemma TakesAgain(s0: Sys, s: Sys, v: View)
    requires Stage(s0, s, v, Idle) && GPU in s.pending
    ensures Stage(s0, Step(s, Take(GPU)), v, Fetch(GPU))
  {}

  lemma FetchesAgain(s0: Sys, s: Sys, v: View)
    requires Stage(s0, s, v, Fetch(GPU)) && LikeLive(v, SPEC) && Owned(v)
    ensures Stage(s0, Step(s, Worker(FINE)), v, CheckNodes(SPEC))
  {}

  lemma ProceedsAgain(s0: Sys, s: Sys, v: View, os: OsType)
    requires Stage(s0, s, v, CheckNodes(SPEC)) && PreflightOf(s0.nodes) == Proceed(os)
    ensures Stage(s0, Step(s, Worker(FINE)), v, Deploy(SPEC, os))
  {
    hide PreflightOf;
  }

  lemma FailsToDeploy(s0: Sys, s: Sys, v: View, os: OsType)
    requires Stage(s0, s, v, Deploy(SPEC, os)) && ChartLoads(s0, os)
    ensures Stage(s0, Step(s, Worker(HELM_DOWN)), v, ReportHelm(os, ""))
  {
    hide BuildValues;
  }

  lemma ReportsFailure(s0: Sys, s: Sys, v: View, os: OsType)
    requires Stage(s0, s, v, ReportHelm(os, "")) && v.obj.Some?
    ensures var w := Server(Step(s, Worker(FINE)), GPU);
            w.obj.Some? && w.obj.value.status == Merge(v.obj.value.status, HelmFailedUpdate(os, ""), v.obj.value.gen, s0.now)
  {
    hide Merge, HelmFailedUpdate;
  }

  const FAILURE: seq<Event> :=
    [Take(GPU), Worker(FINE), Worker(FINE), Worker(HELM_DOWN), Worker(FINE)]

  /** The next reconcile cannot reach Helm and says so. */
  lemma FailsAndReports(s: Sys, v: View, os: OsType)
    requires Stage(s, s, v, Idle) && GPU in s.pending && LikeLive(v, SPEC) && Owned(v)
    requires Installation.Deployable(s, os)
    ensures var w := Server(Run(s, FAILURE), GPU);
            w.obj.Some? && w.obj.value.status == Merge(v.obj.value.status, HelmFailedUpdate(os, ""), v.obj.value.gen, s.now)
  {
    hide Step, Stage, PreflightOf, Merge;
    var es := FAILURE;
    NothingYet(s, es);
    NextState(s, es, 0);
    NextState(s, es, 1);
    NextState(s, es, 2);
    NextState(s, es, 3);
    NextState(s, es, 4);
    assert es[..5] == es;
    hide Run;
    TakesAgain(s, s, v);
    FetchesAgain(s, At(s, es, 1), v);
    ProceedsAgain(s, At(s, es, 2), v, os);
    FailsToDeploy(s, At(s, es, 3), v, os);
    ReportsFailure(s, At(s, es, 4), v, os);
  }

  lemma RestartsReady(s: Sys, cfg: Config)
    requires Live(Server(s, GPU)) && cfg == s.cfg
    ensures var r := Step(s, Restart(cfg));
            && Stage(r, r, Server(s, GPU), Idle) && GPU in r.pending && SameEnvironment(s, r)
  {}

  /** A full report of a finished driver and a passed validation says Ready. */
  lemma FullReportIsReady(st: GpuStatus, gen: nat, os: OsType, version: string, d: DriverCheck, v: Report)
    requires Outcomes.FullyStored(st, os, version, d, v, gen) && d.status.True? && v.status.True?
    ensures Find(st.conditions, CondReady).Some? && Find(st.conditions, CondReady).value.status.True?
  {
    hide Find, ReadySummary;
    var k := SummaryOfFour(st.conditions);
  }

  lemma FailureOvertakes(st: GpuStatus, gen: nat, now: nat, os: OsType)
    requires Find(st.conditions, CondReady).Some? && Find(st.conditions, CondReady).value.status.True?
    ensures var cs := Merge(st, HelmFailedUpdate(os, ""), gen, now).conditions;
            && Find(cs, CondReady) == Find(st.conditions, CondReady)
            && Find(cs, CondHelmInstalled).Some? && Find(cs, CondHelmInstalled).value.status.False?
  {
    var u := HelmFailedUpdate(os, "");
    HelmFailedIsEarly(os, "");
    hide Merge;
    EarlyKeepsOthers(st, u, gen, now, CondReady);
    FindAfterMerge(st, u, gen, now, CondHelmInstalled);
    ReportedSelf(u.reports, u.reports[1]);
  }

  lemma FreshIsReady(s: Sys)
    requires s.drivers == Fresh("Ubuntu").drivers && s.policy == Fresh("Ubuntu").policy
    ensures var d, v := DriverCheckOf(Got(s.drivers)), PolicyReport(Read(s.policy));
            GoodFull("25.3.4", d, v) && d.status.True? && v.status.True?
  {
    DriverShape(Got(s.drivers));
    PolicyShape(Read(s.policy));
    var dss := s.drivers;
    assert dss[..|dss| - 1] == [];
    assert Total(dss) == Totals(1, 1, 1, 1);
  }

  /**
   * A run of a fresh cluster: the operator installs and reports, everything is ready, then it
   * restarts and cannot reach Helm. Ready stays True over HelmInstalled False.
   */
  lemma ReadyIsOvertaken() returns (es: seq<Event>)
    ensures Initial(Fresh("Ubuntu"))
    ensures var v := Server(Run(Fresh("Ubuntu"), es), GPU);
            v.obj.Some? &&
            var cs := v.obj.value.status.conditions;
            && Find(cs, CondReady).Some? && Find(cs, CondReady).value.status.True?
            && Find(cs, CondHelmInstalled).Some? && Find(cs, CondHelmInstalled).value.status.False?
            && !Says(Find(cs, CondReady).value, ReadySummary(cs))
  {
    var s := Fresh("Ubuntu");
    KnownImages();
    OneNodeVerdict("Ubuntu");
    hide Step, Run, PreflightOf, Stable, Merge, FullUpdate, DriverCheckOf, PolicyReport, ReadySummary, Find;
    var v := Adoption(s);
    InstallationIsSmooth(s, Run(s, ADOPTION), v, Ubuntu);
    Installation.InstallationCompletes(s, ADOPTION, INSTALLATION, Ubuntu);
    var done := Run(Run(s, ADOPTION), INSTALLATION);
    RunConcat(s, ADOPTION, INSTALLATION);
    es := ADOPTION + INSTALLATION;
    var restarted := Step(done, Restart(done.cfg));
    RunOneMore(s, es, Restart(done.cfg));
    es := es + [Restart(done.cfg)];
    RestartsReady(done, done.cfg);
    FailsAndReports(restarted, Server(done, GPU), Ubuntu);
    RunConcat(s, es, FAILURE);
    es := es + FAILURE;
    FreshIsReady(done);
    var cr := Server(done, GPU).obj.value;
    FullReportIsReady(cr.status, cr.gen, Ubuntu, "25.3.4", DriverCheckOf(Got(done.drivers)), PolicyReport(Read(done.policy)));
    FailureOvertakes(cr.status, cr.gen, restarted.now, Ubuntu);
    ReadyIsCurrent(s, es);
  }
}

/** What each reporting call leaves in the stored status, and what it asks of the queue, written out. */
module Outcomes {
  import opened Text
  import opened Values
  import opened Detection
  import opened Conditions
  import opened Cluster
  import opened Machine
  import opened Provenance
  import opened Json
  import Helm

  /** A condition as stored, up to its transition time. */
  ghost predicate Stored(st: GpuStatus, k: CondType, status: Truth, reason: Why, message: Message, gen: nat) {
    var c := Find(st.conditions, k);
    c.Some? && c.value.status == status && c.value.reason == reason && c.value.message == message && c.value.gen == gen
  }

  /** The CR's object after a successful status write, and what the write leaves alone. */
  ghost predicate Wrote(s: Sys, s1: Sys, n: string) {
    var before, after := Server(s, n).obj, Server(s1, n).obj;
    && before.Some? && after.Some? && after.value == before.value.(status := after.value.status)
    && s1.helm == s.helm && s1.ns == s.ns && s1.pending == s.pending
  }

  lemma ReportIsStored(st: GpuStatus, u: Update, r: Report, gen: nat, now: nat)
    requires Proper(u) && r in u.reports
    ensures Stored(Merge(st, u, gen, now), r.kind, r.status, r.reason, r.message, gen)
    ensures var before := Find(st.conditions, r.kind);
            Find(Merge(st, u, gen, now).conditions, r.kind).value.since ==
            if before.Some? && before.value.status == r.status then before.value.since else now
  {
    hide Merge;
    FindAfterMerge(st, u, gen, now, r.kind);
    ReportedSelf(u.reports, r);
    assert r.kind == CondReady ==> !u.includeReady;
  }

  /** A status write that reaches the server leaves the merged status there. */
  lemma ApplyWrites(s: Sys, n: string, u: Update)
    requires Server(s, n).obj.Some?
    ensures var (s1, done) := ApplyStatus(s, n, u, true);
            var cr := Server(s, n).obj.value;
            && done && Wrote(s, s1, n) && Server(s1, n).obj.value.status == Merge(cr.status, u, cr.gen, s.now)
            && s1.timers == s.timers && s1.retries == s.retries && s1.pc == s.pc
  {
    hide Merge;
  }

  lemma OneReport(r: Report)
    ensures Proper(Only(r)) && r in Only(r).reports
  {}

  /** A hard preflight verdict is stored as False and not looked at again, a warning as Unknown and looked at later. */
  lemma HaltTells(s: Sys, p: Preflight, t: Turn)
    requires s.pc == Halt(p) && !p.Proceed? && t.ok && Server(s, GPU).obj.Some?
    ensures var s1 := Work(s, t);
            var st, gen := Server(s1, GPU).obj.value.status, Server(s, GPU).obj.value.gen;
            && Wrote(s, s1, GPU) && s1.pc == Idle && s1.retries == s.retries
            && match p
               case Stop(reason) =>
                 Stored(st, CondPreflight, False, Failed, PreflightSays(reason), gen)
                 && s1.timers == s.timers && s1.stopped == Some(p)
               case Warn(reason) =>
                 Stored(st, CondPreflight, Unknown, Waiting, PreflightSays(reason), gen)
                 && s1.timers == s.timers + {"gpu"}
  {
    var r := VerdictReport(p);
    var cr := Server(s, GPU).obj.value;
    assert Work(s, t) == HaltStep(s, p, t);
    OneReport(r);
    ReportIsStored(cr.status, Only(r), r, cr.gen, s.now);
    ApplyWrites(s, GPU, Only(r));
    hide ApplyStatus, Merge, Only, Find, Work;
  }

  lemma HelmFailureReports(os: OsType, error: string)
    ensures var u := HelmFailedUpdate(os, error);
            && Proper(u) && |u.reports| == 2
            && u.reports[0] == Report(CondPreflight, True, Passed, AllNodesRun(os))
            && u.reports[1] == Report(CondHelmInstalled, False, Failed, HelmFailed(error))
  {}

  lemma HelmFailureMoves(s: Sys, os: OsType, error: string, t: Turn)
    requires s.pc == ReportHelm(os, error)
    ensures var r := ApplyStatus(s, GPU, HelmFailedUpdate(os, error), t.ok).0;
            Work(s, t) == r.(pc := Idle, retries := r.retries + {"gpu"})
  {
    hide ApplyStatus, HelmFailedUpdate;
  }

  /** A failed Helm call is stored with its error, beside the preflight that passed, and retried. */
  lemma HelmFailureTells(s: Sys, os: OsType, error: string, t: Turn)
    requires s.pc == ReportHelm(os, error) && t.ok && Server(s, GPU).obj.Some?
    ensures var s1 := Work(s, t);
            var st, gen := Server(s1, GPU).obj.value.status, Server(s, GPU).obj.value.gen;
            && Wrote(s, s1, GPU) && s1.pc == Idle && s1.retries == s.retries + {"gpu"} && s1.timers == s.timers
            && Stored(st, CondPreflight, True, Passed, AllNodesRun(os), gen)
            && Stored(st, CondHelmInstalled, False, Failed, HelmFailed(error), gen)
  {
    HelmFailureMoves(s, os, error, t);
    hide ApplyStatus, Merge, Find, Work, Proper, HelmFailedUpdate, Retry;
    var u := HelmFailedUpdate(os, error);
    var cr := Server(s, GPU).obj.value;
    HelmFailureReports(os, error);
    assert u.reports[0] in u.reports && u.reports[1] in u.reports;
    ReportIsStored(cr.status, u, u.reports[0], cr.gen, s.now);
    ReportIsStored(cr.status, u, u.reports[1], cr.gen, s.now);
    ApplyWrites(s, GPU, u);
  }

  /** The full report, as it is stored. */
  ghost predicate FullyStored(st: GpuStatus, os: OsType, version: string, d: DriverCheck, v: Report, gen: nat) {
    && Stored(st, CondPreflight, True, Passed, AllNodesRun(os), gen)
    && Stored(st, CondHelmInstalled, True, Installed, VersionInstalled(version), gen)
    && Stored(st, CondDriverReady, d.status, d.reason, d.message, gen)
    && Stored(st, CondValidatorPassed, v.status, v.reason, v.message, gen)
    && st.operatorVersion == version && st.driver == Some(d.info)
    && Find(st.conditions, CondReady).Some? && Find(st.conditions, CondReady).value.gen == gen
    && var r, c := ReadySummary(st.conditions), Find(st.conditions, CondReady).value;
       c.status == r.status && c.reason == r.reason && c.message == r.message
  }

  lemma FullUpdateTells(st: GpuStatus, os: OsType, version: string, d: DriverCheck, v: Report, gen: nat, now: nat)
    requires v.kind == CondValidatorPassed && version != ""
    ensures FullyStored(Merge(st, FullUpdate(os, version, d, v), gen, now), os, version, d, v, gen)
  {
    var u := FullUpdate(os, version, d, v);
    var cs := SetAll(st.conditions, u.reports, gen, now);
    var m := Merge(st, u, gen, now);
    assert Proper(u) && u.reports[0] in u.reports && u.reports[1] in u.reports && u.reports[2] in u.reports && u.reports[3] in u.reports;
    assert u.includeReady && m.operatorVersion == version && m.driver == Some(d.info) && m.conditions == WithReady(cs, gen, now);
    ReportIsStored(st, u, u.reports[0], gen, now);
    ReportIsStored(st, u, u.reports[1], gen, now);
    ReportIsStored(st, u, u.reports[2], gen, now);
    ReportIsStored(st, u, u.reports[3], gen, now);
    ReadyKeepsInputs(cs, gen, now);
    SameInputsSameSummary(m.conditions, cs);
    ReadyIsReady(cs);
    hide Merge, Find, SetAll, ReadySummary, Proper, WithReady;
  }

  lemma PublishMoves(s: Sys, t: Turn)
    requires s.pc.Publish? && t.ok && Server(s, GPU).obj.Some?
    ensures var u := FullUpdate(s.pc.os, s.pc.version, s.pc.driver, s.pc.validator);
            var r, s1 := ApplyStatus(s, GPU, u, true).0, Work(s, t);
            && s1.views == r.views && s1.helm == r.helm && s1.ns == r.ns && s1.pending == r.pending
            && s1.pc == Idle && s1.timers == r.timers + {"gpu"} && s1.retries == r.retries
  {
    hide Merge, FullUpdate, SetAll;
  }

  /** A publish that succeeds stores exactly what the reconcile found, Ready summing it up, and looks again later. */
  lemma PublishTells(s: Sys, t: Turn)
    requires s.pc.Publish? && s.pc.validator.kind == CondValidatorPassed && s.pc.version != ""
    requires t.ok && Server(s, GPU).obj.Some?
    ensures var s1 := Work(s, t);
            && Wrote(s, s1, GPU) && s1.pc == Idle && s1.timers == s.timers + {"gpu"} && s1.retries == s.retries
            && FullyStored(Server(s1, GPU).obj.value.status, s.pc.os, s.pc.version, s.pc.driver, s.pc.validator,
                           Server(s, GPU).obj.value.gen)
  {
    hide ApplyStatus, Merge, FullyStored, FullUpdate, SetAll, Work, Find;
    var pc, cr := s.pc, Server(s, GPU).obj.value;
    var u := FullUpdate(pc.os, pc.version, pc.driver, pc.validator);
    PublishMoves(s, t);
    FullUpdateTells(cr.status, pc.os, pc.version, pc.driver, pc.validator, cr.gen, s.now);
    ApplyWrites(s, GPU, u);
  }

  /** The deletion announces itself and goes on. */
  lemma AnnouncementTells(s: Sys, t: Turn)
    requires s.pc == MarkUninstalling && t.ok && Server(s, GPU).obj.Some?
    ensures var s1 := Work(s, t);
            && Wrote(s, s1, GPU) && s1.pc == ListPods && s1.timers == s.timers && s1.retries == s.retries
            && Stored(Server(s1, GPU).obj.value.status, CondHelmInstalled, Unknown, Uninstalling, UninstallingOperator,
                      Server(s, GPU).obj.value.gen)
  {
    var r := UNINSTALLING_REPORT;
    var cr := Server(s, GPU).obj.value;
    OneReport(r);
    ReportIsStored(cr.status, Only(r), r, cr.gen, s.now);
    ApplyWrites(s, GPU, Only(r));
    hide ApplyStatus, Merge, Only, Find;
  }

  lemma BlockMoves(s: Sys, active: seq<(string, string)>, t: Turn)
    requires s.pc == ReportBlocked(active)
    ensures var r := ApplyStatus(s, GPU, BlockedUpdate(active), t.ok).0;
            Work(s, t) == r.(pc := Idle, timers := r.timers + {"gpu"})
  {
    hide ApplyStatus, BlockedUpdate;
  }

  /** A blocked deletion names the pods that block it and looks again later. */
  lemma BlockTells(s: Sys, active: seq<(string, string)>, t: Turn)
    requires s.pc == ReportBlocked(active) && t.ok && Server(s, GPU).obj.Some?
    ensures var s1 := Work(s, t);
            && Wrote(s, s1, GPU) && s1.pc == Idle && s1.timers == s.timers + {"gpu"} && s1.retries == s.retries
            && Stored(Server(s1, GPU).obj.value.status, CondWorkloadProtection, False, ActiveWorkloads,
                      DeletionBlocked(active), Server(s, GPU).obj.value.gen)
  {
    var r := Report(CondWorkloadProtection, False, ActiveWorkloads, DeletionBlocked(active));
    var cr := Server(s, GPU).obj.value;
    assert BlockedUpdate(active) == Only(r);
    BlockMoves(s, active, t);
    hide ApplyStatus, Merge, Only, Find, BlockedUpdate, Work;
    OneReport(r);
    ReportIsStored(cr.status, Only(r), r, cr.gen, s.now);
    ApplyWrites(s, GPU, Only(r));
  }

  /** A CR of another name is told so, once, and nothing else is done about it. */
  lemma RogueTells(s: Sys, n: string, t: Turn)
    requires s.pc == MarkRogue(n) && t.ok && Server(s, n).obj.Some?
    ensures var s1 := Work(s, t);
            && Wrote(s, s1, n) && s1.pc == Idle && s1.timers == s.timers && s1.retries == s.retries
            && Stored(Server(s1, n).obj.value.status, CondReady, False, ForbiddenName, OnlySingleton,
                      Server(s, n).obj.value.gen)
  {
    var r := ROGUE_REPORT;
    var cr := Server(s, n).obj.value;
    OneReport(r);
    ReportIsStored(cr.status, Only(r), r, cr.gen, s.now);
    ApplyWrites(s, n, Only(r));
    hide ApplyStatus, Merge, Only, Find;
  }

  // ---- the other calls ----

  /** The guard lets the uninstall go on exactly if the pods could not be listed or none of them would lose a GPU. */
  lemma GuardTells(s: Sys, t: Turn)
    requires s.pc == ListPods
    ensures var s1 := Work(s, t);
            && (s1.pc == RemoveRelease <==> !t.ok || forall p | p in s.pods :: !UsesGpu(p))
            && (s1.pc != RemoveRelease ==>
                  s1.pc.ReportBlocked? && forall p | p in s.pods && UsesGpu(p) :: (p.namespace, p.name) in s1.pc.active)
            && s1 == s.(pc := s1.pc)
  {
    NothingActiveMeansNone(s.pods);
    hide ActiveWorkloadsOf, UsesGpu;
  }

  /** A live "gpu" without our finalizer gets it, and nothing else of it changes. */
  lemma AdoptionTells(s: Sys, t: Turn)
    requires s.pc.AddFinalizer? && s.pc.read.obj.Some?
    ensures var s1 := Work(s, t);
            && s1.pc == Idle && s1.helm == s.helm && s1.ns == s.ns
            && if t.ok && s.pc.read == Server(s, "gpu")
               then Server(s1, "gpu").obj == Some(s.pc.read.obj.value.(ours := true)) && s1.retries == s.retries
               else s1 == s.(pc := Idle, retries := s.retries + {"gpu"})
  {}

  /** Our finalizer is taken off the version read, if it is current; a deleting CR held by nobody else disappears. */
  lemma ReleaseTells(s: Sys, n: string, read: View, t: Turn)
    requires (s.pc == DropFinalizer(read) && n == "gpu") || s.pc == FreeRogue(n, read)
    requires read.obj.Some? && read.obj.value.ours
    ensures var s1 := Work(s, t);
            && s1.pc == Idle && s1.helm == s.helm && s1.ns == s.ns
            && if t.ok && read == Server(s, n)
               then Server(s1, n).obj == (if read.obj.value.deleting && !read.obj.value.foreign then None
                                          else Some(read.obj.value.(ours := false)))
                    && s1.retries == s.retries
               else s1 == s.(pc := Idle, retries := s.retries + {n})
  {}

  /**
   * The first read decides the reconcile: a deleted CR without our finalizer is left alone, one
   * of another name is freed or told off, "gpu" is uninstalled, adopted or installed.
   */
  lemma FetchTells(s: Sys, n: string, t: Turn)
    requires s.pc == Fetch(n)
    ensures var s1, read := Work(s, t), Cached(s, n);
            && s1 == s.(pc := s1.pc, retries := s1.retries)
            && (if t.ok then s1.retries == s.retries else s1.pc == Idle && s1.retries == s.retries + {n})
            && (t.ok && read.obj.None? ==> s1.pc == Idle)
            && (t.ok && read.obj.Some? ==>
                  var cr := read.obj.value;
                  && (s1.pc == Idle <==> cr.deleting && !cr.ours)
                  && (s1.pc == FreeRogue(n, read) <==> cr.deleting && cr.ours && n != "gpu")
                  && (s1.pc == MarkUninstalling <==> cr.deleting && cr.ours && n == "gpu")
                  && (s1.pc == MarkRogue(n) <==> !cr.deleting && n != "gpu")
                  && (s1.pc == AddFinalizer(read) <==> !cr.deleting && n == "gpu" && !cr.ours)
                  && (s1.pc == CheckNodes(cr.spec) <==> !cr.deleting && n == "gpu" && cr.ours))
  {}

  /** The calls whose failure ends the reconcile; those of a report also fail when the CR is gone. */
  ghost predicate MustSucceed(s: Sys) {
    s.pc.CheckNodes? || s.pc.Halt? || s.pc.Publish? || s.pc.MarkRogue? || s.pc.DeleteNamespace? || s.pc.Refetch?
  }

  /** Such a failure writes nothing and is retried by the queue. */
  lemma FailureIsRetried(s: Sys, n: string, t: Turn)
    requires MustSucceed(s) && Subject(s.pc) == Some(n)
    requires !t.ok || ((s.pc.Halt? || s.pc.Publish? || s.pc.MarkRogue?) && Server(s, n).obj.None?)
    ensures Work(s, t) == s.(pc := Idle, retries := s.retries + {n})
  {
    hide PreflightOf, Merge, FullUpdate, SetAll, VerdictReport, Only;
  }

  /** A chart or base that cannot be loaded is retried too, and Helm is not called. */
  lemma LoadFailureIsRetried(s: Sys, t: Turn)
    requires s.pc.Deploy? && (s.cfg.chart.None? || (s.pc.os == GardenLinux && s.cfg.base.None?))
    ensures Work(s, t) == s.(pc := Idle, retries := s.retries + {"gpu"})
  {
    hide BuildValues, Helm.InstallOrUpgrade;
  }

  /** Preflight leads to a deploy on the system it found, or to its verdict; nothing is written. */
  lemma CheckTells(s: Sys, t: Turn)
    requires s.pc.CheckNodes? && t.ok
    ensures Work(s, t) == s.(pc := match PreflightOf(s.nodes)
                                   case Proceed(os) => Deploy(s.pc.spec, os)
                                   case p => Halt(p))
  {
    hide PreflightOf;
  }

  /** The release is uninstalled before the namespace is touched; an error is retried with what is left of it. */
  lemma RemovalTells(s: Sys, t: Turn)
    requires s.pc == RemoveRelease && !t.removal.fate.Cut?
    ensures var s1 := Work(s, t);
            && s1 == s.(pc := s1.pc, helm := s1.helm, retries := s1.retries)
            && (s1.pc == DeleteNamespace ==> !Helm.Visible(s1.helm) && s1.retries == s.retries)
            && (s1.pc != DeleteNamespace ==> s1.pc == Idle && s1.retries == s.retries + {"gpu"})
            && (FineRemoval(t.removal) ==> s1.pc == DeleteNamespace && (Helm.Visible(s.helm) ==> s1.helm == []))
  {}

  predicate FineRemoval(o: Helm.UninstallOracle) { o.config && o.list && o.fate.Succeeds? }

  // ---- where the report comes from ----

  lemma ReadingPolicy(s: Sys, t: Turn)
    requires s.pc.ReadPolicy?
    ensures Work(s, t).pc == Publish(s.pc.os, s.pc.version, s.pc.driver,
                                     PolicyReport(if t.ok then Read(s.policy) else ReadFailed(t.error)))
  {
    hide PolicyReport;
  }

  lemma ReadingDrivers(s: Sys, t: Turn)
    requires s.pc.ReadDrivers?
    ensures Work(s, t).pc == ReadPolicy(s.pc.os, s.pc.version,
                                        DriverCheckOf(if t.ok then Got(s.drivers) else ListFailed(t.error)))
  {
    hide DriverCheckOf;
  }

  /**
   * A deploy that lets the reconcile go on to its report leaves the release deployed with the
   * embedded chart and with values that mean those built for the spec and the system, or it
   * was an install whose end could not be recorded.
   */
  lemma DeployLeavesWanted(s: Sys, t: Turn)
    requires s.pc.Deploy? && Work(s, t).pc.ReadDrivers?
    ensures var s1 := Work(s, t);
            && s.cfg.chart == Some(s1.pc.version) && s1.pc.os == s.pc.os && s1.helm != []
            && var newest := s1.helm[|s1.helm| - 1];
               && (newest.status == Helm.Deployed || (newest.status == Helm.PendingInstall && t.helm.apply.Unrecorded?))
               && (newest.status == Helm.Deployed ==>
                     && newest.chart == s1.pc.version
                     && Meaning(Map(newest.config)) ==
                        Meaning(Map(BuildValues(if s.cfg.base.Some? then s.cfg.base.value else map[], s.pc.spec, s.pc.os))))
  {
    assert Work(s, t) == DeployStep(s, s.pc.spec, s.pc.os, t);
    hide Helm.InstallOrUpgrade, BuildValues, Meaning, Work;
    var config := BuildValues(if s.cfg.base.Some? then s.cfg.base.value else map[], s.pc.spec, s.pc.os);
    BuiltNeverEmpty(if s.cfg.base.Some? then s.cfg.base.value else map[], s.pc.spec, s.pc.os);
    Helm.UnchangedMeansDesired(s.helm, s.cfg.chart.value, config, DeployOracle(s, t));
  }

  /** Every full report of a run tells what its own reconcile deployed and read, in this order. */
  lemma ReportTellsWhatWasRead(s: Sys, es: seq<Event>, i: nat) returns (d: nat, j: nat, k: nat)
    requires Initial(s) && i <= |es| && At(s, es, i).pc.Publish?
    ensures d < j < k < i && WorkAt(es, d) && WorkAt(es, j) && WorkAt(es, k) && SameReconcile(s, es, d, i)
    ensures At(s, es, d).pc.Deploy? && Work(At(s, es, d), es[d].turn).pc.ReadDrivers?
    ensures var pc, deploy := At(s, es, i).pc, At(s, es, d);
            && pc.os == deploy.pc.os && deploy.cfg.chart == Some(pc.version)
            && pc.driver == DriverCheckOf(if es[j].turn.ok then Got(At(s, es, j).drivers) else ListFailed(es[j].turn.error))
            && pc.validator == PolicyReport(if es[k].turn.ok then Read(At(s, es, k).policy) else ReadFailed(es[k].turn.error))
  {
    hide Run, Work, DriverCheckOf, PolicyReport;
    NothingYet(s, es);
    k := Arrival(s, es, i);
    WorkFollows(At(s, es, k), es[k].turn);
    ReadingPolicy(At(s, es, k), es[k].turn);
    j := Arrival(s, es, k);
    WorkFollows(At(s, es, j), es[j].turn);
    ReadingDrivers(At(s, es, j), es[j].turn);
    d := Arrival(s, es, j);
    WorkFollows(At(s, es, d), es[d].turn);
    DeployLeavesWanted(At(s, es, d), es[d].turn);
  }
}

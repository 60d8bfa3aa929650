/**
 * gpu_controller.go as written: the reconciler's methods, updating the cluster step by step,
 * with any other events in between. Every completed call is one worker step of the machine.
 */
module Reconciler {
  import opened Text
  import opened Values
  import opened Detection
  import opened Conditions
  import opened Cluster
  import opened Machine
  import opened Lifecycle
  import opened HelmClient
  import ValuesHeap
  import Reporting
  import Helm

  /** What Reconcile returns; Died stands for a process that was killed inside a Helm call. */
  datatype Result = Finished | RequeueAfter | Erred | Died

  lemma OthersLeaveTheWorker(s: Sys, e: Event)
    requires !e.Worker? && !e.Restart? && !s.pc.Idle?
    ensures Step(s, e).pc == s.pc
    ensures Step(s, e).helm == if e.NamespaceGone? && s.ns.Terminating? then [] else s.helm
  {
    hide AfterNodeEvent, Possible, Fires, Server, Cached;
  }

  /** The run went on without a restart and without another request being taken. */
  ghost predicate Continues(before: seq<Event>, after: seq<Event>) {
    before <= after && forall i | |before| <= i < |after| :: !after[i].Restart? && !after[i].Take?
  }

  /** applyStatus up to the comparison: the conditions are set one by one. */
  method MergedStatus(live: Cr, u: Update, now: nat) returns (st: GpuStatus)
    ensures st == Merge(live.status, u, live.gen, now)
  {
    var conditions := live.status.conditions;
    for i := 0 to |u.reports|
      invariant SetAll(conditions, u.reports[i..], live.gen, now)
                == SetAll(live.status.conditions, u.reports, live.gen, now)
    {
      conditions := SetCondition(conditions, u.reports[i], live.gen, now);
      assert u.reports[i..][1..] == u.reports[i + 1..];
    }
    if u.includeReady {
      conditions := SetCondition(conditions, ReadySummary(conditions), live.gen, now);
    }
    st := live.status.(conditions := conditions);
    if u.operatorVersion != "" { st := st.(operatorVersion := u.operatorVersion); }
    if u.driver.Some? { st := st.(driver := u.driver); }
  }

  class Operator {
    /** The cluster and the worker's position in it. */
    var sys: Sys
    const installer: Client
    ghost const start: Sys
    ghost var trail: seq<Event>

    /** The present is what the recorded run has led to, and the release is the installer's. */
    ghost predicate Valid()
      reads this, installer
    {
      Initial(start) && sys == Run(start, trail) && installer.Ours() == sys.helm
    }

    ghost predicate Queued(n: string, r: Result)
      reads this
    {
      match r
      case Finished => true
      case RequeueAfter => n in sys.timers
      case Erred => n in sys.retries
      case Died => sys.pending == ServerNames(sys)
    }

    constructor (s: Sys)
      requires Initial(s)
      ensures Valid() && sys == s && trail == []
    {
      sys, start, trail := s, s, [];
      installer := new Client(map[]);
    }

    /** Records that the worker's step from before to now is complete. */
    ghost method Committed(before: Sys, t: Turn)
      requires Initial(start) && before == Run(start, trail) && sys == Work(before, t) && installer.Ours() == sys.helm
      modifies this`trail
      ensures Valid() && trail == old(trail) + [Worker(t)]
    {
      hide Work, Run;
      RunOneMore(start, trail, Worker(t));
      trail := trail + [Worker(t)];
    }

    /** Anything may happen before the next call, short of a restart; t is how that call will go. */
    method Interlude() returns (t: Turn)
      requires Valid() && !sys.pc.Idle?
      modifies this, installer
      ensures Valid() && sys.pc == old(sys.pc) && Continues(old(trail), trail)
    {
      hide Step, Run;
      var others: seq<Event> := *;
      for i := 0 to |others|
        invariant Valid() && sys.pc == old(sys.pc) && Continues(old(trail), trail)
      {
        if !others[i].Worker? && !others[i].Restart? && !others[i].Take? {
          OthersLeaveTheWorker(sys, others[i]);
          RunOneMore(start, trail, others[i]);
          if others[i].NamespaceGone? && sys.ns.Terminating? { installer.Vanish(); }
          sys, trail := Step(sys, others[i]), trail + [others[i]];
        }
      }
      t := *;
    }

    /** Returning from Reconcile: the queue acts on the result. */
    method Return(n: string, r: Result) returns (result: Result)
      requires !r.Died?
      modifies this`sys
      ensures result == r && Queued(n, r)
      ensures sys == match r
                     case RequeueAfter => Later(old(sys), n)
                     case Erred => Retry(old(sys), n)
                     case _ => Machine.Done(old(sys))
    {
      result := r;
      if r.RequeueAfter? {
        sys := Later(sys, n);
      } else if r.Erred? {
        sys := Retry(sys, n);
      } else {
        sys := Machine.Done(sys);
      }
    }

    method ApplyStatus(n: string, u: Update, ok: bool) returns (err: bool)
      modifies this`sys
      ensures (sys, !err) == Machine.ApplyStatus(old(sys), n, u, ok) && sys.helm == old(sys.helm)
    {
      hide Merge;
      if !ok || Server(sys, n).obj.None? { return true; }
      var live := Server(sys, n).obj.value;
      var st := MergedStatus(live, u, sys.now);
      if st == live.status { return false; }
      sys := Write(sys, n, Some(live.(status := st)));
      return false;
    }

    /** client.Update: refused unless the version read is still the server's; false is the error. */
    method UpdateCr(n: string, read: View, obj: Option<Cr>, ok: bool) returns (done: bool)
      modifies this`sys
      ensures done <==> ok && read == Server(old(sys), n)
      ensures sys == if done && read.obj != obj then Write(old(sys), n, obj) else old(sys)
    {
      if !ok || read != Server(sys, n) { return false; }
      if read.obj != obj { sys := Write(sys, n, obj); }
      return true;
    }

    method Reconcile(n: string) returns (result: Result)
      requires Valid() && sys.pc == Fetch(n)
      modifies this, installer
      ensures Valid() && sys.pc.Idle? && Continues(old(trail), trail) && Queued(n, result)
    {
      hide Run, Cached, Work, Gate;
      var t := Interlude();
      ghost var before := sys;
      var read := Cached(sys, n);
      FetchGates(sys, n, t);
      if !t.ok || read.obj.None? {
        result := Return(n, if t.ok then Finished else Erred);
        Committed(before, t);
        return;
      }
      var gpu := read.obj.value;
      if gpu.deleting {
        result := ReconcileDelete(n, read, t);
        return;
      }
      if n != GPU {
        sys := sys.(pc := MarkRogue(n));
        Committed(before, t);
        result := RejectRogue(n);
        return;
      }
      if !gpu.ours {
        sys := sys.(pc := AddFinalizer(read));
        Committed(before, t);
        result := Adopt(read);
        return;
      }
      sys := sys.(pc := CheckNodes(gpu.spec));
      Committed(before, t);
      result := Sync(gpu.spec);
    }

    /** Preflight, Helm, observation and report. */
    method Sync(spec: GpuSpec) returns (result: Result)
      requires Valid() && sys.pc == CheckNodes(spec)
      modifies this, installer
      ensures Valid() && sys.pc.Idle? && Continues(old(trail), trail) && Queued(GPU, result)
    {
      hide Run, Work;
      var os: Option<OsType>;
      os, result := CheckPreflight(spec);
      if os.None? { return; }
      var version: Option<string>;
      version, result := InstallOrUpgrade(spec, os.value);
      if version.None? { return; }
      result := Report(os.value, version.value);
    }

    /** A CR of another name is told that only the singleton is reconciled. */
    method RejectRogue(n: string) returns (result: Result)
      requires Valid() && sys.pc == MarkRogue(n)
      modifies this, installer
      ensures Valid() && sys.pc.Idle? && Continues(old(trail), trail) && Queued(n, result)
    {
      hide Run, Machine.ApplyStatus, Only;
      var t := Interlude();
      ghost var before := sys;
      var err := ApplyStatus(n, Only(ROGUE_REPORT), t.ok);
      result := Return(n, if err then Erred else Finished);
      Committed(before, t);
    }

    method Adopt(read: View) returns (result: Result)
      requires Valid() && sys.pc == AddFinalizer(read) && read.obj.Some? && !read.obj.value.ours
      modifies this, installer
      ensures Valid() && sys.pc.Idle? && Continues(old(trail), trail) && Queued(GPU, result)
    {
      hide Run;
      var t := Interlude();
      ghost var before := sys;
      var done := UpdateCr(GPU, read, Some(read.obj.value.(ours := true)), t.ok);
      result := Return(GPU, if done then Finished else Erred);
      Committed(before, t);
    }

    /** runPreflight: None once it has reported itself and the caller must return. */
    method CheckPreflight(spec: GpuSpec) returns (os: Option<OsType>, result: Result)
      requires Valid() && sys.pc == CheckNodes(spec)
      modifies this, installer
      ensures Valid() && Continues(old(trail), trail)
      ensures if os.Some? then sys.pc == Deploy(spec, os.value) else sys.pc.Idle? && Queued(GPU, result)
    {
      hide Run, PreflightOf;
      var t := Interlude();
      ghost var before := sys;
      var pre := RunPreflight(if t.ok then Some(sys.nodes) else None);
      if pre.None? {
        result := Return(GPU, Erred);
        Committed(before, t);
        return None, result;
      }
      if pre.value.Proceed? {
        sys := sys.(pc := Deploy(spec, pre.value.os));
        Committed(before, t);
        return Some(pre.value.os), Finished;
      }
      sys := sys.(pc := Halt(pre.value));
      Committed(before, t);
      result := Stop(pre.value);
      os := None;
    }

    method Stop(p: Preflight) returns (result: Result)
      requires Valid() && sys.pc == Halt(p)
      modifies this, installer
      ensures Valid() && sys.pc.Idle? && Continues(old(trail), trail) && Queued(GPU, result)
    {
      hide Run, Machine.ApplyStatus, Only, VerdictReport;
      var t := Interlude();
      ghost var before := sys;
      var err := ApplyStatus(GPU, Only(VerdictReport(p)), t.ok);
      if err {
        result := Return(GPU, Erred);
      } else if p.Warn? {
        result := Return(GPU, RequeueAfter);
      } else {
        result := Return(GPU, Finished);
        sys := sys.(stopped := Some(p));
      }
      Committed(before, t);
    }

    /** installOrUpgrade: None once it has reported a failure itself. */
    method InstallOrUpgrade(spec: GpuSpec, os: OsType) returns (version: Option<string>, result: Result)
      requires Valid() && sys.pc == Deploy(spec, os)
      modifies this, installer
      ensures Valid() && Continues(old(trail), trail)
      ensures if version.Some? then sys.pc == ReadDrivers(os, version.value) else sys.pc.Idle? && Queued(GPU, result)
    {
      hide Run, Work, BuildValues, Helm.InstallOrUpgrade, Restarted;
      var t := Interlude();
      ghost var before := sys;
      version := None;
      var chart := sys.cfg.chart;
      DeployGives(sys, spec, os, t);
      if chart.None? {
        result := Return(GPU, Erred);
        Committed(before, t);
        return;
      }
      var config := LoadValues(spec, os);
      if config.None? {
        result := Return(GPU, Erred);
        Committed(before, t);
        return;
      }
      version, result := DeployChart(spec, os, t, chart.value, config.value);
    }

    /** The Helm call on the values built, which is how the deploy step ends. */
    method DeployChart(spec: GpuSpec, os: OsType, t: Turn, chart: string, config: Fields)
      returns (version: Option<string>, result: Result)
      requires Valid() && sys.pc == Deploy(spec, os) && sys.cfg.chart == Some(chart)
      requires (os.GardenLinux? ==> sys.cfg.base.Some?)
      requires config == BuildValues(if sys.cfg.base.Some? then sys.cfg.base.value else map[], spec, os)
      modifies this, installer
      ensures Valid() && Continues(old(trail), trail)
      ensures if version.Some? then sys.pc == ReadDrivers(os, version.value) else sys.pc.Idle? && Queued(GPU, result)
    {
      hide Run, Work, BuildValues, Helm.InstallOrUpgrade, Restarted;
      DeployGives(sys, spec, os, t);
      ghost var before := sys;
      var outcome := installer.Apply(chart, config, DeployOracle(sys, t));
      var h := installer.Ours();
      sys := sys.(helm := h, ns := Housing(sys.ns, h, t));
      version := None;
      match outcome
      case Error =>
        sys := sys.(pc := ReportHelm(os, t.error));
        Committed(before, t);
        result := ReportFailure(os, t.error);
      case Crash =>
        RestartQueues(sys, sys.cfg);
        sys := Restarted(sys, sys.cfg);
        Committed(before, t);
        result := Died;
      case _ =>
        sys := sys.(pc := ReadDrivers(os, chart));
        Committed(before, t);
        version, result := Some(chart), Finished;
    }

    /** BuildValues on fresh maps; None is its error. */
    method LoadValues(spec: GpuSpec, os: OsType) returns (config: Option<Fields>)
      ensures config == if os.GardenLinux? && sys.cfg.base.None? then None
                        else Some(BuildValues(if sys.cfg.base.Some? then sys.cfg.base.value else map[], spec, os))
    {
      hide BuildValues;
      var values := ValuesHeap.BuildValuesInPlace(sys.cfg.base, spec, os);
      if values.None? { return None; }
      var fields := ValuesHeap.Export(values.value);
      return Some(fields);
    }

    method ReportFailure(os: OsType, error: string) returns (result: Result)
      requires Valid() && sys.pc == ReportHelm(os, error)
      modifies this, installer
      ensures Valid() && sys.pc.Idle? && Continues(old(trail), trail) && Queued(GPU, result)
    {
      hide Run, Machine.ApplyStatus, HelmFailedUpdate;
      var t := Interlude();
      ghost var before := sys;
      var err := ApplyStatus(GPU, HelmFailedUpdate(os, error), t.ok);
      result := Return(GPU, Erred);
      Committed(before, t);
    }

    /** Driver DaemonSets, ClusterPolicy, and the full status. */
    method Report(os: OsType, version: string) returns (result: Result)
      requires Valid() && sys.pc == ReadDrivers(os, version)
      modifies this, installer
      ensures Valid() && sys.pc.Idle? && Continues(old(trail), trail) && Queued(GPU, result)
    {
      hide Run, DriverCheckOf;
      var t := Interlude();
      ghost var before := sys;
      var driver := CheckDriverDaemonSet(if t.ok then Got(sys.drivers) else ListFailed(t.error));
      sys := sys.(pc := ReadPolicy(os, version, driver));
      Committed(before, t);
      result := ReportWithPolicy(os, version, driver);
    }

    method ReportWithPolicy(os: OsType, version: string, driver: DriverCheck) returns (result: Result)
      requires Valid() && sys.pc == ReadPolicy(os, version, driver)
      modifies this, installer
      ensures Valid() && sys.pc.Idle? && Continues(old(trail), trail) && Queued(GPU, result)
    {
      hide Run, PolicyReport;
      var t := Interlude();
      ghost var before := sys;
      var validator := PolicyReport(if t.ok then Read(sys.policy) else ReadFailed(t.error));
      sys := sys.(pc := Publish(os, version, driver, validator));
      Committed(before, t);
      result := PublishAll(os, version, driver, validator);
    }

    method PublishAll(os: OsType, version: string, d: DriverCheck, v: Conditions.Report) returns (result: Result)
      requires Valid() && sys.pc == Publish(os, version, d, v)
      modifies this, installer
      ensures Valid() && sys.pc.Idle? && Continues(old(trail), trail) && Queued(GPU, result)
    {
      hide Run, Merge, FullUpdate, SetAll;
      var t := Interlude();
      ghost var before := sys;
      var u := FullUpdate(os, version, d, v);
      var live, now := Server(sys, GPU).obj, sys.now;
      var err := ApplyStatus(GPU, u, t.ok);
      if err {
        result := Return(GPU, Erred);
      } else {
        result := Return(GPU, RequeueAfter);
        sys := sys.(basis := if live.None? then sys.basis
                             else Some(SetAll(live.value.status.conditions, u.reports, live.value.gen, now)));
      }
      Committed(before, t);
    }

    method ReconcileDelete(n: string, read: View, t: Turn) returns (result: Result)
      requires Valid() && sys.pc == Fetch(n) && t.ok && read == Cached(sys, n) && read.obj.Some? && read.obj.value.deleting
      modifies this, installer
      ensures Valid() && sys.pc.Idle? && Continues(old(trail), trail) && Queued(n, result)
    {
      hide Run, Cached, Work, Gate;
      ghost var before := sys;
      FetchGates(sys, n, t);
      if !read.obj.value.ours {
        result := Return(n, Finished);
        Committed(before, t);
        return;
      }
      if n != GPU {
        sys := sys.(pc := FreeRogue(n, read));
        Committed(before, t);
        result := Release(n, read);
        return;
      }
      sys := sys.(pc := MarkUninstalling);
      Committed(before, t);
      result := Dismantle();
    }

    /** The stages of a guarded uninstall. */
    method Dismantle() returns (result: Result)
      requires Valid() && sys.pc == MarkUninstalling
      modifies this, installer
      ensures Valid() && sys.pc.Idle? && Continues(old(trail), trail) && Queued(GPU, result)
    {
      hide Run, Work;
      Announce();
      var listed, active := Guard();
      if active != [] {
        result := Block(active);
        return;
      }
      var removed: bool;
      removed, result := Uninstall();
      if !removed { return; }
      result := RemoveFinalizer();
    }

    /** Best effort: a failure to report does not stop the deletion. */
    method Announce()
      requires Valid() && sys.pc == MarkUninstalling
      modifies this, installer
      ensures Valid() && sys.pc == ListPods && Continues(old(trail), trail)
    {
      hide Run, Machine.ApplyStatus, Only;
      var t := Interlude();
      ghost var before := sys;
      var err := ApplyStatus(GPU, Only(UNINSTALLING_REPORT), t.ok);
      sys := sys.(pc := ListPods);
      Committed(before, t);
    }

    /** The workloads that block the deletion; none if they cannot be listed. */
    method Guard() returns (listed: bool, active: seq<(string, string)>)
      requires Valid() && sys.pc == ListPods
      modifies this, installer
      ensures Valid() && Continues(old(trail), trail)
      ensures sys.pc == if active == [] then RemoveRelease else ReportBlocked(active)
      ensures active == if listed then ActiveWorkloadsOf(sys.pods) else []
    {
      hide Run, ActiveWorkloadsOf;
      var t := Interlude();
      ghost var before := sys;
      listed, active := t.ok, [];
      if t.ok { active := DetectActiveWorkloads(sys.pods); }
      sys := sys.(pc := if active == [] then RemoveRelease else ReportBlocked(active));
      Committed(before, t);
    }

    method Block(active: seq<(string, string)>) returns (result: Result)
      requires Valid() && sys.pc == ReportBlocked(active)
      modifies this, installer
      ensures Valid() && sys.pc.Idle? && Continues(old(trail), trail) && Queued(GPU, result)
    {
      hide Run, Machine.ApplyStatus, BlockedUpdate;
      var t := Interlude();
      ghost var before := sys;
      var err := ApplyStatus(GPU, BlockedUpdate(active), t.ok);
      result := Return(GPU, RequeueAfter);
      Committed(before, t);
    }

    /** The release first, then its namespace. */
    method Uninstall() returns (removed: bool, result: Result)
      requires Valid() && sys.pc == RemoveRelease
      modifies this, installer
      ensures Valid() && Continues(old(trail), trail)
      ensures if removed then sys.pc == Refetch else sys.pc.Idle? && Queued(GPU, result)
    {
      hide Run, Work, Helm.UninstallRelease, Restarted;
      var t := Interlude();
      ghost var before := sys;
      RemovalGives(sys, t);
      var call := installer.Remove(t.removal);
      sys := sys.(helm := installer.Ours());
      match call {
        case Errored =>
          result := Return(GPU, Erred);
          Committed(before, t);
          removed := false;
        case Crashed =>
          RestartQueues(sys, sys.cfg);
          sys := Restarted(sys, sys.cfg);
          Committed(before, t);
          removed, result := false, Died;
        case Done =>
          sys := sys.(pc := Machine.DeleteNamespace);
          Committed(before, t);
          removed, result := DeleteNamespace();
      }
    }

    /** NotFound counts as success. */
    method DeleteNamespace() returns (removed: bool, result: Result)
      requires Valid() && sys.pc == Machine.DeleteNamespace
      modifies this, installer
      ensures Valid() && Continues(old(trail), trail)
      ensures if removed then sys.pc == Refetch else sys.pc.Idle? && Queued(GPU, result)
    {
      hide Run;
      var t := Interlude();
      ghost var before := sys;
      removed := t.ok;
      if t.ok {
        sys := sys.(ns := if sys.ns.Standing? then Terminating else sys.ns, pc := Refetch);
        result := Finished;
      } else {
        result := Return(GPU, Erred);
      }
      Committed(before, t);
    }

    method RemoveFinalizer() returns (result: Result)
      requires Valid() && sys.pc == Refetch
      modifies this, installer
      ensures Valid() && sys.pc.Idle? && Continues(old(trail), trail) && Queued(GPU, result)
    {
      hide Run, Cached;
      var t := Interlude();
      ghost var before := sys;
      var live := Cached(sys, GPU);
      if !t.ok || live.obj.None? {
        result := Return(GPU, if t.ok then Finished else Erred);
        Committed(before, t);
        return;
      }
      sys := sys.(pc := DropFinalizer(live));
      Committed(before, t);
      result := Release(GPU, live);
    }

    /** The update without our finalizer, for "gpu" after an uninstall and for any rogue CR. */
    method Release(n: string, read: View) returns (result: Result)
      requires Valid() && read.obj.Some?
      requires (sys.pc == DropFinalizer(read) && n == GPU) || sys.pc == FreeRogue(n, read)
      modifies this, installer
      ensures Valid() && sys.pc.Idle? && Continues(old(trail), trail) && Queued(n, result)
    {
      hide Run, Work, Released;
      var t := Interlude();
      ghost var before := sys;
      var obj := if read.obj.value.ours then Released(read.obj.value) else read.obj;
      ReleasedDiffers(read.obj.value);
      ReleaseGives(sys, n, read, t);
      var done := UpdateCr(n, read, obj, t.ok);
      result := Return(n, if done then Finished else Erred);
      Committed(before, t);
    }

    /** One turn of the work queue, with what the code guarantees whenever Reconcile returns. */
    method Serve(n: string) returns (result: Result)
      requires Valid() && sys.pc.Idle? && n in sys.pending
      modifies this, installer
      ensures Valid() && sys.pc.Idle? && Queued(n, result)
      ensures Helm.Visible(sys.helm) ==> HeldByGpu(sys)
      ensures Reporting.ReportsOk(sys)
    {
      hide Run, Reporting.ReportsOk, Helm.Visible, HeldByGpu;
      RunOneMore(start, trail, Take(n));
      sys, trail := StartStep(sys, n), trail + [Take(n)];
      result := Reconcile(n);
      NoVisibleOrphan(start, trail);
      Reporting.ReportsAreOk(start, trail);
    }
  }

  lemma RestartQueues(s: Sys, cfg: Config)
    ensures var r := Restarted(s, cfg); r.pending == ServerNames(r) && r.pc.Idle? && r.helm == s.helm
  {}

  lemma DeployGives(s: Sys, spec: GpuSpec, os: OsType, t: Turn)
    requires s.pc == Deploy(spec, os)
    ensures Work(s, t) ==
            if s.cfg.chart.None? || (os.GardenLinux? && s.cfg.base.None?) then Retry(s, GPU)
            else
              var base := if s.cfg.base.Some? then s.cfg.base.value else map[];
              var r := Helm.InstallOrUpgrade(s.helm, s.cfg.chart.value, BuildValues(base, spec, os), DeployOracle(s, t));
              var s1 := s.(helm := r.history, ns := Housing(s.ns, r.history, t));
              match r.outcome
              case Error => s1.(pc := ReportHelm(os, t.error))
              case Crash => Restarted(s1, s1.cfg)
              case _ => s1.(pc := ReadDrivers(os, s.cfg.chart.value))
  {
    hide Helm.InstallOrUpgrade, BuildValues, Restarted;
  }

  lemma RemovalGives(s: Sys, t: Turn)
    requires s.pc == RemoveRelease
    ensures Work(s, t) ==
            var (h, c) := Helm.UninstallRelease(s.helm, t.removal);
            match c
            case Done => s.(helm := h, pc := Machine.DeleteNamespace)
            case Errored => Retry(s.(helm := h), GPU)
            case Crashed => Restarted(s.(helm := h), s.cfg)
  {
    hide Helm.UninstallRelease, Restarted;
  }

  lemma FetchGates(s: Sys, n: string, t: Turn)
    requires s.pc == Fetch(n)
    ensures var read := Cached(s, n);
            && (t.ok && read.obj.Some? ==>
                  var cr := read.obj.value;
                  Work(s, t) == s.(pc := if cr.deleting && !cr.ours then Idle
                                         else if cr.deleting && n != GPU then FreeRogue(n, read)
                                         else if cr.deleting then MarkUninstalling
                                         else if n != GPU then MarkRogue(n)
                                         else if !cr.ours then AddFinalizer(read)
                                         else CheckNodes(cr.spec)))
            && (t.ok && read.obj.None? ==> Work(s, t) == Machine.Done(s))
            && (!t.ok ==> Work(s, t) == Retry(s, n))
  {
    hide Cached;
  }

  lemma ReleaseGives(s: Sys, n: string, read: View, t: Turn)
    requires (s.pc == DropFinalizer(read) && n == GPU) || s.pc == FreeRogue(n, read)
    ensures Work(s, t) == ReleaseStep(s, n, read, t)
  {
    hide ReleaseStep;
  }

  lemma ReleasedDiffers(cr: Cr)
    ensures cr.ours ==> Released(cr) != Some(cr)
  {}
}

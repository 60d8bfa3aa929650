/** What must have happened earlier in the same reconcile, for every run and every point in it. */
module Provenance {
  import opened Text
  import opened Values
  import opened Detection
  import opened Conditions
  import opened Cluster
  import opened Machine
  import opened Lifecycle
  import Helm

  /** The state after the first i events. */
  ghost function At(s: Sys, es: seq<Event>, i: nat): Sys
    requires i <= |es|
  {
    Run(s, es[..i])
  }

  lemma NextState(s: Sys, es: seq<Event>, i: nat)
    requires i < |es|
    ensures At(s, es, i + 1) == Step(At(s, es, i), es[i])
  {
    assert es[..i + 1][..i] == es[..i];
  }

  /** How many calls the worker makes in a run. */
  function WorkerSteps(es: seq<Event>): nat {
    if es == [] then 0 else WorkerSteps(es[..|es| - 1]) + if es[|es| - 1].Worker? then 1 else 0
  }

  /** All states from j to i belong to one reconcile: the worker is never idle in between. */
  ghost predicate SameReconcile(s: Sys, es: seq<Event>, j: nat, i: nat)
    requires i <= |es|
  {
    j <= i && forall k | j <= k <= i :: !At(s, es, k).pc.Idle?
  }

  /** The pc moves only by worker steps, by the start of a reconcile and by restarts. */
  lemma PcMoves(s: Sys, e: Event)
    ensures Step(s, e).pc == s.pc || Step(s, e).pc.Idle? || e.Worker? || (s.pc.Idle? && Step(s, e).pc.Fetch?)
  {
    hide Work, AfterNodeEvent, Fires, Possible, Server, Cached, Merge;
  }

  /** The step that brought the worker to where it is: it came from elsewhere and stayed since. */
  lemma {:induction false} Arrival(s: Sys, es: seq<Event>, i: nat) returns (j: nat)
    requires i <= |es| && At(s, es, 0).pc.Idle? && !At(s, es, i).pc.Idle?
    ensures j < i && At(s, es, j).pc != At(s, es, i).pc && At(s, es, j + 1).pc == At(s, es, i).pc
    ensures At(s, es, j + 1) == Step(At(s, es, j), es[j])
    ensures SameReconcile(s, es, j + 1, i)
    ensures es[j].Worker? || At(s, es, i).pc.Fetch?
  {
    hide Step, Run;
    NextState(s, es, i - 1);
    if At(s, es, i - 1).pc == At(s, es, i).pc {
      j := Arrival(s, es, i - 1);
    } else {
      j := i - 1;
      PcMoves(At(s, es, j), es[j]);
    }
  }

  // ---- where each stage is entered from ----

  /** The order of the calls of one reconcile. */
  predicate MayFollow(a: Pc, b: Pc) {
    match a
    case Fetch(n) =>
      b.Idle? || if n == GPU then b.AddFinalizer? || b.CheckNodes? || b.MarkUninstalling?
                 else (b.MarkRogue? || b.FreeRogue?) && b.n == n
    case CheckNodes(_) => b.Idle? || b.Halt? || b.Deploy?
    case Deploy(_, _) => b.Idle? || b.ReportHelm? || b.ReadDrivers?
    case ReadDrivers(_, _) => b.ReadPolicy?
    case ReadPolicy(_, _, _) => b.Publish?
    case MarkUninstalling => b.ListPods?
    case ListPods => b.RemoveRelease? || b.ReportBlocked?
    case RemoveRelease => b.Idle? || b.DeleteNamespace?
    case DeleteNamespace => b.Idle? || b.Refetch?
    case Refetch => b.Idle? || b.DropFinalizer?
    case _ => b.Idle?
  }

  lemma ReportsFollow(s: Sys, t: Turn)
    requires Reports(s.pc)
    ensures MayFollow(s.pc, Work(s, t).pc)
  {
    hide ApplyStatus, SetAll, Server, VerdictReport, FullUpdate, HelmFailedUpdate, Only, BlockedUpdate;
  }

  lemma HelmFollows(s: Sys, t: Turn)
    requires s.pc.Deploy? || s.pc.RemoveRelease?
    ensures MayFollow(s.pc, Work(s, t).pc)
  {
    hide Helm.InstallOrUpgrade, Helm.UninstallRelease, BuildValues;
  }

  lemma WorkFollows(s: Sys, t: Turn)
    ensures MayFollow(s.pc, Work(s, t).pc)
  {
    if Reports(s.pc) {
      ReportsFollow(s, t);
    } else if s.pc.Deploy? || s.pc.RemoveRelease? {
      HelmFollows(s, t);
    } else {
      hide ApplyStatus, DeployStep, RemoveReleaseStep, HaltStep, MarkRogueStep, ReportHelmStep, PublishStep,
           PreflightOf, DriverCheckOf, PolicyReport, ActiveWorkloadsOf, Cached, Server, Released;
    }
  }

  lemma EntersRemoval(s: Sys, t: Turn)
    requires Work(s, t).pc.RemoveRelease? && !s.pc.RemoveRelease?
    ensures s.pc.ListPods? && (!t.ok || ActiveWorkloadsOf(s.pods) == [])
  {
    hide Work, ActiveWorkloadsOf;
    WorkFollows(s, t);
    ListingPods(s, t);
  }

  lemma ListingPods(s: Sys, t: Turn)
    requires s.pc.ListPods?
    ensures Work(s, t).pc == if !t.ok || ActiveWorkloadsOf(s.pods) == [] then RemoveRelease
                             else ReportBlocked(ActiveWorkloadsOf(s.pods))
  {
    hide ActiveWorkloadsOf;
  }

  lemma EntersNamespace(s: Sys, t: Turn)
    requires Work(s, t).pc.DeleteNamespace? && !s.pc.DeleteNamespace?
    ensures s.pc.RemoveRelease? && Helm.UninstallRelease(s.helm, t.removal).1.Done?
  {
    hide Work, Helm.UninstallRelease;
    WorkFollows(s, t);
    RemovingRelease(s, t);
  }

  lemma RemovingRelease(s: Sys, t: Turn)
    requires s.pc.RemoveRelease?
    ensures Work(s, t).pc.DeleteNamespace? <==> Helm.UninstallRelease(s.helm, t.removal).1.Done?
  {
    hide Helm.UninstallRelease;
  }

  lemma EntersRefetch(s: Sys, t: Turn)
    requires Work(s, t).pc.Refetch? && !s.pc.Refetch?
    ensures s.pc.DeleteNamespace? && t.ok
  {
    hide Work;
    WorkFollows(s, t);
    DeletesHouse(s, t);
  }

  lemma EntersDrop(s: Sys, t: Turn)
    requires Work(s, t).pc.DropFinalizer? && s.pc != Work(s, t).pc
    ensures s.pc.Refetch?
  {
    hide Work;
    WorkFollows(s, t);
  }

  lemma EntersDeploy(s: Sys, t: Turn)
    requires Work(s, t).pc.Deploy? && s.pc != Work(s, t).pc
    ensures s.pc.CheckNodes? && t.ok && PreflightOf(s.nodes) == Proceed(Work(s, t).pc.os)
    ensures Work(s, t).pc.spec == s.pc.spec
  {
    hide Work, PreflightOf;
    WorkFollows(s, t);
    CheckingNodes(s, t);
  }

  lemma CheckingNodes(s: Sys, t: Turn)
    requires s.pc.CheckNodes?
    ensures Work(s, t) == CheckNodesStep(s, s.pc.spec, t)
  {}

  // ---- the theorems ----

  /** The worker's step j of the run, taken at a given stage. */
  ghost predicate WorkAt(es: seq<Event>, j: nat) { j < |es| && es[j].Worker? }

  /**
   * Whenever the release is about to be uninstalled, the pods were listed earlier in the same
   * reconcile, and that list failed or held no active GPU pod.
   */
  lemma UninstallIsGuarded(s: Sys, es: seq<Event>, i: nat) returns (j: nat)
    requires Initial(s) && i <= |es| && At(s, es, i).pc.RemoveRelease?
    ensures j < i && WorkAt(es, j) && At(s, es, j).pc.ListPods? && SameReconcile(s, es, j, i)
    ensures !es[j].turn.ok || forall p | p in At(s, es, j).pods :: !UsesGpu(p)
  {
    hide Work, Run, ActiveWorkloadsOf, UsesGpu;
    assert es[..0] == [];
    NothingYet(s, es);
    j := Arrival(s, es, i);
    EntersRemoval(At(s, es, j), es[j].turn);
    NothingActiveMeansNone(At(s, es, j).pods);
  }

  lemma NothingYet(s: Sys, es: seq<Event>)
    ensures At(s, es, 0) == s
  {}

  /**
   * Whenever our finalizer is about to be dropped from "gpu", an Uninstall returned nil and
   * after that the namespace delete succeeded, both in the same reconcile.
   */
  lemma FinalizerDropIsEarned(s: Sys, es: seq<Event>, i: nat) returns (u: nat, d: nat)
    requires Initial(s) && i <= |es| && At(s, es, i).pc.DropFinalizer?
    ensures u < d < i && WorkAt(es, u) && WorkAt(es, d) && SameReconcile(s, es, u, i)
    ensures At(s, es, u).pc.RemoveRelease?
            && Helm.UninstallRelease(At(s, es, u).helm, es[u].turn.removal).1.Done?
    ensures At(s, es, d).pc.DeleteNamespace? && es[d].turn.ok
  {
    hide Work, Run, Helm.UninstallRelease;
    NothingYet(s, es);
    var f := Arrival(s, es, i);
    EntersDrop(At(s, es, f), es[f].turn);
    d := Arrival(s, es, f);
    EntersRefetch(At(s, es, d), es[d].turn);
    u := Arrival(s, es, d);
    EntersNamespace(At(s, es, u), es[u].turn);
  }

  /**
   * Whenever Helm is about to be called to install or upgrade, it is with the OS a preflight
   * check of the same reconcile found on all GPU nodes, and with the spec read in it.
   */
  lemma DeployUsesCheckedOs(s: Sys, es: seq<Event>, i: nat) returns (j: nat)
    requires Initial(s) && i <= |es| && At(s, es, i).pc.Deploy?
    ensures j < i && WorkAt(es, j) && At(s, es, j).pc == CheckNodes(At(s, es, i).pc.spec) && SameReconcile(s, es, j, i)
    ensures HasGpuNode(At(s, es, j).nodes) && AllGpuNodesRun(At(s, es, j).nodes, At(s, es, i).pc.os)
  {
    hide Work, Run, PreflightOf, HasGpuNode, AllGpuNodesRun;
    NothingYet(s, es);
    j := Arrival(s, es, i);
    EntersDeploy(At(s, es, j), es[j].turn);
    PreflightMeans(At(s, es, j).nodes);
  }

  /** A reconcile is about one CR from its start to its end. */
  lemma SubjectStays(s: Sys, e: Event)
    requires !s.pc.Idle? && !Step(s, e).pc.Idle?
    ensures Subject(Step(s, e).pc) == Subject(s.pc)
  {
    hide Work, AfterNodeEvent, Possible, Fires, Server, Cached;
    if e.Worker? { WorkFollows(s, e.turn); }
  }

  lemma StartsWithTake(s: Sys, e: Event)
    requires s.pc.Idle? && !Step(s, e).pc.Idle?
    ensures e.Take? && Subject(Step(s, e).pc) == Some(e.n)
  {
    hide Work, AfterNodeEvent, Possible, Fires, Server, Cached;
    if e.Worker? { WorkFollows(s, e.turn); }
  }

  /**
   * Whatever call comes next, the reconcile it belongs to began by taking a request for the CR
   * the call is about: install, upgrade, uninstall and namespace deletion only for "gpu".
   */
  lemma {:induction false} CallsServeTheirRequest(s: Sys, es: seq<Event>, i: nat) returns (j: nat)
    requires Initial(s) && i <= |es| && !At(s, es, i).pc.Idle?
    ensures j < i && es[j].Take? && Subject(At(s, es, i).pc) == Some(es[j].n)
    ensures At(s, es, j).pc.Idle? && SameReconcile(s, es, j + 1, i)
    ensures At(s, es, i).pc.Deploy? || At(s, es, i).pc.RemoveRelease? || At(s, es, i).pc.DeleteNamespace? ==> es[j] == Take(GPU)
  {
    hide Step, Run;
    NothingYet(s, es);
    NextState(s, es, i - 1);
    if At(s, es, i - 1).pc.Idle? {
      j := i - 1;
      StartsWithTake(At(s, es, j), es[j]);
    } else {
      j := CallsServeTheirRequest(s, es, i - 1);
      SubjectStays(At(s, es, i - 1), es[i - 1]);
    }
  }
}

/** What the reconciler observes besides nodes: driver DaemonSets, the ClusterPolicy and GPU pods. */
module Cluster {
  import opened Values
  import opened Conditions

  // ---- driver DaemonSets ----

  /** A driver DaemonSet: its status counters and the images of its containers. */
  datatype DaemonSet = DaemonSet(desired: Int32, ready: Int32, available: Int32, updated: Int32, images: seq<string>)

  /** int32 addition. */
  function Add32(a: Int32, b: Int32): Int32 {
    var s := a + b;
    if s >= 0x8000_0000 then s - 0x1_0000_0000
    else if s < -0x8000_0000 then s + 0x1_0000_0000
    else s
  }

  /** strings.LastIndex of a character; -1 when absent. */
  function LastIndex(s: string, c: char): (i: int)
    ensures -1 <= i < |s|
    ensures i >= 0 ==> s[i] == c
    ensures forall j | i < j < |s| :: s[j] != c
  {
    if s == [] then -1
    else if s[|s| - 1] == c then |s| - 1
    else LastIndex(s[..|s| - 1], c)
  }

  /** The part of s before the first c; all of s when there is none. */
  function Before(s: string, c: char): (r: string)
    ensures r <= s && (forall i | 0 <= i < |r| :: r[i] != c) && (|r| < |s| ==> s[|r|] == c)
  {
    if s == [] || s[0] == c then [] else [s[0]] + Before(s[1..], c)
  }

  /** driverVersionFromDaemonSet. */
  function DriverVersion(ds: DaemonSet): string {
    if ds.images == [] then ""
    else
      var i := LastIndex(ds.images[0], ':');
      if i < 0 then "" else Before(ds.images[0][i + 1..], '-')
  }

  lemma {:induction false} LastIndexOf(head: string, c: char, tail: string)
    requires c !in tail
    ensures LastIndex(head + [c] + tail, c) == |head|
  {
    var s := head + [c] + tail;
    var i := LastIndex(s, c);
    assert s[|head|] == c;
    forall j | |head| < j < |s| ensures s[j] != c { assert s[j] == tail[j - |head| - 1]; }
  }

  lemma {:induction false} BeforeOf(head: string, c: char, tail: string)
    requires c !in head
    ensures Before(head + [c] + tail, c) == head
  {
    var s := head + [c] + tail;
    var r := Before(s, c);
    assert s[|head|] == c;
    forall j | 0 <= j < |head| ensures s[j] != c { assert s[j] == head[j]; }
    assert r == s[..|r|] == head[..|r|];
  }

  /** Without a tag there is no version; a tag without a dash is the version. */
  lemma DriverVersionOtherwise(repo: string, tag: string, ds: DaemonSet)
    ensures ds.images == [] || ':' !in ds.images[0] ==> DriverVersion(ds) == ""
    ensures ds.images != [] && ds.images[0] == repo + [':'] + tag && ':' !in tag && '-' !in tag ==> DriverVersion(ds) == tag
  {
    if ds.images != [] && ds.images[0] == repo + [':'] + tag && ':' !in tag && '-' !in tag {
      LastIndexOf(repo, ':', tag);
      assert ds.images[0][|repo| + 1..] == tag;
      assert Before(tag, '-') <= tag;
    }
  }

  /** The version is read back from any image that was put together as repository:version-os. */
  lemma DriverVersionReadsBack(repo: string, version: string, os: string, ds: DaemonSet)
    requires ':' !in version && '-' !in version && ':' !in os
    requires ds.images != [] && ds.images[0] == repo + [':'] + (version + ['-'] + os)
    ensures DriverVersion(ds) == version
  {
    hide LastIndex, Before;
    var tag := version + ['-'] + os;
    LastIndexOf(repo, ':', tag);
    assert ds.images[0][|repo| + 1..] == tag;
    BeforeOf(version, '-', os);
  }

  datatype DriverCheck = DriverCheck(status: Truth, reason: Why, message: Message, info: DriverStatus)

  datatype Totals = Totals(desired: Int32, ready: Int32, available: Int32, updated: Int32)

  function Total(dss: seq<DaemonSet>): Totals {
    if dss == [] then Totals(0, 0, 0, 0)
    else
      var t, d := Total(dss[..|dss| - 1]), dss[|dss| - 1];
      Totals(Add32(t.desired, d.desired), Add32(t.ready, d.ready),
             Add32(t.available, d.available), Add32(t.updated, d.updated))
  }

  /** The version all DaemonSets agree on, else empty. */
  function CommonVersion(dss: seq<DaemonSet>): string
    requires dss != []
  {
    if forall d | d in dss :: DriverVersion(d) == DriverVersion(dss[0]) then DriverVersion(dss[0]) else ""
  }

  const NO_DRIVER := DriverStatus("", 0)

  function CheckDrivers(dss: seq<DaemonSet>): DriverCheck {
    if dss == [] then DriverCheck(Unknown, Waiting, DriverNotFound, NO_DRIVER)
    else
      var t := Total(dss);
      var info := DriverStatus(CommonVersion(dss), t.ready);
      if t.desired == 0 then DriverCheck(Unknown, Waiting, DriverUnscheduled, info)
      else if t.ready < t.desired || t.available < t.desired || t.updated < t.desired
      then DriverCheck(Unknown, Progressing, DriverProgress(t.ready, t.desired, t.available, t.updated), info)
      else DriverCheck(True, Ready, DriverDone(t.ready, t.desired), info)
  }

  /** The check on a list call's result; the failed one carries the error text. */
  datatype Listed<T> = Got(items: seq<T>) | ListFailed(error: string)

  function DriverCheckOf(l: Listed<DaemonSet>): DriverCheck {
    match l
    case ListFailed(error) => DriverCheck(False, ReadError, DriverListFailed(error), NO_DRIVER)
    case Got(dss) => CheckDrivers(dss)
  }

  /** checkDriverDaemonSet. */
  method CheckDriverDaemonSet(l: Listed<DaemonSet>) returns (r: DriverCheck)
    ensures r == DriverCheckOf(l)
  {
    hide DriverVersion, Add32;
    if l.ListFailed? { return DriverCheck(False, ReadError, DriverListFailed(l.error), NO_DRIVER); }
    var dss := l.items;
    if |dss| == 0 { return DriverCheck(Unknown, Waiting, DriverNotFound, NO_DRIVER); }
    var desired: Int32, ready: Int32, available: Int32, updated: Int32 := 0, 0, 0, 0;
    for i := 0 to |dss|
      invariant Totals(desired, ready, available, updated) == Total(dss[..i])
    {
      assert dss[..i + 1][..i] == dss[..i];
      desired := Add32(desired, dss[i].desired);
      ready := Add32(ready, dss[i].ready);
      available := Add32(available, dss[i].available);
      updated := Add32(updated, dss[i].updated);
    }
    assert dss[..|dss|] == dss;
    var version := DriverVersion(dss[0]);
    for i := 1 to |dss|
      invariant version == DriverVersion(dss[0])
      invariant forall j | 0 <= j < i :: DriverVersion(dss[j]) == version
    {
      if DriverVersion(dss[i]) != version {
        version := "";
        assert dss[i] in dss;
        break;
      }
    }
    assert version == CommonVersion(dss);
    var info := DriverStatus(version, ready);
    if desired == 0 { return DriverCheck(Unknown, Waiting, DriverUnscheduled, info); }
    if ready < desired || available < desired || updated < desired {
      return DriverCheck(Unknown, Progressing, DriverProgress(ready, desired, available, updated), info);
    }
    return DriverCheck(True, Ready, DriverDone(ready, desired), info);
  }

  // ---- the aggregation is exact ----

  function SumDesired(dss: seq<DaemonSet>): int {
    if dss == [] then 0 else SumDesired(dss[..|dss| - 1]) + dss[|dss| - 1].desired
  }

  predicate Sane(d: DaemonSet) {
    0 <= d.ready <= d.desired && 0 <= d.available <= d.desired && 0 <= d.updated <= d.desired
  }

  predicate Complete(d: DaemonSet) {
    d.ready == d.desired && d.available == d.desired && d.updated == d.desired
  }

  lemma {:induction false} TotalsAreExact(dss: seq<DaemonSet>)
    requires (forall d | d in dss :: Sane(d)) && SumDesired(dss) < 0x8000_0000
    ensures Total(dss).desired == SumDesired(dss)
    ensures 0 <= Total(dss).ready <= SumDesired(dss)
    ensures 0 <= Total(dss).available <= SumDesired(dss)
    ensures 0 <= Total(dss).updated <= SumDesired(dss)
    ensures var t := Total(dss);
            t.ready == t.desired && t.available == t.desired && t.updated == t.desired
            <==> forall d | d in dss :: Complete(d)
    ensures SumDesired(dss) == 0 <==> forall d | d in dss :: d.desired == 0
  {
    if dss != [] {
      var init, last := dss[..|dss| - 1], dss[|dss| - 1];
      assert dss == init + [last] && last in dss && Sane(last);
      TotalsAreExact(init);
    }
  }

  predicate AllSane(dss: seq<DaemonSet>) { forall d | d in dss :: Sane(d) }

  predicate SomeDesired(dss: seq<DaemonSet>) { exists d :: d in dss && d.desired > 0 }

  predicate AllComplete(dss: seq<DaemonSet>) { forall d | d in dss :: Complete(d) }

  /** DriverReady is True exactly when some node is to run a driver and every DaemonSet by itself is complete. */
  predicate JudgedExactly(dss: seq<DaemonSet>) {
    CheckDrivers(dss).status.True? <==> SomeDesired(dss) && AllComplete(dss)
  }

  lemma DriverReadyIsExact(dss: seq<DaemonSet>)
    requires AllSane(dss) && SumDesired(dss) < 0x8000_0000
    ensures JudgedExactly(dss) && !CheckDrivers(dss).status.False?
  {
    TotalsAreExact(dss);
    if !(forall d | d in dss :: d.desired == 0) {
      var d :| d in dss && d.desired != 0;
      assert Sane(d);
    }
  }

  /** A counter summed over the list, without any bound. */
  function Sum(dss: seq<DaemonSet>, counter: DaemonSet -> int): int {
    if dss == [] then 0 else Sum(dss[..|dss| - 1], counter) + counter(dss[|dss| - 1])
  }

  lemma SumOneMore(init: seq<DaemonSet>, last: DaemonSet, counter: DaemonSet -> int)
    ensures Sum(init + [last], counter) == Sum(init, counter) + counter(last)
  {
    var dss := init + [last];
    assert dss[..|dss| - 1] == init;
  }

  lemma {:induction false} TotalsAreSums(dss: seq<DaemonSet>)
    requires AllSane(dss) && SumDesired(dss) < 0x8000_0000
    ensures var t := Total(dss);
            && t.desired == SumDesired(dss) == Sum(dss, (d: DaemonSet) => d.desired)
            && t.ready == Sum(dss, (d: DaemonSet) => d.ready)
            && t.available == Sum(dss, (d: DaemonSet) => d.available)
            && t.updated == Sum(dss, (d: DaemonSet) => d.updated)
  {
    TotalsAreExact(dss);
    if dss != [] {
      var init, last := dss[..|dss| - 1], dss[|dss| - 1];
      assert dss == init + [last];
      OneMore(init, last);
      SumOneMore(init, last, (d: DaemonSet) => d.desired);
      SumOneMore(init, last, (d: DaemonSet) => d.ready);
      SumOneMore(init, last, (d: DaemonSet) => d.available);
      SumOneMore(init, last, (d: DaemonSet) => d.updated);
      TotalsAreSums(init);
      TotalsAreExact(init);
      hide Sum, Total, SumDesired, AllSane, SomeDesired, AllComplete;
    }
  }

  /** The whole outcome of the check, counts included, within the bound. */
  lemma DriverCheckTells(dss: seq<DaemonSet>)
    requires AllSane(dss) && SumDesired(dss) < 0x8000_0000
    ensures var c := CheckDrivers(dss);
            var desired, ready := Sum(dss, (d: DaemonSet) => d.desired), Sum(dss, (d: DaemonSet) => d.ready);
            var available, updated := Sum(dss, (d: DaemonSet) => d.available), Sum(dss, (d: DaemonSet) => d.updated);
            && c.info.nodesReady == ready
            && if dss == [] then c.status == Unknown && c.reason == Waiting && c.message == DriverNotFound && c.info.version == ""
               else if !SomeDesired(dss) then c.status == Unknown && c.reason == Waiting && c.message == DriverUnscheduled
               else if AllComplete(dss) then c.status == True && c.reason == Ready && c.message == DriverDone(ready, desired)
               else c.status == Unknown && c.reason == Progressing
                    && c.message == DriverProgress(ready, desired, available, updated)
  {
    TotalsAreSums(dss);
    DriverReadyIsExact(dss);
    TotalsAreExact(dss);
    if SomeDesired(dss) {
      var d :| d in dss && d.desired > 0;
      assert !(forall d | d in dss :: d.desired == 0);
    }
    hide Total, Sum, CommonVersion, Sane, Complete;
  }

  /** A failed list is a read error, and clears what was known of the driver. */
  lemma FailedListTells(error: string)
    ensures DriverCheckOf(ListFailed(error)) == DriverCheck(False, ReadError, DriverListFailed(error), DriverStatus("", 0))
  {}

  /** A sum of int32 values as the machine holds it. */
  function Wrap(n: int): Int32 { (n + 0x8000_0000) % 0x1_0000_0000 - 0x8000_0000 }

  lemma WrapAdds(a: int, b: Int32)
    ensures Add32(Wrap(a), b) == Wrap(a + b)
  {
    var q := (a + 0x8000_0000) / 0x1_0000_0000;
    var s := a + b - 0x1_0000_0000 * q;
    var k := if s >= 0x8000_0000 then q + 1 else if s < -0x8000_0000 then q - 1 else q;
    assert a + b + 0x8000_0000 == 0x1_0000_0000 * k + (Add32(Wrap(a), b) + 0x8000_0000);
    WrapOf(a + b, k, Add32(Wrap(a), b));
  }

  lemma WrapOf(n: int, k: int, w: Int32)
    requires n == 0x1_0000_0000 * k + w
    ensures Wrap(n) == w
  {}

  /** Sane DaemonSets that want total nodes, of which done are ready, available and updated. */
  function Fill(total: nat, done: nat): seq<DaemonSet>
    requires done <= total
    decreases total
  {
    if total == 0 then []
    else
      var d: Int32 := if total < 0x8000_0000 then total else 0x7fff_ffff;
      var x: Int32 := if done < d then done else d;
      Fill(total - d, done - x) + [DaemonSet(d, x, x, x, [])]
  }

  lemma OneMore(init: seq<DaemonSet>, last: DaemonSet)
    ensures var dss := init + [last];
            && SumDesired(dss) == SumDesired(init) + last.desired
            && Total(dss) == AddOne(Total(init), last)
            && (AllSane(dss) <==> AllSane(init) && Sane(last))
            && (SomeDesired(dss) <==> SomeDesired(init) || last.desired > 0)
            && (AllComplete(dss) <==> AllComplete(init) && Complete(last))
  {
    var dss := init + [last];
    assert dss[..|dss| - 1] == init && dss[|dss| - 1] == last;
    assert forall d :: d in dss <==> d in init || d == last;
    hide Sane, Complete, Add32;
  }

  lemma {:induction false} FillTotals(total: nat, done: nat)
    requires done <= total
    ensures var dss := Fill(total, done);
            && AllSane(dss) && SumDesired(dss) == total
            && Total(dss) == Totals(Wrap(total), Wrap(done), Wrap(done), Wrap(done))
            && (total > 0 ==> SomeDesired(dss)) && (done == total <==> AllComplete(dss))
    decreases total
  {
    hide Wrap, Add32, AllSane, SomeDesired, AllComplete, SumDesired, Total;
    if total == 0 {
      WrapOf(0, 0, 0);
      NoneAreFine();
    } else {
      var last := Fill(total, done)[|Fill(total, done)| - 1];
      FillTotals(total - last.desired, done - last.ready);
      OneMore(Fill(total - last.desired, done - last.ready), last);
      WrapAdds(total - last.desired, last.desired);
      WrapAdds(done - last.ready, last.ready);
    }
  }

  lemma NoneAreFine()
    ensures AllSane([]) && AllComplete([]) && SumDesired([]) == 0 && Total([]) == Totals(0, 0, 0, 0)
  {}

  /** Lists that want a given number of nodes in all are all judged exactly if and only if that number fits int32. */
  lemma ExactIffTotalFits(total: nat)
    ensures (forall dss | AllSane(dss) && SumDesired(dss) == total :: JudgedExactly(dss)) <==> total < 0x8000_0000
  {
    hide AllSane, SumDesired, JudgedExactly;
    if total < 0x8000_0000 {
      forall dss | AllSane(dss) && SumDesired(dss) == total ensures JudgedExactly(dss) { DriverReadyIsExact(dss); }
    } else {
      var dss := MisjudgedFill(total);
    }
  }

  lemma MisjudgedFill(total: nat) returns (dss: seq<DaemonSet>)
    requires total >= 0x8000_0000
    ensures AllSane(dss) && SumDesired(dss) == total && !JudgedExactly(dss)
  {
    var w := Wrap(total);
    var done := if w < 0 then 0 else if w == 0 then total else w;
    dss := Fill(total, done);
    FillTotals(total, done);
    WrapOf(done, if w == 0 then total / 0x1_0000_0000 else 0, if w == 0 then 0 else done);
    assert dss != [];
    hide Wrap, Fill, Total, AllSane, SumDesired, SomeDesired, AllComplete;
  }

  /** Outside the bound the sums wrap, and an incomplete DaemonSet can go unnoticed. */
  lemma DriverReadyCanWrap()
    ensures exists dss :: (forall d | d in dss :: Sane(d)) && CheckDrivers(dss).status.True?
                          && exists d :: d in dss && !Complete(d)
  {
    var big := DaemonSet(0x7fff_ffff, 0, 0, 0, []);
    var dss := [big, big, DaemonSet(5, 5, 5, 5, [])];
    assert dss[..2] == [big, big] && dss[..2][..1] == [big] && dss[..2][..1][..0] == [];
    assert Total([big]) == Totals(0x7fff_ffff, 0, 0, 0);
    assert Total(dss[..2]) == Totals(-2, 0, 0, 0);
    assert Total(dss) == Totals(3, 5, 5, 5);
    assert big in dss && !Complete(big);
    assert CheckDrivers(dss).status.True?;
  }

  // ---- list order is irrelevant ----

  lemma Add32Commutes(a: Int32, b: Int32, c: Int32)
    ensures Add32(Add32(a, b), c) == Add32(Add32(a, c), b)
  {}

  function AddOne(t: Totals, d: DaemonSet): Totals {
    Totals(Add32(t.desired, d.desired), Add32(t.ready, d.ready),
           Add32(t.available, d.available), Add32(t.updated, d.updated))
  }

  /** Any element can be taken out and added last. */
  lemma {:induction false} TotalTakeOut(dss: seq<DaemonSet>, i: nat)
    requires i < |dss|
    ensures Total(dss) == AddOne(Total(dss[..i] + dss[i + 1..]), dss[i])
  {
    if i == |dss| - 1 {
      assert dss[..i] + dss[i + 1..] == dss[..|dss| - 1];
    } else {
      var init, last := dss[..|dss| - 1], dss[|dss| - 1];
      var rest := dss[..i] + dss[i + 1..];
      TotalTakeOut(init, i);
      assert rest[..|rest| - 1] == init[..i] + init[i + 1..];
      var t := Total(init[..i] + init[i + 1..]);
      Add32Commutes(t.desired, dss[i].desired, last.desired);
      Add32Commutes(t.ready, dss[i].ready, last.ready);
      Add32Commutes(t.available, dss[i].available, last.available);
      Add32Commutes(t.updated, dss[i].updated, last.updated);
    }
  }

  lemma {:induction false} TotalIgnoresOrder(a: seq<DaemonSet>, b: seq<DaemonSet>)
    requires multiset(a) == multiset(b)
    ensures Total(a) == Total(b)
  {
    if a == [] {
      assert |b| == |multiset(b)| == 0;
    } else {
      var last := a[|a| - 1];
      assert last in multiset(b);
      var i :| 0 <= i < |b| && b[i] == last;
      var rest := b[..i] + b[i + 1..];
      assert b == b[..i] + [b[i]] + b[i + 1..];
      assert a == a[..|a| - 1] + [last];
      assert multiset(rest) == multiset(b) - multiset{last} == multiset(a[..|a| - 1]);
      TotalIgnoresOrder(a[..|a| - 1], rest);
      TotalTakeOut(b, i);
    }
  }

  /** Status, reason, counts and reported version do not depend on the order of the list. */
  lemma DriverCheckIgnoresOrder(a: seq<DaemonSet>, b: seq<DaemonSet>)
    requires multiset(a) == multiset(b)
    ensures CheckDrivers(a) == CheckDrivers(b)
  {
    TotalIgnoresOrder(a, b);
    assert |a| == |multiset(a)| == |multiset(b)| == |b|;
    forall d ensures d in a <==> d in b {
      assert d in a <==> d in multiset(a);
      assert d in b <==> d in multiset(b);
    }
    if a != [] {
      assert a[0] in b && b[0] in a;
    }
  }

  predicate AllGive(dss: seq<DaemonSet>, version: string) { forall d | d in dss :: DriverVersion(d) == version }

  /** The version reported is the one every DaemonSet's image gives, and none if they differ. */
  lemma ReportedVersionIsCommon(dss: seq<DaemonSet>)
    requires dss != []
    ensures var v := CheckDrivers(dss).info.version;
            && (AllGive(dss, v) || v == "") && forall w | AllGive(dss, w) :: v == w
  {
    hide DriverVersion, Total;
    assert CheckDrivers(dss).info.version == CommonVersion(dss);
    assert dss[0] in dss;
    hide CheckDrivers;
  }

  // ---- ClusterPolicy ----

  datatype Policy = Absent | Policy(state: string)

  datatype PolicyRead = Read(policy: Policy) | ReadFailed(error: string)

  /** checkClusterPolicy. */
  function PolicyReport(r: PolicyRead): Report {
    match r
    case ReadFailed(error) => Report(CondValidatorPassed, False, ReadError, PolicyReadFailed(error))
    case Read(Absent) => Report(CondValidatorPassed, Unknown, Waiting, PolicyNotFound)
    case Read(Policy(state)) =>
      if state == "ready" then Report(CondValidatorPassed, True, Ready, PolicyState(state))
      else if state == "ignored" then Report(CondValidatorPassed, Unknown, Waiting, PolicyState(state))
      else Report(CondValidatorPassed, Unknown, Progressing, PolicyState(state))
  }

  /** The validator has passed exactly if the policy says "ready"; only a failed read is False. */
  lemma PolicyTells(r: PolicyRead)
    ensures var p := PolicyReport(r);
            && p.kind == CondValidatorPassed
            && (p.status == True <==> r == Read(Policy("ready")))
            && (p.status == True ==> p.reason == Ready)
            && (p.status == False <==> r.ReadFailed?)
            && (r.ReadFailed? ==> p.reason == ReadError && p.message == PolicyReadFailed(r.error))
            && (p.status == Unknown ==>
                  p.reason == if r == Read(Absent) || r == Read(Policy("ignored")) then Waiting else Progressing)
            && (r.Read? ==> p.message == match r.policy case Absent => PolicyNotFound case Policy(state) => PolicyState(state))
  {}

  // ---- GPU workloads ----

  datatype Phase = Running | Pending | Succeeded | PodFailed | PhaseUnknown

  /** A container is represented by the names of its resource limits. */
  datatype Pod = Pod(namespace: string, name: string, terminating: bool, phase: Phase,
                     containers: seq<set<string>>, initContainers: seq<set<string>>)

  const OPERATOR_NAMESPACE := "gpu-operator"
  const GPU_RESOURCE := "nvidia.com/gpu"

  predicate HasGpuLimit(containers: seq<set<string>>) {
    exists i, n :: 0 <= i < |containers| && n in containers[i] && GPU_RESOURCE <= n
  }

  /** podRequestsGPU. */
  predicate RequestsGpu(p: Pod) { HasGpuLimit(p.containers) || HasGpuLimit(p.initContainers) }

  predicate Active(p: Pod) {
    p.namespace != OPERATOR_NAMESPACE && !p.terminating && (p.phase.Running? || p.phase.Pending?) && RequestsGpu(p)
  }

  function ActiveWorkloadsOf(pods: seq<Pod>): seq<(string, string)> {
    if pods == [] then []
    else ActiveWorkloadsOf(pods[..|pods| - 1])
         + if Active(pods[|pods| - 1]) then [(pods[|pods| - 1].namespace, pods[|pods| - 1].name)] else []
  }

  /** detectActiveGPUWorkloads on a listed pod list. */
  method DetectActiveWorkloads(pods: seq<Pod>) returns (active: seq<(string, string)>)
    ensures active == ActiveWorkloadsOf(pods)
  {
    active := [];
    for i := 0 to |pods|
      invariant active == ActiveWorkloadsOf(pods[..i])
    {
      assert pods[..i + 1][..i] == pods[..i];
      var pod := pods[i];
      if pod.namespace == OPERATOR_NAMESPACE { continue; }
      if pod.terminating { continue; }
      if pod.phase != Running && pod.phase != Pending { continue; }
      if RequestsGpu(pod) {
        active := active + [(pod.namespace, pod.name)];
      }
    }
    assert pods[..|pods|] == pods;
  }

  /** Some container or init container has a limit on a GPU resource. */
  ghost predicate HoldsGpu(p: Pod) {
    || (exists i, n :: 0 <= i < |p.containers| && n in p.containers[i] && "nvidia.com/gpu" <= n)
    || (exists i, n :: 0 <= i < |p.initContainers| && n in p.initContainers[i] && "nvidia.com/gpu" <= n)
  }

  /** The pod would lose its GPU: it runs or is about to, elsewhere, and is not already going away. */
  ghost predicate UsesGpu(p: Pod) {
    p.namespace != "gpu-operator" && (p.phase == Running || p.phase == Pending) && !p.terminating && HoldsGpu(p)
  }

  lemma ActiveMeans(p: Pod)
    ensures Active(p) <==> UsesGpu(p)
  {}

  /** positions[k] is where the k-th of the workloads detected among the first n pods sits in the list. */
  ghost predicate ListsExactly(pods: seq<Pod>, n: nat, active: seq<(string, string)>, positions: seq<nat>)
    requires n <= |pods|
  {
    && |positions| == |active|
    && (forall k | 0 <= k < |positions| :: positions[k] < n && UsesGpu(pods[positions[k]])
          && active[k] == (pods[positions[k]].namespace, pods[positions[k]].name))
    && (forall j, k | 0 <= j < k < |positions| :: positions[j] < positions[k])
    && (forall i: nat | i < n && UsesGpu(pods[i]) :: i in positions)
  }

  lemma {:induction false} WorkloadsAmongFirst(pods: seq<Pod>, n: nat) returns (positions: seq<nat>)
    requires n <= |pods|
    ensures ListsExactly(pods, n, ActiveWorkloadsOf(pods[..n]), positions)
  {
    hide Active, UsesGpu;
    forall p ensures Active(p) <==> UsesGpu(p) { ActiveMeans(p); }
    if n == 0 {
      positions := [];
    } else {
      positions := WorkloadsAmongFirst(pods, n - 1);
      assert pods[..n][..n - 1] == pods[..n - 1] && pods[..n][n - 1] == pods[n - 1];
      if Active(pods[n - 1]) {
        assert forall i: nat | i in positions + [n - 1] :: i in positions || i == n - 1;
        positions := positions + [n - 1];
        assert positions[|positions| - 1] == n - 1;
      }
    }
  }

  /** The detected list is exactly the active GPU pods, in the order of the pod list. */
  lemma WorkloadsAreExact(pods: seq<Pod>) returns (positions: seq<nat>)
    ensures ListsExactly(pods, |pods|, ActiveWorkloadsOf(pods), positions)
  {
    positions := WorkloadsAmongFirst(pods, |pods|);
    assert pods[..|pods|] == pods;
  }

  lemma NothingActiveMeansNone(pods: seq<Pod>)
    ensures ActiveWorkloadsOf(pods) == [] <==> forall p | p in pods :: !UsesGpu(p)
    ensures forall p | p in pods && UsesGpu(p) :: (p.namespace, p.name) in ActiveWorkloadsOf(pods)
  {
    hide Active, UsesGpu, ActiveWorkloadsOf;
    forall p ensures Active(p) <==> UsesGpu(p) { ActiveMeans(p); }
    var positions := WorkloadsAreExact(pods);
    if ActiveWorkloadsOf(pods) != [] {
      assert pods[positions[0]] in pods;
    }
  }
}

/** Status conditions: how a partial update merges into them, and the Ready summary. */
module Conditions {
  import opened Text
  import opened Values
  import opened Detection

  datatype CondType =
    | CondReady | CondPreflight | CondHelmInstalled | CondDriverReady | CondValidatorPassed
    | CondWorkloadProtection

  datatype Truth = True | Unknown | False

  datatype Why =
    | Waiting | Progressing | Ready | Passed | Failed | Installed | Uninstalling | ReadError
    | ForbiddenName | ActiveWorkloads

  /** Message texts, by format and arguments. */
  datatype Message =
    | Empty | Operational | OnlySingleton
    | PreflightSays(reason: Reason) | AllNodesRun(os: OsType)
    | HelmFailed(error: string) | VersionInstalled(version: string) | UninstallingOperator
    | DeletionBlocked(pods: seq<(string, string)>)
    | DriverListFailed(error: string) | DriverNotFound | DriverUnscheduled
    | DriverProgress(ready: int, desired: int, available: int, updated: int)
    | DriverDone(ready: int, desired: int)
    | PolicyNotFound | PolicyReadFailed(error: string) | PolicyState(state: string)

  datatype Condition = Condition(kind: CondType, status: Truth, reason: Why, message: Message, gen: nat, since: nat)

  /** A condition as the reconciler reports it: generation and time are filled in on merging. */
  datatype Report = Report(kind: CondType, status: Truth, reason: Why, message: Message)

  /** The first condition of a type: FindStatusCondition. */
  function Find(cs: seq<Condition>, k: CondType): (r: Option<Condition>)
    ensures r.Some? ==> r.value in cs && r.value.kind == k
    ensures r.None? ==> forall c | c in cs :: c.kind != k
  {
    if cs == [] then None
    else if cs[0].kind == k then Some(cs[0])
    else Find(cs[1..], k)
  }

  function Merged(old_: Option<Condition>, r: Report, gen: nat, now: nat): Condition {
    Condition(r.kind, r.status, r.reason, r.message, gen,
              if old_.Some? && old_.value.status == r.status then old_.value.since else now)
  }

  /** SetStatusCondition: in place when the type is present, appended otherwise. */
  function SetCondition(cs: seq<Condition>, r: Report, gen: nat, now: nat): seq<Condition> {
    if cs == [] then [Merged(None, r, gen, now)]
    else if cs[0].kind == r.kind then [Merged(Some(cs[0]), r, gen, now)] + cs[1..]
    else [cs[0]] + SetCondition(cs[1..], r, gen, now)
  }

  function SetAll(cs: seq<Condition>, rs: seq<Report>, gen: nat, now: nat): seq<Condition>
    decreases |rs|
  {
    if rs == [] then cs else SetAll(SetCondition(cs, rs[0], gen, now), rs[1..], gen, now)
  }

  // ---- the Ready summary ----

  const MANAGED: seq<CondType> := [CondPreflight, CondHelmInstalled, CondDriverReady, CondValidatorPassed]

  function FirstFalse(cs: seq<Condition>, i: nat): (r: nat)
    requires i <= 4
    decreases 4 - i
  {
    if i == 4 then 4
    else if Find(cs, MANAGED[i]).Some? && Find(cs, MANAGED[i]).value.status.False? then i
    else FirstFalse(cs, i + 1)
  }

  function FirstUnknown(cs: seq<Condition>, i: nat): (r: nat)
    requires i <= 4
    decreases 4 - i
  {
    if i == 4 then 4
    else if Find(cs, MANAGED[i]).None? || Find(cs, MANAGED[i]).value.status.Unknown? then i
    else FirstUnknown(cs, i + 1)
  }

  /** computeReadySummary: a pass for the first False, then one for the first Unknown or missing. */
  function ReadySummary(cs: seq<Condition>): Report {
    var f := FirstFalse(cs, 0);
    if f < 4 && Find(cs, MANAGED[f]).Some? then
      var c := Find(cs, MANAGED[f]).value;
      Report(CondReady, False, c.reason, c.message)
    else
      var u := FirstUnknown(cs, 0);
      if u < 4 then
        match Find(cs, MANAGED[u])
        case None => Report(CondReady, Unknown, Waiting, Empty)
        case Some(c) => Report(CondReady, Unknown, c.reason, c.message)
      else Report(CondReady, True, Ready, Operational)
  }

  /** The order False < Unknown or absent < True. */
  function Rank(c: Option<Condition>): nat {
    if c.None? then 1 else RankOf(c.value.status)
  }

  function RankOf(t: Truth): nat {
    match t case False => 0 case Unknown => 1 case True => 2
  }

  /** Input i decides: no input ranks lower and none of the same rank comes before it. */
  ghost predicate Decides(cs: seq<Condition>, i: nat) {
    i < 4 && forall j | 0 <= j < 4 ::
      Rank(Find(cs, MANAGED[i])) < Rank(Find(cs, MANAGED[j]))
      || (Rank(Find(cs, MANAGED[i])) == Rank(Find(cs, MANAGED[j])) && i <= j)
  }

  lemma {:induction false} FirstFalseIsFirst(cs: seq<Condition>, i: nat)
    requires i <= 4
    ensures i <= FirstFalse(cs, i) <= 4
    ensures FirstFalse(cs, i) < 4 ==> Rank(Find(cs, MANAGED[FirstFalse(cs, i)])) == 0
    ensures forall j | i <= j < FirstFalse(cs, i) :: Rank(Find(cs, MANAGED[j])) > 0
    decreases 4 - i
  {
    if i < 4 { FirstFalseIsFirst(cs, i + 1); }
  }

  lemma {:induction false} FirstUnknownIsFirst(cs: seq<Condition>, i: nat)
    requires i <= 4
    ensures i <= FirstUnknown(cs, i) <= 4
    ensures FirstUnknown(cs, i) < 4 ==> Rank(Find(cs, MANAGED[FirstUnknown(cs, i)])) == 1
    ensures forall j | i <= j < FirstUnknown(cs, i) :: Rank(Find(cs, MANAGED[j])) != 1
    decreases 4 - i
  {
    if i < 4 { FirstUnknownIsFirst(cs, i + 1); }
  }

  /**
   * The two passes find the minimum: the summary has the rank of the deciding input and,
   * unless all four are True, that input's reason and message.
   */
  lemma SummaryIsMinimum(cs: seq<Condition>) returns (i: nat)
    ensures Decides(cs, i)
    ensures var s, c := ReadySummary(cs), Find(cs, MANAGED[i]);
            && s.kind == CondReady && RankOf(s.status) == Rank(c)
            && (Rank(c) < 2 && c.Some? ==> s.reason == c.value.reason && s.message == c.value.message)
            && (c.None? ==> s.reason == Waiting && s.message == Empty)
            && (Rank(c) == 2 ==> s.reason == Ready && s.message == Operational)
  {
    FirstFalseIsFirst(cs, 0);
    FirstUnknownIsFirst(cs, 0);
    var f, u := FirstFalse(cs, 0), FirstUnknown(cs, 0);
    i := if f < 4 then f else if u < 4 then u else 0;
  }

  lemma ReadyIsReady(cs: seq<Condition>)
    ensures ReadySummary(cs).kind == CondReady
  {
    var i := SummaryIsMinimum(cs);
  }

  lemma RaisingNeverLowers(a: seq<Condition>, b: seq<Condition>)
    requires forall j | 0 <= j < 4 :: Rank(Find(a, MANAGED[j])) <= Rank(Find(b, MANAGED[j]))
    ensures RankOf(ReadySummary(a).status) <= RankOf(ReadySummary(b).status)
  {
    var i := SummaryIsMinimum(a);
    var j := SummaryIsMinimum(b);
  }

  ghost predicate SameInputs(a: seq<Condition>, b: seq<Condition>) {
    forall j | 0 <= j < 4 :: Find(a, MANAGED[j]) == Find(b, MANAGED[j])
  }

  lemma SameInputsSameSummary(a: seq<Condition>, b: seq<Condition>)
    requires SameInputs(a, b)
    ensures ReadySummary(a) == ReadySummary(b)
  {
    var i := SummaryIsMinimum(a);
    var j := SummaryIsMinimum(b);
    assert i == j;
  }

  // ---- properties of the list ----

  ghost predicate UniqueKinds(cs: seq<Condition>) {
    forall i, j | 0 <= i < j < |cs| :: cs[i].kind != cs[j].kind
  }

  lemma {:induction false} FindIn(cs: seq<Condition>, c: Condition)
    requires UniqueKinds(cs) && c in cs
    ensures Find(cs, c.kind) == Some(c)
  {
    if cs[0] != c {
      assert c in cs[1..];
      FindIn(cs[1..], c);
    }
  }

  /** Position in the list and all unmanaged conditions are irrelevant. */
  lemma SummaryIgnoresOrder(a: seq<Condition>, b: seq<Condition>)
    requires UniqueKinds(a) && UniqueKinds(b)
    requires forall c: Condition | c.kind in MANAGED :: c in a <==> c in b
    ensures ReadySummary(a) == ReadySummary(b)
  {
    forall j | 0 <= j < 4 ensures Find(a, MANAGED[j]) == Find(b, MANAGED[j]) {
      var x, y := Find(a, MANAGED[j]), Find(b, MANAGED[j]);
      if x.Some? { FindIn(b, x.value); }
      if y.Some? { FindIn(a, y.value); }
    }
    SameInputsSameSummary(a, b);
  }

  lemma {:induction false} FindAfterSet(cs: seq<Condition>, r: Report, gen: nat, now: nat, k: CondType)
    ensures Find(SetCondition(cs, r, gen, now), k) ==
            if k == r.kind then Some(Merged(Find(cs, k), r, gen, now)) else Find(cs, k)
  {
    if cs != [] {
      if cs[0].kind == r.kind {
        assert ([Merged(Some(cs[0]), r, gen, now)] + cs[1..])[1..] == cs[1..];
      } else {
        FindAfterSet(cs[1..], r, gen, now, k);
        assert SetCondition(cs, r, gen, now)[1..] == SetCondition(cs[1..], r, gen, now);
      }
    }
  }

  lemma {:induction false} KindsAfterSet(cs: seq<Condition>, r: Report, gen: nat, now: nat)
    ensures var s := SetCondition(cs, r, gen, now);
            && |cs| <= |s| && (forall i | 0 <= i < |cs| :: s[i].kind == cs[i].kind)
            && (|s| == |cs| || (|s| == |cs| + 1 && s[|cs|].kind == r.kind && forall c | c in cs :: c.kind != r.kind))
  {
    if cs != [] && cs[0].kind != r.kind {
      KindsAfterSet(cs[1..], r, gen, now);
    }
  }

  lemma UniqueAfterSet(cs: seq<Condition>, r: Report, gen: nat, now: nat)
    requires UniqueKinds(cs)
    ensures UniqueKinds(SetCondition(cs, r, gen, now))
  {
    KindsAfterSet(cs, r, gen, now);
    var s := SetCondition(cs, r, gen, now);
    assert forall i | 0 <= i < |cs| :: cs[i] in cs;
  }

  ghost predicate DistinctReports(rs: seq<Report>) {
    forall i, j | 0 <= i < j < |rs| :: rs[i].kind != rs[j].kind
  }

  /** The report on a type in an update, if there is one. */
  function Reported(rs: seq<Report>, k: CondType): Option<Report> {
    if rs == [] then None else if rs[0].kind == k then Some(rs[0]) else Reported(rs[1..], k)
  }

  lemma {:induction false} ReportedNone(rs: seq<Report>, k: CondType)
    requires forall r | r in rs :: r.kind != k
    ensures Reported(rs, k).None?
  {
    if rs != [] { ReportedNone(rs[1..], k); }
  }

  /** Unlisted conditions stay; a listed one keeps its transition time exactly when its status stays. */
  lemma {:induction false} FindAfterSetAll(cs: seq<Condition>, rs: seq<Report>, gen: nat, now: nat, k: CondType)
    requires DistinctReports(rs)
    ensures Find(SetAll(cs, rs, gen, now), k) ==
            match Reported(rs, k)
            case None => Find(cs, k)
            case Some(r) => Some(Merged(Find(cs, k), r, gen, now))
    decreases |rs|
  {
    if rs != [] {
      FindAfterSet(cs, rs[0], gen, now, k);
      FindAfterSetAll(SetCondition(cs, rs[0], gen, now), rs[1..], gen, now, k);
      if rs[0].kind == k {
        assert forall r | r in rs[1..] :: r.kind != k;
        ReportedNone(rs[1..], k);
      }
    }
  }

  lemma {:induction false} UniqueAfterSetAll(cs: seq<Condition>, rs: seq<Report>, gen: nat, now: nat)
    requires UniqueKinds(cs)
    ensures UniqueKinds(SetAll(cs, rs, gen, now))
    decreases |rs|
  {
    if rs != [] {
      UniqueAfterSet(cs, rs[0], gen, now);
      UniqueAfterSetAll(SetCondition(cs, rs[0], gen, now), rs[1..], gen, now);
    }
  }

  ghost predicate Holds(cs: seq<Condition>, r: Report, gen: nat) {
    Find(cs, r.kind).Some? &&
    var c := Find(cs, r.kind).value;
    c.status == r.status && c.reason == r.reason && c.message == r.message && c.gen == gen
  }

  lemma {:induction false} SetNothingNew(cs: seq<Condition>, r: Report, gen: nat, now: nat)
    requires Holds(cs, r, gen)
    ensures SetCondition(cs, r, gen, now) == cs
  {
    if cs[0].kind != r.kind {
      SetNothingNew(cs[1..], r, gen, now);
    }
  }

  lemma {:induction false} SetAllNothingNew(cs: seq<Condition>, rs: seq<Report>, gen: nat, now: nat)
    requires forall r | r in rs :: Holds(cs, r, gen)
    ensures SetAll(cs, rs, gen, now) == cs
  {
    if rs != [] {
      assert rs[0] in rs;
      SetNothingNew(cs, rs[0], gen, now);
      SetAllNothingNew(cs, rs[1..], gen, now);
    }
  }

  lemma {:induction false} ReportedSelf(rs: seq<Report>, r: Report)
    requires DistinctReports(rs) && r in rs
    ensures Reported(rs, r.kind) == Some(r)
  {
    if rs[0] != r {
      assert r in rs[1..];
      ReportedSelf(rs[1..], r);
    }
  }

  // ---- the whole status ----

  datatype DriverStatus = DriverStatus(version: string, nodesReady: int)

  datatype GpuStatus = GpuStatus(conditions: seq<Condition>, operatorVersion: string, driver: Option<DriverStatus>)

  const NO_STATUS := GpuStatus([], "", None)

  datatype Update = Update(reports: seq<Report>, includeReady: bool, operatorVersion: string,
                           driver: Option<DriverStatus>)

  function WithReady(cs: seq<Condition>, gen: nat, now: nat): seq<Condition> {
    SetCondition(cs, ReadySummary(cs), gen, now)
  }

  /** The status applyStatus computes; it is written only if it differs from the stored one. */
  function Merge(st: GpuStatus, u: Update, gen: nat, now: nat): GpuStatus {
    var cs := SetAll(st.conditions, u.reports, gen, now);
    GpuStatus(if u.includeReady then WithReady(cs, gen, now) else cs,
              if u.operatorVersion != "" then u.operatorVersion else st.operatorVersion,
              if u.driver.Some? then u.driver else st.driver)
  }

  /** No type is reported twice, and Ready is not reported besides being computed. */
  ghost predicate Proper(u: Update) {
    DistinctReports(u.reports) && (u.includeReady ==> forall r | r in u.reports :: r.kind != CondReady)
  }

  lemma ReadyKeepsInputs(cs: seq<Condition>, gen: nat, now: nat)
    ensures SameInputs(WithReady(cs, gen, now), cs) && Holds(WithReady(cs, gen, now), ReadySummary(cs), gen)
    ensures forall k | k != CondReady :: Find(WithReady(cs, gen, now), k) == Find(cs, k)
  {
    forall k ensures Find(WithReady(cs, gen, now), k) ==
              if k == CondReady then Some(Merged(Find(cs, k), ReadySummary(cs), gen, now)) else Find(cs, k)
    {
      var i := SummaryIsMinimum(cs);
      FindAfterSet(cs, ReadySummary(cs), gen, now, k);
    }
    var i := SummaryIsMinimum(cs);
  }

  /** What each condition is after an update, for every type. */
  lemma FindAfterMerge(st: GpuStatus, u: Update, gen: nat, now: nat, k: CondType)
    requires Proper(u)
    ensures var f := Find(Merge(st, u, gen, now).conditions, k);
            if u.includeReady && k == CondReady then
              f == Some(Merged(Find(st.conditions, k), ReadySummary(SetAll(st.conditions, u.reports, gen, now)), gen, now))
            else match Reported(u.reports, k)
              case None => f == Find(st.conditions, k)
              case Some(r) => f == Some(Merged(Find(st.conditions, k), r, gen, now))
  {
    var cs := SetAll(st.conditions, u.reports, gen, now);
    FindAfterSetAll(st.conditions, u.reports, gen, now, k);
    var i := SummaryIsMinimum(cs);
    FindAfterSet(cs, ReadySummary(cs), gen, now, k);
    if u.includeReady && k == CondReady { ReportedNone(u.reports, k); }
  }

  lemma MergeKeepsUnique(st: GpuStatus, u: Update, gen: nat, now: nat)
    requires UniqueKinds(st.conditions)
    ensures UniqueKinds(Merge(st, u, gen, now).conditions)
  {
    UniqueAfterSetAll(st.conditions, u.reports, gen, now);
    var cs := SetAll(st.conditions, u.reports, gen, now);
    UniqueAfterSet(cs, ReadySummary(cs), gen, now);
  }

  /** Applying the same update again, at any later time, changes nothing: no patch is issued. */
  lemma MergeTwice(st: GpuStatus, u: Update, gen: nat, now: nat, later: nat)
    requires Proper(u)
    ensures Merge(Merge(st, u, gen, now), u, gen, later) == Merge(st, u, gen, now)
  {
    var cs := SetAll(st.conditions, u.reports, gen, now);
    var after := Merge(st, u, gen, now).conditions;
    if u.includeReady { ReadyKeepsInputs(cs, gen, now); }
    forall r | r in u.reports ensures Holds(after, r, gen) {
      ReportedSelf(u.reports, r);
      FindAfterSetAll(st.conditions, u.reports, gen, now, r.kind);
    }
    SetAllNothingNew(after, u.reports, gen, later);
    if u.includeReady {
      SameInputsSameSummary(after, cs);
      SetNothingNew(after, ReadySummary(cs), gen, later);
    }
  }

  // ---- any sequence of updates ----

  datatype Applied = Applied(update: Update, gen: nat, now: nat)

  function AfterUpdates(st: GpuStatus, run: seq<Applied>): GpuStatus {
    if run == [] then st
    else Merge(AfterUpdates(st, run[..|run| - 1]), run[|run| - 1].update, run[|run| - 1].gen, run[|run| - 1].now)
  }

  ghost predicate GenerationsBelow(cs: seq<Condition>, gen: nat) {
    forall k :: Find(cs, k).Some? ==> Find(cs, k).value.gen <= gen
  }

  ghost predicate Keeps(before: Option<Condition>, after: Option<Condition>, gen: nat, now: nat) {
    before.Some? ==> after.Some? && before.value.gen <= after.value.gen <= gen
                     && after.value.since == if after.value.status == before.value.status then before.value.since else now
  }

  lemma MergeKeeps(st: GpuStatus, u: Update, gen: nat, now: nat)
    requires Proper(u) && GenerationsBelow(st.conditions, gen)
    ensures GenerationsBelow(Merge(st, u, gen, now).conditions, gen)
    ensures forall k :: Keeps(Find(st.conditions, k), Find(Merge(st, u, gen, now).conditions, k), gen, now)
  {
    forall k
      ensures var f := Find(Merge(st, u, gen, now).conditions, k);
              Keeps(Find(st.conditions, k), f, gen, now) && (f.Some? ==> f.value.gen <= gen)
    {
      FindAfterMerge(st, u, gen, now, k);
    }
  }

  ghost predicate GenerationsGrow(run: seq<Applied>) {
    forall i, j | 0 <= i < j < |run| :: run[i].gen <= run[j].gen
  }

  /** Update n of a run loses no condition and moves a transition time exactly when it changes the status. */
  ghost predicate KeepsAt(run: seq<Applied>, n: nat)
    requires n < |run|
  {
    forall k :: Keeps(Find(AfterUpdates(NO_STATUS, run[..n]).conditions, k),
                      Find(AfterUpdates(NO_STATUS, run[..n + 1]).conditions, k), run[n].gen, run[n].now)
  }

  lemma KeepsInPrefix(run: seq<Applied>, n: nat)
    requires n + 1 < |run| && KeepsAt(run[..|run| - 1], n)
    ensures KeepsAt(run, n)
  {
    hide Keeps, AfterUpdates;
    var init := run[..|run| - 1];
    assert init[..n] == run[..n] && init[..n + 1] == run[..n + 1] && init[n] == run[n];
  }

  lemma LastUpdateKeeps(init: seq<Applied>, a: Applied)
    requires var st := AfterUpdates(NO_STATUS, init);
             Proper(a.update) && UniqueKinds(st.conditions) && GenerationsBelow(st.conditions, a.gen)
    ensures var run := init + [a];
            && KeepsAt(run, |init|) && UniqueKinds(AfterUpdates(NO_STATUS, run).conditions)
            && GenerationsBelow(AfterUpdates(NO_STATUS, run).conditions, a.gen)
  {
    hide Merge, Keeps, UniqueKinds, GenerationsBelow, Proper;
    var st, run := AfterUpdates(NO_STATUS, init), init + [a];
    MergeKeepsUnique(st, a.update, a.gen, a.now);
    MergeKeeps(st, a.update, a.gen, a.now);
    assert run[..|run| - 1] == init && run[..|init| + 1] == run && run[..|init|] == init;
  }

  /**
   * From an empty status, whatever updates follow under a growing generation: types stay
   * unique, no condition claims a generation beyond the object's, none disappears, and each
   * step moves a transition time exactly when it changes the status.
   */
  lemma {:induction false} UpdatesKeepInvariant(run: seq<Applied>)
    requires GenerationsGrow(run) && forall a | a in run :: Proper(a.update)
    ensures UniqueKinds(AfterUpdates(NO_STATUS, run).conditions)
    ensures run != [] ==> GenerationsBelow(AfterUpdates(NO_STATUS, run).conditions, run[|run| - 1].gen)
    ensures forall n | 0 <= n < |run| :: KeepsAt(run, n)
  {
    if run != [] {
      var init, a := run[..|run| - 1], run[|run| - 1];
      assert a in run && run == init + [a];
      UpdatesKeepInvariant(init);
      BelowLater(init, a);
      hide KeepsAt, UniqueKinds, GenerationsBelow, Proper, AfterUpdates;
      LastUpdateKeeps(init, a);
      forall n | 0 <= n < |init| ensures KeepsAt(run, n) { KeepsInPrefix(run, n); }
    }
  }

  lemma BelowLater(init: seq<Applied>, a: Applied)
    requires init != [] ==> GenerationsBelow(AfterUpdates(NO_STATUS, init).conditions, init[|init| - 1].gen)
    requires init != [] ==> init[|init| - 1].gen <= a.gen
    ensures GenerationsBelow(AfterUpdates(NO_STATUS, init).conditions, a.gen)
  {}
}

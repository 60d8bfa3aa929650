/**
 * The Helm release store and the operator's decisions on it, as functions on the
 * history of one release: recovery, install, upgrade, skip and uninstall.
 */
module Helm {
  import opened Text
  import opened Json
  import opened Values

  datatype Status =
    | Deployed | Failed | Superseded
    | PendingInstall | PendingUpgrade | PendingRollback | Uninstalling

  datatype Revision = Revision(version: nat, status: Status, chart: string, config: Fields)

  /** Oldest revision first. */
  type History = seq<Revision>

  /**
   * How one Helm action goes: it succeeds, is refused before it records anything, fails
   * and records that, does its work but cannot record the end of it, or the process dies in the
   * middle. An uninstall that fails late has already purged its records.
   */
  datatype Fate = Succeeds | Refused | Fails(late: bool) | Unrecorded | Cut

  datatype Call = Done | Errored | Crashed

  /** What the release store hands back later for the values given now. */
  function Stored(config: Fields): Fields { Reload(Map(config)).fields }

  function Newest(h: History): Option<Status> {
    if h == [] then None else Some(h[|h| - 1].status)
  }

  function Mark(h: History, version: nat, status: Status): (r: History)
    ensures |r| == |h|
    ensures forall i | 0 <= i < |h| :: r[i] == if h[i].version == version then h[i].(status := status) else h[i]
  {
    seq(|h|, i requires 0 <= i < |h| => if h[i].version == version then h[i].(status := status) else h[i])
  }

  function SupersedeDeployed(h: History): (r: History)
    ensures |r| == |h|
    ensures forall i | 0 <= i < |h| :: r[i] == if h[i].status.Deployed? then h[i].(status := Superseded) else h[i]
  {
    seq(|h|, i requires 0 <= i < |h| => if h[i].status.Deployed? then h[i].(status := Superseded) else h[i])
  }

  /** The newest deployed revision, if any. */
  function LastDeployed(h: History): (r: Option<Revision>)
    ensures r.Some? ==> r.value in h && r.value.status.Deployed?
  {
    if h == [] then None
    else if h[|h| - 1].status.Deployed? then Some(h[|h| - 1])
    else LastDeployed(h[..|h| - 1])
  }

  // ---- Helm's actions ----

  const MAX_HISTORY: nat := 3

  /** Drops the n oldest revisions other than the spared one. */
  function DropOldest(h: History, spare: Option<Revision>, n: nat): History {
    if n == 0 || h == [] then h
    else if spare == Some(h[0]) then [h[0]] + DropOldest(h[1..], spare, n)
    else DropOldest(h[1..], spare, n - 1)
  }

  /** Helm's retention before it records one more revision: the last deployed one is spared. */
  function Prune(h: History, max: nat): History {
    if |h| <= max then h else DropOldest(h, LastDeployed(h), |h| - max)
  }

  function Install(h: History, chart: string, config: Fields, fate: Fate): (History, Call) {
    if h != [] then (h, Errored)
    else match fate
      case Succeeds => ([Revision(1, Deployed, chart, Stored(config))], Done)
      case Refused => (h, Errored)
      case Fails(_) => ([Revision(1, Failed, chart, Stored(config))], Errored)
      case Unrecorded => ([Revision(1, PendingInstall, chart, Stored(config))], Done)
      case Cut => ([Revision(1, PendingInstall, chart, Stored(config))], Crashed)
  }

  /** The revision an upgrade replaces; None when Helm refuses to upgrade. */
  function UpgradeBase(h: History): Option<Revision> {
    if h == [] then None
    else
      var last := h[|h| - 1];
      if last.status in {PendingInstall, PendingUpgrade, PendingRollback} then None
      else if last.status.Deployed? then Some(last)
      else if LastDeployed(h).Some? then LastDeployed(h)
      else if last.status in {Failed, Superseded} then Some(last)
      else None
  }

  /** An upgrade without values takes over those of the revision it replaces. */
  function UpgradeConfig(h: History, config: Fields): Fields {
    if config == map[] && UpgradeBase(h).Some? then UpgradeBase(h).value.config else config
  }

  function Upgrade(h: History, chart: string, config: Fields, fate: Fate): (History, Call) {
    if UpgradeBase(h).None? || fate.Refused? then (h, Errored)
    else
      var kept := Prune(h, MAX_HISTORY - 1);
      var next := Revision(h[|h| - 1].version + 1, Deployed, chart, Stored(UpgradeConfig(h, config)));
      match fate
      case Succeeds => (Mark(kept, UpgradeBase(h).value.version, Superseded) + [next], Done)
      case Unrecorded =>
        (Mark(kept, UpgradeBase(h).value.version, Superseded) + [next.(status := PendingUpgrade)], Errored)
      case Cut => (kept + [next.(status := PendingUpgrade)], Crashed)
      case _ => (kept + [next.(status := Failed)], Errored)
  }

  /** Rollback to the revision numbered one below the newest; it sets no history limit. */
  function RollbackTarget(h: History): Option<Revision> {
    if exists i :: 0 <= i < |h| && h[i].version + 1 == h[|h| - 1].version then
      Some(h[FirstAt(h, h[|h| - 1].version - 1, 0)])
    else None
  }

  function FirstAt(h: History, version: int, i: nat): (r: nat)
    requires exists j :: i <= j < |h| && h[j].version == version
    ensures i <= r < |h| && h[r].version == version
    decreases |h| - i
  {
    if h[i].version == version then i else FirstAt(h, version, i + 1)
  }

  function Rollback(h: History, fate: Fate): (History, Call) {
    if RollbackTarget(h).None? || fate.Refused? then (h, Errored)
    else
      var last := h[|h| - 1];
      var next := RollbackTarget(h).value.(version := last.version + 1, status := Deployed);
      match fate
      case Succeeds => (SupersedeDeployed(h) + [next], Done)
      case Unrecorded => (SupersedeDeployed(h) + [next.(status := PendingRollback)], Errored)
      case Cut => (h + [next.(status := PendingRollback)], Crashed)
      case _ => (Mark(h, last.version, Superseded) + [next.(status := Failed)], Errored)
  }

  function Uninstall(h: History, fate: Fate): (History, Call) {
    if h == [] || fate.Refused? then (h, Errored)
    else match fate
      case Succeeds => ([], Done)
      case Fails(true) => ([], Errored)
      case Cut => (Mark(h, h[|h| - 1].version, Uninstalling), Crashed)
      case _ => (Mark(h, h[|h| - 1].version, Uninstalling), Errored)
  }

  // ---- the operator's decisions ----

  /** The release as a list of deployed and failed releases shows it: by its newest revision. */
  function CurrentRelease(h: History): Option<Revision> {
    if Newest(h) == Some(Deployed) || Newest(h) == Some(Failed) then Some(h[|h| - 1]) else None
  }

  predicate UpToDate(rel: Revision, chart: string, config: Fields) {
    rel.status.Deployed? && rel.chart == chart && ValuesEqual(MapOf(rel.config), MapOf(config))
  }

  function RecoverPending(h: History, listed: bool, fate: Fate): (History, Call) {
    if !listed then (h, Errored)
    else match Newest(h)
      case Some(PendingUpgrade) => Rollback(h, fate)
      case Some(PendingInstall) => Uninstall(h, fate)
      case _ => (h, Done)
  }

  /** What happens to the calls one InstallOrUpgrade makes. */
  datatype Oracle = Oracle(config: bool, listPending: bool, recover: Fate, load: bool,
                           listCurrent: bool, apply: Fate)

  const NO_FAULT := Oracle(true, true, Succeeds, true, true, Succeeds)

  /** Every call before the install or upgrade itself goes well. */
  predicate ReachesApply(o: Oracle) { o.config && o.listPending && o.load && o.listCurrent }

  /** In a terminating namespace no record can be created: rollback, install and upgrade are refused. */
  function WithoutCreation(h: History, o: Oracle): Oracle {
    o.(recover := if Newest(h) == Some(PendingUpgrade) then Refused else o.recover, apply := Refused)
  }

  datatype Outcome = Changed | Unchanged | Error | Crash

  /** actions counts the mutating Helm actions that took place. */
  datatype Applied = Applied(history: History, outcome: Outcome, actions: nat)

  function OutcomeOf(c: Call): Outcome {
    match c
    case Done => Changed
    case Errored => Error
    case Crashed => Crash
  }

  predicate NeedsRecovery(h: History) {
    Newest(h) == Some(PendingUpgrade) || Newest(h) == Some(PendingInstall)
  }

  function InstallOrUpgrade(h: History, chart: string, config: Fields, o: Oracle): Applied {
    if !o.config then Applied(h, Error, 0)
    else
      var (h1, recovered) := RecoverPending(h, o.listPending, o.recover);
      var n := if o.listPending && NeedsRecovery(h) then 1 else 0;
      if !recovered.Done? then Applied(h1, OutcomeOf(recovered), n)
      else if !o.load || !o.listCurrent then Applied(h1, Error, n)
      else
        match CurrentRelease(h1)
        case None =>
          var (h2, c) := Install(h1, chart, config, o.apply);
          Applied(h2, OutcomeOf(c), n + 1)
        case Some(rel) =>
          if UpToDate(rel, chart, config) then Applied(h1, Unchanged, n)
          else
            var (h2, c) := Upgrade(h1, chart, config, o.apply);
            Applied(h2, OutcomeOf(c), n + 1)
  }

  datatype UninstallOracle = UninstallOracle(config: bool, list: bool, fate: Fate)

  const UNINSTALL_OK := UninstallOracle(true, true, Succeeds)

  /** Client.Uninstall. */
  function UninstallRelease(h: History, o: UninstallOracle): (History, Call) {
    if !o.config || !o.list then (h, Errored)
    else if CurrentRelease(h).None? then (h, Done)
    else Uninstall(h, o.fate)
  }

  // ---- the shape of reachable histories ----

  ghost predicate Ascending(h: History) {
    forall i, j | 0 <= i < j < |h| :: h[i].version < h[j].version
  }

  /** Versions ascend, and the revision below a pending upgrade is still there. */
  ghost predicate WellFormed(h: History) {
    && Ascending(h)
    && (Newest(h) == Some(PendingUpgrade) ==> |h| >= 2 && h[|h| - 2].version + 1 == h[|h| - 1].version)
  }

  /** At most three revisions; a fourth only on top of a recovery rollback, and then no further one. */
  predicate Bounded(h: History) {
    |h| <= MAX_HISTORY || (|h| == MAX_HISTORY + 1 && Newest(h) != Some(PendingUpgrade))
  }

  lemma {:induction false} DropRest(h: History, spare: Option<Revision>, n: nat)
    requires n <= |h| && forall i | 0 <= i < |h| :: spare != Some(h[i])
    ensures DropOldest(h, spare, n) == h[n..]
  {
    if n > 0 {
      DropRest(h[1..], spare, n - 1);
      assert h[1..][n - 1..] == h[n..];
    }
  }

  /** Dropping keeps the newest revisions, and with them the spared one at position p if it is older. */
  lemma {:induction false} DropOldestForm(h: History, spare: Option<Revision>, n: nat) returns (p: int)
    requires Ascending(h) && n < |h|
    ensures p == -1 ==> DropOldest(h, spare, n) == h[n..]
    ensures p != -1 ==> 0 <= p < n && DropOldest(h, spare, n) == [h[p]] + h[n + 1..]
  {
    p := -1;
    if n > 0 {
      assert Ascending(h[1..]);
      if spare == Some(h[0]) {
        p := 0;
        assert forall i | 0 <= i < |h[1..]| :: h[1..][i].version > h[0].version;
        DropRest(h[1..], spare, n);
        assert h[1..][n..] == h[n + 1..];
      } else {
        p := DropOldestForm(h[1..], spare, n - 1);
        assert h[1..][n - 1..] == h[n..] && h[1..][n..] == h[n + 1..];
        p := if p == -1 then -1 else p + 1;
      }
    }
  }

  lemma PruneShape(h: History)
    requires Ascending(h)
    ensures var r := Prune(h, MAX_HISTORY - 1);
            && |r| <= MAX_HISTORY - 1 && Ascending(r)
            && (h != [] ==> r != [] && r[|r| - 1] == h[|h| - 1])
  {
    if |h| > MAX_HISTORY - 1 {
      var p := DropOldestForm(h, LastDeployed(h), |h| - (MAX_HISTORY - 1));
    }
  }

  lemma UpgradeKeepsShape(h: History, chart: string, config: Fields, fate: Fate)
    requires WellFormed(h)
    ensures WellFormed(Upgrade(h, chart, config, fate).0)
    ensures Bounded(h) ==> Bounded(Upgrade(h, chart, config, fate).0)
    ensures |Upgrade(h, chart, config, fate).0| <= if |h| < MAX_HISTORY then MAX_HISTORY else |h|
  {
    hide Prune, Stored;
    PruneShape(h);
  }

  lemma RecoveryKeepsShape(h: History, listed: bool, fate: Fate)
    requires WellFormed(h)
    ensures WellFormed(RecoverPending(h, listed, fate).0)
    ensures Bounded(h) ==> Bounded(RecoverPending(h, listed, fate).0)
    ensures |RecoverPending(h, listed, fate).0| > |h| ==> Newest(h) == Some(PendingUpgrade)
  {
    hide Rollback, Uninstall, WellFormed;
    RollbackKeepsShape(h, fate);
    UninstallMarks(h, fate);
  }

  lemma UninstallMarks(h: History, fate: Fate)
    requires WellFormed(h)
    ensures var r := Uninstall(h, fate).0;
            WellFormed(r) && |r| <= |h| && (r == h || r == [] || Newest(r) == Some(Uninstalling))
  {}

  lemma RollbackKeepsShape(h: History, fate: Fate)
    requires WellFormed(h)
    ensures WellFormed(Rollback(h, fate).0) && |Rollback(h, fate).0| <= |h| + 1
    ensures Rollback(h, fate).0 == h || Newest(Rollback(h, fate).0) != Some(PendingUpgrade)
  {
    hide RollbackTarget;
  }

  lemma InstallOrUpgradeKeepsShape(h: History, chart: string, config: Fields, o: Oracle)
    requires WellFormed(h)
    ensures WellFormed(InstallOrUpgrade(h, chart, config, o).history)
  {
    hide ValuesEqual, Stored, Upgrade, RecoverPending;
    RecoveryKeepsShape(h, o.listPending, o.recover);
    UpgradeKeepsShape(RecoverPending(h, o.listPending, o.recover).0, chart, config, o.apply);
  }

  // ---- self-healing and idempotence ----

  /** The newest-revision states the operator can get out of. */
  predicate Recoverable(h: History) {
    h == [] || h[|h| - 1].status in {Deployed, Failed, PendingInstall, PendingUpgrade}
  }

  /** The newest revision is deployed, has the chart wanted, and its values mean the ones wanted. */
  ghost predicate AtDesired(h: History, chart: string, config: Fields) {
    h != [] && h[|h| - 1].status == Deployed && h[|h| - 1].chart == chart
    && Meaning(Map(h[|h| - 1].config)) == Meaning(Map(config))
  }

  /** The fast path's test decides exactly that. */
  lemma UpToDateDecides(h: History, chart: string, config: Fields)
    requires h != []
    ensures UpToDate(h[|h| - 1], chart, config) <==> AtDesired(h, chart, config)
  {
    hide Meaning;
    ValuesEqualDecides(MapOf(h[|h| - 1].config), MapOf(config));
  }

  /** No values are wanted, and the revision an upgrade would replace has some. */
  predicate CopiesOld(h: History, config: Fields) {
    var base := UpgradeBase(RecoverPending(h, true, Succeeds).0);
    config == map[] && base.Some? && base.value.config != map[]
  }

  lemma StoredMeansSame(config: Fields)
    ensures Meaning(Map(Stored(config))) == Meaning(Map(config))
    ensures Meaning(Map(config)) == Meaning(Map(map[])) <==> config == map[]
  {
    ReloadKeepsMeaning(Map(config));
    assert Meaning(Map(config)).fields.Keys == config.Keys;
    if config == map[] { assert Map(config) == Map(map[]); }
  }

  /**
   * The fast path agrees with the slow one: skipped or not, the release ends at the desired
   * state, unless the upgrade takes over old values because none are wanted.
   */
  lemma SelfHeals(h: History, chart: string, config: Fields)
    requires WellFormed(h) && Recoverable(h)
    ensures var r := InstallOrUpgrade(h, chart, config, NO_FAULT);
            && (AtDesired(r.history, chart, config) <==> !CopiesOld(h, config))
            && (r.outcome == Changed || r.outcome == Unchanged)
            && (AtDesired(r.history, chart, config) ==>
                  InstallOrUpgrade(r.history, chart, config, NO_FAULT) == Applied(r.history, Unchanged, 0))
  {
    hide Meaning, Stored, Prune, UpToDate;
    var (h1, c1) := RecoverPending(h, true, Succeeds);
    if Newest(h) == Some(PendingUpgrade) {
      assert h[|h| - 2].version + 1 == h[|h| - 1].version;
    }
    assert c1.Done? && (h1 == [] || CurrentRelease(h1).Some?);
    HealsFrom(h1, chart, config);
    DesiredIsSkipped(InstallOrUpgrade(h, chart, config, NO_FAULT).history, chart, config);
  }

  /** A release at the desired state is left alone, and only such a one. */
  lemma DesiredIsSkipped(h: History, chart: string, config: Fields)
    ensures AtDesired(h, chart, config) <==>
              InstallOrUpgrade(h, chart, config, NO_FAULT) == Applied(h, Unchanged, 0)
  {
    hide Meaning, Stored, Prune, UpToDate;
    if h != [] { UpToDateDecides(h, chart, config); }
  }

  /** The same once nothing is pending any more. */
  lemma HealsFrom(h: History, chart: string, config: Fields)
    requires h == [] || CurrentRelease(h).Some?
    ensures var r := InstallOrUpgrade(h, chart, config, NO_FAULT);
            && (AtDesired(r.history, chart, config) <==> !CopiesOld(h, config))
            && (r.outcome == Changed || r.outcome == Unchanged)
  {
    hide Meaning, Stored, Prune, UpToDate;
    StoredMeansSame(config);
    if h != [] {
      UpToDateDecides(h, chart, config);
      assert UpgradeBase(h).Some?;
      var old_ := UpgradeBase(h).value.config;
      StoredMeansSame(old_);
    }
  }

  /**
   * Whatever fails: a call reports nothing changed only if the newest revision is deployed as
   * desired, and was when the call began or came back by recovery; and a change only if it now
   * is, or if an install could not record its end: Helm returns no error then, and the next
   * call takes the install for a pending one.
   */
  lemma UnchangedMeansDesired(h: History, chart: string, config: Fields, o: Oracle)
    ensures var r := InstallOrUpgrade(h, chart, config, o);
            && (r.outcome == Unchanged ==>
                  AtDesired(r.history, chart, config) && (AtDesired(h, chart, config) || NeedsRecovery(h)))
            && (r.outcome == Changed && config != map[] && !o.apply.Unrecorded? ==> AtDesired(r.history, chart, config))
            && (r.outcome == Changed && o.apply.Unrecorded? ==> Newest(r.history) == Some(PendingInstall))
  {
    hide Meaning, Stored, Prune, UpToDate;
    StoredMeansSame(config);
    var h1 := RecoverPending(h, o.listPending, o.recover).0;
    if h1 != [] { UpToDateDecides(h1, chart, config); }
  }

  /** The recovery action itself goes wrong in a way that leaves a state nothing recovers from. */
  predicate Derails(h: History, listed: bool, fate: Fate) {
    listed && ((Newest(h) == Some(PendingUpgrade) && (fate.Cut? || fate.Unrecorded?))
               || (Newest(h) == Some(PendingInstall) && (fate.Cut? || fate.Unrecorded? || fate == Fails(false))))
  }

  predicate RecoveryDerails(h: History, o: Oracle) { o.config && Derails(h, o.listPending, o.recover) }

  /** A call keeps the release recoverable, through any failure or crash, exactly when recovery does not derail. */
  lemma StaysRecoverable(h: History, chart: string, config: Fields, o: Oracle)
    requires WellFormed(h) && Recoverable(h)
    ensures Recoverable(InstallOrUpgrade(h, chart, config, o).history) <==> !RecoveryDerails(h, o)
  {
    hide UpToDate, Stored, Upgrade, RecoverPending, Install;
    var h1 := RecoverPending(h, o.listPending, o.recover).0;
    RecoveryStaysRecoverable(h, o.listPending, o.recover);
    if Recoverable(h1) {
      UpgradeIsRecoverable(h1, chart, config, o.apply);
      InstallIsRecoverable(h1, chart, config, o.apply);
    }
  }

  lemma RecoveryStaysRecoverable(h: History, listed: bool, fate: Fate)
    requires WellFormed(h) && Recoverable(h)
    ensures var (h1, c) := RecoverPending(h, listed, fate);
            && (c.Done? ==> Recoverable(h1))
            && (!Recoverable(h1) <==> Derails(h, listed, fate))
  {
    if Newest(h) == Some(PendingUpgrade) {
      assert h[|h| - 2].version + 1 == h[|h| - 1].version;
    }
  }

  lemma UpgradeIsRecoverable(h: History, chart: string, config: Fields, fate: Fate)
    requires Recoverable(h)
    ensures Recoverable(Upgrade(h, chart, config, fate).0)
  {
    hide Prune, Stored, LastDeployed;
  }

  lemma InstallIsRecoverable(h: History, chart: string, config: Fields, fate: Fate)
    requires Recoverable(h)
    ensures Recoverable(Install(h, chart, config, fate).0)
  {
    hide Stored;
  }

  /** Recovery undoes a pending upgrade, keeping the revisions there are, and removes a pending install. */
  lemma RecoveryRestores(h: History)
    requires WellFormed(h) && NeedsRecovery(h)
    ensures var (h1, c) := RecoverPending(h, true, Succeeds);
            && c.Done?
            && (h[|h| - 1].status == PendingInstall ==> h1 == [])
            && (h[|h| - 1].status == PendingUpgrade ==>
                  && |h1| == |h| + 1 && h1[|h|].status == Deployed
                  && h1[|h|].chart == h[|h| - 2].chart && h1[|h|].config == h[|h| - 2].config
                  && forall i | 0 <= i < |h| :: h1[i].chart == h[i].chart && h1[i].config == h[i].config)
  {
    if h[|h| - 1].status == PendingUpgrade {
      assert h[|h| - 2].version + 1 == h[|h| - 1].version;
    }
  }

  // ---- bounded churn ----

  datatype Desired = Desired(chart: string, config: Fields)

  predicate SameDesired(a: Desired, b: Desired) {
    a.chart == b.chart && ValuesEqual(MapOf(a.config), MapOf(b.config))
  }

  /** How often consecutive desired states differ. */
  function Changes(run: seq<Desired>): nat {
    if |run| < 2 then 0
    else Changes(run[..|run| - 1]) + if SameDesired(run[|run| - 2], run[|run| - 1]) then 0 else 1
  }

  /** The release after one fault-free call per element of the run, starting without one. */
  function AfterRun(run: seq<Desired>): Applied {
    if run == [] then Applied([], Unchanged, 0)
    else
      var before := AfterRun(run[..|run| - 1]);
      var d := run[|run| - 1];
      var r := InstallOrUpgrade(before.history, d.chart, d.config, NO_FAULT);
      r.(actions := before.actions + r.actions)
  }

  /** Exactly one Helm action for the first call and one per change, however many calls are made. */
  lemma {:induction false} ChurnIsExact(run: seq<Desired>)
    requires forall d | d in run :: d.config != map[]
    ensures run != [] ==> AfterRun(run).actions == 1 + Changes(run)
    ensures run != [] ==> AtDesired(AfterRun(run).history, run[|run| - 1].chart, run[|run| - 1].config)
    ensures WellFormed(AfterRun(run).history)
  {
    if run != [] {
      var d, before := run[|run| - 1], AfterRun(run[..|run| - 1]);
      ChurnIsExact(run[..|run| - 1]);
      InstallOrUpgradeKeepsShape(before.history, d.chart, d.config, NO_FAULT);
      SelfHeals(before.history, d.chart, d.config);
      if |run| >= 2 {
        var e := run[|run| - 2];
        assert run[..|run| - 1][|run| - 2] == e;
        SkipsExactlySame(before.history, e, d);
      }
    }
  }

  lemma SkipsExactlySame(h: History, e: Desired, d: Desired)
    requires AtDesired(h, e.chart, e.config)
    ensures InstallOrUpgrade(h, d.chart, d.config, NO_FAULT).actions == if SameDesired(e, d) then 0 else 1
  {
    hide Meaning, Stored, Prune, UpToDate, ValuesEqual;
    UpToDateDecides(h, d.chart, d.config);
    ValuesEqualDecides(MapOf(e.config), MapOf(d.config));
  }

  // ---- bounded history ----

  lemma HistoryStaysBounded(h: History, chart: string, config: Fields, o: Oracle)
    requires WellFormed(h) && Bounded(h)
    ensures var r := InstallOrUpgrade(h, chart, config, o).history;
            && Bounded(r)
            && (|r| <= 3 || (|r| == 4 && (|h| == 4 || Newest(h) == Some(PendingUpgrade))))
  {
    hide ValuesEqual, Stored, Upgrade, RecoverPending;
    RecoveryKeepsShape(h, o.listPending, o.recover);
    UpgradeKeepsShape(RecoverPending(h, o.listPending, o.recover).0, chart, config, o.apply);
  }

  lemma UninstallKeepsShape(h: History, o: UninstallOracle)
    requires WellFormed(h) && Bounded(h)
    ensures WellFormed(UninstallRelease(h, o).0) && Bounded(UninstallRelease(h, o).0)
  {}

  // ---- uninstall ----

  /** The newest revision has a status the operator's list for Uninstall shows. */
  predicate Visible(h: History) { CurrentRelease(h).Some? }

  /** After an Uninstall that returned nil nothing is left exactly when the release was absent or listed. */
  lemma UninstallClears(h: History, o: UninstallOracle)
    requires UninstallRelease(h, o).1.Done?
    ensures !Visible(UninstallRelease(h, o).0)
    ensures UninstallRelease(h, o).0 == [] <==> h == [] || Visible(h)
  {}

  /** An Uninstall that fails after marking the release makes the next one report success with the release still there. */
  lemma FailedUninstallIsForgotten(chart: string, config: Fields)
    ensures var h := Install([], chart, config, Succeeds).0;
            var h1 := UninstallRelease(h, UninstallOracle(true, true, Fails(false))).0;
            var (h2, c) := UninstallRelease(h1, UNINSTALL_OK);
            c.Done? && h2 == h1 && h2 != []
  {}
}

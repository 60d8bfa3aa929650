/** installer.go as written: a client whose calls list releases and change the store. */
module HelmClient {
  import opened Text
  import opened Json
  import opened Values
  import opened Helm

  const RELEASE := "gpu-operator"

  /** One line of a release list: the name and its newest revision. */
  datatype Head = Head(name: string, newest: Revision)

  class Client {
    /** Every release in the namespace, other operators' included. */
    var store: map<string, History>

    constructor (store: map<string, History>)
      ensures this.store == store
    {
      this.store := store;
    }

    /** The namespace goes away with all its records. */
    method Vanish()
      modifies this
      ensures store == map[] && Ours() == []
    {
      store := map[];
    }

    /** The history of our release. */
    function Ours(): History
      reads this
    {
      if RELEASE in store then store[RELEASE] else []
    }

    ghost predicate Shows(hd: Head, mask: set<Status>)
      reads this
    {
      && hd.name in store && store[hd.name] != []
      && hd.newest == store[hd.name][|store[hd.name]| - 1] && hd.newest.status in mask
    }

    twostate predicate OnlyOurs()
      reads this
    {
      forall n | n != RELEASE :: (n in store <==> n in old(store)) && (n in store ==> store[n] == old(store[n]))
    }

    /** action.List: newest revisions only, filtered by status, in no particular order. */
    method List(mask: set<Status>) returns (heads: seq<Head>)
      ensures forall hd :: hd in heads <==> Shows(hd, mask)
      ensures forall i, j | 0 <= i < j < |heads| :: heads[i].name != heads[j].name
    {
      heads := [];
      var todo := store.Keys;
      while todo != {}
        invariant todo <= store.Keys
        invariant forall hd :: hd in heads <==> Shows(hd, mask) && hd.name !in todo
        invariant forall i, j | 0 <= i < j < |heads| :: heads[i].name != heads[j].name
        decreases todo
      {
        var n :| n in todo;
        var h := store[n];
        if h != [] && h[|h| - 1].status in mask {
          assert forall i | 0 <= i < |heads| :: heads[i] in heads && heads[i].name != n;
          heads := heads + [Head(n, h[|h| - 1])];
        }
        todo := todo - {n};
      }
    }

    method Replace(h: History, c: Call) returns (call: Call)
      modifies this
      ensures Ours() == h && call == c && OnlyOurs()
    {
      store := store[RELEASE := h];
      call := c;
    }

    /** The recovery action for our release in a given status. */
    method RecoverOne(status: Status, fate: Fate) returns (call: Call)
      modifies this
      ensures OnlyOurs()
      ensures (Ours(), call) == match status
                                case PendingUpgrade => Rollback(old(Ours()), fate)
                                case PendingInstall => Uninstall(old(Ours()), fate)
                                case _ => (old(Ours()), Done)
    {
      hide Rollback, Uninstall;
      match status {
        case PendingUpgrade =>
          var (h, c) := Rollback(Ours(), fate);
          call := Replace(h, c);
        case PendingInstall =>
          var (h, c) := Uninstall(Ours(), fate);
          call := Replace(h, c);
        case _ => call := Done;
      }
    }

    /** recoverPending: only the release with our name is acted on. */
    method RecoverPending(listed: bool, fate: Fate) returns (call: Call)
      modifies this
      ensures (Ours(), call) == Helm.RecoverPending(old(Ours()), listed, fate) && OnlyOurs()
    {
      hide Rollback, Uninstall;
      if !listed { return Errored; }
      var heads := List({PendingInstall, PendingUpgrade});
      ghost var h := Ours();
      assert NeedsRecovery(h) ==> Shows(Head(RELEASE, h[|h| - 1]), {PendingInstall, PendingUpgrade});
      var i := 0;
      while i < |heads|
        invariant 0 <= i <= |heads|
        invariant if forall j | 0 <= j < i :: heads[j].name != RELEASE then store == old(store)
                  else (Ours(), Done) == Helm.RecoverPending(h, true, fate)
        invariant OnlyOurs()
      {
        assert heads[i] in heads && old(Shows(heads[i], {PendingInstall, PendingUpgrade}));
        if heads[i].name == RELEASE {
          assert store == old(store);
          call := RecoverOne(heads[i].newest.status, fate);
          if call != Done { return; }
        }
        i := i + 1;
      }
      call := Done;
    }

    /** currentRelease; the first result is false when listing failed. */
    method FindCurrent(listed: bool) returns (ok: bool, rel: Option<Revision>)
      ensures ok == listed && (ok ==> rel == CurrentRelease(Ours()))
    {
      if !listed { return false, None; }
      var heads := List({Deployed, Failed});
      var i := 0;
      while i < |heads|
        invariant 0 <= i <= |heads| && forall j | 0 <= j < i :: heads[j].name != RELEASE
      {
        assert heads[i] in heads;
        if heads[i].name == RELEASE { return true, Some(heads[i].newest); }
        i := i + 1;
      }
      assert CurrentRelease(Ours()).Some? ==> Shows(Head(RELEASE, CurrentRelease(Ours()).value), {Deployed, Failed});
      return true, None;
    }

    /** InstallOrUpgrade; the error return and the crash are outcomes. */
    method Apply(chart: string, config: Fields, o: Oracle) returns (outcome: Outcome)
      modifies this
      ensures Ours() == InstallOrUpgrade(old(Ours()), chart, config, o).history && OnlyOurs()
      ensures outcome == InstallOrUpgrade(old(Ours()), chart, config, o).outcome
    {
      hide ValuesEqual, Stored, Prune, Rollback, Uninstall, Upgrade, Install;
      if !o.config { return Error; }
      var call := RecoverPending(o.listPending, o.recover);
      if call != Done { return OutcomeOf(call); }
      if !o.load { return Error; }
      var ok, rel := FindCurrent(o.listCurrent);
      if !ok { return Error; }
      if rel.None? {
        var (h, c) := Install(Ours(), chart, config, o.apply);
        call := Replace(h, c);
        return OutcomeOf(call);
      }
      if UpToDate(rel.value, chart, config) { return Unchanged; }
      var (h, c) := Upgrade(Ours(), chart, config, o.apply);
      call := Replace(h, c);
      return OutcomeOf(call);
    }

    /** Client.Uninstall. */
    method Remove(o: UninstallOracle) returns (call: Call)
      modifies this
      ensures (Ours(), call) == UninstallRelease(old(Ours()), o) && OnlyOurs()
    {
      if !o.config { return Errored; }
      var ok, rel := FindCurrent(o.list);
      if !ok { return Errored; }
      if rel.None? { return Done; }
      var (h, c) := Uninstall(Ours(), o.fate);
      call := Replace(h, c);
    }
  }
}

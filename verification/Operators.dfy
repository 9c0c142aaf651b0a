/**
 The operator as it runs: one object that holds the connection to the store, Pattern copies and
 Applications as objects that are written through, and the steps of the deletion protocol in order.
 Each method is proved to do what the function of the protocol says, and the calling loop to keep
 the protocol's guarantees.
 */
module Operators {
  import opened Wrappers
  import opened Patterns
  import opened Applications
  import opened Targets
  import opened Cluster
  import opened Protocol
  import opened StoreFacts
  import opened Safety
  import opened Runs
  import Guarantees
  import Gates
  import Reports

  /** A Pattern in memory, with the version it was read at. */
  class Instance {
    var rv: nat
    var obj: Pattern

    constructor (c: Copy)
      ensures Value() == c
    {
      rv, obj := c.rv, c.obj;
    }

    function Value(): Copy
      reads this
    {
      Copy(rv, obj)
    }

    method Set(c: Copy)
      modifies this
      ensures Value() == c
    {
      rv, obj := c.rv, c.obj;
    }
  }

  /** An Application in memory, as read. */
  class AppObject {
    var app: App

    constructor (a: App)
      ensures app == a
    {
      app := a;
    }
  }

  /** The copy updateDeletionPhase leaves its caller with. */
  function PhaseCopy(w: World, o: Oracle, c: Copy, to: Phase): Copy {
    var q := c.(obj := c.obj.(status := c.obj.status.(phase := to)));
    var s := WriteStatus(w, o, q);
    if s.out.None? then q
    else
      var r := ReadPattern(s.world, o);
      if r.out.Got? then r.out.copy else s.out.value
  }

  lemma NoApplications(parent: string)
    ensures Children([], parent) == []
  {
  }

  lemma {:induction false} ChildrenOfAppend(apps: seq<App>, a: App, parent: string)
    ensures Children(apps + [a], parent) == Children(apps, parent) + if TracksChild(a, parent) then [a] else []
  {
    hide TracksChild;
    if apps == [] {
      assert [] + [a] == [a];
    } else {
      assert (apps + [a])[1..] == apps[1..] + [a];
      ChildrenOfAppend(apps[1..], a, parent);
    }
  }

  lemma OneMoreApplication(apps: seq<App>, i: nat, parent: string)
    requires i < |apps|
    ensures Children(apps[..i + 1], parent)
         == Children(apps[..i], parent) + if TracksChild(apps[i], parent) then [apps[i]] else []
  {
    assert apps[..i + 1] == apps[..i] + [apps[i]];
    ChildrenOfAppend(apps[..i], apps[i], parent);
  }

  lemma NoNames()
    ensures NotLocal([]) == []
  {
  }

  lemma {:induction false} NotLocalOfAppend(names: seq<string>, n: string)
    ensures NotLocal(names + [n]) == NotLocal(names) + if n == LOCAL_CLUSTER then [] else [n]
  {
    if names == [] {
      assert [] + [n] == [n];
    } else {
      assert (names + [n])[1..] == names[1..] + [n];
      NotLocalOfAppend(names[1..], n);
    }
  }

  lemma OneMoreName(names: seq<string>, i: nat)
    requires i < |names|
    ensures NotLocal(names[..i + 1]) == NotLocal(names[..i]) + if names[i] == LOCAL_CLUSTER then [] else [names[i]]
  {
    assert names[..i + 1] == names[..i] + [names[i]];
    NotLocalOfAppend(names[..i], names[i]);
  }

  /** The count on every way out of deleteManagedClusters, the failed list included. */
  lemma ManagedClustersCounted(w: World, o: Oracle)
    ensures var d := Protocol.DeleteManagedClusters(w, o);
            && w.log <= d.world.log
            && d.out.0 == Guarantees.Acknowledged(d.world.log) - Guarantees.Acknowledged(w.log)
  {
    hide HappenAll, DeleteEach, Guarantees.Deleted, Guarantees.Acknowledged;
    var l := ListClusters(w, o);
    Guarantees.OthersLogNothing(w, o(w.clock).outside);
    if l.out.Some? {
      Guarantees.ClusterCountIsExact(l.world, o, l.out.value, 0);
      Guarantees.DeleteEachLogs(l.world, o, l.out.value, 0);
    }
  }

  lemma ManagedClustersKeep(w: World, o: Oracle)
    requires Inv(w)
    ensures Keeps(w, Protocol.DeleteManagedClusters(w, o).world)
  {
    hide Inv, Snapshot, Pinned, Before, DeleteEach;
    var l := ListClusters(w, o);
    BeforeKeeps(w, o);
    if l.out.Some? {
      DeleteEachKeeps(l.world, o, l.out.value, 0);
      KeepsTransitive(w, l.world, DeleteEach(l.world, o, l.out.value, 0).world);
    }
  }

  class Operator {
    var world: World
    const oracle: Oracle

    constructor (w: World, o: Oracle)
      ensures world == w && oracle == o
    {
      world, oracle := w, o;
    }

    // ---- Requests ----

    /** Status().Update; on success the copy becomes what was stored. */
    method UpdateStatus(p: Instance) returns (ok: bool)
      modifies this, p
      ensures var w1 := Before(old(world), oracle);
              var taken := Served(Answer(old(world), oracle)) && Accepts(w1, old(p.Value()));
              && (ok <==> taken && Answer(old(world), oracle) == Fine)
              && (!taken ==> world == w1)
              && (taken ==> Current(world) == Current(w1).(status := old(p.obj.status)))
              && p.Value() == if ok then Copy(Top(world), Current(world)) else old(p.Value())
      ensures Inv(old(world)) && Faithful(old(world), old(p.Value())) ==>
        Keeps(old(world), world) && Faithful(world, p.Value())
      ensures world == WriteStatus(old(world), oracle, old(p.Value())).world
      ensures ok == WriteStatus(old(world), oracle, old(p.Value())).out.Some?
      ensures p.Value() == WriteStatus(old(world), oracle, old(p.Value())).out.GetOr(old(p.Value()))
    {
      hide Inv, Pinned, Snapshot, HappenAll, Before;
      StatusWriteExactly(world, oracle, p.Value());
      if Inv(world) && Faithful(world, p.Value()) {
        WriteStatusKeeps(world, oracle, p.Value());
        CopiesStay(world, WriteStatus(world, oracle, p.Value()).world, p.Value());
      }
      var s := WriteStatus(world, oracle, p.Value());
      world := s.world;
      ok := s.out.Some?;
      if ok {
        p.Set(s.out.value);
      }
    }

    /** Update; status and deletion stay, and the object goes with its last finalizer. */
    method UpdateObject(p: Instance) returns (ok: bool)
      modifies this, p
      ensures var w1 := Before(old(world), oracle);
              var taken := Served(Answer(old(world), oracle)) && Accepts(w1, old(p.Value()));
              && (ok <==> taken && Answer(old(world), oracle) == Fine)
              && (!taken ==> world == w1)
              && (taken ==>
                    && Current(world) == old(p.obj).(deleting := Current(w1).deleting, status := Current(w1).status)
                    && (world.gone <==> Current(world).deleting && Current(world).finalizers == {}))
              && p.Value() == if ok then Copy(Top(world), Current(world)) else old(p.Value())
      ensures Inv(old(world)) && Genuine(old(world), old(p.Value())) ==> Stays(old(world), world)
      ensures world == WriteObject(old(world), oracle, old(p.Value())).world
      ensures ok == WriteObject(old(world), oracle, old(p.Value())).out.Some?
      ensures p.Value() == WriteObject(old(world), oracle, old(p.Value())).out.GetOr(old(p.Value()))
    {
      hide Inv, Stays, Keeps, HappenAll, Before;
      ObjectWriteExactly(world, oracle, p.Value());
      if Inv(world) && Genuine(world, p.Value()) {
        WriteObjectStays(world, oracle, p.Value());
      }
      var s := WriteObject(world, oracle, p.Value());
      world := s.world;
      ok := s.out.Some?;
      if ok {
        p.Set(s.out.value);
      }
    }

    /** Update of an Application that was read as `was` and changed in its spec or operation. */
    method PutApplication(h: AppObject, ghost was: App, e: Event) returns (ok: bool)
      modifies this
      ensures world == UpdateApp(old(world), oracle, h.app, e).world
      ensures ok == UpdateApp(old(world), oracle, h.app, e).out
      ensures Inv(old(world)) && !e.AppDeleted? && Modest(old(world), h.app.spec) && Snapshot(old(world), was)
              && h.app == was.(spec := h.app.spec, operation := h.app.operation) ==>
        Keeps(old(world), world)
    {
      hide Inv, Keeps, Modest, Snapshot, Before;
      if Inv(world) && !e.AppDeleted? && Modest(world, h.app.spec) && Snapshot(world, was)
         && h.app == was.(spec := h.app.spec, operation := h.app.operation) {
        UpdateAppKeeps(world, oracle, was, h.app, e);
      }
      var s := UpdateApp(world, oracle, h.app, e);
      world := s.world;
      ok := s.out;
    }

    // ---- Steps on Applications ----

    /** Overwrites the handle's spec with the target's, then stores the whole object. */
    method UpdateApplication(t: Target, current: AppObject) returns (changed: bool, ok: bool)
      modifies this, current
      ensures var u := Protocol.UpdateApplication(old(world), oracle, t, old(current.app));
              && world == u.world
              && changed == !u.out.Unchanged?
              && ok == !u.out.WriteRefused?
      ensures current.app == if changed then old(current.app).(spec := t.spec) else old(current.app)
      ensures Inv(old(world)) && Snapshot(old(world), old(current.app)) && Modest(old(world), t.spec) ==>
        Keeps(old(world), world)
    {
      hide Inv, Keeps, Snapshot, Modest, Before;
      if Inv(world) && Snapshot(world, current.app) && Modest(world, t.spec) {
        UpdateApplicationKeeps(world, oracle, t, current.app);
      }
      if CompareApplication(Some(current.app.spec), Some(t.spec)) {
        return false, true;
      }
      ghost var was := current.app;
      current.app := current.app.(spec := t.spec);
      changed := true;
      ok := PutApplication(current, was, TargetWritten(current.app.id));
    }

    method SyncApplication(h: AppObject, prune: bool) returns (ok: bool)
      modifies this, h
      ensures var s := Protocol.SyncApplication(old(world), oracle, old(h.app), prune);
              world == s.world && ok == s.out
      ensures h.app == if Syncing(old(h.app), prune) then old(h.app)
                       else old(h.app).(operation := Some(Operation(Some(Sync(prune, [FORCE])))))
      ensures Inv(old(world)) && Snapshot(old(world), old(h.app)) ==> Keeps(old(world), world)
    {
      hide Inv, Keeps, Snapshot, Before;
      if Inv(world) && Snapshot(world, h.app) {
        SyncKeeps(world, oracle, h.app, prune);
      }
      if h.app.operation.Some? && h.app.operation.value.sync.Some? {
        var sync := h.app.operation.value.sync.value;
        if sync.prune == prune && FORCE in sync.options {
          return true;
        }
      }
      ghost var was := h.app;
      h.app := h.app.(operation := Some(Operation(Some(Sync(prune, [FORCE])))));
      ok := PutApplication(h, was, SyncRequested(h.app.id, prune, Answer(world, oracle) == Fine));
    }

    /** Lists every Application and keeps those tracked by the parent. */
    method GetChildApplications(parent: AppObject) returns (ok: bool, result: seq<App>)
      modifies this
      ensures var l := ListChildren(old(world), oracle, parent.app.id.name);
              && world == l.world
              && ok == l.out.Some?
              && (ok ==> result == l.out.value)
      ensures ok ==> forall a :: a in result <==>
        && a in Before(old(world), oracle).apps
        && a.tracking.Some? && parent.app.id.name + ":argoproj.io/Application:" <= a.tracking.value
      ensures Inv(old(world)) ==> Keeps(old(world), world)
    {
      hide Inv, Keeps, Before, Children, TracksChild;
      ChildrenHavePrefix(Before(world, oracle).apps, parent.app.id.name);
      NoApplications(parent.app.id.name);
      if Inv(world) {
        ListChildrenKeeps(world, oracle, parent.app.id.name);
      }
      result := [];
      var reply, turn := Answer(world, oracle), world.clock;
      world := Before(world, oracle);
      if reply != Fine {
        return false, [];
      }
      var items := world.apps;
      for i := 0 to |items|
        invariant world == Before(old(world), oracle) && parent.app == old(parent.app)
        invariant result == Children(items[..i], parent.app.id.name)
      {
        OneMoreApplication(items, i, parent.app.id.name);
        if TracksChild(items[i], parent.app.id.name) {
          result := result + [items[i]];
        }
      }
      assert items[..|items|] == items;
      ok := true;
      if result == [] {
        world := world.(sealed := world.sealed + {Seal(HubChildren(parent.app.id.name), turn)});
      }
    }

    /** Each child is synced on a copy of its own. */
    method SyncChildren(apps: seq<App>, prune: bool) returns (err: Option<Error>)
      modifies this
      ensures var s := SyncAll(old(world), oracle, apps, prune);
              world == s.world && err == s.out
      ensures err.None? ==>
        old(world).log <= world.log && Gates.AllAsked(apps, prune, Gates.News(old(world), world))
      ensures var n := Gates.Reach(old(world), oracle, apps, prune, 0);
              && (err.None? <==> n == |apps|)
              && (n < |apps| ==> err == Some(SyncFailed(apps[n].id.name))
                                 && world == Gates.SyncedUpTo(old(world), oracle, apps, prune, n + 1))
      ensures Inv(old(world)) && (forall a :: a in apps ==> Snapshot(old(world), a)) ==> Keeps(old(world), world)
    {
      hide Inv, Keeps, Snapshot, Before, Gates.AllAsked, Gates.Reach, Gates.SyncedUpTo, Protocol.SyncApplication;
      Gates.RefusalStopsTheList(world, oracle, apps, prune);
      Gates.ListIsAsked(world, oracle, apps, prune);
      if Inv(world) && forall a :: a in apps ==> Snapshot(world, a) {
        SyncAllKeeps(world, oracle, apps, prune);
      }
      for i := 0 to |apps|
        invariant SyncAll(world, oracle, apps[i..], prune) == SyncAll(old(world), oracle, apps, prune)
      {
        assert apps[i..][1..] == apps[i + 1..];
        var child := new AppObject(apps[i]);
        var ok := SyncApplication(child, prune);
        if !ok {
          return Some(SyncFailed(apps[i].id.name));
        }
      }
      err := None;
    }

    method CheckSpokeApplicationsGone(kind: Kind) returns (gone: bool, err: Option<Error>)
      modifies this
      ensures var q := QuerySpokes(old(world), oracle, kind);
              world == q.world && (gone, err) == SpokesGone(q.out)
      ensures gone <==> err.None?
      ensures Inv(old(world)) && !kind.HubChildren? ==>
        Keeps(old(world), world) && (gone ==> Reported(world.sealed, kind))
    {
      hide Inv, Keeps, Before;
      if Inv(world) && !kind.HubChildren? {
        QuerySpokesKeeps(world, oracle, kind);
      }
      var q := QuerySpokes(world, oracle, kind);
      world := q.world;
      match q.out {
        case Parsed(results) =>
          if |results| > 0 && results[0] != {} {
            return false, Some(SpokeAppsRemain(results[0]));
          }
          return true, None;
        case _ => return false, Some(SearchFailed);
      }
    }

    // ---- Managed clusters ----

    method ListManagedClusters() returns (ok: bool, names: seq<string>)
      modifies this
      ensures var l := ListClusters(old(world), oracle);
              && world == l.world
              && ok == l.out.Some?
              && names == if ok then NotLocal(l.out.value) else []
      ensures ok ==> forall n :: n in names <==> n in ListClusters(old(world), oracle).out.value && n != "local-cluster"
      ensures !ok ==> names == []
      ensures Inv(old(world)) ==> Keeps(old(world), world)
    {
      hide Before, Names, Inv, Keeps, NotLocal;
      if Inv(world) {
        BeforeKeeps(world, oracle);
      }
      NoNames();
      var l := ListClusters(world, oracle);
      world := l.world;
      names := [];
      ok := l.out.Some?;
      if ok {
        for i := 0 to |l.out.value|
          invariant world == l.world && names == NotLocal(l.out.value[..i])
        {
          OneMoreName(l.out.value, i);
          if l.out.value[i] != LOCAL_CLUSTER {
            names := names + [l.out.value[i]];
          }
        }
        assert l.out.value[..|l.out.value|] == l.out.value;
        Guarantees.NotLocalIsNamed(l.out.value);
      }
    }

    method DeleteManagedClusters() returns (count: nat, ok: bool)
      modifies this
      ensures var d := Protocol.DeleteManagedClusters(old(world), oracle);
              world == d.world && (count, ok) == d.out
      ensures old(world).log <= world.log
      ensures count == Guarantees.Acknowledged(world.log) - Guarantees.Acknowledged(old(world).log)
      ensures Inv(old(world)) ==> Keeps(old(world), world)
    {
      hide Inv, Keeps, Before, Guarantees.Acknowledged;
      ManagedClustersCounted(world, oracle);
      if Inv(world) {
        ManagedClustersKeep(world, oracle);
      }
      var l := ListClusters(world, oracle);
      world := l.world;
      count := 0;
      if l.out.None? {
        return 0, false;
      }
      var items := l.out.value;
      for i := 0 to |items|
        invariant DeleteEach(world, oracle, items[i..], count) == DeleteEach(l.world, oracle, items, 0)
      {
        assert items[i..][1..] == items[i + 1..];
        if items[i] == LOCAL_CLUSTER {
          continue;
        }
        var d := DeleteCluster(world, oracle, items[i]);
        world := d.world;
        if d.out.AlreadyGone? {
          continue;
        }
        if d.out.DeletionRefused? {
          return count, false;
        }
        count := count + 1;
      }
      ok := true;
    }

    // ---- The steps of finalizeObject ----

    /** Sets the phase on the caller's copy, writes it, and reads the copy anew. */
    method UpdateDeletionPhase(p: Instance, phase: Phase) returns (err: Option<Error>)
      modifies this, p
      ensures var a := Advance(old(world), oracle, old(p.Value()), phase);
              && world == a.world
              && a.out == if err.None? then Some(Transition(phase)) else err
      ensures p.Value() == PhaseCopy(old(world), oracle, old(p.Value()), phase)
      ensures Inv(old(world)) && Faithful(old(world), old(p.Value())) && Earned(old(world), old(p.obj), phase) ==>
        Moves(old(world), world)
    {
      hide Inv, Moves, Keeps, Earned, Before;
      if Inv(world) && Faithful(world, p.Value()) && Earned(world, p.obj, phase) {
        AdvanceMoves(world, oracle, p.Value(), phase);
      }
      p.obj := p.obj.(status := p.obj.status.(phase := phase));
      var ok := UpdateStatus(p);
      if !ok {
        return Some(PhaseWriteFailed);
      }
      var r := ReadPattern(world, oracle);
      world := r.world;
      if !r.out.Got? {
        return Some(RefetchFailed);
      }
      p.Set(r.out.copy);
      err := None;
    }

    method DeleteSpokeApps(t: Target, app: AppObject) returns (err: Option<Error>)
      modifies this, app
      ensures var g := SpokeChildGate(old(world), oracle, t, old(app.app));
              world == g.world && err == g.out
      ensures Inv(old(world)) && Snapshot(old(world), old(app.app)) && Modest(old(world), t.spec) ==>
        Keeps(old(world), world) && (err.None? ==> Reported(world.sealed, SpokeChildren))
    {
      hide Inv, Keeps, Snapshot, Modest, Reported, Before;
      if Inv(world) && Snapshot(world, app.app) && Modest(world, t.spec) {
        SpokeGatesKeep(world, oracle, t, app.app);
      }
      var changed, updated := UpdateApplication(t, app);
      if !updated {
        return Some(TargetUpdateFailed);
      }
      if changed {
        return Some(TargetUpdated);
      }
      var ok := SyncApplication(app, false);
      if !ok {
        return Some(SyncFailed(app.app.id.name));
      }
      var listed, children := GetChildApplications(app);
      if !listed {
        return Some(ListFailed);
      }
      err := SyncChildren(children, false);
      if err.Some? {
        return err;
      }
      var gone, failure := CheckSpokeApplicationsGone(SpokeChildren);
      if failure.Some? {
        return failure;
      }
      if !gone {
        return Some(WaitingForSpokes);
      }
      err := None;
    }

    /** The same for the spokes' parents; here the boolean of the check is thrown away. */
    method DeleteSpokeParents(t: Target, app: AppObject) returns (err: Option<Error>)
      modifies this, app
      ensures var g := SpokeGate(old(world), oracle, t, old(app.app));
              world == g.world && err == g.out
      ensures Inv(old(world)) && Snapshot(old(world), old(app.app)) && Modest(old(world), t.spec) ==>
        Keeps(old(world), world) && (err.None? ==> Reported(world.sealed, SpokeParents))
    {
      hide Inv, Keeps, Snapshot, Modest, Reported, Before;
      if Inv(world) && Snapshot(world, app.app) && Modest(world, t.spec) {
        SpokeGatesKeep(world, oracle, t, app.app);
      }
      var changed, updated := UpdateApplication(t, app);
      if !updated {
        return Some(TargetUpdateFailed);
      }
      if changed {
        return Some(TargetUpdated);
      }
      var ok := SyncApplication(app, false);
      if !ok {
        return Some(SyncFailed(app.app.id.name));
      }
      var listed, children := GetChildApplications(app);
      if !listed {
        return Some(ListFailed);
      }
      err := SyncChildren(children, true);
      if err.Some? {
        return err;
      }
      var _, failure := CheckSpokeApplicationsGone(SpokeParents);
      err := failure;
    }

    method DeleteHubApps(t: Target, app: AppObject) returns (err: Option<Error>)
      modifies this, app
      ensures var g := HubGate(old(world), oracle, t, old(app.app));
              world == g.world && err == g.out
      ensures Inv(old(world)) && Snapshot(old(world), old(app.app)) && Modest(old(world), t.spec) ==>
        Keeps(old(world), world) && (err.None? ==> Reported(world.sealed, HubChildren(old(app.app.id.name))))
    {
      hide Inv, Keeps, Snapshot, Modest, Reported, Before, DeleteEach, ListChildren, HaveHub, NotLocal, ListClusters,
           Guarantees.Acknowledged, Protocol.UpdateApplication, Protocol.SyncApplication;
      if Inv(world) && Snapshot(world, app.app) && Modest(world, t.spec) {
        HubGateKeeps(world, oracle, t, app.app);
      }
      var listed, children := GetChildApplications(app);
      if !listed {
        return Some(ListFailed);
      }
      if |children| == 0 {
        return None;
      }
      var h := HaveHub(world, oracle);
      world := h.world;
      if h.out {
        var _, clusters := ListManagedClusters();
        if |clusters| > 0 {
          var count, through := DeleteManagedClusters();
          if !through {
            return Some(ClusterDeletionFailed(count));
          }
          if count > 0 {
            return Some(ClustersDeleting(count));
          }
        }
      }
      var changed, updated := UpdateApplication(t, app);
      if !updated {
        return Some(TargetUpdateFailed);
      }
      if changed {
        return Some(TargetUpdated);
      }
      var ok := SyncApplication(app, true);
      if !ok {
        return Some(SyncFailed(app.app.id.name));
      }
      err := Some(WaitingForChildren(|children|));
    }

    /** The branch of finalizeObject for the recorded phase, on its deep copy. */
    method RunPhase(t: Target, app: AppObject, qualified: Instance) returns (err: Option<Error>)
      modifies this, app, qualified
      ensures var s := PhaseStep(old(world), oracle, old(qualified.Value()), t, old(app.app));
              world == s.world && err == s.out
      ensures old(qualified.obj.status.phase.Known()) && err.None? ==> old(qualified.obj.status.phase.DeleteHub?)
      ensures Inv(old(world)) && Faithful(old(world), old(qualified.Value())) && Snapshot(old(world), old(app.app))
              && Modest(old(world), t.spec) && old(app.app.id.name) == AppName(old(qualified.obj)) ==>
        Moves(old(world), world)
    {
      hide Before, WriteStatus, ReadPattern, SpokeChildGate, SpokeGate, HubGate, DeleteApp, HaveHub, PhaseCopy,
           Inv, Moves, Keeps, Snapshot, Modest, Reported, Earned, Faithful;
      if Inv(world) && Faithful(world, qualified.Value()) && Snapshot(world, app.app) && Modest(world, t.spec)
         && app.app.id.name == AppName(qualified.obj) {
        PhaseStepMoves(world, oracle, qualified.Value(), t, app.app);
      }
      match qualified.obj.status.phase {
        case InitializeDeletion =>
          var h := HaveHub(world, oracle);
          world := h.world;
          var to := if h.out then DeleteSpokeChildApps else DeleteHubChildApps;
          err := UpdateDeletionPhase(qualified, to);
          if err.None? {
            err := Some(Transition(to));
          }
        case DeleteSpokeChildApps =>
          err := DeleteSpokeApps(t, app);
          if err.None? {
            err := UpdateDeletionPhase(qualified, DeleteSpoke);
            if err.None? {
              err := Some(Transition(DeleteSpoke));
            }
          }
        case DeleteSpoke =>
          err := DeleteSpokeParents(t, app);
          if err.None? {
            err := UpdateDeletionPhase(qualified, DeleteHubChildApps);
            if err.None? {
              err := Some(Transition(DeleteHubChildApps));
            }
          }
        case DeleteHubChildApps =>
          err := DeleteHubApps(t, app);
          if err.None? {
            err := UpdateDeletionPhase(qualified, DeleteHub);
            if err.None? {
              err := Some(Transition(DeleteHub));
            }
          }
        case DeleteHub =>
          var r := DeleteApp(world, oracle, app.app.id);
          world := r.world;
          err := if r.out then None else Some(RemoveFailed);
        case Unrecognized(_) =>
          err := None;
      }
    }

    /** Works on a deep copy: the instance itself is not touched. */
    method FinalizeObject(instance: Instance) returns (err: Option<Error>)
      modifies this
      ensures var f := Finalize(old(world), oracle, instance.Value());
              world == f.world && err == f.out
      ensures Inv(old(world)) && Faithful(old(world), instance.Value()) ==> Moves(old(world), world)
    {
      hide NewTarget, ApplyDefaults, OwnedBySame, Before, PhaseStep, Prunes, Inv, Moves, Faithful;
      if Inv(world) && Faithful(world, instance.Value()) {
        FinalizeMoves(world, oracle, instance.Value());
      }
      var argoNamespace := world.argoNamespace;
      if !Prunes(instance.obj) {
        return None;
      }
      var d := Defaults(world, oracle);
      world := d.world;
      if d.out.None? {
        return None;
      }
      var qualified := new Instance(Qualified(instance.Value(), d.out.value));
      var t := NewTarget(qualified.obj, d.out.value, argoNamespace);
      var g := GetApp(world, oracle, t.id);
      world := g.world;
      if g.out.None? {
        return None;
      }
      var app := new AppObject(g.out.value);
      if !OwnedBySame(t.owners, app.app.owners) {
        return None;
      }
      err := RunPhase(t, app, qualified);
    }

    // ---- Reconcile ----

    /** actionPerformed and onReconcileErrorWithRequeue, on the copy the caller holds. */
    method ActionPerformed(p: Instance, reason: string, err: Option<Error>) returns (r: Outcome)
      modifies this, p
      ensures var s := Record(old(world), oracle, old(p.Value()), reason, err);
              world == s.world && r == s.out
      ensures Inv(old(world)) && Faithful(old(world), old(p.Value())) ==> Keeps(old(world), world)
    {
      hide Inv, Keeps, Before, WriteStatus;
      if Inv(world) && Faithful(world, p.Value()) {
        RecordKeeps(world, oracle, p.Value(), reason, err);
      }
      var deleting := p.obj.deleting;
      p.obj := p.obj.(status := p.obj.status.(lastStep := reason, lastError := err));
      var ok := UpdateStatus(p);
      if !ok {
        return Backoff;
      }
      if err.Some? {
        return Requeue(60);
      }
      if deleting {
        return Requeue(120);
      }
      r := Done;
    }

    /** The part of reconcileApplication on an Application the operator may write. */
    method ReconcileApplication(t: Target) returns (applied: Applied)
      modifies this
      ensures var a := Protocol.ReconcileApplication(old(world), oracle, t);
              world == a.world && applied == a.out
      ensures Inv(old(world)) && Modest(old(world), t.spec) ==> Keeps(old(world), world)
    {
      hide Inv, Keeps, Modest, Before;
      if Inv(world) && Modest(world, t.spec) {
        ReconcileApplicationKeeps(world, oracle, t);
      }
      var g := GetApp(world, oracle, t.id);
      world := g.world;
      if g.out.None? {
        var c := CreateApp(world, oracle, t);
        world := c.world;
        return Acted("create application", if c.out then None else Some(StepFailed("create application")), false);
      }
      var app := new AppObject(g.out.value);
      if !OwnedBySame(t.owners, app.app.owners) {
        return Acted("create application", Some(NotOwned), false);
      }
      var changed, ok := UpdateApplication(t, app);
      if !changed {
        return Converged;
      }
      applied := Acted("updated application", if ok then None else Some(TargetUpdateFailed), !ok);
    }

    method DeployPattern(instance: Instance) returns (r: Outcome)
      modifies this, instance
      ensures var s := Deploy(old(world), oracle, old(instance.Value()));
              world == s.world && r == s.out
      ensures Inv(old(world)) && Faithful(old(world), old(instance.Value())) ==> Keeps(old(world), world)
    {
      hide NewTarget, ApplyDefaults, Before, WriteStatus, Record, Complete, Protocol.ReconcileApplication, Inv,
           Keeps, Faithful, Modest;
      if Inv(world) && Faithful(world, instance.Value()) {
        DeployKeeps(world, oracle, instance.Value());
      }
      var argoNamespace := world.argoNamespace;
      var d := Defaults(world, oracle);
      world := d.world;
      if d.out.None? {
        r := ActionPerformed(instance, "applying defaults", Some(StepFailed("applying defaults")));
        return;
      }
      var qualified := new Instance(Qualified(instance.Value(), d.out.value));
      var step := Routine(world, oracle);
      world := step.world;
      if step.out != Fine {
        var err := if step.out == Performed then None else Some(StepFailed("prerequisites"));
        r := ActionPerformed(qualified, "prerequisites", err);
        return;
      }
      var applied := ReconcileApplication(NewTarget(qualified.obj, d.out.value, argoNamespace));
      match applied {
        case Acted(reason, err, bump) =>
          if bump {
            var status := qualified.obj.status;
            qualified.obj := qualified.obj.(status := status.(version := status.version + 1));
          }
          r := ActionPerformed(qualified, reason, err);
        case Converged =>
          r := CompletePattern(qualified);
      }
    }

    method CompletePattern(qualified: Instance) returns (r: Outcome)
      modifies this, qualified
      ensures var s := Complete(old(world), oracle, old(qualified.Value()));
              world == s.world && r == s.out
      ensures Inv(old(world)) && Faithful(old(world), old(qualified.Value())) ==> Keeps(old(world), world)
    {
      hide Inv, Keeps, Faithful, Before, WriteStatus;
      if Inv(world) && Faithful(world, qualified.Value()) {
        CompleteKeeps(world, oracle, qualified.Value());
      }
      var report := Routine(world, oracle);
      world := report.world;
      if report.out == Performed {
        var status := qualified.obj.status;
        qualified.obj := qualified.obj.(status := status.(lastStep := "update pattern application status"));
        var _ := UpdateStatus(qualified);
      }
      if qualified.obj.status.lastStep != "reconcile complete" || qualified.obj.status.lastError.Some? {
        var _ := ActionPerformed(qualified, "reconcile complete", None);
      }
      r := Requeue(180);
    }

    method Reconcile() returns (r: Outcome)
      modifies this
      ensures var s := Protocol.Reconcile(old(world), oracle);
              world == s.world && r == s.out
      ensures Inv(old(world)) ==> Advances(old(world), world)
    {
      hide Inv, Advances, Stays, Keeps, Faithful, Verbatim, Before;
      if Inv(world) {
        ReconcileAdvances(world, oracle);
      }
      var read := ReadPattern(world, oracle);
      world := read.world;
      match read.out {
        case NotFound => return Done;
        case ReadFailed => return Backoff;
        case Got(copy) =>
          var instance := new Instance(copy);
          r := HandleInstance(instance);
      }
    }

    method HandleInstance(instance: Instance) returns (r: Outcome)
      modifies this, instance
      ensures var s := Protocol.Handle(old(world), oracle, old(instance.Value()));
              world == s.world && r == s.out
      ensures
        && Inv(old(world))
        && Faithful(old(world), old(instance.Value()))
        && Verbatim(old(world), old(instance.Value()))
        ==>
        && Advances(old(world), world)
        && Reports.OwnWrites(old(world), world)
        && Reports.Tells(Step(world, r), old(Reports.LetsGo(world, oracle, instance.Value())))
    {
      hide Inv, Advances, Stays, Keeps, Moves, Faithful, Verbatim, Before;
      if Inv(world) && Faithful(world, instance.Value()) && Verbatim(world, instance.Value()) {
        HandleAdvances(world, oracle, instance.Value());
        Reports.HandleTells(world, oracle, instance.Value());
        Reports.AdvancingSigns(world, Handle(world, oracle, instance.Value()).world);
      }
      var config := Routine(world, oracle);
      world := config.world;
      if config.out != Fine {
        r := ActionPerformed(instance, "operator configuration", Some(StepFailed("operator configuration")));
        return;
      }
      if !instance.obj.deleting {
        if PATTERN_FINALIZER !in instance.obj.finalizers {
          instance.obj := instance.obj.(finalizers := instance.obj.finalizers + {PATTERN_FINALIZER});
          var ok := UpdateObject(instance);
          var err := if ok then None else Some(StepFailed("updated finalizer"));
          r := ActionPerformed(instance, "updated finalizer", err);
        } else {
          r := DeployPattern(instance);
        }
        return;
      }
      var err := FinalizeObject(instance);
      if err.Some? {
        r := ActionPerformed(instance, "finalize", err);
        return;
      }
      instance.obj := instance.obj.(finalizers := instance.obj.finalizers - {PATTERN_FINALIZER});
      var ok := UpdateObject(instance);
      r := if ok then Done else Backoff;
    }

    /** The controller's work loop: any number of calls, and what holds of the store afterwards. */
    method Work(calls: nat)
      modifies this
      requires Guarantees.Start(world)
      ensures world == Run(old(world), oracle, calls)
      ensures Inv(world)
      ensures forall i, j :: 0 <= i <= j < |world.versions| ==>
        world.versions[i].status.phase.Rank() <= world.versions[j].status.phase.Rank()
    {
      for done := 0 to calls
        invariant Run(world, oracle, calls - done) == Run(old(world), oracle, calls)
      {
        var _ := Reconcile();
      }
      Guarantees.StartHoldsInvariant(old(world));
      RunKeepsInvariant(old(world), oracle, calls);
      forall i: nat, j: nat | i <= j < |world.versions|
        ensures world.versions[i].status.phase.Rank() <= world.versions[j].status.phase.Rank()
      {
        HistoryIsMonotone(world.versions, i, j);
      }
    }
  }
}

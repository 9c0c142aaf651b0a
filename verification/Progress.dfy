/**
 Deletion gets done: calls on fresh reads without failures, in an environment that removes what it
 is asked to remove. Between two calls the environment may remove anything it likes.
 */
module Progress {
  import opened Wrappers
  import opened Patterns
  import opened Applications
  import opened Targets
  import opened Cluster
  import opened StoreFacts
  import opened Protocol
  import Safety
  import Runs
  import Guarantees

  /** Every request served, every read fresh, nobody in between; the cluster's facts are fixed. */
  function Calm(f: Facts): Oracle {
    (n: nat) => Turn([], Fine, 0, f)
  }

  function CalmCall(w: World, f: Facts): World {
    Reconcile(w, Calm(f)).world
  }

  predicate Released(w: World) {
    w.gone || PATTERN_FINALIZER !in Current(w).finalizers
  }

  /** A deletion under way: admitted, its finalizer still there, its phase one of the five. */
  ghost predicate Going(w: World) {
    && !w.gone
    && Current(w).deleting && ValidateDelete(Current(w)) && PATTERN_FINALIZER in Current(w).finalizers
    && PhaseOf(w).Known()
    && StoreOk(w) && Normal(w)
  }

  function TargetFor(p: Pattern, f: Facts, argoNamespace: string): Target {
    NewTarget(ApplyDefaults(p, f), f, argoNamespace)
  }

  function Goal(w: World, f: Facts): Target {
    TargetFor(Current(w), f, w.argoNamespace)
  }

  predicate Ours(w: World, f: Facts) {
    var parent := Find(w.apps, Goal(w, f).id);
    parent.Some? && OwnedBySame(Goal(w, f).owners, parent.value.owners)
  }

  function Differs(w: World, f: Facts): nat
    requires Ours(w, f)
  {
    if CompareApplication(Some(Find(w.apps, Goal(w, f).id).value.spec), Some(Goal(w, f).spec)) then 0 else 1
  }

  /** Everything the gates may have to wait for. */
  function Resources(w: World, f: Facts): nat {
    |Children(w.apps, Goal(w, f).id.name)| + |w.spokes| + |w.clusters|
  }

  /** Phases left, then resources left and whether the Application differs from its target. */
  function Potential(w: World, f: Facts): nat {
    if Released(w) then 0
    else if !Ours(w, f) then 1
    else 2 + 2 * (if PhaseOf(w).Rank() <= 4 then 4 - PhaseOf(w).Rank() else 0) + Differs(w, f) + Resources(w, f)
  }

  // ---- The target depends on the pattern's identity, spec and phase only ----

  predicate SameButStatus(p: Pattern, q: Pattern) {
    q == p.(status := q.status)
  }

  lemma HelmIgnoresReports(p: Pattern, q: Pattern, f: Facts, argoNamespace: string, prefix: string)
    requires SameButStatus(p, q) && q.status.phase == p.status.phase
    ensures HelmOf(ApplyDefaults(q, f), f, argoNamespace, prefix)
        == HelmOf(ApplyDefaults(p, f), f, argoNamespace, prefix)
  {
    assert BuiltIns(ApplyDefaults(q, f), f, argoNamespace) == BuiltIns(ApplyDefaults(p, f), f, argoNamespace);
    assert ValueFiles(ApplyDefaults(q, f), f, prefix) == ValueFiles(ApplyDefaults(p, f), f, prefix);
  }

  lemma TargetIgnoresReports(p: Pattern, q: Pattern, f: Facts, argoNamespace: string)
    requires SameButStatus(p, q)
    ensures TargetFor(q, f, argoNamespace).id == TargetFor(p, f, argoNamespace).id
    ensures TargetFor(q, f, argoNamespace).owners == TargetFor(p, f, argoNamespace).owners
    ensures q.status.phase == p.status.phase ==> TargetFor(q, f, argoNamespace) == TargetFor(p, f, argoNamespace)
  {
    hide HelmOf;
    if q.status.phase == p.status.phase {
      HelmIgnoresReports(p, q, f, argoNamespace, "");
      HelmIgnoresReports(p, q, f, argoNamespace, "$patternref");
    }
  }

  // ---- Stores that look alike ----

  /** The same Applications, up to their operations, versions and termination. */
  ghost predicate Mirrors(xs: seq<App>, ys: seq<App>) {
    && |ys| == |xs|
    && forall i :: 0 <= i < |xs| ==>
         ys[i].id == xs[i].id && ys[i].tracking == xs[i].tracking && ys[i].owners == xs[i].owners
             && ys[i].spec == xs[i].spec
  }

  ghost predicate Alike(w: World, v: World) {
    && v.gone == w.gone && v.argoNamespace == w.argoNamespace
    && v.spokes == w.spokes && v.hub == w.hub && |v.clusters| == |w.clusters|
    && Mirrors(w.apps, v.apps)
    && (StoreOk(w) ==> StoreOk(v))
  }

  ghost predicate SameApps(x: Option<App>, y: Option<App>) {
    && x.Some? == y.Some?
    && (x.Some? ==> y.value.id == x.value.id && y.value.tracking == x.value.tracking
                    && y.value.owners == x.value.owners && y.value.spec == x.value.spec)
  }

  lemma {:induction false} MirrorsFind(xs: seq<App>, ys: seq<App>, id: AppId)
    requires Mirrors(xs, ys)
    ensures SameApps(Find(xs, id), Find(ys, id))
  {
    if xs != [] {
      MirrorsFind(xs[1..], ys[1..], id);
    }
  }

  lemma {:induction false} MirrorsChildren(xs: seq<App>, ys: seq<App>, parent: string)
    requires Mirrors(xs, ys)
    ensures |Children(xs, parent)| == |Children(ys, parent)|
  {
    if xs != [] {
      MirrorsChildren(xs[1..], ys[1..], parent);
    }
  }

  lemma {:induction false} ReplaceMirrors(xs: seq<App>, s: App, a: App)
    requires Find(xs, a.id) == Some(s)
    requires a.tracking == s.tracking && a.owners == s.owners && a.spec == s.spec
    ensures Mirrors(xs, Replace(xs, a))
  {
    if xs[0].id != a.id {
      ReplaceMirrors(xs[1..], s, a);
    }
  }

  lemma {:induction false} ReplaceKeepsChildren(xs: seq<App>, s: App, a: App, parent: string)
    requires Find(xs, a.id) == Some(s) && a.tracking == s.tracking
    ensures |Children(Replace(xs, a), parent)| == |Children(xs, parent)|
  {
    if xs[0].id == a.id {
      assert Replace(xs, a)[1..] == xs[1..];
    } else {
      assert Replace(xs, a)[1..] == Replace(xs[1..], a);
      ReplaceKeepsChildren(xs[1..], s, a, parent);
    }
  }

  lemma AlikeNormal(w: World, v: World)
    requires Alike(w, v) && Normal(w)
    ensures Normal(v)
  {
    forall a | a in v.apps ensures Stored(a.spec) == a.spec {
      var i :| 0 <= i < |v.apps| && v.apps[i] == a;
      assert w.apps[i] in w.apps;
    }
  }

  /** Alike stores with patterns that differ in reports only have the same potential. */
  lemma AlikePotential(w: World, v: World, f: Facts)
    requires Going(w) && Alike(w, v) && SameButStatus(Current(w), Current(v)) && PhaseOf(v).Known()
    ensures Going(v)
    ensures Ours(v, f) <==> Ours(w, f)
    ensures PhaseOf(v) == PhaseOf(w) ==> Potential(v, f) == Potential(w, f) && Goal(v, f) == Goal(w, f)
    ensures Ours(w, f) && PhaseOf(v).Rank() > PhaseOf(w).Rank() ==> Potential(v, f) < Potential(w, f)
    ensures Resources(v, f) == Resources(w, f)
  {
    hide NewTarget, ApplyDefaults, CompareApplication, OwnedBySame, StoreOk, Children, Find, Stored;
    TargetIgnoresReports(Current(w), Current(v), f, w.argoNamespace);
    MirrorsFind(w.apps, v.apps, Goal(w, f).id);
    MirrorsChildren(w.apps, v.apps, Goal(w, f).id.name);
    AlikeNormal(w, v);
  }

  // ---- What the environment may do between calls ----

  predicate Removal(e: Outside) {
    e.RemoveApp? || e.RemoveSpoke? || e.RemoveCluster? || e.TakeOperation?
  }

  predicate Removals(es: seq<Outside>) {
    forall e :: e in es ==> Removal(e)
  }

  lemma {:induction false} RemoveShrinksChildren(apps: seq<App>, id: AppId, parent: string)
    ensures |Children(Remove(apps, id), parent)| <= |Children(apps, parent)|
  {
    if apps != [] {
      RemoveShrinksChildren(apps[1..], id, parent);
    }
  }

  lemma {:induction false} RemoveNameShrinks(cs: seq<ManagedCluster>, name: string)
    ensures |RemoveName(cs, name)| <= |cs|
  {
    if cs != [] {
      RemoveNameShrinks(cs[1..], name);
    }
  }

  lemma RemoveAppShrinks(w: World, f: Facts, gone: AppId)
    requires Going(w)
    ensures var v := w.(apps := Remove(w.apps, gone)); Shrinks(w, v, f)
  {
    hide NewTarget, ApplyDefaults, CompareApplication, OwnedBySame, Stored, Children;
    var id := Goal(w, f).id;
    RemoveIsSubset(w.apps, gone);
    FindAfterRemove(w.apps, gone, id);
    RemoveShrinksChildren(w.apps, gone, id.name);
  }

  lemma TakeOperationShrinks(w: World, f: Facts, a: App)
    requires Going(w) && Find(w.apps, a.id) == Some(a)
    ensures Shrinks(w, WithApp(w, a.(operation := None)), f)
  {
    hide NewTarget, ApplyDefaults, CompareApplication, OwnedBySame, Stored, Children, Find, Replace, StoreOk, Normal;
    var id := Goal(w, f).id;
    var b := a.(operation := None, rv := w.nextRv);
    TakenIsSound(w, a);
    ReplaceKeepsChildren(w.apps, a, b, id.name);
    FindInReplaced(w.apps, b, id);
  }

  lemma TakenIsSound(w: World, a: App)
    requires StoreOk(w) && Normal(w) && Find(w.apps, a.id) == Some(a)
    ensures StoreOk(WithApp(w, a.(operation := None))) && Normal(WithApp(w, a.(operation := None)))
  {
    hide Stored, Find, Replace;
    FindIsMember(w.apps, a.id);
    ReplaceIsUpdate(w.apps, a.(operation := None, rv := w.nextRv));
  }

  /** Same goal; nothing more to wait for, and no new difference. */
  ghost predicate Shrinks(w: World, v: World, f: Facts) {
    && Going(v) && Goal(v, f) == Goal(w, f)
    && v.versions == w.versions
    && Resources(v, f) <= Resources(w, f)
    && (Ours(v, f) ==> Ours(w, f) && Differs(v, f) == Differs(w, f))
  }

  lemma RemovalShrinks(w: World, f: Facts, e: Outside)
    requires Going(w) && Removal(e)
    ensures Shrinks(w, Happens(w, e), f)
  {
    hide NewTarget, ApplyDefaults, CompareApplication, OwnedBySame, Stored, Children, Find;
    match e {
      case RemoveApp(gone) => RemoveAppShrinks(w, f, gone);
      case TakeOperation(taken) =>
        FindIsMember(w.apps, taken);
        if Find(w.apps, taken).Some? {
          TakeOperationShrinks(w, f, Find(w.apps, taken).value);
        }
      case RemoveSpoke(s) => SubsetSize(w.spokes - {s}, w.spokes);
      case RemoveCluster(name) => RemoveNameShrinks(w.clusters, name);
      case _ =>
    }
  }

  lemma SubsetSize<T>(a: set<T>, b: set<T>)
    requires a <= b
    ensures |a| <= |b|
  {
    assert |b| == |a| + |b - a| by {
      assert b == a + (b - a);
    }
  }

  lemma {:induction false} RemovalsShrink(w: World, f: Facts, es: seq<Outside>)
    requires Going(w) && Removals(es)
    ensures Shrinks(w, HappenAll(w, es), f)
    decreases |es|
  {
    hide Going, Goal, Resources, Ours, Differs, Happens;
    if es != [] {
      RemovalShrinks(w, f, es[0]);
      RemovalsShrink(Happens(w, es[0]), f, es[1..]);
    }
  }

  // ---- Requests on a calm store ----

  /** Writing over the stored version succeeds. */
  lemma CalmUpdateApp(w: World, f: Facts, a: App, e: Event)
    requires Find(w.apps, a.id).Some? && Find(w.apps, a.id).value.rv == a.rv
    ensures UpdateApp(w, Calm(f), a, e)
         == Step(WithApp(w, a.(spec := Stored(a.spec))).(clock := w.clock + 1, log := w.log + [e]), true)
  {
    hide Stored, Find, Replace;
  }

  /** A sync request leaves everything alike and is in place afterwards; other Applications keep theirs. */
  lemma CalmSync(w: World, f: Facts, a: App, prune: bool)
    requires StoreOk(w) && Normal(w) && Find(w.apps, a.id) == Some(a)
    ensures var s := SyncApplication(w, Calm(f), a, prune);
            && s.out && Alike(w, s.world) && s.world.versions == w.versions
            && Find(s.world.apps, a.id).Some? && Syncing(Find(s.world.apps, a.id).value, prune)
            && (forall id :: id != a.id ==> Find(s.world.apps, id) == Find(w.apps, id))
  {
    hide Stored, CompareApplication;
    var s := SyncApplication(w, Calm(f), a, prune);
    if !Syncing(a, prune) {
      var b := a.(operation := Some(Operation(Some(Sync(prune, [FORCE])))));
      CalmUpdateApp(w, f, b, SyncRequested(a.id, prune, true));
      FindIsMember(w.apps, a.id);
      var c := b.(rv := w.nextRv);
      assert b.spec == Stored(b.spec);
      ReplaceMirrors(w.apps, a, c);
      ReplaceIsUpdate(w.apps, c);
      forall id ensures Find(s.world.apps, id) == if id == a.id then Some(c) else Find(w.apps, id) {
        FindInReplaced(w.apps, c, id);
      }
    }
  }

  ghost predicate AllStored(w: World, apps: seq<App>) {
    forall a :: a in apps ==> Find(w.apps, a.id) == Some(a)
  }

  ghost predicate AllSyncing(w: World, apps: seq<App>, prune: bool) {
    forall a :: a in apps ==> Find(w.apps, a.id).Some? && Syncing(Find(w.apps, a.id).value, prune)
  }

  lemma AlikeTransitive(u: World, v: World, w: World)
    requires Alike(u, v) && Alike(v, w)
    ensures Alike(u, w)
  {
    hide StoreOk;
  }

  lemma {:induction false} CalmSyncAll(w: World, f: Facts, apps: seq<App>, prune: bool)
    requires StoreOk(w) && Normal(w) && AllStored(w, apps) && UniqueIds(apps)
    ensures var s := SyncAll(w, Calm(f), apps, prune);
            && s.out.None? && Alike(w, s.world) && s.world.versions == w.versions
            && AllSyncing(s.world, apps, prune)
            && (forall id :: (forall a :: a in apps ==> a.id != id) ==> Find(s.world.apps, id) == Find(w.apps, id))
    decreases |apps|
  {
    hide SyncApplication, Normal, StoreOk, Find;
    if apps != [] {
      assert apps == [apps[0]] + apps[1..];
      var v := SyncApplication(w, Calm(f), apps[0], prune).world;
      CalmSync(w, f, apps[0], prune);
      AlikeNormal(w, v);
      assert forall a :: a in apps[1..] ==> a.id != apps[0].id by {
        forall a | a in apps[1..] ensures a.id != apps[0].id {
          var k :| 0 <= k < |apps[1..]| && apps[1..][k] == a;
          assert apps[k + 1] == a;
        }
      }
      CalmSyncAll(v, f, apps[1..], prune);
      AlikeTransitive(w, v, SyncAll(w, Calm(f), apps, prune).world);
    }
  }

  lemma {:induction false} ChildrenUnique(apps: seq<App>, parent: string)
    requires UniqueIds(apps)
    ensures UniqueIds(Children(apps, parent))
  {
    if apps != [] {
      var rest := Children(apps[1..], parent);
      ChildrenUnique(apps[1..], parent);
      ChildrenAreTracked(apps[1..], parent);
      forall a | a in rest ensures a.id != apps[0].id {
        var k :| 0 <= k < |apps[1..]| && apps[1..][k] == a;
        assert apps[k + 1] == a;
      }
    }
  }

  lemma ChildrenAreStored(w: World, parent: string)
    requires StoreOk(w)
    ensures AllStored(w, Children(w.apps, parent)) && UniqueIds(Children(w.apps, parent))
  {
    ChildrenUnique(w.apps, parent);
    ChildrenAreTracked(w.apps, parent);
    forall a | a in Children(w.apps, parent) ensures Find(w.apps, a.id) == Some(a) {
      FindUnique(w.apps, a);
    }
  }

  /** All hub children of the parent are being synced, pruning or not. */
  ghost predicate ChildrenSyncing(w: World, parent: string, prune: bool) {
    forall a :: a in Children(w.apps, parent) ==> Syncing(a, prune)
  }

  lemma SyncedChildren(w: World, v: World, parent: string, prune: bool)
    requires StoreOk(w) && Alike(w, v) && AllSyncing(v, Children(w.apps, parent), prune)
    ensures ChildrenSyncing(v, parent, prune)
  {
    hide Find, Syncing;
    ChildrenAreTracked(w.apps, parent);
    ChildrenAreTracked(v.apps, parent);
    forall a | a in Children(v.apps, parent) ensures Syncing(a, prune) {
      var i :| 0 <= i < |v.apps| && v.apps[i] == a;
      assert w.apps[i] in w.apps && TracksChild(w.apps[i], parent);
      FindUnique(v.apps, a);
    }
  }

  /** The parent is being synced; a parent that tracks itself is synced as one of its children. */
  ghost predicate ParentSyncing(w: World, id: AppId) {
    && Find(w.apps, id).Some?
    && (Syncing(Find(w.apps, id).value, false) || TracksChild(Find(w.apps, id).value, id.name))
  }

  lemma ParentStaysSynced(w: World, v: World, id: AppId)
    requires StoreOk(w) && Alike(w, v) && Find(w.apps, id).Some? && Syncing(Find(w.apps, id).value, false)
    requires (forall a :: a in Children(w.apps, id.name) ==> a.id != id) ==> Find(v.apps, id) == Find(w.apps, id)
    ensures ParentSyncing(v, id)
  {
    hide Syncing, StoreOk;
    MirrorsFind(w.apps, v.apps, id);
    ChildrenAreTracked(w.apps, id.name);
    if a :| a in Children(w.apps, id.name) && a.id == id {
      assert Find(w.apps, id) == Some(a) by {
        StoredIsFound(w, a);
      }
    }
  }

  lemma StoredIsFound(w: World, a: App)
    requires StoreOk(w) && a in w.apps
    ensures Find(w.apps, a.id) == Some(a)
  {
    FindUnique(w.apps, a);
  }

  /** With the target in place, the syncs go through and the gate is left to the query. */
  lemma CalmSyncParentAndChildren(w: World, f: Facts, t: Target, a: App, prune: bool)
    requires StoreOk(w) && Normal(w) && Find(w.apps, a.id) == Some(a)
    requires CompareApplication(Some(a.spec), Some(t.spec))
    ensures var s := SyncParentAndChildren(w, Calm(f), t, a, prune);
            && s.out.None? && Alike(w, s.world) && s.world.versions == w.versions
            && ChildrenSyncing(s.world, a.id.name, prune)
            && ParentSyncing(s.world, a.id)
  {
    hide CompareApplication, SyncApplication, Normal, StoreOk, Find, Children, SyncAll, Syncing, AllSyncing,
         TracksChild;
    var s := SyncApplication(w, Calm(f), a, false).world;
    CalmSync(w, f, a, false);
    AlikeNormal(w, s);
    var l := ListChildren(s, Calm(f), a.id.name);
    assert l.world.apps == s.apps;
    assert Alike(s, l.world) && Normal(l.world) by {
      SameStore(s, l.world);
    }
    ChildrenAreStored(l.world, a.id.name);
    CalmSyncAll(l.world, f, l.out.value, prune);
    var v := SyncAll(l.world, Calm(f), l.out.value, prune).world;
    SyncedChildren(l.world, v, a.id.name, prune);
    AlikeTransitive(w, s, l.world);
    AlikeTransitive(w, l.world, v);
    ParentStaysSynced(l.world, v, a.id);
  }

  lemma SameStore(w: World, v: World)
    requires v.gone == w.gone && v.argoNamespace == w.argoNamespace && v.spokes == w.spokes && v.hub == w.hub
    requires |v.clusters| == |w.clusters| && v.apps == w.apps && v.nextRv == w.nextRv
    ensures Alike(w, v)
    ensures Normal(w) ==> Normal(v)
  {
  }

  // ---- Managed clusters on a calm store ----

  /** Every cluster bearing one of the names is being deleted. */
  predicate Terminating(cs: seq<ManagedCluster>, names: seq<string>) {
    forall i :: 0 <= i < |cs| && cs[i].name in names ==> cs[i].terminating
  }

  ghost predicate LaterClusters(xs: seq<ManagedCluster>, ys: seq<ManagedCluster>) {
    && |ys| == |xs|
    && forall i :: 0 <= i < |xs| ==> ys[i].name == xs[i].name && (xs[i].terminating ==> ys[i].terminating)
  }

  lemma CalmDeleteCluster(w: World, f: Facts, name: string)
    requires name in Names(w.clusters)
    ensures var d := DeleteCluster(w, Calm(f), name);
            && d.out == Accepted
            && Alike(w, d.world) && d.world.versions == w.versions
            && LaterClusters(w.clusters, d.world.clusters)
            && Terminating(d.world.clusters, [name])
  {
    hide StoreOk, Alike;
    SameStore(w, DeleteCluster(w, Calm(f), name).world);
  }

  lemma LaterNames(xs: seq<ManagedCluster>, ys: seq<ManagedCluster>)
    requires LaterClusters(xs, ys)
    ensures Names(ys) == Names(xs)
  {
  }

  lemma TerminatingStays(xs: seq<ManagedCluster>, ys: seq<ManagedCluster>, name: string, names: seq<string>)
    requires LaterClusters(xs, ys) && Terminating(xs, [name]) && Terminating(ys, names)
    ensures Terminating(ys, [name] + names)
  {
  }

  lemma {:induction false} CalmDeleteEach(w: World, f: Facts, names: seq<string>, accepted: nat)
    requires forall n :: n in names ==> n in Names(w.clusters)
    ensures var d := DeleteEach(w, Calm(f), names, accepted);
            && d.out == (accepted + |NotLocal(names)|, true)
            && Alike(w, d.world) && d.world.versions == w.versions
            && LaterClusters(w.clusters, d.world.clusters)
            && Terminating(d.world.clusters, NotLocal(names))
    decreases |names|
  {
    hide StoreOk, Alike, DeleteCluster, Terminating;
    if names == [] {
      SameStore(w, w);
      NothingIsTerminating(w.clusters);
    } else {
      assert names == [names[0]] + names[1..];
      if names[0] == LOCAL_CLUSTER {
        CalmDeleteEach(w, f, names[1..], accepted);
        assert NotLocal(names) == NotLocal(names[1..]);
      } else {
        var d := DeleteCluster(w, Calm(f), names[0]);
        CalmDeleteCluster(w, f, names[0]);
        LaterNames(w.clusters, d.world.clusters);
        CalmDeleteEach(d.world, f, names[1..], accepted + 1);
        var v := DeleteEach(w, Calm(f), names, accepted).world;
        AlikeTransitive(w, d.world, v);
        TerminatingStays(d.world.clusters, v.clusters, names[0], NotLocal(names[1..]));
      }
    }
  }

  lemma NothingIsTerminating(cs: seq<ManagedCluster>)
    ensures Terminating(cs, [])
  {
  }

  // ---- One call ----

  /** What a waiting call leaves behind: the gate's resources are there, and their removal was asked for. */
  ghost predicate Asked(w: World, f: Facts) {
    && Ours(w, f)
    && var parent := Find(w.apps, Goal(w, f).id).value;
       match PhaseOf(w)
       case DeleteSpokeChildApps =>
         && SpokesOf(w, SpokeChildren) != {} && Differs(w, f) == 0
         && ParentSyncing(w, parent.id) && ChildrenSyncing(w, parent.id.name, false)
       case DeleteSpoke =>
         && SpokesOf(w, SpokeParents) != {} && Differs(w, f) == 0
         && ParentSyncing(w, parent.id) && ChildrenSyncing(w, parent.id.name, true)
       case DeleteHubChildApps =>
         Children(w.apps, parent.id.name) != [] &&
         var names := NotLocal(Names(w.clusters));
         if HubIsManaged(w) && names != [] then Terminating(w.clusters, names)
         else Differs(w, f) == 0 && Syncing(parent, true)
       case _ => false
  }

  predicate HubIsManaged(w: World) {
    w.hub.Some? && EqualFoldTrue(w.hub.value)
  }

  /** The phase has moved on. */
  ghost predicate Crossed(w: World, v: World) {
    && Alike(w, v) && w.versions < v.versions
    && SameButStatus(Current(w), Current(v))
    && PhaseOf(v).Known() && PhaseOf(v).Rank() > PhaseOf(w).Rank()
  }

  /** The Application has been given the target's spec, from which it differed. */
  ghost predicate Retargeted(w: World, v: World, t: Target, a: App) {
    && !CompareApplication(Some(a.spec), Some(t.spec))
    && v.versions == w.versions && v.gone == w.gone && v.argoNamespace == w.argoNamespace
    && v.spokes == w.spokes && v.hub == w.hub && |v.clusters| == |w.clusters|
    && v.nextRv == w.nextRv + 1
    && v.apps == Replace(w.apps, a.(spec := Stored(t.spec), rv := w.nextRv))
  }

  ghost predicate Waits(w: World, v: World, f: Facts) {
    Alike(w, v) && v.versions == w.versions && Asked(v, f)
  }

  ghost predicate AtGoal(w: World, f: Facts, c: Copy, t: Target, a: App) {
    && Going(w) && Ours(w, f)
    && c == Qualified(Copy(Top(w), Current(w)), f)
    && t == Goal(w, f) && Find(w.apps, t.id) == Some(a)
  }

  lemma CalmAdvance(w: World, f: Facts, c: Copy, to: Phase)
    requires Going(w) && c == Qualified(Copy(Top(w), Current(w)), f) && to.Known() && to.Rank() > PhaseOf(w).Rank()
    ensures Advance(w, Calm(f), c, to).out.Some? && Crossed(w, Advance(w, Calm(f), c, to).world)
  {
    hide StoreOk, Mirrors;
    var q := c.(obj := c.obj.(status := c.obj.status.(phase := to)));
    var s := WriteStatus(w, Calm(f), q);
    assert s.world.versions == w.versions + [Current(w).(status := q.obj.status)];
    SameStore(w, Advance(w, Calm(f), c, to).world);
  }

  lemma CalmRetarget(w: World, f: Facts, c: Copy, t: Target, a: App)
    requires AtGoal(w, f, c, t, a) && !CompareApplication(Some(a.spec), Some(t.spec))
    ensures var u := UpdateApplication(w, Calm(f), t, a);
            u.out.Written? && Retargeted(w, u.world, t, a)
  {
    hide NewTarget, ApplyDefaults, CompareApplication, OwnedBySame, Going, Stored;
    FindIsMember(w.apps, t.id);
    CalmUpdateApp(w, f, a.(spec := t.spec), TargetWritten(a.id));
  }

  lemma CalmSpokeGates(w: World, f: Facts, c: Copy, t: Target, a: App)
    requires AtGoal(w, f, c, t, a)
    requires PhaseOf(w) == DeleteSpokeChildApps || PhaseOf(w) == DeleteSpoke
    ensures var o := Calm(f);
            var g := if PhaseOf(w) == DeleteSpoke then SpokeGate(w, o, t, a) else SpokeChildGate(w, o, t, a);
            || (g.out.None? && Alike(w, g.world) && g.world.versions == w.versions)
            || (g.out.Some? && (Retargeted(w, g.world, t, a) || Waits(w, g.world, f)))
  {
    hide NewTarget, ApplyDefaults, CompareApplication, OwnedBySame, StoreOk, SyncParentAndChildren, Mirrors,
         Normal, Find, Children, Stored;
    FindIsMember(w.apps, t.id);
    var prune := PhaseOf(w) == DeleteSpoke;
    if CompareApplication(Some(a.spec), Some(t.spec)) {
      var s := SyncParentAndChildren(w, Calm(f), t, a, prune);
      CalmSyncParentAndChildren(w, f, t, a, prune);
      var kind := if prune then SpokeParents else SpokeChildren;
      var q := QuerySpokes(s.world, Calm(f), kind);
      SameStore(s.world, q.world);
      AlikeTransitive(w, s.world, q.world);
      if SpokesOf(s.world, kind) != {} {
        StillAtGoal(w, q.world, f, c, t, a);
        assert SpokesOf(q.world, kind) == SpokesOf(s.world, kind);
      }
    } else {
      CalmRetarget(w, f, c, t, a);
      WrittenEndsSync(w, f, t, a, prune);
    }
  }

  lemma WrittenEndsSync(w: World, f: Facts, t: Target, a: App, prune: bool)
    requires UpdateApplication(w, Calm(f), t, a).out.Written?
    ensures SyncParentAndChildren(w, Calm(f), t, a, prune)
        == Step(UpdateApplication(w, Calm(f), t, a).world, Some(TargetUpdated))
  {
    hide UpdateApplication;
  }

  lemma StillAtGoal(w: World, v: World, f: Facts, c: Copy, t: Target, a: App)
    requires AtGoal(w, f, c, t, a) && Alike(w, v) && v.versions == w.versions
    ensures Going(v) && Goal(v, f) == t && Ours(v, f) && Find(v.apps, t.id).value.id == a.id
    ensures Differs(v, f) == Differs(w, f)
  {
    hide NewTarget, ApplyDefaults, CompareApplication, OwnedBySame, StoreOk;
    MirrorsFind(w.apps, v.apps, t.id);
    AlikeNormal(w, v);
    FindIsMember(w.apps, t.id);
  }

  /** Undisturbed, the gate is three reads and the loop over the clusters. */
  lemma CalmClusterGateParts(w: World, f: Facts)
    ensures var g := ClusterGate(w, Calm(f));
            var names := Names(w.clusters);
            if HubIsManaged(w) && NotLocal(names) != [] then
              var d := DeleteEach(w.(clock := w.clock + 3, hubReads := w.hubReads + {true}), Calm(f), names, 0);
              && g.world == d.world
              && (d.out == (|NotLocal(names)|, true) ==> g.out == Some(ClustersDeleting(|NotLocal(names)|)))
            else g.out.None? && g.world == w.(clock := g.world.clock, hubReads := g.world.hubReads)
  {
    hide DeleteEach, NotLocal, Names;
  }

  lemma CalmClusterGate(w: World, f: Facts)
    ensures var g := ClusterGate(w, Calm(f));
            && Alike(w, g.world) && g.world.versions == w.versions
            && g.world.apps == w.apps
            && (g.out.Some? <==> HubIsManaged(w) && NotLocal(Names(w.clusters)) != [])
            && (g.out.Some? ==>
                  && Names(g.world.clusters) == Names(w.clusters)
                  && Terminating(g.world.clusters, NotLocal(Names(w.clusters))))
            && (g.out.None? ==> g.world.clusters == w.clusters && g.world.nextRv == w.nextRv)
  {
    hide StoreOk, DeleteEach, ClusterGate, NotLocal, Mirrors, Terminating, HubIsManaged;
    var g := ClusterGate(w, Calm(f));
    var names := Names(w.clusters);
    CalmClusterGateParts(w, f);
    if HubIsManaged(w) && NotLocal(names) != [] {
      CalmDeleteEachKeepsApps(w.(clock := w.clock + 3, hubReads := w.hubReads + {true}), f, names, 0);
      CalmDeleteEach(w.(clock := w.clock + 3, hubReads := w.hubReads + {true}), f, names, 0);
      assert Names(g.world.clusters) == names;
    }
    SameStore(w, g.world);
  }

  lemma {:induction false} CalmDeleteEachKeepsApps(w: World, f: Facts, names: seq<string>, accepted: nat)
    ensures var d := DeleteEach(w, Calm(f), names, accepted).world;
            && d.apps == w.apps && d.nextRv == w.nextRv && d.versions == w.versions && d.gone == w.gone
            && d.argoNamespace == w.argoNamespace && d.spokes == w.spokes && d.hub == w.hub
            && |d.clusters| == |w.clusters|
    decreases |names|
  {
    if names != [] {
      if names[0] == LOCAL_CLUSTER {
        CalmDeleteEachKeepsApps(w, f, names[1..], accepted);
      } else {
        var d := DeleteCluster(w, Calm(f), names[0]);
        if !d.out.DeletionRefused? {
          CalmDeleteEachKeepsApps(d.world, f, names[1..], if d.out.Accepted? then accepted + 1 else accepted);
        }
      }
    }
  }

  lemma CalmHubGate(w: World, f: Facts, c: Copy, t: Target, a: App)
    requires AtGoal(w, f, c, t, a) && PhaseOf(w) == DeleteHubChildApps
    ensures var g := HubGate(w, Calm(f), t, a);
            || (g.out.None? && Alike(w, g.world) && g.world.versions == w.versions)
            || (g.out.Some? && (Retargeted(w, g.world, t, a) || Waits(w, g.world, f)))
  {
    hide NewTarget, ApplyDefaults, CompareApplication, OwnedBySame, StoreOk, SyncApplication, UpdateApplication,
         ClusterGate, NotLocal, Children, Terminating, Syncing;
    FindIsMember(w.apps, t.id);
    var l := ListChildren(w, Calm(f), a.id.name);
    SameStore(w, l.world);
    if Children(w.apps, a.id.name) != [] {
      var k := ClusterGate(l.world, Calm(f));
      CalmClusterGate(l.world, f);
      AlikeTransitive(w, l.world, k.world);
      StillAtGoal(w, k.world, f, c, t, a);
      if k.out.None? {
        CalmAsk(w, k.world, f, c, t, a, |l.out.value|);
      }
    }
  }

  lemma CalmAsk(w: World, v: World, f: Facts, c: Copy, t: Target, a: App, n: nat)
    requires AtGoal(w, f, c, t, a) && PhaseOf(w) == DeleteHubChildApps && Children(w.apps, a.id.name) != []
    requires Alike(w, v) && v.versions == w.versions && v.apps == w.apps && v.nextRv == w.nextRv
        && v.clusters == w.clusters
    requires !(HubIsManaged(w) && NotLocal(Names(w.clusters)) != [])
    ensures var h := AskHubDeletion(v, Calm(f), t, a, n);
            Retargeted(w, h.world, t, a) || Waits(w, h.world, f)
  {
    hide NewTarget, ApplyDefaults, CompareApplication, OwnedBySame, StoreOk, NotLocal, Children, Terminating,
         Syncing, SyncApplication, Mirrors, Normal, Stored;
    StillAtGoal(w, v, f, c, t, a);
    FindIsMember(w.apps, t.id);
    if CompareApplication(Some(a.spec), Some(t.spec)) {
      CalmSync(v, f, a, true);
      var s := SyncApplication(v, Calm(f), a, true);
      AlikeTransitive(w, v, s.world);
      StillAtGoal(w, s.world, f, c, t, a);
      MirrorsChildren(w.apps, s.world.apps, a.id.name);
      SyncKeepsClusters(v, f, a, true);
    } else {
      CalmRetarget(v, f, c, t, a);
    }
  }

  lemma SyncKeepsClusters(w: World, f: Facts, a: App, prune: bool)
    ensures SyncApplication(w, Calm(f), a, prune).world.clusters == w.clusters
  {
  }

  /** In a phase before the last, a call's own part ends with an error and one of three effects. */
  lemma CalmPhaseStep(w: World, f: Facts, c: Copy, t: Target, a: App)
    requires AtGoal(w, f, c, t, a) && !PhaseOf(w).DeleteHub?
    ensures var s := PhaseStep(w, Calm(f), c, t, a);
            s.out.Some? && (Crossed(w, s.world) || Retargeted(w, s.world, t, a) || Waits(w, s.world, f))
  {
    hide NewTarget, OwnedBySame, StoreOk, Normal, Find, Mirrors, SpokeChildGate, SpokeGate, HubGate, Advance,
         Retargeted, Asked, Ours, SameButStatus, Goal;
    match PhaseOf(w) {
      case InitializeDeletion =>
        var h := HaveHub(w, Calm(f));
        SameStore(w, h.world);
        AdvanceFrom(w, h.world, f, c, if h.out then DeleteSpokeChildApps else DeleteHubChildApps);
      case DeleteSpokeChildApps =>
        CalmSpokeGates(w, f, c, t, a);
        var g := SpokeChildGate(w, Calm(f), t, a);
        if g.out.None? {
          AdvanceFrom(w, g.world, f, c, DeleteSpoke);
        }
      case DeleteSpoke =>
        CalmSpokeGates(w, f, c, t, a);
        var g := SpokeGate(w, Calm(f), t, a);
        if g.out.None? {
          AdvanceFrom(w, g.world, f, c, DeleteHubChildApps);
        }
      case DeleteHubChildApps =>
        CalmHubGate(w, f, c, t, a);
        var g := HubGate(w, Calm(f), t, a);
        if g.out.None? {
          AdvanceFrom(w, g.world, f, c, DeleteHub);
        }
    }
  }

  lemma AdvanceFrom(w: World, v: World, f: Facts, c: Copy, to: Phase)
    requires Going(w) && c == Qualified(Copy(Top(w), Current(w)), f) && to.Known() && to.Rank() > PhaseOf(w).Rank()
    requires Alike(w, v) && v.versions == w.versions
    ensures Advance(v, Calm(f), c, to).out.Some? && Crossed(w, Advance(v, Calm(f), c, to).world)
  {
    hide StoreOk, Advance, Mirrors, Normal, ApplyDefaults;
    AlikeNormal(w, v);
    assert Going(v);
    CalmAdvance(v, f, c, to);
    AlikeTransitive(w, v, Advance(v, Calm(f), c, to).world);
  }

  // ---- The record that ends the call ----

  /** The store after a call's own part, with the clock and the recorded step moved on. */
  ghost predicate Recorded(v: World, r: World) {
    && Alike(v, r) && r.apps == v.apps && r.clusters == v.clusters
    && SameButStatus(Current(v), Current(r)) && PhaseOf(r) == PhaseOf(v)
  }

  lemma CalmRecord(w: World, v: World, f: Facts, step: string, err: Option<Error>)
    requires w.versions <= v.versions && !v.gone && (v.versions == w.versions || |v.versions| > |w.versions|)
    ensures Recorded(v, Record(v, Calm(f), Copy(Top(w), Current(w)), step, err).world)
  {
    hide StoreOk;
    SameStore(v, Record(v, Calm(f), Copy(Top(w), Current(w)), step, err).world);
  }

  lemma RecordedAsked(v: World, r: World, f: Facts)
    requires Going(v) && Recorded(v, r) && Asked(v, f)
    ensures Asked(r, f)
  {
    hide NewTarget, ApplyDefaults, CompareApplication, OwnedBySame, StoreOk, Children, Find, Stored, NotLocal,
         Terminating, Syncing, Normal, Mirrors;
    TargetIgnoresReports(Current(v), Current(r), f, v.argoNamespace);
    assert SpokesOf(r, SpokeChildren) == SpokesOf(v, SpokeChildren);
    assert SpokesOf(r, SpokeParents) == SpokesOf(v, SpokeParents);
  }

  lemma RetargetedPotential(w: World, v: World, f: Facts, t: Target, a: App)
    requires Going(w) && Ours(w, f) && t == Goal(w, f) && Find(w.apps, t.id) == Some(a)
    requires Retargeted(w, v, t, a)
    ensures Going(v) && Potential(v, f) < Potential(w, f)
  {
    hide NewTarget, ApplyDefaults, CompareApplication, OwnedBySame, Stored, Children, Find;
    var b := a.(spec := Stored(t.spec), rv := w.nextRv);
    FindIsMember(w.apps, t.id);
    ReplaceIsUpdate(w.apps, b);
    FindInReplaced(w.apps, b, t.id);
    ReplaceKeepsChildren(w.apps, a, b, t.id.name);
    StoredTwice(t.spec);
    TargetSettles(ApplyDefaults(Current(w), f), f, w.argoNamespace);
  }

  // ---- The theorems ----

  /** The end of a call on a deletion under way, from the outcome of finalizeObject. */
  function Ending(s: Step<Option<Error>>, f: Facts, c: Copy): World {
    if s.out.Some? then Record(s.world, Calm(f), c, "finalize", s.out).world
    else RemoveFinalizer(s.world, Calm(f), c).world
  }

  /** What finalizeObject does on a deletion under way, with the store's parent at hand. */
  function CalmFinalize(w: World, f: Facts): Step<Option<Error>> {
    var parent := Find(w.apps, Goal(w, f).id);
    var v := w.(clock := w.clock + 4);
    if !Ours(w, f) then Step(v, None)
    else PhaseStep(v, Calm(f), Qualified(Copy(Top(w), Current(w)), f), Goal(w, f), parent.value)
  }

  lemma CalmCallParts(w: World, f: Facts)
    requires Going(w)
    ensures CalmCall(w, f) == Ending(CalmFinalize(w, f), f, Copy(Top(w), Current(w)))
  {
    hide NewTarget, ApplyDefaults, PhaseStep, OwnedBySame, StoreOk, Normal, Find, Record, RemoveFinalizer;
  }

  lemma CalmRelease(w: World, v: World, f: Facts)
    requires v.versions == w.versions && !v.gone
    ensures Released(RemoveFinalizer(v, Calm(f), Copy(Top(w), Current(w))).world)
  {
  }

  /**
   A failure-free call on a fresh read lets the finalizer go, or lowers the potential, or leaves it
   as it is because the environment has been asked to remove something it has not removed yet.
   */
  lemma CallLowersOrWaits(w: World, f: Facts)
    requires Going(w) && !Released(w)
    ensures var r := CalmCall(w, f);
            || Released(r)
            || (Going(r) && Potential(r, f) < Potential(w, f))
            || (Going(r) && Potential(r, f) == Potential(w, f) && Asked(r, f))
  {
    hide NewTarget, ApplyDefaults, PhaseStep, OwnedBySame, StoreOk, Normal, Find, Record, RemoveFinalizer,
         CompareApplication, Asked, Children, Reconcile, DeleteApp, Alike;
    CalmCallParts(w, f);
    var v := w.(clock := w.clock + 4);
    var c := Copy(Top(w), Current(w));
    var t := Goal(w, f);
    if !Ours(w, f) {
      CalmRelease(w, v, f);
    } else {
      var a := Find(w.apps, t.id).value;
      var q := Qualified(c, f);
      var s := PhaseStep(v, Calm(f), q, t, a);
      assert SameStoreGoing(w, v) by { SameStore(w, v); }
      assert AtGoal(v, f, q, t, a);
      assert Potential(v, f) == Potential(w, f);
      if PhaseOf(w).DeleteHub? {
        CalmDeleteHub(v, f, q, t, a);
        CalmRelease(w, s.world, f);
      } else {
        CalmPhaseStep(v, f, q, t, a);
        CallEnds(v, s.world, f, t, a, s.out);
      }
    }
  }

  ghost predicate SameStoreGoing(w: World, v: World) {
    Going(w) ==> Going(v)
  }

  lemma CalmDeleteHub(w: World, f: Facts, c: Copy, t: Target, a: App)
    requires AtGoal(w, f, c, t, a) && PhaseOf(w).DeleteHub?
    ensures var s := PhaseStep(w, Calm(f), c, t, a);
            s.out.None? && s.world.versions == w.versions && !s.world.gone
  {
    hide NewTarget, OwnedBySame, StoreOk, Normal, CompareApplication, Stored, Children, SpokesOf;
    FindIsMember(w.apps, t.id);
  }

  lemma CallEnds(w: World, v: World, f: Facts, t: Target, a: App, err: Option<Error>)
    requires Going(w) && Ours(w, f) && t == Goal(w, f) && Find(w.apps, t.id) == Some(a)
    requires w.versions <= v.versions
    requires Crossed(w, v) || Retargeted(w, v, t, a) || Waits(w, v, f)
    ensures var r := Record(v, Calm(f), Copy(Top(w), Current(w)), "finalize", err).world;
            || (Going(r) && Potential(r, f) < Potential(w, f))
            || (Going(r) && Potential(r, f) == Potential(w, f) && Asked(r, f))
  {
    hide NewTarget, ApplyDefaults, OwnedBySame, StoreOk, Normal, Find, Record, CompareApplication, Asked,
         Children, Mirrors, Differs, Ours, Resources;
    var r := Record(v, Calm(f), Copy(Top(w), Current(w)), "finalize", err).world;
    CalmRecord(w, v, f, "finalize", err);
    if Retargeted(w, v, t, a) {
      RetargetedPotential(w, v, f, t, a);
      AlikePotential(v, r, f);
    } else {
      AlikePotential(w, v, f);
      AlikePotential(v, r, f);
      if Waits(w, v, f) {
        RecordedAsked(v, r, f);
      }
    }
  }

  /** The store after n calls, with others' removals g(0), g(1), ... after each of them. */
  ghost function At(w: World, f: Facts, g: nat -> seq<Outside>, n: nat): World {
    if n == 0 then w else HappenAll(CalmCall(At(w, f, g, n - 1), f), g(n - 1))
  }

  /** The call gets no further: it waits. */
  ghost predicate Waiting(w: World, f: Facts) {
    var r := CalmCall(w, f);
    !Released(w) && !Released(r) && Potential(r, f) >= Potential(w, f)
  }

  /** Something counted goes in the gap after call j. */
  ghost predicate GoesAfter(w: World, f: Facts, g: nat -> seq<Outside>, j: nat) {
    Resources(At(w, f, g, j + 1), f) < Resources(CalmCall(At(w, f, g, j), f), f)
  }

  /** Others only remove, and after every call that waits, in that gap or any later one, something counted goes. */
  ghost predicate Fair(w: World, f: Facts, g: nat -> seq<Outside>) {
    && (forall i :: Removals(g(i)))
    && (forall i: nat :: Going(At(w, f, g, i)) && Waiting(At(w, f, g, i), f) ==>
          exists j: nat :: j >= i && GoesAfter(w, f, g, j))
  }

  lemma GapLowers(w: World, f: Facts, gap: seq<Outside>)
    requires Going(w) && Removals(gap)
    ensures var v := HappenAll(w, gap);
            && Going(v)
            && Potential(v, f) <= Potential(w, f)
            && (Ours(w, f) && Resources(v, f) < Resources(w, f) ==> Potential(v, f) < Potential(w, f))
  {
    hide Goal, Resources, Ours, Differs, HappenAll, StoreOk, Normal;
    RemovalsShrink(w, f, gap);
  }

  lemma {:induction false} ReleasedStays(w: World, es: seq<Outside>)
    requires Released(w) && Removals(es)
    ensures Released(HappenAll(w, es))
    decreases |es|
  {
    if es != [] {
      assert Removal(es[0]);
      ReleasedStays(Happens(w, es[0]), es[1..]);
    }
  }

  /** Under way, or over. */
  ghost predicate Underway(w: World) {
    Going(w) || Released(w)
  }

  /** One call and the gap after it: still under way or over, and never further from the end. */
  lemma CallAndGap(w: World, f: Facts, gap: seq<Outside>)
    requires Going(w) && !Released(w) && Removals(gap)
    ensures var r := CalmCall(w, f); var v := HappenAll(r, gap);
            && Underway(v)
            && (Released(v) || (
                 && Potential(v, f) <= Potential(w, f)
                 && (Potential(v, f) == Potential(w, f) ==> Waiting(w, f) && Resources(v, f) >= Resources(r, f))))
  {
    hide Going, Potential, Released, CalmCall, HappenAll, Removals, Asked, Ours, Resources;
    var r := CalmCall(w, f);
    CallLowersOrWaits(w, f);
    if Released(r) {
      ReleasedStays(r, gap);
    } else {
      GapLowers(r, f, gap);
      assert Asked(r, f) ==> Ours(r, f) by { AskedIsOurs(r, f); }
    }
  }

  /** Over a stretch of calls the end is reached, or comes no further away. */
  lemma {:induction false} Stretch(w: World, f: Facts, g: nat -> seq<Outside>, n: nat, k: nat) returns (m: nat)
    requires n <= k && Going(At(w, f, g, n)) && forall i :: Removals(g(i))
    ensures n <= m <= k
    ensures Released(At(w, f, g, m))
         || (m == k && Going(At(w, f, g, k)) && Potential(At(w, f, g, k), f) <= Potential(At(w, f, g, n), f))
    decreases k
  {
    hide Going, Potential, Released, CalmCall, HappenAll, Removals, Waiting;
    if n == k {
      m := n;
    } else {
      m := Stretch(w, f, g, n, k - 1);
      if !Released(At(w, f, g, m)) {
        CallAndGap(At(w, f, g, k - 1), f, g(k - 1));
        m := k;
      }
    }
  }

  /** From a call that waits to the gap in which something goes: the end is reached, or it is nearer then. */
  lemma UntilItGoes(w: World, f: Facts, g: nat -> seq<Outside>, n: nat, j: nat) returns (m: nat)
    requires n <= j && Going(At(w, f, g, n)) && (forall i :: Removals(g(i))) && GoesAfter(w, f, g, j)
    ensures m >= n && Underway(At(w, f, g, m))
    ensures Released(At(w, f, g, m)) || Potential(At(w, f, g, m), f) < Potential(At(w, f, g, n), f)
  {
    hide Going, Potential, Released, CalmCall, HappenAll, Removals, Waiting, GoesAfter, At, Resources;
    m := Stretch(w, f, g, n, j);
    if !Released(At(w, f, g, m)) {
      CallAndGap(At(w, f, g, j), f, g(j));
      GoesMeans(w, f, g, j);
      m := j + 1;
    }
  }

  /**
   Deletion completes. From any stage of any deletion under way, with any number of resources left,
   the finalizer goes in the end, if others only remove and never leave a waiting call waiting for
   ever: in some later gap, however late, something counted goes.
   */
  lemma {:induction false} DeletionCompletes(w: World, f: Facts, g: nat -> seq<Outside>, n: nat) returns (m: nat)
    requires Underway(At(w, f, g, n)) && Fair(w, f, g)
    ensures m >= n && Released(At(w, f, g, m))
    decreases Potential(At(w, f, g, n), f)
  {
    hide Going, Potential, Released, CalmCall, HappenAll, Removals, Waiting, GoesAfter, Resources;
    var v := At(w, f, g, n);
    if Released(v) {
      m := n;
    } else {
      var next := n + 1;
      CallAndGap(v, f, g(n));
      if !Released(At(w, f, g, next)) && Potential(At(w, f, g, next), f) >= Potential(v, f) {
        var j: nat :| j >= n && GoesAfter(w, f, g, j);
        next := UntilItGoes(w, f, g, n, j);
      }
      m := next;
      if !Released(At(w, f, g, next)) {
        m := DeletionCompletes(w, f, g, next);
      }
    }
  }

  lemma GoesMeans(w: World, f: Facts, g: nat -> seq<Outside>, j: nat)
    requires GoesAfter(w, f, g, j)
    ensures At(w, f, g, j + 1) == HappenAll(CalmCall(At(w, f, g, j), f), g(j))
    ensures Resources(HappenAll(CalmCall(At(w, f, g, j), f), g(j)), f) < Resources(CalmCall(At(w, f, g, j), f), f)
  {
    hide Resources, HappenAll, CalmCall;
  }

  lemma AskedIsOurs(w: World, f: Facts)
    ensures Asked(w, f) ==> Ours(w, f)
  {
    hide Goal;
  }

  lemma {:induction false} RemoveDropsChild(apps: seq<App>, a: App, parent: string)
    requires a in Children(apps, parent)
    ensures |Children(Remove(apps, a.id), parent)| < |Children(apps, parent)|
  {
    if apps[0].id == a.id {
      RemoveShrinksChildren(apps[1..], a.id, parent);
      if !TracksChild(apps[0], parent) {
        RemoveDropsChild(apps[1..], a, parent);
      }
    } else {
      RemoveDropsChild(apps[1..], a, parent);
    }
  }

  lemma {:induction false} RemoveNameDrops(cs: seq<ManagedCluster>, name: string)
    requires name in Names(cs)
    ensures |RemoveName(cs, name)| < |cs|
  {
    if cs[0].name == name {
      RemoveNameShrinks(cs[1..], name);
    } else {
      assert Names(cs)[1..] == Names(cs[1..]);
      assert Names(cs) == [cs[0].name] + Names(cs[1..]);
      RemoveNameDrops(cs[1..], name);
    }
  }

  /** One of the things a waiting call has asked to go, goes. */
  ghost predicate AskedToGo(w: World, f: Facts, e: Outside) {
    match PhaseOf(w)
    case DeleteSpokeChildApps => e.RemoveSpoke? && e.spoke in SpokesOf(w, SpokeChildren)
    case DeleteSpoke => e.RemoveSpoke? && e.spoke in SpokesOf(w, SpokeParents)
    case DeleteHubChildApps =>
      if HubIsManaged(w) && NotLocal(Names(w.clusters)) != [] then
        e.RemoveCluster? && e.cluster in NotLocal(Names(w.clusters))
      else e.RemoveApp? && exists a :: a in Children(w.apps, Goal(w, f).id.name) && a.id == e.id
    case _ => false
  }

  lemma WhatGoesCounts(w: World, f: Facts, e: Outside)
    requires Going(w) && AskedToGo(w, f, e)
    ensures Removals([e]) && Resources(HappenAll(w, [e]), f) < Resources(w, f)
  {
    hide NewTarget, ApplyDefaults, CompareApplication, OwnedBySame, StoreOk, Normal, NotLocal, Find, Stored,
         Children, Goal, HubIsManaged;
    assert HappenAll(w, [e]) == Happens(w, e) by {
      assert [e][1..] == [];
    }
    GoalIgnoresStore(w, Happens(w, e), f);
    if e.RemoveApp? {
      var a :| a in Children(w.apps, Goal(w, f).id.name) && a.id == e.id;
      RemoveDropsChild(w.apps, a, Goal(w, f).id.name);
    } else if e.RemoveCluster? {
      Guarantees.NotLocalIsNamed(Names(w.clusters));
      RemoveNameDrops(w.clusters, e.cluster);
    }
  }

  lemma GoalIgnoresStore(w: World, v: World, f: Facts)
    requires v.versions == w.versions && v.argoNamespace == w.argoNamespace
    ensures Goal(v, f) == Goal(w, f)
  {
    hide TargetFor;
  }

  /** A waiting call waits for something that is there and that it has asked to go. */
  lemma WaitingCanEnd(w: World, f: Facts) returns (e: Outside)
    requires Going(w) && Asked(w, f)
    ensures AskedToGo(w, f, e)
  {
    hide NewTarget, ApplyDefaults, CompareApplication, OwnedBySame, StoreOk, Normal, NotLocal, Terminating,
         Syncing, Stored, Children, Goal, HubIsManaged, ChildrenSyncing, ParentSyncing, TracksChild;
    FindIsMember(w.apps, Goal(w, f).id);
    if PhaseOf(w).DeleteHubChildApps? {
      if HubIsManaged(w) && NotLocal(Names(w.clusters)) != [] {
        e := RemoveCluster(NotLocal(Names(w.clusters))[0]);
      } else {
        var a := Children(w.apps, Goal(w, f).id.name)[0];
        assert a in Children(w.apps, Goal(w, f).id.name);
        e := RemoveApp(a.id);
      }
    } else {
      var kind := if PhaseOf(w).DeleteSpoke? then SpokeParents else SpokeChildren;
      var s :| s in SpokesOf(w, kind);
      e := RemoveSpoke(s);
    }
  }

  /** An environment that, whenever it was asked to, lets one of the things go, and does nothing else. */
  ghost function Answering(r: World, f: Facts): seq<Outside> {
    if e :| Going(r) && Asked(r, f) && AskedToGo(r, f, e) then [e] else []
  }

  ghost function AnsweredAt(w: World, f: Facts, n: nat): World {
    if n == 0 then w else AnsweredCall(AnsweredAt(w, f, n - 1), f)
  }

  /** One call and gap of such an environment. */
  ghost function AnsweredCall(w: World, f: Facts): World {
    var r := CalmCall(w, f);
    HappenAll(r, Answering(r, f))
  }

  ghost predicate Answers(w: World, f: Facts, g: nat -> seq<Outside>, n: nat) {
    g(n) == Answering(CalmCall(AnsweredAt(w, f, n), f), f)
  }

  lemma {:induction false} AnsweredIsAt(w: World, f: Facts, g: nat -> seq<Outside>, n: nat)
    requires forall i: nat :: Answers(w, f, g, i)
    ensures At(w, f, g, n) == AnsweredAt(w, f, n)
  {
    hide CalmCall, HappenAll, Answering, Answers;
    if n > 0 {
      AnsweredIsAt(w, f, g, n - 1);
      assert Answers(w, f, g, n - 1);
      AnsweredStep(w, f, g, n - 1);
    }
  }

  lemma AnsweredStep(w: World, f: Facts, g: nat -> seq<Outside>, n: nat)
    requires Answers(w, f, g, n)
    ensures HappenAll(CalmCall(AnsweredAt(w, f, n), f), g(n)) == AnsweredCall(AnsweredAt(w, f, n), f)
  {
    hide CalmCall, HappenAll, Answering, AnsweredAt;
  }

  lemma AnsweringRemoves(r: World, f: Facts)
    ensures Removals(Answering(r, f))
    ensures Going(r) && Asked(r, f) ==> Resources(HappenAll(r, Answering(r, f)), f) < Resources(r, f)
  {
    hide Going, Asked, AskedToGo, Resources, HappenAll, Removals;
    NothingHappens(r);
    if Going(r) && Asked(r, f) {
      var e := WaitingCanEnd(r, f);
      assert AskedToGo(r, f, e);
    }
    if Answering(r, f) != [] {
      var e :| Going(r) && Asked(r, f) && AskedToGo(r, f, e) && Answering(r, f) == [e];
      WhatGoesCounts(r, f, e);
    }
  }

  lemma NothingHappens(w: World)
    ensures Removals([]) && HappenAll(w, []) == w
  {
  }

  /** An environment as fair as that always exists, and it need only let go what was asked for. */
  lemma SomeEnvironmentIsFair(w: World, f: Facts) returns (g: nat -> seq<Outside>)
    ensures Fair(w, f, g)
    ensures forall n: nat, e :: e in g(n) ==> AskedToGo(CalmCall(At(w, f, g, n), f), f, e)
  {
    hide Going, Potential, Released, CalmCall, HappenAll, Removals, Asked, AskedToGo, Resources;
    g := (n: nat) => Answering(CalmCall(AnsweredAt(w, f, n), f), f);
    assert forall i: nat :: Answers(w, f, g, i);
    forall n: nat ensures At(w, f, g, n) == AnsweredAt(w, f, n) {
      AnsweredIsAt(w, f, g, n);
    }
    forall i: nat ensures Removals(g(i)) {
      AnsweringRemoves(CalmCall(AnsweredAt(w, f, i), f), f);
    }
    forall i: nat | Going(At(w, f, g, i)) && Waiting(At(w, f, g, i), f) ensures GoesAfter(w, f, g, i) {
      AnsweringRemoves(CalmCall(At(w, f, g, i), f), f);
      CallLowersOrWaits(At(w, f, g, i), f);
      assert At(w, f, g, i + 1) == HappenAll(CalmCall(At(w, f, g, i), f), g(i));
    }
  }

  /** So every deletion under way can be driven to its end by letting go only of what was asked for. */
  lemma DeletionCanComplete(w: World, f: Facts) returns (g: nat -> seq<Outside>, m: nat)
    requires Going(w)
    ensures forall n: nat, e :: e in g(n) ==> AskedToGo(CalmCall(At(w, f, g, n), f), f, e)
    ensures Released(At(w, f, g, m))
  {
    hide Going, Fair, Released, CalmCall, AskedToGo;
    g := SomeEnvironmentIsFair(w, f);
    m := DeletionCompletes(w, f, g, 0);
  }

  lemma CalmAdvanceLands(w: World, f: Facts, c: Copy, to: Phase)
    requires !w.gone && c.rv == Top(w)
    ensures var s := Advance(w, Calm(f), c, to); s.out == Some(Transition(to)) && PhaseOf(s.world) == to
  {
    var q := c.(obj := c.obj.(status := c.obj.status.(phase := to)));
    assert WriteStatus(w, Calm(f), q).out.Some?;
  }

  /** The first undisturbed call of a deletion records the phase the hub calls for, and ends with that error. */
  lemma FirstCallChoosesPath(w: World, f: Facts)
    requires Going(w) && Ours(w, f) && PhaseOf(w).InitializeDeletion?
    ensures var s := Finalize(w, Calm(f), Copy(Top(w), Current(w)));
            var to := if HubIsManaged(w) then DeleteSpokeChildApps else DeleteHubChildApps;
            s.out == Some(Transition(to)) && PhaseOf(s.world) == to
  {
    hide NewTarget, OwnedBySame, StoreOk, Normal, Advance, Find;
    var c := Qualified(Copy(Top(w), Current(w)), f);
    var h := w.(clock := w.clock + 3, hubReads := w.hubReads + {HubIsManaged(w)});
    var to := if HubIsManaged(w) then DeleteSpokeChildApps else DeleteHubChildApps;
    assert Finalize(w, Calm(f), Copy(Top(w), Current(w))) == Advance(h, Calm(f), c, to);
    CalmAdvanceLands(h, f, c, to);
  }

  // ---- After any run ----

  /** Without the annotation the first undisturbed call lets the finalizer go. */
  lemma UnprunedIsReleased(w: World, f: Facts)
    requires !w.gone && Current(w).deleting && !ValidateDelete(Current(w))
    ensures Released(CalmCall(w, f))
  {
    hide RemoveFinalizer, Finalize;
    var v := w.(clock := w.clock + 2);
    var c := Copy(Top(w), Current(w));
    assert Finalize(v, Calm(f), c) == Step(v, None) by {
      NotPruned(v, f, c);
    }
    assert CalmCall(w, f) == RemoveFinalizer(v, Calm(f), c).world;
    CalmRelease(w, v, f);
  }

  lemma NotPruned(w: World, f: Facts, c: Copy)
    requires !ValidateDelete(c.obj)
    ensures Finalize(w, Calm(f), c) == Step(w, None)
  {
  }

  /**
   Whatever happened before: once calls come through undisturbed and others are fair, a Pattern being
   deleted loses its finalizer. So no run, however stale or interrupted, leaves a deletion stuck.
   */
  lemma NoRunGetsStuck(w: World, o: Oracle, calls: nat, f: Facts, g: nat -> seq<Outside>) returns (m: nat)
    requires Guarantees.Start(w)
    requires var v := Run(w, o, calls); (v.gone || Current(v).deleting) && Fair(v, f, g)
    ensures Released(At(Run(w, o, calls), f, g, m))
  {
    hide Run, Released, CalmCall, HappenAll, Fair, Safety.Inv, At, Removals;
    var v := Run(w, o, calls);
    Guarantees.StartHoldsInvariant(w);
    Runs.RunKeepsInvariant(w, o, calls);
    FirstIsHere(v, f, g);
    if Released(v) {
      m := 0;
    } else if ValidateDelete(Current(v)) {
      NotReleased(v);
      InvIsGoing(v);
      m := DeletionCompletes(v, f, g, 0);
    } else {
      NotReleased(v);
      UnprunedIsReleased(v, f);
      ReleasedStays(CalmCall(v, f), g(0)) by {
        FairRemoves(v, f, g);
      }
      m := 1;
    }
  }

  lemma NotReleased(w: World)
    requires !Released(w)
    ensures !w.gone && PATTERN_FINALIZER in Current(w).finalizers
  {
  }

  lemma FairRemoves(w: World, f: Facts, g: nat -> seq<Outside>)
    requires Fair(w, f, g)
    ensures Removals(g(0))
  {
    hide Removals, Going, Waiting, GoesAfter;
  }

  lemma FirstIsHere(w: World, f: Facts, g: nat -> seq<Outside>)
    ensures At(w, f, g, 0) == w
    ensures At(w, f, g, 1) == HappenAll(CalmCall(w, f), g(0))
  {
    hide CalmCall, HappenAll;
    assert At(w, f, g, 1) == HappenAll(CalmCall(At(w, f, g, 0), f), g(0));
  }

  lemma InvIsGoing(w: World)
    requires Safety.Inv(w) && !Released(w) && Current(w).deleting && ValidateDelete(Current(w))
    ensures Going(w)
  {
    hide StoreOk, Normal, Safety.SealsHold, Safety.PathSealed, Safety.CensusSafe, AheadOfPhase, Safety.Admitted,
         Safety.Clean;
    Safety.HistoryIsMonotone(w.versions, 0, Top(w));
  }
}

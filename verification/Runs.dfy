/**
 The invariant over every request, every step of finalizeObject, every reconcile call and every run.
 */
module Runs {
  import opened Wrappers
  import opened Patterns
  import opened Applications
  import opened Targets
  import opened Cluster
  import opened StoreFacts
  import opened Protocol
  import opened Safety

  /** A local copy still carries the phase, identity and extras of the version it was read at. */
  ghost predicate Faithful(w: World, c: Copy) {
    && c.rv < |w.versions|
    && var v := w.versions[c.rv];
       && c.obj.status.phase == v.status.phase
       && AppName(c.obj) == AppName(v)
       && c.obj.spec.extras == v.spec.extras
       && c.obj.deleting == v.deleting
  }

  /** A spec that orders no deletion ahead of the recorded phase, while the bookkeeping is clean. */
  ghost predicate Modest(w: World, a: AppSpec) {
    Clean(w) && Forged !in w.departures ==> DeleteRank(a) <= PhaseOf(w).Rank()
  }

  lemma CopiesStay(w: World, w': World, c: Copy)
    requires Grew(w, w') && Faithful(w, c)
    ensures Faithful(w', c)
  {
    assert w'.versions[c.rv] == w.versions[c.rv];
  }

  lemma ModestStays(w: World, w': World, a: AppSpec)
    requires Keeps(w, w') && Modest(w, a)
    ensures Modest(w', a)
  {
    CleanShrinks(w, w');
  }

  lemma CopyBehind(w: World, c: Copy)
    requires Inv(w) && Faithful(w, c)
    ensures c.obj.status.phase.Rank() <= PhaseOf(w).Rank() && c.obj.status.phase.Known()
  {
    HistoryIsMonotone(w.versions, c.rv, Top(w));
    HistoryIsMonotone(w.versions, 0, c.rv);
  }

  // ---- Requests ----

  lemma WriteStatusKeeps(w: World, o: Oracle, c: Copy)
    requires Inv(w) && Faithful(w, c)
    ensures Keeps(w, WriteStatus(w, o, c).world)
    ensures WriteStatus(w, o, c).out.Some? ==> WriteStatus(w, o, c).out.value.obj.status == c.obj.status
    ensures WriteStatus(w, o, c).out.Some? ==> Faithful(WriteStatus(w, o, c).world, WriteStatus(w, o, c).out.value)
  {
    hide Inv, HappenAll, Snapshot;
    var w1 := Before(w, o);
    BeforeKeeps(w, o);
    CopiesStay(w, w1, c);
    if Accepts(w1, c) {
      SameMetadata(w1, Current(w1).(status := c.obj.status));
      AppendMoves(w1, Current(w1).(status := c.obj.status));
      KeepsTransitive(w, w1, Append(w1, Current(w1).(status := c.obj.status)));
    }
  }

  lemma KeepsItself(w: World)
    requires Inv(w)
    ensures Keeps(w, w)
  {
    hide Inv;
  }

  lemma KeepsThenMoves(a: World, b: World, c: World)
    requires Keeps(a, b) && Moves(b, c)
    ensures Moves(a, c)
  {
    hide Inv, Snapshot;
    KeepsItself(c);
    KeepsMovesKeeps(a, b, c, c);
  }

  lemma KeepsIsMoves(w: World, w': World)
    requires Keeps(w, w')
    ensures Moves(w, w')
  {
    hide Inv, Snapshot;
  }

  /** What the write of a phase over a version has to bring along. */
  ghost predicate Earned(w: World, p: Pattern, to: Phase) {
    && Edge(p.status.phase, to)
    && (to.DeleteSpokeChildApps? ==> true in w.hubReads)
    && (to.DeleteSpoke? ==> Reported(w.sealed, SpokeChildren))
    && (to.DeleteHubChildApps? ==>
        if p.status.phase.DeleteSpoke? then Reported(w.sealed, SpokeParents) else false in w.hubReads)
    && (to.DeleteHub? ==> Reported(w.sealed, HubChildren(AppName(p))))
  }

  lemma EarnedStays(w: World, w': World, p: Pattern, to: Phase)
    requires Grew(w, w') && Earned(w, p, to)
    ensures Earned(w', p, to)
  {
  }

  /** The one write that moves the phase: the version check makes the copy's phase the recorded one. */
  lemma WritePhaseMoves(w: World, o: Oracle, c: Copy, to: Phase)
    requires Inv(w) && Faithful(w, c) && Earned(w, c.obj, to)
    ensures Moves(w, WriteStatus(w, o, c.(obj := c.obj.(status := c.obj.status.(phase := to)))).world)
  {
    hide Inv, HappenAll, Snapshot, Edge, Moves, Reported;
    var w1 := Before(w, o);
    var w2 := WriteStatus(w, o, c.(obj := c.obj.(status := c.obj.status.(phase := to)))).world;
    BeforeKeeps(w, o);
    CopiesStay(w, w1, c);
    EarnedStays(w, w1, c.obj, to);
    if w2 != w1 {
      SameMetadata(w1, Current(w1).(status := c.obj.status.(phase := to)));
      AppendMoves(w1, Current(w1).(status := c.obj.status.(phase := to)));
      KeepsThenMoves(w, w1, w2);
    } else {
      KeepsIsMoves(w, w1);
    }
  }

  /** The copy is what was read. */
  ghost predicate Verbatim(w: World, c: Copy) {
    c.rv < |w.versions| && c.obj == w.versions[c.rv]
  }

  /** The copy's metadata is that of the version it was read at, the operator's own finalizer apart. */
  ghost predicate Genuine(w: World, c: Copy) {
    && c.rv < |w.versions|
    && c.obj == w.versions[c.rv].(finalizers := c.obj.finalizers)
    && OperatorWrote(w.versions[c.rv], c.obj)
  }

  lemma VerbatimStays(w: World, w': World, c: Copy)
    requires Grew(w, w') && Verbatim(w, c)
    ensures Verbatim(w', c)
  {
    hide Snapshot;
    assert w'.versions[c.rv] == w.versions[c.rv];
  }

  lemma GenuineStays(w: World, w': World, c: Copy)
    requires w.versions <= w'.versions && Genuine(w, c)
    ensures Genuine(w', c)
  {
    assert w'.versions[c.rv] == w.versions[c.rv];
  }

  lemma GenuineIsAllowed(w: World, c: Copy)
    requires Inv(w) && Genuine(w, c) && Accepts(w, c)
    ensures Allowed(w, c.obj.(deleting := Current(w).deleting, status := Current(w).status))
  {
    hide StoreOk, Normal, EdgeHistory, SealsHold, PathSealed, CensusSafe, AheadOfPhase;
    assert Current(w) in w.versions;
  }

  /** Metadata written over the version it was read at; what it takes off is on the writer. */
  lemma WriteObjectStays(w: World, o: Oracle, c: Copy)
    requires Inv(w) && Genuine(w, c)
    ensures Stays(w, WriteObject(w, o, c).world)
    ensures PATTERN_FINALIZER in c.obj.finalizers ==> Keeps(w, WriteObject(w, o, c).world)
    ensures WriteObject(w, o, c).out.Some? ==> Faithful(WriteObject(w, o, c).world, WriteObject(w, o, c).out.value)
  {
    hide Inv, HappenAll, Snapshot, Allowed, Pinned;
    var w1 := Before(w, o);
    BeforeKeeps(w, o);
    GenuineStays(w, w1, c);
    if Served(Answer(w, o)) && Accepts(w1, c) {
      var p := c.obj.(deleting := Current(w1).deleting, status := Current(w1).status);
      var v := Append(w1, p);
      GenuineIsAllowed(w1, c);
      AppendAdvances(w1, p);
      AsideKeeps(v, Collected(v));
      StaysTransitive(w, w1, v);
      StaysTransitive(w, v, Collected(v));
      if PATTERN_FINALIZER in c.obj.finalizers {
        AppendMoves(w1, p);
        KeepsTransitive(w, w1, v);
        KeepsTransitive(w, v, Collected(v));
      }
    }
  }

  lemma StoredAreSnapshots(w: World)
    requires StoreOk(w)
    ensures forall a :: a in w.apps ==> Snapshot(w, a)
  {
    forall a | a in w.apps ensures Snapshot(w, a) {
      FindUnique(w.apps, a);
    }
  }

  lemma GetAppKeeps(w: World, o: Oracle, id: AppId)
    requires Inv(w)
    ensures Keeps(w, GetApp(w, o, id).world)
    ensures GetApp(w, o, id).out.Some? ==> Snapshot(GetApp(w, o, id).world, GetApp(w, o, id).out.value)
    ensures GetApp(w, o, id).out.Some? ==> GetApp(w, o, id).out.value.id == id
  {
    hide HappenAll, CensusSafe, Present, Normal, EdgeHistory, PathSealed, Admitted;
    BeforeKeeps(w, o);
    StoredAreSnapshots(Before(w, o));
    FindIsMember(Before(w, o).apps, id);
  }

  /** An accepted update went over the version that was read. */
  lemma UpdateAppKeeps(w: World, o: Oracle, was: App, a: App, e: Event)
    requires Inv(w) && Snapshot(w, was)
    requires a.id == was.id && a.rv == was.rv && a.tracking == was.tracking
    requires a.spec == was.spec || Modest(w, a.spec)
    requires !e.AppDeleted?
    ensures Keeps(w, UpdateApp(w, o, a, e).world)
  {
    hide Inv, HappenAll, Present, DeleteRank;
    var w1 := Before(w, o);
    BeforeKeeps(w, o);
    assert Snapshot(w1, was);
    if UpdateApp(w, o, a, e).world != w1 {
      var a1 := a.(spec := Stored(a.spec));
      StoredDeleteRank(a.spec);
      StoredTwice(a.spec);
      if a.spec != was.spec {
        ModestStays(w, w1, a.spec);
      }
      ServedWriteKeeps(w1, was, a1);
      KeepsTransitive(w, w1, WithApp(w1, a1));
      LoggedKeeps(WithApp(w1, a1), e);
      KeepsTransitive(w, WithApp(w1, a1), UpdateApp(w, o, a, e).world);
    }
  }

  lemma LoggedKeeps(w: World, e: Event)
    requires Inv(w) && (e.AppDeleted? ==> CensusSafe(e.census))
    ensures Keeps(w, w.(log := w.log + [e]))
  {
    hide DeleteRank, Find, Children, Present, Snapshot;
    var v := w.(log := w.log + [e]);
    ResourcesUntouched(w, v);
    StepKeeps(w, v);
  }

  lemma CreatedKeeps(w: World, a: App)
    requires Inv(w) && Find(w.apps, a.id).None? && a.tracking.None? && Modest(w, a.spec) && a.rv == w.nextRv
    requires Stored(a.spec) == a.spec
    ensures Keeps(w, w.(apps := w.apps + [a], nextRv := w.nextRv + 1))
  {
    hide Find, DeleteRank, CensusSafe, Snapshot, Children, PathSealed, EdgeHistory;
    var v := w.(apps := w.apps + [a], nextRv := w.nextRv + 1);
    AddAppFacts(w, a);
    forall s | s in v.sealed && Present(v, s.kind) ensures Betrayed(v.departures, s) {
      var k := s.kind;
      if k.HubChildren? {
        PresentIsTracked(v, k.parent);
        PresentIsTracked(w, k.parent);
      } else {
        assert SpokesOf(v, k) == SpokesOf(w, k);
      }
    }
    if AheadOfPhase(v) && !AheadOfPhase(w) {
      var x :| x in v.apps && DeleteRank(x.spec) > PhaseOf(v).Rank();
      assert x == a;
    }
    StepKeeps(w, v);
  }

  lemma CreateAppKeeps(w: World, o: Oracle, t: Target)
    requires Inv(w) && Modest(w, t.spec)
    ensures Keeps(w, CreateApp(w, o, t).world)
  {
    hide HappenAll, Inv, DeleteRank, Snapshot;
    var w1 := Before(w, o);
    BeforeKeeps(w, o);
    if CreateApp(w, o, t).world != w1 {
      var a := App(t.id, None, t.owners, Stored(t.spec), None, false, w1.nextRv);
      var v := w1.(apps := w1.apps + [a], nextRv := w1.nextRv + 1);
      StoredDeleteRank(t.spec);
      StoredTwice(t.spec);
      ModestStays(w, w1, t.spec);
      CreatedKeeps(w1, a);
      LoggedKeeps(v, TargetWritten(t.id));
      KeepsTransitive(w, w1, v);
      KeepsTransitive(w, v, CreateApp(w, o, t).world);
    }
  }

  /** A query that counted none, or whose answer hid what there is. */
  lemma SealKeeps(w: World, s: Seal, hidden: bool)
    requires Inv(w) && (Present(w, s.kind) ==> hidden && !s.kind.HubChildren?)
    ensures Keeps(w, w.(sealed := w.sealed + {s}, departures := w.departures + if hidden then {Uncounted(s)} else {}))
  {
    hide DeleteRank, Find, Children, Present, Snapshot, CensusSafe, StoreOk, Normal, EdgeHistory, PathSealed,
         Admitted;
    var v := w.(sealed := w.sealed + {s}, departures := w.departures + if hidden then {Uncounted(s)} else {});
    ResourcesUntouched(w, v);
    StepKeeps(w, v);
  }

  lemma ListChildrenKeeps(w: World, o: Oracle, parent: string)
    requires Inv(w)
    ensures Keeps(w, ListChildren(w, o, parent).world)
    ensures ListChildren(w, o, parent).out == Some([]) ==>
        Reported(ListChildren(w, o, parent).world.sealed, HubChildren(parent))
    ensures ListChildren(w, o, parent).out.Some? ==>
      forall a :: a in ListChildren(w, o, parent).out.value ==> Snapshot(ListChildren(w, o, parent).world, a)
  {
    hide HappenAll, CensusSafe, DeleteRank, PathSealed, EdgeHistory, Snapshot, Children, Normal, SealsHold,
         Admitted, Pinned;
    var w1 := Before(w, o);
    BeforeKeeps(w, o);
    StoredAreSnapshots(w1);
    ChildrenAreTracked(w1.apps, parent);
    if Answer(w, o) == Fine && Children(w1.apps, parent) == [] {
      var s := Seal(HubChildren(parent), w.clock);
      SealKeeps(w1, s, false);
      assert w1.departures + {} == w1.departures;
      assert s in ListChildren(w, o, parent).world.sealed;
      KeepsTransitive(w, w1, ListChildren(w, o, parent).world);
    }
  }

  lemma QuerySpokesKeeps(w: World, o: Oracle, kind: Kind)
    requires Inv(w) && !kind.HubChildren?
    ensures Keeps(w, QuerySpokes(w, o, kind).world)
    ensures SpokesGone(QuerySpokes(w, o, kind).out).1.None? ==> Reported(QuerySpokes(w, o, kind).world.sealed, kind)
  {
    hide HappenAll, CensusSafe, DeleteRank, Snapshot, Children, Inv, Pinned;
    var w1 := Before(w, o);
    BeforeKeeps(w, o);
    var s := Seal(kind, w.clock);
    var results := ResultsOf(Answer(w, o), SpokesOf(w1, kind));
    if results.Some? && Itemless(results.value) {
      SealKeeps(w1, s, SpokesOf(w1, kind) != {});
      assert s in QuerySpokes(w, o, kind).world.sealed;
      KeepsTransitive(w, w1, QuerySpokes(w, o, kind).world);
    }
  }

  lemma DeleteClusterKeeps(w: World, o: Oracle, name: string)
    requires Inv(w)
    ensures Keeps(w, DeleteCluster(w, o, name).world)
  {
    hide HappenAll, Inv, Snapshot;
    var w1 := Before(w, o);
    BeforeKeeps(w, o);
    var v := w1.(clusters := Terminate(w1.clusters, name));
    var e := ClusterDeleted(name, Answer(w, o) == Fine);
    AsideKeeps(w1, v);
    LoggedKeeps(v, e);
    KeepsTransitive(w, w1, v);
    KeepsTransitive(w, v, v.(log := v.log + [e]));
  }

  /** The delete of the parent, in the last phase: the census taken then is safe. */
  lemma DeleteAppKeeps(w: World, o: Oracle, c: Copy, id: AppId)
    requires Inv(w) && Faithful(w, c) && c.obj.status.phase.DeleteHub? && id.name == AppName(c.obj)
    ensures Keeps(w, DeleteApp(w, o, id).world)
  {
    hide HappenAll, DeleteRank, Snapshot, Find, Children, Present, Inv, AheadOfPhase, CensusSafe, Pinned;
    var w1 := Before(w, o);
    BeforeKeeps(w, o);
    CopiesStay(w, w1, c);
    CopyBehind(w1, c);
    if DeleteApp(w, o, id).world != w1 {
      var stored := Find(w1.apps, id).value;
      FindIsMember(w1.apps, id);
      CensusIsSafe(w1, c, id.name);
      InvIsStoreOk(w1);
      NormalFind(w1, id);
      ServedWriteKeeps(w1, stored, stored.(terminating := true));
      var v := WithApp(w1, stored.(terminating := true));
      KeepsTransitive(w, w1, v);
      LoggedKeeps(v, AppDeleted(CensusOf(w1, id.name)));
      KeepsTransitive(w, v, DeleteApp(w, o, id).world);
    }
  }

  lemma CensusIsSafe(w: World, c: Copy, parent: string)
    requires Inv(w) && Faithful(w, c) && c.obj.status.phase.DeleteHub? && parent == AppName(c.obj)
    ensures CensusSafe(CensusOf(w, parent))
  {
    hide DeleteRank, Snapshot, Find, AheadOfPhase, StoreOk, Normal, Admitted, Clean;
    CopyBehind(w, c);
    HistoryIsMonotone(w.versions, 0, Top(w));
    assert w.versions[c.rv] in w.versions;
    assert Present(w, SpokeChildren) <==> SpokesOf(w, SpokeChildren) != {};
    assert Present(w, SpokeParents) <==> SpokesOf(w, SpokeParents) != {};
  }

  // ---- Steps and gates ----

  lemma UpdateApplicationKeeps(w: World, o: Oracle, t: Target, a: App)
    requires Inv(w) && Snapshot(w, a) && Modest(w, t.spec)
    ensures Keeps(w, UpdateApplication(w, o, t, a).world)
  {
    hide Inv, Snapshot, Modest, UpdateApp, CompareApplication;
    if CompareApplication(Some(a.spec), Some(t.spec)) {
      KeepsItself(w);
    } else {
      UpdateAppKeeps(w, o, a, a.(spec := t.spec), TargetWritten(a.id));
    }
  }

  lemma SyncKeeps(w: World, o: Oracle, a: App, prune: bool)
    requires Inv(w) && Snapshot(w, a)
    ensures Keeps(w, SyncApplication(w, o, a, prune).world)
  {
    hide Inv, Snapshot, Modest, UpdateApp;
    if Syncing(a, prune) {
      KeepsItself(w);
    } else {
      UpdateAppKeeps(w, o, a, a.(operation := Some(Operation(Some(Sync(prune, [FORCE]))))),
                     SyncRequested(a.id, prune, Answer(w, o) == Fine));
    }
  }

  lemma {:induction false} SyncAllKeeps(w: World, o: Oracle, apps: seq<App>, prune: bool)
    requires Inv(w) && forall a :: a in apps ==> Snapshot(w, a)
    ensures Keeps(w, SyncAll(w, o, apps, prune).world)
    decreases |apps|
  {
    hide Inv, Snapshot, SyncApplication;
    if apps == [] {
      KeepsItself(w);
    } else {
      var s := SyncApplication(w, o, apps[0], prune);
      SyncKeeps(w, o, apps[0], prune);
      if s.out {
        SyncAllKeeps(s.world, o, apps[1..], prune);
        KeepsTransitive(w, s.world, SyncAll(w, o, apps, prune).world);
      }
    }
  }

  lemma SyncParentAndChildrenKeeps(w: World, o: Oracle, t: Target, a: App, prune: bool)
    requires Inv(w) && Snapshot(w, a) && Modest(w, t.spec)
    ensures Keeps(w, SyncParentAndChildren(w, o, t, a, prune).world)
  {
    hide Inv, Snapshot, Modest, UpdateApplication, SyncApplication, ListChildren, SyncAll;
    var u := UpdateApplication(w, o, t, a);
    UpdateApplicationKeeps(w, o, t, a);
    if u.out == Unchanged {
      var s := SyncApplication(u.world, o, a, false);
      SyncKeeps(u.world, o, a, false);
      KeepsTransitive(w, u.world, s.world);
      if s.out {
        var l := ListChildren(s.world, o, a.id.name);
        ListChildrenKeeps(s.world, o, a.id.name);
        KeepsTransitive(w, s.world, l.world);
        if l.out.Some? {
          SyncAllKeeps(l.world, o, l.out.value, prune);
          KeepsTransitive(w, l.world, SyncAll(l.world, o, l.out.value, prune).world);
        }
      }
    }
  }

  lemma SpokeGatesKeep(w: World, o: Oracle, t: Target, a: App)
    requires Inv(w) && Snapshot(w, a) && Modest(w, t.spec)
    ensures Keeps(w, SpokeChildGate(w, o, t, a).world)
    ensures SpokeChildGate(w, o, t, a).out.None? ==> Reported(SpokeChildGate(w, o, t, a).world.sealed, SpokeChildren)
    ensures Keeps(w, SpokeGate(w, o, t, a).world)
    ensures SpokeGate(w, o, t, a).out.None? ==> Reported(SpokeGate(w, o, t, a).world.sealed, SpokeParents)
  {
    hide Inv, Snapshot, Modest, SyncParentAndChildren, QuerySpokes, SpokesGone;
    var s := SyncParentAndChildren(w, o, t, a, false);
    SyncParentAndChildrenKeeps(w, o, t, a, false);
    if s.out.None? {
      QuerySpokesKeeps(s.world, o, SpokeChildren);
      KeepsTransitive(w, s.world, QuerySpokes(s.world, o, SpokeChildren).world);
    }
    var p := SyncParentAndChildren(w, o, t, a, true);
    SyncParentAndChildrenKeeps(w, o, t, a, true);
    if p.out.None? {
      QuerySpokesKeeps(p.world, o, SpokeParents);
      KeepsTransitive(w, p.world, QuerySpokes(p.world, o, SpokeParents).world);
    }
  }

  lemma {:induction false} DeleteEachKeeps(w: World, o: Oracle, names: seq<string>, accepted: nat)
    requires Inv(w)
    ensures Keeps(w, DeleteEach(w, o, names, accepted).world)
    decreases |names|
  {
    hide Inv, Snapshot, DeleteCluster;
    if names == [] {
      KeepsItself(w);
    } else if names[0] == LOCAL_CLUSTER {
      DeleteEachKeeps(w, o, names[1..], accepted);
    } else {
      var d := DeleteCluster(w, o, names[0]);
      DeleteClusterKeeps(w, o, names[0]);
      if !d.out.DeletionRefused? {
        DeleteEachKeeps(d.world, o, names[1..], if d.out.Accepted? then accepted + 1 else accepted);
        KeepsTransitive(w, d.world, DeleteEach(w, o, names, accepted).world);
      }
    }
  }

  lemma ClusterGateKeeps(w: World, o: Oracle)
    requires Inv(w)
    ensures Keeps(w, ClusterGate(w, o).world)
  {
    hide Inv, Snapshot, Before, DeleteEach, NotLocal;
    var h := HaveHub(w, o);
    HubReadKeeps(w, o);
    if h.out {
      var l := ListClusters(h.world, o);
      BeforeKeeps(h.world, o);
      KeepsTransitive(w, h.world, l.world);
      if l.out.Some? && NotLocal(l.out.value) != [] {
        var m := ListClusters(l.world, o);
        BeforeKeeps(l.world, o);
        KeepsTransitive(w, l.world, m.world);
        if m.out.Some? {
          DeleteEachKeeps(m.world, o, m.out.value, 0);
          KeepsTransitive(w, m.world, DeleteEach(m.world, o, m.out.value, 0).world);
        }
      }
    }
  }

  lemma AskHubDeletionKeeps(w: World, o: Oracle, t: Target, a: App, n: nat)
    requires Inv(w) && Snapshot(w, a) && Modest(w, t.spec)
    ensures Keeps(w, AskHubDeletion(w, o, t, a, n).world)
  {
    hide Inv, Snapshot, Modest, UpdateApplication, SyncApplication;
    var u := UpdateApplication(w, o, t, a);
    UpdateApplicationKeeps(w, o, t, a);
    if u.out == Unchanged {
      SyncKeeps(u.world, o, a, true);
      KeepsTransitive(w, u.world, SyncApplication(u.world, o, a, true).world);
    }
  }

  lemma HubGateKeeps(w: World, o: Oracle, t: Target, a: App)
    requires Inv(w) && Snapshot(w, a) && Modest(w, t.spec)
    ensures Keeps(w, HubGate(w, o, t, a).world)
    ensures HubGate(w, o, t, a).out.None? ==> Reported(HubGate(w, o, t, a).world.sealed, HubChildren(a.id.name))
  {
    hide Inv, Snapshot, Modest, ListChildren, ClusterGate, AskHubDeletion;
    var l := ListChildren(w, o, a.id.name);
    ListChildrenKeeps(w, o, a.id.name);
    if l.out.Some? && l.out.value != [] {
      var c := ClusterGate(l.world, o);
      ClusterGateKeeps(l.world, o);
      KeepsTransitive(w, l.world, c.world);
      if c.out.None? {
        ModestStays(w, c.world, t.spec);
        AskHubDeletionKeeps(c.world, o, t, a, |l.out.value|);
        KeepsTransitive(w, c.world, AskHubDeletion(c.world, o, t, a, |l.out.value|).world);
      }
    }
  }

  // ---- finalizeObject ----

  lemma ReadKeeps(w: World, o: Oracle)
    requires Inv(w)
    ensures Keeps(w, ReadPattern(w, o).world)
    ensures ReadPattern(w, o).out.Got? ==> Faithful(ReadPattern(w, o).world, ReadPattern(w, o).out.copy)
  {
    hide Inv, Snapshot, HappenAll;
    BeforeKeeps(w, o);
  }

  lemma AdvanceMoves(w: World, o: Oracle, c: Copy, to: Phase)
    requires Inv(w) && Faithful(w, c) && Earned(w, c.obj, to)
    ensures Moves(w, Advance(w, o, c, to).world)
  {
    hide Inv, Snapshot, WriteStatus, ReadPattern, Earned, Edge;
    var s := WriteStatus(w, o, c.(obj := c.obj.(status := c.obj.status.(phase := to))));
    WritePhaseMoves(w, o, c, to);
    if s.out.Some? {
      ReadKeeps(s.world, o);
      KeepsItself(w);
      KeepsMovesKeeps(w, w, s.world, ReadPattern(s.world, o).world);
    }
  }

  lemma ThroughMoves(w: World, g: Step<Option<Error>>, o: Oracle, c: Copy, to: Phase)
    requires Keeps(w, g.world) && Faithful(w, c)
    requires g.out.None? ==> Earned(g.world, c.obj, to)
    ensures Moves(w, Through(g, o, c, to).world)
  {
    hide Inv, Snapshot, Advance, Earned;
    CopiesStay(w, g.world, c);
    if g.out.None? {
      AdvanceMoves(g.world, o, c, to);
      KeepsThenMoves(w, g.world, Advance(g.world, o, c, to).world);
    } else {
      KeepsIsMoves(w, g.world);
    }
  }

  lemma HubEarned(w: World, c: Copy)
    requires Faithful(w, c) && c.obj.status.phase.DeleteHubChildApps? && Reported(w.sealed, HubChildren(AppName(c.obj)))
    ensures Earned(w, c.obj, DeleteHub)
  {
    assert w.versions[c.rv] in w.versions;
  }

  lemma PhaseStepMoves(w: World, o: Oracle, c: Copy, t: Target, a: App)
    requires Inv(w) && Faithful(w, c) && Snapshot(w, a) && Modest(w, t.spec) && a.id.name == AppName(c.obj)
    ensures Moves(w, PhaseStep(w, o, c, t, a).world)
  {
    hide Inv, Snapshot, Modest, Advance, SpokeChildGate, SpokeGate, HubGate, DeleteApp, HaveHub, Through;
    match c.obj.status.phase {
      case InitializeDeletion =>
        var h := HaveHub(w, o);
        HubReadKeeps(w, o);
        CopiesStay(w, h.world, c);
        var to := if h.out then DeleteSpokeChildApps else DeleteHubChildApps;
        AdvanceMoves(h.world, o, c, to);
        KeepsThenMoves(w, h.world, Advance(h.world, o, c, to).world);
      case DeleteSpokeChildApps =>
        SpokeGatesKeep(w, o, t, a);
        ThroughMoves(w, SpokeChildGate(w, o, t, a), o, c, DeleteSpoke);
      case DeleteSpoke =>
        SpokeGatesKeep(w, o, t, a);
        ThroughMoves(w, SpokeGate(w, o, t, a), o, c, DeleteHubChildApps);
      case DeleteHubChildApps =>
        var g := HubGate(w, o, t, a);
        HubGateKeeps(w, o, t, a);
        CopiesStay(w, g.world, c);
        if g.out.None? {
          HubEarned(g.world, c);
        }
        ThroughMoves(w, g, o, c, DeleteHub);
      case DeleteHub =>
        DeleteAppKeeps(w, o, c, a.id);
        KeepsIsMoves(w, DeleteApp(w, o, a.id).world);
      case Unrecognized(_) =>
        KeepsItself(w);
        KeepsIsMoves(w, w);
    }
  }

  lemma HubReadKeeps(w: World, o: Oracle)
    requires Inv(w)
    ensures Keeps(w, HaveHub(w, o).world)
    ensures HaveHub(w, o).out in HaveHub(w, o).world.hubReads
  {
    hide Inv, Snapshot, HappenAll;
    BeforeKeeps(w, o);
    AsideKeeps(Before(w, o), HaveHub(w, o).world);
    KeepsTransitive(w, Before(w, o), HaveHub(w, o).world);
  }

  lemma QualifiedIsFaithful(w: World, c: Copy, f: Facts)
    requires Faithful(w, c)
    ensures Faithful(w, Qualified(c, f))
    ensures AppName(Qualified(c, f).obj) == AppName(c.obj) == ApplicationName(Qualified(c, f).obj)
  {
  }

  /** The target built from a faithful copy never orders more than the recorded phase. */
  lemma TargetIsModest(w: World, c: Copy, f: Facts)
    requires Inv(w) && Faithful(w, c)
    ensures Modest(w, NewTarget(Qualified(c, f).obj, f, w.argoNamespace).spec)
    ensures Faithful(w, Qualified(c, f))
    ensures NewTarget(Qualified(c, f).obj, f, w.argoNamespace).id.name == AppName(c.obj) == AppName(Qualified(c, f).obj)
  {
    hide CommonApplicationSpec, DeleteRank, ExtraRank, ApplyDefaults, Inv;
    QualifiedIsFaithful(w, c, f);
    CopyBehind(w, c);
    TargetDeleteRank(Qualified(c, f).obj, f, w.argoNamespace);
    ExtraRankReadsExtras(Qualified(c, f).obj, w.versions[c.rv]);
    assert w.versions[c.rv] in w.versions;
  }

  lemma ExtraRankReadsExtras(p: Pattern, q: Pattern)
    requires p.spec.extras == q.spec.extras
    ensures ExtraRank(p) == ExtraRank(q)
  {
  }

  lemma FinalizeMoves(w: World, o: Oracle, c: Copy)
    requires Inv(w) && Faithful(w, c)
    ensures Moves(w, Finalize(w, o, c).world)
  {
    hide Inv, Snapshot, Modest, Defaults, GetApp, PhaseStep, NewTarget, ApplyDefaults, OwnedBySame;
    if !Prunes(c.obj) {
      KeepsItself(w);
      KeepsIsMoves(w, w);
    } else {
      var d := Defaults(w, o);
      DefaultsKeeps(w, o);
      KeepsIsMoves(w, d.world);
      if d.out.Some? {
        var q := Qualified(c, d.out.value);
        var t := NewTarget(q.obj, d.out.value, w.argoNamespace);
        var g := GetApp(d.world, o, t.id);
        CopiesStay(w, d.world, c);
        TargetIsModest(d.world, c, d.out.value);
        GetAppKeeps(d.world, o, t.id);
        KeepsTransitive(w, d.world, g.world);
        KeepsIsMoves(w, g.world);
        if g.out.Some? && OwnedBySame(t.owners, g.out.value.owners) {
          CopiesStay(d.world, g.world, q);
          ModestStays(d.world, g.world, t.spec);
          PhaseStepMoves(g.world, o, q, t, g.out.value);
          KeepsThenMoves(w, g.world, PhaseStep(g.world, o, q, t, g.out.value).world);
        }
      }
    }
  }

  lemma DefaultsKeeps(w: World, o: Oracle)
    requires Inv(w)
    ensures Keeps(w, Defaults(w, o).world)
    ensures Keeps(w, Routine(w, o).world)
  {
    hide Inv, Snapshot, HappenAll;
    BeforeKeeps(w, o);
  }

  // ---- Reconcile ----

  lemma RecordKeeps(w: World, o: Oracle, c: Copy, step: string, err: Option<Error>)
    requires Inv(w) && Faithful(w, c)
    ensures Keeps(w, Record(w, o, c, step, err).world)
  {
    hide Inv, Snapshot, WriteStatus;
    WriteStatusKeeps(w, o, c.(obj := c.obj.(status := c.obj.status.(lastStep := step, lastError := err))));
  }

  lemma AddFinalizerKeeps(w: World, o: Oracle, c: Copy)
    requires Inv(w) && Faithful(w, c) && Verbatim(w, c) && !c.obj.deleting
    ensures Keeps(w, AddFinalizer(w, o, c).world)
  {
    hide Inv, Snapshot, WriteObject, Record;
    var u := WriteObject(w, o, c.(obj := c.obj.(finalizers := c.obj.finalizers + {PATTERN_FINALIZER})));
    WriteObjectStays(w, o, c.(obj := c.obj.(finalizers := c.obj.finalizers + {PATTERN_FINALIZER})));
    CopiesStay(w, u.world, c);
    var c' := u.out.GetOr(c);
    var err := if u.out.None? then Some(StepFailed("updated finalizer")) else None;
    RecordKeeps(u.world, o, c', "updated finalizer", err);
    KeepsTransitive(w, u.world, Record(u.world, o, c', "updated finalizer", err).world);
  }

  lemma ReconcileApplicationKeeps(w: World, o: Oracle, t: Target)
    requires Inv(w) && Modest(w, t.spec)
    ensures Keeps(w, ReconcileApplication(w, o, t).world)
  {
    hide Inv, Snapshot, Modest, GetApp, CreateApp, UpdateApplication, OwnedBySame;
    var g := GetApp(w, o, t.id);
    GetAppKeeps(w, o, t.id);
    ModestStays(w, g.world, t.spec);
    if g.out.None? {
      CreateAppKeeps(g.world, o, t);
      KeepsTransitive(w, g.world, CreateApp(g.world, o, t).world);
    } else {
      UpdateApplicationKeeps(g.world, o, t, g.out.value);
      KeepsTransitive(w, g.world, UpdateApplication(g.world, o, t, g.out.value).world);
    }
  }

  lemma CompleteKeeps(w: World, o: Oracle, c: Copy)
    requires Inv(w) && Faithful(w, c)
    ensures Keeps(w, Complete(w, o, c).world)
  {
    hide Inv, Snapshot, WriteStatus, Record, Routine;
    var r := Routine(w, o);
    DefaultsKeeps(w, o);
    CopiesStay(w, r.world, c);
    var step := if r.out == Performed then "update pattern application status" else c.obj.status.lastStep;
    var c1 := c.(obj := c.obj.(status := c.obj.status.(lastStep := step)));
    var u := if r.out == Performed then WriteStatus(r.world, o, c1) else Step(r.world, None);
    if r.out == Performed {
      WriteStatusKeeps(r.world, o, c1);
      KeepsTransitive(w, r.world, u.world);
      CopiesStay(r.world, u.world, c1);
    }
    var c2 := u.out.GetOr(c1);
    RecordKeeps(u.world, o, c2, "reconcile complete", None);
    KeepsTransitive(w, u.world, Record(u.world, o, c2, "reconcile complete", None).world);
  }

  lemma DeployKeeps(w: World, o: Oracle, c: Copy)
    requires Inv(w) && Faithful(w, c)
    ensures Keeps(w, Deploy(w, o, c).world)
  {
    hide Inv, Snapshot, Modest, Defaults, Routine, Record, Complete, ReconcileApplication, NewTarget, ApplyDefaults;
    var d := Defaults(w, o);
    DefaultsKeeps(w, o);
    CopiesStay(w, d.world, c);
    if d.out.None? {
      RecordKeeps(d.world, o, c, "applying defaults", Some(StepFailed("applying defaults")));
      KeepsTransitive(w, d.world, Deploy(w, o, c).world);
    } else {
      var q := Qualified(c, d.out.value);
      var t := NewTarget(q.obj, d.out.value, w.argoNamespace);
      var r := Routine(d.world, o);
      DefaultsKeeps(d.world, o);
      KeepsTransitive(w, d.world, r.world);
      CopiesStay(w, r.world, c);
      TargetIsModest(r.world, c, d.out.value);
      if r.out != Fine {
        var err := if r.out == Performed then None else Some(StepFailed("prerequisites"));
        RecordKeeps(r.world, o, q, "prerequisites", err);
        KeepsTransitive(w, r.world, Deploy(w, o, c).world);
      } else {
        var a := ReconcileApplication(r.world, o, t);
        ReconcileApplicationKeeps(r.world, o, t);
        KeepsTransitive(w, r.world, a.world);
        CopiesStay(r.world, a.world, q);
        match a.out {
          case Acted(step, err, bump) =>
            RecordKeeps(a.world, o, Bumped(q, bump), step, err);
            KeepsTransitive(w, a.world, Deploy(w, o, c).world);
          case Converged =>
            CompleteKeeps(a.world, o, q);
            KeepsTransitive(w, a.world, Deploy(w, o, c).world);
        }
      }
    }
  }

  /** The part of a call before the finalizer may be let go: on every other way the call leaves it on. */
  lemma HandleAdvances(w: World, o: Oracle, c: Copy)
    requires Inv(w) && Faithful(w, c) && Verbatim(w, c)
    ensures Advances(w, Handle(w, o, c).world)
    ensures !(c.obj.deleting && Finalize(Routine(w, o).world, o, c).out.None?) ==> Moves(w, Handle(w, o, c).world)
  {
    hide Inv, Snapshot, Routine, Record, Finalize, RemoveFinalizer, AddFinalizer, Deploy, Pinned;
    var r := Routine(w, o);
    DefaultsKeeps(w, o);
    CopiesStay(w, r.world, c);
    VerbatimStays(w, r.world, c);
    if r.out != Fine {
      RecordKeeps(r.world, o, c, "operator configuration", Some(StepFailed("operator configuration")));
      KeepsTransitive(w, r.world, Handle(w, o, c).world);
      KeepsIsMoves(w, Handle(w, o, c).world);
    } else if c.obj.deleting {
      var f := Finalize(r.world, o, c);
      FinalizeMoves(r.world, o, c);
      CopiesStay(r.world, f.world, c);
      VerbatimStays(r.world, f.world, c);
      if f.out.Some? {
        RecordKeeps(f.world, o, c, "finalize", f.out);
        KeepsMovesKeeps(w, r.world, f.world, Handle(w, o, c).world);
      } else {
        RemoveFinalizerStays(f.world, o, c);
        AdvancesStays(r.world, f.world, Handle(w, o, c).world);
        KeepsAdvances(w, r.world, Handle(w, o, c).world);
      }
    } else if PATTERN_FINALIZER !in c.obj.finalizers {
      AddFinalizerKeeps(r.world, o, c);
      KeepsTransitive(w, r.world, Handle(w, o, c).world);
      KeepsIsMoves(w, Handle(w, o, c).world);
    } else {
      DeployKeeps(r.world, o, c);
      KeepsTransitive(w, r.world, Handle(w, o, c).world);
      KeepsIsMoves(w, Handle(w, o, c).world);
    }
  }

  lemma RemoveFinalizerStays(w: World, o: Oracle, c: Copy)
    requires Inv(w) && Verbatim(w, c) && c.obj.deleting
    ensures Stays(w, RemoveFinalizer(w, o, c).world)
  {
    hide Inv, Snapshot, WriteObject;
    WriteObjectStays(w, o, c.(obj := c.obj.(finalizers := c.obj.finalizers - {PATTERN_FINALIZER})));
  }

  lemma ReadIsVerbatim(w: World, o: Oracle)
    ensures ReadPattern(w, o).out.Got? ==> Verbatim(ReadPattern(w, o).world, ReadPattern(w, o).out.copy)
  {
    hide HappenAll;
  }

  /** One call, on any stored version, under any interference and failures. */
  lemma ReconcileAdvances(w: World, o: Oracle)
    requires Inv(w)
    ensures Advances(w, Reconcile(w, o).world)
  {
    hide Inv, Snapshot, ReadPattern, Handle, Pinned, Verbatim;
    var r := ReadPattern(w, o);
    ReadKeeps(w, o);
    ReadIsVerbatim(w, o);
    KeepsIsMoves(w, r.world);
    if r.out.Got? {
      HandleAdvances(r.world, o, r.out.copy);
      KeepsAdvances(w, r.world, Handle(r.world, o, r.out.copy).world);
    }
  }

  lemma {:induction false} RunKeepsInvariant(w: World, o: Oracle, calls: nat)
    requires Inv(w)
    ensures Inv(Run(w, o, calls)) && Grew(w, Run(w, o, calls))
    decreases calls
  {
    hide Inv, Snapshot, Reconcile, Edge, Crossings;
    if calls > 0 {
      ReconcileAdvances(w, o);
      RunKeepsInvariant(Reconcile(w, o).world, o, calls - 1);
    }
  }
}

/**
 What a gate has asked for when it opens, what a refused request stops, and for which reason each
 phase of a run was left.
 */
module Gates {
  import opened Wrappers
  import opened Patterns
  import opened Applications
  import opened Targets
  import opened Cluster
  import opened StoreFacts
  import opened Protocol
  import opened Safety
  import opened Runs
  import opened Guarantees

  // ---- Asking ----

  /** A forced sync with that prune flag is under way on the Application, or was asked for and acknowledged. */
  predicate Asked(a: App, prune: bool, news: seq<Event>) {
    || (&& a.operation.Some? && a.operation.value.sync.Some?
        && a.operation.value.sync.value.prune == prune
        && "Force=true" in a.operation.value.sync.value.options)
    || SyncRequested(a.id, prune, true) in news
  }

  predicate AllAsked(apps: seq<App>, prune: bool, news: seq<Event>) {
    forall a :: a in apps ==> Asked(a, prune, news)
  }

  /** What was logged between two stores of a run. */
  function News(w: World, v: World): seq<Event>
    requires w.log <= v.log
  {
    v.log[|w.log|..]
  }

  lemma MoreNews(u: World, w: World, v: World, x: World)
    requires u.log <= w.log <= v.log <= x.log
    ensures u.log <= x.log && forall e :: e in News(w, v) ==> e in News(u, x)
  {
    var n := |w.log| - |u.log|;
    assert forall i :: 0 <= i < |News(w, v)| ==> News(w, v)[i] == News(u, x)[i + n];
  }

  lemma OneStillAsked(a: App, prune: bool, news: seq<Event>, more: seq<Event>)
    requires Asked(a, prune, news) && forall e :: e in news ==> e in more
    ensures Asked(a, prune, more)
  {
  }

  lemma StillAsked(apps: seq<App>, prune: bool, news: seq<Event>, more: seq<Event>)
    requires AllAsked(apps, prune, news) && forall e :: e in news ==> e in more
    ensures AllAsked(apps, prune, more)
  {
  }

  /** A sync that is answered well was under way, or was asked for and is now ordered in the store. */
  lemma SyncIsAsked(w: World, o: Oracle, a: App, prune: bool)
    ensures var s := SyncApplication(w, o, a, prune);
            && w.log <= s.world.log
            && (s.out ==> Asked(a, prune, News(w, s.world)))
            && (s.out && s.world != w ==>
                  var now := Find(s.world.apps, a.id);
                  now.Some? && now.value.operation == Some(Operation(Some(Sync(prune, ["Force=true"])))))
  {
    hide HappenAll;
    OthersLogNothing(w, o(w.clock).outside);
    if !Syncing(a, prune) {
      var b := a.(operation := Some(Operation(Some(Sync(prune, [FORCE])))));
      FindInReplaced(Before(w, o).apps, b.(spec := Stored(b.spec), rv := Before(w, o).nextRv), a.id);
    }
  }

  // ---- Asking all of a list ----

  /** The store after a sync of each of the first n, whatever the answers. */
  function SyncedUpTo(w: World, o: Oracle, apps: seq<App>, prune: bool, n: nat): World
    requires n <= |apps|
  {
    if n == 0 then w
    else SyncApplication(SyncedUpTo(w, o, apps, prune, n - 1), o, apps[n - 1], prune).world
  }

  predicate Accepted(w: World, o: Oracle, apps: seq<App>, prune: bool, n: nat)
    requires n < |apps|
  {
    SyncApplication(SyncedUpTo(w, o, apps, prune, n), o, apps[n], prune).out
  }

  lemma {:induction false} SyncedAfterFirst(w: World, o: Oracle, apps: seq<App>, prune: bool, n: nat)
    requires n < |apps|
    ensures SyncedUpTo(w, o, apps, prune, n + 1)
         == SyncedUpTo(SyncApplication(w, o, apps[0], prune).world, o, apps[1..], prune, n)
  {
    hide SyncApplication;
    if n > 0 {
      SyncedAfterFirst(w, o, apps, prune, n - 1);
    }
  }

  /** How many of the list are asked: up to and without the first whose request is not accepted. */
  function Reach(w: World, o: Oracle, apps: seq<App>, prune: bool, from: nat): (n: nat)
    requires from <= |apps|
    ensures from <= n <= |apps|
    decreases |apps| - from
  {
    if from == |apps| || !Accepted(w, o, apps, prune, from) then from else Reach(w, o, apps, prune, from + 1)
  }

  lemma {:induction false} ReachIsFirstRefusal(w: World, o: Oracle, apps: seq<App>, prune: bool, from: nat)
    requires from <= |apps|
    ensures var n := Reach(w, o, apps, prune, from);
            && (forall i :: from <= i < n ==> Accepted(w, o, apps, prune, i))
            && (n < |apps| ==> !Accepted(w, o, apps, prune, n))
    decreases |apps| - from
  {
    hide Accepted;
    if from < |apps| && Accepted(w, o, apps, prune, from) {
      ReachIsFirstRefusal(w, o, apps, prune, from + 1);
    }
  }

  lemma {:induction false} ReachAfterFirst(w: World, o: Oracle, apps: seq<App>, prune: bool, from: nat)
    requires from < |apps|
    ensures Reach(w, o, apps, prune, from + 1)
         == Reach(SyncApplication(w, o, apps[0], prune).world, o, apps[1..], prune, from) + 1
    decreases |apps| - from
  {
    hide SyncApplication;
    if from + 1 < |apps| {
      SyncedAfterFirst(w, o, apps, prune, from);
      ReachAfterFirst(w, o, apps, prune, from + 1);
    }
  }

  /**
   The list is gone through in order. The first request that is not accepted ends it, with the error
   that names its Application, and none is sent after it.
   */
  lemma {:induction false} RefusalStopsTheList(w: World, o: Oracle, apps: seq<App>, prune: bool)
    ensures var n := Reach(w, o, apps, prune, 0);
            SyncAll(w, o, apps, prune) == (if n == |apps| then Step(SyncedUpTo(w, o, apps, prune, n), None)
              else Step(SyncedUpTo(w, o, apps, prune, n + 1), Some(SyncFailed(apps[n].id.name))))
    decreases |apps|
  {
    hide SyncApplication;
    if apps != [] {
      var s := SyncApplication(w, o, apps[0], prune);
      if s.out {
        RefusalStopsTheList(s.world, o, apps[1..], prune);
        ReachAfterFirst(w, o, apps, prune, 0);
        SyncedAfterFirst(w, o, apps, prune, Reach(s.world, o, apps[1..], prune, 0));
        if Reach(s.world, o, apps[1..], prune, 0) < |apps| - 1 {
          SyncedAfterFirst(w, o, apps, prune, Reach(s.world, o, apps[1..], prune, 0) + 1);
        }
      }
    }
  }

  lemma {:induction false} SyncedAreAsked(w: World, o: Oracle, apps: seq<App>, prune: bool, n: nat)
    requires n <= |apps| && forall i :: 0 <= i < n ==> Accepted(w, o, apps, prune, i)
    ensures var v := SyncedUpTo(w, o, apps, prune, n); w.log <= v.log && AllAsked(apps[..n], prune, News(w, v))
  {
    hide SyncApplication, Asked;
    if n > 0 {
      var u, v := SyncedUpTo(w, o, apps, prune, n - 1), SyncedUpTo(w, o, apps, prune, n);
      SyncedAreAsked(w, o, apps, prune, n - 1);
      SyncIsAsked(u, o, apps[n - 1], prune);
      assert Accepted(w, o, apps, prune, n - 1);
      MoreNews(w, w, u, v);
      MoreNews(w, u, v, v);
      StillAsked(apps[..n - 1], prune, News(w, u), News(w, v));
      StillAsked([apps[n - 1]], prune, News(u, v), News(w, v));
      assert apps[..n] == apps[..n - 1] + [apps[n - 1]];
    }
  }

  /** If the list was gone through, all of it was asked, each request acknowledged. */
  lemma ListIsAsked(w: World, o: Oracle, apps: seq<App>, prune: bool)
    ensures var s := SyncAll(w, o, apps, prune);
            s.out.None? ==> w.log <= s.world.log && AllAsked(apps, prune, News(w, s.world))
  {
    hide SyncAll, Accepted, AllAsked;
    RefusalStopsTheList(w, o, apps, prune);
    ReachIsFirstRefusal(w, o, apps, prune, 0);
    var n := Reach(w, o, apps, prune, 0);
    SyncedAreAsked(w, o, apps, prune, n);
    assert apps[..|apps|] == apps;
  }

  // ---- The spoke gates ----

  /** The listing a spoke gate makes once the parent's sync is asked for. */
  function Listing(w: World, o: Oracle, a: App): Step<Option<seq<App>>> {
    ListChildren(SyncApplication(w, o, a, false).world, o, a.id.name)
  }

  /**
   The Application agrees with its target, and the parent and all its children that were listed were
   asked to sync, the children with that prune flag.
   */
  predicate Prepared(w: World, o: Oracle, t: Target, a: App, pruneChildren: bool, news: seq<Event>) {
    && ViewOf(Some(a.spec)) == ViewOf(Some(t.spec))
    && Asked(a, false, news)
    && Listing(w, o, a).out.Some?
    && AllAsked(Listing(w, o, a).out.value, pruneChildren, news)
  }

  lemma MorePrepared(w: World, o: Oracle, t: Target, a: App, prune: bool, news: seq<Event>, more: seq<Event>)
    requires Prepared(w, o, t, a, prune, news) && forall e :: e in news ==> e in more
    ensures Prepared(w, o, t, a, prune, more)
  {
    StillAsked(Listing(w, o, a).out.value, prune, news, more);
  }

  lemma PreparationAsks(w: World, o: Oracle, t: Target, a: App, prune: bool)
    ensures var s := SyncParentAndChildren(w, o, t, a, prune);
            s.out.None? ==> w.log <= s.world.log && Prepared(w, o, t, a, prune, News(w, s.world))
  {
    hide UpdateApp, CompareApplication, SyncApplication, SyncAll, Asked, AllAsked, HappenAll;
    CompareIsView(Some(a.spec), Some(t.spec));
    var s := SyncApplication(w, o, a, false);
    var l := Listing(w, o, a);
    SyncIsAsked(w, o, a, false);
    OthersLogNothing(s.world, o(s.world.clock).outside);
    if CompareApplication(Some(a.spec), Some(t.spec)) && s.out && l.out.Some? {
      var all := SyncAll(l.world, o, l.out.value, prune);
      ListIsAsked(l.world, o, l.out.value, prune);
      if all.out.None? {
        MoreNews(w, w, s.world, all.world);
        MoreNews(w, l.world, all.world, all.world);
        StillAsked(l.out.value, prune, News(l.world, all.world), News(w, all.world));
        OneStillAsked(a, false, News(w, s.world), News(w, all.world));
      }
    }
  }

  /** A spoke gate that opens has asked everyone it should. */
  lemma OpenGateHasAsked(w: World, o: Oracle, t: Target, a: App)
    ensures var g := SpokeChildGate(w, o, t, a);
            g.out.None? ==> w.log <= g.world.log && Prepared(w, o, t, a, false, News(w, g.world))
    ensures var g := SpokeGate(w, o, t, a);
            g.out.None? ==> w.log <= g.world.log && Prepared(w, o, t, a, true, News(w, g.world))
  {
    hide SyncParentAndChildren, Prepared, HappenAll;
    PreparationAsks(w, o, t, a, false);
    PreparationAsks(w, o, t, a, true);
    var x, y := SyncParentAndChildren(w, o, t, a, false).world, SyncParentAndChildren(w, o, t, a, true).world;
    OthersLogNothing(x, o(x.clock).outside);
    OthersLogNothing(y, o(y.clock).outside);
  }

  /**
   In a spoke phase with the target in place, a sync that is not accepted ends the clean-up with the
   error that names its Application: the parent's, or the first such child's. Nothing is sent after it.
   */
  lemma RefusalEndsTheStep(w: World, o: Oracle, c: Copy, t: Target, a: App)
    requires c.obj.status.phase.DeleteSpokeChildApps? || c.obj.status.phase.DeleteSpoke?
    requires CompareApplication(Some(a.spec), Some(t.spec))
    ensures var s := SyncApplication(w, o, a, false);
            !s.out ==> PhaseStep(w, o, c, t, a) == Step(s.world, Some(SyncFailed(a.id.name)))
    ensures var l, prune := Listing(w, o, a), c.obj.status.phase.DeleteSpoke?;
            SyncApplication(w, o, a, false).out && l.out.Some? ==>
              var n := Reach(l.world, o, l.out.value, prune, 0);
              n < |l.out.value| ==>
                PhaseStep(w, o, c, t, a)
                  == Step(SyncedUpTo(l.world, o, l.out.value, prune, n + 1), Some(SyncFailed(l.out.value[n].id.name)))
  {
    hide SyncApplication, SyncAll, CompareApplication, ListChildren, QuerySpokes, Advance, Reach, SyncedUpTo;
    var l, prune := Listing(w, o, a), c.obj.status.phase.DeleteSpoke?;
    if l.out.Some? {
      RefusalStopsTheList(l.world, o, l.out.value, prune);
    }
  }

  // ---- Why a phase is left ----

  /** What a step in a phase has to have done before it records another one. */
  ghost predicate Reason(w: World, o: Oracle, from: Phase, to: Phase, t: Target, a: App, news: seq<Event>) {
    match from
    case InitializeDeletion => to == if HaveHub(w, o).out then DeleteSpokeChildApps else DeleteHubChildApps
    case DeleteSpokeChildApps => to == DeleteSpoke && Prepared(w, o, t, a, false, news)
    case DeleteSpoke => to == DeleteHubChildApps && Prepared(w, o, t, a, true, news)
    case DeleteHubChildApps => to == DeleteHub && ListChildren(w, o, a.id.name).out == Some([])
    case _ => false
  }

  /** The errors a step may end with once it has set out to record a phase. */
  predicate OfPhaseWrite(err: Option<Error>) {
    err.Some? && (err.value.Transition? || err.value.PhaseWriteFailed? || err.value.RefetchFailed?)
  }

  lemma AdvanceLeaves(w: World, o: Oracle, c: Copy, to: Phase)
    requires Inv(w) && Faithful(w, c) && Earned(w, c.obj, to)
    ensures OfPhaseWrite(Advance(w, o, c, to).out)
    ensures var v := Advance(w, o, c, to).world;
            Keeps(w, v) || (c.obj.status.phase == PhaseOf(w) && PhaseOf(v) == to && w.log <= v.log)
  {
    hide Inv, Snapshot, HappenAll, Earned, Pinned, Crossings;
    var q := c.(obj := c.obj.(status := c.obj.status.(phase := to)));
    var w1, s := Before(w, o), WriteStatus(w, o, q);
    BeforeKeeps(w, o);
    CopiesStay(w, w1, c);
    StatusWriteExactly(w, o, q);
    AdvanceMoves(w, o, c, to);
    if s.world == w1 {
      if s.out.Some? {
        ReadKeeps(w1, o);
        KeepsTransitive(w, w1, ReadPattern(w1, o).world);
      }
    } else if s.out.Some? {
      WritePhaseMoves(w, o, c, to);
      ReadKeeps(s.world, o);
    }
  }

  lemma GateLeaves(w: World, g: Step<Option<Error>>, o: Oracle, c: Copy, to: Phase)
    requires Keeps(w, g.world) && Faithful(w, c) && (g.out.None? ==> Earned(g.world, c.obj, to))
    ensures var v := Through(g, o, c, to).world;
            || Keeps(w, v)
            || (c.obj.status.phase == PhaseOf(w) && PhaseOf(v) == to && g.out.None? && w.log <= g.world.log <= v.log
                && OfPhaseWrite(Through(g, o, c, to).out))
  {
    hide Inv, Snapshot, Advance, Earned, Pinned, Crossings;
    CopiesStay(w, g.world, c);
    if g.out.None? {
      AdvanceLeaves(g.world, o, c, to);
      if Keeps(g.world, Advance(g.world, o, c, to).world) {
        KeepsTransitive(w, g.world, Advance(g.world, o, c, to).world);
      }
    }
  }

  lemma SpokeStepLeaves(w: World, o: Oracle, c: Copy, t: Target, a: App)
    requires Inv(w) && Faithful(w, c) && Snapshot(w, a) && Modest(w, t.spec)
    requires c.obj.status.phase.DeleteSpokeChildApps? || c.obj.status.phase.DeleteSpoke?
    ensures var v := PhaseStep(w, o, c, t, a).world;
            || Keeps(w, v)
            || (c.obj.status.phase == PhaseOf(w) && w.log <= v.log && OfPhaseWrite(PhaseStep(w, o, c, t, a).out)
                && Reason(w, o, PhaseOf(w), PhaseOf(v), t, a, News(w, v)))
  {
    hide Inv, Snapshot, Modest, SpokeChildGate, SpokeGate, Advance, Keeps, Prepared, News, Reported;
    SpokeGatesKeep(w, o, t, a);
    OpenGateHasAsked(w, o, t, a);
    var childrenGo := c.obj.status.phase.DeleteSpokeChildApps?;
    var g := if childrenGo then SpokeChildGate(w, o, t, a) else SpokeGate(w, o, t, a);
    var to := if childrenGo then DeleteSpoke else DeleteHubChildApps;
    var v := Through(g, o, c, to).world;
    GateLeaves(w, g, o, c, to);
    if !Keeps(w, v) {
      MoreNews(w, w, g.world, v);
      MorePrepared(w, o, t, a, !childrenGo, News(w, g.world), News(w, v));
    }
  }

  lemma HubStepLeaves(w: World, o: Oracle, c: Copy, t: Target, a: App)
    requires Inv(w) && Faithful(w, c) && Snapshot(w, a) && Modest(w, t.spec) && a.id.name == AppName(c.obj)
    requires c.obj.status.phase.DeleteHubChildApps?
    ensures var v := PhaseStep(w, o, c, t, a).world;
            || Keeps(w, v)
            || (c.obj.status.phase == PhaseOf(w) && w.log <= v.log && OfPhaseWrite(PhaseStep(w, o, c, t, a).out)
                && Reason(w, o, PhaseOf(w), PhaseOf(v), t, a, News(w, v)))
  {
    hide Inv, Snapshot, Modest, HubGate, Advance, News, Pinned, Crossings, ListChildren;
    var g := HubGate(w, o, t, a);
    HubGateKeeps(w, o, t, a);
    CopiesStay(w, g.world, c);
    if g.out.None? {
      HubEarned(g.world, c);
    }
    GateLeaves(w, g, o, c, DeleteHub);
    HubGateOpensExactly(w, o, t, a);
  }

  lemma HubReadEarns(w: World, o: Oracle, c: Copy)
    requires Inv(w) && Faithful(w, c) && c.obj.status.phase.InitializeDeletion?
    ensures var h := HaveHub(w, o);
            Earned(h.world, c.obj, if h.out then DeleteSpokeChildApps else DeleteHubChildApps)
  {
    hide Inv, Snapshot, HaveHub;
    HubReadKeeps(w, o);
  }

  /** One step keeps the recorded phase, or that was the copy's and there was reason to leave it. */
  lemma PhaseStepLeaves(w: World, o: Oracle, c: Copy, t: Target, a: App)
    requires Inv(w) && Faithful(w, c) && Snapshot(w, a) && Modest(w, t.spec) && a.id.name == AppName(c.obj)
    ensures var v := PhaseStep(w, o, c, t, a).world;
            || Keeps(w, v)
            || (c.obj.status.phase == PhaseOf(w) && w.log <= v.log && OfPhaseWrite(PhaseStep(w, o, c, t, a).out)
                && Reason(w, o, PhaseOf(w), PhaseOf(v), t, a, News(w, v)))
  {
    hide Inv, Snapshot, Modest, Advance, SpokeChildGate, SpokeGate, HubGate, DeleteApp, HaveHub, Prepared,
         Keeps, ListChildren, News, Reported, Earned;
    match c.obj.status.phase {
      case InitializeDeletion =>
        var h := HaveHub(w, o);
        HubReadKeeps(w, o);
        var to := if h.out then DeleteSpokeChildApps else DeleteHubChildApps;
        HubReadEarns(w, o, c);
        GateLeaves(w, Step(h.world, None), o, c, to);
      case DeleteSpokeChildApps =>
        SpokeStepLeaves(w, o, c, t, a);
      case DeleteSpoke =>
        SpokeStepLeaves(w, o, c, t, a);
      case DeleteHubChildApps =>
        HubStepLeaves(w, o, c, t, a);
      case DeleteHub =>
        DeleteAppKeeps(w, o, c, a.id);
      case Unrecognized(_) =>
        KeepsItself(w);
    }
  }

  /** The hub gate opens exactly on a listing without children; one that waits for them says how many there are. */
  lemma HubGateOpensExactly(w: World, o: Oracle, t: Target, a: App)
    ensures var g, l := HubGate(w, o, t, a), ListChildren(w, o, a.id.name);
            && (g.out.None? <==> l.out == Some([]))
            && (g.out.Some? && g.out.value.WaitingForChildren? ==>
                  l.out.Some? && g.out.value.count == |l.out.value| > 0)
  {
    hide ListChildren, DeleteManagedClusters, HaveHub, ListClusters, UpdateApplication, SyncApplication;
  }

  /** The step of finalizeObject that the call on this store comes to. */
  datatype Scope = Scope(copy: Copy, target: Target, app: App, at: World)

  /** Where finalizeObject works on a phase: defaults found, the Application read and the pattern's own. */
  function ScopeOf(w: World, o: Oracle, c: Copy): Option<Scope> {
    var d := Defaults(w, o);
    if !Prunes(c.obj) || d.out.None? then None
    else
      var q := Qualified(c, d.out.value);
      var t := NewTarget(q.obj, d.out.value, w.argoNamespace);
      var g := GetApp(d.world, o, t.id);
      if g.out.None? || !OwnedBySame(t.owners, g.out.value.owners) then None
      else Some(Scope(q, t, g.out.value, g.world))
  }

  lemma FinalizeLeaves(w: World, o: Oracle, c: Copy)
    requires Inv(w) && Faithful(w, c)
    ensures var v := Finalize(w, o, c).world;
            || Keeps(w, v)
            || (&& c.obj.status.phase == PhaseOf(w) && ScopeOf(w, o, c).Some? && OfPhaseWrite(Finalize(w, o, c).out)
                && var s := ScopeOf(w, o, c).value;
                   s.at.log <= v.log && Reason(s.at, o, PhaseOf(w), PhaseOf(v), s.target, s.app, News(s.at, v)))
  {
    hide Inv, Snapshot, Modest, Defaults, GetApp, PhaseStep, NewTarget, ApplyDefaults, OwnedBySame, Reason, Pinned,
         Crossings, Prunes, News;
    KeepsItself(w);
    var d := Defaults(w, o);
    DefaultsKeeps(w, o);
    if Prunes(c.obj) && d.out.Some? {
      var q := Qualified(c, d.out.value);
      var t := NewTarget(q.obj, d.out.value, w.argoNamespace);
      var g := GetApp(d.world, o, t.id);
      CopiesStay(w, d.world, c);
      TargetIsModest(d.world, c, d.out.value);
      GetAppKeeps(d.world, o, t.id);
      KeepsTransitive(w, d.world, g.world);
      if g.out.Some? && OwnedBySame(t.owners, g.out.value.owners) {
        CopiesStay(d.world, g.world, q);
        ModestStays(d.world, g.world, t.spec);
        PhaseStepLeaves(g.world, o, q, t, g.out.value);
        if Keeps(g.world, PhaseStep(g.world, o, q, t, g.out.value).world) {
          KeepsTransitive(w, g.world, PhaseStep(g.world, o, q, t, g.out.value).world);
        }
      }
    }
  }

  lemma MoreReason(w: World, o: Oracle, from: Phase, to: Phase, t: Target, a: App, news: seq<Event>, more: seq<Event>)
    requires Reason(w, o, from, to, t, a, news) && forall e :: e in news ==> e in more
    ensures Reason(w, o, from, to, t, a, more)
  {
    hide Prepared, ListChildren, HaveHub;
    if from.DeleteSpokeChildApps? || from.DeleteSpoke? {
      MorePrepared(w, o, t, a, from.DeleteSpoke?, news, more);
    }
  }

  /** The clean-up came to a step on that phase, from this store, and had reason to leave it. */
  ghost predicate CleanedUp(w: World, o: Oracle, c: Copy, from: Phase, to: Phase, v: World) {
    && c.obj.deleting && c.obj.status.phase == from && ScopeOf(w, o, c).Some?
    && var x := ScopeOf(w, o, c).value;
       x.at.log <= v.log && Reason(x.at, o, from, to, x.target, x.app, News(x.at, v))
  }

  lemma StillCleanedUp(w: World, o: Oracle, c: Copy, from: Phase, to: Phase, v: World, x: World)
    requires CleanedUp(w, o, c, from, to, v) && v.log <= x.log
    ensures CleanedUp(w, o, c, from, to, x)
  {
    hide Reason, ScopeOf;
    var y := ScopeOf(w, o, c).value;
    MoreNews(y.at, y.at, v, x);
    MoreReason(y.at, o, from, to, y.target, y.app, News(y.at, v), News(y.at, x));
  }

  /** The call on this store read the Pattern in that phase, and its clean-up had reason to leave it. */
  ghost predicate LeftFor(w: World, o: Oracle, from: Phase, to: Phase) {
    var r := ReadPattern(w, o);
    r.out.Got? && CleanedUp(Routine(r.world, o).world, o, r.out.copy, from, to, Reconcile(w, o).world)
  }

  lemma HandleLeaves(w: World, o: Oracle, c: Copy)
    requires Inv(w) && Faithful(w, c) && Verbatim(w, c)
    ensures var v := Handle(w, o, c).world;
            Stays(w, v) || CleanedUp(Routine(w, o).world, o, c, PhaseOf(w), PhaseOf(v), v)
    ensures var r, f := Routine(w, o), Finalize(Routine(w, o).world, o, c);
            c.obj.deleting && r.out == Fine && f.out.Some? && !OfPhaseWrite(f.out) ==> Keeps(w, Handle(w, o, c).world)
  {
    hide Inv, Snapshot, Routine, Record, Finalize, RemoveFinalizer, AddFinalizer, Deploy, Pinned, Reason, ScopeOf,
         Crossings;
    var r := Routine(w, o);
    var v := Handle(w, o, c).world;
    DefaultsKeeps(w, o);
    CopiesStay(w, r.world, c);
    VerbatimStays(w, r.world, c);
    if r.out != Fine {
      RecordKeeps(r.world, o, c, "operator configuration", Some(StepFailed("operator configuration")));
      KeepsTransitive(w, r.world, v);
    } else if c.obj.deleting {
      FinalizeLeaves(r.world, o, c);
      FinalizeMoves(r.world, o, c);
      EndLeaves(w, r.world, o, c);
    } else if PATTERN_FINALIZER !in c.obj.finalizers {
      AddFinalizerKeeps(r.world, o, c);
      KeepsTransitive(w, r.world, v);
    } else {
      DeployKeeps(r.world, o, c);
      KeepsTransitive(w, r.world, v);
    }
  }

  /** What follows finalizeObject leaves the phase alone. */
  lemma EndLeaves(w: World, r: World, o: Oracle, c: Copy)
    requires Inv(w) && Keeps(w, r) && Faithful(r, c) && Verbatim(r, c) && c.obj.deleting
    ensures var f := Finalize(r, o, c);
            var v := if f.out.Some? then Record(f.world, o, c, "finalize", f.out).world
                     else RemoveFinalizer(f.world, o, c).world;
            && (Stays(w, v) || CleanedUp(r, o, c, PhaseOf(w), PhaseOf(v), v))
            && (f.out.Some? && !OfPhaseWrite(f.out) ==> Keeps(w, v))
  {
    hide Inv, Snapshot, Record, Finalize, RemoveFinalizer, Pinned, Reason, ScopeOf, Crossings;
    var f := Finalize(r, o, c);
    FinalizeLeaves(r, o, c);
    FinalizeMoves(r, o, c);
    CopiesStay(r, f.world, c);
    VerbatimStays(r, f.world, c);
    var v := if f.out.Some? then Record(f.world, o, c, "finalize", f.out).world
             else RemoveFinalizer(f.world, o, c).world;
    if f.out.Some? {
      RecordKeeps(f.world, o, c, "finalize", f.out);
    } else {
      RemoveFinalizerStays(f.world, o, c);
    }
    if Keeps(r, f.world) {
      KeepsTransitive(w, r, f.world);
      StaysTransitive(w, f.world, v);
      if f.out.Some? {
        KeepsTransitive(w, f.world, v);
      }
    } else {
      assert CleanedUp(r, o, c, PhaseOf(w), PhaseOf(v), f.world);
      StillCleanedUp(r, o, c, PhaseOf(w), PhaseOf(v), f.world, v);
    }
  }

  lemma CallLeaves(w: World, o: Oracle)
    requires Inv(w)
    ensures var v := Reconcile(w, o).world; Stays(w, v) || LeftFor(w, o, PhaseOf(w), PhaseOf(v))
  {
    hide Inv, Snapshot, ReadPattern, Handle, Pinned, Verbatim, Crossings, CleanedUp;
    var r := ReadPattern(w, o);
    ReadKeeps(w, o);
    ReadIsVerbatim(w, o);
    if r.out.Got? {
      HandleLeaves(r.world, o, r.out.copy);
      if Stays(r.world, Handle(r.world, o, r.out.copy).world) {
        StaysTransitive(w, r.world, Handle(r.world, o, r.out.copy).world);
      }
    }
  }

  /**
   A call whose clean-up ends with a refused sync, or with any error but those of the phase's own
   write, leaves the recorded phase and the finalizer alone.
   */
  lemma FailedCleanUpMovesNothing(w: World, o: Oracle, c: Copy)
    requires Inv(w) && ReadPattern(w, o).out == Got(c) && c.obj.deleting
    requires var s := Routine(ReadPattern(w, o).world, o);
             s.out == Fine && Finalize(s.world, o, c).out.Some? && !OfPhaseWrite(Finalize(s.world, o, c).out)
    ensures Keeps(w, Reconcile(w, o).world)
  {
    hide Inv, Snapshot, ReadPattern, Handle, Pinned, Verbatim, Crossings, CleanedUp, Routine, Finalize;
    var r := ReadPattern(w, o);
    ReadKeeps(w, o);
    ReadIsVerbatim(w, o);
    HandleLeaves(r.world, o, c);
    KeepsTransitive(w, r.world, Handle(r.world, o, c).world);
  }

  // ---- Over whole runs ----

  lemma {:induction false} CrossingsGrow(h: seq<Pattern>, n: nat)
    requires 0 < n <= |h|
    ensures Crossings(h[..n]) <= Crossings(h)
    ensures Crossings(h[..n]) == Crossings(h) ==> h[|h| - 1].status.phase == h[n - 1].status.phase
    decreases |h|
  {
    if n < |h| {
      var init := h[..|h| - 1];
      assert init[..n] == h[..n];
      CrossingsGrow(init, n);
    } else {
      assert h[..n] == h;
    }
  }

  lemma OneMoreCrossing(h: seq<Pattern>, i: nat)
    requires 0 < i < |h| && h[i - 1].status.phase != h[i].status.phase
    ensures Crossings(h[..i + 1]) == Crossings(h[..i]) + 1
  {
    hide Crossings;
    CrossingsOfAppend(h[..i], h[i]);
    assert h[..i] + [h[i]] == h[..i + 1];
  }

  lemma BeginningIsBefore(before: seq<Pattern>, h: seq<Pattern>, i: nat)
    requires before != [] && before <= h && |before| <= i <= |h|
    ensures Crossings(before) <= Crossings(h[..i]) <= Crossings(h)
    ensures Crossings(before) == Crossings(h[..i]) ==> h[i - 1].status.phase == before[|before| - 1].status.phase
    ensures Crossings(h[..i]) == Crossings(h) ==> h[i - 1].status.phase == h[|h| - 1].status.phase
  {
    hide Crossings;
    assert h[..i][..|before|] == before;
    CrossingsGrow(h[..i], |before|);
    CrossingsGrow(h, i);
  }

  /** The one phase change of a call is from the phase before it to the phase after it. */
  lemma CrossingOfCall(before: seq<Pattern>, h: seq<Pattern>, i: nat)
    requires before != [] && before <= h && Crossings(h) <= Crossings(before) + 1
    requires |before| <= i < |h| && h[i - 1].status.phase != h[i].status.phase
    ensures Crossings(h) == Crossings(before) + 1
    ensures h[i - 1].status.phase == before[|before| - 1].status.phase && h[i].status.phase == h[|h| - 1].status.phase
  {
    hide Crossings;
    OneMoreCrossing(h, i);
    BeginningIsBefore(before, h, i);
    BeginningIsBefore(before, h, i + 1);
  }

  /**
   In any run, every phase was left in a call that read the Pattern in that phase and had reason to:
   a spoke phase only once the Application agreed with its target, and it and all its children that
   were listed were under a forced sync, or were asked for one and acknowledged it.
   */
  lemma PhasesAreLeftForAReason(w: World, o: Oracle, calls: nat, i: nat) returns (k: nat)
    requires Start(w)
    requires var h := Run(w, o, calls).versions; 0 < i < |h| && h[i - 1].status.phase != h[i].status.phase
    ensures var h := Run(w, o, calls).versions;
            k < calls && WrittenIn(w, o, k, i)
            && LeftFor(Run(w, o, k), o, h[i - 1].status.phase, h[i].status.phase)
  {
    hide Inv, Run, Reconcile, LeftFor, Snapshot, Crossings, Pinned;
    StartHoldsInvariant(w);
    k := VersionHasItsCall(w, o, calls, i);
    RunGrows(w, o, k, calls);
    RunGrows(w, o, k + 1, calls);
    RunOneMore(w, o, k);
    var u, v := Run(w, o, k), Run(w, o, k + 1);
    ReconcileAdvances(u, o);
    CrossingOfCall(u.versions, v.versions, i);
    CallLeaves(u, o);
  }

  // ---- What the errors of the gates say ----

  /**
   What an update of the Application reports: no change exactly when the compared fields agree, success
   only with the target in the store, and a failure only if the write was not acknowledged.
   */
  lemma UpdateTellsTheTruth(w: World, o: Oracle, t: Target, a: App)
    requires t.spec.sources != Some([])
    ensures var u := UpdateApplication(w, o, t, a);
            && (u.out.Unchanged? <==> ViewOf(Some(a.spec)) == ViewOf(Some(t.spec)))
            && (u.out.Unchanged? ==> u.world == w)
            && (u.out.Written? ==>
                  && u.world.log == w.log + [TargetWritten(a.id)]
                  && Find(u.world.apps, a.id).Some? && Find(u.world.apps, a.id).value.spec == Stored(t.spec))
            && (u.out.WriteRefused? ==>
                  var stored := Find(Before(w, o).apps, a.id);
                  Answer(w, o) != Fine || stored.None? || stored.value.rv != a.rv)
  {
    hide HappenAll, CompareApplication, Stored;
    OthersLogNothing(w, o(w.clock).outside);
    CompareIsView(Some(a.spec), Some(t.spec));
    SameEmptySources(a.spec, t.spec);
    var b := a.(spec := t.spec);
    FindInReplaced(Before(w, o).apps, b.(spec := Stored(b.spec), rv := Before(w, o).nextRv), a.id);
  }

  lemma SameEmptySources(a: AppSpec, b: AppSpec)
    requires b.sources != Some([])
    ensures ViewOf(Some(a)) == ViewOf(Some(b)) ==> !EmptySources(Some(a))
  {
    if ViewOf(Some(a)) == ViewOf(Some(b)) && b.sources.Some? {
      assert |ViewSources(a.sources.value)| == |ViewSources(b.sources.value)|;
    }
  }

  /** A gate that says the target was updated, or could not be, has it from the update. */
  lemma GatesTellOfUpdates(w: World, o: Oracle, t: Target, a: App)
    ensures var u, g := UpdateApplication(w, o, t, a).out, SpokeChildGate(w, o, t, a).out;
            && (g == Some(TargetUpdated) <==> u.Written?)
            && (g == Some(TargetUpdateFailed) <==> u.WriteRefused?)
    ensures var u, g := UpdateApplication(w, o, t, a).out, SpokeGate(w, o, t, a).out;
            && (g == Some(TargetUpdated) <==> u.Written?)
            && (g == Some(TargetUpdateFailed) <==> u.WriteRefused?)
  {
    hide UpdateApplication, SyncApplication, SyncAll, ListChildren, QuerySpokes;
    var l := Listing(UpdateApplication(w, o, t, a).world, o, a);
    if l.out.Some? {
      SyncAllReportsSyncs(l.world, o, l.out.value, false);
      SyncAllReportsSyncs(l.world, o, l.out.value, true);
    }
  }

  /**
   While the hub has children and no cluster is in the way, the gate says what came of asking Argo to
   delete them: the update of the target, a refused sync, or that it waits, with the pruning sync under
   way or acknowledged.
   */
  lemma HubGateTellsTheTruth(w: World, o: Oracle, t: Target, a: App)
    requires ListChildren(w, o, a.id.name).out.Some? && ListChildren(w, o, a.id.name).out.value != []
    requires ClusterGate(ListChildren(w, o, a.id.name).world, o).out.None?
    ensures var v, g := ClusterGate(ListChildren(w, o, a.id.name).world, o).world, HubGate(w, o, t, a);
            var u, s := UpdateApplication(v, o, t, a), SyncApplication(v, o, a, true);
            && (g.out == Some(TargetUpdated) <==> u.out.Written?)
            && (g.out == Some(TargetUpdateFailed) <==> u.out.WriteRefused?)
            && (g.out == Some(SyncFailed(a.id.name)) <==> u.out.Unchanged? && !s.out)
            && (g.out.Some? && g.out.value.WaitingForChildren? <==> u.out.Unchanged? && s.out)
            && (g.out.Some? && g.out.value.WaitingForChildren? ==>
                  v.log <= g.world.log && Asked(a, true, News(v, g.world))
                  && ViewOf(Some(a.spec)) == ViewOf(Some(t.spec)))
  {
    hide ListChildren, ClusterGate, UpdateApp, CompareApplication, SyncApplication, Asked;
    var v := ClusterGate(ListChildren(w, o, a.id.name).world, o).world;
    SyncIsAsked(v, o, a, true);
    CompareIsView(Some(a.spec), Some(t.spec));
  }

  // ---- Deleting all of a list of clusters ----

  /** The store after the deletes of the first n, whatever the answers. */
  function DeletedUpTo(w: World, o: Oracle, names: seq<string>, n: nat): World
    requires n <= |names|
  {
    if n == 0 then w else DeleteCluster(DeletedUpTo(w, o, names, n - 1), o, names[n - 1]).world
  }

  predicate RefusedAt(w: World, o: Oracle, names: seq<string>, n: nat)
    requires n < |names|
  {
    DeleteCluster(DeletedUpTo(w, o, names, n), o, names[n]).out.DeletionRefused?
  }

  lemma {:induction false} DeletedAfterFirst(w: World, o: Oracle, names: seq<string>, n: nat)
    requires n < |names|
    ensures DeletedUpTo(w, o, names, n + 1) == DeletedUpTo(DeleteCluster(w, o, names[0]).world, o, names[1..], n)
  {
    hide DeleteCluster;
    if n > 0 {
      DeletedAfterFirst(w, o, names, n - 1);
    }
  }

  lemma {:induction false} OnlyLocalIsSkipped(w: World, o: Oracle, names: seq<string>, accepted: nat)
    ensures DeleteEach(w, o, names, accepted) == DeleteEach(w, o, NotLocal(names), accepted)
    decreases |names|
  {
    hide DeleteCluster;
    if names != [] {
      if names[0] == LOCAL_CLUSTER {
        OnlyLocalIsSkipped(w, o, names[1..], accepted);
        assert [] + NotLocal(names[1..]) == NotLocal(names[1..]);
      } else {
        var d := DeleteCluster(w, o, names[0]);
        assert NotLocal(names)[1..] == NotLocal(names[1..]);
        OnlyLocalIsSkipped(d.world, o, names[1..], accepted);
        OnlyLocalIsSkipped(d.world, o, names[1..], accepted + 1);
      }
    }
  }

  lemma {:induction false} DeletesInOrder(w: World, o: Oracle, names: seq<string>, accepted: nat) returns (n: nat)
    requires LOCAL_CLUSTER !in names
    ensures n <= |names| && forall i :: 0 <= i < n ==> !RefusedAt(w, o, names, i)
    ensures var d := DeleteEach(w, o, names, accepted);
            if n == |names| then d.out.1 && d.world == DeletedUpTo(w, o, names, n)
            else RefusedAt(w, o, names, n) && !d.out.1 && d.world == DeletedUpTo(w, o, names, n + 1)
    decreases |names|
  {
    hide DeleteCluster;
    n := 0;
    if names != [] {
      assert names == [names[0]] + names[1..];
      var d := DeleteCluster(w, o, names[0]);
      if !d.out.DeletionRefused? {
        var m := DeletesInOrder(d.world, o, names[1..], if d.out.Accepted? then accepted + 1 else accepted);
        n := m + 1;
        forall i | 0 <= i < n ensures !RefusedAt(w, o, names, i) {
          if i > 0 {
            DeletedAfterFirst(w, o, names, i - 1);
            assert !RefusedAt(d.world, o, names[1..], i - 1);
          }
        }
        DeletedAfterFirst(w, o, names, m);
        if n < |names| {
          DeletedAfterFirst(w, o, names, m + 1);
          assert RefusedAt(d.world, o, names[1..], m);
        }
      }
    }
  }

  /**
   Every listed name but the hub's own is tried, in order, up to the first delete that fails; that one
   is the last request sent, and only it makes the whole a failure.
   */
  lemma EveryClusterIsTried(w: World, o: Oracle, listed: seq<string>, accepted: nat) returns (n: nat)
    ensures var names, d := NotLocal(listed), DeleteEach(w, o, listed, accepted);
            && n <= |names| && (forall i :: 0 <= i < n ==> !RefusedAt(w, o, names, i))
            && if n == |names| then d.out.1 && d.world == DeletedUpTo(w, o, names, n)
               else RefusedAt(w, o, names, n) && !d.out.1 && d.world == DeletedUpTo(w, o, names, n + 1)
    ensures forall name :: name in NotLocal(listed) <==> name in listed && name != "local-cluster"
  {
    hide DeleteEach, RefusedAt, DeletedUpTo;
    OnlyLocalIsSkipped(w, o, listed, accepted);
    NotLocalIsNamed(listed);
    n := DeletesInOrder(w, o, NotLocal(listed), accepted);
  }

  /** While the hub has children, the gate's error says how many clusters' deletes were acknowledged. */
  lemma ClusterErrorsCount(w: World, o: Oracle)
    ensures var g := ClusterGate(w, o);
            && w.log <= g.world.log
            && (g.out.None? ==> Acknowledged(g.world.log) == Acknowledged(w.log))
            && (g.out.Some? ==>
                  && (g.out.value.ClustersDeleting? || g.out.value.ClusterDeletionFailed?)
                  && g.out.value.accepted == Acknowledged(g.world.log) - Acknowledged(w.log)
                  && (g.out.value.ClustersDeleting? ==> g.out.value.accepted > 0))
  {
    hide HappenAll, DeleteEach, Acknowledged, NotLocal;
    var h := HaveHub(w, o);
    var l := ListClusters(h.world, o);
    var m := ListClusters(l.world, o);
    ClusterGateLogs(w, o);
    OthersLogNothing(w, o(w.clock).outside);
    OthersLogNothing(h.world, o(h.world.clock).outside);
    OthersLogNothing(l.world, o(l.world.clock).outside);
    if m.out.Some? {
      ClusterCountIsExact(m.world, o, m.out.value, 0);
    }
  }
}

/**
 Runs in which a promise of the protocol fails, one for each condition its theorem names: an extra
 parameter that orders a deletion by itself, a search answer without items, and a change of the
 cluster group in the last phase.
 */
module Scenes {
  import opened Wrappers
  import opened Patterns
  import opened Applications
  import opened Targets
  import opened Cluster
  import opened StoreFacts
  import opened Protocol
  import opened Progress
  import Safety
  import Guarantees

  // ---- An extra parameter with the reserved name ----

  /** A Pattern about to be deployed for the first time. */
  ghost predicate Undeployed(w: World) {
    && Guarantees.Start(w) && !w.gone && w.apps == []
    && !Current(w).deleting && PATTERN_FINALIZER in Current(w).finalizers
  }

  lemma DeployCall(w: World, f: Facts)
    requires Undeployed(w)
    ensures Reconcile(w, Calm(f)) == Deploy(w.(clock := w.clock + 2), Calm(f), Copy(0, Current(w)))
  {
    hide Deploy, Record, StoreOk, Normal, AheadOfPhase;
  }

  lemma CreateCall(w: World, f: Facts, t: Target)
    requires w.apps == []
    ensures var s := ReconcileApplication(w, Calm(f), t);
            && s.out == Acted("create application", None, false)
            && s.world.apps == [App(t.id, None, t.owners, Stored(t.spec), None, false, w.nextRv)]
            && s.world.versions == w.versions && s.world.gone == w.gone && s.world.departures == w.departures
  {
    hide Stored;
  }

  lemma CalmRecordKeeps(w: World, f: Facts, c: Copy, step: string)
    requires c.obj.status.phase == PhaseOf(w)
    ensures var v := Record(w, Calm(f), c, step, None).world;
            v.apps == w.apps && PhaseOf(v) == PhaseOf(w) && v.departures == w.departures
  {
  }

  /** The first undisturbed call creates the Application the target describes, and records no phase. */
  lemma FirstCallDeploys(w: World, f: Facts)
    requires Undeployed(w)
    ensures var t := NewTarget(ApplyDefaults(Current(w), f), f, w.argoNamespace);
            var v := Reconcile(w, Calm(f)).world;
            && v.apps == [App(t.id, None, t.owners, Stored(t.spec), None, false, w.nextRv)]
            && PhaseOf(v) == InitializeDeletion && v.departures == {}
  {
    hide NewTarget, StoreOk, Normal, Stored, ApplyDefaults, AheadOfPhase, Record, ReconcileApplication, Complete;
    var q := Qualified(Copy(0, Current(w)), f);
    var t := NewTarget(q.obj, f, w.argoNamespace);
    var v := w.(clock := w.clock + 4);
    DeployCall(w, f);
    CreateCall(v, f, t);
    CalmRecordKeeps(ReconcileApplication(v, Calm(f), t).world, f, q, "create application");
  }

  /**
   The first undisturbed call gives Argo exactly the order the extra stands for, while no deletion
   phase is recorded: nobody but the operator has acted.
   */
  lemma ExtraRunsAhead(w: World, f: Facts) returns (a: App)
    requires Undeployed(w)
    ensures var v := Run(w, Calm(f), 1);
            && a in v.apps && DeleteRank(a.spec) == ExtraRank(Current(w))
            && PhaseOf(v) == InitializeDeletion && v.departures == {}
  {
    hide NewTarget, StoreOk, Normal, DeleteRank, ExtraRank, Reconcile, ApplyDefaults, Run, Stored, AheadOfPhase;
    var q := ApplyDefaults(Current(w), f);
    var t := NewTarget(q, f, w.argoNamespace);
    FirstCallDeploys(w, f);
    a := App(t.id, None, t.owners, Stored(t.spec), None, false, w.nextRv);
    StoredDeleteRank(t.spec);
    TargetDeleteRank(q, f, w.argoNamespace);
    SameExtras(q, Current(w));
    OneCall(w, f);
  }

  lemma OneCall(w: World, f: Facts)
    ensures Run(w, Calm(f), 1) == Reconcile(w, Calm(f)).world
  {
    hide Reconcile;
    assert Run(w, Calm(f), 1) == Run(Reconcile(w, Calm(f)).world, Calm(f), 0);
  }

  lemma SameExtras(p: Pattern, q: Pattern)
    requires p.spec.extras == q.spec.extras
    ensures ExtraRank(p) == ExtraRank(q)
  {
  }

  /** A store and a parameter for which Argo is told to delete everything from a Pattern nobody deletes. */
  lemma ArgoCanBeAhead(f: Facts) returns (w: World, a: App)
    ensures Guarantees.Start(w) && !Current(w).deleting
    ensures var v := Run(w, Calm(f), 1);
            a in v.apps && DeleteRank(a.spec) == 4 > PhaseOf(v).Rank() && Forged !in v.departures
  {
    hide Run, DeleteRank, TextRank;
    var extras := [Parameter(DELETE_PATTERN, "DeleteHub")];
    var p := NEW_PATTERN.(name := "p", finalizers := {PATTERN_FINALIZER}, spec := NO_SPEC.(extras := extras));
    w := World([p], false, "argo", [], 0, {}, [], None, 0, {}, {}, {}, {}, []);
    assert FirstExtra(extras, DELETE_PATTERN) == Some("DeleteHub");
    assert ExtraRank(p) == 4 by {
      HubText();
    }
    a := ExtraRunsAhead(w, f);
  }

  lemma HubText()
    ensures TextRank(Some("DeleteHub")) == 4
  {
    PhaseTextRank(DeleteHub);
  }

  // ---- Calls of a deletion on quiet turns ----

  /** For these turns nobody else acts, every request is answered and every read is fresh. */
  predicate Quiet(o: Oracle, f: Facts, from: nat, turns: nat) {
    forall k :: from <= k < from + turns ==> o(k) == Turn([], Fine, 0, f)
  }

  /** The store after the four requests every call on a Pattern being deleted begins with. */
  function Begun(w: World): World {
    w.(clock := w.clock + 4)
  }

  /** The end of such a call. */
  function Ends(s: Step<Option<Error>>, o: Oracle, c: Copy): World {
    if s.out.Some? then Record(s.world, o, c, "finalize", s.out).world else RemoveFinalizer(s.world, o, c).world
  }

  /** What was read, and its form with defaults filled in. */
  function Fresh(w: World): Copy {
    Copy(Top(w), Current(w))
  }

  function Filled(w: World, f: Facts): Copy {
    Qualified(Fresh(w), f)
  }

  lemma FilledIs(w: World, f: Facts)
    ensures Filled(w, f).rv == Top(w) && Filled(w, f).obj.status.phase == PhaseOf(w)
  {
  }

  /** The store has the Application the pattern stands for, and the pattern owns it. */
  predicate Ready(w: World, f: Facts, a: App) {
    && !w.gone && Current(w).deleting && Prunes(Current(w))
    && Find(w.apps, Goal(w, f).id) == Some(a) && OwnedBySame(Goal(w, f).owners, a.owners)
  }

  lemma GoalIsNew(w: World, f: Facts)
    ensures Goal(w, f) == NewTarget(Filled(w, f).obj, f, w.argoNamespace)
  {
  }

  lemma FinalizeBegins(x: World, o: Oracle, f: Facts, a: App)
    requires Ready(x, f, a) && Quiet(o, f, x.clock, 3)
    ensures Finalize(x.(clock := x.clock + 1), o, Fresh(x))
         == PhaseStep(x.(clock := x.clock + 3), o, Filled(x, f), Goal(x, f), a)
  {
    hide NewTarget, ApplyDefaults, PhaseStep, Goal, OwnedBySame, Prunes;
    GoalIsNew(x, f);
  }

  /** A call after its first turn, in which others may have acted. */
  lemma CallAfterRead(w: World, o: Oracle, f: Facts, a: App)
    requires var x := Before(w, o); Ready(x, f, a) && Quiet(o, f, x.clock, 3)
    requires o(w.clock).reply == Fine && o(w.clock).lag == 0
    ensures var x := Before(w, o);
            var s := PhaseStep(x.(clock := x.clock + 3), o, Filled(x, f), Goal(x, f), a);
            Reconcile(w, o).world == Ends(s, o, Fresh(x))
  {
    hide Finalize, PhaseStep, Record, RemoveFinalizer, Goal, Filled, Prunes, OwnedBySame, Find, HappenAll;
    var x := Before(w, o);
    FinalizeBegins(x, o, f, a);
    assert ReadPattern(w, o) == Step(x, Got(Fresh(x)));
    assert Routine(x, o) == Step(x.(clock := x.clock + 1), Fine) by {
      NothingHappens(x);
    }
  }

  lemma CallBegins(w: World, o: Oracle, f: Facts, a: App)
    requires Ready(w, f, a) && Quiet(o, f, w.clock, 4)
    ensures Reconcile(w, o).world == Ends(PhaseStep(Begun(w), o, Filled(w, f), Goal(w, f), a), o, Fresh(w))
  {
    hide Ends, PhaseStep, Reconcile, Prunes, OwnedBySame, Find, NewTarget, ApplyDefaults;
    assert Before(w, o) == w.(clock := w.clock + 1);
    CallAfterRead(w, o, f, a);
  }

  /** The version that records a phase. */
  function Recording(w: World, f: Facts, to: Phase): Pattern {
    Current(w).(status := Filled(w, f).obj.status.(phase := to))
  }

  /** A phase is recorded, and the call's own record of it on the old copy is refused. */
  lemma PhaseLands(w: World, v: World, o: Oracle, f: Facts, to: Phase)
    requires !v.gone && v.versions == w.versions && to != PhaseOf(w) && Quiet(o, f, v.clock, 3)
    ensures Ends(Advance(v, o, Filled(w, f), to), o, Fresh(w))
         == v.(clock := v.clock + 3, versions := w.versions + [Recording(w, f, to)])
  {
    hide Prunes;
    var q := Filled(w, f).(obj := Filled(w, f).obj.(status := Filled(w, f).obj.status.(phase := to)));
    var x := v.(clock := v.clock + 1, versions := v.versions + [Recording(w, f, to)]);
    assert WriteStatus(v, o, q) == Step(x, Some(Copy(Top(x), Current(x))));
    assert Advance(v, o, Filled(w, f), to) == Step(x.(clock := v.clock + 2), Some(Transition(to)));
    assert Record(x.(clock := v.clock + 2), o, Fresh(w), "finalize", Some(Transition(to))).world
        == x.(clock := v.clock + 3);
  }

  // ---- A search answer without items ----

  type Results = seq<set<SpokeApp>>

  lemma {:induction false} ViewsHaveParameters(a: seq<Source>, b: seq<Source>)
    requires ViewSources(a) == ViewSources(b)
    ensures AllParameters(a) == AllParameters(b)
  {
    assert |a| == |ViewSources(a)| == |b|;
    if a != [] {
      assert ViewSources(a)[0] == ViewSources(b)[0];
      assert SourceParameters(a[0]) == SourceParameters(b[0]);
      assert ViewSources(a[1..]) == ViewSources(a)[1..] && ViewSources(b[1..]) == ViewSources(b)[1..];
      ViewsHaveParameters(a[1..], b[1..]);
    }
  }

  /** Specs that order different deletions never compare equal. */
  lemma RankTellsApart(a: AppSpec, b: AppSpec)
    requires CompareApplication(Some(a), Some(b))
    ensures DeleteRank(a) == DeleteRank(b)
  {
    CompareIsView(Some(a), Some(b));
    assert View(a) == View(b);
    if a.sources.Some? {
      ViewsHaveParameters(a.sources.value, b.sources.value);
    }
    if a.source.Some? {
      assert ViewSource(a.source.value) == ViewSource(b.source.value);
    }
    assert SpecParameters(a) == SpecParameters(b);
  }

  const CHILD := SpokeApp("spoke", "apps", "child")
  const GONE_PATTERN :=
    NEW_PATTERN.(name := "p", namespace := "n", prune := "true", finalizers := {PATTERN_FINALIZER}, deleting := true)
  const PARENT :=
    App(AppId("argo", "p-"), None, [], AppSpec("", "", "", None, None, None),
        Some(Operation(Some(Sync(false, [FORCE])))), false, 0)

  /** The hub is the pattern's, and one child Application is on a spoke. */
  const SCENE: WorldState :=
    World([GONE_PATTERN], false, "argo", [PARENT], 1, {CHILD}, [], Some("true"), 0, {}, {}, {}, {}, [])

  /** The turn at which the first search is answered. */
  const SEARCH := 19

  /** Nobody else acts, every request is served, and the first search is answered with these results. */
  function Hushed(f: Facts, rs: Results): Oracle {
    (n: nat) => Turn([], if n == SEARCH then Shown(rs) else Fine, 0, f)
  }

  function Parent(w: World): App
    requires |w.apps| == 1
  {
    w.apps[0]
  }

  /** The deletion has come to this phase at this turn; the child is still on its spoke. */
  ghost predicate Stage(w: World, f: Facts, phase: Phase, clock: nat) {
    && !w.gone && w.argoNamespace == "argo" && w.hub == Some("true") && w.spokes == {CHILD} && w.clusters == []
    && w.clock == clock && PhaseOf(w) == phase && SameButStatus(GONE_PATTERN, Current(w))
    && |w.apps| == 1 && Parent(w) == PARENT.(spec := Parent(w).spec, rv := Parent(w).rv)
    && (forall s :: Reappeared(s) !in w.departures)
  }

  /** What Argo is to be told in that phase. */
  function Want(f: Facts, phase: Phase): Target {
    TargetFor(GONE_PATTERN.(status := GONE_PATTERN.status.(phase := phase)), f, "argo")
  }

  lemma GoalIsWanted(w: World, f: Facts, phase: Phase, clock: nat)
    requires Stage(w, f, phase, clock)
    ensures TargetFor(Current(w), f, "argo") == Want(f, phase)
    ensures Want(f, phase).id == PARENT.id && Want(f, phase).owners == []
  {
    hide HelmOf, CommonApplicationSpec;
    TargetIgnoresReports(GONE_PATTERN.(status := GONE_PATTERN.status.(phase := phase)), Current(w), f, "argo");
  }

  lemma WantedRank(f: Facts, phase: Phase)
    requires phase.Known()
    ensures DeleteRank(Want(f, phase).spec) == phase.Rank() == DeleteRank(Stored(Want(f, phase).spec))
  {
    hide DeleteRank, NewTarget, Stored;
    var p := ApplyDefaults(GONE_PATTERN.(status := GONE_PATTERN.status.(phase := phase)), f);
    TargetDeleteRank(p, f, "argo");
    StoredDeleteRank(Want(f, phase).spec);
  }

  /** A call of this scene begins with its target and its only Application at hand. */
  lemma Begins(rs: Results, w: World, f: Facts, phase: Phase, clock: nat)
    requires Stage(w, f, phase, clock) && phase.Known() && (clock + 3 < SEARCH || clock > SEARCH)
    ensures Reconcile(w, Hushed(f, rs)).world
         == Ends(PhaseStep(Begun(w), Hushed(f, rs), Filled(w, f), Want(f, phase), Parent(w)), Hushed(f, rs), Fresh(w))
  {
    hide Want, TargetFor, PhaseStep, Reconcile, Ends, Filled;
    GoalIsWanted(w, f, phase, clock);
    assert Find(w.apps, PARENT.id) == Some(Parent(w));
    assert Goal(w, f) == Want(f, phase);
    CallBegins(w, Hushed(f, rs), f, Parent(w));
  }

  lemma PhaseRecorded(rs: Results, w: World, v: World, f: Facts, from: Phase, to: Phase, clock: nat)
    requires Stage(w, f, from, clock) && to != from
    requires v == w.(clock := v.clock, hubReads := v.hubReads, sealed := v.sealed, departures := v.departures)
    requires (forall s :: Reappeared(s) !in v.departures) && v.clock > clock
    requires v.clock + 2 < SEARCH || v.clock > SEARCH
    ensures var r := Ends(Advance(v, Hushed(f, rs), Filled(w, f), to), Hushed(f, rs), Fresh(w));
            && Stage(r, f, to, v.clock + 3)
            && r.apps == w.apps && r.versions == w.versions + [Current(r)]
            && r.departures == v.departures && r.sealed == v.sealed
  {
    hide Ends, Advance, Filled;
    PhaseLands(w, v, Hushed(f, rs), f, to);
  }

  /** A call that moves no phase records its step on the current version. */
  lemma StepRecorded(rs: Results, w: World, v: World, f: Facts, phase: Phase, clock: nat, err: Error)
    requires Stage(w, f, phase, clock) && v.clock > clock && v.clock != SEARCH
    requires v.versions == w.versions && !v.gone && v.spokes == w.spokes && v.clusters == w.clusters && v.hub == w.hub
    requires v.argoNamespace == w.argoNamespace && v.departures == w.departures
    requires |v.apps| == 1 && Parent(v) == PARENT.(spec := Parent(v).spec, rv := Parent(v).rv)
    ensures var r := Ends(Step(v, Some(err)), Hushed(f, rs), Fresh(w));
            && Stage(r, f, phase, v.clock + 1)
            && r.apps == v.apps && Grows(w, r, phase) && r.departures == w.departures && r.sealed == v.sealed
  {
    var o := Hushed(f, rs);
    var p := Current(w).(status := Current(w).status.(lastStep := "finalize", lastError := Some(err)));
    var c := Fresh(w).(obj := p);
    var x := v.(clock := v.clock + 1);
    assert WriteStatus(v, o, c).world == Append(x, p);
  }

  /** Versions of the same phase were added. */
  ghost predicate Grows(w: World, r: World, phase: Phase) {
    && w.versions <= r.versions
    && forall i :: |w.versions| <= i < |r.versions| ==> r.versions[i].status.phase == phase
  }

  /** Call 1: the hub is the pattern's, so the spokes come first. */
  lemma FirstCall(rs: Results, w: World, f: Facts)
    requires Stage(w, f, InitializeDeletion, 0)
    ensures var r := Reconcile(w, Hushed(f, rs)).world;
            && Stage(r, f, DeleteSpokeChildApps, 8) && r.apps == w.apps && r.versions == w.versions + [Current(r)]
            && r.sealed == w.sealed && r.departures == w.departures
  {
    hide Want, Filled, Advance, Reconcile, Ends;
    Begins(rs, w, f, InitializeDeletion, 0);
    FilledIs(w, f);
    var v := Begun(w).(clock := 5, hubReads := w.hubReads + {true});
    assert HaveHub(Begun(w), Hushed(f, rs)) == Step(v, true);
    PhaseRecorded(rs, w, v, f, InitializeDeletion, DeleteSpokeChildApps, 0);
  }

  /** The store after the target has been written over the parent. */
  function Retold(w: World, t: Target): World
    requires |w.apps| == 1
  {
    WithApp(Begun(w), Parent(w).(spec := Stored(t.spec)))
      .(clock := w.clock + 5, log := w.log + [TargetWritten(Parent(w).id)])
  }

  lemma TargetIsWritten(rs: Results, w: World, f: Facts, phase: Phase, clock: nat)
    requires Stage(w, f, phase, clock) && phase.Known() && clock + 4 != SEARCH
    requires DeleteRank(Parent(w).spec) != phase.Rank()
    ensures UpdateApplication(Begun(w), Hushed(f, rs), Want(f, phase), Parent(w))
        == Step(Retold(w, Want(f, phase)), Written)
  {
    hide Want, CompareApplication, Stored, DeleteRank;
    var t, a := Want(f, phase), Parent(w);
    WantedRank(f, phase);
    if CompareApplication(Some(a.spec), Some(t.spec)) {
      RankTellsApart(a.spec, t.spec);
      assert false;
    }
    assert UpdateApp(Begun(w), Hushed(f, rs), a.(spec := t.spec), TargetWritten(a.id)) == Step(Retold(w, t), true);
  }

  /** A call in a spoke phase whose target is not in place yet: it is written. */
  lemma TargetCall(rs: Results, w: World, f: Facts, phase: Phase, clock: nat)
    requires Stage(w, f, phase, clock) && (phase.DeleteSpokeChildApps? || phase.DeleteSpoke?)
    requires clock + 5 < SEARCH || clock > SEARCH
    requires DeleteRank(Parent(w).spec) != phase.Rank()
    ensures var r := Reconcile(w, Hushed(f, rs)).world;
            && Stage(r, f, phase, clock + 6)
            && Parent(r).spec == Stored(Want(f, phase).spec)
            && Grows(w, r, phase) && r.departures == w.departures && r.sealed == w.sealed
  {
    hide Want, Filled, Reconcile, UpdateApplication, Stored, DeleteRank, Advance, Ends;
    Begins(rs, w, f, phase, clock);
    FilledIs(w, f);
    TargetIsWritten(rs, w, f, phase, clock);
    StepRecorded(rs, w, Retold(w, Want(f, phase)), f, phase, clock, TargetUpdated);
  }

  /** The store after a listing without children. */
  function Listed(w: World): World {
    w.(clock := w.clock + 5, sealed := w.sealed + {Seal(HubChildren(PARENT.id.name), w.clock + 4)})
  }

  lemma NoneIsListed(rs: Results, w: World, f: Facts, phase: Phase, clock: nat)
    requires Stage(w, f, phase, clock) && clock + 4 != SEARCH
    ensures ListChildren(Begun(w), Hushed(f, rs), PARENT.id.name) == Step(Listed(w), Some([]))
  {
    assert w.apps == [Parent(w)];
    assert Children(w.apps[1..], PARENT.id.name) == [];
    assert Children(w.apps, PARENT.id.name) == [];
    assert Before(Begun(w), Hushed(f, rs)) == w.(clock := w.clock + 5);
  }

  /** The gate of a spoke phase with its target in place: a listing without children and a search. */
  function Searched(w: World, kind: Kind, blank: bool): World {
    var seal := Seal(kind, w.clock + 5);
    var v := Listed(w);
    v.(clock := w.clock + 6, sealed := v.sealed + {seal},
       departures := w.departures + if blank then {Uncounted(seal)} else {})
  }

  lemma GateOpens(rs: Results, w: World, f: Facts, phase: Phase, clock: nat)
    requires Itemless(rs)
    requires Stage(w, f, phase, clock) && Parent(w).spec == Stored(Want(f, phase).spec)
    requires (phase.DeleteSpokeChildApps? && clock + 5 == SEARCH) || (phase.DeleteSpoke? && clock > SEARCH)
    ensures var o, t, a := Hushed(f, rs), Want(f, phase), Parent(w);
            if phase.DeleteSpoke? then SpokeGate(Begun(w), o, t, a) == Step(Searched(w, SpokeParents, false), None)
            else SpokeChildGate(Begun(w), o, t, a) == Step(Searched(w, SpokeChildren, true), None)
  {
    hide Want, CompareApplication, Stored;
    var o, t, a := Hushed(f, rs), Want(f, phase), Parent(w);
    WantSettles(f, phase);
    var listed := Listed(w);
    NoneIsListed(rs, w, f, phase, clock);
    assert SyncParentAndChildren(Begun(w), o, t, a, phase.DeleteSpoke?) == Step(listed, None) by {
      hide ListChildren;
    }
    if phase.DeleteSpoke? {
      assert SpokesOf(listed, SpokeParents) == {};
      assert listed.departures + {} == listed.departures;
    } else {
      assert CHILD in SpokesOf(listed, SpokeChildren);
    }
  }

  lemma WantSettles(f: Facts, phase: Phase)
    ensures CompareApplication(Some(Stored(Want(f, phase).spec)), Some(Want(f, phase).spec))
  {
    hide NewTarget, CompareApplication, Stored;
    TargetSettles(ApplyDefaults(GONE_PATTERN.(status := GONE_PATTERN.status.(phase := phase)), f), f, "argo");
  }

  /** A call in a spoke phase with its target in place: the gate opens, with the child still there. */
  lemma GateCall(rs: Results, w: World, f: Facts, phase: Phase, clock: nat)
    requires Itemless(rs)
    requires Stage(w, f, phase, clock) && Parent(w).spec == Stored(Want(f, phase).spec)
    requires (phase.DeleteSpokeChildApps? && clock + 5 == SEARCH) || (phase.DeleteSpoke? && clock > SEARCH)
    ensures var r := Reconcile(w, Hushed(f, rs)).world;
            var next := if phase.DeleteSpoke? then DeleteHubChildApps else DeleteSpoke;
            && Stage(r, f, next, clock + 9) && r.apps == w.apps && r.versions == w.versions + [Current(r)]
  {
    hide Want, Filled, Reconcile, SpokeGate, SpokeChildGate, Stored, Advance, Ends;
    Begins(rs, w, f, phase, clock);
    FilledIs(w, f);
    GateOpens(rs, w, f, phase, clock);
    var next := if phase.DeleteSpoke? then DeleteHubChildApps else DeleteSpoke;
    var kind := if phase.DeleteSpoke? then SpokeParents else SpokeChildren;
    PhaseRecorded(rs, w, Searched(w, kind, !phase.DeleteSpoke?), f, phase, next, clock);
  }

  /** The hub gate opens at once, there being no hub children. */
  lemma HubCall(rs: Results, w: World, f: Facts, clock: nat)
    requires Stage(w, f, DeleteHubChildApps, clock) && clock > SEARCH
    ensures var r := Reconcile(w, Hushed(f, rs)).world;
            Stage(r, f, DeleteHub, clock + 8) && r.apps == w.apps && r.versions == w.versions + [Current(r)]
  {
    hide Want, Filled, Reconcile, Advance, Ends, ListChildren, ClusterGate;
    var o, t, a := Hushed(f, rs), Want(f, DeleteHubChildApps), Parent(w);
    Begins(rs, w, f, DeleteHubChildApps, clock);
    FilledIs(w, f);
    NoneIsListed(rs, w, f, DeleteHubChildApps, clock);
    assert HubGate(Begun(w), o, t, a) == Step(Listed(w), None);
    PhaseRecorded(rs, w, Listed(w), f, DeleteHubChildApps, DeleteHub, clock);
  }

  /** The parent's delete is accepted, and the census finds the child. */
  lemma LastCall(rs: Results, w: World, f: Facts, clock: nat) returns (e: Event)
    requires Stage(w, f, DeleteHub, clock) && clock > SEARCH && Visited(w, DeleteSpokeChildApps)
    ensures var r := Reconcile(w, Hushed(f, rs)).world;
            && e in r.log && e.AppDeleted? && e.census.viaSpokes && CHILD in e.census.spokeChildren
            && (forall s :: Reappeared(s) !in r.departures)
  {
    hide Want, Filled, Reconcile, WriteObject;
    var o, t, a := Hushed(f, rs), Want(f, DeleteHub), Parent(w);
    Begins(rs, w, f, DeleteHub, clock);
    FilledIs(w, f);
    var x := w.(clock := clock + 5);
    e := AppDeleted(CensusOf(x, a.id.name));
    var d := WithApp(x, a.(terminating := true)).(log := w.log + [e]);
    assert DeleteApp(Begun(w), o, a.id) == Step(d, true);
    assert e in d.log;
    assert CHILD in SpokesOf(x, SpokeChildren);
    ObjectWriteExactly(d, o,
        Fresh(w).(obj := Fresh(w).obj.(finalizers := Fresh(w).obj.finalizers - {PATTERN_FINALIZER})));
    assert Before(d, o) == d.(clock := clock + 6);
  }

  /**
   A run in which nobody but the operator acts, no request fails, and one search answer has no result,
   or none in its first result: the parent is deleted while the child is on its spoke, and nothing
   ever reappeared.
   */
  lemma ItemlessAnswerBetrays(rs: Results, f: Facts) returns (e: Event)
    requires Itemless(rs)
    ensures Guarantees.Start(SCENE) && forall n :: Hushed(f, rs)(n).outside == []
    ensures var v := Run(SCENE, Hushed(f, rs), 7);
            && e in v.log && e.AppDeleted? && e.census.viaSpokes && e.census.spokeChildren != {}
            && (forall s :: Reappeared(s) !in v.departures)
  {
    hide Reconcile, Want, Stored, DeleteRank, Stage;
    var o := Hushed(f, rs);
    SceneStarts(f);
    var w1 := Reconcile(SCENE, o).world;
    FirstCall(rs, SCENE, f);
    BareRank();
    var w2 := Reconcile(w1, o).world;
    TargetCall(rs, w1, f, DeleteSpokeChildApps, 8);
    var w3 := Reconcile(w2, o).world;
    GateCall(rs, w2, f, DeleteSpokeChildApps, 14);
    WantedRank(f, DeleteSpokeChildApps);
    var w4 := Reconcile(w3, o).world;
    TargetCall(rs, w3, f, DeleteSpoke, 23);
    var w5 := Reconcile(w4, o).world;
    GateCall(rs, w4, f, DeleteSpoke, 29);
    var w6 := Reconcile(w5, o).world;
    HubCall(rs, w5, f, 38);
    assert Visited(w6, DeleteSpokeChildApps) by {
      assert w1.versions[1] == Current(w1);
      assert w1.versions <= w2.versions <= w3.versions <= w4.versions <= w5.versions <= w6.versions;
      PhaseAt(w1, f, DeleteSpokeChildApps, 8);
      assert w6.versions[1].status.phase == DeleteSpokeChildApps;
    }
    e := LastCall(rs, w6, f, 46);
    SevenCalls(SCENE, o);
  }

  lemma PhaseAt(w: World, f: Facts, phase: Phase, clock: nat)
    requires Stage(w, f, phase, clock)
    ensures PhaseOf(w) == phase
  {
  }

  lemma BareRank()
    ensures DeleteRank(PARENT.spec) == 0
  {
  }

  lemma SceneStarts(f: Facts)
    ensures Guarantees.Start(SCENE) && Stage(SCENE, f, InitializeDeletion, 0)
  {
    hide DeleteRank;
    BareRank();
  }

  lemma SevenCalls(w: World, o: Oracle)
    ensures var c := (x: World) => Reconcile(x, o).world;
            Run(w, o, 7) == c(c(c(c(c(c(c(w)))))))
  {
    hide Reconcile;
    Guarantees.RunOneMore(w, o, 0);
    Guarantees.RunOneMore(w, o, 1);
    Guarantees.RunOneMore(w, o, 2);
    Guarantees.RunOneMore(w, o, 3);
    Guarantees.RunOneMore(w, o, 4);
    Guarantees.RunOneMore(w, o, 5);
    Guarantees.RunOneMore(w, o, 6);
  }

  // ---- Another cluster group in the last phase ----

  const BARE := AppSpec("", "", "", None, None, None)
  const FIRST := App(AppId("argo", "p-a"), None, [], BARE, None, false, 0)
  const SECOND := App(AppId("argo", "p-b"), None, [], BARE, None, false, 0)
  const ORPHAN :=
    App(AppId("apps", "c"), Some("p-b" + ":argoproj.io/Application:" + "apps/c"), [], BARE, None, false, 0)
  const GROUP_A := GONE_PATTERN.(spec := NO_SPEC.(clusterGroup := "a"))
  const GROUP_B := GONE_PATTERN.(spec := NO_SPEC.(clusterGroup := "b"))

  /** Two Applications the pattern may stand for; the second has a child. There is no hub. */
  const CROSSROADS: WorldState :=
    World([GROUP_A], false, "argo", [FIRST, SECOND, ORPHAN], 1, {}, [], None, 0, {}, {}, {}, {}, [])

  const EDIT := 16

  /** Every request is answered, and at one turn someone changes the cluster group. */
  function Regrouping(f: Facts): Oracle {
    (n: nat) => Turn(if n == EDIT then [EditPattern(GROUP_B)] else [], Fine, 0, f)
  }

  ghost predicate AtCrossroads(w: World, p: Pattern, phase: Phase, clock: nat) {
    && !w.gone && w.argoNamespace == "argo" && w.hub.None? && w.spokes == {} && w.apps == [FIRST, SECOND, ORPHAN]
    && w.clock == clock && PhaseOf(w) == phase && SameButStatus(p, Current(w)) && w.departures <= {Regrouped}
  }

  lemma GroupsArePruned()
    ensures Prunes(GROUP_A) && Prunes(GROUP_B)
  {
  }

  lemma FoundByName(w: World)
    requires w.apps == [FIRST, SECOND, ORPHAN]
    ensures Find(w.apps, FIRST.id) == Some(FIRST) && Find(w.apps, SECOND.id) == Some(SECOND)
  {
    assert FIRST.id.name[2] != SECOND.id.name[2];
    assert w.apps[1..] == [SECOND, ORPHAN];
  }

  lemma NamesAre(w: World, f: Facts, second: bool, phase: Phase, clock: nat)
    requires AtCrossroads(w, if second then GROUP_B else GROUP_A, phase, clock)
    ensures var a := if second then SECOND else FIRST;
            Ready(w, f, a) && Goal(w, f).id == a.id && Goal(w, f).owners == []
  {
    hide CommonApplicationSpec, HelmOf, Prunes, Find;
    GroupsArePruned();
    FoundByName(w);
    assert Prunes(Current(w)) by {
      PrunesIgnoresStatus(if second then GROUP_B else GROUP_A, Current(w));
    }
    assert "p" + "-" + "a" == "p-a" && "p" + "-" + "b" == "p-b";
  }

  lemma PrunesIgnoresStatus(p: Pattern, q: Pattern)
    requires SameButStatus(p, q)
    ensures Prunes(p) <==> Prunes(q)
  {
  }

  /** Call 1: there is no hub. */
  lemma NoHubThere(f: Facts)
    ensures AtCrossroads(Reconcile(CROSSROADS, Regrouping(f)).world, GROUP_A, DeleteHubChildApps, 8)
  {
    hide Reconcile, Ends, Advance, Filled, Goal, Ready;
    var o := Regrouping(f);
    var w := CROSSROADS;
    NamesAre(w, f, false, InitializeDeletion, 0);
    CallBegins(w, o, f, FIRST);
    FilledIs(w, f);
    var h := Begun(w).(clock := 5, hubReads := {false});
    assert HaveHub(Begun(w), o) == Step(h, false);
    PhaseLands(w, h, o, f, DeleteHubChildApps);
  }

  /** Call 2: no child of the first Application is listed. */
  lemma FirstHasNone(w: World, f: Facts)
    requires AtCrossroads(w, GROUP_A, DeleteHubChildApps, 8)
    ensures AtCrossroads(Reconcile(w, Regrouping(f)).world, GROUP_A, DeleteHub, 16)
  {
    hide Reconcile, Ends, Advance, Filled, Goal, Ready, ClusterGate, AskHubDeletion, Children, ListChildren;
    var o := Regrouping(f);
    NamesAre(w, f, false, DeleteHubChildApps, 8);
    CallBegins(w, o, f, FIRST);
    FilledIs(w, f);
    var l := Begun(w).(clock := 13, sealed := w.sealed + {Seal(HubChildren("p-a"), 12)});
    FirstListing(w, f);
    PhaseLands(w, l, o, f, DeleteHub);
  }

  lemma FirstListing(w: World, f: Facts)
    requires AtCrossroads(w, GROUP_A, DeleteHubChildApps, 8)
    ensures ListChildren(Begun(w), Regrouping(f), "p-a")
         == Step(Begun(w).(clock := 13, sealed := w.sealed + {Seal(HubChildren("p-a"), 12)}), Some([]))
  {
    hide Children;
    NoneOfTheFirst();
  }

  lemma TracksSecondOnly()
    ensures TracksChild(ORPHAN, "p-b") && !TracksChild(ORPHAN, "p-a")
  {
    assert ("p-a" + ":argoproj.io/Application:")[2] == 'a' && ORPHAN.tracking.value[2] == 'b';
  }

  lemma NoneOfTheFirst()
    ensures Children([FIRST, SECOND, ORPHAN], "p-a") == []
    ensures Children([FIRST, SECOND, ORPHAN], "p-b") == [ORPHAN]
  {
    hide TracksChild;
    TracksSecondOnly();
    Untracked(FIRST, "p-a");
    Untracked(FIRST, "p-b");
    Untracked(SECOND, "p-a");
    Untracked(SECOND, "p-b");
    var apps := [FIRST, SECOND, ORPHAN];
    assert apps[1..] == [SECOND, ORPHAN] && apps[1..][1..] == [ORPHAN] && apps[1..][1..][1..] == [];
    forall parent | parent == "p-a" || parent == "p-b"
      ensures Children(apps, parent) == if parent == "p-b" then [ORPHAN] else []
    {
      assert Children([ORPHAN], parent) == if parent == "p-b" then [ORPHAN] else [];
      assert Children([SECOND, ORPHAN], parent) == Children([ORPHAN], parent);
    }
  }

  lemma Untracked(a: App, parent: string)
    requires a.tracking.None?
    ensures !TracksChild(a, parent)
  {
  }

  lemma DeleteOfSecond(x: World, o: Oracle, f: Facts) returns (e: Event)
    requires AtCrossroads(x, GROUP_B, DeleteHub, x.clock) && x.departures == {Regrouped} && Quiet(o, f, x.clock, 2)
    ensures var v := Ends(PhaseStep(x, o, Filled(x, f), Goal(x, f), SECOND), o, Fresh(x));
            && e in v.log && e.AppDeleted? && e.census.parent == "p-b" && e.census.hubChildren == [ORPHAN]
            && v.departures == {Regrouped}
  {
    hide Filled, Goal, Children, WriteObject;
    FilledIs(x, f);
    FoundByName(x);
    NoneOfTheFirst();
    var y := x.(clock := x.clock + 1);
    e := AppDeleted(CensusOf(y, "p-b"));
    var d := WithApp(y, SECOND.(terminating := true)).(log := y.log + [e]);
    assert DeleteApp(x, o, SECOND.id) == Step(d, true);
    assert e in d.log;
    ObjectWriteExactly(d, o,
        Fresh(x).(obj := Fresh(x).obj.(finalizers := Fresh(x).obj.finalizers - {PATTERN_FINALIZER})));
    assert Before(d, o) == d.(clock := x.clock + 2);
  }

  /** Call 3: the parent deleted is the second Application, and its child is there. */
  lemma SecondIsDeleted(w: World, f: Facts) returns (e: Event)
    requires AtCrossroads(w, GROUP_A, DeleteHub, EDIT)
    ensures var v := Reconcile(w, Regrouping(f)).world;
            && e in v.log && e.AppDeleted? && e.census.parent == "p-b" && e.census.hubChildren == [ORPHAN]
            && v.departures == {Regrouped}
  {
    hide Reconcile, Goal, Ready, Filled, PhaseStep, Ends;
    var o := Regrouping(f);
    var x := Before(w, o);
    EditRegroups(w, f);
    NamesAre(x, f, true, DeleteHub, EDIT + 1);
    CallAfterRead(w, o, f, SECOND);
    var y := x.(clock := x.clock + 3);
    SameGoal(x, y, f);
    e := DeleteOfSecond(y, o, f);
  }

  lemma SameGoal(x: World, y: World, f: Facts)
    requires y == x.(clock := y.clock)
    ensures Goal(y, f) == Goal(x, f) && Filled(y, f) == Filled(x, f)
  {
    hide TargetFor, Qualified;
  }

  /**
   A run of three calls in which every request is answered and nobody recreates anything: the cluster
   group is changed after the gate of the last phase opened, and the parent that is deleted has its
   child.
   */
  lemma RegroupingLeavesChildren(f: Facts) returns (e: Event)
    ensures Guarantees.Start(CROSSROADS)
    ensures var v := Run(CROSSROADS, Regrouping(f), 3);
            && e in v.log && e.AppDeleted? && e.census.hubChildren == [ORPHAN]
            && v.departures == {Regrouped}
  {
    hide Reconcile, DeleteRank;
    var o := Regrouping(f);
    BareRank();
    NoHubThere(f);
    FirstHasNone(Reconcile(CROSSROADS, o).world, f);
    e := SecondIsDeleted(Reconcile(Reconcile(CROSSROADS, o).world, o).world, f);
    Guarantees.RunOneMore(CROSSROADS, o, 0);
    Guarantees.RunOneMore(CROSSROADS, o, 1);
    Guarantees.RunOneMore(CROSSROADS, o, 2);
  }

  lemma EditRegroups(w: World, f: Facts)
    requires AtCrossroads(w, GROUP_A, DeleteHub, EDIT)
    ensures var x := Before(w, Regrouping(f));
            AtCrossroads(x, GROUP_B, DeleteHub, EDIT + 1) && x.departures == {Regrouped} && x.log == w.log
  {
    var p := Edited(Current(w), GROUP_B);
    assert Group(p) == "b" && Group(Current(w)) == "a";
    assert AppName(p)[2] == 'b' && AppName(Current(w))[2] == 'a';
    assert !Unguards(Current(w), p) && Regroups(w, p);
    var o := Regrouping(f);
    assert HappenAll(w, o(EDIT).outside) == Happens(w, EditPattern(GROUP_B)) by {
      assert o(EDIT).outside[1..] == [];
    }
    assert w.departures + {} + {Regrouped} == {Regrouped};
  }
}

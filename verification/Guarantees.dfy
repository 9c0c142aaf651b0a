/**
 What the deletion protocol guarantees over all runs: every interleaving with others, every stale
 read, every failing request. A call cut short by a crash is a call whose remaining requests are
 all refused, so these statements also hold of the states in the middle of a call.
 */
module Guarantees {
  import opened Wrappers
  import opened Patterns
  import opened Applications
  import opened Targets
  import opened Cluster
  import opened StoreFacts
  import opened Protocol
  import opened Safety
  import opened Runs

  /** A pattern nobody has begun to delete; whatever else is in the cluster. */
  ghost predicate Start(w: World) {
    && |w.versions| == 1 && PhaseOf(w) == InitializeDeletion
    && StoreOk(w) && Normal(w)
    && w.hubReads == {} && w.sealed == {} && w.departures == {} && w.edited == {} && w.log == []
    && !AheadOfPhase(w)
  }

  lemma StartHoldsInvariant(w: World)
    requires Start(w)
    ensures Inv(w)
  {
    hide DeleteRank, Find, Children, CensusSafe, StoreOk, Normal;
  }

  /** The recorded phase never moves back, in any run. */
  lemma PhaseNeverMovesBack(w: World, o: Oracle, calls: nat, i: nat, j: nat)
    requires Start(w) && i <= j < |Run(w, o, calls).versions|
    ensures var h := Run(w, o, calls).versions;
            h[i].status.phase.Rank() <= h[j].status.phase.Rank()
  {
    hide Run;
    StartHoldsInvariant(w);
    RunKeepsInvariant(w, o, calls);
    HistoryIsMonotone(Run(w, o, calls).versions, i, j);
  }

  // ---- The order of phases ----

  const VIA_SPOKES := [InitializeDeletion, DeleteSpokeChildApps, DeleteSpoke, DeleteHubChildApps, DeleteHub]
  const HUB_ONLY := [InitializeDeletion, DeleteHubChildApps, DeleteHub]

  /** The recorded phases of a history, repetitions left out. */
  function Phases(h: seq<Pattern>): seq<Phase> {
    if h == [] then []
    else
      var last := h[|h| - 1].status.phase;
      if |h| > 1 && h[|h| - 2].status.phase == last then Phases(h[..|h| - 1]) else Phases(h[..|h| - 1]) + [last]
  }

  lemma {:induction false} PhasesEndCurrent(h: seq<Pattern>)
    requires h != []
    ensures Phases(h) != [] && Phases(h)[|Phases(h)| - 1] == h[|h| - 1].status.phase
    ensures |Phases(h)| == Crossings(h) + 1
  {
    if |h| > 1 {
      PhasesEndCurrent(h[..|h| - 1]);
    } else {
      assert Phases(h[..0]) == [];
    }
  }

  lemma {:induction false} PhasesFollowOnePath(h: seq<Pattern>)
    requires EdgeHistory(h)
    ensures Phases(h) <= VIA_SPOKES || Phases(h) <= HUB_ONLY
  {
    var init := h[..|h| - 1];
    if init == [] {
      assert Phases(h) == [InitializeDeletion];
    } else {
      assert EdgeHistory(init);
      PhasesFollowOnePath(init);
      PhasesEndCurrent(init);
      assert Edge(h[|h| - 2].status.phase, h[|h| - 1].status.phase);
      if h[|h| - 2].status.phase != h[|h| - 1].status.phase {
        ExtendsPath(Phases(init), h[|h| - 1].status.phase);
      }
    }
  }

  lemma ExtendsPath(path: seq<Phase>, next: Phase)
    requires path <= VIA_SPOKES || path <= HUB_ONLY
    requires path != [] && Edge(path[|path| - 1], next) && path[|path| - 1] != next
    ensures path + [next] <= VIA_SPOKES || path + [next] <= HUB_ONLY
  {
    if path <= VIA_SPOKES {
      assert path[|path| - 1] == VIA_SPOKES[|path| - 1];
      if |path| == 1 {
        assert next == VIA_SPOKES[1] || next == HUB_ONLY[1];
      } else {
        assert next == VIA_SPOKES[|path|];
      }
    } else {
      assert path[|path| - 1] == HUB_ONLY[|path| - 1];
      assert |path| > 1 ==> next == HUB_ONLY[|path|];
    }
  }

  /** The phases of a run are a beginning of one of two sequences; one call crosses one edge at most. */
  lemma RunFollowsOnePath(w: World, o: Oracle, calls: nat)
    requires Start(w)
    ensures var v := Run(w, o, calls);
            && (Phases(v.versions) <= VIA_SPOKES || Phases(v.versions) <= HUB_ONLY)
            && |Phases(Reconcile(v, o).world.versions)| <= |Phases(v.versions)| + 1
  {
    hide Run, Reconcile, Snapshot;
    var v := Run(w, o, calls);
    StartHoldsInvariant(w);
    RunKeepsInvariant(w, o, calls);
    PhasesFollowOnePath(v.versions);
    ReconcileAdvances(v, o);
    PhasesEndCurrent(v.versions);
    PhasesEndCurrent(Reconcile(v, o).world.versions);
  }

  /**
   Which of the two sequences it is, the hub decides: a run goes through the spokes only after the
   hub was found to be the pattern's, and leaves them out only after it was not.
   */
  lemma HubDecidesThePath(w: World, o: Oracle, calls: nat)
    requires Start(w)
    ensures var v := Run(w, o, calls);
            && (Visited(v, DeleteSpokeChildApps) ==> true in v.hubReads)
            && (PhaseOf(v).Rank() >= 3 && !Visited(v, DeleteSpokeChildApps) ==> false in v.hubReads)
  {
    hide Run, Snapshot, CensusSafe, StoreOk, EdgeHistory, HubSealed;
    StartHoldsInvariant(w);
    RunKeepsInvariant(w, o, calls);
  }

  // ---- What exists when the parent is deleted ----

  /**
   Whenever the parent Application's delete is accepted, the phase is DeleteHub and its hub children
   are gone; on the path through the spokes so are the spokes' Applications, children and parents.
   The only excuse is that every report that they were gone, the one that opened the gate included,
   was belied: they came back after it or, on the spokes, its answer had not counted them. For hub
   children there is one more: in that phase others made the Pattern stand for another Application.
   */
  lemma ParentIsDeletedLast(w: World, o: Oracle, calls: nat, e: Event)
    requires Start(w) && e in Run(w, o, calls).log && e.AppDeleted?
    ensures var c := e.census;
            && c.phase == DeleteHub
            && (c.hubChildren != [] ==> Belied(c, HubChildren(c.parent)) || Regrouped in c.departures)
            && (c.viaSpokes && c.spokeChildren != {} ==> Belied(c, SpokeChildren))
            && (c.viaSpokes && c.spokeParents != {} ==> Belied(c, SpokeParents))
  {
    hide Run, Belied;
    StartHoldsInvariant(w);
    RunKeepsInvariant(w, o, calls);
  }

  /** The check never answers "not gone" without an error, which is why ignoring its boolean is harmless. */
  lemma SpokesGoneIsItsError(answer: Search)
    ensures SpokesGone(answer).0 <==> SpokesGone(answer).1.None?
    ensures SpokesGone(answer).0 <==> answer.Parsed? && Itemless(answer.results)
    ensures SpokesGone(answer).1.Some? ==>
      SpokesGone(answer).1.value == if answer.Parsed? then SpokeAppsRemain(answer.results[0]) else SearchFailed
  {
  }

  /**
   Exactly when the check reports gone what is there: when the first result of the answer has no
   items, or there is no result; what later results say is not looked at. Nothing changes on the
   spokes, every report is recorded, and such a one as not counting.
   */
  lemma OnlyItemlessAnswersHide(w: World, o: Oracle, kind: Kind)
    ensures var w1, q, seal := Before(w, o), QuerySpokes(w, o, kind), Seal(kind, w.clock);
            var there, gone := SpokesOf(w1, kind) != {}, SpokesGone(q.out).0;
            && (gone && there <==> there && Answer(w, o).Shown? && Itemless(Answer(w, o).results))
            && q.world == w1.(sealed := w1.sealed + (if gone then {seal} else {}),
                              departures := w1.departures + (if gone && there then {Uncounted(seal)} else {}))
  {
    hide HappenAll, SpokesGone;
    var w1, q := Before(w, o), QuerySpokes(w, o, kind);
    SpokesGoneIsItsError(q.out);
    assert w1.sealed + {} == w1.sealed && w1.departures + {} == w1.departures;
  }

  // ---- What Argo is told ----

  /**
   No Application ever orders the deletion of more than the recorded phase, if no Pattern that was
   not being deleted had an extra parameter that orders a deletion by itself.
   */
  lemma ArgoIsNeverAhead(w: World, o: Oracle, calls: nat, a: App)
    requires Start(w) && a in Run(w, o, calls).apps
    requires Clean(Run(w, o, calls)) && Forged !in Run(w, o, calls).departures
    ensures DeleteRank(a.spec) <= PhaseOf(Run(w, o, calls)).Rank()
  {
    hide Run, DeleteRank, Snapshot, CensusSafe, StoreOk, Normal, EdgeHistory, PathSealed, Clean;
    StartHoldsInvariant(w);
    RunKeepsInvariant(w, o, calls);
    var v := Run(w, o, calls);
    assert !AheadOfPhase(v);
  }

  // ---- The version check ----

  /** A phase write that got through was over the version read, and left that version behind. */
  lemma AdvanceLeavesCopyBehind(w: World, o: Oracle, c: Copy, to: Phase, reached: Phase)
    requires Inv(w) && Faithful(w, c) && c.obj.status.phase != to
    requires Advance(w, o, c, to).out == Some(Transition(reached))
    ensures reached == to && c.rv < Top(Advance(w, o, c, to).world)
  {
    hide Inv, Snapshot, HappenAll;
    var q := c.(obj := c.obj.(status := c.obj.status.(phase := to)));
    BeforeKeeps(w, o);
    CopiesStay(w, Before(w, o), c);
    assert Accepts(Before(w, o), q);
    GrowsThroughRead(WriteStatus(w, o, q).world, o);
  }

  lemma GrowsThroughRead(w: World, o: Oracle)
    ensures Top(w) <= Top(ReadPattern(w, o).world)
  {
    hide Happens;
    HistoryGrows(w, o(w.clock).outside);
  }

  lemma {:induction false} HistoryGrows(w: World, es: seq<Outside>)
    ensures w.versions <= HappenAll(w, es).versions
    decreases |es|
  {
    if es != [] {
      HistoryGrows(Happens(w, es[0]), es[1..]);
    }
  }

  lemma {:induction false} SyncAllReportsSyncs(w: World, o: Oracle, apps: seq<App>, prune: bool)
    ensures SyncAll(w, o, apps, prune).out.Some? ==> SyncAll(w, o, apps, prune).out.value.SyncFailed?
    decreases |apps|
  {
    hide SyncApplication;
    if apps != [] {
      SyncAllReportsSyncs(SyncApplication(w, o, apps[0], prune).world, o, apps[1..], prune);
    }
  }

  lemma GatesReportNoTransition(w: World, o: Oracle, t: Target, a: App)
    ensures SpokeChildGate(w, o, t, a).out.Some? ==> !SpokeChildGate(w, o, t, a).out.value.Transition?
    ensures SpokeGate(w, o, t, a).out.Some? ==> !SpokeGate(w, o, t, a).out.value.Transition?
    ensures HubGate(w, o, t, a).out.Some? ==> !HubGate(w, o, t, a).out.value.Transition?
  {
    hide UpdateApplication, SyncApplication, ListChildren, QuerySpokes, SyncAll, HaveHub, ListClusters,
         DeleteManagedClusters;
    var s := SyncApplication(UpdateApplication(w, o, t, a).world, o, a, false);
    var l := ListChildren(s.world, o, a.id.name);
    if l.out.Some? {
      SyncAllReportsSyncs(l.world, o, l.out.value, false);
      SyncAllReportsSyncs(l.world, o, l.out.value, true);
    }
  }

  /**
   After a transition the caller still records its error on the copy it read, which carries an
   earlier phase. The write is refused, whatever else happens: the phase is not taken back.
   */
  lemma FollowUpIsRefused(w: World, o: Oracle, c: Copy, to: Phase, step: string, err: Option<Error>)
    requires Inv(w) && Faithful(w, c) && Finalize(w, o, c).out == Some(Transition(to))
    ensures c.obj.status.phase.Rank() < to.Rank()
    ensures var f := Finalize(w, o, c).world;
            Record(f, o, c, step, err) == Step(Before(f, o), Backoff)
  {
    hide Inv, Snapshot, Defaults, GetApp, PhaseStep, NewTarget, ApplyDefaults, OwnedBySame, HappenAll, Modest;
    var d := Defaults(w, o);
    DefaultsKeeps(w, o);
    var q := Qualified(c, d.out.value);
    var t := NewTarget(q.obj, d.out.value, w.argoNamespace);
    var g := GetApp(d.world, o, t.id);
    GetAppKeeps(d.world, o, t.id);
    CopiesStay(w, d.world, c);
    TargetIsModest(d.world, c, d.out.value);
    CopiesStay(d.world, g.world, q);
    ModestStays(d.world, g.world, t.spec);
    CopyBehind(w, c);
    TransitionLeavesCopyBehind(g.world, o, q, t, g.out.value, to);
    var f := Finalize(w, o, c).world;
    HistoryGrows(f, o(f.clock).outside);
  }

  lemma TransitionLeavesCopyBehind(w: World, o: Oracle, c: Copy, t: Target, a: App, to: Phase)
    requires Inv(w) && Faithful(w, c) && Snapshot(w, a) && Modest(w, t.spec)
    requires c.obj.status.phase.Known()
    requires PhaseStep(w, o, c, t, a).out == Some(Transition(to))
    ensures c.obj.status.phase.Rank() < to.Rank() && c.rv < Top(PhaseStep(w, o, c, t, a).world)
  {
    hide Inv, Snapshot, Modest, Advance, SpokeChildGate, SpokeGate, HubGate, DeleteApp, HaveHub;
    GatesReportNoTransition(w, o, t, a);
    match c.obj.status.phase {
      case InitializeDeletion =>
        var h := HaveHub(w, o);
        HubReadKeeps(w, o);
        CopiesStay(w, h.world, c);
        AdvanceLeavesCopyBehind(h.world, o, c, if h.out then DeleteSpokeChildApps else DeleteHubChildApps, to);
      case DeleteSpokeChildApps =>
        SpokeGatesKeep(w, o, t, a);
        CopiesStay(w, SpokeChildGate(w, o, t, a).world, c);
        AdvanceLeavesCopyBehind(SpokeChildGate(w, o, t, a).world, o, c, DeleteSpoke, to);
      case DeleteSpoke =>
        SpokeGatesKeep(w, o, t, a);
        CopiesStay(w, SpokeGate(w, o, t, a).world, c);
        AdvanceLeavesCopyBehind(SpokeGate(w, o, t, a).world, o, c, DeleteHubChildApps, to);
      case DeleteHubChildApps =>
        HubGateKeeps(w, o, t, a);
        CopiesStay(w, HubGate(w, o, t, a).world, c);
        AdvanceLeavesCopyBehind(HubGate(w, o, t, a).world, o, c, DeleteHub, to);
      case DeleteHub =>
    }
  }

  /** Every call of finalizeObject in a phase before the last one ends with an error. */
  lemma OnlyTheLastPhaseSucceeds(w: World, o: Oracle, c: Copy, t: Target, a: App)
    requires c.obj.status.phase.Known()
    ensures PhaseStep(w, o, c, t, a).out.None? <==> c.obj.status.phase.DeleteHub? && DeleteApp(w, o, a.id).out
  {
    hide WriteStatus, ReadPattern, SpokeChildGate, SpokeGate, HubGate, DeleteApp, HaveHub;
  }

  /**
   Exactly when finalizeObject lets the finalizer go. The Application is looked up by name, and any
   failure of the lookup counts as absence; a phase that is none of the five falls through.
   */
  lemma FinalizerReleasedExactly(w: World, o: Oracle, c: Copy)
    ensures Finalize(w, o, c).out.None? <==>
      || !EqualFoldTrue(c.obj.prune)
      || ("foregroundDeletePattern" !in c.obj.finalizers && "orphan" !in c.obj.finalizers)
      || Defaults(w, o).out.None?
      || var q := Qualified(c, Defaults(w, o).out.value);
         var t := NewTarget(q.obj, Defaults(w, o).out.value, w.argoNamespace);
         var g := GetApp(Defaults(w, o).world, o, t.id);
         || g.out.None?
         || !OwnedBySame(t.owners, g.out.value.owners)
         || c.obj.status.phase.Unrecognized?
         || (c.obj.status.phase.DeleteHub? && DeleteApp(g.world, o, g.out.value.id).out)
  {
    hide WriteStatus, ReadPattern, SpokeChildGate, SpokeGate, HubGate, DeleteApp, HaveHub, Defaults, GetApp,
         NewTarget, OwnedBySame;
    if Prunes(c.obj) && Defaults(w, o).out.Some? {
      var q := Qualified(c, Defaults(w, o).out.value);
      var t := NewTarget(q.obj, Defaults(w, o).out.value, w.argoNamespace);
      var g := GetApp(Defaults(w, o).world, o, t.id);
      if g.out.Some? && q.obj.status.phase.Known() {
        OnlyTheLastPhaseSucceeds(g.world, o, q, t, g.out.value);
      }
    }
  }

  // ---- Why the finalizer goes ----

  /** The clean-up branch of finalizeObject runs for what the webhook admits, while the finalizer is on. */
  lemma AdmittedDeletionPrunes(p: Pattern)
    requires PATTERN_FINALIZER in p.finalizers
    ensures ValidateDelete(p) <==> Prunes(p)
  {
  }

  /**
   The call on this store read a Pattern it was to prune, and finalizeObject found the defaults
   failing, the Application unreadable or absent, another owner, or had the delete of the parent
   accepted in the last phase.
   */
  predicate ReleasedFor(w: World, o: Oracle) {
    var r := ReadPattern(w, o);
    r.out.Got? &&
    var c := r.out.copy;
    var s := Routine(r.world, o).world;
    var d := Defaults(s, o);
    && c.obj.deleting && Prunes(c.obj)
    && (d.out.None? ||
        var q := Qualified(c, d.out.value);
        var t := NewTarget(q.obj, d.out.value, s.argoNamespace);
        var g := GetApp(d.world, o, t.id);
        || g.out.None?
        || !OwnedBySame(t.owners, g.out.value.owners)
        || (c.obj.status.phase.DeleteHub? && DeleteApp(g.world, o, g.out.value.id).out))
  }

  lemma PinnedHas(w: World, w': World, i: nat)
    requires Pinned(w, w')
    requires |w.versions| <= i < |w'.versions| && Unpins(w'.versions[i - 1], w'.versions[i])
    ensures Unguarded in w'.departures
  {
  }

  /** The write that takes the finalizer off goes over the version that was read. */
  lemma ReleaseIsCurrent(w: World, o: Oracle, c: Copy, i: nat)
    requires Inv(w) && Verbatim(w, c)
    requires var v := RemoveFinalizer(w, o, c).world;
             |w.versions| <= i < |v.versions| && Unpins(v.versions[i - 1], v.versions[i]) && Unguarded !in v.departures
    ensures var v := RemoveFinalizer(w, o, c).world;
            v.versions[i - 1] == c.obj && v.versions[i].prune == c.obj.prune
  {
    hide Inv, HappenAll, Snapshot, Pinned, Unpins;
    var w1 := Before(w, o);
    BeforeKeeps(w, o);
    var v := RemoveFinalizer(w, o, c).world;
    if i < |w1.versions| {
      assert v.versions[i] == w1.versions[i] && v.versions[i - 1] == w1.versions[i - 1];
      PinnedHas(w, w1, i);
      assert false;
    }
    assert w1.versions[c.rv] == w.versions[c.rv] by {
      VerbatimStays(w, w1, c);
    }
  }

  /** One call: if the finalizer goes, the call met one of the reasons. */
  lemma CallReleasesForAReason(w: World, o: Oracle, i: nat)
    requires Inv(w) && Guarded(Reconcile(w, o).world)
    requires var h := Reconcile(w, o).world.versions; |w.versions| <= i < |h| && Unpins(h[i - 1], h[i])
    ensures ReleasedFor(w, o)
  {
    hide Inv, Snapshot, ReadPattern, Handle, Finalize, Routine, RemoveFinalizer, Pinned, Verbatim, Grew, Unpins,
         Admitted, Defaults, GetApp, DeleteApp, NewTarget, OwnedBySame, ApplyDefaults;
    var r := ReadPattern(w, o);
    var v := Reconcile(w, o).world;
    ReadKeeps(w, o);
    ReadIsVerbatim(w, o);
    if !r.out.Got? {
      PinnedHas(w, v, i);
    } else {
      var c := r.out.copy;
      HandleAdvances(r.world, o, c);
      var s := Routine(r.world, o).world;
      var f := Finalize(s, o, c);
      if !(c.obj.deleting && f.out.None?) {
        KeepsThenMoves(w, r.world, v);
        PinnedHas(w, v, i);
      } else {
        ReleaseCallParts(w, o, i);
        FinalizerReleasedExactly(s, o, c);
      }
    }
  }

  /** The release itself: the copy is the version it goes over, and that was admitted. */
  lemma ReleasedWasPruned(w: World, f: World, o: Oracle, c: Copy, i: nat)
    requires Moves(w, f) && Verbatim(f, c) && c.obj.deleting
    requires var v := RemoveFinalizer(f, o, c).world;
             && Guarded(v)
             && |w.versions| <= i < |v.versions| && Unpins(v.versions[i - 1], v.versions[i])
    ensures Prunes(c.obj)
  {
    hide Snapshot, StoreOk, Normal, EdgeHistory, SealsHold, PathSealed, CensusSafe, AheadOfPhase, RemoveFinalizer,
         Pinned, Crossings;
    var v := RemoveFinalizer(f, o, c).world;
    RemoveFinalizerStays(f, o, c);
    if i < |f.versions| {
      assert v.versions[i] == f.versions[i] && v.versions[i - 1] == f.versions[i - 1];
      PinnedHas(w, f, i);
      assert false;
    } else {
      ReleaseIsCurrent(f, o, c, i);
      assert v.versions[i] in v.versions && ValidateDelete(v.versions[i]);
      AdmittedDeletionPrunes(c.obj);
    }
  }

  /** In a call that lets the finalizer go, what was read was to be pruned and in a known phase. */
  lemma ReleaseCallParts(w: World, o: Oracle, i: nat)
    requires Inv(w) && Guarded(Reconcile(w, o).world)
    requires var h := Reconcile(w, o).world.versions; |w.versions| <= i < |h| && Unpins(h[i - 1], h[i])
    requires var r := ReadPattern(w, o);
             && r.out.Got? && r.out.copy.obj.deleting
             && Finalize(Routine(r.world, o).world, o, r.out.copy).out.None?
    ensures var c := ReadPattern(w, o).out.copy; Prunes(c.obj) && c.obj.status.phase.Known()
  {
    hide Inv, Snapshot, ReadPattern, Finalize, Routine, RemoveFinalizer, Grew, Admitted, Prunes, Pinned, Unpins,
         Record, Crossings, Guarded;
    var r := ReadPattern(w, o);
    var c := r.out.copy;
    var s := Routine(r.world, o);
    var f := Finalize(s.world, o, c);
    var v := Reconcile(w, o).world;
    ReadKeeps(w, o);
    ReadIsVerbatim(w, o);
    CopyBehind(r.world, c);
    DefaultsKeeps(r.world, o);
    VerbatimStays(r.world, s.world, c);
    CopiesStay(r.world, s.world, c);
    if s.out != Fine {
      KeepsTransitive(w, r.world, s.world);
      RecordKeeps(s.world, o, c, "operator configuration", Some(StepFailed("operator configuration")));
      KeepsTransitive(w, s.world, v);
      PinnedHas(w, v, i);
      assert false by { GuardedMeans(v); }
    } else {
      FinalizeMoves(s.world, o, c);
      VerbatimStays(s.world, f.world, c);
      KeepsItself(f.world) by { MovedIsSound(s.world, f.world); }
      KeepsTransitive(w, r.world, s.world);
      KeepsMovesKeeps(w, s.world, f.world, f.world);
      ReleasedWasPruned(w, f.world, o, c, i);
    }
  }

  lemma GuardedMeans(w: World)
    requires Guarded(w)
    ensures Unguarded !in w.departures
  {
  }

  lemma MovedIsSound(w: World, w': World)
    requires Moves(w, w')
    ensures Inv(w')
  {
    hide Inv, Grew, Pinned;
  }

  lemma {:induction false} RunOneMore(w: World, o: Oracle, calls: nat)
    ensures Run(w, o, calls + 1) == Reconcile(Run(w, o, calls), o).world
    decreases calls
  {
    hide Reconcile;
    if calls > 0 {
      RunOneMore(Reconcile(w, o).world, o, calls - 1);
    }
  }

  /** The call of a run in which a version was written. */
  predicate WrittenIn(w: World, o: Oracle, k: nat, i: nat) {
    |Run(w, o, k).versions| <= i < |Run(w, o, k + 1).versions|
  }

  lemma {:induction false} VersionHasItsCall(w: World, o: Oracle, calls: nat, i: nat) returns (k: nat)
    requires Inv(w) && |w.versions| <= i < |Run(w, o, calls).versions|
    ensures k < calls && WrittenIn(w, o, k, i)
  {
    hide Inv, Reconcile;
    if i < |Run(w, o, calls - 1).versions| {
      k := VersionHasItsCall(w, o, calls - 1, i);
    } else {
      k := calls - 1;
    }
  }

  /** Earlier stores of a run are beginnings of later ones. */
  lemma RunGrows(w: World, o: Oracle, k: nat, calls: nat)
    requires Inv(w) && k <= calls
    ensures Inv(Run(w, o, k)) && Run(w, o, k).versions <= Run(w, o, calls).versions
    ensures Run(w, o, k).departures <= Run(w, o, calls).departures
    decreases calls
  {
    hide Inv, Reconcile, Snapshot;
    RunKeepsInvariant(w, o, k);
    if k < calls {
      RunGrows(w, o, k, calls - 1);
      RunKeepsInvariant(w, o, calls - 1);
      RunOneMore(w, o, calls - 1);
      ReconcileAdvances(Run(w, o, calls - 1), o);
    }
  }

  /**
   In any run on a deletion that the webhook admitted and whose annotation and finalizer others left
   alone, the finalizer leaves the store only in a call that met one of the four reasons: the
   prune-off branch is never the cause.
   */
  lemma FinalizerGoesForAReason(w: World, o: Oracle, calls: nat, i: nat) returns (k: nat)
    requires Start(w) && Guarded(Run(w, o, calls))
    requires var h := Run(w, o, calls).versions; 0 < i < |h| && Unpins(h[i - 1], h[i])
    ensures k < calls && WrittenIn(w, o, k, i) && ReleasedFor(Run(w, o, k), o)
  {
    hide Inv, Run, Reconcile, ReleasedFor, Snapshot, Unpins;
    StartHoldsInvariant(w);
    k := VersionHasItsCall(w, o, calls, i);
    RunGrows(w, o, k, calls);
    RunGrows(w, o, k + 1, calls);
    RunOneMore(w, o, k);
    CallReleasesForAReason(Run(w, o, k), o, i);
  }

  /**
   Between two versions of any run, whatever others did before, the operator's own writes change the
   status or its own finalizer: they put it on a live Pattern and take it off one being deleted. No
   other finalizer comes or goes, and neither spec nor metadata changes, unless others wrote.
   */
  lemma OthersFinalizersStay(w: World, o: Oracle, calls: nat, i: nat)
    requires Start(w)
    requires 0 < i < |Run(w, o, calls).versions| && i !in Run(w, o, calls).edited
    ensures var h := Run(w, o, calls).versions;
            var was, now := h[i - 1], h[i];
            && now == was.(status := now.status, finalizers := now.finalizers)
            && (forall f :: f != PATTERN_FINALIZER ==> (f in now.finalizers <==> f in was.finalizers))
            && (now.finalizers != was.finalizers ==>
                  now.status == was.status && (PATTERN_FINALIZER in now.finalizers <==> !was.deleting))
  {
    hide Run, Snapshot, CensusSafe, StoreOk, Normal, EdgeHistory, PathSealed, SealsHold, Admitted, AheadOfPhase;
    StartHoldsInvariant(w);
    RunKeepsInvariant(w, o, calls);
  }

  // ---- Managed clusters ----

  lemma {:induction false} NotLocalIsNamed(names: seq<string>)
    ensures forall n :: n in NotLocal(names) <==> n in names && n != LOCAL_CLUSTER
  {
    if names != [] {
      NotLocalIsNamed(names[1..]);
      assert names == [names[0]] + names[1..];
    }
  }

  /** The clusters whose delete took effect. */
  function Deleted(log: seq<Event>): seq<string> {
    if log == [] then []
    else Deleted(log[..|log| - 1]) + if log[|log| - 1].ClusterDeleted? then [log[|log| - 1].name] else []
  }

  /** How many of these deletes were acknowledged. */
  function Acknowledged(log: seq<Event>): nat {
    if log == [] then 0
    else
      var last := log[|log| - 1];
      Acknowledged(log[..|log| - 1]) + if last.ClusterDeleted? && last.acknowledged then 1 else 0
  }

  lemma DeletedAppend(log: seq<Event>, e: Event)
    ensures Deleted(log + [e]) == Deleted(log) + if e.ClusterDeleted? then [e.name] else []
    ensures Acknowledged(log + [e]) == Acknowledged(log) + if e.ClusterDeleted? && e.acknowledged then 1 else 0
  {
    assert (log + [e])[..|log|] == log;
  }

  lemma {:induction false} OthersLogNothing(w: World, es: seq<Outside>)
    ensures HappenAll(w, es).log == w.log
    decreases |es|
  {
    if es != [] {
      OthersLogNothing(Happens(w, es[0]), es[1..]);
    }
  }

  /** The answers to the deletes that deleteManagedClusters would send, all "not found". */
  predicate AllAlreadyGone(w: World, o: Oracle, names: seq<string>)
    decreases |names|
  {
    if names == [] then true
    else if names[0] == LOCAL_CLUSTER then AllAlreadyGone(w, o, names[1..])
    else
      var d := DeleteCluster(w, o, names[0]);
      d.out.AlreadyGone? && AllAlreadyGone(d.world, o, names[1..])
  }

  lemma OneDeleteCounts(w: World, o: Oracle, name: string)
    ensures var d := DeleteCluster(w, o, name);
            && Acknowledged(d.world.log) == Acknowledged(w.log) + (if d.out.Accepted? then 1 else 0)
            && (Deleted(d.world.log) == Deleted(w.log) || Deleted(d.world.log) == Deleted(w.log) + [name])
            && (d.out.Accepted? ==> Deleted(d.world.log) == Deleted(w.log) + [name])
            && (d.out.AlreadyGone? ==> Deleted(d.world.log) == Deleted(w.log))
  {
    hide HappenAll, Terminate, Names, Deleted, Acknowledged;
    OthersLogNothing(w, o(w.clock).outside);
    DeletedAppend(w.log, ClusterDeleted(name, true));
    DeletedAppend(w.log, ClusterDeleted(name, false));
  }

  /**
   The count returned is the number of deletes acknowledged, on the early error too; with the error one
   more may have taken effect unseen. Only listed names are deleted and never the hub's own.
   */
  lemma {:induction false} ClusterCountIsExact(w: World, o: Oracle, names: seq<string>, accepted: nat)
    ensures var d := DeleteEach(w, o, names, accepted);
            var before, after := Deleted(w.log), Deleted(d.world.log);
            && before <= after
            && d.out.0 - accepted == Acknowledged(d.world.log) - Acknowledged(w.log)
            && d.out.0 - accepted <= |after| - |before| <= d.out.0 - accepted + (if d.out.1 then 0 else 1)
            && (forall n :: n in after[|before|..] ==> n in names && n != LOCAL_CLUSTER)
    decreases |names|
  {
    hide DeleteCluster, Deleted, Acknowledged;
    if names != [] {
      assert names == [names[0]] + names[1..];
      if names[0] == LOCAL_CLUSTER {
        ClusterCountIsExact(w, o, names[1..], accepted);
      } else {
        var d := DeleteCluster(w, o, names[0]);
        OneDeleteCounts(w, o, names[0]);
        var before, between := Deleted(w.log), Deleted(d.world.log);
        assert between[|before|..] == [] || between[|before|..] == [names[0]];
        if !d.out.DeletionRefused? {
          ClusterCountIsExact(d.world, o, names[1..], if d.out.Accepted? then accepted + 1 else accepted);
          var after := Deleted(DeleteEach(w, o, names, accepted).world.log);
          assert after[|before|..] == between[|before|..] + after[|between|..];
        }
      }
    }
  }

  /** It is zero without an error exactly when every listed name but the hub's own was already gone. */
  lemma {:induction false} ZeroMeansAllGone(w: World, o: Oracle, names: seq<string>, accepted: nat)
    ensures accepted <= DeleteEach(w, o, names, accepted).out.0
    ensures DeleteEach(w, o, names, accepted).out == (accepted, true) <==> AllAlreadyGone(w, o, names)
    decreases |names|
  {
    hide DeleteCluster;
    if names != [] {
      if names[0] == LOCAL_CLUSTER {
        ZeroMeansAllGone(w, o, names[1..], accepted);
      } else {
        var d := DeleteCluster(w, o, names[0]);
        if !d.out.DeletionRefused? {
          ZeroMeansAllGone(d.world, o, names[1..], if d.out.Accepted? then accepted + 1 else accepted);
        }
      }
    }
  }

  /**
   When the deletion of hub children may be asked for: the hub is not the pattern's, or no managed
   cluster is listed (a failed list included), or each one's delete came back "not found".
   */
  lemma ClusterGateOpensExactly(w: World, o: Oracle)
    ensures ClusterGate(w, o).out.None? <==>
      || !HaveHub(w, o).out
      || var l := ListClusters(HaveHub(w, o).world, o);
         || l.out.None? || NotLocal(l.out.value) == []
         || (ListClusters(l.world, o).out.Some?
             && AllAlreadyGone(ListClusters(l.world, o).world, o, ListClusters(l.world, o).out.value))
  {
    hide HappenAll, DeleteEach, AllAlreadyGone;
    var l := ListClusters(HaveHub(w, o).world, o);
    var m := ListClusters(l.world, o);
    if m.out.Some? {
      ZeroMeansAllGone(m.world, o, m.out.value, 0);
    }
  }

  predicate AsksForDeletion(e: Event) {
    e.TargetWritten? || e.SyncRequested?
  }

  /** A call in phase DeleteHubChildApps that asks for hub children to go has passed the cluster gate. */
  lemma HubDeletionIsGated(w: World, o: Oracle, t: Target, a: App)
    ensures var log := HubGate(w, o, t, a).world.log;
            && w.log <= log
            && ((exists e :: e in log[|w.log|..] && AsksForDeletion(e)) ==>
                  var l := ListChildren(w, o, a.id.name);
                  l.out.Some? && l.out.value != [] && ClusterGate(l.world, o).out.None?)
  {
    hide HappenAll, DeleteEach, UpdateApp, CompareApplication;
    var l := ListChildren(w, o, a.id.name);
    OthersLogNothing(w, o(w.clock).outside);
    if l.out.Some? && l.out.value != [] {
      ClusterGateLogs(l.world, o);
      AskHubDeletionLogs(ClusterGate(l.world, o).world, o, t, a, |l.out.value|);
    }
  }

  lemma UpdateAppLogs(w: World, o: Oracle, a: App, e: Event)
    ensures var u := UpdateApp(w, o, a, e);
            (u.world.log == w.log && !u.out) || u.world.log == w.log + [e]
  {
    hide HappenAll, Find, Replace;
    OthersLogNothing(w, o(w.clock).outside);
  }

  lemma AskHubDeletionLogs(w: World, o: Oracle, t: Target, a: App, n: nat)
    ensures w.log <= AskHubDeletion(w, o, t, a, n).world.log
  {
    hide UpdateApp, CompareApplication;
    UpdateAppLogs(w, o, a.(spec := t.spec), TargetWritten(a.id));
    UpdateAppLogs(w, o, a.(operation := Some(Operation(Some(Sync(true, [FORCE]))))),
                  SyncRequested(a.id, true, Answer(w, o) == Fine));
  }

  lemma ClusterGateLogs(w: World, o: Oracle)
    ensures w.log <= ClusterGate(w, o).world.log
    ensures forall e :: e in ClusterGate(w, o).world.log[|w.log|..] ==> e.ClusterDeleted?
  {
    hide HappenAll, DeleteEach;
    var h := HaveHub(w, o);
    var l := ListClusters(h.world, o);
    var m := ListClusters(l.world, o);
    OthersLogNothing(w, o(w.clock).outside);
    OthersLogNothing(h.world, o(h.world.clock).outside);
    OthersLogNothing(l.world, o(l.world.clock).outside);
    if m.out.Some? {
      DeleteEachLogs(m.world, o, m.out.value, 0);
    }
  }

  lemma {:induction false} DeleteEachLogs(w: World, o: Oracle, names: seq<string>, accepted: nat)
    ensures w.log <= DeleteEach(w, o, names, accepted).world.log
    ensures forall e :: e in DeleteEach(w, o, names, accepted).world.log[|w.log|..] ==> e.ClusterDeleted?
    decreases |names|
  {
    hide HappenAll;
    if names != [] {
      if names[0] == LOCAL_CLUSTER {
        DeleteEachLogs(w, o, names[1..], accepted);
      } else {
        var d := DeleteCluster(w, o, names[0]);
        OthersLogNothing(w, o(w.clock).outside);
        if !d.out.DeletionRefused? {
          DeleteEachLogs(d.world, o, names[1..], if d.out.Accepted? then accepted + 1 else accepted);
        }
      }
    }
  }
}

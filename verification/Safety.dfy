/**
 What every run keeps: whatever others do between and within the calls, however stale the reads and
 whichever requests fail.
 */
module Safety {
  import opened Wrappers
  import opened Patterns
  import opened Applications
  import opened Targets
  import opened Cluster
  import opened StoreFacts
  import opened Protocol

  // ---- The invariant ----

  /** How often the recorded phase changed. */
  ghost function Crossings(h: seq<Pattern>): nat {
    if |h| < 2 then 0
    else Crossings(h[..|h| - 1]) + if h[|h| - 2].status.phase == h[|h| - 1].status.phase then 0 else 1
  }

  /** The history starts before any deletion and moves along the protocol's edges only. */
  ghost predicate EdgeHistory(h: seq<Pattern>) {
    && |h| > 0
    && h[0].status.phase.InitializeDeletion?
    && forall i :: 0 < i < |h| ==> Edge(h[i - 1].status.phase, h[i].status.phase)
  }

  /** No version from which a target of its own accord orders a deletion was ever stored. */
  ghost predicate Clean(w: World) {
    forall p :: p in w.versions && !p.deleting ==> ExtraRank(p) == 0
  }

  /** Some query of the operator reported the kind gone. */
  ghost predicate Reported(sealed: set<Seal>, kind: Kind) {
    exists s :: s in sealed && s.kind == kind
  }

  /**
   In the last phase: the children of the Application the Pattern stands for were reported gone, and
   it stood for that one all through the phase, unless others changed it.
   */
  ghost predicate HubSealed(w: World) {
    Regrouped in w.departures ||
    (&& Reported(w.sealed, HubChildren(AppName(Current(w))))
     && forall p :: p in w.versions && p.status.phase.DeleteHub? ==> AppName(p) == AppName(Current(w)))
  }

  ghost predicate PathSealed(w: World) {
    && (PhaseOf(w).Rank() >= 4 ==> HubSealed(w))
    && (Visited(w, DeleteSpokeChildApps) && PhaseOf(w).Rank() >= 2 ==> Reported(w.sealed, SpokeChildren))
    && (Visited(w, DeleteSpokeChildApps) && PhaseOf(w).Rank() >= 3 ==> Reported(w.sealed, SpokeParents))
    && PathChosen(w)
  }

  /** The spokes are visited only after the hub was found to be the pattern's, and skipped only after it was not. */
  ghost predicate PathChosen(w: World) {
    && (Visited(w, DeleteSpokeChildApps) ==> true in w.hubReads)
    && (PhaseOf(w).Rank() == 2 ==> Visited(w, DeleteSpokeChildApps))
    && (PhaseOf(w).Rank() >= 3 && !Visited(w, DeleteSpokeChildApps) ==> false in w.hubReads)
  }

  /** The kind was reported gone, and every single report was belied, the one that opened the gate included. */
  ghost predicate Belied(c: Census, kind: Kind) {
    && Reported(c.sealed, kind)
    && forall s :: s in c.sealed && s.kind == kind ==> Betrayed(c.departures, s)
  }

  ghost predicate CensusSafe(c: Census) {
    && c.phase == DeleteHub
    && (c.hubChildren != [] ==> Belied(c, HubChildren(c.parent)) || Regrouped in c.departures)
    && (c.viaSpokes && c.spokeChildren != {} ==> Belied(c, SpokeChildren))
    && (c.viaSpokes && c.spokeParents != {} ==> Belied(c, SpokeParents))
  }

  /** Whatever was reported gone and is there was recorded to have come back, or never to have been counted. */
  ghost predicate SealsHold(w: World) {
    forall s :: s in w.sealed && Present(w, s.kind) ==> Betrayed(w.departures, s)
  }

  /** The deletion was admitted by the webhook, and nobody took away what it was admitted for. */
  ghost predicate Guarded(w: World) {
    (w.versions[0].deleting ==> ValidateDelete(w.versions[0])) && Unguarded !in w.departures
  }

  ghost predicate Admitted(w: World) {
    Guarded(w) ==> forall p :: p in w.versions && p.deleting ==> ValidateDelete(p)
  }

  /**
   What the operator writes over a version: its status, or its own finalizer, on a live Pattern to
   add it and on a deleted one to take it off.
   */
  predicate OperatorWrote(before: Pattern, after: Pattern) {
    || after == before.(status := after.status)
    || (before.deleting && after == before.(finalizers := before.finalizers - {PATTERN_FINALIZER}))
    || (!before.deleting && after == before.(finalizers := before.finalizers + {PATTERN_FINALIZER}))
  }

  /** Every version that others did not write is the operator's. */
  ghost predicate Signed(w: World) {
    forall i :: 0 < i < |w.versions| && i !in w.edited ==> OperatorWrote(w.versions[i - 1], w.versions[i])
  }

  ghost predicate Inv(w: World) {
    && StoreOk(w) && Normal(w)
    && EdgeHistory(w.versions)
    && SealsHold(w)
    && PathSealed(w)
    && (Clean(w) && AheadOfPhase(w) ==> Forged in w.departures)
    && (forall e :: e in w.log && e.AppDeleted? ==> CensusSafe(e.census))
    && Admitted(w)
    && Signed(w)
  }

  /** Bookkeeping only grows, and local copies of Applications stay meaningful. */
  ghost predicate Grew(w: World, w': World) {
    && w.versions <= w'.versions
    && w.hubReads <= w'.hubReads
    && w.sealed <= w'.sealed
    && w.departures <= w'.departures
    && w.edited <= w'.edited
    && w.log <= w'.log
    && w.nextRv <= w'.nextRv
    && w'.argoNamespace == w.argoNamespace
    && (forall a :: Snapshot(w, a) ==> Snapshot(w', a))
  }

  /** A Pattern being deleted loses the operator's finalizer. */
  predicate Unpins(before: Pattern, after: Pattern) {
    after.deleting && PATTERN_FINALIZER in before.finalizers && PATTERN_FINALIZER !in after.finalizers
  }

  /** Only others took the finalizer off. */
  ghost predicate Pinned(w: World, w': World) {
    forall i :: |w.versions| <= i < |w'.versions| && Unpins(w'.versions[i - 1], w'.versions[i]) ==>
        Unguarded in w'.departures
  }

  /** A step that leaves the recorded phase alone, the finalizer apart. */
  ghost predicate Stays(w: World, w': World) {
    Inv(w') && Grew(w, w') && PhaseOf(w') == PhaseOf(w) && Crossings(w'.versions) == Crossings(w.versions)
  }

  /** A step that leaves the recorded phase and the finalizer alone. */
  ghost predicate Keeps(w: World, w': World) {
    Stays(w, w') && Pinned(w, w')
  }

  /** A step that moves the recorded phase at most once, along an edge, the finalizer apart. */
  ghost predicate Advances(w: World, w': World) {
    && Inv(w') && Grew(w, w')
    && Edge(PhaseOf(w), PhaseOf(w'))
    && Crossings(w.versions) <= Crossings(w'.versions) <= Crossings(w.versions) + 1
  }

  /** A step that moves the recorded phase at most once and leaves the finalizer alone. */
  ghost predicate Moves(w: World, w': World) {
    Advances(w, w') && Pinned(w, w')
  }

  lemma PinnedTransitive(a: World, b: World, c: World)
    requires Grew(a, b) && Grew(b, c) && Pinned(a, b) && Pinned(b, c)
    ensures Pinned(a, c)
  {
    hide Snapshot, Unpins;
    forall i | |a.versions| <= i < |c.versions| && Unpins(c.versions[i - 1], c.versions[i])
      ensures Unguarded in c.departures
    {
      if i < |b.versions| {
        assert b.versions[i] == c.versions[i] && b.versions[i - 1] == c.versions[i - 1];
      }
    }
  }

  lemma KeepsTransitive(a: World, b: World, c: World)
    requires Keeps(a, b) && Keeps(b, c)
    ensures Keeps(a, c)
  {
    hide Inv, Pinned;
    PinnedTransitive(a, b, c);
  }

  lemma StaysTransitive(a: World, b: World, c: World)
    requires Stays(a, b) && Stays(b, c)
    ensures Stays(a, c)
  {
    hide Inv;
  }

  lemma AdvancesStays(a: World, b: World, c: World)
    requires Advances(a, b) && Stays(b, c)
    ensures Advances(a, c)
  {
    hide Inv;
  }

  lemma KeepsAdvances(a: World, b: World, c: World)
    requires Keeps(a, b) && Advances(b, c)
    ensures Advances(a, c)
  {
    hide Inv, Pinned;
  }

  lemma KeepsMovesKeeps(a: World, b: World, c: World, d: World)
    requires Keeps(a, b) && Moves(b, c) && Keeps(c, d)
    ensures Moves(a, d)
  {
    hide Inv, Pinned;
    KeepsAdvances(a, b, c);
    AdvancesStays(a, c, d);
    PinnedTransitive(a, b, c);
    PinnedTransitive(a, c, d);
  }

  // ---- Histories ----

  lemma {:induction false} HistoryIsMonotone(h: seq<Pattern>, i: nat, j: nat)
    requires EdgeHistory(h) && i <= j < |h|
    ensures h[i].status.phase.Rank() <= h[j].status.phase.Rank() && h[j].status.phase.Known()
    decreases j
  {
    if j > 0 {
      HistoryIsMonotone(h, if i < j then i else j - 1, j - 1);
      assert Edge(h[j - 1].status.phase, h[j].status.phase);
    }
  }

  lemma CrossingsOfAppend(h: seq<Pattern>, p: Pattern)
    requires |h| > 0
    ensures Crossings(h + [p]) == Crossings(h) + if h[|h| - 1].status.phase == p.status.phase then 0 else 1
  {
    assert (h + [p])[..|h|] == h;
  }

  /** What a new version must bring along for the invariant, beyond following an edge. */
  ghost predicate Justified(w: World, p: Pattern) {
    PhaseOf(w) == p.status.phase ||
    match p.status.phase
    case DeleteSpokeChildApps => true in w.hubReads
    case DeleteSpoke => Reported(w.sealed, SpokeChildren)
    case DeleteHubChildApps => if PhaseOf(w).DeleteSpoke? then Reported(w.sealed, SpokeParents) else false in w.hubReads
    case DeleteHub => Reported(w.sealed, HubChildren(AppName(p)))
    case _ => true
  }

  lemma CleanShrinks(w: World, w': World)
    requires w.versions <= w'.versions
    ensures Clean(w') ==> Clean(w)
  {
    assert forall q :: q in w.versions ==> q in w'.versions;
  }

  lemma VisitedLater(w: World, p: Pattern, phase: Phase)
    ensures Visited(w.(versions := w.versions + [p]), phase) <==> Visited(w, phase) || p.status.phase == phase
  {
    var h := w.versions + [p];
    assert h[|w.versions|] == p;
    if i :| 0 <= i < |w.versions| && w.versions[i].status.phase == phase {
      assert h[i].status.phase == phase;
    }
  }

  lemma VisitedIsPassed(w: World, phase: Phase)
    requires EdgeHistory(w.versions) && Visited(w, phase)
    ensures phase.Rank() <= PhaseOf(w).Rank() <= 4
  {
    var i :| 0 <= i < |w.versions| && w.versions[i].status.phase == phase;
    HistoryIsMonotone(w.versions, i, Top(w));
  }

  lemma CurrentIsVisited(w: World)
    ensures Visited(w, PhaseOf(w))
  {
    assert w.versions[Top(w)].status.phase == PhaseOf(w);
  }

  /** What a new version has to say for itself: admitted, for the same Application in the last phase, and signed. */
  ghost predicate Allowed(w: World, p: Pattern) {
    && (Guarded(w) && p.deleting ==> ValidateDelete(p))
    && (Regroups(w, p) ==> Regrouped in w.departures)
    && (|w.versions| in w.edited || OperatorWrote(Current(w), p))
  }

  lemma AppendKeepsHubSealed(w: World, p: Pattern)
    requires EdgeHistory(w.versions) && Edge(PhaseOf(w), p.status.phase) && Justified(w, p) && Allowed(w, p)
    requires PhaseOf(w).DeleteHub? ==> HubSealed(w)
    ensures p.status.phase.DeleteHub? ==> HubSealed(w.(versions := w.versions + [p]))
  {
    hide Guarded;
    if p.status.phase.DeleteHub? && !PhaseOf(w).DeleteHub? {
      forall q | q in w.versions ensures !q.status.phase.DeleteHub? {
        var i :| 0 <= i < |w.versions| && w.versions[i] == q;
        HistoryIsMonotone(w.versions, i, Top(w));
      }
    }
  }

  lemma AppendKeepsPath(w: World, p: Pattern)
    requires EdgeHistory(w.versions) && PathSealed(w) && Edge(PhaseOf(w), p.status.phase) && Justified(w, p)
        && Allowed(w, p)
    ensures PathSealed(w.(versions := w.versions + [p]))
  {
    AppendKeepsHubSealed(w, p);
    hide HubSealed, EdgeHistory, Visited, Allowed;
    VisitedLater(w, p, DeleteSpokeChildApps);
    if Visited(w, DeleteSpokeChildApps) {
      VisitedIsPassed(w, DeleteSpokeChildApps);
    }
    CurrentIsVisited(w);
    HistoryIsMonotone(w.versions, 0, Top(w));
  }

  /** Applications and spokes untouched: the same resources are present, copies stay meaningful. */
  lemma ResourcesUntouched(w: World, w': World)
    requires w'.apps == w.apps && w'.nextRv == w.nextRv && w'.spokes == w.spokes && w'.argoNamespace == w.argoNamespace
    ensures forall k :: Present(w', k) <==> Present(w, k)
    ensures forall a :: Snapshot(w, a) ==> Snapshot(w', a)
    ensures StoreOk(w) ==> StoreOk(w')
    ensures Normal(w) ==> Normal(w')
  {
    forall k ensures Present(w', k) <==> Present(w, k) {
      assert SpokesOf(w', k) == SpokesOf(w, k);
    }
  }

  lemma AppendKeepsEdges(w: World, p: Pattern)
    requires EdgeHistory(w.versions) && Edge(PhaseOf(w), p.status.phase)
    ensures EdgeHistory(w.versions + [p])
  {
    hide Edge;
    var h := w.versions + [p];
    forall i | 0 < i < |h| ensures Edge(h[i - 1].status.phase, h[i].status.phase) {
      if i < |w.versions| {
        assert h[i - 1] == w.versions[i - 1] && h[i] == w.versions[i];
      } else {
        assert h[i - 1] == Current(w) && h[i] == p;
      }
    }
  }

  lemma AppendKeepsAdmitted(w: World, p: Pattern)
    requires Admitted(w) && Allowed(w, p)
    ensures Admitted(w.(versions := w.versions + [p]))
  {
  }

  lemma AppendKeepsSigned(w: World, p: Pattern)
    requires Signed(w) && Allowed(w, p)
    ensures Signed(w.(versions := w.versions + [p]))
  {
    hide OperatorWrote, Guarded, Regroups;
    var v := w.(versions := w.versions + [p]);
    forall i | 0 < i < |v.versions| && i !in v.edited ensures OperatorWrote(v.versions[i - 1], v.versions[i]) {
      if i < |w.versions| {
        assert v.versions[i - 1] == w.versions[i - 1] && v.versions[i] == w.versions[i];
      }
    }
  }

  /** The recorded phase never falls, so nothing runs ahead that did not before. */
  lemma AppendKeepsOrder(w: World, p: Pattern)
    requires EdgeHistory(w.versions) && Edge(PhaseOf(w), p.status.phase)
    ensures AheadOfPhase(w.(versions := w.versions + [p])) ==> AheadOfPhase(w)
  {
    hide DeleteRank;
    var w' := w.(versions := w.versions + [p]);
    HistoryIsMonotone(w.versions, 0, Top(w));
    if AheadOfPhase(w') {
      var a :| a in w'.apps && DeleteRank(a.spec) > PhaseOf(w').Rank();
      assert a in w.apps;
    }
  }

  lemma AppendKeepsInv(w: World, p: Pattern)
    requires Inv(w) && Edge(PhaseOf(w), p.status.phase) && Justified(w, p) && Allowed(w, p)
    ensures Inv(w.(versions := w.versions + [p]))
  {
    hide DeleteRank, Find, Children, Present, Snapshot, CensusSafe, AheadOfPhase, EdgeHistory, PathSealed,
         Justified, Edge, Clean, Admitted, Allowed, Signed;
    var w' := w.(versions := w.versions + [p]);
    AppendKeepsEdges(w, p);
    AppendKeepsPath(w, p);
    AppendKeepsOrder(w, p);
    AppendKeepsAdmitted(w, p);
    AppendKeepsSigned(w, p);
    CleanShrinks(w, w');
    ResourcesUntouched(w, w');
  }

  /** Recording a version along an edge keeps the invariant. */
  lemma AppendAdvances(w: World, p: Pattern)
    requires Inv(w) && Edge(PhaseOf(w), p.status.phase) && Justified(w, p) && Allowed(w, p)
    ensures Advances(w, Append(w, p))
    ensures p.status.phase == PhaseOf(w) ==> Stays(w, Append(w, p))
  {
    hide Inv, Find, Children, Present, Snapshot, Justified, Allowed;
    if p != Current(w) {
      var w' := w.(versions := w.versions + [p]);
      CrossingsOfAppend(w.versions, p);
      AppendKeepsInv(w, p);
      ResourcesUntouched(w, w');
      assert Grew(w, w');
    }
  }

  lemma AppendMoves(w: World, p: Pattern)
    requires Inv(w) && Edge(PhaseOf(w), p.status.phase) && Justified(w, p) && Allowed(w, p)
    requires Unpins(Current(w), p) ==> Unguarded in w.departures
    ensures Moves(w, Append(w, p))
    ensures p.status.phase == PhaseOf(w) ==> Keeps(w, Append(w, p))
  {
    hide Inv, Justified, Allowed, Edge, Grew, Advances, Stays;
    AppendAdvances(w, p);
    assert Pinned(w, Append(w, p));
  }

  /** A version that changes the status alone. */
  lemma SameMetadata(w: World, p: Pattern)
    requires Inv(w) && p == Current(w).(status := p.status)
    ensures Allowed(w, p) && !Unpins(Current(w), p)
  {
    hide StoreOk, Normal, EdgeHistory, SealsHold, PathSealed, CensusSafe;
    assert Current(w) in w.versions;
  }

  // ---- Steps that do not touch the history ----

  lemma StepKeeps(w: World, v: World)
    requires Inv(w)
    requires v.versions == w.versions && v.argoNamespace == w.argoNamespace && w.nextRv <= v.nextRv
    requires w.hubReads <= v.hubReads && w.sealed <= v.sealed && w.departures <= v.departures && w.log <= v.log
    requires w.edited <= v.edited
    requires StoreOk(v) && Normal(v) && forall a :: Snapshot(w, a) ==> Snapshot(v, a)
    requires SealsHold(v)
    requires Clean(w) && AheadOfPhase(v) ==> Forged in v.departures
    requires forall e :: e in v.log && e !in w.log && e.AppDeleted? ==> CensusSafe(e.census)
    ensures Keeps(w, v)
  {
    hide DeleteRank, Find, Children, Present, Snapshot, CensusSafe;
    CleanShrinks(w, v);
    assert PathSealed(v);
    assert Admitted(v);
    assert Signed(v);
  }

  /** Nothing the invariant reads has changed: the clock, the hub, the clusters or the object's end. */
  lemma AsideKeeps(w: World, v: World)
    requires Inv(w)
    requires v.versions == w.versions && v.argoNamespace == w.argoNamespace && v.nextRv == w.nextRv
    requires v.apps == w.apps && v.spokes == w.spokes
    requires w.hubReads <= v.hubReads && v.sealed == w.sealed && w.departures <= v.departures && v.log == w.log
    requires w.edited <= v.edited
    ensures Keeps(w, v)
  {
    hide DeleteRank, Find, Children, Present, Snapshot, CensusSafe;
    ResourcesUntouched(w, v);
    StepKeeps(w, v);
  }

  /** Whatever happens to Applications and spokes, as long as it is noted. */
  lemma NotedKeeps(w: World, v: World)
    requires Inv(w)
    requires v.versions == w.versions && v.argoNamespace == w.argoNamespace && w.nextRv <= v.nextRv
    requires w.hubReads <= v.hubReads && w.sealed <= v.sealed && v.departures == w.departures && v.log == w.log
    requires w.edited <= v.edited
    requires StoreOk(v) && Normal(v) && forall a :: Snapshot(w, a) ==> Snapshot(v, a)
    ensures Keeps(w, Noted(v))
  {
    hide DeleteRank, Find, Children, Snapshot, CensusSafe;
    var n := Noted(v);
    ResourcesUntouched(v, n);
    assert AheadOfPhase(n) ==> AheadOfPhase(v);
    forall s | s in n.sealed && Present(n, s.kind) ensures Betrayed(n.departures, s) {
      assert Present(v, s.kind);
    }
    StepKeeps(w, n);
  }

  /** Writing an Application gives it a version number of its own. */
  lemma WithAppFacts(w: World, a: App)
    requires StoreOk(w)
    ensures StoreOk(WithApp(w, a))
    ensures Normal(w) && Stored(a.spec) == a.spec ==> Normal(WithApp(w, a))
    ensures forall b :: Snapshot(w, b) ==> Snapshot(WithApp(w, a), b)
  {
    var a' := a.(rv := w.nextRv);
    var v := WithApp(w, a);
    ReplaceIsUpdate(w.apps, a');
    forall b | Snapshot(w, b) ensures Snapshot(v, b) {
      FindInReplaced(w.apps, a', b.id);
    }
  }

  lemma AddAppFacts(w: World, a: App)
    requires StoreOk(w) && Find(w.apps, a.id).None?
    ensures var v := w.(apps := w.apps + [a.(rv := w.nextRv)], nextRv := w.nextRv + 1);
            && StoreOk(v) && (forall b :: Snapshot(w, b) ==> Snapshot(v, b))
            && (Normal(w) && Stored(a.spec) == a.spec ==> Normal(v))
  {
    var a' := a.(rv := w.nextRv);
    var v := w.(apps := w.apps + [a'], nextRv := w.nextRv + 1);
    FindIsMember(w.apps, a.id);
    forall b | Snapshot(w, b) ensures Snapshot(v, b) {
      FindAfterAppend(w.apps, a', b.id);
    }
  }

  lemma RemoveAppKeeps(w: World, id: AppId)
    requires Inv(w)
    ensures Keeps(w, w.(apps := Remove(w.apps, id)))
  {
    hide DeleteRank, CensusSafe, Children;
    var v := w.(apps := Remove(w.apps, id));
    RemoveIsSubset(w.apps, id);
    forall b | Snapshot(w, b) ensures Snapshot(v, b) {
      FindAfterRemove(w.apps, id, b.id);
    }
    forall s | s in v.sealed && Present(v, s.kind) ensures Betrayed(v.departures, s) {
      var k := s.kind;
      if k.HubChildren? {
        PresentIsTracked(v, k.parent);
        PresentIsTracked(w, k.parent);
      } else {
        assert SpokesOf(v, k) == SpokesOf(w, k);
      }
    }
    StepKeeps(w, v);
  }

  lemma RemoveSpokeKeeps(w: World, s: SpokeApp)
    requires Inv(w)
    ensures Keeps(w, w.(spokes := w.spokes - {s}))
  {
    hide DeleteRank, Find, Children, Snapshot, CensusSafe;
    var v := w.(spokes := w.spokes - {s});
    assert forall b :: Snapshot(w, b) ==> Snapshot(v, b) by {
      SnapshotsReadApps(w, v);
    }
    forall x | x in v.sealed && Present(v, x.kind) ensures Betrayed(v.departures, x) {
      assert SpokesOf(v, x.kind) <= SpokesOf(w, x.kind);
    }
    StepKeeps(w, v);
  }

  lemma SnapshotsReadApps(w: World, v: World)
    requires v.apps == w.apps && v.nextRv == w.nextRv
    ensures forall b :: Snapshot(w, b) ==> Snapshot(v, b)
    ensures StoreOk(w) ==> StoreOk(v)
    ensures Normal(w) ==> Normal(v)
  {
  }

  /** An edit by others: admitted, or recorded as a departure. */
  lemma EditKeeps(w: World, p: Pattern)
    requires Inv(w)
    ensures Keeps(w, EditedBy(w, p))
  {
    hide StoreOk, Normal, EdgeHistory, SealsHold, PathSealed, CensusSafe, AheadOfPhase, Snapshot;
    var q := Edited(Current(w), p);
    var v := w.(departures := w.departures
                  + (if Unguards(Current(w), q) then {Unguarded} else {})
                  + (if Regroups(w, q) then {Regrouped} else {}),
                edited := w.edited + (if q == Current(w) then {} else {|w.versions|}));
    AsideKeeps(w, v);
    AppendMoves(v, q);
    AsideKeeps(Append(v, q), Collected(Append(v, q)));
    KeepsTransitive(w, v, Append(v, q));
    KeepsTransitive(w, Append(v, q), Collected(Append(v, q)));
  }

  lemma EventKeeps(w: World, e: Outside)
    requires Inv(w)
    ensures Keeps(w, Happens(w, e))
  {
    hide Inv, Find, Children, Present, Snapshot, Noted, StoreOk, Normal, Stored, EditedBy;
    assert StoreOk(w) && Normal(w) by { InvIsStoreOk(w); }
    match e {
      case EditPattern(p) =>
        if !w.gone {
          EditKeeps(w, p);
        } else {
          AsideKeeps(w, w);
        }
      case AddApp(a) =>
        if Find(w.apps, a.id).None? {
          var b := a.(spec := Stored(a.spec));
          StoredTwice(a.spec);
          AddAppFacts(w, b);
          NotedKeeps(w, w.(apps := w.apps + [b.(rv := w.nextRv)], nextRv := w.nextRv + 1));
        } else {
          AsideKeeps(w, w);
        }
      case EditApp(a) =>
        var b := a.(spec := Stored(a.spec));
        StoredTwice(a.spec);
        WithAppFacts(w, b);
        NotedKeeps(w, WithApp(w, b));
      case RemoveApp(id) => RemoveAppKeeps(w, id);
      case TakeOperation(id) =>
        var a := Find(w.apps, id);
        if a.Some? {
          FindIsMember(w.apps, id);
          assert Stored(a.value.spec) == a.value.spec by { NormalFind(w, id); }
          ServedWriteKeeps(w, a.value, a.value.(operation := None));
        } else {
          AsideKeeps(w, w);
        }
      case AddSpoke(s) =>
        SnapshotsReadApps(w, w.(spokes := w.spokes + {s}));
        NotedKeeps(w, w.(spokes := w.spokes + {s}));
      case RemoveSpoke(s) => RemoveSpokeKeeps(w, s);
      case AddCluster(name) => AsideKeeps(w, Happens(w, e));
      case RemoveCluster(name) => AsideKeeps(w, Happens(w, e));
      case SetHub(managed) => AsideKeeps(w, Happens(w, e));
    }
  }

  lemma InvIsStoreOk(w: World)
    requires Inv(w)
    ensures StoreOk(w) && Normal(w)
  {
  }

  lemma NormalFind(w: World, id: AppId)
    requires Normal(w) && Find(w.apps, id).Some?
    ensures Stored(Find(w.apps, id).value.spec) == Find(w.apps, id).value.spec
  {
    FindIsMember(w.apps, id);
  }

  /** Writing a stored Application with its tracking id kept and a spec that orders nothing new. */
  lemma ServedWriteKeeps(w: World, stored: App, a: App)
    requires Inv(w) && Find(w.apps, a.id) == Some(stored)
    requires a.tracking == stored.tracking && Stored(a.spec) == a.spec
    requires DeleteRank(a.spec) == DeleteRank(stored.spec)
             || (Clean(w) && Forged !in w.departures ==> DeleteRank(a.spec) <= PhaseOf(w).Rank())
    ensures Keeps(w, WithApp(w, a))
  {
    hide DeleteRank, CensusSafe, Children, Snapshot;
    var a' := a.(rv := w.nextRv);
    var v := WithApp(w, a);
    WithAppFacts(w, a);
    FindIsMember(w.apps, a.id);
    ReplaceIsUpdate(w.apps, a');
    forall s | s in v.sealed && Present(v, s.kind) ensures Betrayed(v.departures, s) {
      var k := s.kind;
      if k.HubChildren? {
        PresentIsTracked(v, k.parent);
        PresentIsTracked(w, k.parent);
        var x :| x in v.apps && TracksChild(x, k.parent);
        assert x in w.apps || (x == a' && TracksChild(stored, k.parent));
      } else {
        assert SpokesOf(v, k) == SpokesOf(w, k);
      }
    }
    if AheadOfPhase(v) {
      var x :| x in v.apps && DeleteRank(x.spec) > PhaseOf(v).Rank();
      if x in w.apps || DeleteRank(a.spec) == DeleteRank(stored.spec) {
        assert AheadOfPhase(w);
      }
    }
    StepKeeps(w, v);
  }

  lemma {:induction false} EventsKeep(w: World, es: seq<Outside>)
    requires Inv(w)
    ensures Keeps(w, HappenAll(w, es))
    decreases |es|
  {
    hide Inv, Happens, Snapshot;
    if es == [] {
      AsideKeeps(w, w);
    } else {
      EventKeeps(w, es[0]);
      EventsKeep(Happens(w, es[0]), es[1..]);
      KeepsTransitive(w, Happens(w, es[0]), HappenAll(w, es));
    }
  }

  lemma BeforeKeeps(w: World, o: Oracle)
    requires Inv(w)
    ensures Keeps(w, Before(w, o))
  {
    hide Inv, Happens, Snapshot;
    var v := HappenAll(w, o(w.clock).outside);
    EventsKeep(w, o(w.clock).outside);
    AsideKeeps(v, Before(w, o));
    KeepsTransitive(w, v, Before(w, o));
  }
}

/**
 The operator's side of the protocol as functions on the store: the steps of finalizeObject, the
 reconcile call around it, and runs of calls. The class Operator carries them out.
 */
module Protocol {
  import opened Wrappers
  import opened Patterns
  import opened Applications
  import opened Targets
  import opened Cluster

  // ---- Steps on Applications ----

  datatype Update = Unchanged | Written | WriteRefused

  /** Writes the target's spec over the Application's, if the comparer sees a difference. */
  function UpdateApplication(w: World, o: Oracle, t: Target, a: App): Step<Update> {
    if CompareApplication(Some(a.spec), Some(t.spec)) then Step(w, Unchanged)
    else
      var u := UpdateApp(w, o, a.(spec := t.spec), TargetWritten(a.id));
      Step(u.world, if u.out then Written else WriteRefused)
  }

  predicate Syncing(a: App, prune: bool) {
    && a.operation.Some? && a.operation.value.sync.Some?
    && a.operation.value.sync.value.prune == prune
    && FORCE in a.operation.value.sync.value.options
  }

  /** Asks Argo for a forced sync, unless that very sync is already requested. */
  function SyncApplication(w: World, o: Oracle, a: App, prune: bool): Step<bool> {
    if Syncing(a, prune) then Step(w, true)
    else
      UpdateApp(w, o, a.(operation := Some(Operation(Some(Sync(prune, [FORCE]))))),
                SyncRequested(a.id, prune, Answer(w, o) == Fine))
  }

  /** Syncs a list of Applications in order, up to the first failure. */
  function SyncAll(w: World, o: Oracle, apps: seq<App>, prune: bool): Step<Option<Error>>
    decreases |apps|
  {
    if apps == [] then Step(w, None)
    else
      var s := SyncApplication(w, o, apps[0], prune);
      if !s.out then Step(s.world, Some(SyncFailed(apps[0].id.name)))
      else SyncAll(s.world, o, apps[1..], prune)
  }

  // ---- Gates: what has to hold before a phase is left. None opens the gate. ----

  /** checkSpokeApplicationsGone, as (gone, error); only the first result is looked at. */
  function SpokesGone(answer: Search): (bool, Option<Error>) {
    match answer
    case Parsed(results) =>
      if results != [] && results[0] != {} then (false, Some(SpokeAppsRemain(results[0]))) else (true, None)
    case _ => (false, Some(SearchFailed))
  }

  /** The target is in place, it is being synced, and the listed children are being synced too. */
  function SyncParentAndChildren(w: World, o: Oracle, t: Target, a: App, pruneChildren: bool): Step<Option<Error>> {
    var u := UpdateApplication(w, o, t, a);
    match u.out
    case WriteRefused => Step(u.world, Some(TargetUpdateFailed))
    case Written => Step(u.world, Some(TargetUpdated))
    case Unchanged =>
      var s := SyncApplication(u.world, o, a, false);
      if !s.out then Step(s.world, Some(SyncFailed(a.id.name)))
      else
        var l := ListChildren(s.world, o, a.id.name);
        if l.out.None? then Step(l.world, Some(ListFailed))
        else SyncAll(l.world, o, l.out.value, pruneChildren)
  }

  function SpokeChildGate(w: World, o: Oracle, t: Target, a: App): Step<Option<Error>> {
    var s := SyncParentAndChildren(w, o, t, a, false);
    if s.out.Some? then s
    else
      var q := QuerySpokes(s.world, o, SpokeChildren);
      var (gone, err) := SpokesGone(q.out);
      Step(q.world, if err.Some? then err else if !gone then Some(WaitingForSpokes) else None)
  }

  /** This caller of the check ignores the boolean. */
  function SpokeGate(w: World, o: Oracle, t: Target, a: App): Step<Option<Error>> {
    var s := SyncParentAndChildren(w, o, t, a, true);
    if s.out.Some? then s
    else
      var q := QuerySpokes(s.world, o, SpokeParents);
      Step(q.world, SpokesGone(q.out).1)
  }

  /** listManagedClusters: every name but the hub's own. */
  function NotLocal(names: seq<string>): seq<string> {
    if names == [] then []
    else (if names[0] == LOCAL_CLUSTER then [] else [names[0]]) + NotLocal(names[1..])
  }

  /** The loop of deleteManagedClusters over a list: deletes accepted, and whether it got through. */
  function DeleteEach(w: World, o: Oracle, names: seq<string>, accepted: nat): Step<(nat, bool)>
    decreases |names|
  {
    if names == [] then Step(w, (accepted, true))
    else if names[0] == LOCAL_CLUSTER then DeleteEach(w, o, names[1..], accepted)
    else
      var d := DeleteCluster(w, o, names[0]);
      match d.out
      case Accepted => DeleteEach(d.world, o, names[1..], accepted + 1)
      case AlreadyGone => DeleteEach(d.world, o, names[1..], accepted)
      case DeletionRefused => Step(d.world, (accepted, false))
  }

  function DeleteManagedClusters(w: World, o: Oracle): Step<(nat, bool)> {
    var l := ListClusters(w, o);
    if l.out.None? then Step(l.world, (0, false)) else DeleteEach(l.world, o, l.out.value, 0)
  }

  /** Managed clusters go first, when the pattern is in charge of the hub; a failed list is empty. */
  function ClusterGate(w: World, o: Oracle): Step<Option<Error>> {
    var h := HaveHub(w, o);
    if !h.out then Step(h.world, None)
    else
      var l := ListClusters(h.world, o);
      if l.out.None? || NotLocal(l.out.value) == [] then Step(l.world, None)
      else
        var d := DeleteManagedClusters(l.world, o);
        Step(d.world,
             if !d.out.1 then Some(ClusterDeletionFailed(d.out.0))
             else if d.out.0 > 0 then Some(ClustersDeleting(d.out.0))
             else None)
  }

  /** Asks for the hub children to be deleted; never reports them gone. */
  function AskHubDeletion(w: World, o: Oracle, t: Target, a: App, children: nat): Step<Error> {
    var u := UpdateApplication(w, o, t, a);
    match u.out
    case WriteRefused => Step(u.world, TargetUpdateFailed)
    case Written => Step(u.world, TargetUpdated)
    case Unchanged =>
      var s := SyncApplication(u.world, o, a, true);
      Step(s.world, if s.out then WaitingForChildren(children) else SyncFailed(a.id.name))
  }

  /** Without children the gate opens at once, before clusters are looked at. */
  function HubGate(w: World, o: Oracle, t: Target, a: App): Step<Option<Error>> {
    var l := ListChildren(w, o, a.id.name);
    if l.out.None? then Step(l.world, Some(ListFailed))
    else if l.out.value == [] then Step(l.world, None)
    else
      var c := ClusterGate(l.world, o);
      if c.out.Some? then c
      else
        var h := AskHubDeletion(c.world, o, t, a, |l.out.value|);
        Step(h.world, Some(h.out))
  }

  // ---- finalizeObject ----

  /** updateDeletionPhase on the caller's copy, then the error that always ends the call. */
  function Advance(w: World, o: Oracle, c: Copy, to: Phase): Step<Option<Error>> {
    var s := WriteStatus(w, o, c.(obj := c.obj.(status := c.obj.status.(phase := to))));
    if s.out.None? then Step(s.world, Some(PhaseWriteFailed))
    else
      var r := ReadPattern(s.world, o);
      Step(r.world, Some(if r.out.Got? then Transition(to) else RefetchFailed))
  }

  function Through(g: Step<Option<Error>>, o: Oracle, c: Copy, to: Phase): Step<Option<Error>> {
    if g.out.Some? then g else Advance(g.world, o, c, to)
  }

  function PhaseStep(w: World, o: Oracle, c: Copy, t: Target, a: App): Step<Option<Error>> {
    match c.obj.status.phase
    case InitializeDeletion =>
      var h := HaveHub(w, o);
      Advance(h.world, o, c, if h.out then DeleteSpokeChildApps else DeleteHubChildApps)
    case DeleteSpokeChildApps => Through(SpokeChildGate(w, o, t, a), o, c, DeleteSpoke)
    case DeleteSpoke => Through(SpokeGate(w, o, t, a), o, c, DeleteHubChildApps)
    case DeleteHubChildApps => Through(HubGate(w, o, t, a), o, c, DeleteHub)
    case DeleteHub =>
      var d := DeleteApp(w, o, a.id);
      Step(d.world, if d.out then None else Some(RemoveFailed))
    case Unrecognized(_) => Step(w, None)
  }

  function Qualified(c: Copy, f: Facts): Copy {
    c.(obj := ApplyDefaults(c.obj, f))
  }

  /** None lets the finalizer go. The phase moves on a deep copy: c itself is not changed. */
  function Finalize(w: World, o: Oracle, c: Copy): Step<Option<Error>> {
    if !Prunes(c.obj) then Step(w, None)
    else
      var d := Defaults(w, o);
      if d.out.None? then Step(d.world, None)
      else
        var q := Qualified(c, d.out.value);
        var t := NewTarget(q.obj, d.out.value, w.argoNamespace);
        var g := GetApp(d.world, o, t.id);
        if g.out.None? || !OwnedBySame(t.owners, g.out.value.owners) then Step(g.world, None)
        else PhaseStep(g.world, o, q, t, g.out.value)
  }

  // ---- Reconcile ----

  datatype Outcome =
    | Done                       // nothing more to do
    | Requeue(seconds: nat)
    | Backoff                    // an error is returned

  /** actionPerformed: records the step on the given copy, whatever that copy's phase is. */
  function Record(w: World, o: Oracle, c: Copy, step: string, err: Option<Error>): Step<Outcome> {
    var s := WriteStatus(w, o, c.(obj := c.obj.(status := c.obj.status.(lastStep := step, lastError := err))));
    Step(s.world,
         if s.out.None? then Backoff
         else if err.Some? then Requeue(60)
         else if c.obj.deleting then Requeue(120)
         else Done)
  }

  function RemoveFinalizer(w: World, o: Oracle, c: Copy): Step<Outcome> {
    var u := WriteObject(w, o, c.(obj := c.obj.(finalizers := c.obj.finalizers - {PATTERN_FINALIZER})));
    Step(u.world, if u.out.None? then Backoff else Done)
  }

  function AddFinalizer(w: World, o: Oracle, c: Copy): Step<Outcome> {
    var u := WriteObject(w, o, c.(obj := c.obj.(finalizers := c.obj.finalizers + {PATTERN_FINALIZER})));
    match u.out
    case None => Record(u.world, o, c, "updated finalizer", Some(StepFailed("updated finalizer")))
    case Some(c') => Record(u.world, o, c', "updated finalizer", None)
  }

  datatype Applied = Converged | Acted(step: string, err: Option<Error>, versionBump: bool)

  /** reconcileApplication, up to the status write of its caller. */
  function ReconcileApplication(w: World, o: Oracle, t: Target): Step<Applied> {
    var g := GetApp(w, o, t.id);
    if g.out.None? then
      var c := CreateApp(g.world, o, t);
      Step(c.world, Acted("create application", if c.out then None else Some(StepFailed("create application")), false))
    else if OwnedBySame(t.owners, g.out.value.owners) then
      var u := UpdateApplication(g.world, o, t, g.out.value);
      match u.out
      case Unchanged => Step(u.world, Converged)
      case Written => Step(u.world, Acted("updated application", None, false))
      case WriteRefused => Step(u.world, Acted("updated application", Some(TargetUpdateFailed), true))
    else Step(g.world, Acted("create application", Some(NotOwned), false))
  }

  function Bumped(c: Copy, bump: bool): Copy {
    if bump then c.(obj := c.obj.(status := c.obj.status.(version := c.obj.status.version + 1))) else c
  }

  /** The rest of a call on a pattern that is not being deleted. */
  function Deploy(w: World, o: Oracle, c: Copy): Step<Outcome> {
    var d := Defaults(w, o);
    if d.out.None? then Record(d.world, o, c, "applying defaults", Some(StepFailed("applying defaults")))
    else
      var q := Qualified(c, d.out.value);
      var r := Routine(d.world, o);
      if r.out == Performed then Record(r.world, o, q, "prerequisites", None)
      else if r.out != Fine then Record(r.world, o, q, "prerequisites", Some(StepFailed("prerequisites")))
      else
        var a := ReconcileApplication(r.world, o, NewTarget(q.obj, d.out.value, w.argoNamespace));
        match a.out
        case Acted(step, err, bump) => Record(a.world, o, Bumped(q, bump), step, err)
        case Converged => Complete(a.world, o, q)
  }

  /** Reports the Applications' states if they changed, then completion; failures are only logged. */
  function Complete(w: World, o: Oracle, c: Copy): Step<Outcome> {
    var r := Routine(w, o);
    var step := if r.out == Performed then "update pattern application status" else c.obj.status.lastStep;
    var c1 := c.(obj := c.obj.(status := c.obj.status.(lastStep := step)));
    var u := if r.out == Performed then WriteStatus(r.world, o, c1) else Step(r.world, None);
    var c2 := u.out.GetOr(c1);
    if c2.obj.status.lastStep == "reconcile complete" && c2.obj.status.lastError.None? then Step(u.world, Requeue(180))
    else Step(Record(u.world, o, c2, "reconcile complete", None).world, Requeue(180))
  }

  function Handle(w: World, o: Oracle, c: Copy): Step<Outcome> {
    var r := Routine(w, o);
    if r.out != Fine then Record(r.world, o, c, "operator configuration", Some(StepFailed("operator configuration")))
    else if c.obj.deleting then
      var f := Finalize(r.world, o, c);
      if f.out.Some? then Record(f.world, o, c, "finalize", f.out) else RemoveFinalizer(f.world, o, c)
    else if PATTERN_FINALIZER !in c.obj.finalizers then AddFinalizer(r.world, o, c)
    else Deploy(r.world, o, c)
  }

  function Reconcile(w: World, o: Oracle): Step<Outcome> {
    var r := ReadPattern(w, o);
    match r.out
    case NotFound => Step(r.world, Done)
    case ReadFailed => Step(r.world, Backoff)
    case Got(c) => Handle(r.world, o, c)
  }

  /** A run: calls one after the other, with others at work between and within them. */
  function Run(w: World, o: Oracle, calls: nat): World
    decreases calls
  {
    if calls == 0 then w else Run(Reconcile(w, o).world, o, calls - 1)
  }
}

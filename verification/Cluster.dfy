/**
 The API store the operator shares with Argo CD, ACM and users, and the requests it sends there.

 Every request consumes one turn of an oracle. The turn says what others do just before the request
 is served, how it is answered, and how old a cached read is; so a statement about every oracle is a
 statement about every interleaving, every failure and every stale read.
 */
module Cluster {
  import opened Wrappers
  import opened Patterns
  import opened Applications
  import opened Targets

  const LOCAL_CLUSTER := "local-cluster"
  const FORCE := "Force=true"

  datatype Sync = Sync(prune: bool, options: seq<string>)
  datatype Operation = Operation(sync: Option<Sync>)

  datatype App = App(
    id: AppId,
    tracking: Option<string>,     // the argocd.argoproj.io/tracking-id annotation
    owners: seq<OwnerRef>,
    spec: AppSpec,
    operation: Option<Operation>,
    terminating: bool,
    rv: nat)

  datatype ManagedCluster = ManagedCluster(name: string, terminating: bool)

  /** The groups of resources whose absence opens a gate of the protocol. */
  datatype Kind = HubChildren(parent: string) | SpokeChildren | SpokeParents

  /** The answer to one of the operator's queries, sent at that turn, from which it concludes "gone". */
  datatype Seal = Seal(kind: Kind, turn: nat)

  /** What the protocol's promises do not survive, recorded when it happens. */
  datatype Departure =
    | Reappeared(seal: Seal)   // resources of the kind came back after they were counted and none was there
    | Uncounted(seal: Seal)    // the answer hid resources that were there all along
    | Unguarded                // others deleted the Pattern past the webhook, or took its finalizer or annotation
    | Regrouped                // others made the Pattern stand for another Application in the last phase
    | Forged                   // others made an Application order a deletion ahead of the recorded phase

  /** What exists at the moment the parent Application's delete is accepted. */
  datatype Census = Census(
    parent: string,
    phase: Phase,
    viaSpokes: bool,
    hubChildren: seq<App>,
    spokeChildren: set<SpokeApp>,
    spokeParents: set<SpokeApp>,
    sealed: set<Seal>,
    departures: set<Departure>)

  /** The requests that took effect, other than writes of the Pattern. */
  datatype Event =
    | TargetWritten(id: AppId)
    | SyncRequested(id: AppId, prune: bool, acknowledged: bool)
    | ClusterDeleted(name: string, acknowledged: bool)
    | AppDeleted(census: Census)

  datatype WorldState = World(
    versions: seq<Pattern>,     // every stored version; a version's index is its resourceVersion
    gone: bool,                 // the Pattern has left the store
    argoNamespace: string,
    apps: seq<App>,
    nextRv: nat,
    spokes: set<SpokeApp>,
    clusters: seq<ManagedCluster>,
    hub: Option<string>,        // the hub's "managed" annotation, None without a hub
    clock: nat,
    hubReads: set<bool>,        // the answers the operator got to "is the hub the pattern's?"
    sealed: set<Seal>,          // the operator's queries that reported a kind gone
    departures: set<Departure>,
    edited: set<nat>,           // the versions that others wrote
    log: seq<Event>)

  const NO_SPEC := Spec("", "", "", "", "", "", None, "", "", "", "", false, [], [], "")
  const NEW_PATTERN :=
    Pattern("", "", "", "", {}, false, NO_SPEC, Status("", None, 0, "", "", "", "", "", InitializeDeletion))

  type World = w: WorldState | |w.versions| > 0
    witness World([NEW_PATTERN], false, "", [], 0, {}, [], None, 0, {}, {}, {}, {}, [])

  function Top(w: World): nat {
    |w.versions| - 1
  }

  function Current(w: World): Pattern {
    w.versions[Top(w)]
  }

  function PhaseOf(w: World): Phase {
    Current(w).status.phase
  }

  // ---- Which resources exist ----

  predicate TracksChild(a: App, parent: string) {
    a.tracking.Some? && parent + ":argoproj.io/Application:" <= a.tracking.value
  }

  /** The Applications whose tracking id starts with the parent's prefix, in list order. */
  function Children(apps: seq<App>, parent: string): seq<App> {
    if apps == [] then []
    else (if TracksChild(apps[0], parent) then [apps[0]] else []) + Children(apps[1..], parent)
  }

  function SpokeKind(s: SpokeApp, argoNamespace: string): Kind {
    if s.namespace == argoNamespace then SpokeParents else SpokeChildren
  }

  function SpokesOf(w: World, kind: Kind): set<SpokeApp> {
    set s | s in w.spokes && s.cluster != LOCAL_CLUSTER && SpokeKind(s, w.argoNamespace) == kind
  }

  predicate Present(w: World, kind: Kind) {
    match kind
    case HubChildren(parent) => Children(w.apps, parent) != []
    case _ => SpokesOf(w, kind) != {}
  }

  function Find(apps: seq<App>, id: AppId): Option<App> {
    if apps == [] then None else if apps[0].id == id then Some(apps[0]) else Find(apps[1..], id)
  }

  function Replace(apps: seq<App>, a: App): (r: seq<App>)
    ensures |r| == |apps|
  {
    if apps == [] then []
    else if apps[0].id == a.id then [a] + apps[1..]
    else [apps[0]] + Replace(apps[1..], a)
  }

  function Remove(apps: seq<App>, id: AppId): seq<App> {
    if apps == [] then []
    else if apps[0].id == id then Remove(apps[1..], id)
    else [apps[0]] + Remove(apps[1..], id)
  }

  // ---- Others at work ----

  datatype Outside =
    | EditPattern(pattern: Pattern)
    | AddApp(app: App)
    | EditApp(app: App)
    | RemoveApp(id: AppId)
    | TakeOperation(id: AppId)    // Argo starts a requested sync
    | AddSpoke(spoke: SpokeApp)
    | RemoveSpoke(spoke: SpokeApp)
    | AddCluster(cluster: string)
    | RemoveCluster(cluster: string)
    | SetHub(managed: Option<string>)

  /** A write of the Pattern that changes nothing keeps the version. */
  function Append(w: World, p: Pattern): World {
    if p == Current(w) then w else w.(versions := w.versions + [p])
  }

  /** The object leaves the store with its last finalizer, once its deletion was asked for. */
  function Collected(w: World): World {
    w.(gone := w.gone || (Current(w).deleting && Current(w).finalizers == {}))
  }

  /** Anyone may edit a Pattern, except its identity, a deletion under way and the recorded phase. */
  function Edited(old_: Pattern, p: Pattern): Pattern {
    p.(name := old_.name, namespace := old_.namespace, uid := old_.uid,
       deleting := old_.deleting || p.deleting,
       status := p.status.(phase := old_.status.phase))
  }

  /** Past the webhook, or off the finalizer that holds a Pattern being deleted. */
  predicate Unguards(old_: Pattern, p: Pattern) {
    p.deleting && (!ValidateDelete(p) || (PATTERN_FINALIZER in old_.finalizers && PATTERN_FINALIZER !in p.finalizers))
  }

  /** To another Application, with the children of the first one gone and the parent next. */
  predicate Regroups(w: World, p: Pattern) {
    PhaseOf(w).DeleteHub? && AppName(p) != AppName(Current(w))
  }

  /** Someone edits the Pattern. */
  function EditedBy(w: World, p: Pattern): World {
    var q := Edited(Current(w), p);
    Collected(Append(
      w.(departures := w.departures
           + (if Unguards(Current(w), q) then {Unguarded} else {})
           + (if Regroups(w, q) then {Regrouped} else {}),
         edited := w.edited + (if q == Current(w) then {} else {|w.versions|})),
      q))
  }

  predicate AheadOfPhase(w: World) {
    exists a :: a in w.apps && DeleteRank(a.spec) > PhaseOf(w).Rank()
  }

  /** Something is there in spite of the answer, and it is recorded which way. */
  predicate Betrayed(departures: set<Departure>, s: Seal) {
    Reappeared(s) in departures || (!s.kind.HubChildren? && Uncounted(s) in departures)
  }

  /** Records what the environment has done against the protocol. */
  function Noted(w: World): World {
    w.(departures := w.departures
         + (set s | s in w.sealed && Present(w, s.kind) && !Betrayed(w.departures, s) :: Reappeared(s))
         + (if AheadOfPhase(w) then {Forged} else {}))
  }

  function WithApp(w: World, a: App): World {
    w.(apps := Replace(w.apps, a.(rv := w.nextRv)), nextRv := w.nextRv + 1)
  }

  function RemoveName(cs: seq<ManagedCluster>, name: string): seq<ManagedCluster> {
    if cs == [] then []
    else if cs[0].name == name then RemoveName(cs[1..], name)
    else [cs[0]] + RemoveName(cs[1..], name)
  }

  function Happens(w: World, e: Outside): World {
    match e
    case EditPattern(p) => if w.gone then w else EditedBy(w, p)
    case AddApp(a) =>
      if Find(w.apps, a.id).Some? then w
      else Noted(w.(apps := w.apps + [a.(rv := w.nextRv, spec := Stored(a.spec))], nextRv := w.nextRv + 1))
    case EditApp(a) => Noted(WithApp(w, a.(spec := Stored(a.spec))))
    case RemoveApp(id) => w.(apps := Remove(w.apps, id))
    case TakeOperation(id) =>
      var a := Find(w.apps, id);
      if a.None? then w else WithApp(w, a.value.(operation := None))
    case AddSpoke(s) => Noted(w.(spokes := w.spokes + {s}))
    case RemoveSpoke(s) => w.(spokes := w.spokes - {s})
    case AddCluster(name) => w.(clusters := w.clusters + [ManagedCluster(name, false)])
    case RemoveCluster(name) => w.(clusters := RemoveName(w.clusters, name))
    case SetHub(managed) => w.(hub := managed)
  }

  function HappenAll(w: World, es: seq<Outside>): World
    decreases |es|
  {
    if es == [] then w else HappenAll(Happens(w, es[0]), es[1..])
  }

  // ---- Requests ----

  datatype Reply =
    | Fine
    | Absent      // answered NotFound
    | Refused     // any other failure; nothing has happened
    | Lost        // the request took effect, and its answer was lost
    | Performed   // the step did something and asks to stop here
    | Shown(results: seq<set<SpokeApp>>)   // the search service answers 200 with these results

  datatype Turn = Turn(outside: seq<Outside>, reply: Reply, lag: nat, facts: Facts)
  type Oracle = nat -> Turn

  /** A request's effect on the store and its answer. */
  datatype Step<+T> = Step(world: World, out: T)

  /** A local copy of the Pattern, with the version it was read at. */
  datatype Copy = Copy(rv: nat, obj: Pattern)
  datatype Read = Got(copy: Copy) | NotFound | ReadFailed

  function Before(w: World, o: Oracle): World {
    HappenAll(w, o(w.clock).outside).(clock := w.clock + 1)
  }

  function Answer(w: World, o: Oracle): Reply {
    o(w.clock).reply
  }

  /** A read through the manager's cache: any stored version, however old. */
  function ReadPattern(w: World, o: Oracle): Step<Read> {
    var w1 := Before(w, o);
    var lag := o(w.clock).lag;
    match Answer(w, o)
    case Absent => Step(w1, NotFound)
    case Fine =>
      if lag == 0 && w1.gone then Step(w1, NotFound)
      else
        var rv := if lag <= Top(w1) then Top(w1) - lag else 0;
        Step(w1, Got(Copy(rv, w1.versions[rv])))
    case _ => Step(w1, ReadFailed)
  }

  /** The request reaches the store. */
  predicate Served(reply: Reply) {
    reply == Fine || reply == Lost
  }

  predicate Accepts(w: World, c: Copy) {
    !w.gone && c.rv == Top(w)
  }

  /** Status().Update: only the status is written, and only over the version that was read. */
  function WriteStatus(w: World, o: Oracle, c: Copy): Step<Option<Copy>> {
    var w1 := Before(w, o);
    if !Served(Answer(w, o)) || !Accepts(w1, c) then Step(w1, None)
    else
      var w2 := Append(w1, Current(w1).(status := c.obj.status));
      Step(w2, if Answer(w, o) == Fine then Some(Copy(Top(w2), Current(w2))) else None)
  }

  /** Update: metadata and spec are written, the status stays; same version check. */
  function WriteObject(w: World, o: Oracle, c: Copy): Step<Option<Copy>> {
    var w1 := Before(w, o);
    if !Served(Answer(w, o)) || !Accepts(w1, c) then Step(w1, None)
    else
      var w2 := Collected(Append(w1, c.obj.(deleting := Current(w1).deleting, status := Current(w1).status)));
      Step(w2, if Answer(w, o) == Fine then Some(Copy(Top(w2), Current(w2))) else None)
  }

  /** Live read through the Argo client. */
  function GetApp(w: World, o: Oracle, id: AppId): Step<Option<App>> {
    var w1 := Before(w, o);
    Step(w1, if Answer(w, o) == Fine then Find(w1.apps, id) else None)
  }

  /** Update of an Application, refused when it changed since it was read. */
  function UpdateApp(w: World, o: Oracle, a: App, e: Event): Step<bool> {
    var w1 := Before(w, o);
    var stored := Find(w1.apps, a.id);
    if !Served(Answer(w, o)) || stored.None? || stored.value.rv != a.rv then Step(w1, false)
    else Step(WithApp(w1, a.(spec := Stored(a.spec))).(log := w1.log + [e]), Answer(w, o) == Fine)
  }

  function CreateApp(w: World, o: Oracle, t: Target): Step<bool> {
    var w1 := Before(w, o);
    if !Served(Answer(w, o)) || Find(w1.apps, t.id).Some? then Step(w1, false)
    else
      var a := App(t.id, None, t.owners, Stored(t.spec), None, false, w1.nextRv);
      Step(w1.(apps := w1.apps + [a], nextRv := w1.nextRv + 1, log := w1.log + [TargetWritten(t.id)]),
           Answer(w, o) == Fine)
  }

  function ListChildren(w: World, o: Oracle, parent: string): Step<Option<seq<App>>> {
    var w1 := Before(w, o);
    if Answer(w, o) != Fine then Step(w1, None)
    else
      var found := Children(w1.apps, parent);
      Step(if found == [] then w1.(sealed := w1.sealed + {Seal(HubChildren(parent), w.clock)}) else w1, Some(found))
  }

  predicate Visited(w: World, phase: Phase) {
    exists i :: 0 <= i < |w.versions| && w.versions[i].status.phase == phase
  }

  function CensusOf(w: World, parent: string): Census {
    Census(parent, PhaseOf(w), Visited(w, DeleteSpokeChildApps),
           Children(w.apps, parent), SpokesOf(w, SpokeChildren), SpokesOf(w, SpokeParents), w.sealed, w.departures)
  }

  /** The delete is accepted at once; the Application goes when its finalizer has run. */
  function DeleteApp(w: World, o: Oracle, id: AppId): Step<bool> {
    var w1 := Before(w, o);
    var stored := Find(w1.apps, id);
    if !Served(Answer(w, o)) || stored.None? then Step(w1, false)
    else
      Step(WithApp(w1, stored.value.(terminating := true)).(log := w1.log + [AppDeleted(CensusOf(w1, id.name))]),
           Answer(w, o) == Fine)
  }

  datatype Search =
    | Unreachable                             // bad address, no token, transport or status error
    | Malformed
    | Parsed(results: seq<set<SpokeApp>>)

  /** No item in the first result, the only one looked at: none found, or an error in place of the items. */
  predicate Itemless(results: seq<set<SpokeApp>>) {
    results == [] || results[0] == {}
  }

  /** The results that go with an answer of the search, None for one without any. */
  function ResultsOf(reply: Reply, found: set<SpokeApp>): Option<seq<set<SpokeApp>>> {
    match reply
    case Fine => Some([found])
    case Shown(results) => Some(results)
    case _ => None
  }

  /**
   The ACM search: Applications on every cluster but the hub's own, by namespace. The service may
   answer with anything; an answer without items hides what is there.
   */
  function QuerySpokes(w: World, o: Oracle, kind: Kind): Step<Search> {
    var w1 := Before(w, o);
    var found := SpokesOf(w1, kind);
    var seal := Seal(kind, w.clock);
    var results := ResultsOf(Answer(w, o), found);
    if results.None? then Step(w1, if Answer(w, o) == Absent then Malformed else Unreachable)
    else if !Itemless(results.value) then Step(w1, Parsed(results.value))
    else
      Step(w1.(sealed := w1.sealed + {seal},
               departures := w1.departures + if found == {} then {} else {Uncounted(seal)}),
           Parsed(results.value))
  }

  /** Any failure to read the hub counts as "no hub managed by the pattern". */
  function HaveHub(w: World, o: Oracle): Step<bool> {
    var w1 := Before(w, o);
    var managed := Answer(w, o) == Fine && w1.hub.Some? && EqualFoldTrue(w1.hub.value);
    Step(w1.(hubReads := w1.hubReads + {managed}), managed)
  }

  function Names(cs: seq<ManagedCluster>): seq<string> {
    seq(|cs|, i requires 0 <= i < |cs| => cs[i].name)
  }

  function ListClusters(w: World, o: Oracle): Step<Option<seq<string>>> {
    var w1 := Before(w, o);
    Step(w1, if Answer(w, o) == Fine then Some(Names(w1.clusters)) else None)
  }

  function Terminate(cs: seq<ManagedCluster>, name: string): (r: seq<ManagedCluster>)
    ensures |r| == |cs|
  {
    seq(|cs|, i requires 0 <= i < |cs| => if cs[i].name == name then cs[i].(terminating := true) else cs[i])
  }

  datatype Deletion = Accepted | AlreadyGone | DeletionRefused

  function WithoutCluster(w: World, name: string, acknowledged: bool): World {
    w.(clusters := Terminate(w.clusters, name), log := w.log + [ClusterDeleted(name, acknowledged)])
  }

  function DeleteCluster(w: World, o: Oracle, name: string): Step<Deletion> {
    var w1 := Before(w, o);
    match Answer(w, o)
    case Absent => Step(w1, AlreadyGone)
    case Fine =>
      if name !in Names(w1.clusters) then Step(w1, AlreadyGone) else Step(WithoutCluster(w1, name, true), Accepted)
    case Lost =>
      Step(if name !in Names(w1.clusters) then w1 else WithoutCluster(w1, name, false), DeletionRefused)
    case _ => Step(w1, DeletionRefused)
  }

  /** A step that reads or prepares things the protocol does not track. */
  function Routine(w: World, o: Oracle): Step<Reply> {
    Step(Before(w, o), Answer(w, o))
  }

  /** applyDefaults: reads the cluster, and fails if any of the reads does. */
  function Defaults(w: World, o: Oracle): Step<Option<Facts>> {
    Step(Before(w, o), if Answer(w, o) == Fine then Some(o(w.clock).facts) else None)
  }
}

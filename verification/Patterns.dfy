/** The Pattern custom resource: the fields the deletion protocol and the Application builder read. */
module Patterns {
  import opened Wrappers

  const PATTERN_FINALIZER := "foregroundDeletePattern"
  const ORPHAN_FINALIZER := "orphan"
  const DEFAULT_HELM_REPO := "https://charts.validatedpatterns.io/"
  const GIT_HEAD := "HEAD"

  /** Status.DeletionPhase is a string in the resource; any text that is none of the five is kept. */
  datatype Phase =
    | InitializeDeletion
    | DeleteSpokeChildApps
    | DeleteSpoke
    | DeleteHubChildApps
    | DeleteHub
    | Unrecognized(text: string)
  {
    predicate Known() {
      !Unrecognized?
    }

    /** The place of a known phase in the protocol's order. */
    function Rank(): nat {
      match this
      case InitializeDeletion => 0
      case DeleteSpokeChildApps => 1
      case DeleteSpoke => 2
      case DeleteHubChildApps => 3
      case DeleteHub => 4
      case Unrecognized(_) => 5
    }
  }

  /** The transitions the code writes, and staying put. */
  predicate Edge(from: Phase, to: Phase) {
    || from == to
    || (from.InitializeDeletion? && (to.DeleteSpokeChildApps? || to.DeleteHubChildApps?))
    || (from.DeleteSpokeChildApps? && to.DeleteSpoke?)
    || (from.DeleteSpoke? && to.DeleteHubChildApps?)
    || (from.DeleteHubChildApps? && to.DeleteHub?)
  }

  datatype SpokeApp = SpokeApp(cluster: string, namespace: string, name: string)

  /** What status.lastError holds, one constructor for each message the protocol produces. */
  datatype Error =
    | Transition(to: Phase)
    | PhaseWriteFailed
    | RefetchFailed
    | TargetUpdated
    | TargetUpdateFailed
    | SyncFailed(app: string)
    | ListFailed
    | SearchFailed
    | SpokeAppsRemain(apps: set<SpokeApp>)
    | WaitingForSpokes
    | ClusterDeletionFailed(accepted: nat)
    | ClustersDeleting(accepted: nat)
    | WaitingForChildren(count: nat)
    | RemoveFailed
    | NotOwned
    | StepFailed(step: string)

  datatype Parameter = Parameter(name: string, value: string)

  datatype Spec = Spec(
    clusterGroup: string,
    variant: string,
    targetRepo: string,
    targetRevision: string,
    originRepo: string,
    tokenSecret: string,
    multiSource: Option<bool>,
    helmRepoUrl: string,
    chartGitUrl: string,
    chartGitRevision: string,
    chartVersion: string,
    manualSync: bool,
    extras: seq<Parameter>,
    extraValueFiles: seq<string>,
    capabilities: string)

  datatype Status = Status(
    lastStep: string,
    lastError: Option<Error>,
    version: nat,
    clusterName: string,
    appDomain: string,
    clusterDomain: string,
    clusterVersion: string,
    platform: string,
    phase: Phase)

  datatype Pattern = Pattern(
    name: string,
    namespace: string,
    uid: string,
    prune: string,             // the prune annotation; "" when it is absent
    finalizers: set<string>,
    deleting: bool,            // metadata.deletionTimestamp is set
    spec: Spec,
    status: Status)

  /** What the operator learns from the cluster and from the checked-out repository. */
  datatype Facts = Facts(
    clusterName: string,
    appDomain: string,
    clusterDomain: string,
    clusterVersion: string,
    platform: string,
    gitOpsNamespace: string,
    slimmedCommon: bool,
    variantsLayout: bool,
    sharedFiles: seq<string>)

  /** ASCII case folding, enough to compare with "true". */
  function Lower(c: char): char {
    if 'A' <= c <= 'Z' then c + 32 as char else c
  }

  predicate EqualFoldTrue(s: string) {
    |s| == 4 && Lower(s[0]) == 't' && Lower(s[1]) == 'r' && Lower(s[2]) == 'u' && Lower(s[3]) == 'e'
  }

  /** The text is "true" letter by letter, each in either case. */
  lemma FoldsToTrue(s: string)
    ensures EqualFoldTrue(s) <==>
      |s| == 4 && s[0] in {'t', 'T'} && s[1] in {'r', 'R'} && s[2] in {'u', 'U'} && s[3] in {'e', 'E'}
  {
    LowerIs('t', 'T');
    LowerIs('r', 'R');
    LowerIs('u', 'U');
    LowerIs('e', 'E');
  }

  lemma LowerIs(small: char, big: char)
    requires 'A' <= big <= 'Z' && small == big + 32 as char
    ensures forall c :: Lower(c) == small <==> c == small || c == big
  {
  }

  /** The cluster group the pattern stands for: spec.variant wins over spec.clusterGroupName. */
  function Group(p: Pattern): string {
    if p.spec.variant != "" then p.spec.variant else p.spec.clusterGroup
  }

  /** The name of the Application the pattern stands for. */
  function AppName(p: Pattern): string {
    p.name + "-" + Group(p)
  }

  /** The parent Application's name, from a pattern whose defaults are filled in. */
  function ApplicationName(p: Pattern): string {
    p.name + "-" + p.spec.clusterGroup
  }

  /** applyDefaults works on a deep copy, so a value is enough. */
  function ApplyDefaults(p: Pattern, f: Facts): (q: Pattern)
    ensures ApplicationName(q) == AppName(p)
    ensures q.status.phase == p.status.phase && q.spec.extras == p.spec.extras && q.deleting == p.deleting
  {
    p.(spec := p.spec.(
         targetRevision := if p.spec.targetRevision == "" then GIT_HEAD else p.spec.targetRevision,
         multiSource := if p.spec.multiSource.None? then Some(true) else p.spec.multiSource,
         clusterGroup := Group(p),
         helmRepoUrl := if p.spec.helmRepoUrl == "" then DEFAULT_HELM_REPO else p.spec.helmRepoUrl),
       status := p.status.(
         clusterName := f.clusterName,
         appDomain := f.appDomain,
         clusterDomain := f.clusterDomain,
         clusterVersion := f.clusterVersion,
         platform := f.platform))
  }

  /** The guard of the clean-up branch: prune annotation and one of the two finalizers. */
  predicate Prunes(p: Pattern) {
    EqualFoldTrue(p.prune) && (PATTERN_FINALIZER in p.finalizers || ORPHAN_FINALIZER in p.finalizers)
  }

  /** The admission webhook in front of kubectl delete. */
  predicate ValidateDelete(p: Pattern) {
    EqualFoldTrue(p.prune)
  }
}

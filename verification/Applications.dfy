/**
 Argo CD Applications: the fields the operator writes, the tree of comparers that decides whether
 an Application still matches its target, and the ownership test. A Go slice or pointer that may be
 nil is an Option, because the comparers tell nil from empty.
 */
module Applications {
  import opened Wrappers

  datatype HelmParameter = HelmParameter(name: string, value: string, forceString: bool)

  datatype Helm = Helm(
    valueFiles: Option<seq<string>>,
    parameters: Option<seq<HelmParameter>>,
    values: string,
    ignoreMissing: bool)

  datatype Source = Source(
    repoURL: string,
    targetRevision: string,
    path: string,
    chart: string,
    ref: string,
    helm: Option<Helm>)

  datatype Automated = Automated(prune: bool, allowEmpty: bool, selfHeal: bool)
  datatype Retry = Retry(limit: int)
  datatype SyncPolicy = SyncPolicy(
    automated: Option<Automated>,
    syncOptions: Option<seq<string>>,
    retry: Option<Retry>)

  datatype AppSpec = AppSpec(
    destination: string,
    namespace: string,
    project: string,
    source: Option<Source>,
    sources: Option<seq<Source>>,
    syncPolicy: Option<SyncPolicy>)

  // ---- The comparers, branch for branch ----

  predicate CompareApplication(goal: Option<AppSpec>, actual: Option<AppSpec>) {
    if goal.None? && actual.None? then true
    else if goal.None? != actual.None? then false
    else
      && CompareSource(goal.value.source, actual.value.source)
      && CompareSources(goal.value.sources, actual.value.sources)
      && CompareSyncPolicy(goal.value.syncPolicy, actual.value.syncPolicy)
  }

  predicate CompareSyncPolicy(goal: Option<SyncPolicy>, actual: Option<SyncPolicy>) {
    if goal.None? && actual.None? then true
    else if goal.None? != actual.None? then false
    else
      && CompareAutomated(goal.value.automated, actual.value.automated)
      && CompareSyncOptions(goal.value.syncOptions.GetOr([]), actual.value.syncOptions.GetOr([]))
      && CompareRetry(goal.value.retry, actual.value.retry)
  }

  predicate CompareAutomated(goal: Option<Automated>, actual: Option<Automated>) {
    if goal.None? && actual.None? then true
    else if goal.None? != actual.None? then false
    else
      && goal.value.prune == actual.value.prune
      && goal.value.allowEmpty == actual.value.allowEmpty
      && goal.value.selfHeal == actual.value.selfHeal
  }

  predicate CompareSyncOptions(goal: seq<string>, actual: seq<string>) {
    if |goal| == 0 && |actual| == 0 then true
    else if |goal| != |actual| then false
    else forall i :: 0 <= i < |goal| ==> goal[i] == actual[i]
  }

  predicate CompareRetry(goal: Option<Retry>, actual: Option<Retry>) {
    if goal.None? && actual.None? then true
    else if goal.None? != actual.None? then false
    else goal.value.limit == actual.value.limit
  }

  predicate CompareSource(goal: Option<Source>, actual: Option<Source>) {
    if goal.None? && actual.None? then true
    else if goal.None? != actual.None? then false
    else
      var g, a := goal.value, actual.value;
      && g.repoURL == a.repoURL
      && g.targetRevision == a.targetRevision
      && g.path == a.path
      && if g.helm.None? && a.helm.None? then true
         else if g.helm.None? || a.helm.None? then false
         else CompareHelm(g.helm.value, a.helm.value)
  }

  /** Two non-nil empty lists reach the zero-length test and compare unequal. */
  predicate CompareSources(goal: Option<seq<Source>>, actual: Option<seq<Source>>) {
    if goal.None? && actual.None? then true
    else if goal.None? != actual.None? then false
    else if |actual.value| != |goal.value| then false
    else if |actual.value| == 0 || |goal.value| == 0 then false
    else forall i :: 0 <= i < |actual.value| ==> CompareSource(Some(actual.value[i]), Some(goal.value[i]))
  }

  predicate CompareHelm(goal: Helm, actual: Helm) {
    && CompareValueFiles(goal.valueFiles, actual.valueFiles)
    && CompareParameters(goal.parameters, actual.parameters)
  }

  predicate CompareParameters(goal: Option<seq<HelmParameter>>, actual: Option<seq<HelmParameter>>) {
    if goal.None? && actual.None? then true
    else if goal.None? != actual.None? then false
    else if |goal.value| != |actual.value| then false
    else forall i :: 0 <= i < |goal.value| ==>
        && goal.value[i].name == actual.value[i].name
        && goal.value[i].value == actual.value[i].value
        && goal.value[i].forceString == actual.value[i].forceString
  }

  predicate CompareValueFiles(goal: Option<seq<string>>, actual: Option<seq<string>>) {
    if goal.None? && actual.None? then true
    else if goal.None? != actual.None? then false
    else if |goal.value| != |actual.value| then false
    else forall i :: 0 <= i < |goal.value| ==> goal.value[i] == actual.value[i]
  }

  // ---- What they compare: a projection ----

  datatype SourceView = SourceView(
    repoURL: string,
    targetRevision: string,
    path: string,
    helm: Option<(Option<seq<string>>, Option<seq<HelmParameter>>)>)

  datatype AppView = AppView(
    source: Option<SourceView>,
    sources: Option<seq<SourceView>>,
    policy: Option<(Option<Automated>, seq<string>, Option<Retry>)>)

  function ViewSource(s: Source): SourceView {
    SourceView(s.repoURL, s.targetRevision, s.path,
               if s.helm.None? then None else Some((s.helm.value.valueFiles, s.helm.value.parameters)))
  }

  function ViewSources(ss: seq<Source>): (v: seq<SourceView>)
    ensures |v| == |ss|
  {
    seq(|ss|, i requires 0 <= i < |ss| => ViewSource(ss[i]))
  }

  /** Everything compareApplication looks at; chart, ref, values, destination and project are absent. */
  function View(a: AppSpec): AppView {
    AppView(
      if a.source.None? then None else Some(ViewSource(a.source.value)),
      if a.sources.None? then None else Some(ViewSources(a.sources.value)),
      if a.syncPolicy.None? then None
      else Some((a.syncPolicy.value.automated, a.syncPolicy.value.syncOptions.GetOr([]), a.syncPolicy.value.retry)))
  }

  function ViewOf(a: Option<AppSpec>): Option<AppView> {
    if a.None? then None else Some(View(a.value))
  }

  /** The one shape on which the comparer is not reflexive. */
  predicate EmptySources(a: Option<AppSpec>) {
    a.Some? && a.value.sources == Some([])
  }

  lemma CompareSourceIsView(g: Source, a: Source)
    ensures CompareSource(Some(g), Some(a)) <==> ViewSource(g) == ViewSource(a)
  {
    if g.helm.Some? && a.helm.Some? {
      CompareHelmIsEquality(g.helm.value, a.helm.value);
    }
  }

  lemma CompareHelmIsEquality(g: Helm, a: Helm)
    ensures CompareHelm(g, a) <==> g.valueFiles == a.valueFiles && g.parameters == a.parameters
  {
    if g.parameters.Some? && a.parameters.Some? {
      assert CompareParameters(g.parameters, a.parameters) <==> g.parameters.value == a.parameters.value;
    }
    if g.valueFiles.Some? && a.valueFiles.Some? {
      assert CompareValueFiles(g.valueFiles, a.valueFiles) <==> g.valueFiles.value == a.valueFiles.value;
    }
  }

  lemma CompareSourcesIsView(g: seq<Source>, a: seq<Source>)
    ensures CompareSources(Some(g), Some(a)) <==> ViewSources(g) == ViewSources(a) && g != []
  {
    if |g| == |a| {
      forall i | 0 <= i < |g|
        ensures CompareSource(Some(a[i]), Some(g[i])) <==> ViewSources(g)[i] == ViewSources(a)[i]
      {
        CompareSourceIsView(a[i], g[i]);
      }
    }
  }

  /** The comparer answers true exactly on agreement of the compared fields, off the empty list. */
  lemma CompareIsView(goal: Option<AppSpec>, actual: Option<AppSpec>)
    ensures CompareApplication(goal, actual) <==> ViewOf(goal) == ViewOf(actual) && !EmptySources(goal)
  {
    if goal.Some? && actual.Some? {
      var g, a := goal.value, actual.value;
      if g.source.Some? && a.source.Some? {
        CompareSourceIsView(g.source.value, a.source.value);
      }
      if g.sources.Some? && a.sources.Some? {
        CompareSourcesIsView(g.sources.value, a.sources.value);
      }
      if g.syncPolicy.Some? && a.syncPolicy.Some? {
        var go, ao := g.syncPolicy.value.syncOptions.GetOr([]), a.syncPolicy.value.syncOptions.GetOr([]);
        assert CompareSyncOptions(go, ao) <==> go == ao;
      }
    }
  }

  /** Of one source, these fields and no others decide: a chart, a ref, values or a flag never count. */
  lemma WhatCountsInASource(g: Source, a: Source)
    ensures CompareSource(Some(g), Some(a)) <==>
      && a.repoURL == g.repoURL && a.targetRevision == g.targetRevision && a.path == g.path
      && a.helm.Some? == g.helm.Some?
      && (g.helm.Some? ==> a.helm.value.valueFiles == g.helm.value.valueFiles
                           && a.helm.value.parameters == g.helm.value.parameters)
  {
    CompareSourceIsView(g, a);
  }

  /** Symmetric and transitive everywhere; reflexive exactly off a non-nil empty Sources. */
  lemma CompareIsPartialEquivalence(a: Option<AppSpec>, b: Option<AppSpec>, c: Option<AppSpec>)
    ensures CompareApplication(a, b) <==> CompareApplication(b, a)
    ensures CompareApplication(a, b) && CompareApplication(b, c) ==> CompareApplication(a, c)
    ensures CompareApplication(a, a) <==> !EmptySources(a)
  {
    CompareIsView(a, b);
    CompareIsView(b, a);
    CompareIsView(b, c);
    CompareIsView(a, c);
    CompareIsView(a, a);
    if ViewOf(a) == ViewOf(b) && a.Some? && a.value.sources.Some? {
      assert |ViewSources(a.value.sources.value)| == |ViewSources(b.value.sources.value)|;
    }
  }

  // ---- What the API server gives back ----

  function NilIfEmpty<T>(s: Option<seq<T>>): Option<seq<T>> {
    if s == Some([]) then None else s
  }

  function StoredSource(s: Source): Source {
    if s.helm.None? then s
    else s.(helm := Some(s.helm.value.(
              valueFiles := NilIfEmpty(s.helm.value.valueFiles),
              parameters := NilIfEmpty(s.helm.value.parameters))))
  }

  function StoredSources(ss: seq<Source>): (r: seq<Source>)
    ensures |r| == |ss|
  {
    seq(|ss|, i requires 0 <= i < |ss| => StoredSource(ss[i]))
  }

  /** A stored object loses its empty lists: these fields are serialised with omitempty. */
  function Stored(a: AppSpec): AppSpec {
    a.(source := if a.source.None? then None else Some(StoredSource(a.source.value)),
       sources := if a.sources.None? then None
                  else NilIfEmpty(Some(StoredSources(a.sources.value))),
       syncPolicy := if a.syncPolicy.None? then None
                     else Some(a.syncPolicy.value.(syncOptions := NilIfEmpty(a.syncPolicy.value.syncOptions))))
  }

  /** Storing once is enough. */
  lemma StoredTwice(a: AppSpec)
    ensures Stored(Stored(a)) == Stored(a)
  {
    if a.sources.Some? {
      assert StoredSources(StoredSources(a.sources.value)) == StoredSources(a.sources.value);
    }
  }

  predicate NoEmptyHelm(s: Source) {
    s.helm.Some? ==> s.helm.value.valueFiles != Some([]) && s.helm.value.parameters != Some([])
  }

  /** A target that survives being stored: no list is empty, except the sync options. */
  predicate Storable(a: AppSpec) {
    && a.sources != Some([])
    && (a.source.Some? ==> NoEmptyHelm(a.source.value))
    && (a.sources.Some? ==> forall s :: s in a.sources.value ==> NoEmptyHelm(s))
  }

  /** The fixpoint behind convergence: what was written compares equal when it is read back. */
  lemma StoredComparesEqual(a: AppSpec)
    requires Storable(a)
    ensures CompareApplication(Some(Stored(a)), Some(a))
  {
    if a.sources.Some? {
      var stored := Stored(a).sources.value;
      assert |stored| == |a.sources.value|;
      forall i | 0 <= i < |stored| ensures ViewSources(stored)[i] == ViewSources(a.sources.value)[i] {
        assert a.sources.value[i] in a.sources.value;
      }
      assert ViewSources(stored) == ViewSources(a.sources.value);
    }
    CompareIsView(Some(Stored(a)), Some(a));
  }

  // ---- Ownership ----

  datatype OwnerRef = OwnerRef(apiVersion: string, kind: string, name: string, uid: string)

  function Slashes(s: string): nat {
    if s == "" then 0 else (if s[0] == '/' then 1 else 0) + Slashes(s[1..])
  }

  function Index(s: string, c: char): (i: int)
    ensures -1 <= i < |s|
    ensures i >= 0 ==> s[i] == c && c !in s[..i]
    ensures i < 0 <==> c !in s
  {
    if s == "" then -1
    else if s[0] == c then 0
    else
      var r := Index(s[1..], c);
      assert s == [s[0]] + s[1..];
      if r < 0 then -1 else
        assert s[..r + 1] == [s[0]] + s[1..][..r];
        r + 1
  }

  /** The (group, version) of an apiVersion, None for the malformed ones. */
  function ParseGroupVersion(gv: string): Option<(string, string)> {
    if gv == "" || gv == "/" then Some(("", ""))
    else if Slashes(gv) == 0 then Some(("", gv))
    else if Slashes(gv) == 1 then
      var i := Index(gv, '/');
      if i < 0 then None else Some((gv[..i], gv[i + 1..]))
    else None
  }

  predicate ReferSameObject(a: OwnerRef, b: OwnerRef) {
    var x, y := ParseGroupVersion(a.apiVersion), ParseGroupVersion(b.apiVersion);
    x.Some? && y.Some? && x.value == y.value && a.kind == b.kind && a.name == b.name && a.uid == b.uid
  }

  predicate OwnedBy(owners: seq<OwnerRef>, ref: OwnerRef) {
    exists r :: r in owners && ReferSameObject(r, ref)
  }

  predicate OwnedBySame(expected: seq<OwnerRef>, owners: seq<OwnerRef>) {
    forall r :: r in expected ==> OwnedBy(owners, r)
  }
}

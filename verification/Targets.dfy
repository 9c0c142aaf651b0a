/**
 The Application the operator wants: its Helm parameters, value files and sync policy, built from a
 Pattern whose defaults are filled in.
 */
module Targets {
  import opened Wrappers
  import opened Patterns
  import opened Applications

  const API_GROUP := "gitops.hybrid-cloud-patterns.io"
  const API_VERSION := "v1alpha1"
  const DELETE_PATTERN := "global.deletePattern"

  datatype AppId = AppId(namespace: string, name: string)
  datatype Target = Target(id: AppId, owners: seq<OwnerRef>, spec: AppSpec)

  // ---- Helm parameters ----

  function FormatBool(b: bool): string {
    if b then "true" else "false"
  }

  function Plain(name: string, value: string): HelmParameter {
    HelmParameter(name, value, false)
  }

  function ChartVersion(p: Pattern, f: Facts): string {
    if p.spec.chartVersion != "" then p.spec.chartVersion
    else if f.slimmedCommon then "0.9.*"
    else "0.8.*"
  }

  function BuiltIns(p: Pattern, f: Facts, argoNamespace: string): seq<HelmParameter> {
    [ Plain("global.pattern", p.name),
      Plain("global.namespace", p.namespace),
      Plain("global.repoURL", p.spec.targetRepo),
      Plain("global.originURL", p.spec.originRepo),
      Plain("global.targetRevision", p.spec.targetRevision),
      Plain("global.hubClusterDomain", p.status.appDomain),
      Plain("global.localClusterDomain", p.status.appDomain),
      Plain("global.clusterDomain", p.status.clusterDomain),
      Plain("global.clusterVersion", p.status.clusterVersion),
      Plain("global.clusterPlatform", p.status.platform),
      Plain("global.localClusterName", p.status.clusterName),
      Plain("global.privateRepo", FormatBool(p.spec.tokenSecret != "")),
      Plain("global.multiSourceSupport", FormatBool(p.spec.multiSource.GetOr(true))),
      Plain("global.multiSourceRepoUrl", p.spec.helmRepoUrl),
      Plain("global.experimentalCapabilities", p.spec.capabilities),
      Plain("global.gitOpsSubNamespace", f.gitOpsNamespace),
      Plain("global.vpArgoNamespace", argoNamespace),
      Plain("global.multiSourceTargetRevision", ChartVersion(p, f)) ]
    + if f.variantsLayout then [Plain("global.vpNewFolderDir", "true")] else []
  }

  predicate Named(ps: seq<HelmParameter>, name: string) {
    exists q :: q in ps && q.name == name
  }

  predicate Extra(extras: seq<Parameter>, name: string) {
    exists e :: e in extras && e.name == name
  }

  /** An extra whose name is taken is dropped, whatever its value. */
  function AddExtras(ps: seq<HelmParameter>, extras: seq<Parameter>): (r: seq<HelmParameter>)
    ensures ps <= r
    decreases |extras|
  {
    if extras == [] then ps
    else AddExtras(if Named(ps, extras[0].name) then ps else ps + [Plain(extras[0].name, extras[0].value)], extras[1..])
  }

  /** The value of the deletePattern parameter; the hub phase goes under another text. */
  function PhaseText(phase: Phase): string {
    match phase
    case InitializeDeletion => ""
    case DeleteSpokeChildApps => "DeleteSpokeChildApps"
    case DeleteSpoke => "DeleteSpoke"
    case DeleteHubChildApps => "DeleteChildApps"
    case DeleteHub => "DeleteHub"
    case Unrecognized(text) => text
  }

  function Parameters(p: Pattern, f: Facts, argoNamespace: string): (r: seq<HelmParameter>)
    ensures |r| >= 18
  {
    AddExtras(BuiltIns(p, f, argoNamespace), p.spec.extras)
    + if p.deleting then [HelmParameter(DELETE_PATTERN, PhaseText(p.status.phase), true)] else []
  }

  /** The search loop; the new value goes to the loop's own copy, so nothing outside changes. */
  method UpdateHelmParameter(goal: Parameter, actual: seq<HelmParameter>) returns (found: bool)
    ensures found <==> Named(actual, goal.name)
  {
    for i := 0 to |actual|
      invariant forall j :: 0 <= j < i ==> actual[j].name != goal.name
    {
      var param := actual[i];
      if goal.name == param.name {
        if goal.value == param.value {
          return true;
        }
        param := param.(value := goal.value);
        return true;
      }
    }
    return false;
  }

  method NewApplicationParameters(p: Pattern, f: Facts, argoNamespace: string) returns (parameters: seq<HelmParameter>)
    ensures PassesOnSpec(parameters, p, f) && PassesOnCluster(parameters, p, f, argoNamespace)
    ensures f.variantsLayout ==> Gives(parameters, "global.vpNewFolderDir", "true")
    ensures DistinctNames(parameters) <==> !(p.deleting && Extra(p.spec.extras, DELETE_PATTERN))
    ensures parameters == Parameters(p, f, argoNamespace)
  {
    hide BuiltIns, Gives, PassesOnSpec, PassesOnCluster, DistinctNames;
    SpecIsPassedOn(p, f, argoNamespace);
    ClusterIsPassedOn(p, f, argoNamespace);
    VariantsLayoutIsPassedOn(p, f, argoNamespace);
    ParameterNamesDistinct(p, f, argoNamespace);
    parameters := BuiltIns(p, f, argoNamespace);
    for i := 0 to |p.spec.extras|
      invariant AddExtras(parameters, p.spec.extras[i..]) == AddExtras(BuiltIns(p, f, argoNamespace), p.spec.extras)
    {
      var extra := p.spec.extras[i];
      assert p.spec.extras[i..][1..] == p.spec.extras[i + 1..];
      var found := UpdateHelmParameter(extra, parameters);
      if !found {
        parameters := parameters + [Plain(extra.name, extra.value)];
      }
    }
    if p.deleting {
      parameters := parameters + [HelmParameter(DELETE_PATTERN, PhaseText(p.status.phase), true)];
    }
    assert parameters == Parameters(p, f, argoNamespace);
  }

  // ---- What the list looks like ----

  predicate DistinctNames(ps: seq<HelmParameter>) {
    forall i, j :: 0 <= i < j < |ps| ==> ps[i].name != ps[j].name
  }

  lemma BuiltInsNamed(p: Pattern, f: Facts, argoNamespace: string)
    ensures var ps := BuiltIns(p, f, argoNamespace);
            && |ps| == (if f.variantsLayout then 19 else 18)
            && (forall i :: 0 <= i < |ps| ==> ps[i].name == BuiltInName(i) && BuiltInName(i) != DELETE_PATTERN)
            && (f.variantsLayout ==> ps[18] == HelmParameter("global.vpNewFolderDir", "true", false))
  {
  }

  lemma BuiltInsDistinct(p: Pattern, f: Facts, argoNamespace: string)
    ensures DistinctNames(BuiltIns(p, f, argoNamespace))
    ensures !Named(BuiltIns(p, f, argoNamespace), DELETE_PATTERN)
  {
    hide BuiltIns, BuiltInName;
    var ps := BuiltIns(p, f, argoNamespace);
    BuiltInsNamed(p, f, argoNamespace);
    forall i, j | 0 <= i < j < |ps| ensures ps[i].name != ps[j].name {
      BuiltInNamesDiffer(i, j);
    }
  }

  function BuiltInName(i: nat): string {
    if i < 18 then
      ["global.pattern", "global.namespace", "global.repoURL", "global.originURL", "global.targetRevision",
       "global.hubClusterDomain", "global.localClusterDomain", "global.clusterDomain", "global.clusterVersion",
       "global.clusterPlatform", "global.localClusterName", "global.privateRepo", "global.multiSourceSupport",
       "global.multiSourceRepoUrl", "global.experimentalCapabilities", "global.gitOpsSubNamespace",
       "global.vpArgoNamespace", "global.multiSourceTargetRevision"][i]
    else "global.vpNewFolderDir"
  }

  lemma BuiltInNamesDiffer(i: nat, j: nat)
    requires i < j < 19
    ensures BuiltInName(i) != BuiltInName(j)
  {
    var a, b := BuiltInName(i), BuiltInName(j);
    if |a| == |b| {
      assert a[7] != b[7] || a[18] != b[18];
    }
  }

  lemma {:induction false} AddExtrasKeepsDistinct(ps: seq<HelmParameter>, extras: seq<Parameter>)
    requires DistinctNames(ps)
    ensures DistinctNames(AddExtras(ps, extras))
    decreases |extras|
  {
    if extras != [] {
      var e := extras[0];
      AddExtrasKeepsDistinct(if Named(ps, e.name) then ps else ps + [Plain(e.name, e.value)], extras[1..]);
    }
  }

  lemma {:induction false} AddExtrasNames(ps: seq<HelmParameter>, extras: seq<Parameter>, name: string)
    ensures Named(AddExtras(ps, extras), name) <==> Named(ps, name) || Extra(extras, name)
    decreases |extras|
  {
    if extras != [] {
      var e := extras[0];
      var next := if Named(ps, e.name) then ps else ps + [Plain(e.name, e.value)];
      AddExtrasNames(next, extras[1..], name);
      assert Extra(extras, name) <==> e.name == name || Extra(extras[1..], name) by {
        assert extras == [e] + extras[1..];
      }
      if next != ps {
        assert Plain(e.name, e.value) in next;
        assert forall q :: q in ps ==> q in next;
      }
    }
  }

  lemma AppendKeepsDistinct(ps: seq<HelmParameter>, q: HelmParameter)
    requires DistinctNames(ps)
    ensures DistinctNames(ps + [q]) <==> !Named(ps, q.name)
  {
    var all := ps + [q];
    assert all[|ps|] == q;
    if Named(ps, q.name) {
      var i :| 0 <= i < |ps| && ps[i].name == q.name;
      assert all[i].name == all[|ps|].name;
    }
  }

  /** A name is listed twice exactly when the resource is going and an extra bears the reserved name. */
  lemma ParameterNamesDistinct(p: Pattern, f: Facts, argoNamespace: string)
    ensures DistinctNames(Parameters(p, f, argoNamespace)) <==> !(p.deleting && Extra(p.spec.extras, DELETE_PATTERN))
  {
    hide BuiltIns;
    var base := BuiltIns(p, f, argoNamespace);
    var listed := AddExtras(base, p.spec.extras);
    BuiltInsDistinct(p, f, argoNamespace);
    AddExtrasKeepsDistinct(base, p.spec.extras);
    AddExtrasNames(base, p.spec.extras, DELETE_PATTERN);
    if p.deleting {
      AppendKeepsDistinct(listed, HelmParameter(DELETE_PATTERN, PhaseText(p.status.phase), true));
    } else {
      assert Parameters(p, f, argoNamespace) == listed;
    }
  }

  /** How often a name occurs. */
  function Occurrences(ps: seq<HelmParameter>, name: string): nat {
    if ps == [] then 0 else (if ps[0].name == name then 1 else 0) + Occurrences(ps[1..], name)
  }

  lemma {:induction false} DistinctOccurrences(ps: seq<HelmParameter>, name: string)
    requires DistinctNames(ps)
    ensures Occurrences(ps, name) == if Named(ps, name) then 1 else 0
  {
    if ps != [] {
      assert ps == [ps[0]] + ps[1..];
      assert forall q :: q in ps[1..] ==> exists i :: 1 <= i < |ps| && ps[i] == q;
      DistinctOccurrences(ps[1..], name);
      if Named(ps[1..], name) {
        assert ps[0].name != name;
        assert Named(ps, name);
      }
    }
  }

  /** Every extra is listed once; the list opens with the built-in parameters, unchanged. */
  lemma ExtrasListedOnce(p: Pattern, f: Facts, argoNamespace: string, e: Parameter)
    requires e in p.spec.extras
    requires p.deleting ==> !Extra(p.spec.extras, DELETE_PATTERN)
    ensures BuiltIns(p, f, argoNamespace) <= Parameters(p, f, argoNamespace)
    ensures Occurrences(Parameters(p, f, argoNamespace), e.name) == 1
  {
    var ps := Parameters(p, f, argoNamespace);
    ParameterNamesDistinct(p, f, argoNamespace);
    DistinctOccurrences(ps, e.name);
    AddExtrasNames(BuiltIns(p, f, argoNamespace), p.spec.extras, e.name);
    assert Named(AddExtras(BuiltIns(p, f, argoNamespace), p.spec.extras), e.name);
    assert forall q :: q in AddExtras(BuiltIns(p, f, argoNamespace), p.spec.extras) ==> q in ps;
  }

  function FirstExtra(extras: seq<Parameter>, name: string): Option<string> {
    if extras == [] then None
    else if extras[0].name == name then Some(extras[0].value)
    else FirstExtra(extras[1..], name)
  }

  function FirstValue(ps: seq<HelmParameter>, name: string): Option<string> {
    if ps == [] then None
    else if ps[0].name == name then Some(ps[0].value)
    else FirstValue(ps[1..], name)
  }

  lemma {:induction false} FirstValueOfAppend(ps: seq<HelmParameter>, qs: seq<HelmParameter>, name: string)
    ensures FirstValue(ps + qs, name)
         == if FirstValue(ps, name).Some? then FirstValue(ps, name) else FirstValue(qs, name)
    ensures FirstValue(ps, name).Some? <==> Named(ps, name)
  {
    if ps == [] {
      assert ps + qs == qs;
    } else {
      assert (ps + qs)[1..] == ps[1..] + qs;
      FirstValueOfAppend(ps[1..], qs, name);
      assert ps == [ps[0]] + ps[1..];
    }
  }

  /** A name's value: the built-in one if there is one, else that of the first extra bearing it. */
  lemma {:induction false} FirstGiverWins(ps: seq<HelmParameter>, extras: seq<Parameter>, name: string)
    ensures FirstValue(AddExtras(ps, extras), name)
         == if Named(ps, name) then FirstValue(ps, name) else FirstExtra(extras, name)
    decreases |extras|
  {
    FirstValueOfAppend(ps, [], name);
    if extras != [] {
      var e := extras[0];
      FirstValueOfAppend(ps, [Plain(e.name, e.value)], name);
      assert FirstValue([Plain(e.name, e.value)], name) == if e.name == name then Some(e.value) else None;
      var next := if Named(ps, e.name) then ps else ps + [Plain(e.name, e.value)];
      FirstValueOfAppend(next, [], name);
      FirstGiverWins(next, extras[1..], name);
    }
  }

  // ---- What each name stands for ----

  /** The list gives the name exactly this value: once at least, and never another. */
  predicate Gives(ps: seq<HelmParameter>, name: string, value: string) {
    && FirstValue(ps, name) == Some(value)
    && forall q :: q in ps && q.name == name ==> q == HelmParameter(name, value, false)
  }

  /** A text that may be left out, and what stands for it then. */
  function OrElse(text: string, default: string): string {
    if text == "" then default else text
  }

  /** What the pattern says, whatever its extras. */
  predicate PassesOnSpec(ps: seq<HelmParameter>, p: Pattern, f: Facts) {
    && Gives(ps, "global.pattern", p.name)
    && Gives(ps, "global.namespace", p.namespace)
    && Gives(ps, "global.repoURL", p.spec.targetRepo)
    && Gives(ps, "global.originURL", p.spec.originRepo)
    && Gives(ps, "global.targetRevision", p.spec.targetRevision)
    && Gives(ps, "global.privateRepo", if p.spec.tokenSecret == "" then "false" else "true")
    && Gives(ps, "global.multiSourceSupport", if p.spec.multiSource == Some(false) then "false" else "true")
    && Gives(ps, "global.multiSourceRepoUrl", p.spec.helmRepoUrl)
    && Gives(ps, "global.experimentalCapabilities", p.spec.capabilities)
    && Gives(ps, "global.multiSourceTargetRevision",
             OrElse(p.spec.chartVersion, if f.slimmedCommon then "0.9.*" else "0.8.*"))
  }

  /** What the operator found out about the cluster, whatever the extras. */
  predicate PassesOnCluster(ps: seq<HelmParameter>, p: Pattern, f: Facts, argoNamespace: string) {
    && Gives(ps, "global.hubClusterDomain", p.status.appDomain)
    && Gives(ps, "global.localClusterDomain", p.status.appDomain)
    && Gives(ps, "global.clusterDomain", p.status.clusterDomain)
    && Gives(ps, "global.clusterVersion", p.status.clusterVersion)
    && Gives(ps, "global.clusterPlatform", p.status.platform)
    && Gives(ps, "global.localClusterName", p.status.clusterName)
    && Gives(ps, "global.gitOpsSubNamespace", f.gitOpsNamespace)
    && Gives(ps, "global.vpArgoNamespace", argoNamespace)
  }

  lemma {:induction false} OnlyFirst(ps: seq<HelmParameter>, i: nat)
    requires DistinctNames(ps) && i < |ps| && !ps[i].forceString
    ensures Gives(ps, ps[i].name, ps[i].value)
  {
    if i > 0 {
      assert ps == [ps[0]] + ps[1..];
      assert DistinctNames(ps[1..]) && ps[1..][i - 1] == ps[i] && ps[0].name != ps[i].name;
      OnlyFirst(ps[1..], i - 1);
    }
  }

  lemma GivenInLonger(ps: seq<HelmParameter>, q: HelmParameter, name: string, value: string)
    requires Gives(ps, name, value) && q.name != name
    ensures Gives(ps + [q], name, value)
  {
    FirstValueOfAppend(ps, [q], name);
  }

  lemma BuiltInGiven(p: Pattern, f: Facts, argoNamespace: string, i: nat, name: string, value: string)
    requires i < |BuiltIns(p, f, argoNamespace)|
      && BuiltIns(p, f, argoNamespace)[i] == HelmParameter(name, value, false)
    ensures Gives(Parameters(p, f, argoNamespace), name, value)
  {
    hide BuiltIns, Gives;
    var base := BuiltIns(p, f, argoNamespace);
    var listed := AddExtras(base, p.spec.extras);
    BuiltInsDistinct(p, f, argoNamespace);
    AddExtrasKeepsDistinct(base, p.spec.extras);
    assert listed[i] == base[i] && base[i] in base;
    OnlyFirst(listed, i);
    if p.deleting {
      GivenInLonger(listed, HelmParameter(DELETE_PATTERN, PhaseText(p.status.phase), true), name, value);
    } else {
      assert Parameters(p, f, argoNamespace) == listed;
    }
  }

  lemma SpecEntries(p: Pattern, f: Facts, argoNamespace: string)
    ensures var ps := BuiltIns(p, f, argoNamespace);
            && |ps| >= 18
            && ps[0] == HelmParameter("global.pattern", p.name, false)
            && ps[1] == HelmParameter("global.namespace", p.namespace, false)
            && ps[2] == HelmParameter("global.repoURL", p.spec.targetRepo, false)
            && ps[3] == HelmParameter("global.originURL", p.spec.originRepo, false)
            && ps[4] == HelmParameter("global.targetRevision", p.spec.targetRevision, false)
  {
  }

  lemma OptionEntries(p: Pattern, f: Facts, argoNamespace: string)
    ensures var ps := BuiltIns(p, f, argoNamespace);
            && |ps| >= 18
            && ps[11] == HelmParameter("global.privateRepo",
                                       if p.spec.tokenSecret == "" then "false" else "true", false)
            && ps[12] == HelmParameter("global.multiSourceSupport",
                                       if p.spec.multiSource == Some(false) then "false" else "true", false)
            && ps[13] == HelmParameter("global.multiSourceRepoUrl", p.spec.helmRepoUrl, false)
            && ps[14] == HelmParameter("global.experimentalCapabilities", p.spec.capabilities, false)
            && ps[17] == HelmParameter("global.multiSourceTargetRevision",
                                       OrElse(p.spec.chartVersion, if f.slimmedCommon then "0.9.*" else "0.8.*"), false)
  {
  }

  lemma SpecIsPassedOn(p: Pattern, f: Facts, argoNamespace: string)
    ensures PassesOnSpec(Parameters(p, f, argoNamespace), p, f)
  {
    hide BuiltIns, Parameters, Gives;
    SpecEntries(p, f, argoNamespace);
    OptionEntries(p, f, argoNamespace);
    BuiltInGiven(p, f, argoNamespace, 0, "global.pattern", p.name);
    BuiltInGiven(p, f, argoNamespace, 1, "global.namespace", p.namespace);
    BuiltInGiven(p, f, argoNamespace, 2, "global.repoURL", p.spec.targetRepo);
    BuiltInGiven(p, f, argoNamespace, 3, "global.originURL", p.spec.originRepo);
    BuiltInGiven(p, f, argoNamespace, 4, "global.targetRevision", p.spec.targetRevision);
    BuiltInGiven(p, f, argoNamespace, 11, "global.privateRepo", if p.spec.tokenSecret == "" then "false" else "true");
    BuiltInGiven(p, f, argoNamespace, 12, "global.multiSourceSupport",
                 if p.spec.multiSource == Some(false) then "false" else "true");
    BuiltInGiven(p, f, argoNamespace, 13, "global.multiSourceRepoUrl", p.spec.helmRepoUrl);
    BuiltInGiven(p, f, argoNamespace, 14, "global.experimentalCapabilities", p.spec.capabilities);
    BuiltInGiven(p, f, argoNamespace, 17, "global.multiSourceTargetRevision",
                 OrElse(p.spec.chartVersion, if f.slimmedCommon then "0.9.*" else "0.8.*"));
  }

  lemma ClusterEntries(p: Pattern, f: Facts, argoNamespace: string)
    ensures var ps := BuiltIns(p, f, argoNamespace);
            && |ps| >= 18
            && ps[5] == HelmParameter("global.hubClusterDomain", p.status.appDomain, false)
            && ps[6] == HelmParameter("global.localClusterDomain", p.status.appDomain, false)
            && ps[7] == HelmParameter("global.clusterDomain", p.status.clusterDomain, false)
            && ps[8] == HelmParameter("global.clusterVersion", p.status.clusterVersion, false)
            && ps[9] == HelmParameter("global.clusterPlatform", p.status.platform, false)
            && ps[10] == HelmParameter("global.localClusterName", p.status.clusterName, false)
            && ps[15] == HelmParameter("global.gitOpsSubNamespace", f.gitOpsNamespace, false)
            && ps[16] == HelmParameter("global.vpArgoNamespace", argoNamespace, false)
  {
  }

  lemma ClusterIsPassedOn(p: Pattern, f: Facts, argoNamespace: string)
    ensures PassesOnCluster(Parameters(p, f, argoNamespace), p, f, argoNamespace)
  {
    hide BuiltIns, Parameters, Gives;
    ClusterEntries(p, f, argoNamespace);
    BuiltInGiven(p, f, argoNamespace, 5, "global.hubClusterDomain", p.status.appDomain);
    BuiltInGiven(p, f, argoNamespace, 6, "global.localClusterDomain", p.status.appDomain);
    BuiltInGiven(p, f, argoNamespace, 7, "global.clusterDomain", p.status.clusterDomain);
    BuiltInGiven(p, f, argoNamespace, 8, "global.clusterVersion", p.status.clusterVersion);
    BuiltInGiven(p, f, argoNamespace, 9, "global.clusterPlatform", p.status.platform);
    BuiltInGiven(p, f, argoNamespace, 10, "global.localClusterName", p.status.clusterName);
    BuiltInGiven(p, f, argoNamespace, 15, "global.gitOpsSubNamespace", f.gitOpsNamespace);
    BuiltInGiven(p, f, argoNamespace, 16, "global.vpArgoNamespace", argoNamespace);
  }

  /** The parameter of the variants layout is built in exactly when the repository has that layout. */
  lemma VariantsLayoutIsPassedOn(p: Pattern, f: Facts, argoNamespace: string)
    ensures Named(BuiltIns(p, f, argoNamespace), "global.vpNewFolderDir") <==> f.variantsLayout
    ensures f.variantsLayout ==> Gives(Parameters(p, f, argoNamespace), "global.vpNewFolderDir", "true")
  {
    hide BuiltIns, Parameters, Gives;
    var base := BuiltIns(p, f, argoNamespace);
    BuiltInsNamed(p, f, argoNamespace);
    if f.variantsLayout {
      assert base[18] in base;
      BuiltInGiven(p, f, argoNamespace, 18, "global.vpNewFolderDir", "true");
    } else {
      forall q | q in base ensures q.name != "global.vpNewFolderDir" {
        var i :| 0 <= i < |base| && base[i] == q;
        BuiltInNamesDiffer(i, 18);
      }
    }
  }

  // ---- Value files, sync policy, sources ----

  function StripSlash(s: string): string {
    if s != "" && s[0] == '/' then s[1..] else s
  }

  function ValueFiles(p: Pattern, f: Facts, prefix: string): (r: seq<string>)
    ensures |r| >= 7
  {
    var v := p.spec.clusterGroup;
    var dir := if f.variantsLayout then prefix + "/variants/" + v + "/values-" else prefix + "/values-";
    [ prefix + "/values-global.yaml",
      dir + v + ".yaml",
      dir + p.status.platform + ".yaml",
      dir + p.status.platform + "-" + p.status.clusterVersion + ".yaml",
      dir + p.status.platform + "-" + v + ".yaml",
      dir + p.status.clusterVersion + "-" + v + ".yaml",
      dir + p.status.clusterName + ".yaml" ]
    + seq(|p.spec.extraValueFiles|, i requires 0 <= i < |p.spec.extraValueFiles| =>
        prefix + "/" + StripSlash(p.spec.extraValueFiles[i]))
    + f.sharedFiles
  }

  function NestedExtras(extras: seq<Parameter>): string {
    if extras == [] then "" else "  " + extras[0].name + ": " + extras[0].value + "\n" + NestedExtras(extras[1..])
  }

  function HelmOf(p: Pattern, f: Facts, argoNamespace: string, prefix: string): Helm {
    Helm(Some(ValueFiles(p, f, prefix)),
         Some(Parameters(p, f, argoNamespace)),
         "extraParametersNested:\n" + NestedExtras(p.spec.extras),
         true)
  }

  /** Deleting: prune automatically. Otherwise self-heal, unless the user syncs by hand. */
  function CommonSyncPolicy(p: Pattern): Option<SyncPolicy> {
    if p.deleting then Some(SyncPolicy(Some(Automated(true, false, false)), Some(["Prune=true"]), None))
    else if !p.spec.manualSync then Some(SyncPolicy(Some(Automated(false, false, true)), Some([]), Some(Retry(20))))
    else None
  }

  function CommonApplicationSpec(p: Pattern, sources: seq<Source>): AppSpec {
    var one := |sources| == 1;
    AppSpec("in-cluster", p.namespace, "default",
            if one then Some(sources[0]) else None,
            if one then None else Some(sources),
            CommonSyncPolicy(p))
  }

  function SingleSource(p: Pattern, f: Facts, argoNamespace: string): seq<Source> {
    [ Source(p.spec.targetRepo, p.spec.targetRevision, "common/clustergroup", "", "",
             Some(HelmOf(p, f, argoNamespace, ""))) ]
  }

  function MultiSource(p: Pattern, f: Facts, argoNamespace: string): seq<Source> {
    var helm := Some(HelmOf(p, f, argoNamespace, "$patternref"));
    [ Source(p.spec.targetRepo, p.spec.targetRevision, "", "", "patternref", None),
      if p.spec.chartGitUrl == ""
      then Source(p.spec.helmRepoUrl, ChartVersion(p, f), "", "clustergroup", "", helm)
      else Source(p.spec.chartGitUrl, p.spec.chartGitRevision, ".", "", "", helm) ]
  }

  /** SetOwnerReference refuses an owner in another namespace, and its error is thrown away. */
  function OwnersOf(p: Pattern, argoNamespace: string): seq<OwnerRef> {
    if p.namespace != "" && p.namespace != argoNamespace then []
    else [OwnerRef(API_GROUP + "/" + API_VERSION, "Pattern", p.name, p.uid)]
  }

  function NewTarget(p: Pattern, f: Facts, argoNamespace: string): Target {
    Target(AppId(argoNamespace, ApplicationName(p)),
           OwnersOf(p, argoNamespace),
           CommonApplicationSpec(p,
             if p.spec.multiSource.GetOr(true) then MultiSource(p, f, argoNamespace)
             else SingleSource(p, f, argoNamespace)))
  }

  /** The builder never yields the shape on which the comparer is not reflexive, before or after storing. */
  lemma TargetSettles(p: Pattern, f: Facts, argoNamespace: string)
    ensures var spec := NewTarget(p, f, argoNamespace).spec;
            CompareApplication(Some(spec), Some(spec)) && CompareApplication(Some(Stored(spec)), Some(spec))
  {
    var spec := NewTarget(p, f, argoNamespace).spec;
    assert Storable(spec);
    StoredComparesEqual(spec);
    CompareIsPartialEquivalence(Some(spec), Some(spec), Some(spec));
  }

  /** A pattern outside Argo's namespace leaves the target without owners, and the test passes for anyone. */
  lemma CrossNamespaceOwnsAll(p: Pattern, f: Facts, argoNamespace: string, owners: seq<OwnerRef>)
    ensures OwnedBySame(NewTarget(p, f, argoNamespace).owners, owners)
      <==> || (p.namespace != "" && p.namespace != argoNamespace)
           || exists r :: r in owners && ParseGroupVersion(r.apiVersion) == Some((API_GROUP, API_VERSION))
                          && r.kind == "Pattern" && r.name == p.name && r.uid == p.uid
  {
    if p.namespace == "" || p.namespace == argoNamespace {
      OneSlash(API_GROUP, API_VERSION);
      var ref := OwnersOf(p, argoNamespace)[0];
      assert ParseGroupVersion(ref.apiVersion) == Some((API_GROUP, API_VERSION));
      assert OwnedBySame(NewTarget(p, f, argoNamespace).owners, owners) <==> OwnedBy(owners, ref);
    }
  }

  lemma {:induction false} NoSlash(s: string)
    requires '/' !in s
    ensures Slashes(s) == 0
  {
    if s != "" {
      assert s[0] in s && forall c :: c in s[1..] ==> c in s;
      NoSlash(s[1..]);
    }
  }

  lemma {:induction false} SlashesOfAppend(s: string, t: string)
    ensures Slashes(s + t) == Slashes(s) + Slashes(t)
  {
    if s == "" {
      assert s + t == t;
    } else {
      assert (s + t)[1..] == s[1..] + t;
      SlashesOfAppend(s[1..], t);
    }
  }

  lemma OneSlash(group: string, version: string)
    requires '/' !in group && '/' !in version && group != ""
    ensures ParseGroupVersion(group + "/" + version) == Some((group, version))
  {
    var gv := group + "/" + version;
    NoSlash(group);
    NoSlash(version);
    SlashesOfAppend(group + "/", version);
    SlashesOfAppend(group, "/");
    assert Slashes("/") == 1;
    assert gv[|group|] == '/';
    var i := Index(gv, '/');
    assert forall k :: 0 <= k < |group| ==> gv[k] == group[k] && gv[k] in group;
    assert i <= |group| by {
      assert forall k :: 0 <= k < i ==> gv[k] == gv[..i][k];
    }
    assert gv[..i] == group && gv[i + 1..] == version;
  }

  // ---- What the target tells Argo to delete ----

  function SourceParameters(s: Source): seq<HelmParameter> {
    if s.helm.None? then [] else s.helm.value.parameters.GetOr([])
  }

  function AllParameters(ss: seq<Source>): seq<HelmParameter> {
    if ss == [] then [] else SourceParameters(ss[0]) + AllParameters(ss[1..])
  }

  function SpecParameters(a: AppSpec): seq<HelmParameter> {
    (if a.source.None? then [] else SourceParameters(a.source.value)) + AllParameters(a.sources.GetOr([]))
  }

  /** Helm takes the last of two equal names. */
  function LastValue(ps: seq<HelmParameter>, name: string): Option<string> {
    if ps == [] then None
    else if ps[|ps| - 1].name == name then Some(ps[|ps| - 1].value)
    else LastValue(ps[..|ps| - 1], name)
  }

  /** The place in the protocol that a deletePattern value stands for; unknown texts are after all. */
  function TextRank(v: Option<string>): nat {
    if v.None? || v.value == "" then 0
    else if v.value == "DeleteSpokeChildApps" then 1
    else if v.value == "DeleteSpoke" then 2
    else if v.value == "DeleteChildApps" then 3
    else if v.value == "DeleteHub" then 4
    else 5
  }

  function DeleteRank(a: AppSpec): nat {
    TextRank(LastValue(SpecParameters(a), DELETE_PATTERN))
  }

  lemma PhaseTextRank(phase: Phase)
    requires phase.Known()
    ensures TextRank(Some(PhaseText(phase))) == phase.Rank()
  {
    match phase {
      case InitializeDeletion =>
      case DeleteSpokeChildApps =>
      case DeleteSpoke => assert |"DeleteSpoke"| != |"DeleteSpokeChildApps"|;
      case DeleteHubChildApps => assert |"DeleteChildApps"| != |"DeleteSpokeChildApps"|
          && |"DeleteChildApps"| != |"DeleteSpoke"|;
      case DeleteHub =>
    }
  }

  lemma {:induction false} LastValueNamed(ps: seq<HelmParameter>, name: string)
    ensures LastValue(ps, name).Some? <==> Named(ps, name)
  {
    if ps != [] {
      var init := ps[..|ps| - 1];
      assert ps == init + [ps[|ps| - 1]];
      LastValueNamed(init, name);
    }
  }

  lemma {:induction false} AllParametersStored(ss: seq<Source>)
    ensures AllParameters(StoredSources(ss)) == AllParameters(ss)
  {
    if ss != [] {
      assert StoredSources(ss)[1..] == StoredSources(ss[1..]);
      AllParametersStored(ss[1..]);
    }
  }

  lemma StoredDeleteRank(a: AppSpec)
    ensures DeleteRank(Stored(a)) == DeleteRank(a)
  {
    if a.sources.Some? {
      AllParametersStored(a.sources.value);
      assert AllParameters(Stored(a).sources.GetOr([])) == AllParameters(a.sources.value);
    }
    assert SpecParameters(Stored(a)) == SpecParameters(a);
  }

  lemma TargetParameters(p: Pattern, f: Facts, argoNamespace: string)
    ensures SpecParameters(NewTarget(p, f, argoNamespace).spec) == Parameters(p, f, argoNamespace)
  {
    if p.spec.multiSource.GetOr(true) {
      var ss := MultiSource(p, f, argoNamespace);
      assert ss[1..][1..] == [];
      assert AllParameters(ss[1..]) == SourceParameters(ss[1]);
      assert AllParameters(ss) == Parameters(p, f, argoNamespace);
    }
  }

  /** Where no name repeats, the first of a name is the last. */
  lemma {:induction false} LastIsFirst(ps: seq<HelmParameter>, name: string)
    requires DistinctNames(ps)
    ensures LastValue(ps, name) == FirstValue(ps, name)
  {
    if ps != [] {
      var init, last := ps[..|ps| - 1], ps[|ps| - 1];
      assert ps == init + [last];
      AppendKeepsDistinct(init, last);
      LastIsFirst(init, name);
      FirstValueOfAppend(init, [last], name);
    }
  }

  lemma LastOfAppend(ps: seq<HelmParameter>, q: HelmParameter)
    ensures LastValue(ps + [q], q.name) == Some(q.value)
  {
  }

  /** The rank of the first extra that bears the reserved name; 0 when there is none or it says nothing. */
  function ExtraRank(p: Pattern): nat {
    TextRank(FirstExtra(p.spec.extras, DELETE_PATTERN))
  }

  /**
   Exactly what the built target orders deleted. Of a pattern being deleted: its recorded phase,
   whatever its extras. Of any other: what the first extra with the reserved name says.
   */
  lemma TargetDeleteRank(p: Pattern, f: Facts, argoNamespace: string)
    requires p.status.phase.Known()
    ensures DeleteRank(NewTarget(p, f, argoNamespace).spec)
         == if p.deleting then p.status.phase.Rank() else ExtraRank(p)
  {
    hide BuiltIns, TextRank, CommonApplicationSpec;
    var base := BuiltIns(p, f, argoNamespace);
    var listed := AddExtras(base, p.spec.extras);
    TargetParameters(p, f, argoNamespace);
    PhaseTextRank(p.status.phase);
    BuiltInsDistinct(p, f, argoNamespace);
    if p.deleting {
      LastOfAppend(listed, HelmParameter(DELETE_PATTERN, PhaseText(p.status.phase), true));
    } else {
      AddExtrasKeepsDistinct(base, p.spec.extras);
      FirstGiverWins(base, p.spec.extras, DELETE_PATTERN);
      LastIsFirst(listed, DELETE_PATTERN);
      assert Parameters(p, f, argoNamespace) == listed;
    }
  }

  // ---- The target of a Pattern as its owner wrote it ----

  /** What Helm is told where the Pattern is silent: the default, or what the cluster is. */
  lemma TargetTellsHelm(p: Pattern, f: Facts, argoNamespace: string)
    ensures var ps := SpecParameters(NewTarget(ApplyDefaults(p, f), f, argoNamespace).spec);
            && Gives(ps, "global.repoURL", p.spec.targetRepo)
            && Gives(ps, "global.originURL", p.spec.originRepo)
            && Gives(ps, "global.targetRevision", OrElse(p.spec.targetRevision, "HEAD"))
            && Gives(ps, "global.privateRepo", if p.spec.tokenSecret == "" then "false" else "true")
            && Gives(ps, "global.multiSourceSupport", if p.spec.multiSource == Some(false) then "false" else "true")
            && Gives(ps, "global.multiSourceRepoUrl",
                     OrElse(p.spec.helmRepoUrl, "https://charts.validatedpatterns.io/"))
            && Gives(ps, "global.hubClusterDomain", f.appDomain)
            && Gives(ps, "global.localClusterDomain", f.appDomain)
            && Gives(ps, "global.clusterDomain", f.clusterDomain)
            && Gives(ps, "global.clusterVersion", f.clusterVersion)
            && Gives(ps, "global.clusterPlatform", f.platform)
            && Gives(ps, "global.localClusterName", f.clusterName)
  {
    hide BuiltIns, Parameters, Gives, CommonApplicationSpec;
    var q := ApplyDefaults(p, f);
    TargetParameters(q, f, argoNamespace);
    SpecIsPassedOn(q, f, argoNamespace);
    ClusterIsPassedOn(q, f, argoNamespace);
  }

  /** Where Argo fetches from: the pattern's repository alone, or beside it the chart's own source. */
  lemma TargetFetches(p: Pattern, f: Facts, argoNamespace: string)
    ensures var t := NewTarget(ApplyDefaults(p, f), f, argoNamespace);
            var revision := OrElse(p.spec.targetRevision, "HEAD");
            && t.id == AppId(argoNamespace, p.name + "-" + OrElse(p.spec.variant, p.spec.clusterGroup))
            && t.spec.destination == "in-cluster" && t.spec.namespace == p.namespace && t.spec.project == "default"
            && if p.spec.multiSource == Some(false) then
                 && t.spec.sources.None? && t.spec.source.Some?
                 && var s := t.spec.source.value;
                    s.repoURL == p.spec.targetRepo && s.targetRevision == revision && s.path == "common/clustergroup"
               else
                 && t.spec.source.None? && t.spec.sources.Some? && |t.spec.sources.value| == 2
                 && var s, chart := t.spec.sources.value[0], t.spec.sources.value[1];
                    && s.repoURL == p.spec.targetRepo && s.targetRevision == revision && s.ref == "patternref"
                    && s.helm.None? && chart.helm.Some?
                    && chart.repoURL == OrElse(p.spec.chartGitUrl,
                                               OrElse(p.spec.helmRepoUrl, "https://charts.validatedpatterns.io/"))
                    && (p.spec.chartGitUrl != "" <==> chart.chart == "" && chart.path == ".")
                    && (p.spec.chartGitUrl == "" <==> chart.chart == "clustergroup" && chart.path == "")
                    && chart.targetRevision ==
                         if p.spec.chartGitUrl != "" then p.spec.chartGitRevision
                         else OrElse(p.spec.chartVersion, if f.slimmedCommon then "0.9.*" else "0.8.*")
  {
    hide HelmOf;
  }

  /**
   Argo prunes by itself exactly while the Pattern is being deleted, heals by itself exactly while it is
   not and its owner does not sync by hand, and never retries a deletion.
   */
  lemma TargetPolicy(p: Pattern, f: Facts, argoNamespace: string)
    ensures var policy := NewTarget(ApplyDefaults(p, f), f, argoNamespace).spec.syncPolicy;
            && (policy.None? <==> !p.deleting && p.spec.manualSync)
            && (policy.Some? ==>
                  && policy.value.automated.Some?
                  && (policy.value.automated.value.prune <==> p.deleting)
                  && (policy.value.automated.value.selfHeal <==> !p.deleting)
                  && !policy.value.automated.value.allowEmpty
                  && policy.value.syncOptions == Some(if p.deleting then ["Prune=true"] else [])
                  && policy.value.retry == if p.deleting then None else Some(Retry(20)))
  {
    hide HelmOf, MultiSource, SingleSource;
  }

  /** The file lies below the directory; a leading slash of its name is not doubled. */
  function Below(dir: string, file: string): string {
    if file != "" && file[0] == '/' then dir + file else dir + "/" + file
  }

  /**
   The values files, least specific first: those of the pattern, its group, platform, version and
   cluster, in the variant's directory if the repository has that layout; then the user's own, in
   order; then the shared ones.
   */
  lemma TargetReadsFiles(p: Pattern, f: Facts, prefix: string)
    ensures var files, v := ValueFiles(ApplyDefaults(p, f), f, prefix), OrElse(p.spec.variant, p.spec.clusterGroup);
            var dir := if f.variantsLayout then prefix + "/variants/" + v + "/values-" else prefix + "/values-";
            && |files| == 7 + |p.spec.extraValueFiles| + |f.sharedFiles|
            && files[0] == prefix + "/values-global.yaml"
            && files[1] == dir + v + ".yaml"
            && files[2] == dir + f.platform + ".yaml"
            && files[3] == dir + f.platform + "-" + f.clusterVersion + ".yaml"
            && files[4] == dir + f.platform + "-" + v + ".yaml"
            && files[5] == dir + f.clusterVersion + "-" + v + ".yaml"
            && files[6] == dir + f.clusterName + ".yaml"
            && (forall i :: 0 <= i < |p.spec.extraValueFiles| ==>
                  files[7 + i] == Below(prefix, p.spec.extraValueFiles[i]))
            && files[7 + |p.spec.extraValueFiles|..] == f.sharedFiles
  {
    forall i | 0 <= i < |p.spec.extraValueFiles|
      ensures prefix + "/" + StripSlash(p.spec.extraValueFiles[i]) == Below(prefix, p.spec.extraValueFiles[i])
    {
      SlashNotDoubled(prefix, p.spec.extraValueFiles[i]);
    }
  }

  lemma SlashNotDoubled(dir: string, file: string)
    ensures dir + "/" + StripSlash(file) == Below(dir, file)
  {
    if file != "" && file[0] == '/' {
      assert file == "/" + file[1..];
    }
  }
}

/** `buildDiagnosis` and the per-cluster enrichment of `diagnose_acm_policy`
    (pkg/mcpserver/diagnose_policy.go): which clusters of a policy are
    reported, and which issues each carries. */
module Diagnosis {
  import opened Wrappers
  import opened Strings
  import opened Json
  import opened Acm
  import opened DesiredStates
  import opened DiagnosePolicy

  /** A `clusterDiagnosis`. Like the issues, Go fills it in through a
      pointer to a local value and appends a copy. */
  datatype ClusterDiagnosis = ClusterDiagnosis(clusterName: string, complianceState: string, issues: seq<Issue>)

  /** The `diagnosis` a successful call returns. */
  datatype Diagnosis = Diagnosis(
    policyName: string,
    namespace: string,
    complianceState: string,
    clusters: seq<ClusterDiagnosis>,
    summary: Summary)

  /** The summary line, kept as the two counts it reports; `Text` renders
      it as `buildDiagnosis` formats it. */
  datatype Summary = Summary(totalIssues: nat, clusterCount: nat)
  {
    function Text(): string {
      "Found " + NatToString(totalIssues) + " issue(s) across " + NatToString(clusterCount) +
      " non-compliant cluster(s). Follow the suggested_tool_call in each issue to continue investigation."
    }
  }

  // ---------------------------------------------------------------------
  // Details of a policy's status

  /** What one element of `status.details` contributes. `Panic` is the
      single-value type assertion on `templateMeta`, which fails when the
      field is missing or not an object; the handler's deferred `recover`
      then ends the call without a result. */
  datatype DetailOutcome = Panic | Skip | Entry(templateName: string, msg: string)

  function OutcomeOf(d: Json): (r: DetailOutcome)
    ensures r.Entry? ==> Str(d, "compliant") != ComplianceCompliant && NestedSlice(d, ["history"]) != []
    ensures r.Panic? <==> d.JObject? && Obj(d, "templateMeta").None?
  {
    if !d.JObject? then Skip
    else
      match Field(d, "templateMeta")
      case Some(JObject(meta)) =>
        var templateName := Str(JObject(meta), "name");
        if Str(d, "compliant") == ComplianceCompliant then Skip
        else
          var history := NestedSlice(d, ["history"]);
          if |history| == 0 || !history[0].JObject? then Skip
          else Entry(templateName, Str(history[0], "message"))
      case _ => Panic
  }

  /** The (template, message) pairs a detail list yields, in order, or None
      when one of them panics. */
  function Entries(details: seq<Json>): Option<seq<(string, string)>>
  {
    if details == [] then Some([])
    else
      match Entries(details[..|details| - 1])
      case None => None
      case Some(es) =>
        match OutcomeOf(details[|details| - 1])
        case Panic => None
        case Skip => Some(es)
        case Entry(t, m) => Some(es + [(t, m)])
  }

  function Details(policy: Json): seq<Json> {
    NestedSlice(policy, ["status", "details"])
  }

  /** One more detail panics the list, is skipped, or adds its entry at the end. */
  lemma EntriesStep(details: seq<Json>, i: nat, es: seq<(string, string)>)
    requires i < |details| && Entries(details[..i]) == Some(es)
    ensures Entries(details[..i + 1]) ==
      match OutcomeOf(details[i])
      case Panic => None
      case Skip => Some(es)
      case Entry(t, m) => Some(es + [(t, m)])
  {
    assert details[..i + 1][..i] == details[..i];
  }

  /** A panic anywhere in a detail list is a panic of the whole list. */
  lemma {:induction false} EntriesPanicPersists(details: seq<Json>, i: nat)
    requires i <= |details| && Entries(details[..i]).None?
    ensures Entries(details).None?
    decreases |details| - i
  {
    if i < |details| {
      assert details[..i + 1][..i] == details[..i];
      EntriesPanicPersists(details, i + 1);
    } else {
      assert details[..i] == details;
    }
  }

  /** A detail list panics exactly when one of its details does. */
  lemma {:induction false} EntriesPanicIff(details: seq<Json>)
    ensures Entries(details).None? <==> exists i :: 0 <= i < |details| && OutcomeOf(details[i]).Panic?
  {
    if details != [] {
      var init := details[..|details| - 1];
      EntriesPanicIff(init);
      assert forall i :: 0 <= i < |init| ==> init[i] == details[i];
    }
  }

  /** Every entry comes from a detail that is not Compliant and that has a
      history. */
  lemma {:induction false} EntriesFromNonCompliant(details: seq<Json>)
    requires Entries(details).Some?
    ensures forall e :: e in Entries(details).value ==>
      exists i :: 0 <= i < |details| && OutcomeOf(details[i]) == Entry(e.0, e.1)
  {
    if details != [] {
      var init := details[..|details| - 1];
      EntriesFromNonCompliant(init);
      assert forall i :: 0 <= i < |init| ==> init[i] == details[i];
    }
  }

  /** `issues` are the issues made, in order, from `entries`. */
  ghost predicate IssuesMatch(entries: seq<(string, string)>, cluster: string, states: Index, issues: seq<Issue>) {
    |issues| == |entries| &&
    forall i :: 0 <= i < |entries| ==> IssueFor(issues[i], entries[i].0, entries[i].1, cluster, states)
  }

  lemma IssuesMatchSnoc(entries: seq<(string, string)>, cluster: string, states: Index, issues: seq<Issue>,
                        templateName: string, msg: string, issue: Issue)
    requires IssuesMatch(entries, cluster, states, issues)
    requires IssueFor(issue, templateName, msg, cluster, states)
    ensures IssuesMatch(entries + [(templateName, msg)], cluster, states, issues + [issue])
  {
    var es := entries + [(templateName, msg)];
    var all := issues + [issue];
    forall i | 0 <= i < |es| ensures IssueFor(all[i], es[i].0, es[i].1, cluster, states) {
      if i < |entries| {
        assert all[i] == issues[i] && es[i] == entries[i];
      }
    }
  }

  /** What `enrichClusterDiagnosisFromPolicy` makes of `cd` given the
      entries of the policy's details: nothing when a detail panics, else
      `cd` with one issue appended per entry. */
  ghost predicate FromDetails(entries: Option<seq<(string, string)>>, cd: ClusterDiagnosis, states: Index,
                              r: Option<ClusterDiagnosis>)
  {
    match entries
    case None => r.None?
    case Some(es) =>
      r.Some? && r.value.clusterName == cd.clusterName && r.value.complianceState == cd.complianceState &&
      |r.value.issues| >= |cd.issues| && r.value.issues[..|cd.issues|] == cd.issues &&
      IssuesMatch(es, cd.clusterName, states, r.value.issues[|cd.issues|..])
  }

  /** One issue of `enrichClusterDiagnosisFromPolicy`: enriched, then its
      message cut to 300 bytes. */
  method DetailIssue(templateName: string, msg: string, cluster: string, states: Index) returns (issue: Issue)
    ensures IssueFor(issue, templateName, msg, cluster, states)
  {
    issue := NewIssue(templateName, msg);
    issue := ClassifyAndEnrich(issue, msg, cluster, templateName, states);
    EnrichedIgnoresMessage(issue, Truncate(issue.message), msg, cluster, templateName, states);
    issue := issue.(message := Truncate(issue.message));
  }

  /** `enrichClusterDiagnosisFromPolicy`. */
  method EnrichFromPolicy(policy: Json, cd: ClusterDiagnosis, states: Index) returns (r: Option<ClusterDiagnosis>)
    ensures FromDetails(Entries(Details(policy)), cd, states, r)
  {
    var details := Details(policy);
    var added: seq<Issue> := [];
    ghost var es: seq<(string, string)> := [];
    var i := 0;
    while i < |details|
      invariant 0 <= i <= |details|
      invariant Entries(details[..i]) == Some(es)
      invariant IssuesMatch(es, cd.clusterName, states, added)
    {
      assert details[..i + 1][..i] == details[..i];
      match OutcomeOf(details[i]) {
        case Panic =>
          EntriesPanicPersists(details, i + 1);
          return None;
        case Skip =>
        case Entry(templateName, msg) =>
          var issue := DetailIssue(templateName, msg, cd.clusterName, states);
          IssuesMatchSnoc(es, cd.clusterName, states, added, templateName, msg, issue);
          added := added + [issue];
          es := es + [(templateName, msg)];
      }
      i := i + 1;
    }
    assert details[..i] == details;
    var issues := cd.issues + added;
    assert issues[..|cd.issues|] == cd.issues && issues[|cd.issues|..] == added;
    r := Some(cd.(issues := issues));
  }

  /** The issue added when the propagated copy cannot be read. */
  function FetchFailure(propagatedName: string, cluster: string): (r: Issue)
    ensures r.violationType == Unknown && r.templateName == "" && r.suggestedCall.None?
    ensures HasPrefix(r.message, "Could not fetch propagated policy " + propagatedName)
    ensures var tail := " in namespace " + cluster;
      |r.message| >= |tail| && r.message[|r.message| - |tail|..] == tail
  {
    var prefix := "Could not fetch propagated policy " + propagatedName;
    var m := prefix + " in namespace " + cluster;
    assert m[..|prefix|] == prefix;
    assert m[|m| - |" in namespace " + cluster|..] == " in namespace " + cluster;
    Issue(Unknown, "", "", "", "", m, None, None)
  }

  /** The propagated copy of root policy `rootPolicy` of namespace `rootNS`
      lives in the cluster's namespace under the name `rootNS.rootPolicy`. */
  function PropagatedName(rootNS: string, rootPolicy: string): string {
    rootNS + "." + rootPolicy
  }

  /** What `enrichClusterDiagnosis` makes of `cd`. */
  ghost predicate ClusterEnriched(inspector: Inspector, rootNS: string, rootPolicy: string, states: Index,
                           cd: ClusterDiagnosis, r: Option<ClusterDiagnosis>)
  {
    var name := PropagatedName(rootNS, rootPolicy);
    match inspector.GetResource(name, cd.clusterName)
    case None => r == Some(cd.(issues := cd.issues + [FetchFailure(name, cd.clusterName)]))
    case Some(p) => FromDetails(Entries(Details(p)), cd, states, r)
  }

  /** `enrichClusterDiagnosis`: reads the propagated copy from the cluster's
      namespace; a failed read becomes an `unknown` issue. */
  method Enrich(inspector: Inspector, cd: ClusterDiagnosis, rootNS: string, rootPolicy: string, states: Index)
    returns (r: Option<ClusterDiagnosis>)
    ensures ClusterEnriched(inspector, rootNS, rootPolicy, states, cd, r)
  {
    var propagatedName := PropagatedName(rootNS, rootPolicy);
    var propagated := inspector.GetResource(propagatedName, cd.clusterName);
    if propagated.None? {
      r := Some(cd.(issues := cd.issues + [FetchFailure(propagatedName, cd.clusterName)]));
      return;
    }
    r := EnrichFromPolicy(propagated.value, cd, states);
  }

  /** Enrichment panics exactly when the propagated copy exists and one of
      its details panics. */
  predicate EnrichPanics(inspector: Inspector, rootNS: string, rootPolicy: string, cluster: string) {
    match inspector.GetResource(PropagatedName(rootNS, rootPolicy), cluster)
    case None => false
    case Some(p) => Entries(Details(p)).None?
  }

  lemma EnrichPanicsIff(inspector: Inspector, rootNS: string, rootPolicy: string, states: Index,
                        cd: ClusterDiagnosis, r: Option<ClusterDiagnosis>)
    requires ClusterEnriched(inspector, rootNS, rootPolicy, states, cd, r)
    ensures r.None? <==> EnrichPanics(inspector, rootNS, rootPolicy, cd.clusterName)
    ensures r.Some? ==> r.value.clusterName == cd.clusterName && r.value.complianceState == cd.complianceState
  {
  }

  // ---------------------------------------------------------------------
  // Clusters of the root policy's status

  /** The (cluster, compliance) pair an element of `status.status` selects,
      if any: an object whose cluster passes the filter and which is not
      Compliant. */
  function SelectOne(s: Json, clusterFilter: string): (r: Option<(string, string)>)
    ensures r.Some? ==> r.value.1 != ComplianceCompliant
    ensures r.Some? && clusterFilter != "" ==> r.value.0 == clusterFilter
    ensures r.Some? <==>
      s.JObject? && (clusterFilter == "" || Str(s, "clustername") == clusterFilter) &&
      Str(s, "compliant") != ComplianceCompliant
    ensures r.Some? ==> r.value == (Str(s, "clustername"), Str(s, "compliant"))
  {
    if !s.JObject? then None
    else
      var clusterName := Str(s, "clustername");
      var state := Str(s, "compliant");
      if clusterFilter != "" && clusterName != clusterFilter then None
      else if state == ComplianceCompliant then None
      else Some((clusterName, state))
  }

  function Selected(statusList: seq<Json>, clusterFilter: string): seq<(string, string)>
  {
    if statusList == [] then []
    else
      Selected(statusList[..|statusList| - 1], clusterFilter) + AsSeq(SelectOne(statusList[|statusList| - 1], clusterFilter))
  }

  function AsSeq<T>(o: Option<T>): (r: seq<T>)
    ensures |r| <= 1
  {
    if o.Some? then [o.value] else []
  }

  /** No selected cluster is Compliant, and every one passes the filter. */
  lemma {:induction false} SelectedShape(statusList: seq<Json>, clusterFilter: string)
    ensures forall p :: p in Selected(statusList, clusterFilter) ==>
      p.1 != ComplianceCompliant && (clusterFilter != "" ==> p.0 == clusterFilter)
  {
    if statusList != [] {
      SelectedShape(statusList[..|statusList| - 1], clusterFilter);
    }
  }

  /** A (cluster, compliance) pair is selected exactly when some status
      entry selects it: every non-Compliant object passing the filter is
      diagnosed. */
  lemma {:induction false} SelectedMembers(statusList: seq<Json>, clusterFilter: string, p: (string, string))
    ensures p in Selected(statusList, clusterFilter) <==>
      exists i :: 0 <= i < |statusList| && SelectOne(statusList[i], clusterFilter) == Some(p)
  {
    if statusList != [] {
      var init := statusList[..|statusList| - 1];
      SelectedMembers(init, clusterFilter, p);
      assert forall i :: 0 <= i < |init| ==> init[i] == statusList[i];
      if p in Selected(statusList, clusterFilter) && p !in Selected(init, clusterFilter) {
        assert SelectOne(statusList[|statusList| - 1], clusterFilter) == Some(p);
      }
    }
  }

  lemma SelectedSnoc(statusList: seq<Json>, clusterFilter: string, i: nat)
    requires i < |statusList|
    ensures Selected(statusList[..i + 1], clusterFilter) ==
            Selected(statusList[..i], clusterFilter) + AsSeq(SelectOne(statusList[i], clusterFilter))
  {
    assert statusList[..i + 1][..i] == statusList[..i];
  }

  /** The selection of a prefix is a prefix of the selection. */
  lemma {:induction false} SelectedPrefix(statusList: seq<Json>, clusterFilter: string, i: nat)
    requires i <= |statusList|
    ensures var p := Selected(statusList[..i], clusterFilter);
      |p| <= |Selected(statusList, clusterFilter)| && Selected(statusList, clusterFilter)[..|p|] == p
    decreases |statusList| - i
  {
    if i < |statusList| {
      assert statusList[..i + 1][..i] == statusList[..i];
      SelectedPrefix(statusList, clusterFilter, i + 1);
    } else {
      assert statusList[..i] == statusList;
    }
  }

  // ---------------------------------------------------------------------
  // The diagnosis

  /** The parts of a policy `buildDiagnosis` reads besides its desired
      states: the status clusters it selects, its own compliance, its
      namespace and the entries of its own details. */
  datatype PolicyView = PolicyView(
    selected: seq<(string, string)>,
    compliance: string,
    namespace: string,
    entries: Option<seq<(string, string)>>)

  function ViewOf(policy: Json, clusterFilter: string): PolicyView {
    PolicyView(Selected(NestedSlice(policy, ["status", "status"]), clusterFilter),
               NestedString(policy, ["status", "compliant"]),
               GetNamespace(policy),
               Entries(Details(policy)))
  }

  function TotalIssues(clusters: seq<ClusterDiagnosis>): nat {
    if clusters == [] then 0 else TotalIssues(clusters[..|clusters| - 1]) + |clusters[|clusters| - 1].issues|
  }

  /** The propagated-policy fallback applies: no status cluster was
      reported, the policy is not Compliant, and it has a namespace, which
      is then taken as the cluster's name. */
  predicate FallbackApplies(v: PolicyView, reported: nat) {
    reported == 0 && v.compliance != ComplianceCompliant && v.namespace != ""
  }

  /** The call panics: a selected status cluster's enrichment does, or the
      fallback applies and one of the policy's own details does. */
  predicate DiagnosisPanics(inspector: Inspector, namespace: string, policyName: string, v: PolicyView) {
    (exists i :: 0 <= i < |v.selected| && EnrichPanics(inspector, namespace, policyName, v.selected[i].0)) ||
    (FallbackApplies(v, |v.selected|) && v.entries.None?)
  }

  /** `clusters` are the status clusters `sel`, each enriched. */
  ghost predicate StatusReport(inspector: Inspector, namespace: string, policyName: string, states: Index,
                               sel: seq<(string, string)>, clusters: seq<ClusterDiagnosis>)
    decreases |sel|
  {
    |clusters| == |sel| &&
    (sel != [] ==>
       StatusReport(inspector, namespace, policyName, states, sel[..|sel| - 1], clusters[..|clusters| - 1]) &&
       ClusterEnriched(inspector, namespace, policyName, states, ClusterDiagnosis(sel[|sel| - 1].0, sel[|sel| - 1].1, []),
                Some(clusters[|clusters| - 1])))
  }

  /** Cluster `i` of a status report is the enrichment of selected entry `i`. */
  lemma {:induction false} StatusReportAt(inspector: Inspector, namespace: string, policyName: string, states: Index,
                                          sel: seq<(string, string)>, clusters: seq<ClusterDiagnosis>, i: nat)
    requires StatusReport(inspector, namespace, policyName, states, sel, clusters)
    requires i < |sel|
    ensures ClusterEnriched(inspector, namespace, policyName, states, ClusterDiagnosis(sel[i].0, sel[i].1, []), Some(clusters[i]))
    decreases |sel|
  {
    if i < |sel| - 1 {
      StatusReportAt(inspector, namespace, policyName, states, sel[..|sel| - 1], clusters[..|clusters| - 1], i);
    }
  }


  /** The loop over the status clusters `sel` stops at the first whose
      enrichment panics, and otherwise enriches each. */
  ghost predicate StatusOutcome(inspector: Inspector, namespace: string, policyName: string, states: Index,
                                sel: seq<(string, string)>, r: Option<seq<ClusterDiagnosis>>)
  {
    (r.None? <==> exists i :: 0 <= i < |sel| && EnrichPanics(inspector, namespace, policyName, sel[i].0)) &&
    (r.Some? ==> StatusReport(inspector, namespace, policyName, states, sel, r.value))
  }

  /** What the propagated-policy branch makes of the status clusters `cs`. */
  ghost predicate FallbackResult(v: PolicyView, states: Index, cs: seq<ClusterDiagnosis>,
                                 r: Option<seq<ClusterDiagnosis>>)
  {
    if FallbackApplies(v, |cs|) then
      (r.None? <==> v.entries.None?) &&
      (r.Some? ==>
         |r.value| == 1 &&
         FromDetails(v.entries, ClusterDiagnosis(v.namespace, v.compliance, []), states, Some(r.value[0])))
    else r == Some(cs)
  }

  /** What a completed `buildDiagnosis` returns, given the policy's view
      and desired states. */
  ghost predicate DiagnosisOf(inspector: Inspector, namespace: string, policyName: string, v: PolicyView,
                              states: Index, d: Diagnosis)
  {
    d.policyName == policyName && d.namespace == namespace && d.complianceState == v.compliance &&
    (!FallbackApplies(v, |v.selected|) ==> StatusReport(inspector, namespace, policyName, states, v.selected, d.clusters)) &&
    (FallbackApplies(v, |v.selected|) ==>
       |d.clusters| == 1 &&
       FromDetails(v.entries, ClusterDiagnosis(v.namespace, v.compliance, []), states, Some(d.clusters[0]))) &&
    d.summary == Summary(TotalIssues(d.clusters), |d.clusters|)
  }

  /** `buildDiagnosis`, with None for a call that panics. */
  method BuildDiagnosis(inspector: Inspector, policy: Json, namespace: string, policyName: string,
                        clusterFilter: string)
    returns (r: Option<Diagnosis>)
    ensures r.None? <==> DiagnosisPanics(inspector, namespace, policyName, ViewOf(policy, clusterFilter))
    ensures r.Some? ==>
      DiagnosisOf(inspector, namespace, policyName, ViewOf(policy, clusterFilter),
                  MapOf(AllEntries(Templates(policy))), r.value)
  {
    var states := ExtractDesiredStates(policy);
    r := Diagnose(inspector, policy, namespace, policyName, clusterFilter, states, ViewOf(policy, clusterFilter));
  }

  /** `buildDiagnosis` once the desired states are extracted. */
  method Diagnose(inspector: Inspector, policy: Json, namespace: string, policyName: string,
                  clusterFilter: string, states: Index, ghost v: PolicyView)
    returns (r: Option<Diagnosis>)
    requires v == ViewOf(policy, clusterFilter)
    ensures r.None? <==> DiagnosisPanics(inspector, namespace, policyName, v)
    ensures r.Some? ==> DiagnosisOf(inspector, namespace, policyName, v, states, r.value)
  {
    var compliance := NestedString(policy, ["status", "compliant"]);
    var statusList := NestedSlice(policy, ["status", "status"]);
    var clusters := StatusClusters(inspector, statusList, namespace, policyName, clusterFilter, states);
    var cs: Option<seq<ClusterDiagnosis>> := None;
    if clusters.Some? {
      cs := Fallback(policy, compliance, states, clusters.value, v);
    }
    if cs.Some? {
      var total := CountIssues(cs.value);
      r := Some(Diagnosis(policyName, namespace, compliance, cs.value, Summary(total, |cs.value|)));
    } else {
      r := None;
    }
    DiagnosisOutcome(inspector, namespace, policyName, v, states, clusters, cs, r);
  }

  /** Assembles the contract of `BuildDiagnosis` from those of its steps. */
  lemma DiagnosisOutcome(inspector: Inspector, namespace: string, policyName: string, v: PolicyView,
                         states: Index, clusters: Option<seq<ClusterDiagnosis>>,
                         cs: Option<seq<ClusterDiagnosis>>, r: Option<Diagnosis>)
    requires StatusOutcome(inspector, namespace, policyName, states, v.selected, clusters)
    requires clusters.None? ==> cs.None?
    requires clusters.Some? ==> FallbackResult(v, states, clusters.value, cs)
    requires r == if cs.None? then None else
      Some(Diagnosis(policyName, namespace, v.compliance, cs.value, Summary(TotalIssues(cs.value), |cs.value|)))
    ensures r.None? <==> DiagnosisPanics(inspector, namespace, policyName, v)
    ensures r.Some? ==> DiagnosisOf(inspector, namespace, policyName, v, states, r.value)
  {
    if clusters.Some? {
      if FallbackApplies(v, |v.selected|) {
        FallbackOutcome(inspector, namespace, policyName, v, states, clusters.value, cs, r);
      } else {
        StatusOnlyOutcome(inspector, namespace, policyName, v, states, clusters.value, cs, r);
      }
    }
  }

  /** With no status cluster and the fallback taken, the diagnosis is the
      policy's own cluster, and it panics exactly when a detail does. */
  lemma FallbackOutcome(inspector: Inspector, namespace: string, policyName: string, v: PolicyView,
                        states: Index, status: seq<ClusterDiagnosis>,
                        cs: Option<seq<ClusterDiagnosis>>, r: Option<Diagnosis>)
    requires FallbackApplies(v, |v.selected|)
    requires StatusOutcome(inspector, namespace, policyName, states, v.selected, Some(status))
    requires FallbackResult(v, states, status, cs)
    requires r == if cs.None? then None else
      Some(Diagnosis(policyName, namespace, v.compliance, cs.value, Summary(TotalIssues(cs.value), |cs.value|)))
    ensures r.None? <==> DiagnosisPanics(inspector, namespace, policyName, v)
    ensures r.Some? ==> DiagnosisOf(inspector, namespace, policyName, v, states, r.value)
  {
    assert |status| == 0;
  }

  /** With status clusters reported, the diagnosis is exactly those. */
  lemma StatusOnlyOutcome(inspector: Inspector, namespace: string, policyName: string, v: PolicyView,
                          states: Index, status: seq<ClusterDiagnosis>,
                          cs: Option<seq<ClusterDiagnosis>>, r: Option<Diagnosis>)
    requires !FallbackApplies(v, |v.selected|)
    requires StatusOutcome(inspector, namespace, policyName, states, v.selected, Some(status))
    requires FallbackResult(v, states, status, cs)
    requires r == if cs.None? then None else
      Some(Diagnosis(policyName, namespace, v.compliance, cs.value, Summary(TotalIssues(cs.value), |cs.value|)))
    ensures r.None? <==> DiagnosisPanics(inspector, namespace, policyName, v)
    ensures r.Some? ==> DiagnosisOf(inspector, namespace, policyName, v, states, r.value)
  {
    assert cs == Some(status);
  }

  /** The propagated-policy branch of `buildDiagnosis`: with no status
      cluster and a policy that is not Compliant, the policy's namespace is
      the cluster and the policy's own details are its issues. */
  method Fallback(policy: Json, compliance: string, states: Index, cs: seq<ClusterDiagnosis>, ghost v: PolicyView)
    returns (r: Option<seq<ClusterDiagnosis>>)
    requires v.compliance == compliance && v.namespace == GetNamespace(policy) && v.entries == Entries(Details(policy))
    ensures FallbackResult(v, states, cs, r)
  {
    r := Some(cs);
    if |cs| == 0 && compliance != ComplianceCompliant {
      var ns := GetNamespace(policy);
      if ns != "" {
        var cd := EnrichFromPolicy(policy, ClusterDiagnosis(ns, compliance, []), states);
        if cd.None? {
          return None;
        }
        r := Some([cd.value]);
      }
    }
  }

  /** The loop over `status.status`: one enriched cluster per selected
      entry, or None as soon as one panics. */
  method StatusClusters(inspector: Inspector, statusList: seq<Json>, namespace: string, policyName: string,
                        clusterFilter: string, states: Index)
    returns (r: Option<seq<ClusterDiagnosis>>)
    ensures StatusOutcome(inspector, namespace, policyName, states, Selected(statusList, clusterFilter), r)
  {
    var clusters: seq<ClusterDiagnosis> := [];
    var i := 0;
    while i < |statusList|
      invariant 0 <= i <= |statusList|
      invariant StatusReport(inspector, namespace, policyName, states, Selected(statusList[..i], clusterFilter), clusters)
    {
      SelectedSnoc(statusList, clusterFilter, i);
      var next := StatusStep(inspector, statusList[i], namespace, policyName, clusterFilter, states,
                             Selected(statusList[..i], clusterFilter), clusters);
      if next.None? {
        SelectedPanic(inspector, namespace, policyName, statusList, clusterFilter, i);
        return None;
      }
      clusters := next.value;
      i := i + 1;
    }
    assert statusList[..i] == statusList;
    StatusReportNoPanic(inspector, namespace, policyName, states, Selected(statusList, clusterFilter), clusters);
    r := Some(clusters);
  }

  /** An entry whose enrichment panics is a selected cluster that panics. */
  lemma SelectedPanic(inspector: Inspector, namespace: string, policyName: string,
                      statusList: seq<Json>, clusterFilter: string, i: nat)
    requires i < |statusList|
    requires SelectOne(statusList[i], clusterFilter).Some?
    requires EnrichPanics(inspector, namespace, policyName, SelectOne(statusList[i], clusterFilter).value.0)
    ensures exists j :: (0 <= j < |Selected(statusList, clusterFilter)| &&
      EnrichPanics(inspector, namespace, policyName, Selected(statusList, clusterFilter)[j].0))
  {
    var all := Selected(statusList, clusterFilter);
    SelectedPrefix(statusList, clusterFilter, i + 1);
    SelectedSnoc(statusList, clusterFilter, i);
    var upto := Selected(statusList[..i + 1], clusterFilter);
    var j := |upto| - 1;
    assert upto[j] == SelectOne(statusList[i], clusterFilter).value;
    assert all[j] == upto[j];
  }

  /** One turn of the loop over `status.status`: a selected entry is
      enriched and appended, unless its enrichment panics. */
  method StatusStep(inspector: Inspector, s: Json, namespace: string, policyName: string,
                    clusterFilter: string, states: Index, ghost sel: seq<(string, string)>,
                    clusters: seq<ClusterDiagnosis>)
    returns (r: Option<seq<ClusterDiagnosis>>)
    requires StatusReport(inspector, namespace, policyName, states, sel, clusters)
    ensures r.None? <==>
      SelectOne(s, clusterFilter).Some? && EnrichPanics(inspector, namespace, policyName, SelectOne(s, clusterFilter).value.0)
    ensures r.Some? ==> StatusReport(inspector, namespace, policyName, states, sel + AsSeq(SelectOne(s, clusterFilter)), r.value)
  {
    var one := SelectCluster(s, clusterFilter);
    if one.None? {
      assert sel + [] == sel;
      return Some(clusters);
    }
    var (clusterName, state) := one.value;
    var cd := ClusterDiagnosis(clusterName, state, []);
    var e := Enrich(inspector, cd, namespace, policyName, states);
    EnrichPanicsIff(inspector, namespace, policyName, states, cd, e);
    if e.None? {
      return None;
    }
    StatusReportSnoc(inspector, namespace, policyName, states, sel, clusters, clusterName, state, e.value);
    r := Some(clusters + [e.value]);
  }

  /** No cluster of a status report panicked. */
  lemma {:induction false} StatusReportNoPanic(inspector: Inspector, namespace: string, policyName: string,
                                               states: Index, sel: seq<(string, string)>, clusters: seq<ClusterDiagnosis>)
    requires StatusReport(inspector, namespace, policyName, states, sel, clusters)
    ensures forall i :: 0 <= i < |sel| ==> !EnrichPanics(inspector, namespace, policyName, sel[i].0)
  {
    forall i | 0 <= i < |sel| ensures !EnrichPanics(inspector, namespace, policyName, sel[i].0) {
      StatusReportAt(inspector, namespace, policyName, states, sel, clusters, i);
      EnrichPanicsIff(inspector, namespace, policyName, states, ClusterDiagnosis(sel[i].0, sel[i].1, []), Some(clusters[i]));
    }
  }

  /** The tests of the loop over `status.status`: an entry that is not an
      object, whose cluster fails the filter, or which is Compliant, is
      skipped. */
  method SelectCluster(s: Json, clusterFilter: string) returns (r: Option<(string, string)>)
    ensures r == SelectOne(s, clusterFilter)
  {
    if !s.JObject? {
      return None;
    }
    var clusterName := Str(s, "clustername");
    var state := Str(s, "compliant");
    if clusterFilter != "" && clusterName != clusterFilter {
      return None;
    }
    if state == ComplianceCompliant {
      return None;
    }
    return Some((clusterName, state));
  }

  lemma StatusReportSnoc(inspector: Inspector, namespace: string, policyName: string, states: Index,
                         sel: seq<(string, string)>, clusters: seq<ClusterDiagnosis>,
                         name: string, state: string, c: ClusterDiagnosis)
    requires StatusReport(inspector, namespace, policyName, states, sel, clusters)
    requires ClusterEnriched(inspector, namespace, policyName, states, ClusterDiagnosis(name, state, []), Some(c))
    ensures StatusReport(inspector, namespace, policyName, states, sel + [(name, state)], clusters + [c])
  {
    assert (sel + [(name, state)])[..|sel|] == sel;
    assert (clusters + [c])[..|clusters|] == clusters;
  }

  /** The summing loop of `buildDiagnosis`. */
  method CountIssues(clusters: seq<ClusterDiagnosis>) returns (total: nat)
    ensures total == TotalIssues(clusters)
  {
    total := 0;
    var i := 0;
    while i < |clusters|
      invariant 0 <= i <= |clusters|
      invariant total == TotalIssues(clusters[..i])
    {
      assert clusters[..i + 1][..i] == clusters[..i];
      total := total + |clusters[i].issues|;
      i := i + 1;
    }
    assert clusters[..i] == clusters;
  }

  // ---------------------------------------------------------------------
  // Properties of the diagnosis

  /** A diagnosis never reports a Compliant cluster; status clusters are
      the selected ones, in order, so they pass the filter; a fallback
      cluster is named after the policy's namespace. */
  lemma DiagnosisClusters(inspector: Inspector, policy: Json, namespace: string, policyName: string,
                          clusterFilter: string, states: Index, d: Diagnosis)
    requires DiagnosisOf(inspector, namespace, policyName, ViewOf(policy, clusterFilter), states, d)
    ensures forall c :: c in d.clusters ==> c.complianceState != ComplianceCompliant
    ensures var v := ViewOf(policy, clusterFilter);
      !FallbackApplies(v, |v.selected|) ==>
        forall i :: 0 <= i < |d.clusters| ==>
          d.clusters[i].clusterName == v.selected[i].0 &&
          (clusterFilter != "" ==> d.clusters[i].clusterName == clusterFilter)
    ensures var v := ViewOf(policy, clusterFilter);
      FallbackApplies(v, |v.selected|) ==> |d.clusters| == 1 && d.clusters[0].clusterName == GetNamespace(policy)
  {
    var v := ViewOf(policy, clusterFilter);
    SelectedShape(NestedSlice(policy, ["status", "status"]), clusterFilter);
    ClustersOfView(inspector, namespace, policyName, v, states, d);
  }

  /** The same facts about an arbitrary view. */
  lemma ClustersOfView(inspector: Inspector, namespace: string, policyName: string, v: PolicyView,
                       states: Index, d: Diagnosis)
    requires DiagnosisOf(inspector, namespace, policyName, v, states, d)
    ensures !FallbackApplies(v, |v.selected|) ==>
      forall i :: 0 <= i < |d.clusters| ==>
        d.clusters[i].clusterName == v.selected[i].0 && d.clusters[i].complianceState == v.selected[i].1
    ensures FallbackApplies(v, |v.selected|) ==>
      |d.clusters| == 1 && d.clusters[0].clusterName == v.namespace &&
      d.clusters[0].complianceState == v.compliance && v.compliance != ComplianceCompliant
  {
    if !FallbackApplies(v, |v.selected|) {
      forall i | 0 <= i < |d.clusters|
        ensures d.clusters[i].clusterName == v.selected[i].0 && d.clusters[i].complianceState == v.selected[i].1
      {
        StatusReportAt(inspector, namespace, policyName, states, v.selected, d.clusters, i);
        EnrichPanicsIff(inspector, namespace, policyName, states,
                        ClusterDiagnosis(v.selected[i].0, v.selected[i].1, []), Some(d.clusters[i]));
      }
    }
  }

  /** The summary's first count is the number of issues listed. */
  lemma {:induction false} TotalIssuesCounts(clusters: seq<ClusterDiagnosis>, c: ClusterDiagnosis)
    ensures TotalIssues(clusters + [c]) == TotalIssues(clusters) + |c.issues|
    ensures TotalIssues([]) == 0
  {
    assert (clusters + [c])[..|clusters|] == clusters;
  }
}

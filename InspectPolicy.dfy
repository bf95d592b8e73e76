/** The quick inspection of an ACM policy (pkg/mcpserver/inspect_policy.go):
    the policy's namespace resolution, the templates, affected clusters and
    violations read from the root policy, the violations read from the
    propagated copies, and the instruction that tells the caller what to
    do next. The status details are walked as `diagnose_acm_policy` walks
    them (module Diagnosis), with the same panic on a missing
    `templateMeta`; classification and resource parsing are this tool's
    own, simpler ones. */
module InspectPolicy {
  import opened Wrappers
  import opened Strings
  import opened Json
  import opened Errors
  import opened Acm
  import DiagnosePolicy
  import Diagnosis

  /** A `clusterCompliance`. */
  datatype ClusterCompliance = ClusterCompliance(clusterName: string, complianceState: string)

  /** A `templateInfo`. */
  datatype TemplateInfo = TemplateInfo(name: string, kind: string)

  /** The categories `classifyViolationMessage` assigns. */
  datatype Category = Missing | Drift | GenericViolation | Unknown
  {
    function Name(): string {
      match this
      case Missing => "missing"
      case Drift => "drift"
      case GenericViolation => "violation"
      case Unknown => "unknown"
    }
  }

  /** A `violation`. Go builds it as a local value, fills it in through a
      pointer and appends a copy; the filling-in operations here return the
      updated value. */
  datatype Violation = Violation(
    templateName: string,
    clusterName: string,
    violationType: Category,
    resourceKind: string,
    resourceName: string,
    namespace: string,
    message: string)

  /** A `policyInspection`. */
  datatype PolicyInspection = PolicyInspection(
    policyName: string,
    namespace: string,
    complianceState: string,
    affectedClusters: seq<ClusterCompliance>,
    templates: seq<TemplateInfo>,
    violations: seq<Violation>,
    nextStep: string)

  const Compliant: string := DiagnosePolicy.ComplianceCompliant

  // ---------------------------------------------------------------------
  // `resolvePolicy`

  /** The index of the first listed policy called `name`. */
  function FirstNamed(ps: seq<Json>, name: string): (r: Option<nat>)
    ensures r.Some? ==> (r.value < |ps| && GetName(ps[r.value]) == name &&
                         forall j :: 0 <= j < r.value ==> GetName(ps[j]) != name)
    ensures r.None? ==> forall j :: 0 <= j < |ps| ==> GetName(ps[j]) != name
  {
    if ps == [] then None
    else if GetName(ps[0]) == name then Some(0)
    else
      match FirstNamed(ps[1..], name)
      case None => None
      case Some(i) => Some(i + 1)
  }

  const ListFailedPrefix: string := "failed to list policies across namespaces"

  /** The text of the error when no policy has the name. */
  function NotFoundText(name: string, namespace: string): string {
    if namespace != "" then
      "policy " + Quote(name) + " not found in namespace " + Quote(namespace) + " or any other namespace"
    else "policy " + Quote(name) + " not found in any namespace"
  }

  /** What `resolvePolicy` answers: the policy and the namespace it was
      found in. */
  function Resolution(inspector: Inspector, name: string, namespace: string): Result<(Json, string), Error> {
    if namespace != "" && inspector.GetResource(name, namespace).Some? then
      Success((inspector.GetResource(name, namespace).value, namespace))
    else
      match inspector.ListResources()
      case Failure(e) => Failure(Wrap(ListFailedPrefix, e))
      case Success(ps) =>
        match FirstNamed(ps, name)
        case Some(i) => Success((ps[i], GetNamespace(ps[i])))
        case None => Failure(Plain(NotFoundText(name, namespace)))
  }

  /** `resolvePolicy`: a direct get when a namespace is given, then a
      search of the cluster-wide listing. */
  method ResolvePolicy(inspector: Inspector, name: string, namespace: string)
    returns (r: Result<(Json, string), Error>)
    ensures r == Resolution(inspector, name, namespace)
  {
    if namespace != "" {
      var policy := inspector.GetResource(name, namespace);
      if policy.Some? {
        return Success((policy.value, namespace));
      }
    }
    var policies := inspector.ListResources();
    if policies.Failure? {
      return Failure(Wrap(ListFailedPrefix, policies.error));
    }
    var ps := policies.value;
    var i := 0;
    while i < |ps|
      invariant 0 <= i <= |ps|
      invariant forall j :: 0 <= j < i ==> GetName(ps[j]) != name
    {
      if GetName(ps[i]) == name {
        FirstNamedIs(ps, name, i);
        return Success((ps[i], GetNamespace(ps[i])));
      }
      i := i + 1;
    }
    return Failure(Plain(NotFoundText(name, namespace)));
  }

  lemma FirstNamedIs(ps: seq<Json>, name: string, i: nat)
    requires i < |ps| && GetName(ps[i]) == name
    requires forall j :: 0 <= j < i ==> GetName(ps[j]) != name
    ensures FirstNamed(ps, name) == Some(i)
  {
    var r := FirstNamed(ps, name);
    assert r.Some?;
  }

  /** A policy is found either directly in the given namespace, or as the
      first listed policy with that name, in its own namespace; a failed
      listing is reported as such, and no match is an error. */
  lemma ResolutionCases(inspector: Inspector, name: string, namespace: string)
    ensures var r := Resolution(inspector, name, namespace);
      r.Success? ==>
        (namespace != "" && Some(r.value.0) == inspector.GetResource(name, namespace) && r.value.1 == namespace) ||
        (inspector.ListResources().Success? &&
         exists i :: 0 <= i < |inspector.ListResources().value| &&
           r.value.0 == inspector.ListResources().value[i] && GetName(r.value.0) == name &&
           r.value.1 == GetNamespace(r.value.0) &&
           forall j :: 0 <= j < i ==> GetName(inspector.ListResources().value[j]) != name)
    ensures var r := Resolution(inspector, name, namespace);
      (namespace == "" || inspector.GetResource(name, namespace).None?) && inspector.ListResources().Failure? ==>
        r.Failure? && r.error.Unwrap() == [inspector.ListResources().error]
    ensures var r := Resolution(inspector, name, namespace);
      (namespace == "" || inspector.GetResource(name, namespace).None?) && inspector.ListResources().Success? &&
      (forall p :: p in inspector.ListResources().value ==> GetName(p) != name) ==>
        r == Failure(Plain(NotFoundText(name, namespace)))
  {
  }

  /** The not-found text names the namespace exactly when one was given. */
  lemma NotFoundMentionsNamespace(name: string, namespace: string)
    ensures namespace == "" ==> NotFoundText(name, namespace) == "policy " + Quote(name) + " not found in any namespace"
    ensures namespace != "" ==> Contains(NotFoundText(name, namespace), " not found in namespace " + Quote(namespace))
  {
    if namespace != "" {
      var b := " not found in namespace " + Quote(namespace);
      assert Contains(b, b) by { assert OccursAt(b, b, 0); }
      ContainsInside("policy " + Quote(name), b, " or any other namespace", b);
      assert NotFoundText(name, namespace) == "policy " + Quote(name) + b + " or any other namespace";
    }
  }

  // ---------------------------------------------------------------------
  // Messages

  /** The switch of `classifyViolationMessage`: missing, drift and
      violation are tested in that order over the lower-cased message, and
      the first test that holds wins. */
  function CategoryOf(msg: string): (r: Category)
    ensures Contains(ToLower(msg), "not found") <==> r == Missing
    ensures r == Drift <==>
      !Contains(ToLower(msg), "not found") && Contains(ToLower(msg), "not as specified")
    ensures r == GenericViolation <==>
      !Contains(ToLower(msg), "not found") && !Contains(ToLower(msg), "not as specified") &&
      Contains(ToLower(msg), "violation")
  {
    var lower := ToLower(msg);
    if Contains(lower, "not found") then Missing
    else if Contains(lower, "not as specified") then Drift
    else if Contains(lower, "violation") then GenericViolation
    else Unknown
  }

  /** The two classifiers agree on missing and drifted resources: they
      make the same first two tests. */
  lemma CategoryAgreesWithDiagnosis(msg: string)
    ensures CategoryOf(msg) == Missing <==> DiagnosePolicy.Classify(msg) == DiagnosePolicy.ResourceMissing
    ensures CategoryOf(msg) == Drift <==> DiagnosePolicy.Classify(msg) == DiagnosePolicy.ResourceDrift
  {
  }

  /** `classifyViolationMessage`: sets the category from `msg` and cuts the
      violation's stored message to 300 bytes and "...". */
  function ClassifyViolationMessage(v: Violation, msg: string): (r: Violation)
    ensures r.violationType == CategoryOf(msg)
    ensures r.(violationType := v.violationType, message := v.message) == v
    ensures |v.message| <= DiagnosePolicy.MaxViolationMessageLen ==> r.message == v.message
    ensures |v.message| > DiagnosePolicy.MaxViolationMessageLen ==>
      |r.message| == DiagnosePolicy.MaxViolationMessageLen + 3 &&
      HasPrefix(v.message, r.message[..DiagnosePolicy.MaxViolationMessageLen])
  {
    v.(violationType := CategoryOf(msg), message := DiagnosePolicy.Truncate(v.message))
  }

  /** The guard of `parseResourceFromMessage`. */
  predicate Bracketed(msg: string) {
    |msg| >= 2 && msg[0] == '[' && Contains(msg, "]")
  }

  /** The namespace after the first "in namespace " of `rest`, up to the
      first space or tab; `prev` when the marker is absent. */
  function NamespaceAfter(rest: string, prev: string): string {
    var nsIdx := IndexOf(rest, DiagnosePolicy.NamespaceMarker);
    if nsIdx < 0 then prev
    else
      var after := rest[nsIdx + |DiagnosePolicy.NamespaceMarker|..];
      var sp := IndexAny(after, DiagnosePolicy.Blank);
      if sp > 0 then after[..sp] else after
  }

  /** The first space- or tab-delimited word of `rest`, all of it when it
      has one word, `prev` when it is empty. */
  function NameAfter(rest: string, prev: string): string {
    var idx := IndexAny(rest, DiagnosePolicy.Blank);
    if idx > 0 then rest[..idx] else if rest != "" then rest else prev
  }

  /** The trimmed text after the first ']' of a bracketed message. */
  function AfterBracket(msg: string): string
    requires Bracketed(msg)
  {
    TrimSpace(msg[IndexOf(msg, "]") + 1..])
  }

  /** `parseResourceFromMessage`: only a message of at least two bytes that
      starts with '[' and holds a ']' sets anything. */
  function ParseResourceFromMessage(v: Violation, msg: string): (r: Violation)
    ensures !Bracketed(msg) ==> r == v
    ensures r.(resourceKind := v.resourceKind, resourceName := v.resourceName, namespace := v.namespace) == v
  {
    if !Bracketed(msg) then v
    else
      var close := IndexOf(msg, "]");
      IndexOfChar(msg, ']');
      var rest := AfterBracket(msg);
      v.(resourceKind := msg[1..close], resourceName := NameAfter(rest, v.resourceName),
         namespace := NamespaceAfter(rest, v.namespace))
  }

  /** A bracketed message: the kind is the text between the leading '['
      and the first ']', and holds no ']'. */
  lemma ParseResourceKind(v: Violation, msg: string)
    requires Bracketed(msg)
    ensures var r := ParseResourceFromMessage(v, msg); var close := IndexOf(msg, "]");
      0 < close && r.resourceKind == msg[1..close] && Avoids(r.resourceKind, ']')
  {
    var close := IndexOf(msg, "]");
    IndexOfChar(msg, ']');
    var kind := msg[1..close];
    forall k | 0 <= k < |kind| ensures kind[k] != ']' {
      assert kind[k] == msg[k + 1];
    }
  }

  /** On a trimmed text, the name is empty only when the text is, and it
      otherwise ends at the first space or tab. */
  lemma NameAfterShape(rest: string, prev: string)
    requires rest == [] || !IsSpace(rest[0])
    ensures rest == [] ==> NameAfter(rest, prev) == prev
    ensures rest != [] && IndexAny(rest, DiagnosePolicy.Blank) < 0 ==> NameAfter(rest, prev) == rest
    ensures IndexAny(rest, DiagnosePolicy.Blank) >= 0 ==>
      var name := NameAfter(rest, prev);
      name != [] && HasPrefix(rest, name) && rest[|name|] in DiagnosePolicy.Blank &&
      forall k :: 0 <= k < |name| ==> name[k] !in DiagnosePolicy.Blank
  {
    if IndexAny(rest, DiagnosePolicy.Blank) >= 0 {
      assert rest[0] !in DiagnosePolicy.Blank;
    }
  }

  /** A bracketed message: the name is the first space- or tab-delimited
      word after the bracket, the whole remainder when it has one word, and
      is left alone when nothing follows the bracket. */
  lemma ParseResourceName(v: Violation, msg: string)
    requires Bracketed(msg)
    ensures var r := ParseResourceFromMessage(v, msg); var rest := AfterBracket(msg);
      (rest == [] ==> r.resourceName == v.resourceName) &&
      (rest != [] && IndexAny(rest, DiagnosePolicy.Blank) < 0 ==> r.resourceName == rest) &&
      (IndexAny(rest, DiagnosePolicy.Blank) >= 0 ==>
        r.resourceName != [] && HasPrefix(rest, r.resourceName) && rest[|r.resourceName|] in DiagnosePolicy.Blank &&
        forall k :: 0 <= k < |r.resourceName| ==> r.resourceName[k] !in DiagnosePolicy.Blank)
  {
    var close := IndexOf(msg, "]");
    IndexOfChar(msg, ']');
    TrimSpaceShape(msg[close + 1..]);
    NameAfterShape(AfterBracket(msg), v.resourceName);
  }

  /** The namespace runs from the first "in namespace " to the first space
      or tab (a ';' or ',' stays in it), and is `prev` without the marker. */
  lemma NamespaceAfterShape(rest: string, prev: string)
    ensures var ns := NamespaceAfter(rest, prev); var i := IndexOf(rest, DiagnosePolicy.NamespaceMarker);
      (i < 0 ==> ns == prev) &&
      (i >= 0 ==>
        var after := rest[i + |DiagnosePolicy.NamespaceMarker|..];
        HasPrefix(after, ns) &&
        (IndexAny(after, DiagnosePolicy.Blank) <= 0 ==> ns == after) &&
        (IndexAny(after, DiagnosePolicy.Blank) > 0 ==>
          after[|ns|] in DiagnosePolicy.Blank &&
          forall k :: 0 <= k < |ns| ==> ns[k] !in DiagnosePolicy.Blank))
  {
  }

  /** The violation made from the first history message `msg` of a detail
      of template `templateName`, on cluster `cluster` ("" for the root
      policy's own details). */
  function ViolationFor(templateName: string, msg: string, cluster: string): Violation {
    var v := Violation(templateName, cluster, Unknown, "", "", "", msg);
    ParseResourceFromMessage(ClassifyViolationMessage(v, msg), msg)
  }

  /** The violations made, in order, from (template, message) entries. */
  function ViolationsOf(entries: seq<(string, string)>, cluster: string): (r: seq<Violation>)
    ensures |r| == |entries|
  {
    seq(|entries|, i requires 0 <= i < |entries| => ViolationFor(entries[i].0, entries[i].1, cluster))
  }

  /** One more entry adds its violation at the end. */
  lemma ViolationsOfSnoc(entries: seq<(string, string)>, e: (string, string), cluster: string)
    ensures ViolationsOf(entries + [e], cluster) == ViolationsOf(entries, cluster) + [ViolationFor(e.0, e.1, cluster)]
  {
    var r := ViolationsOf(entries + [e], cluster);
    assert forall k :: 0 <= k < |entries| ==> (entries + [e])[k] == entries[k];
    assert r[..|entries|] == ViolationsOf(entries, cluster);
  }

  /** Each violation keeps its template and cluster, is classified from its
      full message, and stores that message cut to 300 bytes. */
  lemma ViolationForShape(templateName: string, msg: string, cluster: string)
    ensures var v := ViolationFor(templateName, msg, cluster);
      v.templateName == templateName && v.clusterName == cluster &&
      v.violationType == CategoryOf(msg) && v.message == DiagnosePolicy.Truncate(msg)
    ensures !Bracketed(msg) ==>
      var v := ViolationFor(templateName, msg, cluster);
      v.resourceKind == v.resourceName == v.namespace == ""
  {
  }

  /** The violations of a detail list, or None when a detail panics. */
  method ViolationsFromDetails(details: seq<Json>, cluster: string) returns (r: Option<seq<Violation>>)
    ensures r.None? <==> Diagnosis.Entries(details).None?
    ensures r.Some? ==> r.value == ViolationsOf(Diagnosis.Entries(details).value, cluster)
  {
    var vs: seq<Violation> := [];
    ghost var es: seq<(string, string)> := [];
    var i := 0;
    while i < |details|
      invariant 0 <= i <= |details|
      invariant Diagnosis.Entries(details[..i]) == Some(es)
      invariant vs == ViolationsOf(es, cluster)
    {
      Diagnosis.EntriesStep(details, i, es);
      match Diagnosis.OutcomeOf(details[i]) {
        case Panic =>
          Diagnosis.EntriesPanicPersists(details, i + 1);
          return None;
        case Skip =>
        case Entry(templateName, msg) =>
          var v := Violation(templateName, cluster, Unknown, "", "", "", msg);
          v := ClassifyViolationMessage(v, msg);
          v := ParseResourceFromMessage(v, msg);
          ViolationsOfSnoc(es, (templateName, msg), cluster);
          es := es + [(templateName, msg)];
          vs := vs + [v];
      }
      i := i + 1;
    }
    assert details[..i] == details;
    return Some(vs);
  }

  // ---------------------------------------------------------------------
  // `parsePolicyInspection`

  /** The `templateInfo` of a `policy-templates` element: one per object,
      whatever its kind, with "" for a missing field. */
  function TemplateOf(t: Json): Option<TemplateInfo> {
    if t.JObject? then
      Some(TemplateInfo(NestedString(t, ["objectDefinition", "metadata", "name"]),
                        NestedString(t, ["objectDefinition", "kind"])))
    else None
  }

  function TemplatesOf(ts: seq<Json>): seq<TemplateInfo> {
    if ts == [] then [] else TemplatesOf(ts[..|ts| - 1]) + Diagnosis.AsSeq(TemplateOf(ts[|ts| - 1]))
  }

  /** Every object of `policy-templates` yields exactly one template, in
      order, whatever its kind; nothing else yields one. */
  lemma {:induction false} TemplatesOfObjects(ts: seq<Json>)
    ensures |TemplatesOf(ts)| == |Objects(ts)|
    ensures forall i :: 0 <= i < |Objects(ts)| ==> Some(TemplatesOf(ts)[i]) == TemplateOf(Objects(ts)[i])
  {
    if ts != [] {
      var init := ts[..|ts| - 1];
      TemplatesOfObjects(init);
    }
  }

  /** The objects of a sequence, in order. */
  function Objects(ts: seq<Json>): seq<Json> {
    if ts == [] then []
    else Objects(ts[..|ts| - 1]) + (if ts[|ts| - 1].JObject? then [ts[|ts| - 1]] else [])
  }

  /** The `clusterCompliance` an element of `status.status` contributes:
      one per object whose cluster passes the filter, Compliant or not. */
  function AffectedOne(s: Json, clusterFilter: string): (r: Option<ClusterCompliance>)
    ensures r.Some? <==> s.JObject? && (clusterFilter == "" || Str(s, "clustername") == clusterFilter)
    ensures r.Some? ==> r.value == ClusterCompliance(Str(s, "clustername"), Str(s, "compliant"))
  {
    if !s.JObject? then None
    else
      var clusterName := Str(s, "clustername");
      if clusterFilter != "" && clusterName != clusterFilter then None
      else Some(ClusterCompliance(clusterName, Str(s, "compliant")))
  }

  function AffectedOf(statusList: seq<Json>, clusterFilter: string): seq<ClusterCompliance> {
    if statusList == [] then []
    else
      AffectedOf(statusList[..|statusList| - 1], clusterFilter) +
      Diagnosis.AsSeq(AffectedOne(statusList[|statusList| - 1], clusterFilter))
  }

  /** A cluster is affected exactly when some status entry names it and
      passes the filter; its compliance, even Compliant, is kept. */
  lemma {:induction false} AffectedOfMembers(statusList: seq<Json>, clusterFilter: string, c: ClusterCompliance)
    ensures c in AffectedOf(statusList, clusterFilter) <==>
      exists i :: 0 <= i < |statusList| && AffectedOne(statusList[i], clusterFilter) == Some(c)
  {
    if statusList != [] {
      var init := statusList[..|statusList| - 1];
      AffectedOfMembers(init, clusterFilter, c);
      assert forall i :: 0 <= i < |init| ==> init[i] == statusList[i];
      if c in AffectedOf(statusList, clusterFilter) && c !in AffectedOf(init, clusterFilter) {
        assert AffectedOne(statusList[|statusList| - 1], clusterFilter) == Some(c);
      }
    }
  }

  function Compliance(policy: Json): string {
    NestedString(policy, ["status", "compliant"])
  }

  function StatusList(policy: Json): seq<Json> {
    NestedSlice(policy, ["status", "status"])
  }

  function Templates(policy: Json): seq<Json> {
    NestedSlice(policy, ["spec", "policy-templates"])
  }

  /** The affected clusters: those of `status.status`, or, when there are
      none, the policy's own namespace with the policy's compliance. */
  function AffectedClusters(policy: Json, clusterFilter: string): seq<ClusterCompliance> {
    var a := AffectedOf(StatusList(policy), clusterFilter);
    if a == [] && GetNamespace(policy) != "" then [ClusterCompliance(GetNamespace(policy), Compliance(policy))]
    else a
  }

  /** Without a status cluster passing the filter, a policy that has a
      namespace is its own single affected cluster; without a namespace,
      no cluster is affected. */
  lemma AffectedFallback(policy: Json, clusterFilter: string)
    requires AffectedOf(StatusList(policy), clusterFilter) == []
    ensures GetNamespace(policy) != "" ==>
      AffectedClusters(policy, clusterFilter) == [ClusterCompliance(GetNamespace(policy), Compliance(policy))]
    ensures GetNamespace(policy) == "" ==> AffectedClusters(policy, clusterFilter) == []
  {
  }

  /** What `parsePolicyInspection` returns: None when a detail panics. */
  function InspectionOf(policy: Json, clusterFilter: string): Option<PolicyInspection> {
    match Diagnosis.Entries(Diagnosis.Details(policy))
    case None => None
    case Some(es) =>
      Some(PolicyInspection("", "", Compliance(policy), AffectedClusters(policy, clusterFilter),
                            TemplatesOf(Templates(policy)), ViolationsOf(es, ""), ""))
  }

  /** One more template adds its summary, if it has one, at the end. */
  lemma TemplatesStep(ts: seq<Json>, i: nat)
    requires i < |ts|
    ensures TemplatesOf(ts[..i + 1]) == TemplatesOf(ts[..i]) + Diagnosis.AsSeq(TemplateOf(ts[i]))
  {
    assert ts[..i + 1][..i] == ts[..i];
  }

  /** One more status entry adds its cluster, if it passes the filter, at the end. */
  lemma AffectedStep(statusList: seq<Json>, clusterFilter: string, i: nat)
    requires i < |statusList|
    ensures AffectedOf(statusList[..i + 1], clusterFilter) ==
      AffectedOf(statusList[..i], clusterFilter) + Diagnosis.AsSeq(AffectedOne(statusList[i], clusterFilter))
  {
    assert statusList[..i + 1][..i] == statusList[..i];
  }

  /** `parsePolicyInspection`. */
  method ParsePolicyInspection(policy: Json, clusterFilter: string) returns (r: Option<PolicyInspection>)
    ensures r == InspectionOf(policy, clusterFilter)
  {
    var compliance := NestedString(policy, ["status", "compliant"]);

    var templates := Templates(policy);
    var infos: seq<TemplateInfo> := [];
    var i := 0;
    while i < |templates|
      invariant 0 <= i <= |templates|
      invariant infos == TemplatesOf(templates[..i])
    {
      TemplatesStep(templates, i);
      var t := templates[i];
      if t.JObject? {
        var name := NestedString(t, ["objectDefinition", "metadata", "name"]);
        var kind := NestedString(t, ["objectDefinition", "kind"]);
        infos := infos + [TemplateInfo(name, kind)];
      }
      i := i + 1;
    }
    assert templates[..i] == templates;

    var statusList := StatusList(policy);
    var affected: seq<ClusterCompliance> := [];
    i := 0;
    while i < |statusList|
      invariant 0 <= i <= |statusList|
      invariant affected == AffectedOf(statusList[..i], clusterFilter)
    {
      AffectedStep(statusList, clusterFilter, i);
      var s := statusList[i];
      if s.JObject? {
        var clusterName := Str(s, "clustername");
        var state := Str(s, "compliant");
        if clusterFilter == "" || clusterName == clusterFilter {
          affected := affected + [ClusterCompliance(clusterName, state)];
        }
      }
      i := i + 1;
    }
    assert statusList[..i] == statusList;

    var ns := GetNamespace(policy);
    if |affected| == 0 && ns != "" {
      affected := affected + [ClusterCompliance(ns, compliance)];
    }

    assert affected == AffectedClusters(policy, clusterFilter);
    assert infos == TemplatesOf(Templates(policy));
    var violations := ViolationsFromDetails(Diagnosis.Details(policy), "");
    if violations.None? {
      return None;
    }
    r := Some(PolicyInspection("", "", compliance, affected, infos, violations.value, ""));
  }

  // ---------------------------------------------------------------------
  // `enrichViolationsFromPropagated`

  /** The violations read from the propagated copies of the policy for the
      given clusters, in order; None when a detail panics. Compliant
      clusters and copies that cannot be read add nothing. */
  function PropagatedViolations(inspector: Inspector, clusters: seq<ClusterCompliance>,
                                namespace: string, policyName: string): Option<seq<Violation>>
  {
    if clusters == [] then Some([])
    else
      match PropagatedViolations(inspector, clusters[..|clusters| - 1], namespace, policyName)
      case None => None
      case Some(vs) =>
        var c := clusters[|clusters| - 1];
        if c.complianceState == Compliant then Some(vs)
        else
          match inspector.GetResource(Diagnosis.PropagatedName(namespace, policyName), c.clusterName)
          case None => Some(vs)
          case Some(p) =>
            match Diagnosis.Entries(Diagnosis.Details(p))
            case None => None
            case Some(es) => Some(vs + ViolationsOf(es, c.clusterName))
  }

  /** Every violation read from a propagated copy names a cluster that is
      affected, not Compliant, and whose copy could be read. */
  lemma {:induction false} PropagatedFromReadableClusters(inspector: Inspector, clusters: seq<ClusterCompliance>,
                                                          namespace: string, policyName: string)
    requires PropagatedViolations(inspector, clusters, namespace, policyName).Some?
    ensures forall v :: v in PropagatedViolations(inspector, clusters, namespace, policyName).value ==>
      exists c :: c in clusters && v.clusterName == c.clusterName && c.complianceState != Compliant &&
        inspector.GetResource(Diagnosis.PropagatedName(namespace, policyName), c.clusterName).Some?
  {
    if clusters != [] {
      var init := clusters[..|clusters| - 1];
      var c := clusters[|clusters| - 1];
      PropagatedFromReadableClusters(inspector, init, namespace, policyName);
      var vs := PropagatedViolations(inspector, init, namespace, policyName).value;
      var all := PropagatedViolations(inspector, clusters, namespace, policyName).value;
      forall v | v in all
        ensures exists c :: (c in clusters && v.clusterName == c.clusterName && c.complianceState != Compliant &&
                             inspector.GetResource(Diagnosis.PropagatedName(namespace, policyName), c.clusterName).Some?)
      {
        if v in vs {
          var c0 :| c0 in init && v.clusterName == c0.clusterName && c0.complianceState != Compliant &&
            inspector.GetResource(Diagnosis.PropagatedName(namespace, policyName), c0.clusterName).Some?;
          assert c0 in clusters;
        } else {
          var es := Diagnosis.Entries(Diagnosis.Details(
            inspector.GetResource(Diagnosis.PropagatedName(namespace, policyName), c.clusterName).value)).value;
          var added := ViolationsOf(es, c.clusterName);
          assert all == vs + added;
          var k :| 0 <= k < |added| && added[k] == v;
          assert v.clusterName == c.clusterName;
        }
      }
    }
  }

  /** `enrichViolationsFromPropagated`: appends to the result's
      violations; nothing else changes. */
  method EnrichViolationsFromPropagated(inspector: Inspector, result: PolicyInspection)
    returns (r: Option<PolicyInspection>)
    ensures match PropagatedViolations(inspector, result.affectedClusters, result.namespace, result.policyName)
      case None => r.None?
      case Some(vs) => r == Some(result.(violations := result.violations + vs))
  {
    var clusters := result.affectedClusters;
    var added: seq<Violation> := [];
    var i := 0;
    while i < |clusters|
      invariant 0 <= i <= |clusters|
      invariant PropagatedViolations(inspector, clusters[..i], result.namespace, result.policyName) == Some(added)
    {
      assert clusters[..i + 1][..i] == clusters[..i];
      var cluster := clusters[i];
      if cluster.complianceState != Compliant {
        var propagatedName := Diagnosis.PropagatedName(result.namespace, result.policyName);
        var propagated := inspector.GetResource(propagatedName, cluster.clusterName);
        if propagated.Some? {
          var vs := ViolationsFromDetails(Diagnosis.Details(propagated.value), cluster.clusterName);
          if vs.None? {
            PropagatedPanicPersists(inspector, clusters, result.namespace, result.policyName, i + 1);
            return None;
          }
          added := added + vs.value;
        }
      }
      i := i + 1;
    }
    assert clusters[..i] == clusters;
    r := Some(result.(violations := result.violations + added));
  }

  /** A panic for one cluster is a panic of the whole walk. */
  lemma {:induction false} PropagatedPanicPersists(inspector: Inspector, clusters: seq<ClusterCompliance>,
                                                   namespace: string, policyName: string, i: nat)
    requires i <= |clusters| && PropagatedViolations(inspector, clusters[..i], namespace, policyName).None?
    ensures PropagatedViolations(inspector, clusters, namespace, policyName).None?
    decreases |clusters| - i
  {
    if i < |clusters| {
      assert clusters[..i + 1][..i] == clusters[..i];
      PropagatedPanicPersists(inspector, clusters, namespace, policyName, i + 1);
    } else {
      assert clusters[..i] == clusters;
    }
  }

  // ---------------------------------------------------------------------
  // The handler's logic

  /** How `HandleInspectACMPolicy` ends: a tool error, a panic that its
      deferred `recover` swallows (no result), or the inspection. */
  datatype InspectOutcome = ToolError(text: string) | Recovered | Inspected(report: PolicyInspection)

  const PolicyNameRequired: string := "'policy_name' is required"
  const NextStepHead: string :=
    "MANDATORY: You MUST continue the investigation. Do NOT stop here. Do NOT give text-only advice. " +
    "Step 1: Use openshift-mcp-server's resources_get or resources_list with cluster='"
  const NextStepMiddle: string :=
    "' to inspect the violated resources on the managed cluster. " +
    "Step 2: For OLM-related violations (Subscription, CSV), call trace_olm_subscription with cluster='"
  const NextStepTail: string :=
    "'. Step 3: Present your findings based on the actual tool results. " +
    "NEVER suggest kubectl commands. ALWAYS use the MCP tools."

  /** The instruction for a cluster, which it names twice. */
  function NextStepText(cluster: string): (r: string)
    ensures r != ""
  {
    NextStepHead + cluster + NextStepMiddle + cluster + NextStepTail
  }

  /** The instruction names the cluster to investigate. */
  lemma NextStepNamesCluster(cluster: string)
    ensures HasPrefix(NextStepText(cluster), NextStepHead + cluster + NextStepMiddle + cluster)
  {
    var p := NextStepHead + cluster + NextStepMiddle + cluster;
    assert NextStepText(cluster) == p + NextStepTail;
    assert NextStepText(cluster)[..|p|] == p;
  }

  /** The `NextStep` rule: set exactly when there are violations and
      affected clusters, and then it names the first affected cluster. */
  function WithNextStep(result: PolicyInspection): (r: PolicyInspection)
    ensures r.(nextStep := result.nextStep) == result
    ensures |result.violations| > 0 && |result.affectedClusters| > 0 ==>
      r.nextStep == NextStepText(result.affectedClusters[0].clusterName)
    ensures |result.violations| == 0 || |result.affectedClusters| == 0 ==> r == result
  {
    if |result.violations| > 0 && |result.affectedClusters| > 0 then
      result.(nextStep := NextStepText(result.affectedClusters[0].clusterName))
    else result
  }

  /** The logic of `HandleInspectACMPolicy` after the hub client exists:
      resolve, inspect, read the propagated copies when some cluster is
      affected, and add the instruction. */
  method InspectACMPolicy(inspector: Inspector, policyName: string, namespace: string, cluster: string)
    returns (out: InspectOutcome)
    ensures policyName == "" ==> out == ToolError(PolicyNameRequired)
    ensures policyName != "" && Resolution(inspector, policyName, namespace).Failure? ==>
      out == ToolError(Resolution(inspector, policyName, namespace).error.Text())
    ensures out.Inspected? ==>
      var res := Resolution(inspector, policyName, namespace);
      var report := out.report;
      policyName != "" && res.Success? &&
      report.policyName == policyName && report.namespace == res.value.1 &&
      InspectionOf(res.value.0, cluster).Some? &&
      report.affectedClusters == AffectedClusters(res.value.0, cluster) &&
      (report.nextStep != "" <==> |report.violations| > 0 && |report.affectedClusters| > 0) &&
      (report.nextStep != "" ==> report.nextStep == NextStepText(report.affectedClusters[0].clusterName))
    ensures out.Recovered? ==>
      var res := Resolution(inspector, policyName, namespace);
      res.Success? &&
      (InspectionOf(res.value.0, cluster).None? ||
       PropagatedViolations(inspector, AffectedClusters(res.value.0, cluster), res.value.1, policyName).None?)
    ensures policyName != "" && Resolution(inspector, policyName, namespace).Success? ==>
      var (policy, ns) := Resolution(inspector, policyName, namespace).value;
      match InspectionOf(policy, cluster)
      case None => out == Recovered
      case Some(parsed) =>
        var base := parsed.(policyName := policyName, namespace := ns);
        if base.affectedClusters == [] then out == Inspected(WithNextStep(base))
        else
          match PropagatedViolations(inspector, base.affectedClusters, ns, policyName)
          case None => out == Recovered
          case Some(vs) => out == Inspected(WithNextStep(base.(violations := base.violations + vs)))
  {
    if policyName == "" {
      return ToolError(PolicyNameRequired);
    }
    var resolved := ResolvePolicy(inspector, policyName, namespace);
    if resolved.Failure? {
      return ToolError(resolved.error.Text());
    }
    var (policy, resolvedNS) := resolved.value;
    var parsed := ParsePolicyInspection(policy, cluster);
    if parsed.None? {
      return Recovered;
    }
    var result := parsed.value.(policyName := policyName, namespace := resolvedNS);
    if |result.affectedClusters| > 0 {
      var enriched := EnrichViolationsFromPropagated(inspector, result);
      if enriched.None? {
        return Recovered;
      }
      result := enriched.value;
    }
    result := WithNextStep(result);
    return Inspected(result);
  }
}

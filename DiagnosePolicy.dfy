/** The diagnosis of a non-compliant ACM policy (pkg/mcpserver/diagnose_policy.go):
    the violation-message parser and classifier, the desired-state index
    built from the policy's ConfigurationPolicy templates and the matcher
    over it, the suggested next tool call, and the per-cluster aggregation. */
module DiagnosePolicy {
  import opened Wrappers
  import opened Strings
  import opened Json
  import opened DesiredStates

  const ComplianceCompliant: string := "Compliant"
  const MaxViolationMessageLen: nat := 300
  const Server: string := "openshift-mcp-server"
  const DefaultOperatorNamespace: string := "openshift-operators"

  /** The violation taxonomy the diagnosis assigns. */
  datatype ViolationType = OLMStuck | ResourceMissing | ResourceDrift | Unknown
  {
    function Name(): string {
      match this
      case OLMStuck => "olm_stuck"
      case ResourceMissing => "resource_missing"
      case ResourceDrift => "resource_drift"
      case Unknown => "unknown"
    }
  }

  /** The (kind, name, namespace) a violation message names; empty strings
      where the message does not say. */
  datatype Resource = Resource(kind: string, name: string, namespace: string)

  /** A proposed next call to a tool of another MCP server. */
  datatype SuggestedCall = SuggestedCall(server: string, tool: string, args: map<string, Json>)

  // ---------------------------------------------------------------------
  // Violation messages

  const Blank: set<char> := {' ', '\t'}
  const NamespaceEnd: set<char> := {' ', '\t', ';', ','}
  const NamespaceMarker: string := "in namespace "
  const ViolationMarker: string := "violation - "

  /** `parseViolationResource`. White space around the detail is ignored;
      a blank detail names no resource. */
  function ParseViolationResource(detail: string): (r: Resource)
    ensures TrimSpace(detail) == [] ==> r == Resource("", "", "")
  {
    var d := TrimSpace(detail);
    if d == [] then Resource("", "", "")
    else
      var (kind, name) := KindAndName(d);
      Resource(kind, name, NamespaceIn(d))
  }

  /** The two message grammars: `kind [name] ...` and `[kind] name ...`. */
  function KindAndName(d: string): (string, string)
    requires d != []
  {
    if d[0] != '[' then KindThenName(d) else BracketedKind(d)
  }

  /** `kind [name] ...`, or a bare `kind ...` without brackets. */
  function KindThenName(d: string): (string, string) {
    var open := IndexOf(d, "[");
    if open > 0 then
      var close := IndexOf(d[open..], "]");
      (TrimSpace(d[..open]), if close > 0 then d[open + 1..open + close] else "")
    else
      var sp := IndexAny(d, Blank);
      (if sp > 0 then d[..sp] else "", "")
  }

  /** `[kind] name ...`. */
  function BracketedKind(d: string): (string, string) {
    var close := IndexOf(d, "]");
    if close > 0 then
      var rest := TrimSpace(d[close + 1..]);
      var idx := IndexAny(rest, Blank);
      (d[1..close], if idx > 0 then rest[..idx] else rest)
    else ("", "")
  }

  /** The text after the first "in namespace " up to the first space, tab,
      ';' or ','; the whole remainder when no such character follows at a
      positive offset; "" without the marker. */
  function NamespaceIn(d: string): string {
    var i := IndexOf(d, NamespaceMarker);
    if i < 0 then ""
    else
      var after := d[i + |NamespaceMarker|..];
      var sp := IndexAny(after, NamespaceEnd);
      if sp > 0 then after[..sp] else after
  }

  /** The part of a message the parser sees: the text after the first
      "violation - ", or the whole message. */
  function ViolationText(msg: string): (r: string)
    ensures IndexOf(msg, ViolationMarker) < 0 ==> r == msg
    ensures IndexOf(msg, ViolationMarker) >= 0 ==>
      msg == msg[..IndexOf(msg, ViolationMarker)] + ViolationMarker + r
  {
    var i := IndexOf(msg, ViolationMarker);
    if i >= 0 then msg[i + |ViolationMarker|..] else msg
  }

  /** The switch of `classifyAndEnrich`: first match over the lower-cased
      message. */
  function Classify(msg: string): ViolationType {
    var lower := ToLower(msg);
    if Contains(lower, "not found") then ResourceMissing
    else if Contains(lower, "not as specified") then ResourceDrift
    else if Contains(lower, "installplan") || Contains(lower, "clusterserviceversion") then OLMStuck
    else Unknown
  }

  /** `len(msg) > 300` keeps the first 300 bytes and appends "...". */
  function Truncate(msg: string): (r: string)
    ensures |msg| <= MaxViolationMessageLen ==> r == msg
    ensures |msg| > MaxViolationMessageLen ==>
      |r| == MaxViolationMessageLen + 3 && HasPrefix(msg, r[..MaxViolationMessageLen]) &&
      r[MaxViolationMessageLen..] == "..."
  {
    if |msg| > MaxViolationMessageLen then msg[..MaxViolationMessageLen] + "..." else msg
  }

  // ---------------------------------------------------------------------
  // Parser properties

  /** Empty or white-space-only input names nothing. */
  lemma ParseBlank(detail: string)
    requires forall i :: 0 <= i < |detail| ==> IsSpace(detail[i])
    ensures ParseViolationResource(detail) == Resource("", "", "")
  {
    TrimSpaceShape(detail);
  }

  /** `kind [name] ...`: the kind is the trimmed text before the first '[',
      and the name is empty when no ']' follows. */
  lemma ParseKindThenBracket(detail: string)
    requires var d := TrimSpace(detail); d != [] && d[0] != '[' && IndexOf(d, "[") >= 0
    ensures var d := TrimSpace(detail);
      ParseViolationResource(detail).kind == TrimSpace(d[..IndexOf(d, "[")])
    ensures var d := TrimSpace(detail); var open := IndexOf(d, "[");
      IndexOf(d[open..], "]") < 0 ==> ParseViolationResource(detail).name == ""
  {
    var d := TrimSpace(detail);
    KindThenBracket(d);
    var (kind, name) := KindThenName(d);
    assert ParseViolationResource(detail) == Resource(kind, name, NamespaceIn(d));
  }

  /** `kind [name] ...` with a ']' after the '[': the name is the text
      between them, and holds no ']'. */
  lemma ParseBracketName(detail: string)
    requires var d := TrimSpace(detail); d != [] && d[0] != '[' && IndexOf(d, "[") >= 0
    ensures var d := TrimSpace(detail); var open := IndexOf(d, "[");
      var name := ParseViolationResource(detail).name;
      IndexOf(d[open..], "]") >= 0 ==> NameInBrackets(d, open, name)
  {
    var d := TrimSpace(detail);
    var open := IndexOf(d, "[");
    if IndexOf(d[open..], "]") >= 0 {
      ParsedName(detail);
      KindThenBracketName(d);
    }
  }

  /** The namespace is read the same way under both grammars. */
  lemma ParsedNamespace(detail: string)
    ensures ParseViolationResource(detail).namespace == NamespaceIn(TrimSpace(detail))
  {
  }

  lemma ParsedName(detail: string)
    requires var d := TrimSpace(detail); d != [] && d[0] != '['
    ensures ParseViolationResource(detail).name == KindThenName(TrimSpace(detail)).1
  {
  }

  /** The name of `kind [name]` stands right after the first '[', is
      followed by the first ']' after it, and holds no ']'. */
  lemma KindThenBracketName(d: string)
    requires d != [] && d[0] != '[' && IndexOf(d, "[") >= 0
    requires IndexOf(d[IndexOf(d, "[")..], "]") >= 0
    ensures NameInBrackets(d, IndexOf(d, "["), KindThenName(d).1)
  {
    var open := IndexOf(d, "[");
    IndexOfChar(d, '[');
    var tail := d[open..];
    IndexOfChar(tail, ']');
    var close := IndexOf(tail, "]");
    assert tail[0] == '[';
    forall k | open < k < open + close ensures d[k] != ']' {
      assert d[k] == tail[k - open];
    }
    assert d[open + close] == tail[close];
    var name := d[open + 1..open + close];
    assert open > 0 && close > 0;
    assert KindThenName(d) == (TrimSpace(d[..open]), name);
    BracketedName(d, open, close, name);
  }

  /** The text strictly between a '[' at `open` and the first ']' after it
      stands there, is followed by that ']' and holds none. */
  lemma BracketedName(d: string, open: nat, close: nat, name: string)
    requires 0 < close && open + close < |d| && d[open + close] == ']'
    requires forall k :: open < k < open + close ==> d[k] != ']'
    requires name == d[open + 1..open + close]
    ensures NameInBrackets(d, open, name)
  {
    forall k | 0 <= k < |name| ensures name[k] != ']' {
      assert name[k] == d[open + 1 + k];
    }
  }

  lemma KindThenBracket(d: string)
    requires d != [] && d[0] != '[' && IndexOf(d, "[") >= 0
    ensures KindThenName(d).0 == TrimSpace(d[..IndexOf(d, "[")])
    ensures IndexOf(d[IndexOf(d, "[")..], "]") < 0 ==> KindThenName(d).1 == ""
  {
    IndexOfChar(d, '[');
  }

  /** `name` stands in `d` right after the '[' at `open`, is followed by a
      ']' and holds none. */
  predicate NameInBrackets(d: string, open: int, name: string) {
    0 <= open && open + 1 + |name| < |d| && d[open + 1..open + 1 + |name|] == name &&
    d[open + 1 + |name|] == ']' && Avoids(name, ']')
  }

  /** Without any '[': the kind is the first space- or tab-delimited token
      when a space or tab follows it, "" for a single token, and the name is
      always empty. */
  lemma ParseNoBracket(detail: string)
    requires var d := TrimSpace(detail); d != [] && IndexOf(d, "[") < 0
    ensures var d := TrimSpace(detail); var r := ParseViolationResource(detail);
      r.name == "" &&
      (IndexAny(d, Blank) < 0 ==> r.kind == "") &&
      (IndexAny(d, Blank) >= 0 ==>
        r.kind != [] && |r.kind| < |d| && d[..|r.kind|] == r.kind && d[|r.kind|] in Blank &&
        forall k :: 0 <= k < |r.kind| ==> r.kind[k] !in Blank)
  {
    var d := TrimSpace(detail);
    OccursAtChar(d, '[', 0);
    TrimSpaceShape(detail);
  }

  /** `[kind] name ...`: the kind is the bracket text and the name is the
      first token after it (the whole trimmed remainder when it has no space
      or tab); both are empty when no ']' closes the bracket. */
  lemma ParseLeadingBracket(detail: string)
    requires var d := TrimSpace(detail); d != [] && d[0] == '['
    ensures var d := TrimSpace(detail); var r := ParseViolationResource(detail);
      IndexOf(d, "]") < 0 ==> r.kind == "" && r.name == ""
    ensures var d := TrimSpace(detail); IndexOf(d, "]") != 0
    ensures var d := TrimSpace(detail); var r := ParseViolationResource(detail);
      IndexOf(d, "]") > 0 ==> r.kind == d[1..IndexOf(d, "]")] && Avoids(r.kind, ']')
    ensures var d := TrimSpace(detail); var r := ParseViolationResource(detail);
      IndexOf(d, "]") > 0 ==>
      var rest := TrimSpace(d[IndexOf(d, "]") + 1..]);
      (IndexAny(rest, Blank) < 0 ==> r.name == rest) &&
      (IndexAny(rest, Blank) >= 0 ==>
        r.name != [] && |r.name| < |rest| && rest[..|r.name|] == r.name && rest[|r.name|] in Blank &&
        forall k :: 0 <= k < |r.name| ==> r.name[k] !in Blank)
  {
    var d := TrimSpace(detail);
    LeadingBracket(d);
    var (kind, name) := BracketedKind(d);
    assert ParseViolationResource(detail) == Resource(kind, name, NamespaceIn(d));
    assert Avoids(kind, ']');
  }

  lemma LeadingBracket(d: string)
    requires d != [] && d[0] == '['
    ensures IndexOf(d, "]") != 0
    ensures IndexOf(d, "]") < 0 ==> BracketedKind(d) == ("", "")
    ensures IndexOf(d, "]") > 0 ==> BracketedKind(d).0 == d[1..IndexOf(d, "]")]
    ensures Avoids(BracketedKind(d).0, ']')
    ensures IndexOf(d, "]") > 0 ==>
      var rest := TrimSpace(d[IndexOf(d, "]") + 1..]); var name := BracketedKind(d).1;
      (IndexAny(rest, Blank) < 0 ==> name == rest) &&
      (IndexAny(rest, Blank) >= 0 ==>
        name != [] && |name| < |rest| && rest[..|name|] == name && rest[|name|] in Blank &&
        forall k :: 0 <= k < |name| ==> name[k] !in Blank)
  {
    var close := IndexOf(d, "]");
    IndexOfChar(d, ']');
    if close >= 0 {
      BracketText(d, close);
      var rest := TrimSpace(d[close + 1..]);
      TrimSpaceShape(d[close + 1..]);
      FirstToken(rest);
    }
  }

  /** The text between a leading '[' and the first ']' holds no ']'. */
  lemma BracketText(d: string, close: int)
    requires 0 < close < |d| && forall k :: 0 <= k < close ==> d[k] != ']'
    ensures Avoids(d[1..close], ']')
  {
    var kind := d[1..close];
    assert forall k :: 0 <= k < |kind| ==> kind[k] == d[k + 1];
  }

  /** The first space- or tab-delimited token of a string that does not
      start with white space: the whole string without a space or tab. */
  lemma FirstToken(rest: string)
    requires rest == [] || !IsSpace(rest[0])
    ensures var idx := IndexAny(rest, Blank); var name := if idx > 0 then rest[..idx] else rest;
      (idx < 0 ==> name == rest) &&
      (idx >= 0 ==>
        name != [] && |name| < |rest| && rest[..|name|] == name && rest[|name|] in Blank &&
        forall k :: 0 <= k < |name| ==> name[k] !in Blank)
  {
  }

  /** The namespace does not depend on the grammar: it is "" without the
      marker, and otherwise a run of text that starts right after the first
      marker and, when a terminator follows at a positive offset, stops just
      before it; otherwise it is the whole remainder of the message. */
  lemma NamespaceShape(detail: string)
    ensures var d := TrimSpace(detail); var r := ParseViolationResource(detail);
      var i := IndexOf(d, NamespaceMarker);
      (i < 0 ==> r.namespace == "") &&
      (i >= 0 ==>
        var after := d[i + |NamespaceMarker|..];
        HasPrefix(after, r.namespace) &&
        (IndexAny(after, NamespaceEnd) <= 0 ==> r.namespace == after) &&
        (IndexAny(after, NamespaceEnd) > 0 ==>
          |r.namespace| < |after| && after[|r.namespace|] in NamespaceEnd &&
          forall k :: 0 <= k < |r.namespace| ==> r.namespace[k] !in NamespaceEnd))
  {
    ParsedNamespace(detail);
    NamespaceInShape(TrimSpace(detail));
  }

  /** The shape of the namespace found in a trimmed message. */
  lemma NamespaceInShape(d: string)
    ensures var ns := NamespaceIn(d); var i := IndexOf(d, NamespaceMarker);
      (i < 0 ==> ns == "") &&
      (i >= 0 ==>
        var after := d[i + |NamespaceMarker|..];
        HasPrefix(after, ns) &&
        (IndexAny(after, NamespaceEnd) <= 0 ==> ns == after) &&
        (IndexAny(after, NamespaceEnd) > 0 ==>
          |ns| < |after| && after[|ns|] in NamespaceEnd &&
          forall k :: 0 <= k < |ns| ==> ns[k] !in NamespaceEnd))
  {
    var i := IndexOf(d, NamespaceMarker);
    if i >= 0 {
      var after := d[i + |NamespaceMarker|..];
      var sp := IndexAny(after, NamespaceEnd);
      if sp > 0 {
        var ns := after[..sp];
        assert NamespaceIn(d) == ns;
        assert forall k :: 0 <= k < |ns| ==> ns[k] == after[k];
      }
    }
  }

  // ---------------------------------------------------------------------
  // Classification properties

  /** Classification ignores case: it reads the lower-cased message. */
  lemma ClassifyIgnoresCase(msg: string)
    ensures Classify(ToLower(msg)) == Classify(msg)
  {
    ToLowerIdempotent(msg);
  }

  /** The tests are made in order and the first that holds wins: a message
      that mentions "not found" is a missing resource whatever else it says,
      and one that mentions an InstallPlan is OLM trouble only when it
      mentions neither "not found" nor "not as specified". */
  lemma ClassifyFirstMatch(msg: string)
    ensures Contains(ToLower(msg), "not found") ==> Classify(msg) == ResourceMissing
    ensures Classify(msg) == OLMStuck <==>
      !Contains(ToLower(msg), "not found") && !Contains(ToLower(msg), "not as specified") &&
      (Contains(ToLower(msg), "installplan") || Contains(ToLower(msg), "clusterserviceversion"))
    ensures Classify(msg) == Unknown ==>
      forall p :: p in ["not found", "not as specified", "installplan", "clusterserviceversion"] ==>
        !Contains(ToLower(msg), p)
  {
  }

  // ---------------------------------------------------------------------
  // OLM kinds and the suggested call

  /** The kinds `isOLMKind` compares against, spelled as the code lists
      them: Subscription, ClusterServiceVersion, Operator, InstallPlan and
      CatalogSource, with their plural and fully-qualified spellings. */
  const OLMKindList: seq<string> := [
    "Subscription", "subscriptions", "subscriptions.operators.coreos.com",
    "ClusterServiceVersion", "clusterserviceversions",
    "Operator", "operators", "operators.operators.coreos.com",
    "InstallPlan", "installplans",
    "CatalogSource", "catalogsources"]

  /** The same kinds, lower-cased. `strings.EqualFold` is, on ASCII text,
      equality of the lower-cased forms, so a kind is compared once. */
  const OLMKindsLower: seq<string> := [
    "subscription", "subscriptions", "subscriptions.operators.coreos.com",
    "clusterserviceversion", "clusterserviceversions",
    "operator", "operators", "operators.operators.coreos.com",
    "installplan", "installplans",
    "catalogsource", "catalogsources"]

  /** The spellings `buildOLMToolCall` tests for the Operator custom
      resource, and their lower-cased forms. */
  const OperatorKindList: seq<string> := ["operators", "Operator", "operators.operators.coreos.com"]
  const OperatorKindsLower: seq<string> := ["operators", "operator", "operators.operators.coreos.com"]

  /** `isOLMKind`. */
  function IsOLMKind(kind: string): (r: bool)
    ensures r <==> exists k :: k in OLMKindList && EqualFold(kind, k)
  {
    LowerOLMKinds();
    FoldedLookup(kind, OLMKindList, OLMKindsLower);
    ToLower(kind) in OLMKindsLower
  }

  /** The `isOperatorCR` test of `buildOLMToolCall`. */
  function IsOperatorCR(kind: string): (r: bool)
    ensures r <==> exists k :: k in OperatorKindList && EqualFold(kind, k)
  {
    LowerOperatorKindList();
    FoldedLookup(kind, OperatorKindList, OperatorKindsLower);
    ToLower(kind) in OperatorKindsLower
  }

  /** Looking the lower-cased kind up among the lower-cased spellings
      answers whether some spelling equals the kind, ignoring case. */
  lemma FoldedLookup(kind: string, kinds: seq<string>, lowered: seq<string>)
    requires LowerCased(kinds, lowered)
    ensures ToLower(kind) in lowered <==> exists k :: k in kinds && EqualFold(kind, k)
  {
    if ToLower(kind) in lowered {
      var i :| 0 <= i < |lowered| && lowered[i] == ToLower(kind);
      assert kinds[i] in kinds && EqualFold(kind, kinds[i]);
    }
    if exists k :: k in kinds && EqualFold(kind, k) {
      var k :| k in kinds && EqualFold(kind, k);
      var i :| 0 <= i < |kinds| && kinds[i] == k;
      assert forall j :: 0 <= j < |k| ==> ToLower(kind)[j] == lowered[i][j];
      assert lowered[i] == ToLower(kind);
    }
  }

  /** `lowered` lists the spellings of `kinds`, lower-cased character by
      character, in order. */
  predicate LowerCased(kinds: seq<string>, lowered: seq<string>) {
    |kinds| == |lowered| &&
    forall i :: 0 <= i < |kinds| ==> LowerCasedOne(kinds[i], lowered[i])
  }

  predicate LowerCasedOne(k: string, l: string) {
    |k| == |l| && forall j :: 0 <= j < |k| ==> LowerChar(k[j]) == l[j]
  }

  /** Lists lowered piece by piece are lowered whole. */
  lemma LowerCasedConcat(k1: seq<string>, l1: seq<string>, k2: seq<string>, l2: seq<string>)
    requires LowerCased(k1, l1) && LowerCased(k2, l2)
    ensures LowerCased(k1 + k2, l1 + l2)
  {
    forall i | 0 <= i < |k1 + k2|
      ensures LowerCasedOne((k1 + k2)[i], (l1 + l2)[i])
    {
      if i >= |k1| {
        assert (k1 + k2)[i] == k2[i - |k1|] && (l1 + l2)[i] == l2[i - |l1|];
      }
    }
  }

  /** The lower-cased lists are the code's lists, lower-cased, a few
      spellings at a time. */
  lemma LowerOLMKinds()
    ensures LowerCased(OLMKindList, OLMKindsLower)
  {
    var s1, s1' := ["Subscription", "subscriptions"], ["subscription", "subscriptions"];
    var s2 := ["subscriptions.operators.coreos.com"];
    var c, c' := ["ClusterServiceVersion", "clusterserviceversions"], ["clusterserviceversion", "clusterserviceversions"];
    var o, o' := ["Operator", "operators", "operators.operators.coreos.com"], ["operator", "operators", "operators.operators.coreos.com"];
    var i, i' := ["InstallPlan", "installplans"], ["installplan", "installplans"];
    var g, g' := ["CatalogSource", "catalogsources"], ["catalogsource", "catalogsources"];
    LowerSubscription();
    LowerSubscriptionGroup();
    LowerCSV();
    LowerOperator();
    LowerInstallPlan();
    LowerCatalogSource();
    LowerCasedConcat(s1, s1', s2, s2);
    LowerCasedConcat(s1 + s2, s1' + s2, c, c');
    LowerCasedConcat(s1 + s2 + c, s1' + s2 + c', o, o');
    LowerCasedConcat(s1 + s2 + c + o, s1' + s2 + c' + o', i, i');
    LowerCasedConcat(s1 + s2 + c + o + i, s1' + s2 + c' + o' + i', g, g');
    assert OLMKindList == s1 + s2 + c + o + i + g;
    assert OLMKindsLower == s1' + s2 + c' + o' + i' + g';
  }

  lemma LowerSubscription()
    ensures LowerCased(["Subscription", "subscriptions"], ["subscription", "subscriptions"])
  {
  }

  lemma LowerSubscriptionGroup()
    ensures LowerCased(["subscriptions.operators.coreos.com"], ["subscriptions.operators.coreos.com"])
  {
  }

  lemma LowerCSV()
    ensures LowerCased(["ClusterServiceVersion", "clusterserviceversions"],
                       ["clusterserviceversion", "clusterserviceversions"])
  {
  }

  lemma LowerOperator()
    ensures LowerCased(["Operator", "operators", "operators.operators.coreos.com"],
                       ["operator", "operators", "operators.operators.coreos.com"])
  {
  }

  lemma LowerInstallPlan()
    ensures LowerCased(["InstallPlan", "installplans"], ["installplan", "installplans"])
  {
  }

  lemma LowerCatalogSource()
    ensures LowerCased(["CatalogSource", "catalogsources"], ["catalogsource", "catalogsources"])
  {
  }

  lemma LowerOperatorKindList()
    ensures LowerCased(OperatorKindList, OperatorKindsLower)
  {
  }

  /** Every spelling of the Operator resource is an OLM kind, and whether a
      kind is an OLM kind does not depend on its case. */
  lemma OperatorIsOLMKind(kind: string)
    ensures IsOperatorCR(kind) ==> IsOLMKind(kind)
    ensures IsOLMKind(kind) <==> IsOLMKind(ToLower(kind))
    ensures IsOperatorCR(kind) <==> IsOperatorCR(ToLower(kind))
  {
    ToLowerIdempotent(kind);
  }

  /** The subscription name and namespace the OLM trace asks about, before
      the default namespace is applied. */
  function SubscriptionTarget(kind: string, name: string, ns: string, sub: Option<SubscriptionRef>): (string, string) {
    if !IsOperatorCR(kind) then (name, ns)
    else
      match sub
      case Some(s) => (s.name, if s.namespace != "" then s.namespace else ns)
      case None =>
        if Contains(name, ".") then
          var i := IndexOf(name, ".");
          (name[..i], name[i + 1..])
        else (name, ns)
  }

  /** `buildOLMToolCall`, with the result of the Subscription search passed
      in: it is only consulted for the Operator resource. */
  function OLMToolCall(kind: string, name: string, ns: string, cluster: string,
                       sub: Option<SubscriptionRef>): SuggestedCall
  {
    var (subName, subNS) := SubscriptionTarget(kind, name, ns, sub);
    SuggestedCall(Server, "trace_olm_subscription",
      map["subscription_name" := JString(subName),
          "subscription_namespace" := JString(if subNS == "" then DefaultOperatorNamespace else subNS),
          "cluster" := JString(cluster)])
  }

  /** The arguments of `resources_get` and `resources_list`. */
  function ResourceArgs(resource: string, ns: string, cluster: string): map<string, Json> {
    var args := map["resource" := JString(resource), "cluster" := JString(cluster),
                    "clean_metadata" := JBool(true)];
    if ns != "" then args["namespace" := JString(ns)] else args
  }

  /** The non-OLM branches of `buildSuggestedCall`. */
  function ResourceCall(kind: string, name: string, ns: string, cluster: string): Option<SuggestedCall> {
    if kind != "" && name != "" then
      Some(SuggestedCall(Server, "resources_get", ResourceArgs(ToLower(kind) + "/" + name, ns, cluster)))
    else if kind != "" then
      Some(SuggestedCall(Server, "resources_list", ResourceArgs(ToLower(kind), ns, cluster)))
    else None
  }

  /** The OLM branch of `buildSuggestedCall` is taken. */
  predicate PromotesToOLM(t: ViolationType, kind: string, name: string) {
    (t == OLMStuck || IsOLMKind(kind)) && name != ""
  }

  /** What `buildSuggestedCall` may do to an issue classified `t0`: the new
      type `t` and the call `c`. The Subscription search is made, in an
      arbitrary order, only for the Operator resource. */
  ghost predicate ValidSuggestion(states: Index, t0: ViolationType, kind: string, name: string,
                                  ns: string, cluster: string, t: ViolationType, c: Option<SuggestedCall>)
  {
    if PromotesToOLM(t0, kind, name) then
      t == OLMStuck &&
      if IsOperatorCR(kind) then
        exists sub :: FoundSubscription(states, sub) && c == Some(OLMToolCall(kind, name, ns, cluster, sub))
      else c == Some(OLMToolCall(kind, name, ns, cluster, None))
    else t == t0 && c == ResourceCall(kind, name, ns, cluster)
  }

  /** The OLM trace always goes to `trace_olm_subscription` on the same
      server with exactly three arguments, and its namespace is never empty. */
  lemma OLMCallShape(kind: string, name: string, ns: string, cluster: string, sub: Option<SubscriptionRef>)
    ensures var c := OLMToolCall(kind, name, ns, cluster, sub);
      c.server == Server && c.tool == "trace_olm_subscription" &&
      c.args.Keys == {"subscription_name", "subscription_namespace", "cluster"} &&
      c.args["cluster"] == JString(cluster) &&
      c.args["subscription_namespace"].JString? && c.args["subscription_namespace"].s != ""
  {
  }

  /** Kinds other than the Operator resource keep the violation's name and
      namespace, with "openshift-operators" for a missing namespace. */
  lemma OLMCallKeepsName(kind: string, name: string, ns: string, cluster: string, sub: Option<SubscriptionRef>)
    requires !IsOperatorCR(kind)
    ensures var c := OLMToolCall(kind, name, ns, cluster, sub);
      c.args["subscription_name"] == JString(name) &&
      c.args["subscription_namespace"] == JString(if ns == "" then DefaultOperatorNamespace else ns)
  {
  }

  /** For the Operator resource without a Subscription in the index, a
      dotted name is split at its first '.': the name before it is the
      subscription, the text after it its namespace. */
  lemma OLMCallSplitsOperatorName(kind: string, name: string, ns: string, cluster: string)
    requires IsOperatorCR(kind) && Contains(name, ".")
    ensures var c := OLMToolCall(kind, name, ns, cluster, None);
      var subName := c.args["subscription_name"].s;
      var i := IndexOf(name, ".");
      c.args["subscription_name"].JString? &&
      name == subName + "." + name[i + 1..] && Avoids(subName, '.') &&
      c.args["subscription_namespace"] ==
        JString(if name[i + 1..] == "" then DefaultOperatorNamespace else name[i + 1..])
  {
    var i := IndexOf(name, ".");
    IndexOfChar(name, '.');
    assert name == name[..i] + "." + name[i + 1..];
  }

  /** For the Operator resource with a Subscription in the index, the trace
      names that Subscription, and its namespace when it has one. */
  lemma OLMCallUsesSubscription(kind: string, name: string, ns: string, cluster: string, s: SubscriptionRef)
    requires IsOperatorCR(kind)
    ensures var c := OLMToolCall(kind, name, ns, cluster, Some(s));
      c.args["subscription_name"] == JString(s.name) &&
      (s.namespace != "" ==> c.args["subscription_namespace"] == JString(s.namespace))
  {
  }

  /** The resource call: none without a kind; `resources_get` with a name,
      `resources_list` without; `clean_metadata` always set; a namespace
      argument exactly when the namespace is non-empty. */
  lemma ResourceCallShape(kind: string, name: string, ns: string, cluster: string)
    ensures var r := ResourceCall(kind, name, ns, cluster);
      (r.None? <==> kind == "") &&
      (r.Some? ==>
        r.value.server == Server &&
        (r.value.tool == "resources_get" <==> name != "") &&
        (r.value.tool == "resources_list" <==> name == "") &&
        r.value.args["clean_metadata"] == JBool(true) &&
        r.value.args["cluster"] == JString(cluster) &&
        ("namespace" in r.value.args <==> ns != "") &&
        HasPrefix(r.value.args["resource"].s, ToLower(kind)))
  {
  }

  // ---------------------------------------------------------------------
  // Issues

  /** A `diagnosedIssue`. Go builds each one as a local struct value,
      fills it in through a pointer and appends a copy, so it is modelled as
      a value that the filling-in operations return updated. */
  datatype Issue = Issue(
    violationType: ViolationType,
    templateName: string,
    resourceKind: string,
    resourceName: string,
    resourceNamespace: string,
    message: string,
    desiredState: Option<Fragment>,
    suggestedCall: Option<SuggestedCall>)

  /** The literal `diagnosedIssue{TemplateName: ..., Message: ...}`. Go
      leaves the type empty; `classifyAndEnrich` always sets it. */
  function NewIssue(templateName: string, message: string): (r: Issue)
    ensures r.templateName == templateName && r.message == message
    ensures r.resourceKind == r.resourceName == r.resourceNamespace == ""
    ensures r.desiredState.None? && r.suggestedCall.None?
  {
    Issue(Unknown, templateName, "", "", "", message, None, None)
  }

  /** What `classifyAndEnrich` leaves in an issue for message `msg`. */
  ghost predicate Enriched(rec: Issue, msg: string, cluster: string, templateName: string, states: Index) {
    Resource(rec.resourceKind, rec.resourceName, rec.resourceNamespace) == ParseViolationResource(ViolationText(msg)) &&
    ValidMatch(states, templateName, rec.resourceKind, rec.resourceName, rec.desiredState) &&
    ValidSuggestion(states, Classify(msg), rec.resourceKind, rec.resourceName, rec.resourceNamespace, cluster,
                    rec.violationType, rec.suggestedCall)
  }

  /** The enrichment does not depend on the issue's message. */
  lemma EnrichedIgnoresMessage(rec: Issue, m: string, msg: string, cluster: string, templateName: string, states: Index)
    requires Enriched(rec, msg, cluster, templateName, states)
    ensures Enriched(rec.(message := m), msg, cluster, templateName, states)
  {
  }

  /** The issue `enrichClusterDiagnosisFromPolicy` appends for the first
      history message `msg` of a detail of template `templateName` on
      cluster `cluster`: enriched, with the message cut to 300 bytes. */
  ghost predicate IssueFor(rec: Issue, templateName: string, msg: string, cluster: string, states: Index) {
    rec.templateName == templateName && rec.message == Truncate(msg) &&
    Enriched(rec, msg, cluster, templateName, states)
  }

  /** `classifyAndEnrich`: parses the text after "violation - ",
      classifies the whole message, matches a desired state and builds the
      suggested call. The template name and message are left alone. */
  method ClassifyAndEnrich(issue: Issue, msg: string, clusterName: string, templateName: string, states: Index)
    returns (r: Issue)
    ensures r.templateName == issue.templateName && r.message == issue.message
    ensures Enriched(r, msg, clusterName, templateName, states)
  {
    var res := ParseViolationResource(ViolationText(msg));
    r := issue.(resourceKind := res.kind, resourceName := res.name, resourceNamespace := res.namespace);
    r := r.(violationType := Classify(msg));
    var ds := MatchDesiredState(states, templateName, res.kind, res.name);
    r := r.(desiredState := ds);
    var call;
    r, call := BuildSuggestedCall(r, res.kind, res.name, res.namespace, clusterName, states);
    r := r.(suggestedCall := call);
  }

  /** `buildSuggestedCall`: returns the call and the issue, which it may
      promote to `olm_stuck`; nothing else in the issue changes. */
  method BuildSuggestedCall(issue: Issue, kind: string, name: string, ns: string, cluster: string, states: Index)
    returns (r: Issue, c: Option<SuggestedCall>)
    ensures r == issue.(violationType := r.violationType)
    ensures ValidSuggestion(states, issue.violationType, kind, name, ns, cluster, r.violationType, c)
  {
    r := issue;
    var isOLM := issue.violationType == OLMStuck || IsOLMKind(kind);
    if isOLM && name != "" {
      r := r.(violationType := OLMStuck);
      c := BuildOLMToolCall(kind, name, ns, cluster, states);
    } else if kind != "" && name != "" {
      c := Some(SuggestedCall(Server, "resources_get", ResourceArgs(ToLower(kind) + "/" + name, ns, cluster)));
    } else if kind != "" {
      c := Some(SuggestedCall(Server, "resources_list", ResourceArgs(ToLower(kind), ns, cluster)));
    } else {
      c := None;
    }
  }

  /** `buildOLMToolCall`, searching the index for the Subscription of an
      Operator resource. */
  method BuildOLMToolCall(kind: string, name: string, ns: string, cluster: string, states: Index)
    returns (c: Option<SuggestedCall>)
    ensures IsOperatorCR(kind) ==>
      exists sub :: FoundSubscription(states, sub) && c == Some(OLMToolCall(kind, name, ns, cluster, sub))
    ensures !IsOperatorCR(kind) ==> c == Some(OLMToolCall(kind, name, ns, cluster, None))
  {
    var sub: Option<SubscriptionRef> := None;
    if IsOperatorCR(kind) {
      sub := FindSubscription(states);
    }
    c := Some(OLMToolCall(kind, name, ns, cluster, sub));
  }

  /** The type an issue ends with: `olm_stuck` exactly when the message
      classifies as OLM trouble or names an OLM kind, and a resource name is
      present or it classified as OLM trouble anyway; otherwise the
      classification of the message. */
  lemma IssueType(rec: Issue, templateName: string, msg: string, cluster: string, states: Index)
    requires IssueFor(rec, templateName, msg, cluster, states)
    ensures rec.violationType == OLMStuck <==>
      Classify(msg) == OLMStuck || (IsOLMKind(rec.resourceKind) && rec.resourceName != "")
    ensures rec.violationType != OLMStuck ==> rec.violationType == Classify(msg)
  {
  }

  /** An issue carries no suggested call exactly when the parser found no
      kind and the OLM branch was not taken. */
  lemma IssueCallPresence(rec: Issue, templateName: string, msg: string, cluster: string, states: Index)
    requires IssueFor(rec, templateName, msg, cluster, states)
    ensures rec.suggestedCall.None? <==>
      rec.resourceKind == "" && !PromotesToOLM(Classify(msg), rec.resourceKind, rec.resourceName)
  {
    SuggestionPresence(states, Classify(msg), rec.resourceKind, rec.resourceName, rec.resourceNamespace, cluster,
                       rec.violationType, rec.suggestedCall);
  }

  /** `buildSuggestedCall` returns no call exactly when there is no kind and
      the OLM branch is not taken. */
  lemma SuggestionPresence(states: Index, t0: ViolationType, kind: string, name: string, ns: string,
                           cluster: string, t: ViolationType, c: Option<SuggestedCall>)
    requires ValidSuggestion(states, t0, kind, name, ns, cluster, t, c)
    ensures c.None? <==> kind == "" && !PromotesToOLM(t0, kind, name)
  {
    if !PromotesToOLM(t0, kind, name) {
      ResourceCallShape(kind, name, ns, cluster);
    }
  }
}

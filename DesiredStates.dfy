/** The desired-state index of a policy (pkg/mcpserver/diagnose_policy.go):
    the object definitions of its ConfigurationPolicy templates, keyed
    "template/kind/name", the three-tier matcher that picks a fragment for a
    violation, and the Subscription search used by the OLM trace. */
module DesiredStates {
  import opened Wrappers
  import opened Strings
  import opened Json

  /** A desired-state fragment: an `objectDefinition` of an object template. */
  type Fragment = map<string, Json>

  /** The index: `map[string]map[string]any` keyed "template/kind/name". */
  type Index = map<string, Fragment>

  /** The key of a fragment (`fmt.Sprintf("%s/%s/%s", ...)`). */
  function Key(template: string, kind: string, name: string): string {
    template + "/" + kind + "/" + name
  }

  /** `strings.SplitN(key, "/", 3)` when it yields three parts: the text
      before the first '/', the text between the first and second '/', and
      everything after the second. */
  function SplitKey(key: string): Option<(string, string, string)> {
    var i := IndexOf(key, "/");
    if i < 0 then None
    else
      var rest := key[i + 1..];
      var j := IndexOf(rest, "/");
      if j < 0 then None else Some((key[..i], rest[..j], rest[j + 1..]))
  }

  /** Splitting a key gives back its parts when the template name and the
      kind hold no '/'; the name may hold any. */
  lemma KeyRoundTrip(template: string, kind: string, name: string)
    requires Avoids(template, '/') && Avoids(kind, '/')
    ensures SplitKey(Key(template, kind, name)) == Some((template, kind, name))
  {
    var key := Key(template, kind, name);
    assert key == template + ("/" + (kind + "/" + name));
    IndexOfChar(key, '/');
    assert key[|template|] == '/';
    assert forall k :: 0 <= k < |template| ==> key[k] == template[k];
    assert IndexOf(key, "/") == |template|;
    assert key[..|template|] == template;
    var rest := key[|template| + 1..];
    assert rest == kind + "/" + name;
    IndexOfChar(rest, '/');
    assert rest[|kind|] == '/';
    assert forall k :: 0 <= k < |kind| ==> rest[k] == kind[k];
    assert IndexOf(rest, "/") == |kind|;
    assert rest[..|kind|] == kind;
    assert rest[|kind| + 1..] == name;
  }

  // ---------------------------------------------------------------------
  // Building the index (`extractDesiredStates`)

  /** The name and object templates of a `ConfigurationPolicy` template;
      absent for any other template or a malformed one. */
  function TemplateObjects(t: Json): Option<(string, seq<Json>)> {
    if !t.JObject? then None
    else
      match NestedMap(t, ["objectDefinition"])
      case None => None
      case Some(od) =>
        var def := JObject(od);
        if Str(def, "kind") != "ConfigurationPolicy" then None
        else
          match Obj(def, "spec")
          case None => None
          case Some(spec) =>
            match Arr(JObject(spec), "object-templates")
            case None => None
            case Some(ots) => Some((NestedString(def, ["metadata", "name"]), ots))
  }

  /** The (key, fragment) entry of one object template, if it has an
      object definition. */
  function ObjectEntry(template: string, ot: Json): seq<(string, Fragment)> {
    if !ot.JObject? then []
    else
      match Obj(ot, "objectDefinition")
      case None => []
      case Some(desired) =>
        var d := JObject(desired);
        [(Key(template, Str(d, "kind"), NestedString(d, ["metadata", "name"])), desired)]
  }

  function ObjectEntries(template: string, ots: seq<Json>): seq<(string, Fragment)> {
    if ots == [] then []
    else ObjectEntries(template, ots[..|ots| - 1]) + ObjectEntry(template, ots[|ots| - 1])
  }

  function TemplateEntries(t: Json): seq<(string, Fragment)> {
    match TemplateObjects(t)
    case None => []
    case Some((name, ots)) => ObjectEntries(name, ots)
  }

  /** Every entry the templates contribute, in visiting order. */
  function AllEntries(ts: seq<Json>): seq<(string, Fragment)> {
    if ts == [] then []
    else AllEntries(ts[..|ts| - 1]) + TemplateEntries(ts[|ts| - 1])
  }

  /** The map that inserting the entries in order produces. */
  function MapOf(es: seq<(string, Fragment)>): Index {
    if es == [] then map[]
    else MapOf(es[..|es| - 1])[es[|es| - 1].0 := es[|es| - 1].1]
  }

  function Templates(policy: Json): seq<Json> {
    NestedSlice(policy, ["spec", "policy-templates"])
  }

  /** `extractDesiredStates`. */
  method ExtractDesiredStates(policy: Json) returns (states: Index)
    ensures states == MapOf(AllEntries(Templates(policy)))
  {
    var templates := Templates(policy);
    states := map[];
    var i := 0;
    while i < |templates|
      invariant 0 <= i <= |templates|
      invariant states == MapOf(AllEntries(templates[..i]))
    {
      assert templates[..i + 1][..i] == templates[..i];
      states := InsertTemplate(states, AllEntries(templates[..i]), templates[i]);
      i := i + 1;
    }
    assert templates[..|templates|] == templates;
  }

  /** One policy template: a ConfigurationPolicy's object templates are
      inserted, any other template is skipped. */
  method InsertTemplate(states0: Index, ghost before: seq<(string, Fragment)>, t: Json)
    returns (states: Index)
    requires states0 == MapOf(before)
    ensures states == MapOf(before + TemplateEntries(t))
  {
    states := states0;
    assert before + [] == before;
    if t.JObject? {
      var objDef := NestedMap(t, ["objectDefinition"]);
      if objDef.Some? {
        var def := JObject(objDef.value);
        var templateName := NestedString(def, ["metadata", "name"]);
        var kind := Str(def, "kind");
        if kind == "ConfigurationPolicy" {
          var spec := Obj(def, "spec");
          if spec.Some? {
            var objectTemplates := Arr(JObject(spec.value), "object-templates");
            if objectTemplates.Some? {
              assert TemplateObjects(t) == Some((templateName, objectTemplates.value));
              states := InsertObjectTemplates(states, before, templateName, objectTemplates.value);
            }
          }
        }
      }
    }
  }

  /** The inner loop of `extractDesiredStates`: one entry per object
      template that has an object definition, inserted in order. */
  method InsertObjectTemplates(states0: Index, ghost before: seq<(string, Fragment)>,
                               templateName: string, ots: seq<Json>)
    returns (states: Index)
    requires states0 == MapOf(before)
    ensures states == MapOf(before + ObjectEntries(templateName, ots))
  {
    states := states0;
    assert ots[..0] == [];
    assert before + [] == before;
    var j := 0;
    while j < |ots|
      invariant 0 <= j <= |ots|
      invariant states == MapOf(before + ObjectEntries(templateName, ots[..j]))
    {
      ghost var prefix := before + ObjectEntries(templateName, ots[..j]);
      ObjectEntriesStep(before, templateName, ots, j);
      states := InsertObject(states, prefix, templateName, ots[j]);
      j := j + 1;
    }
    assert ots[..|ots|] == ots;
  }

  lemma ObjectEntriesStep(before: seq<(string, Fragment)>, templateName: string, ots: seq<Json>, j: nat)
    requires j < |ots|
    ensures before + ObjectEntries(templateName, ots[..j + 1]) ==
            (before + ObjectEntries(templateName, ots[..j])) + ObjectEntry(templateName, ots[j])
  {
    assert ots[..j + 1][..j] == ots[..j];
    assert ots[..j + 1][j] == ots[j];
  }

  /** One object template: its object definition, if any, stored under
      "template/kind/name", replacing an earlier one with that key. */
  method InsertObject(states0: Index, ghost prefix: seq<(string, Fragment)>, templateName: string, ot: Json)
    returns (states: Index)
    requires states0 == MapOf(prefix)
    ensures states == MapOf(prefix + ObjectEntry(templateName, ot))
  {
    states := states0;
    assert prefix + [] == prefix;
    if ot.JObject? {
      var desired := Obj(ot, "objectDefinition");
      if desired.Some? {
        var d := JObject(desired.value);
        var rKind := Str(d, "kind");
        var rName := NestedString(d, ["metadata", "name"]);
        MapOfSnoc(prefix, (Key(templateName, rKind, rName), desired.value));
        states := states[Key(templateName, rKind, rName) := desired.value];
      }
    }
  }

  lemma MapOfSnoc(es: seq<(string, Fragment)>, e: (string, Fragment))
    ensures MapOf(es + [e]) == MapOf(es)[e.0 := e.1]
  {
    assert (es + [e])[..|es|] == es;
  }

  /** `es[i]` is the last entry with key `key`. */
  predicate LastWithKey(es: seq<(string, Fragment)>, key: string, i: int) {
    0 <= i < |es| && es[i].0 == key && forall j :: i < j < |es| ==> es[j].0 != key
  }

  /** A key is in the index exactly when some entry has it, and its
      fragment is that of the last such entry: later duplicates overwrite
      earlier ones. */
  lemma {:induction false} MapOfLast(es: seq<(string, Fragment)>, key: string)
    ensures key in MapOf(es) <==> exists i :: 0 <= i < |es| && es[i].0 == key
    ensures key in MapOf(es) ==>
      exists i :: LastWithKey(es, key, i) && MapOf(es)[key] == es[i].1
  {
    if es != [] {
      var init := es[..|es| - 1];
      MapOfLast(init, key);
      var last := |es| - 1;
      if es[last].0 == key {
        assert LastWithKey(es, key, last);
      } else {
        if key in MapOf(init) {
          var i :| LastWithKey(init, key, i) && MapOf(init)[key] == init[i].1;
          assert es[i] == init[i];
          assert LastWithKey(es, key, i);
        }
        forall i | 0 <= i < |es| && es[i].0 == key ensures key in MapOf(init) {
          assert init[i] == es[i];
        }
      }
    }
  }

  /** Only ConfigurationPolicy templates contribute: every entry of the
      index comes from such a template, and its key starts with the
      template's name and a '/'. */
  lemma {:induction false} EntriesFromConfigurationPolicies(ts: seq<Json>, e: (string, Fragment))
    requires e in AllEntries(ts)
    ensures exists t :: (t in ts && TemplateObjects(t).Some? &&
      Str(JObject(NestedMap(t, ["objectDefinition"]).value), "kind") == "ConfigurationPolicy" &&
      HasPrefix(e.0, TemplateObjects(t).value.0 + "/"))
  {
    var init := ts[..|ts| - 1];
    var t := ts[|ts| - 1];
    if e in AllEntries(init) {
      EntriesFromConfigurationPolicies(init, e);
      var u :| u in init && TemplateObjects(u).Some? &&
        Str(JObject(NestedMap(u, ["objectDefinition"]).value), "kind") == "ConfigurationPolicy" &&
        HasPrefix(e.0, TemplateObjects(u).value.0 + "/");
      assert u in ts;
    } else {
      assert e in TemplateEntries(t);
      var (name, ots) := TemplateObjects(t).value;
      ObjectEntriesKeys(name, ots, e);
    }
  }

  lemma {:induction false} ObjectEntriesKeys(template: string, ots: seq<Json>, e: (string, Fragment))
    requires e in ObjectEntries(template, ots)
    ensures HasPrefix(e.0, template + "/")
  {
    if e in ObjectEntries(template, ots[..|ots| - 1]) {
      ObjectEntriesKeys(template, ots[..|ots| - 1], e);
    } else {
      var d := JObject(Obj(ots[|ots| - 1], "objectDefinition").value);
      assert e.0 == template + "/" + (Str(d, "kind") + "/" + NestedString(d, ["metadata", "name"]));
    }
  }

  // ---------------------------------------------------------------------
  // Matching a violation to a fragment (`matchDesiredState`)

  /** The kind agreement of the flexible tier, over lower-cased kinds: the
      violation kind is the object kind plus "s" or "es", the object kind is
      the violation kind plus "s", or they are equal. */
  predicate PluralMatch(objKind: string, vKind: string) {
    objKind + "s" == vKind || objKind + "es" == vKind || vKind + "s" == objKind || vKind == objKind
  }

  /** `key` is an index key of template `t`. */
  predicate InTemplate(states: Index, key: string, t: string) {
    key in states && SplitKey(key).Some? && SplitKey(key).value.0 == t
  }

  /** Tier 1: same template, kind equal ignoring case, same name. */
  predicate ExactHit(states: Index, key: string, t: string, kind: string, name: string) {
    InTemplate(states, key, t) &&
    EqualFold(SplitKey(key).value.1, kind) && SplitKey(key).value.2 == name
  }

  /** Tier 2: same template, plural-tolerant kind, and the same name unless
      the violation names none. */
  predicate FlexHit(states: Index, key: string, t: string, kind: string, name: string) {
    InTemplate(states, key, t) &&
    PluralMatch(ToLower(SplitKey(key).value.1), ToLower(kind)) &&
    (name == "" || SplitKey(key).value.2 == name)
  }

  function TemplateKeys(states: Index, t: string): set<string> {
    set key | key in states && InTemplate(states, key, t)
  }

  /** What `matchDesiredState` may return, whatever order it visits the map
      in: a fragment of an exact hit if there is one; else of a flexible hit
      if there is one; else the only fragment of the template if it has
      exactly one; else nothing. */
  predicate ValidMatch(states: Index, t: string, kind: string, name: string, r: Option<Fragment>) {
    if exists key :: key in states && ExactHit(states, key, t, kind, name) then
      exists key :: key in states && ExactHit(states, key, t, kind, name) && r == Some(states[key])
    else if exists key :: key in states && FlexHit(states, key, t, kind, name) then
      exists key :: key in states && FlexHit(states, key, t, kind, name) && r == Some(states[key])
    else if |TemplateKeys(states, t)| == 1 then
      exists key :: key in states && InTemplate(states, key, t) && r == Some(states[key])
    else r == None
  }

  /** `matchDesiredState`: three passes over the map, each in an arbitrary
      order. */
  method MatchDesiredState(states: Index, templateName: string, kind: string, name: string)
    returns (r: Option<Fragment>)
    ensures ValidMatch(states, templateName, kind, name, r)
  {
    r := ExactPass(states, templateName, kind, name);
    if r.Some? {
      return;
    }
    r := FlexiblePass(states, templateName, kind, name);
    if r.Some? {
      return;
    }
    r := SolePass(states, templateName);
  }

  /** Exact match: template/kind/name. */
  method ExactPass(states: Index, templateName: string, kind: string, name: string)
    returns (r: Option<Fragment>)
    ensures r.Some? ==>
      exists key :: key in states && ExactHit(states, key, templateName, kind, name) && r == Some(states[key])
    ensures r.None? ==> forall key :: key in states ==> !ExactHit(states, key, templateName, kind, name)
  {
    var remaining := states.Keys;
    while remaining != {}
      invariant remaining <= states.Keys
      invariant forall key :: key in states && key !in remaining ==>
        !ExactHit(states, key, templateName, kind, name)
      decreases remaining
    {
      var key :| key in remaining;
      var parts := SplitKey(key);
      if parts.Some? && parts.value.0 == templateName && EqualFold(parts.value.1, kind) &&
         parts.value.2 == name {
        assert ExactHit(states, key, templateName, kind, name);
        return Some(states[key]);
      }
      remaining := remaining - {key};
    }
    return None;
  }

  /** Flexible match: plural violation kind against singular object kind. */
  method FlexiblePass(states: Index, templateName: string, kind: string, name: string)
    returns (r: Option<Fragment>)
    ensures r.Some? ==>
      exists key :: key in states && FlexHit(states, key, templateName, kind, name) && r == Some(states[key])
    ensures r.None? ==> forall key :: key in states ==> !FlexHit(states, key, templateName, kind, name)
  {
    var remaining := states.Keys;
    while remaining != {}
      invariant remaining <= states.Keys
      invariant forall key :: key in states && key !in remaining ==>
        !FlexHit(states, key, templateName, kind, name)
      decreases remaining
    {
      var key :| key in remaining;
      var parts := SplitKey(key);
      if parts.Some? && parts.value.0 == templateName {
        var objKind := ToLower(parts.value.1);
        var vKind := ToLower(kind);
        if objKind + "s" == vKind || objKind + "es" == vKind || vKind + "s" == objKind || vKind == objKind {
          if name == "" || parts.value.2 == name {
            assert FlexHit(states, key, templateName, kind, name);
            return Some(states[key]);
          }
        }
      }
      remaining := remaining - {key};
    }
    return None;
  }

  /** Last resort: the fragment of the template when it has exactly one. */
  method SolePass(states: Index, templateName: string) returns (r: Option<Fragment>)
    ensures |TemplateKeys(states, templateName)| == 1 ==>
      exists key :: key in states && InTemplate(states, key, templateName) && r == Some(states[key])
    ensures |TemplateKeys(states, templateName)| != 1 ==> r == None
  {
    var found: Option<Fragment> := None;
    var count := 0;
    var remaining := states.Keys;
    ghost var seen: set<string> := {};
    while remaining != {}
      invariant remaining <= states.Keys
      invariant forall key :: key in seen <==>
        key in states && key !in remaining && InTemplate(states, key, templateName)
      invariant count == |seen|
      invariant count > 0 ==> exists key :: key in seen && found == Some(states[key])
      decreases remaining
    {
      var key :| key in remaining;
      var parts := SplitKey(key);
      if parts.Some? && parts.value.0 == templateName {
        assert key !in seen;
        found := Some(states[key]);
        count := count + 1;
        seen := seen + {key};
      }
      remaining := remaining - {key};
    }
    assert seen == TemplateKeys(states, templateName);
    if count == 1 {
      return found;
    }
    return None;
  }

  /** A fragment the matcher returns always belongs to the requested
      template. */
  lemma MatchInTemplate(states: Index, t: string, kind: string, name: string, r: Option<Fragment>)
    requires ValidMatch(states, t, kind, name, r) && r.Some?
    ensures exists key :: key in states && InTemplate(states, key, t) && r.value == states[key]
  {
    if exists key :: key in states && ExactHit(states, key, t, kind, name) {
    } else if exists key :: key in states && FlexHit(states, key, t, kind, name) {
    }
  }

  /** Every exact hit is also a flexible hit, so the exact tier decides
      only which of several flexible hits is returned. */
  lemma ExactIsFlex(states: Index, key: string, t: string, kind: string, name: string)
    requires ExactHit(states, key, t, kind, name)
    ensures FlexHit(states, key, t, kind, name)
  {
  }

  // ---------------------------------------------------------------------
  // The Subscription of an operator (`findSubscriptionInDesiredStates`)

  datatype SubscriptionRef = SubscriptionRef(name: string, namespace: string)

  /** "Subscription", lower-cased: `strings.EqualFold(kind, "Subscription")`
      compares the lower-cased forms. */
  const SubscriptionKind: string := "subscription"

  /** A fragment of kind Subscription (any case) with a metadata map and a
      non-empty name. */
  predicate IsSubscription(d: Fragment) {
    ToLower(Str(JObject(d), "kind")) == SubscriptionKind &&
    Obj(JObject(d), "metadata").Some? &&
    Str(JObject(Obj(JObject(d), "metadata").value), "name") != ""
  }

  function SubscriptionOf(d: Fragment): SubscriptionRef
    requires IsSubscription(d)
  {
    var meta := JObject(Obj(JObject(d), "metadata").value);
    SubscriptionRef(Str(meta, "name"), Str(meta, "namespace"))
  }

  /** What the search may return, whatever order it visits the map in. */
  predicate FoundSubscription(states: Index, sub: Option<SubscriptionRef>) {
    match sub
    case None => forall key :: key in states ==> !IsSubscription(states[key])
    case Some(s) => exists key :: key in states && IsSubscription(states[key]) && SubscriptionOf(states[key]) == s
  }

  /** `findSubscriptionInDesiredStates`. */
  method FindSubscription(states: Index) returns (sub: Option<SubscriptionRef>)
    ensures FoundSubscription(states, sub)
    ensures sub.Some? ==> sub.value.name != ""
  {
    var remaining := states.Keys;
    while remaining != {}
      invariant remaining <= states.Keys
      invariant forall key :: key in states && key !in remaining ==> !IsSubscription(states[key])
      decreases remaining
    {
      var key :| key in remaining;
      var desired := JObject(states[key]);
      var kind := Str(desired, "kind");
      if ToLower(kind) == SubscriptionKind {
        var meta := Obj(desired, "metadata");
        if meta.Some? {
          var name := Str(JObject(meta.value), "name");
          if name != "" {
            var ns := Str(JObject(meta.value), "namespace");
            return Some(SubscriptionRef(name, ns));
          }
        }
      }
      remaining := remaining - {key};
    }
    return None;
  }
}

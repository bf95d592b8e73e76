/** BIOS comparison of bare-metal hosts (pkg/mcpserver/bios_compare.go):
    Kubernetes-name normalisation, the reference ConfigMap's name and its
    lookup, the `key: value` settings parser, the settings diff, the BIOS
    version of a HostFirmwareComponents object, the per-host comparison with
    its compliance rule, and the summary tally over all hosts. */
module BiosCompare {
  import opened Wrappers
  import opened Strings
  import opened Json
  import opened Errors

  // ---------------------------------------------------------------------
  // `normalizeForK8sName`

  /** Characters the replacer deletes. */
  predicate IsDropped(c: char) {
    c == '.' || c == ',' || c == '(' || c == ')'
  }

  /** Characters the replacer turns into a space. */
  predicate IsSeparator(c: char) {
    c == '/' || c == '-' || c == '_'
  }

  /** A character that survives normalisation: neither dropped, nor a
      separator, nor white space. */
  predicate IsKept(c: char) {
    !IsDropped(c) && !IsSeparator(c) && !IsSpace(c)
  }

  predicate NotHyphen(c: char) {
    c != '-'
  }

  /** The `strings.NewReplacer` of `normalizeForK8sName`: every character is
      replaced on its own, dropped ones by nothing, separators by a space.
      It keeps no dropped character and no separator. */
  function Scrub(s: string): (r: string)
    ensures forall i :: 0 <= i < |r| ==> !IsDropped(r[i]) && !IsSeparator(r[i])
    ensures forall i :: 0 <= i < |r| ==> r[i] == ' ' || r[i] in s
  {
    if s == [] then []
    else
      var rest := Scrub(s[1..]);
      assert forall i :: 0 <= i < |rest| ==> rest[i] == ' ' || rest[i] in s;
      if IsDropped(s[0]) then rest
      else if IsSeparator(s[0]) then [' '] + rest
      else [s[0]] + rest
  }

  /** Only the dropped characters are lost, each other one stays in place
      (a separator as a space), and the text without its white space is
      the input's kept characters, in order. */
  lemma {:induction false} ScrubKeeps(s: string)
    ensures |Scrub(s)| == |s| - |Filter(s, IsDropped)|
    ensures Filter(Scrub(s), NotSpace) == Filter(s, IsKept)
  {
    if s != [] {
      var rest := Scrub(s[1..]);
      ScrubKeeps(s[1..]);
      if !IsDropped(s[0]) {
        var r := Scrub(s);
        assert r[0] == (if IsSeparator(s[0]) then ' ' else s[0]);
        assert r[1..] == rest;
        assert Filter(r, NotSpace) == (if NotSpace(r[0]) then [r[0]] else []) + Filter(rest, NotSpace);
      }
    }
  }

  /** The words of the normalised name, before they are joined. */
  function NameWords(s: string): seq<string> {
    Fields(Scrub(ToLower(s)))
  }

  /** `normalizeForK8sName(s, maxLen)`. */
  function NormalizeForK8sName(s: string, maxLen: int): (r: string)
    ensures HasPrefix(Join(NameWords(s), "-"), r)
    ensures maxLen > 0 ==> |r| <= maxLen
  {
    var joined := Join(NameWords(s), "-");
    if maxLen > 0 && |joined| > maxLen then TrimRightChar(joined[..maxLen], '-')
    else joined
  }

  /** A character a normalised name may hold. */
  predicate IsNameChar(c: char) {
    !IsSpace(c) && !IsDropped(c) && c != '/' && c != '_' && !('A' <= c <= 'Z')
  }

  /** Neither leading, trailing nor doubled hyphens. */
  predicate WellHyphenated(r: string) {
    (r == [] || (r[0] != '-' && r[|r| - 1] != '-')) &&
    forall i :: 0 <= i < |r| - 1 ==> !(r[i] == '-' && r[i + 1] == '-')
  }

  /** A normalised name: name characters only, hyphens only between words. */
  predicate IsNamePart(r: string) {
    WellHyphenated(r) && forall i :: 0 <= i < |r| ==> IsNameChar(r[i])
  }

  /** A character of a name word: a name character other than '-'. */
  predicate IsWordChar(c: char) {
    IsNameChar(c) && c != '-'
  }

  /** Joining non-empty words of word characters with "-" gives a name. */
  lemma {:induction false} JoinWords(ws: seq<string>)
    requires forall i :: 0 <= i < |ws| ==> ws[i] != [] && All(ws[i], IsWordChar)
    ensures IsNamePart(Join(ws, "-"))
    ensures ws != [] ==> Join(ws, "-") != [] && Join(ws, "-")[0] == ws[0][0]
  {
    if |ws| >= 2 {
      var rest := Join(ws[1..], "-");
      JoinWords(ws[1..]);
      var r := Join(ws, "-");
      var w := ws[0];
      assert r == w + "-" + rest;
      assert All(w, IsWordChar);
      forall i | 0 <= i < |r| ensures IsNameChar(r[i]) {
        if i < |w| {
          assert r[i] == w[i];
        } else if i > |w| {
          assert r[i] == rest[i - |w| - 1];
        }
      }
      forall i | 0 <= i < |r| - 1 ensures !(r[i] == '-' && r[i + 1] == '-') {
        if i + 1 < |w| {
          assert r[i] == w[i];
        } else if i + 1 == |w| {
          assert r[i] == w[i];
        } else if i == |w| {
          assert r[i + 1] == rest[0];
        } else {
          assert r[i] == rest[i - |w| - 1] && r[i + 1] == rest[i - |w|];
        }
      }
      assert r[|r| - 1] == rest[|rest| - 1];
    } else if |ws| == 1 {
      assert All(ws[0], IsWordChar);
    }
  }

  /** The words of a normalised name are non-empty and made of word
      characters. */
  lemma NameWordsAreWords(s: string)
    ensures forall i :: 0 <= i < |NameWords(s)| ==> NameWords(s)[i] != [] && All(NameWords(s)[i], IsWordChar)
  {
    var lowered := ToLower(s);
    var scrubbed := Scrub(lowered);
    forall k | 0 <= k < |scrubbed| && !IsSpace(scrubbed[k]) ensures IsWordChar(scrubbed[k]) {
      var c := scrubbed[k];
      assert c in lowered;
      var j :| 0 <= j < |lowered| && lowered[j] == c;
      assert c == LowerChar(s[j]);
    }
    FieldsKeep(scrubbed, IsWordChar);
    FieldsAreWords(scrubbed);
  }

  /** A prefix of a name with its trailing hyphens removed is a name. */
  lemma TruncatedName(r: string, n: nat)
    requires IsNamePart(r) && n <= |r|
    ensures IsNamePart(TrimRightChar(r[..n], '-'))
  {
    var t := TrimRightChar(r[..n], '-');
    assert t == r[..|t|];
    forall i | 0 <= i < |t| - 1 ensures !(t[i] == '-' && t[i + 1] == '-') {
      assert t[i] == r[i] && t[i + 1] == r[i + 1];
    }
  }

  /** The result is a name (lower-case name characters, hyphens only
      between words) for every length bound; with a positive bound it is at
      most that long, a prefix of the unbounded name, and the unbounded name
      itself when that already fits. */
  lemma NormalizeForK8sNameShape(s: string, maxLen: int)
    ensures IsNamePart(NormalizeForK8sName(s, maxLen))
    ensures var full := NormalizeForK8sName(s, 0);
      var r := NormalizeForK8sName(s, maxLen);
      HasPrefix(full, r) &&
      (maxLen > 0 ==> |r| <= maxLen) &&
      (maxLen <= 0 || |full| <= maxLen ==> r == full)
  {
    NameWordsAreWords(s);
    var full := Join(NameWords(s), "-");
    JoinWords(NameWords(s));
    if maxLen > 0 && |full| > maxLen {
      TruncatedName(full, maxLen);
    }
  }

  /** What the unbounded name holds: without its hyphens, it is the
      lower-cased input's kept characters, in order. Every input hyphen is a
      separator, so the hyphens left are the ones joining the words. */
  lemma NormalizeForK8sNameContent(s: string)
    ensures Filter(NormalizeForK8sName(s, 0), NotHyphen) == Filter(ToLower(s), IsKept)
  {
    var words := NameWords(s);
    NameWordsAreWords(s);
    forall i | 0 <= i < |words| ensures All(words[i], NotHyphen) {
      assert All(words[i], IsWordChar);
    }
    JoinFilter(words, "-", NotHyphen);
    FieldsConcat(Scrub(ToLower(s)));
    ScrubKeeps(ToLower(s));
  }

  /** Scrubbing works character by character. */
  lemma {:induction false} ScrubAppend(a: string, b: string)
    ensures Scrub(a + b) == Scrub(a) + Scrub(b)
  {
    if a == [] {
      assert a + b == b;
    } else {
      assert (a + b)[0] == a[0] && (a + b)[1..] == a[1..] + b;
      ScrubAppend(a[1..], b);
      if IsDropped(a[0]) {
        assert Scrub(a + b) == Scrub(a[1..] + b);
      } else {
        var c := if IsSeparator(a[0]) then ' ' else a[0];
        assert Scrub(a + b) == [c] + Scrub(a[1..] + b);
        assert Scrub(a) == [c] + Scrub(a[1..]);
      }
    }
  }

  /** A manufacturer's product name, as the design describes it. */
  lemma NormalizeExample()
    ensures NormalizeForK8sName(ExampleName, 0) == "dell-poweredge-r750-plus"
  {
    ExampleLower();
    ExampleScrub();
    ExampleWords();
    FieldsOfFour("dell", "poweredge", "r750", "plus");
    JoinFour("dell", "poweredge", "r750", "plus", "-");
    ExampleHyphenated();
  }

  // The example's steps. Each fact about a literal is a lemma of its own:
  // several literals in one proof are costly.

  const ExampleName: string := "Dell (PowerEdge) R750/Plus"
  const ExampleLowered: string := "dell (poweredge) r750/plus"

  lemma ExampleLower()
    ensures ToLower(ExampleName) == ExampleLowered
  {
    SplitName();
    SplitLowered();
    LowerDell(); LowerOpen(); LowerPowerEdge(); LowerClose(); LowerR750(); LowerSlash(); LowerPlus();
    ToLowerSeven("Dell", " (", "PowerEdge", ") ", "R750", "/", "Plus",
                 "dell", " (", "poweredge", ") ", "r750", "/", "plus");
  }

  lemma SplitName()
    ensures ExampleName == "Dell" + " (" + "PowerEdge" + ") " + "R750" + "/" + "Plus" { }
  lemma SplitLowered()
    ensures ExampleLowered == "dell" + " (" + "poweredge" + ") " + "r750" + "/" + "plus" { }
  lemma ExampleHyphenated()
    ensures "dell" + "-" + "poweredge" + "-" + "r750" + "-" + "plus" == "dell-poweredge-r750-plus" { }

  lemma LowerDell() ensures ToLower("Dell") == "dell" { }
  lemma LowerOpen() ensures ToLower(" (") == " (" { }
  lemma LowerPowerEdge() ensures ToLower("PowerEdge") == "poweredge" { }
  lemma LowerClose() ensures ToLower(") ") == ") " { }
  lemma LowerR750() ensures ToLower("R750") == "r750" { }
  lemma LowerSlash() ensures ToLower("/") == "/" { }
  lemma LowerPlus() ensures ToLower("Plus") == "plus" { }

  lemma ToLowerSeven(a: string, b: string, c: string, d: string, e: string, f: string, g: string,
                     a': string, b': string, c': string, d': string, e': string, f': string, g': string)
    requires ToLower(a) == a' && ToLower(b) == b' && ToLower(c) == c' && ToLower(d) == d'
    requires ToLower(e) == e' && ToLower(f) == f' && ToLower(g) == g'
    ensures ToLower(a + b + c + d + e + f + g) == a' + b' + c' + d' + e' + f' + g'
  {
    ToLowerAppend(a + b + c + d + e + f, g);
    ToLowerAppend(a + b + c + d + e, f);
    ToLowerAppend(a + b + c + d, e);
    ToLowerAppend(a + b + c, d);
    ToLowerAppend(a + b, c);
    ToLowerAppend(a, b);
  }

  lemma ExampleScrub()
    ensures Scrub(ExampleLowered) == "dell" + " " + "poweredge" + " " + "r750" + " " + "plus"
  {
    SplitLowered();
    ScrubDell(); ScrubOpen(); ScrubPowerEdge(); ScrubClose(); ScrubR750(); ScrubSlash(); ScrubPlus();
    ScrubSeven("dell", " (", "poweredge", ") ", "r750", "/", "plus",
               "dell", " ", "poweredge", " ", "r750", " ", "plus");
  }

  lemma ScrubDell() ensures Scrub("dell") == "dell" { ScrubWord("dell"); }
  lemma ScrubOpen() ensures Scrub(" (") == " " { assert Scrub(" (") == [' '] + Scrub("("); }
  lemma ScrubPowerEdge() ensures Scrub("poweredge") == "poweredge" { ScrubWord("poweredge"); }
  lemma ScrubClose() ensures Scrub(") ") == " " { assert Scrub(") ") == Scrub(" "); }
  lemma ScrubR750() ensures Scrub("r750") == "r750" { ScrubWord("r750"); }
  lemma ScrubSlash() ensures Scrub("/") == " " { }
  lemma ScrubPlus() ensures Scrub("plus") == "plus" { ScrubWord("plus"); }

  lemma ScrubSeven(a: string, b: string, c: string, d: string, e: string, f: string, g: string,
                   a': string, b': string, c': string, d': string, e': string, f': string, g': string)
    requires Scrub(a) == a' && Scrub(b) == b' && Scrub(c) == c' && Scrub(d) == d'
    requires Scrub(e) == e' && Scrub(f) == f' && Scrub(g) == g'
    ensures Scrub(a + b + c + d + e + f + g) == a' + b' + c' + d' + e' + f' + g'
  {
    ScrubAppend(a + b + c + d + e + f, g);
    ScrubAppend(a + b + c + d + e, f);
    ScrubAppend(a + b + c + d, e);
    ScrubAppend(a + b + c, d);
    ScrubAppend(a + b, c);
    ScrubAppend(a, b);
  }

  lemma ExampleWords()
    ensures IsWord("dell") && IsWord("poweredge") && IsWord("r750") && IsWord("plus") { }

  /** Four words with single spaces between them are their fields. */
  lemma FieldsOfFour(a: string, b: string, c: string, d: string)
    requires IsWord(a) && IsWord(b) && IsWord(c) && IsWord(d)
    ensures Fields(a + " " + b + " " + c + " " + d) == [a] + ([b] + ([c] + [d]))
  {
    assert a + " " + b + " " + c + " " + d == a + " " + (b + " " + (c + " " + d));
    FieldsOfThree(b, c, d);
    FieldsCons(a, b + " " + (c + " " + d), [b] + ([c] + [d]));
  }

  lemma FieldsOfThree(b: string, c: string, d: string)
    requires IsWord(b) && IsWord(c) && IsWord(d)
    ensures Fields(b + " " + (c + " " + d)) == [b] + ([c] + [d])
  {
    FieldsOfTwo(c, d);
    FieldsCons(b, c + " " + d, [c] + [d]);
  }

  lemma FieldsOfTwo(c: string, d: string)
    requires IsWord(c) && IsWord(d)
    ensures Fields(c + " " + d) == [c] + [d]
  {
    FieldsOfWord(d);
    FieldsCons(c, d, [d]);
  }

  lemma FieldsCons(w: string, rest: string, ws: seq<string>)
    requires IsWord(w) && Fields(rest) == ws
    ensures Fields(w + " " + rest) == [w] + ws
  {
    FieldsOfWordThen(w, rest);
  }

  lemma JoinFour(a: string, b: string, c: string, d: string, sep: string)
    ensures Join([a] + ([b] + ([c] + [d])), sep) == a + sep + b + sep + c + sep + d
  {
    var ws := [a, b, c, d];
    assert [a] + ([b] + ([c] + [d])) == ws;
    assert ws[1..][1..] == [c, d] && ws[1..][1..][1..] == [d];
    assert Join(ws[1..][1..], sep) == c + sep + d;
    assert ws[1..] == [b, c, d];
    assert Join(ws[1..], sep) == b + sep + (c + sep + d);
    assert Join(ws, sep) == a + sep + (b + sep + (c + sep + d));
  }

  /** A text of kept characters only scrubs to itself. */
  lemma ScrubWord(w: string)
    requires forall j :: 0 <= j < |w| ==> IsKept(w[j])
    ensures Scrub(w) == w
  {
    if w != [] {
      ScrubWord(w[1..]);
      assert Scrub(w) == [w[0]] + Scrub(w[1..]);
    }
  }

  // ---------------------------------------------------------------------
  // The reference ConfigMap

  const ConfigMapPrefix: string := "bios-ref-"

  /** `buildReferenceConfigMapName`: the role is used as given. */
  function BuildReferenceConfigMapName(manufacturer: string, productName: string, role: string): (r: string)
    ensures HasPrefix(r, ConfigMapPrefix)
    ensures |r| >= |role| && r[|r| - |role|..] == role
  {
    ConfigMapPrefix + NormalizeForK8sName(manufacturer, 0) + "-" + NormalizeForK8sName(productName, 0) + "-" + role
  }

  /** The name is "bios-ref-", the two normalised names, and the role
      itself, all joined by '-'. */
  lemma ConfigMapNameParts(manufacturer: string, productName: string, role: string)
    ensures var name := BuildReferenceConfigMapName(manufacturer, productName, role);
      var m := NormalizeForK8sName(manufacturer, 0);
      var p := NormalizeForK8sName(productName, 0);
      HasPrefix(name, ConfigMapPrefix) &&
      name[|ConfigMapPrefix|..|ConfigMapPrefix| + |m|] == m && IsNamePart(m) &&
      name[|name| - |p| - 1 - |role|..|name| - 1 - |role|] == p && IsNamePart(p) &&
      name[|name| - |role|..] == role
  {
    NormalizeForK8sNameShape(manufacturer, 0);
    NormalizeForK8sNameShape(productName, 0);
    JoinedParts(ConfigMapPrefix, NormalizeForK8sName(manufacturer, 0), NormalizeForK8sName(productName, 0), role);
  }

  /** Where the parts of `pre + m + "-" + p + "-" + role` stand. */
  lemma JoinedParts(pre: string, m: string, p: string, role: string)
    ensures var name := pre + m + "-" + p + "-" + role;
      HasPrefix(name, pre) &&
      name[|pre|..|pre| + |m|] == m &&
      name[|name| - |p| - 1 - |role|..|name| - 1 - |role|] == p &&
      name[|name| - |role|..] == role
  {
    var a := pre + m;
    var b := a + "-" + p;
    var name := b + "-" + role;
    assert name[..|pre|] == pre;
    assert name[|pre|..|pre| + |m|] == a[|pre|..] == m;
    assert name[|name| - |p| - 1 - |role|..|name| - 1 - |role|] == b[|a| + 1..] == p;
  }

  /** What the MCP server cluster's ConfigMaps answer for a name. */
  type ConfigMapGetter = string -> Result<Json, Error>

  /** `findBestMatchConfigMap`: the label-based match for a manufacturer,
      a product name and a role; the name and the ConfigMap it picked. */
  type LabelMatcher = (string, string, string) -> Result<(string, Json), Error>

  const OverrideMissing: string := "reference override ConfigMap "

  /** `findReferenceConfigMap`: the override when one is given; otherwise the
      ConfigMap named after the server model, and only when that one is
      missing the label-based match. Gives the ConfigMap and its name. */
  function FindReferenceConfigMap(get: ConfigMapGetter, bestMatch: LabelMatcher, referenceNamespace: string,
                                  explicitConfigMap: string, manufacturer: string, productName: string,
                                  role: string): (r: Result<(Json, string), Error>)
    ensures explicitConfigMap != "" ==>
      (r.Success? <==> get(explicitConfigMap).Success?) &&
      (r.Success? ==> r.value == (get(explicitConfigMap).value, explicitConfigMap)) &&
      (r.Failure? ==> r.error.Unwrap() == [get(explicitConfigMap).error])
    ensures explicitConfigMap == "" && get(BuildReferenceConfigMapName(manufacturer, productName, role)).Success? ==>
      r == Success((get(BuildReferenceConfigMapName(manufacturer, productName, role)).value,
                    BuildReferenceConfigMapName(manufacturer, productName, role)))
    ensures explicitConfigMap == "" && get(BuildReferenceConfigMapName(manufacturer, productName, role)).Failure? ==>
      (r.Success? <==> bestMatch(manufacturer, productName, role).Success?) &&
      (r.Failure? ==> r.error.Unwrap() == [bestMatch(manufacturer, productName, role).error])
  {
    if explicitConfigMap != "" then
      match get(explicitConfigMap)
      case Success(cm) => Success((cm, explicitConfigMap))
      case Failure(err) =>
        Failure(Wrap(OverrideMissing + Quote(explicitConfigMap) + " not found in namespace " +
                     Quote(referenceNamespace), err))
    else
      var configMapName := BuildReferenceConfigMapName(manufacturer, productName, role);
      match get(configMapName)
      case Success(cm) => Success((cm, configMapName))
      case Failure(_) =>
        match bestMatch(manufacturer, productName, role)
        case Success((matchedName, cm)) => Success((cm, matchedName))
        case Failure(err) =>
          Failure(Wrap(NoMatchingReference + manufacturer + " role=" + role + " (tried exact: " +
                       configMapName + ") on MCP server cluster", err))
  }

  const NoMatchingReference: string := "no matching reference ConfigMap found for vendor="

  // ---------------------------------------------------------------------
  // `parseSettingsYAML`

  /** One line of the settings text: ignored when blank, a '#' comment or
      without ':'; otherwise split at its first ':' into a trimmed key and a
      trimmed value. */
  function SettingLine(line: string): Option<(string, string)> {
    var t := TrimSpace(line);
    if t == "" || HasPrefix(t, "#") then None
    else
      var i := IndexOf(t, ":");
      if i < 0 then None else Some((TrimSpace(t[..i]), TrimSpace(t[i + 1..])))
  }

  /** A setting line is kept exactly when it is neither blank nor a comment
      and holds a ':'; its key is the trimmed text before the first ':' and
      its value the trimmed rest, which may hold further ':'. */
  lemma SettingLineShape(line: string)
    ensures var t := TrimSpace(line);
      SettingLine(line).Some? <==> t != "" && t[0] != '#' && !Avoids(t, ':')
    ensures var t := TrimSpace(line);
      SettingLine(line).Some? ==>
        exists i :: 0 <= i < |t| && t[i] == ':' && Avoids(t[..i], ':') &&
          SettingLine(line).value == (TrimSpace(t[..i]), TrimSpace(t[i + 1..]))
  {
    var t := TrimSpace(line);
    IndexOfChar(t, ':');
    var i := IndexOf(t, ":");
    assert t != "" ==> (HasPrefix(t, "#") <==> t[0] == '#');
    if SettingLine(line).Some? {
      SettingLineFirstColon(t, i);
    }
  }

  lemma SettingLineFirstColon(t: string, i: int)
    requires i == IndexOf(t, ":") && 0 <= i
    ensures i < |t| && t[i] == ':' && Avoids(t[..i], ':')
  {
    IndexOfChar(t, ':');
  }

  /** Each line read with `SettingLine`. */
  function ParsedLines(lines: seq<string>): (r: seq<Option<(string, string)>>)
    ensures |r| == |lines|
  {
    if lines == [] then [] else ParsedLines(lines[..|lines| - 1]) + [SettingLine(lines[|lines| - 1])]
  }

  lemma {:induction false} ParsedLinesAt(lines: seq<string>, j: nat)
    requires j < |lines|
    ensures ParsedLines(lines)[j] == SettingLine(lines[j])
  {
    if j < |lines| - 1 {
      ParsedLinesAt(lines[..|lines| - 1], j);
    }
  }

  /** The settings of the parsed lines, a later line overwriting an earlier
      one with the same key. */
  function SettingsFrom(entries: seq<Option<(string, string)>>): map<string, string> {
    if entries == [] then map[]
    else
      Apply(SettingsFrom(entries[..|entries| - 1]), entries[|entries| - 1])
  }

  function Apply(m: map<string, string>, entry: Option<(string, string)>): map<string, string> {
    if entry.Some? then m[entry.value.0 := entry.value.1] else m
  }

  lemma SettingsFromSnoc(entries: seq<Option<(string, string)>>, e: Option<(string, string)>)
    ensures SettingsFrom(entries + [e]) == Apply(SettingsFrom(entries), e)
  {
    assert (entries + [e])[..|entries|] == entries;
  }

  /** What `parseSettingsYAML` returns. */
  function Settings(settingsStr: string): map<string, string> {
    if settingsStr == "" then map[] else SettingsFrom(ParsedLines(Split(settingsStr, '\n')))
  }

  /** Entry `j` sets key `k`. */
  predicate Sets(entries: seq<Option<(string, string)>>, j: int, k: string) {
    0 <= j < |entries| && entries[j].Some? && entries[j].value.0 == k
  }

  /** The keys are those of the kept lines, and each key has the value of
      the last line that sets it. */
  lemma {:induction false} SettingsFromLastWins(entries: seq<Option<(string, string)>>, k: string)
    ensures k in SettingsFrom(entries) <==> exists j :: Sets(entries, j, k)
    ensures forall j :: Sets(entries, j, k) && (forall j' :: j < j' < |entries| ==> !Sets(entries, j', k)) ==>
      k in SettingsFrom(entries) && SettingsFrom(entries)[k] == entries[j].value.1
  {
    if entries != [] {
      var init := entries[..|entries| - 1];
      var n := |entries| - 1;
      SettingsFromLastWins(init, k);
      assert forall j :: 0 <= j < n ==> entries[j] == init[j];
      assert forall j :: Sets(init, j, k) <==> j < n && Sets(entries, j, k);
      if Sets(entries, n, k) {
        assert exists j :: Sets(entries, j, k);
      }
    }
  }

  /** `parseSettingsYAML`: fills the map line by line. */
  method ParseSettingsYAML(settingsStr: string) returns (settings: map<string, string>)
    ensures settings == Settings(settingsStr)
  {
    settings := map[];
    if settingsStr == "" {
      return;
    }
    settings := ParseSettingLines(Split(settingsStr, '\n'));
  }

  /** The line loop of `parseSettingsYAML`. */
  method ParseSettingLines(lines: seq<string>) returns (settings: map<string, string>)
    ensures settings == SettingsFrom(ParsedLines(lines))
  {
    settings := map[];
    for i := 0 to |lines|
      invariant settings == SettingsFrom(ParsedLines(lines[..i]))
    {
      assert lines[..i + 1][..i] == lines[..i];
      assert ParsedLines(lines[..i + 1]) == ParsedLines(lines[..i]) + [SettingLine(lines[i])];
      SettingsFromSnoc(ParsedLines(lines[..i]), SettingLine(lines[i]));
      var entry := ParseSettingLine(lines[i]);
      if entry.Some? {
        settings := settings[entry.value.0 := entry.value.1];
      }
    }
    assert lines[..|lines|] == lines;
  }

  /** One turn of the line loop: the key and value a kept line sets. */
  method ParseSettingLine(raw: string) returns (entry: Option<(string, string)>)
    ensures entry == SettingLine(raw)
  {
    var line := TrimSpace(raw);
    if line == "" || HasPrefix(line, "#") {
      return None;
    }
    var sep := IndexOf(line, ":");
    if sep < 0 {
      return None;
    }
    var key := TrimSpace(line[..sep]);
    var value := TrimSpace(line[sep + 1..]);
    return Some((key, value));
  }

  // ---------------------------------------------------------------------
  // `compareBIOSSettings`

  datatype BIOSSettingDiff = BIOSSettingDiff(setting: string, expected: string, actual: string)

  /** The expected settings whose actual value is missing or different. */
  function Differing(expected: map<string, string>, actual: map<string, string>): set<string> {
    set k | k in expected && (k !in actual || actual[k] != expected[k])
  }

  /** The diff reported for an expected setting. */
  function DiffFor(expected: map<string, string>, actual: map<string, string>, k: string): BIOSSettingDiff
    requires k in expected
  {
    BIOSSettingDiff(k, expected[k], Lookup(actual, k))
  }

  /** `diffs` holds one diff per differing setting, in some order, and
      nothing else. */
  predicate DiffsOf(diffs: seq<BIOSSettingDiff>, expected: map<string, string>, actual: map<string, string>) {
    (forall i :: 0 <= i < |diffs| ==>
       diffs[i].setting in Differing(expected, actual) && diffs[i] == DiffFor(expected, actual, diffs[i].setting)) &&
    (forall k :: k in Differing(expected, actual) ==> exists i :: 0 <= i < |diffs| && diffs[i].setting == k) &&
    (forall i, j :: 0 <= i < j < |diffs| ==> diffs[i].setting != diffs[j].setting)
  }

  /** `compareBIOSSettings`: Go visits the expected map in an unspecified
      order, so the order of the diffs is left open. */
  method CompareBIOSSettings(expected: map<string, string>, actual: map<string, string>)
    returns (diffs: seq<BIOSSettingDiff>)
    ensures DiffsOf(diffs, expected, actual)
  {
    diffs := [];
    var toVisit := expected.Keys;
    while toVisit != {}
      invariant toVisit <= expected.Keys
      invariant forall i :: 0 <= i < |diffs| ==>
        diffs[i].setting in Differing(expected, actual) && diffs[i].setting !in toVisit &&
        diffs[i] == DiffFor(expected, actual, diffs[i].setting)
      invariant forall k :: k in Differing(expected, actual) && k !in toVisit ==>
        exists i :: 0 <= i < |diffs| && diffs[i].setting == k
      invariant forall i, j :: 0 <= i < j < |diffs| ==> diffs[i].setting != diffs[j].setting
      decreases toVisit
    {
      var setting :| setting in toVisit;
      var expectedValue := expected[setting];
      if setting !in actual || actual[setting] != expectedValue {
        var actualValue := if setting in actual then actual[setting] else "";
        var before := diffs;
        diffs := diffs + [BIOSSettingDiff(setting, expectedValue, actualValue)];
        assert forall i :: 0 <= i < |before| ==> diffs[i] == before[i];
        assert diffs[|diffs| - 1].setting == setting;
      }
      toVisit := toVisit - {setting};
    }
  }

  /** There are no diffs exactly when every expected setting has its
      expected value; settings only the host has do not matter, and there
      are as many diffs as differing settings. */
  lemma DiffsOfEmpty(diffs: seq<BIOSSettingDiff>, expected: map<string, string>, actual: map<string, string>)
    requires DiffsOf(diffs, expected, actual)
    ensures diffs == [] <==> forall k :: k in expected ==> k in actual && actual[k] == expected[k]
    ensures |diffs| == |Differing(expected, actual)|
  {
    var d := Differing(expected, actual);
    DiffCount(diffs, d);
    if d == {} {
      assert |diffs| == 0;
      forall k | k in expected ensures k in actual && actual[k] == expected[k] {
        assert k !in d;
      }
    } else {
      var k :| k in d;
      assert |diffs| != 0;
      assert !(k in actual && actual[k] == expected[k]);
    }
  }

  lemma {:induction false} DiffCount(diffs: seq<BIOSSettingDiff>, keys: set<string>)
    requires forall i :: 0 <= i < |diffs| ==> diffs[i].setting in keys
    requires forall k :: k in keys ==> exists i :: 0 <= i < |diffs| && diffs[i].setting == k
    requires forall i, j :: 0 <= i < j < |diffs| ==> diffs[i].setting != diffs[j].setting
    ensures |diffs| == |keys|
  {
    if diffs == [] {
      assert keys == {};
    } else {
      var last := diffs[|diffs| - 1].setting;
      var init := diffs[..|diffs| - 1];
      forall k | k in keys - {last} ensures exists i :: 0 <= i < |init| && init[i].setting == k {
        var i :| 0 <= i < |diffs| && diffs[i].setting == k;
        assert init[i].setting == k;
      }
      DiffCount(init, keys - {last});
    }
  }

  // ---------------------------------------------------------------------
  // `extractBIOSVersion`

  const ComponentsPath: seq<string> := ["status", "components"]
  const ComponentPath: seq<string> := ["component"]
  const CurrentVersionPath: seq<string> := ["currentVersion"]
  const BIOSComponentName: string := "bios"

  /** A component entry that is a map naming the `bios` component. */
  predicate IsBIOSComponent(c: Json) {
    c.JObject? && NestedString(c, ComponentPath) == BIOSComponentName
  }

  /** The index of the first BIOS component, or |components|. */
  function FirstBIOSComponent(components: seq<Json>): (i: nat)
    ensures i <= |components|
    ensures i < |components| ==> IsBIOSComponent(components[i])
    ensures forall j :: 0 <= j < i ==> !IsBIOSComponent(components[j])
  {
    if components == [] then 0
    else if IsBIOSComponent(components[0]) then 0
    else 1 + FirstBIOSComponent(components[1..])
  }

  function Components(hfc: Json): seq<Json> {
    NestedSlice(hfc, ComponentsPath)
  }

  /** What `extractBIOSVersion` returns. */
  function BIOSVersionOf(hfc: Json): string {
    var components := Components(hfc);
    var i := FirstBIOSComponent(components);
    if i < |components| then NestedString(components[i], CurrentVersionPath) else ""
  }

  /** `extractBIOSVersion`: the `currentVersion` of the first map entry of
      `status.components` whose `component` is "bios"; "" if there is none. */
  method ExtractBIOSVersion(hfc: Json) returns (version: string)
    ensures version == BIOSVersionOf(hfc)
    ensures (forall j :: 0 <= j < |Components(hfc)| ==> !IsBIOSComponent(Components(hfc)[j])) ==> version == ""
  {
    var components := Components(hfc);
    for i := 0 to |components|
      invariant forall j :: 0 <= j < i ==> !IsBIOSComponent(components[j])
    {
      var comp := components[i];
      if !comp.JObject? {
        continue;
      }
      var componentName := NestedString(comp, ComponentPath);
      if componentName == BIOSComponentName {
        FirstBIOSComponentIs(components, i);
        return NestedString(comp, CurrentVersionPath);
      }
    }
    FirstBIOSComponentIs(components, |components|);
    return "";
  }

  /** The first BIOS component is the one no earlier entry precedes. */
  lemma {:induction false} FirstBIOSComponentIs(components: seq<Json>, i: nat)
    requires i <= |components| && (i < |components| ==> IsBIOSComponent(components[i]))
    requires forall j :: 0 <= j < i ==> !IsBIOSComponent(components[j])
    ensures FirstBIOSComponent(components) == i
  {
    if i > 0 {
      FirstBIOSComponentIs(components[1..], i - 1);
    }
  }

  // ---------------------------------------------------------------------
  // `compareBMHBIOS`

  datatype ServerModelInfo = ServerModelInfo(manufacturer: string, productName: string)

  datatype BIOSVersionResult = BIOSVersionResult(expected: string, actual: string, matches: bool)

  datatype HostBIOSResult = HostBIOSResult(
    name: string,
    namespace: string,
    role: string,
    serverModel: ServerModelInfo,
    reference: string,
    referenceSource: string,
    biosVersion: BIOSVersionResult,
    settingsDiff: seq<BIOSSettingDiff>,
    compliant: bool,
    error: string)

  /** What the hub cluster answers about one BareMetalHost: the host object
      and the HardwareData, HostFirmwareComponents and HostFirmwareSettings
      objects of the same name. */
  datatype HostData = HostData(
    bmh: Json,
    hardwareData: Result<Json, Error>,
    firmwareComponents: Result<Json, Error>,
    firmwareSettings: Result<Json, Error>)

  const BMHRoleAnnotation: string := "bmac.agent-install.openshift.io/role"
  const ReferenceSourceMCPServer: string := "mcp-server-cluster"
  const HardwareDataFailure: string := "failed to get HardwareData: "
  const ComponentsFailure: string := "failed to get HostFirmwareComponents: "
  const SettingsFailure: string := "failed to get HostFirmwareSettings: "

  const DefaultRole: string := "worker"

  /** The role annotation, "worker" when it is absent or empty. */
  function RoleOf(bmh: Json): (role: string)
    ensures role != ""
    ensures var annotated := Lookup(NestedStringMap(bmh, ["metadata", "annotations"]), BMHRoleAnnotation);
      (annotated != "" ==> role == annotated) && (annotated == "" ==> role == DefaultRole)
  {
    var annotated := Lookup(NestedStringMap(bmh, ["metadata", "annotations"]), BMHRoleAnnotation);
    if annotated == "" then DefaultRole else annotated
  }

  function ServerModelOf(hardwareData: Json): ServerModelInfo {
    ServerModelInfo(NestedString(hardwareData, ["spec", "hardware", "systemVendor", "manufacturer"]),
                    NestedString(hardwareData, ["spec", "hardware", "systemVendor", "productName"]))
  }

  /** `extractBIOSSettings`. */
  function ActualSettings(firmwareSettings: Json): map<string, string> {
    NestedStringMap(firmwareSettings, ["status", "settings"])
  }

  /** The reference data of a ConfigMap: its `data` map of strings. */
  function ReferenceData(configMap: Json): map<string, string> {
    NestedStringMap(configMap, ["data"])
  }

  /** The reference lookup for host data whose HardwareData was read. */
  function ReferenceFor(get: ConfigMapGetter, bestMatch: LabelMatcher, referenceNamespace: string,
                        referenceOverride: string, d: HostData): Result<(Json, string), Error>
    requires d.hardwareData.Success?
  {
    var model := ServerModelOf(d.hardwareData.value);
    FindReferenceConfigMap(get, bestMatch, referenceNamespace, referenceOverride,
                           model.manufacturer, model.productName, RoleOf(d.bmh))
  }

  /** A result that stopped before the reference was compared: no
      reference, no BIOS version and no settings diff are reported. */
  predicate NothingCompared(h: HostBIOSResult) {
    h.reference == "" && h.referenceSource == "" &&
    h.biosVersion == BIOSVersionResult("", "", false) && h.settingsDiff == []
  }

  /** What `compareBMHBIOS` reports for the host data `d`: it reads the
      host's hardware data, BIOS version and settings, stopping at the first
      failed read with an error message; then it finds the reference and
      compares. A host is compliant exactly when no read failed, its BIOS
      version is the expected one, and no setting differs. */
  predicate HostOutcome(get: ConfigMapGetter, bestMatch: LabelMatcher, referenceNamespace: string,
                        referenceOverride: string, d: HostData, h: HostBIOSResult)
  {
    (h.name == GetName(d.bmh) && h.namespace == GetNamespace(d.bmh) && h.role == RoleOf(d.bmh)) &&
    (h.compliant <==> h.error == "" && h.biosVersion.matches && h.settingsDiff == []) &&
    (d.hardwareData.Failure? ==>
      h.error == HardwareDataFailure + d.hardwareData.error.Text() &&
      h.serverModel == ServerModelInfo("", "") && NothingCompared(h)) &&
    (d.hardwareData.Success? ==> h.serverModel == ServerModelOf(d.hardwareData.value)) &&
    (d.hardwareData.Success? && d.firmwareComponents.Failure? ==>
      h.error == ComponentsFailure + d.firmwareComponents.error.Text() && NothingCompared(h)) &&
    (d.hardwareData.Success? && d.firmwareComponents.Success? && d.firmwareSettings.Failure? ==>
      h.error == SettingsFailure + d.firmwareSettings.error.Text() && NothingCompared(h)) &&
    (d.hardwareData.Success? && d.firmwareComponents.Success? && d.firmwareSettings.Success? ==>
      var ref := ReferenceFor(get, bestMatch, referenceNamespace, referenceOverride, d);
      (ref.Failure? ==> h.error == ref.error.Text() && !h.compliant && NothingCompared(h)) &&
      (ref.Success? ==>
         var refData := ReferenceData(ref.value.0);
         var expectedVersion := Lookup(refData, "biosVersion");
         var actualVersion := BIOSVersionOf(d.firmwareComponents.value);
         h.error == "" && h.reference == ref.value.1 && h.referenceSource == ReferenceSourceMCPServer &&
         h.biosVersion == BIOSVersionResult(expectedVersion, actualVersion, expectedVersion == actualVersion) &&
         DiffsOf(h.settingsDiff, Settings(Lookup(refData, "settings")), ActualSettings(d.firmwareSettings.value))))
  }

  /** `compareBMHBIOS`. */
  method CompareBMHBIOS(get: ConfigMapGetter, bestMatch: LabelMatcher, referenceNamespace: string,
                        referenceOverride: string, d: HostData)
    returns (h: HostBIOSResult)
    ensures HostOutcome(get, bestMatch, referenceNamespace, referenceOverride, d, h)
  {
    var role := RoleOf(d.bmh);
    h := HostBIOSResult(GetName(d.bmh), GetNamespace(d.bmh), role, ServerModelInfo("", ""), "", "",
                        BIOSVersionResult("", "", false), [], false, "");
    if d.hardwareData.Failure? {
      h := h.(error := HardwareDataFailure + d.hardwareData.error.Text());
      return;
    }
    var model := ServerModelOf(d.hardwareData.value);
    h := h.(serverModel := model);
    if d.firmwareComponents.Failure? {
      h := h.(error := ComponentsFailure + d.firmwareComponents.error.Text());
      return;
    }
    var actualBIOSVersion := ExtractBIOSVersion(d.firmwareComponents.value);
    if d.firmwareSettings.Failure? {
      h := h.(error := SettingsFailure + d.firmwareSettings.error.Text());
      return;
    }
    var actualSettings := ActualSettings(d.firmwareSettings.value);
    var ref := FindReferenceConfigMap(get, bestMatch, referenceNamespace, referenceOverride,
                                      model.manufacturer, model.productName, role);
    if ref.Failure? {
      h := h.(error := ref.error.Text());
      return;
    }
    var (refConfigMap, configMapName) := ref.value;
    h := h.(reference := configMapName, referenceSource := ReferenceSourceMCPServer);
    var refData := ReferenceData(refConfigMap);
    var expectedBIOSVersion := Lookup(refData, "biosVersion");
    var expectedSettings := ParseSettingsYAML(Lookup(refData, "settings"));
    h := h.(biosVersion := BIOSVersionResult(expectedBIOSVersion, actualBIOSVersion,
                                             expectedBIOSVersion == actualBIOSVersion));
    var diffs := CompareBIOSSettings(expectedSettings, actualSettings);
    h := h.(settingsDiff := diffs);
    h := h.(compliant := h.biosVersion.matches && |h.settingsDiff| == 0);
  }

  // ---------------------------------------------------------------------
  // `runBIOSComparison`

  datatype BIOSDiffSummary = BIOSDiffSummary(totalHosts: nat, compliantHosts: nat, numDiffHosts: nat, errorHosts: nat)

  datatype BIOSDiffResult = BIOSDiffResult(namespace: string, hosts: seq<HostBIOSResult>, summary: BIOSDiffSummary)

  /** The summary bucket of a host: Error first, then Compliant, else Diff. */
  datatype Bucket = ErrorBucket | CompliantBucket | DiffBucket

  function BucketOf(h: HostBIOSResult): Bucket {
    if h.error != "" then ErrorBucket
    else if h.compliant then CompliantBucket
    else DiffBucket
  }

  /** The number of hosts in bucket `b`. */
  function Count(hosts: seq<HostBIOSResult>, b: Bucket): nat {
    if hosts == [] then 0
    else Count(hosts[..|hosts| - 1], b) + (if BucketOf(hosts[|hosts| - 1]) == b then 1 else 0)
  }

  /** Appending a host adds one to its own bucket and nothing to the others. */
  lemma CountSnoc(hosts: seq<HostBIOSResult>, h: HostBIOSResult)
    ensures Count(hosts + [h], ErrorBucket) == Count(hosts, ErrorBucket) + (if BucketOf(h) == ErrorBucket then 1 else 0)
    ensures Count(hosts + [h], CompliantBucket) == Count(hosts, CompliantBucket) + (if BucketOf(h) == CompliantBucket then 1 else 0)
    ensures Count(hosts + [h], DiffBucket) == Count(hosts, DiffBucket) + (if BucketOf(h) == DiffBucket then 1 else 0)
  {
    assert (hosts + [h])[..|hosts|] == hosts;
  }

  /** Appending the result of the next host keeps every result that of its own host. */
  lemma OutcomesSnoc(get: ConfigMapGetter, bestMatch: LabelMatcher, referenceNamespace: string,
                     referenceOverride: string, items: seq<HostData>, hosts: seq<HostBIOSResult>, h: HostBIOSResult)
    requires |hosts| < |items|
    requires forall j :: 0 <= j < |hosts| ==>
      HostOutcome(get, bestMatch, referenceNamespace, referenceOverride, items[j], hosts[j])
    requires HostOutcome(get, bestMatch, referenceNamespace, referenceOverride, items[|hosts|], h)
    ensures forall j :: 0 <= j < |hosts| + 1 ==>
      HostOutcome(get, bestMatch, referenceNamespace, referenceOverride, items[j], (hosts + [h])[j])
  {
  }

  /** Every host is in exactly one bucket, so the counts add up to the
      number of hosts. */
  lemma {:induction false} CountsPartition(hosts: seq<HostBIOSResult>)
    ensures Count(hosts, ErrorBucket) + Count(hosts, CompliantBucket) + Count(hosts, DiffBucket) == |hosts|
  {
    if hosts != [] {
      CountsPartition(hosts[..|hosts| - 1]);
    }
  }

  /** The summary Go computes for `hosts`. */
  predicate Tallies(s: BIOSDiffSummary, hosts: seq<HostBIOSResult>) {
    s.totalHosts == |hosts| &&
    s.errorHosts == Count(hosts, ErrorBucket) &&
    s.compliantHosts == Count(hosts, CompliantBucket) &&
    s.numDiffHosts == Count(hosts, DiffBucket)
  }

  const GetBMHFailure: string := "failed to get BareMetalHost "
  const ListBMHFailure: string := "failed to list BareMetalHosts in namespace "
  const NoBMH: string := "no BareMetalHosts found in namespace "
  const GetBMHHint: string := "Verify the host name and namespace are correct"
  const ListBMHHint: string := "Verify the namespace exists and you have permission to list BareMetalHosts"
  const NoBMHHint: string := "Verify the namespace contains BareMetalHost resources"

  /** The error for a failed read of the BareMetalHosts. */
  function BMHReadError(namespace: string, hostName: string, err: Error): Error {
    if hostName != "" then
      CompareError("get-bmh", Wrap(GetBMHFailure + namespace + "/" + hostName, err), GetBMHHint)
    else
      CompareError("list-bmh", Wrap(ListBMHFailure + namespace, err), ListBMHHint)
  }

  /** `runBIOSComparison`. `bmhs` is what the hub answered: the one host
      named `hostName` when it is set, the namespace's hosts otherwise. Every
      host is compared and counted in exactly one bucket. */
  method RunBIOSComparison(get: ConfigMapGetter, bestMatch: LabelMatcher, namespace: string, hostName: string,
                           referenceNamespace: string, referenceOverride: string,
                           bmhs: Result<seq<HostData>, Error>)
    returns (r: Result<BIOSDiffResult, Error>)
    ensures bmhs.Failure? ==> r == Failure(BMHReadError(namespace, hostName, bmhs.error))
    ensures bmhs.Success? && bmhs.value == [] ==>
      r == Failure(CompareError("no-bmh", Plain(NoBMH + namespace), NoBMHHint))
    ensures bmhs.Success? && bmhs.value != [] ==>
      r.Success? && r.value.namespace == namespace && |r.value.hosts| == |bmhs.value| &&
      (forall i :: 0 <= i < |bmhs.value| ==>
         HostOutcome(get, bestMatch, referenceNamespace, referenceOverride, bmhs.value[i], r.value.hosts[i])) &&
      Tallies(r.value.summary, r.value.hosts)
  {
    if bmhs.Failure? {
      return Failure(BMHReadError(namespace, hostName, bmhs.error));
    }
    var items := bmhs.value;
    if |items| == 0 {
      return Failure(CompareError("no-bmh", Plain(NoBMH + namespace), NoBMHHint));
    }
    var hosts: seq<HostBIOSResult> := [];
    var summary := BIOSDiffSummary(|items|, 0, 0, 0);
    for i := 0 to |items|
      invariant |hosts| == i
      invariant summary.totalHosts == |items|
      invariant summary.errorHosts == Count(hosts, ErrorBucket)
      invariant summary.compliantHosts == Count(hosts, CompliantBucket)
      invariant summary.numDiffHosts == Count(hosts, DiffBucket)
      invariant forall j :: 0 <= j < i ==> HostOutcome(get, bestMatch, referenceNamespace, referenceOverride, items[j], hosts[j])
    {
      var hostResult := CompareBMHBIOS(get, bestMatch, referenceNamespace, referenceOverride, items[i]);
      CountSnoc(hosts, hostResult);
      OutcomesSnoc(get, bestMatch, referenceNamespace, referenceOverride, items, hosts, hostResult);
      hosts := hosts + [hostResult];
      if hostResult.error != "" {
        summary := summary.(errorHosts := summary.errorHosts + 1);
      } else if hostResult.compliant {
        summary := summary.(compliantHosts := summary.compliantHosts + 1);
      } else {
        summary := summary.(numDiffHosts := summary.numDiffHosts + 1);
      }
    }
    return Success(BIOSDiffResult(namespace, hosts, summary));
  }
}

/** Kubeconfig handling (pkg/mcpserver/kubeconfig.go): the size-limited
    base64 decoding, the raw-YAML-or-base64 detection with its in-cluster
    signal, the structural checks after parsing, the refusal of exec and
    auth-provider credentials, the context resolution that precedes building
    a REST config, and the redaction of error messages. Base64 decoding,
    `clientcmd.Load` and `clientcmd.NewNonInteractiveClientConfig` are
    foreign code: they are parameters of the operations that call them. */
module Kubeconfig {
  import opened Wrappers
  import opened Strings
  import opened Errors

  const MaxKubeconfigSize: nat := 1 * 1024 * 1024
  const MaxDecodedKubeconfigSize: nat := 768 * 1024

  // ---------------------------------------------------------------------
  // The parsed kubeconfig (`clientcmdapi.Config`), reduced to what the
  // checks read.

  /** A context names the cluster and the user it combines. */
  datatype Context = Context(cluster: string, authInfo: string)

  /** A user: whether it has an `exec` stanza, and the name of its
      `auth-provider` when it has one. */
  datatype AuthInfo = AuthInfo(hasExec: bool, authProvider: Option<string>)

  datatype Cluster = Cluster(server: string)

  datatype Config = Config(
    clusters: map<string, Cluster>,
    authInfos: map<string, AuthInfo>,
    contexts: map<string, Context>,
    currentContext: string)

  /** The REST client configuration the foreign builder produces. */
  datatype RestConfig = RestConfig(host: string)

  /** A base64 decoder (`StdEncoding` or `URLEncoding`): None when the text
      is not valid in that alphabet. Bytes are kept as a string. */
  type Decoder = string -> Option<string>

  /** `clientcmd.Load`: the parsed configuration or the parser's message. */
  type Loader = string -> Result<Config, string>

  /** `NewNonInteractiveClientConfig(...).ClientConfig()` for a context. */
  type RestBuilder = (Config, string) -> Result<RestConfig, Error>

  // ---------------------------------------------------------------------
  // Redaction and log excerpts

  const SensitivePatterns: seq<string> := ["token", "password", "secret", "credential", "bearer"]
  const Redacted: string := "configuration error (details redacted for security)"

  /** The lower-cased message mentions one of the sensitive words. */
  predicate Sensitive(msg: string) {
    exists p :: p in SensitivePatterns && Contains(ToLower(msg), p)
  }

  /** The pattern loop of `SanitizeErrorMessage` from index `k` on. */
  function FirstSensitive(lower: string, k: nat): (r: bool)
    requires k <= |SensitivePatterns|
    ensures r <==> exists j :: k <= j < |SensitivePatterns| && Contains(lower, SensitivePatterns[j])
    decreases |SensitivePatterns| - k
  {
    if k == |SensitivePatterns| then false
    else if Contains(lower, SensitivePatterns[k]) then true
    else FirstSensitive(lower, k + 1)
  }

  /** `SanitizeErrorMessage`: the fixed redaction text when the message
      mentions a sensitive word in any case, the message itself otherwise. */
  function SanitizeErrorMessage(msg: string): (r: string)
    ensures Sensitive(msg) ==> r == Redacted
    ensures !Sensitive(msg) ==> r == msg
  {
    var found := FirstSensitive(ToLower(msg), 0);
    assert found <==> Sensitive(msg) by {
      if found {
        var j :| 0 <= j < |SensitivePatterns| && Contains(ToLower(msg), SensitivePatterns[j]);
        assert SensitivePatterns[j] in SensitivePatterns;
      }
      if Sensitive(msg) {
        var p :| p in SensitivePatterns && Contains(ToLower(msg), p);
        var j :| 0 <= j < |SensitivePatterns| && SensitivePatterns[j] == p;
      }
    }
    if found then Redacted else msg
  }

  /** `safePrefix`: the text, or its first `n` bytes and "...". */
  function SafePrefix(s: string, n: nat): (r: string)
    ensures |s| <= n ==> r == s
    ensures |s| > n ==> |r| == n + 3 && HasPrefix(s, r[..n]) && r[n..] == "..."
  {
    if |s| <= n then s else s[..n] + "..."
  }

  /** `safeSuffix`: the text, or "..." and its last `n` bytes. */
  function SafeSuffix(s: string, n: nat): (r: string)
    ensures |s| <= n ==> r == s
    ensures |s| > n ==> |r| == n + 3 && r[..3] == "..." && s[|s| - n..] == r[3..]
  {
    if |s| <= n then s else "..." + s[|s| - n..]
  }

  // ---------------------------------------------------------------------
  // Errors of the chain

  const KubeconfigField: string := "kubeconfig"
  const ContextField: string := "context"
  const SizeLimitCode: string := "kubeconfig-size-limit"
  const ExecBlockedCode: string := "exec-auth-blocked"
  const AuthProviderBlockedCode: string := "auth-provider-blocked"

  const EmptyMessage: string := "kubeconfig is empty after trimming whitespace"
  const EmptyHint: string := "Provide the base64-encoded kubeconfig content, not an empty value"
  const SizeHint: string := "Reduce the kubeconfig size by removing unused contexts, clusters, or users"
  const Base64Hint: string := "Ensure the kubeconfig is properly base64 encoded without truncation or modification"
  const UndetectedMessage: string := "unable to parse kubeconfig: not valid YAML or base64-encoded content"
  const UndetectedHint: string := "Provide either raw kubeconfig YAML content or base64-encoded kubeconfig"
  const ParseFailedPrefix: string := "failed to parse kubeconfig: "
  const ParseFailedHint: string :=
    "Verify the kubeconfig is valid YAML and follows the Kubernetes configuration format"
  const NoClustersMessage: string := "kubeconfig contains no clusters"
  const NoClustersHint: string := "Add at least one cluster configuration"
  const NoUsersMessage: string := "kubeconfig contains no user credentials"
  const NoUsersHint: string := "Add at least one user configuration with authentication details"
  const NoContextsMessage: string := "kubeconfig contains no contexts"
  const NoContextsHint: string := "Add at least one context that references a cluster and user"
  const ExecHint: string := "Use token, client certificate, or OIDC authentication instead of exec-based auth"
  const AuthProviderHint: string :=
    "Use token, client certificate, or OIDC authentication instead of auth provider plugins"
  const NoContextMessage: string := "no context specified and kubeconfig has no current-context"
  const NoContextHint: string := "Specify a context name or set current-context in the kubeconfig"
  const BuildFailedPrefix: string := "failed to build client config"
  const BuildFailedHint: string := "Verify the kubeconfig authentication and cluster settings are correct"

  /** `NewValidationError(field, message, hint)`. */
  function Invalid(field: string, message: string, hint: string): (e: Error)
    ensures e.ValidationError? && e.field == field && e.message == message && e.hint == hint
  {
    ValidationError(field, "", message, hint)
  }

  /** The size-limit security error for a text of `size` bytes over `limit`. */
  function TooLarge(what: string, size: nat, limit: nat): (e: Error)
    ensures e.SecurityError? && e.code == SizeLimitCode
  {
    SecurityError(SizeLimitCode,
      what + " size (" + NatToString(size) + " bytes) exceeds maximum allowed (" + NatToString(limit) + " bytes)",
      SizeHint)
  }

  /** The error is a size-limit refusal. */
  predicate IsSizeLimit(e: Error) {
    e.SecurityError? && e.code == SizeLimitCode
  }

  // ---------------------------------------------------------------------
  // Decoding

  /** The standard alphabet, then the URL alphabet. */
  function DecodeEither(std: Decoder, url: Decoder, s: string): (r: Option<string>)
    ensures r.Some? <==> std(s).Some? || url(s).Some?
    ensures std(s).Some? ==> r == std(s)
  {
    if std(s).Some? then std(s) else url(s)
  }

  /** `DecodeKubeconfig`. */
  function DecodeKubeconfig(std: Decoder, url: Decoder, base64Input: string): (r: Result<string, Error>)
    ensures var t := TrimSpace(base64Input);
      (t == [] <==> r == Failure(Invalid(KubeconfigField, EmptyMessage, EmptyHint))) &&
      (t != [] && |t| > MaxKubeconfigSize ==> r.Failure? && IsSizeLimit(r.error)) &&
      (r.Success? ==>
        t != [] && |t| <= MaxKubeconfigSize && Some(r.value) == DecodeEither(std, url, t) &&
        |r.value| <= MaxDecodedKubeconfigSize)
    ensures r.Failure? && r.error.ValidationError? ==>
      var t := TrimSpace(base64Input); t == [] || DecodeEither(std, url, t).None?
    ensures var t := TrimSpace(base64Input);
      t != [] && |t| <= MaxKubeconfigSize ==>
      match DecodeEither(std, url, t)
      case None =>
        r == Failure(Invalid(KubeconfigField,
          "invalid base64 encoding (input length: " + NatToString(|t|) + " bytes)", Base64Hint))
      case Some(d) =>
        (|d| <= MaxDecodedKubeconfigSize ==> r == Success(d)) &&
        (|d| > MaxDecodedKubeconfigSize ==> r.Failure? && IsSizeLimit(r.error))
  {
    var t := TrimSpace(base64Input);
    if t == [] then Failure(Invalid(KubeconfigField, EmptyMessage, EmptyHint))
    else if |t| > MaxKubeconfigSize then Failure(TooLarge("kubeconfig", |t|, MaxKubeconfigSize))
    else
      match DecodeEither(std, url, t)
      case None =>
        Failure(Invalid(KubeconfigField,
          "invalid base64 encoding (input length: " + NatToString(|t|) + " bytes)", Base64Hint))
      case Some(decoded) =>
        if |decoded| > MaxDecodedKubeconfigSize then
          Failure(TooLarge("decoded kubeconfig", |decoded|, MaxDecodedKubeconfigSize))
        else Success(decoded)
  }

  /** A text is a kubeconfig to the detection: it parses and names at least
      one cluster. */
  predicate LoadsWithClusters(load: Loader, data: string) {
    load(data).Success? && |load(data).value.clusters| > 0
  }

  /** `DecodeOrParseKubeconfig`: `Success(None)` is the nil result that
      selects the in-cluster configuration. */
  function DecodeOrParseKubeconfig(std: Decoder, url: Decoder, load: Loader, input: string)
    : (r: Result<Option<string>, Error>)
    ensures var t := TrimSpace(input);
      (r == Success(None) <==> t == []) &&
      (t != [] && |t| > MaxKubeconfigSize ==> r.Failure? && IsSizeLimit(r.error))
    ensures r.Success? && r.value.Some? ==>
      var t := TrimSpace(input); var data := r.value.value;
      |data| <= MaxDecodedKubeconfigSize && LoadsWithClusters(load, data) &&
      (data == t || (!LoadsWithClusters(load, t) && Some(data) == DecodeEither(std, url, t)))
    ensures var t := TrimSpace(input);
      t != [] && |t| <= MaxKubeconfigSize && LoadsWithClusters(load, t) ==>
      (r == Success(Some(t)) <==> |t| <= MaxDecodedKubeconfigSize) &&
      (|t| > MaxDecodedKubeconfigSize ==> r.Failure? && IsSizeLimit(r.error))
    ensures var t := TrimSpace(input);
      t != [] && |t| <= MaxKubeconfigSize && !LoadsWithClusters(load, t) ==>
      match DecodeEither(std, url, t)
      case Some(d) =>
        (LoadsWithClusters(load, d) && |d| <= MaxDecodedKubeconfigSize ==> r == Success(Some(d))) &&
        (LoadsWithClusters(load, d) && |d| > MaxDecodedKubeconfigSize ==> r.Failure? && IsSizeLimit(r.error)) &&
        (!LoadsWithClusters(load, d) ==> r == Failure(Invalid(KubeconfigField, UndetectedMessage, UndetectedHint)))
      case None => r == Failure(Invalid(KubeconfigField, UndetectedMessage, UndetectedHint))
  {
    var t := TrimSpace(input);
    if t == [] then Success(None)
    else if |t| > MaxKubeconfigSize then Failure(TooLarge("kubeconfig", |t|, MaxKubeconfigSize))
    else if LoadsWithClusters(load, t) then
      if |t| > MaxDecodedKubeconfigSize then Failure(TooLarge("kubeconfig", |t|, MaxDecodedKubeconfigSize))
      else Success(Some(t))
    else
      match DecodeEither(std, url, t)
      case Some(decoded) =>
        if LoadsWithClusters(load, decoded) then
          if |decoded| > MaxDecodedKubeconfigSize then
            Failure(TooLarge("decoded kubeconfig", |decoded|, MaxDecodedKubeconfigSize))
          else Success(Some(decoded))
        else Failure(Invalid(KubeconfigField, UndetectedMessage, UndetectedHint))
      case None => Failure(Invalid(KubeconfigField, UndetectedMessage, UndetectedHint))
  }

  // ---------------------------------------------------------------------
  // Structural checks

  /** `ParseKubeconfig`: the parse, then clusters, users and contexts, each
      refused when empty, in that order. */
  function ParseKubeconfig(load: Loader, data: string): (r: Result<Config, Error>)
    ensures load(data).Failure? ==>
      r == Failure(Invalid(KubeconfigField, ParseFailedPrefix + SanitizeErrorMessage(load(data).error), ParseFailedHint))
    ensures load(data).Success? ==>
      var c := load(data).value;
      (|c.clusters| == 0 ==> r == Failure(Invalid(KubeconfigField, NoClustersMessage, NoClustersHint))) &&
      (|c.clusters| > 0 && |c.authInfos| == 0 ==> r == Failure(Invalid(KubeconfigField, NoUsersMessage, NoUsersHint))) &&
      (|c.clusters| > 0 && |c.authInfos| > 0 && |c.contexts| == 0 ==>
         r == Failure(Invalid(KubeconfigField, NoContextsMessage, NoContextsHint)))
    ensures r.Success? <==>
      load(data).Success? && Populated(load(data).value)
    ensures r.Success? ==> r.value == load(data).value
  {
    match load(data)
    case Failure(msg) =>
      Failure(Invalid(KubeconfigField, ParseFailedPrefix + SanitizeErrorMessage(msg), ParseFailedHint))
    case Success(c) =>
      if |c.clusters| == 0 then Failure(Invalid(KubeconfigField, NoClustersMessage, NoClustersHint))
      else if |c.authInfos| == 0 then Failure(Invalid(KubeconfigField, NoUsersMessage, NoUsersHint))
      else if |c.contexts| == 0 then Failure(Invalid(KubeconfigField, NoContextsMessage, NoContextsHint))
      else Success(c)
  }

  /** A configuration with at least one cluster, user and context. */
  predicate Populated(c: Config) {
    |c.clusters| > 0 && |c.authInfos| > 0 && |c.contexts| > 0
  }

  /** A parse error is shown only after redaction: a parser message that
      mentions a sensitive word is never repeated. */
  lemma ParseErrorRedacted(load: Loader, data: string)
    requires load(data).Failure? && Sensitive(load(data).error)
    ensures ParseKubeconfig(load, data) ==
      Failure(Invalid(KubeconfigField, ParseFailedPrefix + Redacted, ParseFailedHint))
  {
  }

  // ---------------------------------------------------------------------
  // Security validation

  function ExecBlocked(user: string): (e: Error)
    ensures e.SecurityError? && e.code == ExecBlockedCode
  {
    SecurityError(ExecBlockedCode,
      "exec-based authentication in user '" + user + "' is not allowed for security reasons", ExecHint)
  }

  function AuthProviderBlocked(provider: string, user: string): (e: Error)
    ensures e.SecurityError? && e.code == AuthProviderBlockedCode
  {
    SecurityError(AuthProviderBlockedCode,
      "auth provider plugin '" + provider + "' in user '" + user + "' is not allowed for security reasons",
      AuthProviderHint)
  }

  predicate HasExec(c: Config, user: string) {
    user in c.authInfos && c.authInfos[user].hasExec
  }

  predicate HasAuthProvider(c: Config, user: string) {
    user in c.authInfos && c.authInfos[user].authProvider.Some?
  }

  /** `BlockExecAuth`: the map is walked in Go's unspecified order, so the
      user named in the error is some user with an exec stanza. */
  method BlockExecAuth(c: Config) returns (err: Option<Error>)
    ensures err.None? <==> forall u :: u in c.authInfos ==> !c.authInfos[u].hasExec
    ensures err.Some? ==> exists u :: HasExec(c, u) && err == Some(ExecBlocked(u))
  {
    var remaining := c.authInfos.Keys;
    while remaining != {}
      invariant remaining <= c.authInfos.Keys
      invariant forall u :: u in c.authInfos && u !in remaining ==> !c.authInfos[u].hasExec
      decreases |remaining|
    {
      var name :| name in remaining;
      if c.authInfos[name].hasExec {
        assert HasExec(c, name);
        return Some(ExecBlocked(name));
      }
      remaining := remaining - {name};
    }
    return None;
  }

  /** `BlockAuthProviderPlugins`, likewise over some user with an
      `auth-provider` entry. */
  method BlockAuthProviderPlugins(c: Config) returns (err: Option<Error>)
    ensures err.None? <==> forall u :: u in c.authInfos ==> c.authInfos[u].authProvider.None?
    ensures err.Some? ==>
      exists u :: HasAuthProvider(c, u) && err == Some(AuthProviderBlocked(c.authInfos[u].authProvider.value, u))
  {
    var remaining := c.authInfos.Keys;
    while remaining != {}
      invariant remaining <= c.authInfos.Keys
      invariant forall u :: u in c.authInfos && u !in remaining ==> c.authInfos[u].authProvider.None?
      decreases |remaining|
    {
      var name :| name in remaining;
      var info := c.authInfos[name];
      if info.authProvider.Some? {
        assert HasAuthProvider(c, name);
        return Some(AuthProviderBlocked(info.authProvider.value, name));
      }
      remaining := remaining - {name};
    }
    return None;
  }

  /** No user can run a command or a plugin to obtain credentials. */
  predicate Secure(c: Config) {
    forall u :: u in c.authInfos ==> !c.authInfos[u].hasExec && c.authInfos[u].authProvider.None?
  }

  /** The refusal `ValidateKubeconfigSecurity` gives an insecure
      configuration: some user's exec stanza when there is one, else some
      user's auth-provider entry. */
  ghost predicate SecurityRefusal(c: Config, e: Error) {
    if exists u :: HasExec(c, u) then exists u :: HasExec(c, u) && e == ExecBlocked(u)
    else exists u :: HasAuthProvider(c, u) && e == AuthProviderBlocked(c.authInfos[u].authProvider.value, u)
  }

  /** `ValidateKubeconfigSecurity`: exec stanzas are looked for first, so a
      configuration with both kinds is refused for its exec stanza. */
  method ValidateKubeconfigSecurity(c: Config) returns (err: Option<Error>)
    ensures err.None? <==> Secure(c)
    ensures err.Some? ==> SecurityRefusal(c, err.value)
    ensures err.Some? ==> err.value.SecurityError?
    ensures (exists u :: HasExec(c, u)) ==> err.Some? && err.value.SecurityError? && err.value.code == ExecBlockedCode
    ensures (forall u :: !HasExec(c, u)) && (exists u :: HasAuthProvider(c, u)) ==>
      err.Some? && err.value.SecurityError? && err.value.code == AuthProviderBlockedCode
  {
    err := BlockExecAuth(c);
    if err.Some? {
      return;
    }
    err := BlockAuthProviderPlugins(c);
  }

  // ---------------------------------------------------------------------
  // Context resolution

  /** `ks` lists the names of `s`, each once, in some order. */
  ghost predicate Enumerates(ks: seq<string>, s: set<string>) {
    (forall i :: 0 <= i < |ks| ==> ks[i] in s) &&
    (forall k :: k in s ==> k in ks) &&
    (forall i, j :: 0 <= i < j < |ks| ==> ks[i] != ks[j])
  }

  /** `h` is `prefix` followed by the names of `s`, comma-separated, in
      some order (Go ranges over the map). */
  ghost predicate ListsNames(h: string, prefix: string, s: set<string>) {
    exists ks :: Enumerates(ks, s) && h == prefix + Join(ks, ", ")
  }

  /** The key-collecting loops of `BuildRestConfig`. */
  method Names<V>(m: map<string, V>) returns (ks: seq<string>)
    ensures Enumerates(ks, m.Keys)
  {
    ks := [];
    var remaining := m.Keys;
    while remaining != {}
      invariant remaining <= m.Keys
      invariant forall i :: 0 <= i < |ks| ==> ks[i] in m.Keys && ks[i] !in remaining
      invariant forall k :: k in m.Keys && k !in remaining ==> k in ks
      invariant forall i, j :: 0 <= i < j < |ks| ==> ks[i] != ks[j]
      decreases |remaining|
    {
      var k :| k in remaining;
      ks := ks + [k];
      remaining := remaining - {k};
    }
  }

  /** The context `BuildRestConfig` targets. */
  function TargetContext(c: Config, contextName: string): string {
    if contextName != "" then contextName else c.currentContext
  }

  /** What `BuildRestConfig` answers: the checks in source order, then the
      foreign builder for the target context, whose error is wrapped. */
  ghost predicate RestConfigOutcome(c: Config, contextName: string, build: RestBuilder,
                                    r: Result<RestConfig, Error>)
  {
    var target := TargetContext(c, contextName);
    if target == "" then r == Failure(Invalid(ContextField, NoContextMessage, NoContextHint))
    else if target !in c.contexts then
      r.Failure? && r.error.ValidationError? && r.error.field == ContextField &&
      r.error.message == "context '" + target + "' not found in kubeconfig" &&
      ListsNames(r.error.hint, "Available contexts: ", c.contexts.Keys)
    else
      var ctx := c.contexts[target];
      if ctx.cluster !in c.clusters then
        r.Failure? && r.error.ValidationError? && r.error.field == KubeconfigField &&
        r.error.message == "cluster '" + ctx.cluster + "' referenced by context '" + target + "' not found" &&
        ListsNames(r.error.hint, "Available clusters: ", c.clusters.Keys)
      else if ctx.authInfo !in c.authInfos then
        r.Failure? && r.error.ValidationError? && r.error.field == KubeconfigField &&
        r.error.message == "user '" + ctx.authInfo + "' referenced by context '" + target + "' not found" &&
        ListsNames(r.error.hint, "Available users: ", c.authInfos.Keys)
      else
        match build(c, target)
        case Success(rc) => r == Success(rc)
        case Failure(e) => r == Failure(CompareError(KubeconfigField, Wrap(BuildFailedPrefix, e), BuildFailedHint))
  }

  /** `BuildRestConfig`. */
  method BuildRestConfig(c: Config, contextName: string, build: RestBuilder) returns (r: Result<RestConfig, Error>)
    ensures RestConfigOutcome(c, contextName, build, r)
  {
    var target := contextName;
    if target == "" {
      target := c.currentContext;
    }
    if target == "" {
      return Failure(Invalid(ContextField, NoContextMessage, NoContextHint));
    }
    if target !in c.contexts {
      var names := Names(c.contexts);
      return Failure(Invalid(ContextField, "context '" + target + "' not found in kubeconfig",
                             "Available contexts: " + Join(names, ", ")));
    }
    var ctx := c.contexts[target];
    if ctx.cluster !in c.clusters {
      var names := Names(c.clusters);
      return Failure(Invalid(KubeconfigField,
                             "cluster '" + ctx.cluster + "' referenced by context '" + target + "' not found",
                             "Available clusters: " + Join(names, ", ")));
    }
    if ctx.authInfo !in c.authInfos {
      var names := Names(c.authInfos);
      return Failure(Invalid(KubeconfigField,
                             "user '" + ctx.authInfo + "' referenced by context '" + target + "' not found",
                             "Available users: " + Join(names, ", ")));
    }
    match build(c, target) {
      case Success(rc) => r := Success(rc);
      case Failure(e) => r := Failure(CompareError(KubeconfigField, Wrap(BuildFailedPrefix, e), BuildFailedHint));
    }
  }

  /** A REST configuration is only built for a context that exists and
      whose cluster and user both exist. */
  lemma RestConfigResolved(c: Config, contextName: string, build: RestBuilder, r: Result<RestConfig, Error>)
    requires RestConfigOutcome(c, contextName, build, r)
    requires r.Success?
    ensures var target := TargetContext(c, contextName);
      target != "" && target in c.contexts &&
      c.contexts[target].cluster in c.clusters && c.contexts[target].authInfo in c.authInfos &&
      build(c, target) == r
  {
  }

  /** `BuildSecureRestConfig`: decode, parse, validate, build. */
  method BuildSecureRestConfig(std: Decoder, url: Decoder, load: Loader, build: RestBuilder,
                               base64Kubeconfig: string, contextName: string)
    returns (r: Result<RestConfig, Error>)
    ensures r.Success? ==>
      var data := DecodeKubeconfig(std, url, base64Kubeconfig);
      data.Success? && ParseKubeconfig(load, data.value).Success? &&
      Secure(ParseKubeconfig(load, data.value).value) &&
      RestConfigOutcome(ParseKubeconfig(load, data.value).value, contextName, build, r)
    ensures DecodeKubeconfig(std, url, base64Kubeconfig).Failure? ==>
      r == Failure(DecodeKubeconfig(std, url, base64Kubeconfig).error)
    ensures var data := DecodeKubeconfig(std, url, base64Kubeconfig);
      data.Success? ==>
      var config := ParseKubeconfig(load, data.value);
      (config.Failure? ==> r == Failure(config.error)) &&
      (config.Success? && !Secure(config.value) ==> r.Failure? && SecurityRefusal(config.value, r.error)) &&
      (config.Success? && Secure(config.value) ==> RestConfigOutcome(config.value, contextName, build, r))
  {
    var data := DecodeKubeconfig(std, url, base64Kubeconfig);
    if data.Failure? {
      return Failure(data.error);
    }
    var config := ParseKubeconfig(load, data.value);
    if config.Failure? {
      return Failure(config.error);
    }
    var err := ValidateKubeconfigSecurity(config.value);
    if err.Some? {
      return Failure(err.value);
    }
    r := BuildRestConfig(config.value, contextName, build);
  }

  /** `BuildSecureRestConfigFromBytes`: parse, validate, build, for a
      kubeconfig that is already decoded. An insecure kubeconfig is refused
      with a security error before any context is looked at. */
  method BuildSecureRestConfigFromBytes(load: Loader, build: RestBuilder, kubeconfigData: string, contextName: string)
    returns (r: Result<RestConfig, Error>)
    ensures ParseKubeconfig(load, kubeconfigData).Failure? ==>
      r == Failure(ParseKubeconfig(load, kubeconfigData).error)
    ensures ParseKubeconfig(load, kubeconfigData).Success? && !Secure(ParseKubeconfig(load, kubeconfigData).value) ==>
      r.Failure? && r.error.SecurityError? && SecurityRefusal(ParseKubeconfig(load, kubeconfigData).value, r.error)
    ensures ParseKubeconfig(load, kubeconfigData).Success? && Secure(ParseKubeconfig(load, kubeconfigData).value) ==>
      RestConfigOutcome(ParseKubeconfig(load, kubeconfigData).value, contextName, build, r)
    ensures r.Success? ==>
      var config := ParseKubeconfig(load, kubeconfigData);
      config.Success? && Secure(config.value) && RestConfigOutcome(config.value, contextName, build, r)
  {
    var config := ParseKubeconfig(load, kubeconfigData);
    if config.Failure? {
      return Failure(config.error);
    }
    var err := ValidateKubeconfigSecurity(config.value);
    if err.Some? {
      return Failure(err.value);
    }
    r := BuildRestConfig(config.value, contextName, build);
  }
}

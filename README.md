# kube-compare-mcp, pkg/mcpserver: a Dafny model

kube-compare-mcp is an MCP (Model Context Protocol) server. Its tools let an
assistant do three things:

- compare an OpenShift cluster with a reference configuration (`cluster_compare`,
  `resolve_rds`);
- check the BIOS of bare-metal hosts (`bios_diff`);
- inspect and diagnose Advanced Cluster Management policies
  (`inspect_acm_policy`, `diagnose_acm_policy`).

Every tool reaches its cluster through a kubeconfig. The tool validates that
kubeconfig before using it, and every tool reports errors in the same
user-facing form.

This project models the decision logic of those tools in Dafny and proves
what the code promises about it. The modules follow the Go files:

| module | Go file | what it holds |
|---|---|---|
| `Errors` | errors.go | the sentinel errors, `CompareError`, `ValidationError`, `SecurityError`, `errors.Is`/`errors.As` over wrap chains, `FormatErrorForUser` |
| `Compare` | compare.go | reference classification, `container://` parsing, argument readers, the file-size limit, the compare-result rules |
| `Rds` | rds.go | the RDS configurations, version tags (extraction, ordering, filtering and sorting), reference building, the RHEL variant search |
| `BiosCompare` | bios_compare.go | ConfigMap name normalisation, reference lookup, the settings parser, the settings diff, the per-host comparison and the summary |
| `Kubeconfig` | kubeconfig.go | decoding with size limits, parsing checks, exec and auth-provider blocking, context resolution, message redaction |
| `DiagnosePolicy` | diagnose_policy.go | violation-text parsing, classification, the suggested-tool-call rules, one issue's enrichment |
| `DesiredStates` | diagnose_policy.go | the desired-state index and its three-tier lookup, the Subscription search |
| `Diagnosis` | diagnose_policy.go | the walk over status details, the per-cluster enrichment, the diagnosis and its summary |
| `InspectPolicy` | inspect_policy.go | policy resolution across namespaces, the inspection, the propagated violations, the next-step instruction |

The remaining modules are shared support:

- `Wrappers`: Option and Result.
- `Strings`: the byte-string functions of Go's `strings` package that the code uses.
- `Json`: an untyped Kubernetes object, with the `unstructured.Nested*` accessors.
- `Acm`: the ACM resource inspector, a fixed snapshot of the hub (direct gets and the cluster-wide listing).

The Go code changes state in three ways, and the model keeps each one's form:

- **Records filled in through a pointer** (`*diagnosedIssue`, `*violation`,
  `*clusterDiagnosis`, `*policyInspection`). Each is a local value that is
  then appended by copy. These become datatypes, and the operations that
  fill them in return the updated value.
- **Loops over slices and maps.** These are methods with loop invariants. A
  loop over a Go map picks its keys in an unspecified order (`:|`). Its
  contract is then relational, for example "some Subscription fragment" or
  "some user with an exec stanza".
- **The unchecked `templateMeta` type assertion.** This panics when a status
  detail has no `templateMeta`, and the handler's deferred `recover`
  swallows the panic. It is modelled as an outcome: `None` (or `Recovered`)
  means the tool returned nothing.

## Model

| member | source | states |
|---|---|---|
| Errors.Wrap | pkg/mcpserver/inspect_policy.go:161-163 | `fmt.Errorf("…: %w")`: the text is the prefix, ": " and the cause's text, and the one unwrapped cause is the wrapped error |
| Errors.Chain | pkg/mcpserver/errors.go:61-63 | the chain `errors.Is`/`errors.As` walk starts at the error itself |
| Errors.Error.Text | pkg/mcpserver/errors.go:54-113 | every typed error (`CompareError`, `ValidationError`, `SecurityError`) renders as a non-empty text |
| Errors.Is | pkg/mcpserver/errors.go:61-63 | `errors.Is` on a sentinel itself holds exactly for that sentinel |
| Errors.IsUnwraps | pkg/mcpserver/errors.go:61-63 | `errors.Is` finds a sentinel exactly when it is the error itself, or is found through `CompareError.Unwrap` or through some cause of a `%w` wrapping |
| Errors.ChainAllMember | pkg/mcpserver/errors.go:61-63 | walking several causes visits exactly what the walks over each cause visit |
| Errors.As | pkg/mcpserver/errors.go:135-149 | `errors.As` returns an error of the asked type from the chain, none exactly when the chain holds none, and the error itself when it already has that type |
| Errors.FindKind | pkg/mcpserver/errors.go:135-149 | `errors.As` for one typed error: the error found is in the chain and has that type; nothing is found exactly when no error in the chain has it |
| Errors.FirstKnown | pkg/mcpserver/errors.go:152-193 | the `errors.Is` cascade: the sentinel reported is the first of the mapped ones in source order that the chain holds; none is reported only when the chain holds none of them |
| Errors.KnownSentinel | pkg/mcpserver/errors.go:151-193 | the if-chain of `errors.Is` tests picks the same sentinel as the first-match search over the mapped sentinels in source order |
| Errors.FormatErrorForUser | pkg/mcpserver/errors.go:130-196 | a nil error formats as ""; without a typed error the text is the sentence of the first mapped sentinel the chain holds, else the error's own text |
| Errors.TypedBeforeSentinel | pkg/mcpserver/errors.go:136-139 | a `CompareError` is rendered by its own `Error()`, whatever sentinel it wraps |
| Errors.UnmappedFallThrough | pkg/mcpserver/errors.go:11-45 | `ErrInvalidArguments` and `ErrComparisonFailed` have no sentence and render as their own text |
| Errors.TypedErrorText | pkg/mcpserver/errors.go:82-113 | `ValidationError` and `SecurityError` texts start with their fixed heads and grow exactly when there is a hint; the two kinds never render alike |
| Errors.CompareErrorText | pkg/mcpserver/errors.go:54-59 | `CompareError` renders "op: err", followed by "\n\nDetails: " and the details exactly when there are some |
| Compare.ParseInt64 | pkg/mcpserver/compare.go:100-114 | `strconv.ParseInt(…, 10, 64)`: any value parsed lies in the int64 range |
| Compare.MaxFileSize | pkg/mcpserver/compare.go:100-114 | the limit always lies in (0, 1 GiB]; an unset, unparsable or non-positive variable gives the default |
| Compare.MaxFileSizeOfDecimal | pkg/mcpserver/compare.go:100-114 | a positive decimal setting is used as it is, clamped to 1 GiB |
| Compare.ClassifyReference | pkg/mcpserver/compare.go:339-347 | an HTTP result has an http:// or https:// prefix, an OCI result the container:// prefix, and a local result none of the three |
| Compare.ClassifyReferenceCases | pkg/mcpserver/compare.go:339-347 | HTTP exactly for the http:// and https:// prefixes, OCI exactly for container://, local otherwise |
| Compare.FirstPathSep | pkg/mcpserver/compare.go:517-540 | the first ":/" after the prefix; none occurs before it |
| Compare.ParseContainerReference | pkg/mcpserver/compare.go:507-564 | the parse of a `container://` reference agrees with its specification `ContainerReference` |
| Compare.ContainerReferenceSuccess | pkg/mcpserver/compare.go:507-564 | a successful parse splits the reference at its first ":/" into a non-empty image and an absolute path other than "/" |
| Compare.ContainerReferenceFailures | pkg/mcpserver/compare.go:507-564 | each of the four failures (no prefix, no ":/", empty image, root path) happens exactly under its own condition |
| Compare.ContainerReferenceRoundTrip | pkg/mcpserver/compare.go:507-564 | `container://image:path` parses back to that image and path whenever the image holds no ":/" and the path is absolute and not "/" |
| Compare.ArgError | pkg/mcpserver/compare.go:266-300 | argument errors are validation errors for the argument's key |
| Compare.GetStringArg | pkg/mcpserver/compare.go:266-285 | a missing or null argument is "" or, if required, an error; a string is trimmed and must be non-empty when required; any other type is an error |
| Compare.GetStringArgTrimmed | pkg/mcpserver/compare.go:266-285 | a value returned has no surrounding white space and is non-empty when required |
| Compare.GetBoolArg | pkg/mcpserver/compare.go:288-300 | a missing or null argument gives the default, a boolean gives itself, any other type gives the default with an error |
| Compare.IsDifferencesFoundError | pkg/mcpserver/compare.go:866-873 | a nil error is never the "differences found" exit |
| Compare.DifferencesSurviveWrapping | pkg/mcpserver/compare.go:866-873 | the "differences found" exit is still recognised through `CompareError` and `%w` wrapping |
| Compare.BuildErrorDetails | pkg/mcpserver/compare.go:815-843 | the details are at most one hint, followed by the tool's error output only when there is some |
| Compare.HintFirstMatch | pkg/mcpserver/compare.go:815-843 | the hints are tested in source order and the first matching substring wins; no hint when none matches |
| Compare.ProcessCompareResult | pkg/mcpserver/compare.go:846-863 | output is always returned, with an error note only for a real failure; without output, differences found and no error are successes, and any other error is a "compare" `CompareError` with the built details |
| Rds.ExtractMajorMinorVersion | pkg/mcpserver/rds.go:351-358 | a version starting "major.minor" gives a version tag "vMAJOR.MINOR" taken from the input's own leading text, whose minor digits are not followed by another digit (the greedy match); any other input gives "v" + input |
| Rds.ExtractMajorMinorUnique | pkg/mcpserver/rds.go:351-358 | the contract pins the result: any version tag that is a greedy prefix of the input is the one extracted |
| Rds.ReleaseCandidateExample | pkg/mcpserver/rds.go:351-358 | "4.20.0-rc.3" keeps only "v4.20" |
| Rds.ExtractMajorMinorExamples | pkg/mcpserver/rds.go:351-358 | "4.20.0-rc.3" gives "v4.20" and "invalid" gives "vinvalid" |
| Rds.ExtractOfTag | pkg/mcpserver/rds.go:351-358 | a version tag without its "v" extracts back to itself |
| Rds.CompareVersionTags | pkg/mcpserver/rds.go:387-397 | both numbers read lie in [0, 2^63), so the subtractions do not wrap and the result fits an int64 |
| Rds.CompareVersionTagsOrder | pkg/mcpserver/rds.go:387-397 | the comparison is antisymmetric, is zero exactly for equal scanned (major, minor) pairs, and is negative exactly when the first pair is lexicographically smaller |
| Rds.ScanVersionOfTag | pkg/mcpserver/rds.go:387-397 | the scanned pair of a tag is the decimal value of its two digit runs; a run of 2^63 or more reads as zero, and an overflowing major leaves the minor at zero too |
| Rds.ScanVersionReads | pkg/mcpserver/rds.go:390-392 | what `fmt.Sscanf(…, "v%d.%d")` reads from "v", a digit run, "." and a digit run, with the int64 overflow rule |
| Rds.OverflowSortsFirst | pkg/mcpserver/rds.go:387-397 | a tag whose major number overflows int64 reads as v0.0 and sorts before "v1.0" |
| Rds.CompareVersionExample | pkg/mcpserver/rds.go:387-397 | "v4.9" sorts before "v4.18": the order is numeric, not textual |
| Rds.LeTransitive | pkg/mcpserver/rds.go:387-397 | the order the comparison defines is transitive |
| Rds.SortTagsSorted | pkg/mcpserver/rds.go:378-380 | the sort yields a non-decreasing permutation of its input |
| Rds.FilterVersionTags | pkg/mcpserver/rds.go:369-383 | the method returns the sorted version tags of its input |
| Rds.SortedVersionTagsSpec | pkg/mcpserver/rds.go:369-383 | the result is non-decreasing, is a permutation of the tags matching `^v\d+\.\d+$`, and holds exactly those tags |
| Rds.NotVersionTags | pkg/mcpserver/rds.go:369-383 | patch and pre-release tags are filtered out and "v4.18" is kept |
| Rds.ContainsTag | pkg/mcpserver/rds.go:400-407 | true exactly when the target is among the tags |
| Rds.ConfigsWellFormed | pkg/mcpserver/rds.go:38-67 | both RDS configurations have an image base without ':' and an absolute reference path |
| Rds.RDSReferenceParses | pkg/mcpserver/rds.go:361-366 | a built RDS reference parses, by compare.go's parser, back into its image and its configured path |
| Rds.WrapRegistryErrorCause | pkg/mcpserver/rds.go:325-340 | registry errors become "registry-list" compare errors that keep the cause for the recognised failures |
| Rds.LastListingErrorSome | pkg/mcpserver/rds.go:290-295 | a listing error is remembered exactly when some variant's listing failed |
| Rds.LastListingErrorStep | pkg/mcpserver/rds.go:290-295 | one more variant replaces the remembered error exactly when its listing failed |
| Rds.NoVersionsStep | pkg/mcpserver/rds.go:297-308 | one more variant without version tags keeps "no variant offered any version" |
| Rds.OffersListed | pkg/mcpserver/rds.go:297-308 | a variant offers a version exactly when that version is among its sorted tags |
| Rds.FindBestRHELVariant | pkg/mcpserver/rds.go:278-322 | the first variant, in configured order, that offers the version is chosen with its tags; failing that, the last listing error is reported if some listing failed, else the versions that were seen |
| BiosCompare.Scrub | pkg/mcpserver/bios_compare.go:672-694 | the replacer keeps no dropped character (".", ",", "(", ")") and no separator ("/", "-", "_"); every character left is a space or comes from the input |
| BiosCompare.ScrubKeeps | pkg/mcpserver/bios_compare.go:672-694 | only the dropped characters are lost, and without its white space the text is the input's kept characters in order |
| BiosCompare.NormalizeForK8sName | pkg/mcpserver/bios_compare.go:672-694 | the name is a prefix of the words joined by "-", and a positive limit bounds its length |
| BiosCompare.NormalizeForK8sNameShape | pkg/mcpserver/bios_compare.go:672-694 | the name holds no upper-case letter, no white space, no dropped character, no "/" and no "_" (other characters such as "!" are kept), and no leading, trailing or doubled hyphen; a positive limit cuts the unbounded name to a prefix of at most that length, and a name that fits is kept whole |
| BiosCompare.NormalizeForK8sNameContent | pkg/mcpserver/bios_compare.go:672-694 | without its hyphens, the unbounded name is the lower-cased input's kept characters in order |
| BiosCompare.NormalizeExample | pkg/mcpserver/bios_compare.go:669-694 | "Dell (PowerEdge) R750/Plus" normalises to "dell-poweredge-r750-plus" |
| BiosCompare.ConfigMapNameParts | pkg/mcpserver/bios_compare.go:576-581 | the name is the fixed prefix, the normalised manufacturer and product, and the role, joined by hyphens |
| BiosCompare.BuildReferenceConfigMapName | pkg/mcpserver/bios_compare.go:576-581 | the name starts with "bios-ref-" and ends with the role as given |
| BiosCompare.FindReferenceConfigMap | pkg/mcpserver/bios_compare.go:534-572 | an explicit ConfigMap is used alone; otherwise the built name is tried first and the label match second |
| BiosCompare.SettingLineShape | pkg/mcpserver/bios_compare.go:698-720 | a line counts exactly when it is not blank, not a comment and holds a ':'; it is split at the first ':' and both sides are trimmed |
| BiosCompare.SettingsFromLastWins | pkg/mcpserver/bios_compare.go:698-720 | a key is present exactly when some line sets it, and the last line setting it wins |
| BiosCompare.ParseSettingsYAML | pkg/mcpserver/bios_compare.go:698-720 | the parse agrees with its specification `Settings` |
| BiosCompare.CompareBIOSSettings | pkg/mcpserver/bios_compare.go:724-739 | exactly one diff per expected key that is missing or different, carrying both values |
| BiosCompare.DiffsOfEmpty | pkg/mcpserver/bios_compare.go:724-739 | no diffs exactly when every expected key is present with its value; the diff count is the number of such keys |
| BiosCompare.FirstBIOSComponent | pkg/mcpserver/bios_compare.go:500-518 | the first firmware component named "bios" |
| BiosCompare.ExtractBIOSVersion | pkg/mcpserver/bios_compare.go:500-518 | the version of the first BIOS component, or "" without one |
| BiosCompare.RoleOf | pkg/mcpserver/bios_compare.go:411-418 | the role is the host's role annotation when it is set, and "worker" when it is absent or empty; it is never empty |
| BiosCompare.CompareBMHBIOS | pkg/mcpserver/bios_compare.go:394-497 | the result (`HostOutcome`) keeps the host's name, namespace and role; each read failure is reported in order with its message, and leaves the reference, its source, the BIOS version and the diffs at their zero values (the server model too when HardwareData fails); otherwise the version matches exactly when expected equals actual and the diffs are those of the reference settings; the host is compliant exactly when there is no error, the version matches and there are no diffs |
| BiosCompare.CountsPartition | pkg/mcpserver/bios_compare.go:375-386 | the error, compliant and different buckets add up to the number of hosts |
| BiosCompare.RunBIOSComparison | pkg/mcpserver/bios_compare.go:322-389 | a failed listing and an empty listing are errors; otherwise the i-th result is `HostOutcome` of the i-th host, and the summary tallies the results in their buckets |
| BiosCompare.OutcomesSnoc | pkg/mcpserver/bios_compare.go:374-376 | appending the next host's result keeps every result that of its own host |
| BiosCompare.CountSnoc | pkg/mcpserver/bios_compare.go:375-386 | appending a host adds one to its own bucket and nothing to the others |
| Kubeconfig.FirstSensitive | pkg/mcpserver/kubeconfig.go:375-392 | true exactly when the lower-cased message holds one of the sensitive patterns |
| Kubeconfig.SanitizeErrorMessage | pkg/mcpserver/kubeconfig.go:375-392 | a message holding a sensitive pattern is replaced whole by the redaction text; any other message is kept |
| Kubeconfig.SafePrefix | pkg/mcpserver/kubeconfig.go:396-401 | short strings are kept; longer ones become their first n bytes followed by "..." |
| Kubeconfig.SafeSuffix | pkg/mcpserver/kubeconfig.go:405-410 | short strings are kept; longer ones become "..." followed by their last n bytes |
| Kubeconfig.Invalid | pkg/mcpserver/errors.go:91-97 | a validation error for the field, with the message and the hint |
| Kubeconfig.TooLarge | pkg/mcpserver/kubeconfig.go:34-42 | size errors are security errors with the size-limit code |
| Kubeconfig.DecodeEither | pkg/mcpserver/kubeconfig.go:44-59 | standard base64 is tried first, URL-safe base64 second |
| Kubeconfig.DecodeKubeconfig | pkg/mcpserver/kubeconfig.go:22-68 | blank input is an error; trimmed input over 1 MiB is a size error; undecodable input is the "invalid base64" error; a decoding over 768 KiB is a size error; any other decoding is returned; a success is always such a decoding |
| Kubeconfig.DecodeOrParseKubeconfig | pkg/mcpserver/kubeconfig.go:78-148 | blank input means in-cluster; raw YAML with clusters is used as it is; otherwise a decoding that loads with clusters is used; the 768 KiB limit gives a size error for either; anything else is the "unable to parse kubeconfig" error |
| Kubeconfig.ParseKubeconfig | pkg/mcpserver/kubeconfig.go:151-188 | a load error is reported redacted; no clusters, no users and no contexts are refused in that order; otherwise the loaded configuration is returned |
| Kubeconfig.ParseErrorRedacted | pkg/mcpserver/kubeconfig.go:151-160 | a load error holding a sensitive pattern never reaches the caller |
| Kubeconfig.ExecBlocked | pkg/mcpserver/kubeconfig.go:204-222 | the exec refusal is a security error with the exec-blocked code |
| Kubeconfig.AuthProviderBlocked | pkg/mcpserver/kubeconfig.go:226-245 | the auth-provider refusal is a security error with its own code |
| Kubeconfig.BlockExecAuth | pkg/mcpserver/kubeconfig.go:204-222 | refused exactly when some user has an exec stanza, and then for such a user |
| Kubeconfig.BlockAuthProviderPlugins | pkg/mcpserver/kubeconfig.go:226-245 | refused exactly when some user has an auth provider, and then for such a user and provider |
| Kubeconfig.ValidateKubeconfigSecurity | pkg/mcpserver/kubeconfig.go:191-199 | accepted exactly when no user has exec or an auth provider; a refusal names some user with exec when there is one, else some user with an auth provider |
| Kubeconfig.Names | pkg/mcpserver/kubeconfig.go:262-268 | the map's keys, each exactly once |
| Kubeconfig.BuildRestConfig | pkg/mcpserver/kubeconfig.go:248-319 | the outcome agrees with `RestConfigOutcome`: the named context or the current one, which must exist, and its cluster and user must exist too |
| Kubeconfig.RestConfigResolved | pkg/mcpserver/kubeconfig.go:248-319 | a built configuration comes from an existing target context whose cluster and user exist |
| Kubeconfig.BuildSecureRestConfig | pkg/mcpserver/kubeconfig.go:323-348 | a decoding or parse error is returned as it is; an insecure configuration gets the security refusal; a secure one gets exactly what `BuildRestConfig` answers for it |
| Kubeconfig.BuildSecureRestConfigFromBytes | pkg/mcpserver/kubeconfig.go:352-372 | a parse error is returned as it is; an insecure configuration gets the security refusal; a secure one gets exactly what `BuildRestConfig` answers for it |
| DiagnosePolicy.ViolationText | pkg/mcpserver/diagnose_policy.go:295-298 | the text after the first "violation - ", or the whole message when it has none |
| DiagnosePolicy.Truncate | pkg/mcpserver/diagnose_policy.go:284-286 | messages up to 300 bytes are kept; longer ones become their first 300 bytes followed by "..." |
| DiagnosePolicy.ParseViolationResource | pkg/mcpserver/diagnose_policy.go:407-411 | white space around the detail is ignored, and a blank detail names no resource |
| DiagnosePolicy.ParsedNamespace | pkg/mcpserver/diagnose_policy.go:442-450 | the namespace is read the same way whatever grammar gives the kind and name |
| DiagnosePolicy.ParseBlank | pkg/mcpserver/diagnose_policy.go:407-411 | a blank detail names no resource |
| DiagnosePolicy.ParseKindThenBracket | pkg/mcpserver/diagnose_policy.go:414-421 | in "Kind [name]" the kind is the trimmed text before the first '['; without a ']' there is no name |
| DiagnosePolicy.KindThenBracketName | pkg/mcpserver/diagnose_policy.go:415-421 | the name of "Kind [name]" stands right after the first '[', is followed by the first ']' after it and holds no ']' |
| DiagnosePolicy.BracketedName | pkg/mcpserver/diagnose_policy.go:415-421 | the text strictly between a '[' and the first ']' after it stands there and holds no ']' |
| DiagnosePolicy.ParseBracketName | pkg/mcpserver/diagnose_policy.go:415-421 | in "Kind [name]" the name is the text between that '[' and the next ']' |
| DiagnosePolicy.ParseNoBracket | pkg/mcpserver/diagnose_policy.go:422-427 | without a bracket there is no name, and the kind is the first space- or tab-delimited word of a text with several words |
| DiagnosePolicy.ParseLeadingBracket | pkg/mcpserver/diagnose_policy.go:428-440 | in "[Kind] name" the kind is the bracket's text and the name the first word after it: a non-empty run of characters other than space and tab, ended by one of them, or the whole remainder |
| DiagnosePolicy.NamespaceShape | pkg/mcpserver/diagnose_policy.go:442-450 | the namespace follows the first "in namespace " and stops right before the first space, tab, ';' or ',' after it, holding none of them; it runs to the end when none follows, and is "" without the marker |
| DiagnosePolicy.NamespaceInShape | pkg/mcpserver/diagnose_policy.go:442-450 | the same shape for the namespace search over a trimmed detail |
| DiagnosePolicy.ClassifyIgnoresCase | pkg/mcpserver/diagnose_policy.go:293-315 | classification ignores case |
| DiagnosePolicy.ClassifyFirstMatch | pkg/mcpserver/diagnose_policy.go:306-315 | the tests are made in source order and the first that holds wins; unknown only when no pattern occurs |
| DiagnosePolicy.IsOLMKind | pkg/mcpserver/diagnose_policy.go:321-335 | true exactly when the kind equals, under `strings.EqualFold`, one of the kinds of the list as the code spells it (Subscription, ClusterServiceVersion, Operator, InstallPlan and CatalogSource, with plural and fully-qualified forms) |
| DiagnosePolicy.IsOperatorCR | pkg/mcpserver/diagnose_policy.go:373-375 | true exactly when the kind equals, under `strings.EqualFold`, one of "operators", "Operator" and "operators.operators.coreos.com" |
| DiagnosePolicy.OperatorIsOLMKind | pkg/mcpserver/diagnose_policy.go:321-375 | every Operator spelling is an OLM kind, and both tests ignore case |
| DiagnosePolicy.OLMCallShape | pkg/mcpserver/diagnose_policy.go:369-401 | the OLM call is `trace_olm_subscription` with exactly a name, a non-empty namespace and the cluster |
| DiagnosePolicy.OLMCallKeepsName | pkg/mcpserver/diagnose_policy.go:370-400 | for a non-Operator kind the resource's name and namespace are used, with openshift-operators as the default namespace |
| DiagnosePolicy.OLMCallSplitsOperatorName | pkg/mcpserver/diagnose_policy.go:382-391 | without a known Subscription, an Operator name "sub.ns" is split at its first '.' |
| DiagnosePolicy.OLMCallUsesSubscription | pkg/mcpserver/diagnose_policy.go:376-381 | for an Operator with a known Subscription, that Subscription's name and namespace are used |
| DiagnosePolicy.ResourceCallShape | pkg/mcpserver/diagnose_policy.go:344-366 | no call without a kind; `resources_get` with a name, `resources_list` without; always clean_metadata and the cluster; a namespace only when there is one |
| DiagnosePolicy.NewIssue | pkg/mcpserver/diagnose_policy.go:276-279 | a new issue carries its template and message and nothing else |
| DiagnosePolicy.EnrichedIgnoresMessage | pkg/mcpserver/diagnose_policy.go:281-286 | enrichment does not depend on the stored message, so truncating it afterwards keeps the issue enriched |
| DiagnosePolicy.ClassifyAndEnrich | pkg/mcpserver/diagnose_policy.go:292-319 | parses the text after "violation - ", classifies the full message, matches the desired state and builds the call; template and message are kept |
| DiagnosePolicy.BuildSuggestedCall | pkg/mcpserver/diagnose_policy.go:337-367 | an OLM kind with a name is promoted to OLM-stuck and gets the OLM call; otherwise a resource call or none; only the type changes in the issue |
| DiagnosePolicy.BuildOLMToolCall | pkg/mcpserver/diagnose_policy.go:369-401 | for an Operator, the call uses some Subscription found in the index, or none; for other kinds, the resource itself |
| DiagnosePolicy.IssueType | pkg/mcpserver/diagnose_policy.go:292-367 | an issue is OLM-stuck exactly when its message says so or it names an OLM resource; otherwise its type is the message's class |
| DiagnosePolicy.SuggestionPresence | pkg/mcpserver/diagnose_policy.go:337-367 | the suggestion step yields no call exactly when there is no kind and the OLM branch is not taken |
| DiagnosePolicy.IssueCallPresence | pkg/mcpserver/diagnose_policy.go:337-367 | an issue has no suggested call exactly when no kind was parsed and nothing promotes it to OLM |
| DesiredStates.KeyRoundTrip | pkg/mcpserver/diagnose_policy.go:460-461 | a "template/kind/name" key splits back into its parts when template and kind hold no '/' |
| DesiredStates.ExtractDesiredStates | pkg/mcpserver/diagnose_policy.go:194-238 | the index is the map of every object-template entry of every ConfigurationPolicy, later entries overwriting earlier ones |
| DesiredStates.MapOfLast | pkg/mcpserver/diagnose_policy.go:233-234 | a key is present exactly when some entry has it, and the last such entry's fragment is stored |
| DesiredStates.EntriesFromConfigurationPolicies | pkg/mcpserver/diagnose_policy.go:203-216 | every entry comes from a ConfigurationPolicy template and its key starts with that template's name |
| DesiredStates.MatchDesiredState | pkg/mcpserver/diagnose_policy.go:457-496 | the exact key of the template first, then a case-insensitive kind with a singular/plural tolerance, then the template's only fragment; none otherwise |
| DesiredStates.ExactPass | pkg/mcpserver/diagnose_policy.go:458-464 | some exact hit, or none exists |
| DesiredStates.FlexiblePass | pkg/mcpserver/diagnose_policy.go:466-480 | some flexible hit, or none exists |
| DesiredStates.SolePass | pkg/mcpserver/diagnose_policy.go:482-495 | the template's fragment exactly when the template has one key, else none |
| DesiredStates.MatchInTemplate | pkg/mcpserver/diagnose_policy.go:457-496 | a match always belongs to the asked template |
| DesiredStates.ExactIsFlex | pkg/mcpserver/diagnose_policy.go:458-480 | every exact hit is also a flexible hit |
| DesiredStates.FindSubscription | pkg/mcpserver/diagnose_policy.go:503-521 | some Subscription fragment with a non-empty name, or none when no such fragment exists |
| Diagnosis.OutcomeOf | pkg/mcpserver/diagnose_policy.go:256-275 | a detail panics exactly when it is an object without a map `templateMeta`; it yields an entry only when not Compliant and with a history |
| Diagnosis.EntriesPanicIff | pkg/mcpserver/diagnose_policy.go:256-262 | the walk over the details panics exactly when some detail panics |
| Diagnosis.EntriesFromNonCompliant | pkg/mcpserver/diagnose_policy.go:263-275 | every entry comes from a non-Compliant detail's first history message |
| Diagnosis.EntriesStep | pkg/mcpserver/diagnose_policy.go:256-275 | one more detail panics the walk, is skipped, or adds its entry at the end |
| Diagnosis.DetailIssue | pkg/mcpserver/diagnose_policy.go:276-286 | the issue of a detail is classified, enriched and truncated |
| Diagnosis.EnrichFromPolicy | pkg/mcpserver/diagnose_policy.go:254-290 | one issue per entry, appended in order, or nothing when a detail panics |
| Diagnosis.FetchFailure | pkg/mcpserver/diagnose_policy.go:243-250 | a failed fetch becomes one unknown issue, without template or call, whose message names the propagated policy and ends with the cluster's namespace |
| Diagnosis.Enrich | pkg/mcpserver/diagnose_policy.go:240-252 | the cluster is enriched from its propagated copy "ns.policy", or gets the fetch-failure issue |
| Diagnosis.EnrichPanicsIff | pkg/mcpserver/diagnose_policy.go:240-252 | enrichment panics exactly when the fetched copy's details do; it keeps the cluster's name and state |
| Diagnosis.SelectOne | pkg/mcpserver/diagnose_policy.go:148-160 | a status entry is selected exactly when it is an object passing the cluster filter whose compliance is not Compliant, and then as its (cluster name, compliance) pair |
| Diagnosis.SelectedShape | pkg/mcpserver/diagnose_policy.go:148-160 | no selected cluster is Compliant, and every one passes the filter |
| Diagnosis.SelectedMembers | pkg/mcpserver/diagnose_policy.go:148-160 | a (cluster, compliance) pair is selected exactly when some status entry selects it, so every non-Compliant object passing the filter is diagnosed |
| Diagnosis.BuildDiagnosis | pkg/mcpserver/diagnose_policy.go:135-191 | the diagnosis is the specified one (`DiagnosisOf`), or nothing exactly when some enrichment panics |
| Diagnosis.Diagnose | pkg/mcpserver/diagnose_policy.go:145-190 | the status walk, the fallback and the summary together give the specified diagnosis |
| Diagnosis.Fallback | pkg/mcpserver/diagnose_policy.go:170-181 | a propagated policy that is not Compliant and has a namespace is its own single cluster |
| Diagnosis.StatusClusters | pkg/mcpserver/diagnose_policy.go:146-167 | the enriched clusters of the selected status entries, in order |
| Diagnosis.StatusReportNoPanic | pkg/mcpserver/diagnose_policy.go:146-167 | a finished status walk met no panicking cluster |
| Diagnosis.SelectCluster | pkg/mcpserver/diagnose_policy.go:148-160 | the method selects as `SelectOne` specifies |
| Diagnosis.CountIssues | pkg/mcpserver/diagnose_policy.go:183-186 | the total is the sum of the clusters' issue counts |
| Diagnosis.DiagnosisClusters | pkg/mcpserver/diagnose_policy.go:135-191 | no reported cluster is Compliant; they are the selected status clusters in order, or the single namespace fallback |
| Diagnosis.ClustersOfView | pkg/mcpserver/diagnose_policy.go:135-191 | each reported cluster keeps the name and state of its status entry; the fallback carries the policy's compliance |
| InspectPolicy.FirstNamed | pkg/mcpserver/inspect_policy.go:164-171 | the first listed policy with the name, or none when none has it |
| InspectPolicy.ResolvePolicy | pkg/mcpserver/inspect_policy.go:151-177 | the resolution agrees with its specification `Resolution` |
| InspectPolicy.ResolutionCases | pkg/mcpserver/inspect_policy.go:151-177 | a found policy comes from the direct get in the given namespace or is the first listed policy with the name, in its own namespace; a listing failure is wrapped; no match is a not-found error |
| InspectPolicy.NotFoundMentionsNamespace | pkg/mcpserver/inspect_policy.go:173-176 | the not-found text names the namespace only when one was given |
| InspectPolicy.CategoryOf | pkg/mcpserver/inspect_policy.go:260-270 | missing, drift and violation are tested in that order over the lower-cased message, and the first that holds wins |
| InspectPolicy.CategoryAgreesWithDiagnosis | pkg/mcpserver/inspect_policy.go:259-270 | the inspection's missing and drift categories are exactly the diagnosis's missing and drift classes |
| InspectPolicy.ClassifyViolationMessage | pkg/mcpserver/inspect_policy.go:259-274 | sets the category from the message and cuts the stored message to 300 bytes and "..."; nothing else changes |
| InspectPolicy.ParseResourceFromMessage | pkg/mcpserver/inspect_policy.go:278-301 | only a message of two or more bytes that starts with '[' and holds a ']' changes anything, and then only kind, name and namespace |
| InspectPolicy.ParseResourceKind | pkg/mcpserver/inspect_policy.go:282-286 | the kind is the text between the leading '[' and the first ']' |
| InspectPolicy.NameAfterShape | pkg/mcpserver/inspect_policy.go:288-292 | the name is the first space- or tab-delimited word, the whole remainder when it has one word, and stays as it was when nothing follows |
| InspectPolicy.ParseResourceName | pkg/mcpserver/inspect_policy.go:286-292 | the same, for the trimmed text after the bracket: the first space- or tab-free word, the whole remainder, or the previous name when nothing follows |
| InspectPolicy.NamespaceAfterShape | pkg/mcpserver/inspect_policy.go:293-300 | the namespace follows the first "in namespace " and ends only at a space or tab; it stays as it was without the marker |
| InspectPolicy.ViolationsOf | pkg/mcpserver/inspect_policy.go:242-251 | one violation per entry |
| InspectPolicy.ViolationsOfSnoc | pkg/mcpserver/inspect_policy.go:242-251 | one more entry adds its violation at the end |
| InspectPolicy.ViolationForShape | pkg/mcpserver/inspect_policy.go:244-252 | each violation keeps its template and cluster, is classified from the full message and stores the message cut to 300 bytes |
| InspectPolicy.ViolationsFromDetails | pkg/mcpserver/inspect_policy.go:230-254 | the violations of the entries in order, or nothing exactly when a detail panics |
| InspectPolicy.TemplatesOfObjects | pkg/mcpserver/inspect_policy.go:186-197 | every object of `policy-templates` yields exactly one template, in order, whatever its kind |
| InspectPolicy.TemplatesStep | pkg/mcpserver/inspect_policy.go:186-197 | one more template object adds its summary at the end |
| InspectPolicy.AffectedOne | pkg/mcpserver/inspect_policy.go:202-215 | a status entry is affected exactly when it is an object passing the cluster filter, Compliant or not |
| InspectPolicy.AffectedOfMembers | pkg/mcpserver/inspect_policy.go:200-216 | a cluster is affected exactly when some status entry contributes it |
| InspectPolicy.AffectedStep | pkg/mcpserver/inspect_policy.go:200-216 | one more status entry adds its cluster, when it passes the filter, at the end |
| InspectPolicy.AffectedFallback | pkg/mcpserver/inspect_policy.go:221-227 | without affected status entries, a policy with a namespace is its own affected cluster with the policy's compliance |
| InspectPolicy.ParsePolicyInspection | pkg/mcpserver/inspect_policy.go:179-257 | the inspection agrees with its specification `InspectionOf`: compliance, affected clusters, templates and root violations, or nothing on a panic |
| InspectPolicy.PropagatedFromReadableClusters | pkg/mcpserver/inspect_policy.go:303-341 | every propagated violation names an affected cluster that is not Compliant and whose copy could be read |
| InspectPolicy.EnrichViolationsFromPropagated | pkg/mcpserver/inspect_policy.go:303-341 | appends the propagated violations of each readable non-Compliant cluster in order, and nothing else changes; nothing on a panic |
| InspectPolicy.NextStepNamesCluster | pkg/mcpserver/inspect_policy.go:129-138 | the instruction names the first affected cluster in both steps |
| InspectPolicy.WithNextStep | pkg/mcpserver/inspect_policy.go:128-138 | the instruction is set exactly when there are violations and affected clusters, for the first affected cluster |
| InspectPolicy.InspectACMPolicy | pkg/mcpserver/inspect_policy.go:99-138 | no name is an error; a resolution error is returned as its text; otherwise the resolved policy is inspected under its resolved namespace: a panic in the inspection or in a propagated copy is recovered into no result; without affected clusters the report is the inspection with the next-step rule; otherwise the propagated violations are appended first; an instruction is set exactly when there are violations and affected clusters, for the first affected cluster |

## Left out

- Strings are Go byte strings restricted to ASCII. `strings.ToLower`,
  `strings.EqualFold`, `strings.TrimSpace` and `strings.Fields` follow
  Unicode in Go. For non-ASCII input the model's case folding and white
  space differ: Go's `EqualFold("ſubscription", "Subscription")` is true,
  the model's is false.
- `fmt`'s `%q` is modelled as plain double quotes. Names with quotes,
  backslashes or control characters would be escaped by Go.
- Panics. The unchecked `templateMeta` assertion and the handlers' deferred
  `recover` are modelled as an outcome with no result. No other panic is
  modelled.
- The ACM inspector is a fixed snapshot of the hub. Its requests, contexts,
  cancellation and timeouts are not modelled. A failed request is a missing
  object or a failed listing.
- JSON numbers are modelled as integers (`Json.JInt`) whose value is
  never read. They serve only to name their Go type (`float64`) in the
  argument type errors of `Compare.GetStringArg` and `Compare.GetBoolArg`.
  Non-integral numbers and floating point are not represented; no
  modelled code reads a number's value.
- Logging (`slog`) is left out, because it does not affect any result.
- The MCP handlers' I/O is left out:
  - the tool schemas;
  - the argument binding and JSON marshalling of results;
  - `ResolveHubKubeconfig` and the client factories;
  - `newToolResultText`/`newToolResultError`;
  - request IDs.
  The handlers' decision logic (`InspectPolicy.InspectACMPolicy`, `Diagnosis.BuildDiagnosis`) is modelled.
- Running `kubectl cluster-compare`, downloading references over HTTP,
  pulling and untarring container images (`RunCompare`,
  `ValidateHTTPReference`, `ValidateOCIReference`,
  `extractContainerReference`, `processTarEntry`) and the registry client
  are I/O. The model keeps the rules that interpret their results
  (`ProcessCompareResult`, `BuildErrorDetails`, `FindBestRHELVariant` with
  the listing as a parameter).
- Base64 decoding, `clientcmd.Load` and `clientcmd`'s REST-config builder
  are foreign code. They are parameters of the kubeconfig operations.
- Environment variables (`getMaxFileSize`, the timeouts) are parameters.
  The timeouts are durations only and are left out.
- `scoreModelMatch` and the label search of `findBestMatchConfigMap` use
  floating-point scores, so they are a parameter of
  `BiosCompare.FindReferenceConfigMap`.
- Go map iteration order is unspecified. Where the code returns the first
  key it meets (`findSubscriptionInDesiredStates`, `matchDesiredState`,
  `BlockExecAuth`, `BlockAuthProviderPlugins`), the contracts say "some
  such key", not which one.
- `Rds.CompareVersionTags`: `fmt.Sscanf`'s `%d` also accepts a sign and
  leading spaces; the model reads digits only. Every tag the code sorts
  matches `^v\d+\.\d+$`, so the difference cannot be reached from
  `FilterVersionTags`.
- `Rds.FilterVersionTags`: Go's `sort.Slice` is not stable, so tags with equal
  (major, minor) pairs, such as "v4.18" and "v04.18", may come out in either
  order, which shows in the "Available versions" text; the model sorts
  stably and keeps their input order.
- `Kubeconfig.SanitizeErrorMessage`: the redaction text itself is not
  proved free of the sensitive patterns, so redacting twice is not
  stated as a fixed point; that proof is costly over byte strings.

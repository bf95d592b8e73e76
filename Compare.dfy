/** The argument, reference and result helpers of the `cluster_compare`
    tool (pkg/mcpserver/compare.go): how a reference is classified, how a
    `container://` reference splits into image and file path, how tool
    arguments are read, how the comparison's output and error are turned
    into the tool's answer, and the file-size limit for image extraction. */
module Compare {
  import opened Wrappers
  import opened Strings
  import opened Json
  import opened Errors

  // ---------------------------------------------------------------------
  // The extraction size limit (`getMaxFileSize`)

  const DefaultMaxFileSize: int := 100 * 1024 * 1024
  const MaxAllowedFileSize: int := 1024 * 1024 * 1024
  const MinInt64: int := -0x8000_0000_0000_0000
  const MaxInt64: int := 0x7FFF_FFFF_FFFF_FFFF

  /** `strconv.ParseInt(s, 10, 64)`: an optional sign, then one or more
      decimal digits, with a value that fits in 64 bits. */
  function ParseInt64(s: string): (r: Option<int>)
    ensures r.Some? ==> MinInt64 <= r.value <= MaxInt64
  {
    var signed := s != [] && (s[0] == '+' || s[0] == '-');
    var digits := if signed then s[1..] else s;
    if digits == [] || DigitRun(digits, 0) != |digits| then None
    else
      var v: int := if signed && s[0] == '-' then 0 - (DecimalValue(digits) as int) else DecimalValue(digits);
      if MinInt64 <= v <= MaxInt64 then Some(v) else None
  }

  /** `getMaxFileSize`, with the value of KUBE_COMPARE_MCP_MAX_FILE_SIZE
      passed in: a positive number is capped at 1 GiB, anything else gives
      the 100 MiB default. */
  function MaxFileSize(env: string): (r: int)
    ensures 0 < r <= MaxAllowedFileSize
    ensures (env == "" || ParseInt64(env).None? || ParseInt64(env).value <= 0) ==> r == DefaultMaxFileSize
  {
    if env != "" && ParseInt64(env).Some? && ParseInt64(env).value > 0 then
      var size := ParseInt64(env).value;
      if size > MaxAllowedFileSize then MaxAllowedFileSize else size
    else DefaultMaxFileSize
  }

  /** A positive size written in decimal is honoured up to the 1 GiB cap. */
  lemma MaxFileSizeOfDecimal(n: nat)
    requires 0 < n <= MaxInt64
    ensures MaxFileSize(NatToString(n)) == if n > MaxAllowedFileSize then MaxAllowedFileSize else n
  {
    var s := NatToString(n);
    DecimalValueOfNatToString(n);
    assert s[0] != '+' && s[0] != '-';
    assert DigitRun(s, 0) == |s|;
    assert ParseInt64(s) == Some(n);
  }

  // ---------------------------------------------------------------------
  // Reference kinds (`ClassifyReference`)

  datatype ReferenceType = Local | HTTP | OCI

  const ContainerPrefix: string := "container://"

  function ClassifyReference(ref: string): (r: ReferenceType)
    ensures r == HTTP ==> HasPrefix(ref, "http://") || HasPrefix(ref, "https://")
    ensures r == OCI ==> HasPrefix(ref, ContainerPrefix)
    ensures r == Local ==> !HasPrefix(ref, "http://") && !HasPrefix(ref, "https://") && !HasPrefix(ref, ContainerPrefix)
  {
    if HasPrefix(ref, "http://") || HasPrefix(ref, "https://") then HTTP
    else if HasPrefix(ref, ContainerPrefix) then OCI
    else Local
  }

  /** An HTTP(S) prefix gives HTTP, the `container://` prefix gives OCI, and
      everything else, an unknown scheme such as `unknown://` included, is
      taken for a local path. */
  lemma ClassifyReferenceCases(ref: string)
    ensures ClassifyReference(ref) == HTTP <==> HasPrefix(ref, "http://") || HasPrefix(ref, "https://")
    ensures ClassifyReference(ref) == OCI <==> HasPrefix(ref, ContainerPrefix)
    ensures ClassifyReference(ref) == Local <==>
      !HasPrefix(ref, "http://") && !HasPrefix(ref, "https://") && !HasPrefix(ref, ContainerPrefix)
  {
    if HasPrefix(ref, ContainerPrefix) {
      assert ref[0] == ContainerPrefix[0] == 'c';
    }
  }

  // ---------------------------------------------------------------------
  // `container://image:tag:/path` references (`ParseContainerReference`)

  /** The image and the file path inside it. */
  datatype ContainerRef = ContainerRef(image: string, path: string)

  /** Why a `container://` reference is refused. */
  datatype RefProblem = MissingPrefix | MissingPathSeparator | MissingImage | InvalidPath
  {
    /** The validation error Go returns for it. */
    function ToError(): Error {
      var hint := "Use format: container://registry/image:tag:/path/to/metadata.yaml";
      match this
      case MissingPrefix => ValidationError("reference", "", "invalid container reference format", hint)
      case MissingPathSeparator => ValidationError("reference", "", "missing file path in container reference", hint)
      case MissingImage => ValidationError("reference", "", "missing image reference", hint)
      case InvalidPath =>
        ValidationError("reference", "", "missing or invalid file path",
                        "Specify the path to metadata.yaml within the container image")
    }
  }

  /** ":/" starts at `i`. */
  predicate PathSepAt(s: string, i: int) {
    0 <= i && i + 1 < |s| && s[i] == ':' && s[i + 1] == '/'
  }

  predicate NoPathSep(s: string) {
    forall i | 0 <= i < |s| :: !PathSepAt(s, i)
  }

  /** The first ":/" of `s` at or after `k`, or -1. */
  function FirstPathSep(s: string, k: nat): (r: int)
    requires k <= |s|
    ensures r == -1 || (k <= r && PathSepAt(s, r))
    ensures forall j :: k <= j && (r == -1 || j < r) ==> !PathSepAt(s, j)
    decreases |s| - k
  {
    if k + 1 >= |s| then -1
    else if PathSepAt(s, k) then k
    else FirstPathSep(s, k + 1)
  }

  /** What `ParseContainerReference` returns: the text after the prefix is
      split at its first ":/", the colon dropped and the slash kept. */
  function ContainerReference(ref: string): Result<ContainerRef, RefProblem> {
    if !HasPrefix(ref, ContainerPrefix) then Failure(MissingPrefix)
    else
      var rest := ref[|ContainerPrefix|..];
      var i := FirstPathSep(rest, 0);
      if i < 0 then Failure(MissingPathSeparator)
      else if i == 0 then Failure(MissingImage)
      else if rest[i + 1..] == "/" then Failure(InvalidPath)
      else Success(ContainerRef(rest[..i], rest[i + 1..]))
  }

  /** `ParseContainerReference`: scans for the path separator. A ":/" with
      an earlier colon is taken at once; one without is taken because the
      text after its colon starts with '/'. */
  method ParseContainerReference(ref: string) returns (r: Result<ContainerRef, RefProblem>)
    ensures r == ContainerReference(ref)
  {
    if !HasPrefix(ref, ContainerPrefix) {
      return Failure(MissingPrefix);
    }
    var remainder := ref[|ContainerPrefix|..];
    var pathSepIdx := -1;
    var i := 0;
    while i < |remainder| - 1
      invariant 0 <= i <= |remainder|
      invariant forall j :: 0 <= j < i ==> !PathSepAt(remainder, j)
      invariant pathSepIdx == -1
    {
      if remainder[i] == ':' && remainder[i + 1] == '/' {
        var prevColonIdx := LastIndexOfChar(remainder[..i], ':');
        if prevColonIdx >= 0 {
          pathSepIdx := i;
          break;
        }
        var afterColon := remainder[i + 1..];
        SlashFirst(afterColon);
        var nextSlash := IndexOf(afterColon, "/");
        if nextSlash == 0 {
          pathSepIdx := i;
          break;
        }
      }
      i := i + 1;
    }
    FirstPathSepIs(remainder, pathSepIdx);
    if pathSepIdx == -1 {
      return Failure(MissingPathSeparator);
    }
    var imageRef := remainder[..pathSepIdx];
    var filePath := remainder[pathSepIdx + 1..];
    if imageRef == "" {
      return Failure(MissingImage);
    }
    if filePath == "" || filePath == "/" {
      return Failure(InvalidPath);
    }
    return Success(ContainerRef(imageRef, filePath));
  }

  lemma SlashFirst(s: string)
    requires s != [] && s[0] == '/'
    ensures IndexOf(s, "/") == 0
  {
    OccursAtChar(s, '/', 0);
  }

  /** The first separator is the one with none before it. */
  lemma FirstPathSepIs(s: string, i: int)
    requires i == -1 || PathSepAt(s, i)
    requires forall j :: 0 <= j && (i == -1 || j < i) ==> !PathSepAt(s, j)
    ensures FirstPathSep(s, 0) == i
  {
  }

  /** A parsed reference is the prefix, the image, a colon and the path;
      the image is non-empty and holds no ":/", and the path is absolute and
      not the root. */
  lemma ContainerReferenceSuccess(ref: string)
    requires ContainerReference(ref).Success?
    ensures var c := ContainerReference(ref).value;
      ref == ContainerPrefix + c.image + ":" + c.path &&
      c.image != "" && NoPathSep(c.image) && c.path != "" && c.path[0] == '/' && c.path != "/"
  {
    var rest := ref[|ContainerPrefix|..];
    var i := FirstPathSep(rest, 0);
    var c := ContainerReference(ref).value;
    assert rest == c.image + ":" + c.path;
    assert ref == ContainerPrefix + rest;
    forall j | 0 <= j < |c.image| ensures !PathSepAt(c.image, j) {
      if PathSepAt(c.image, j) {
        assert PathSepAt(rest, j);
      }
    }
  }

  /** The four refusals: no prefix; no ":/" after it (as in
      `container://quay.io/test:v1:path/file`); ":/" right after the
      prefix; or a first ":/" that ends the reference, leaving the path
      "/". */
  lemma ContainerReferenceFailures(ref: string)
    ensures ContainerReference(ref) == Failure(MissingPrefix) <==> !HasPrefix(ref, ContainerPrefix)
    ensures HasPrefix(ref, ContainerPrefix) ==>
      var rest := ref[|ContainerPrefix|..];
      (ContainerReference(ref) == Failure(MissingPathSeparator) <==> NoPathSep(rest)) &&
      (ContainerReference(ref) == Failure(MissingImage) <==> PathSepAt(rest, 0)) &&
      (ContainerReference(ref) == Failure(InvalidPath) <==>
         0 < FirstPathSep(rest, 0) == |rest| - 2)
  {
    if HasPrefix(ref, ContainerPrefix) {
      RestFailures(ref[|ContainerPrefix|..]);
    }
  }

  lemma RestFailures(rest: string)
    ensures var i := FirstPathSep(rest, 0);
      (i < 0 <==> NoPathSep(rest)) &&
      (i == 0 <==> PathSepAt(rest, 0)) &&
      (i > 0 && rest[i + 1..] == "/" <==> i > 0 && i + 2 == |rest|)
  {
    var i := FirstPathSep(rest, 0);
    NoSepIffNone(rest);
    if i >= 0 {
      RootPath(rest, i);
    }
  }

  lemma NoSepIffNone(rest: string)
    ensures FirstPathSep(rest, 0) < 0 <==> NoPathSep(rest)
  {
    var i := FirstPathSep(rest, 0);
    if i >= 0 {
      assert PathSepAt(rest, i);
    }
  }

  lemma RootPath(rest: string, i: int)
    requires PathSepAt(rest, i)
    ensures rest[i + 1..] == "/" <==> i + 2 == |rest|
  {
    if i + 2 == |rest| {
      assert rest[i + 1..] == [rest[i + 1]];
    }
  }

  /** Building a reference from an image without ":/" and an absolute path
      other than "/" and parsing it gives both back. */
  lemma ContainerReferenceRoundTrip(image: string, path: string)
    requires image != "" && NoPathSep(image)
    requires path != "" && path[0] == '/' && path != "/"
    ensures ContainerReference(ContainerPrefix + image + ":" + path) == Success(ContainerRef(image, path))
  {
    var ref := ContainerPrefix + image + ":" + path;
    assert HasPrefix(ref, ContainerPrefix);
    var rest := ref[|ContainerPrefix|..];
    assert rest == image + ":" + path;
    var n := |image|;
    assert PathSepAt(rest, n);
    forall j | 0 <= j < n ensures !PathSepAt(rest, j) {
      if j + 1 < n {
        assert !PathSepAt(image, j);
      }
    }
    assert FirstPathSep(rest, 0) == n;
    assert rest[..n] == image && rest[n + 1..] == path;
  }

  // ---------------------------------------------------------------------
  // Tool arguments (`GetStringArg`, `GetBoolArg`)

  /** What `%T` prints for a decoded JSON value. */
  function GoTypeName(j: Json): string {
    match j
    case JNull => "<nil>"
    case JBool(_) => "bool"
    case JInt(_) => "float64"
    case JString(_) => "string"
    case JArray(_) => "[]interface {}"
    case JObject(_) => "map[string]interface {}"
  }

  /** Why a tool argument is refused. */
  datatype ArgProblem = Missing | WrongType(got: Json) | Empty | NotBool(value: Json)

  /** The validation error for an argument, with the field set to its key. */
  function ArgError(key: string, p: ArgProblem): (e: Error)
    ensures e.ValidationError? && e.field == key
  {
    match p
    case Missing => ValidationError(key, "", "required parameter is missing", "provide the '" + key + "' parameter")
    case WrongType(got) => ValidationError(key, "", "expected string but got " + GoTypeName(got), "provide a string value")
    case Empty => ValidationError(key, "", "required parameter is empty", "provide a non-empty value for '" + key + "'")
    case NotBool(got) => ValidationError(key, "", "expected boolean but got " + GoTypeName(got), "provide true or false")
  }

  /** `GetStringArg`: the trimmed value, "" for an absent optional key. */
  function GetStringArg(args: map<string, Json>, key: string, required: bool): (r: Result<string, ArgProblem>)
    ensures (key !in args || args[key] == JNull) ==> (r.Failure? <==> required) && (r.Success? ==> r.value == "")
    ensures key in args && args[key].JString? ==>
      (r.Failure? <==> required && TrimSpace(args[key].s) == "") &&
      (r.Success? ==> r.value == TrimSpace(args[key].s))
    ensures key in args && args[key] != JNull && !args[key].JString? ==> r == Failure(WrongType(args[key]))
  {
    if key !in args || args[key] == JNull then
      if required then Failure(Missing) else Success("")
    else if !args[key].JString? then Failure(WrongType(args[key]))
    else if required && TrimSpace(args[key].s) == "" then Failure(Empty)
    else Success(TrimSpace(args[key].s))
  }

  /** A successful read never has white space at either end, and a required
      one is never empty. */
  lemma GetStringArgTrimmed(args: map<string, Json>, key: string, required: bool)
    requires GetStringArg(args, key, required).Success?
    ensures var v := GetStringArg(args, key, required).value;
      v == "" || (!IsSpace(v[0]) && !IsSpace(v[|v| - 1]))
    ensures required ==> GetStringArg(args, key, required).value != ""
  {
    if key in args && args[key].JString? {
      TrimSpaceShape(args[key].s);
    }
  }

  /** `GetBoolArg`: the value and the error, nil standing for None. */
  function GetBoolArg(args: map<string, Json>, key: string, defaultVal: bool): (r: (bool, Option<Error>))
    ensures (key !in args || args[key] == JNull) ==> r == (defaultVal, None)
    ensures key in args && args[key].JBool? ==> r == (args[key].b, None)
    ensures key in args && args[key] != JNull && !args[key].JBool? ==>
      r == (defaultVal, Some(ArgError(key, NotBool(args[key]))))
  {
    if key !in args || args[key] == JNull then (defaultVal, None)
    else if args[key].JBool? then (args[key].b, None)
    else (defaultVal, Some(ArgError(key, NotBool(args[key]))))
  }

  // ---------------------------------------------------------------------
  // The comparison's answer (`IsDifferencesFoundError`, `BuildErrorDetails`,
  // `ProcessCompareResult`)

  /** `IsDifferencesFoundError`: the engine reports differences as an error
      whose text says so. */
  function IsDifferencesFoundError(err: Option<Error>): (r: bool)
    ensures err.None? ==> !r
  {
    err.Some? && (Contains(err.value.Text(), DifferencesPhrase) ||
                  Contains(err.value.Text(), FoundPhrase))
  }

  const DifferencesPhrase: string := "there are differences"
  const FoundPhrase: string := "differences were found"

  /** Wrapping a differences error in a `CompareError` or a `%w` keeps it
      one: its text is part of the wrapper's. */
  lemma DifferencesSurviveWrapping(inner: Error, op: string, details: string, prefix: string)
    requires IsDifferencesFoundError(Some(inner))
    ensures IsDifferencesFoundError(Some(CompareError(op, inner, details)))
    ensures IsDifferencesFoundError(Some(Wrap(prefix, inner)))
  {
    var t := inner.Text();
    var p := if Contains(t, DifferencesPhrase) then DifferencesPhrase else FoundPhrase;
    ContainsInside(op + ": ", t, (if details != "" then "\n\nDetails: " + details else ""), p);
    ContainsInside(prefix + ": ", t, "", p);
    assert CompareError(op, inner, details).Text() ==
      op + ": " + t + (if details != "" then "\n\nDetails: " + details else "");
    assert Wrap(prefix, inner).Text() == prefix + ": " + t + "";
  }

  /** The hint categories of `BuildErrorDetails`, in switch order. */
  datatype Hint = NoHint | ReferenceMissing | ClusterUnreachable | AccessDenied | InvalidReference

  /** The first case of the switch whose substrings the error text holds. */
  function HintOf(errStr: string): Hint {
    if Contains(errStr, "no such file or directory") then ReferenceMissing
    else if Contains(errStr, "connection refused") || Contains(errStr, "no such host") then ClusterUnreachable
    else if Contains(errStr, "unauthorized") || Contains(errStr, "forbidden") then AccessDenied
    else if Contains(errStr, "metadata.yaml") || Contains(errStr, "invalid reference") then InvalidReference
    else NoHint
  }

  function HintText(h: Hint): string {
    match h
    case NoHint => ""
    case ReferenceMissing =>
      "The reference configuration could not be found. " +
      "Verify that the URL is correct and accessible.\n"
    case ClusterUnreachable =>
      "Could not connect to the Kubernetes cluster. " +
      "Verify that the server has access to the cluster via in-cluster config or KUBECONFIG.\n"
    case AccessDenied =>
      "Authentication or authorization failed. " +
      "Verify that the server's service account has the necessary permissions.\n"
    case InvalidReference =>
      "The reference configuration appears to be invalid. " +
      "Verify that the metadata.yaml file is properly formatted.\n"
  }

  const AdditionalOutput: string := "\nAdditional output:\n"

  /** `BuildErrorDetails`: at most one hint, then the engine's stderr,
      which is there exactly when it is non-empty and closes the text. */
  function BuildErrorDetails(err: Error, errOutput: string): (details: string)
    ensures var h := HintText(HintOf(err.Text()));
      HasPrefix(details, h) &&
      (errOutput == "" ==> details == h) &&
      (errOutput != "" ==> details[|h|..] == AdditionalOutput + errOutput)
  {
    var h := HintText(HintOf(err.Text()));
    var d := h + (if errOutput != "" then AdditionalOutput + errOutput else "");
    assert d[..|h|] == h;
    d
  }

  /** The switch is first-match: a text that mentions a missing file gets
      only that hint, whatever else it mentions, and each later hint needs
      every earlier test to fail. */
  lemma HintFirstMatch(errStr: string)
    ensures HintOf(errStr) == ReferenceMissing <==> Contains(errStr, "no such file or directory")
    ensures HintOf(errStr) == ClusterUnreachable <==>
      !Contains(errStr, "no such file or directory") &&
      (Contains(errStr, "connection refused") || Contains(errStr, "no such host"))
    ensures HintOf(errStr) == NoHint <==>
      !Contains(errStr, "no such file or directory") && !Contains(errStr, "connection refused") &&
      !Contains(errStr, "no such host") && !Contains(errStr, "unauthorized") && !Contains(errStr, "forbidden") &&
      !Contains(errStr, "metadata.yaml") && !Contains(errStr, "invalid reference")
  {
  }

  const DifferencesWithoutOutput: string := "Differences were found but no detailed output was generated."
  const NoDifferences: string := "No differences found between the cluster configuration and reference."

  /** `ProcessCompareResult`; `runErr` None stands for a nil error. */
  function ProcessCompareResult(output: string, errOutput: string, runErr: Option<Error>): (r: Result<string, Error>)
    ensures output != "" ==>
      r.Success? && HasPrefix(r.value, output) &&
      (r.value != output <==> runErr.Some? && !IsDifferencesFoundError(runErr))
    ensures output == "" && IsDifferencesFoundError(runErr) ==> r == Success(DifferencesWithoutOutput)
    ensures output == "" && runErr.Some? && !IsDifferencesFoundError(runErr) ==>
      r.Failure? && r.error.CompareError? && r.error.op == "compare" && r.error.err == runErr.value &&
      r.error.details == BuildErrorDetails(runErr.value, errOutput)
    ensures output == "" && runErr.None? ==> r == Success(NoDifferences)
  {
    if output != "" then
      if runErr.Some? && !IsDifferencesFoundError(runErr) then
        var warned := output + "\n\nWarning: Comparison completed with errors: " + runErr.value.Text();
        assert warned[..|output|] == output;
        Success(warned)
      else Success(output)
    else if runErr.Some? then
      if IsDifferencesFoundError(runErr) then Success(DifferencesWithoutOutput)
      else Failure(CompareError("compare", runErr.value, BuildErrorDetails(runErr.value, errOutput)))
    else Success(NoDifferences)
  }
}

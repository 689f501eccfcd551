/** The pull-request checker: the ownership rule for a changed domain file, the
    merging of validation, ownership and missing-file results, and the counts
    and multi-line error layout of the report. The GitHub commit history and the
    files on disk are oracles. */
module PrChecker {
  import opened Values
  import opened Text
  import opened Assoc
  import opened Config
  import opened DomainValidator

  // ---------------------------------------------------------------- ownership

  /** `domain_config.get('owner', {}).get('username', '')` when the owner is an object. */
  datatype Username = NoUsername | UsernameText(s: string) | UsernameOther

  /** The `owner` value of a domain file. */
  datatype OwnerField = NoOwner | OwnerObject(username: Username) | OwnerText(s: string) | OwnerOther

  /** What `check_domain_ownership` finds at the path. */
  datatype ExistingFile =
    | NotThere
    | Unparsable
    | NotObject          // valid JSON that is not an object: `.get` raises
    | ObjectFile(owner: OwnerField)

  datatype OwnershipProblem =
    | OwnerFormat                                   // `owner` neither object nor string
    | NotOriginalAuthor(original: string, author: string)
    | CheckFailed                                   // an exception inside the check

  /** The lower-cased owner name, `None` when its shape raises, and `Some("")`
      for an absent owner; `OwnerOther` is handled by the caller. */
  function ConfiguredOwner(owner: OwnerField): Option<string> {
    match owner
    case NoOwner => Some("")
    case OwnerObject(NoUsername) => Some("")
    case OwnerObject(UsernameText(s)) => Some(Lower(s))
    case OwnerObject(UsernameOther) => None
    case OwnerText(s) => Some(Lower(s))
    case OwnerOther => None
  }

  /** The ownership error for a configured owner and the author of the file's
      first commit (`None` when it could not be looked up). */
  function AuthorErrors(configOwner: string, prAuthor: string, original: Option<string>): seq<OwnershipProblem> {
    if configOwner != "" && configOwner != Lower(prAuthor) && Truthy(original) &&
       Lower(original.value) != Lower(prAuthor)
    then [NotOriginalAuthor(original.value, prAuthor)]
    else []
  }

  /** `check_domain_ownership(file_path, pr_author, ...)` */
  function OwnershipErrors(file: ExistingFile, prAuthor: string, original: Option<string>): (r: seq<OwnershipProblem>)
    ensures |r| <= 1
  {
    match file
    case NotThere => []
    case Unparsable => []
    case NotObject => [CheckFailed]
    case ObjectFile(OwnerOther) => [OwnerFormat]
    case ObjectFile(owner) =>
      var o := ConfiguredOwner(owner);
      if o.None? then [CheckFailed] else AuthorErrors(o.value, prAuthor, original)
  }

  /** A new file and an unparsable one raise no ownership error. */
  lemma NewOrBrokenFileOwned(prAuthor: string, original: Option<string>)
    ensures OwnershipErrors(NotThere, prAuthor, original) == []
    ensures OwnershipErrors(Unparsable, prAuthor, original) == []
  {
  }

  /** The owner is read from an object's `username` or from a string, lower-cased;
      any other shape gives exactly one format error. */
  lemma OwnerShapes(s: string, prAuthor: string, original: Option<string>)
    ensures OwnershipErrors(ObjectFile(OwnerObject(UsernameText(s))), prAuthor, original) ==
            AuthorErrors(Lower(s), prAuthor, original)
    ensures OwnershipErrors(ObjectFile(OwnerText(s)), prAuthor, original) ==
            AuthorErrors(Lower(s), prAuthor, original)
    ensures OwnershipErrors(ObjectFile(OwnerOther), prAuthor, original) == [OwnerFormat]
  {
  }

  /** An ownership error is raised iff the configured owner is set and is not the
      PR author, and the original author is known and is not the PR author
      either, all compared without case. */
  lemma OwnershipRule(owner: string, prAuthor: string, original: Option<string>)
    ensures var es := OwnershipErrors(ObjectFile(OwnerText(owner)), prAuthor, original);
      (es != [] <==> owner != "" && !EqualsIgnoreCase(owner, prAuthor) &&
                     original.Some? && original.value != "" &&
                     !EqualsIgnoreCase(original.value, prAuthor)) &&
      (es != [] ==> es == [NotOriginalAuthor(original.value, prAuthor)])
  {
    LowerIdempotent(owner);
    if owner != "" {
      assert |Lower(owner)| > 0;
    }
    if Lower(owner) != "" {
      assert owner != "";
    }
  }

  /** The author of the PR may always change their own file. */
  lemma OwnerMayEdit(owner: string, prAuthor: string, original: Option<string>)
    requires EqualsIgnoreCase(owner, prAuthor)
    ensures OwnershipErrors(ObjectFile(OwnerText(owner)), prAuthor, original) == []
  {
    LowerIdempotent(owner);
  }

  /** The check for the file at `path`. */
  function FileOwnershipErrors(path: string, existing: map<string, ExistingFile>,
                               originals: map<string, string>, prAuthor: string): seq<OwnershipProblem>
  {
    OwnershipErrors(if path in existing then existing[path] else NotThere, prAuthor,
                    if path in originals then Some(originals[path]) else None)
  }

  // ---------------------------------------------------------------- merging

  /** One entry of a file's error list in the merged results. */
  datatype FileError = Invalid(problem: PrProblem) | Ownership(ownership: OwnershipProblem) | NotFound(path: string)

  type Results = Dict<string, seq<FileError>>

  function Invalids(ps: seq<PrProblem>): (r: seq<FileError>)
    ensures |r| == |ps| && forall i :: 0 <= i < |ps| ==> r[i] == Invalid(ps[i])
  {
    seq(|ps|, i requires 0 <= i < |ps| => Invalid(ps[i]))
  }

  function Ownerships(os: seq<OwnershipProblem>): (r: seq<FileError>)
    ensures |r| == |os| && forall i :: 0 <= i < |os| ==> r[i] == Ownership(os[i])
  {
    seq(|os|, i requires 0 <= i < |os| => Ownership(os[i]))
  }

  /** The validator's results as merged-result entries. */
  function Lift(m: Dict<string, seq<PrProblem>>): (r: Results)
    ensures |r| == |m| && forall i :: 0 <= i < |m| ==> r[i] == (m[i].0, Invalids(m[i].1))
  {
    seq(|m|, i requires 0 <= i < |m| => (m[i].0, Invalids(m[i].1)))
  }

  lemma {:induction false} LiftIndex(m: Dict<string, seq<PrProblem>>, k: string)
    ensures IndexOfKey(Lift(m), k) == IndexOfKey(m, k)
    decreases |m|
  {
    if m != [] {
      assert Lift(m)[1..] == Lift(m[1..]);
      LiftIndex(m[1..], k);
    }
  }

  /** Lifting keeps the keys, their order and each file's problems. */
  lemma LiftLookups(m: Dict<string, seq<PrProblem>>)
    ensures Keys(Lift(m)) == Keys(m)
    ensures DistinctKeys(m) ==> DistinctKeys(Lift(m))
    ensures forall k :: Get(Lift(m), k) == if k in Keys(m) then Some(Invalids(Get(m, k).value)) else None
  {
    var r := Lift(m);
    assert Keys(r) == Keys(m) by {
      forall k | k in Keys(r) ensures k in Keys(m) {
        var i :| 0 <= i < |r| && r[i].0 == k;
        assert m[i].0 == k;
      }
      forall k | k in Keys(m) ensures k in Keys(r) {
        var i :| 0 <= i < |m| && m[i].0 == k;
        assert r[i].0 == k;
      }
    }
    forall k ensures Get(r, k) == if k in Keys(m) then Some(Invalids(Get(m, k).value)) else None {
      LiftIndex(m, k);
    }
  }

  /** The search for each PR file, first under the project root and then in the
      working directory: the paths found (as `found` resolves them) and the
      paths missing, each in order. */
  function Locate(prFiles: seq<string>, found: map<string, string>): (r: (seq<string>, seq<string>))
    ensures |r.0| + |r.1| == |prFiles|
    decreases |prFiles|
  {
    if prFiles == [] then ([], [])
    else
      var n := |prFiles| - 1;
      var prev := Locate(prFiles[..n], found);
      if prFiles[n] in found then (prev.0 + [found[prFiles[n]]], prev.1) else (prev.0, prev.1 + [prFiles[n]])
  }

  /** Every PR file is either found, giving its resolved path, or listed missing. */
  lemma {:induction false} LocateParts(prFiles: seq<string>, found: map<string, string>)
    ensures forall p :: p in Locate(prFiles, found).1 <==> p in prFiles && p !in found
    ensures forall q :: q in Locate(prFiles, found).0 ==> exists p :: p in prFiles && p in found && found[p] == q
    ensures Locate(prFiles, found).0 == [] <==> forall p :: p in prFiles ==> p !in found
    decreases |prFiles|
  {
    if prFiles != [] {
      var n := |prFiles| - 1;
      LocateParts(prFiles[..n], found);
      assert prFiles == prFiles[..n] + [prFiles[n]];
    }
  }

  /** The ownership pass over the found files (`results[f].extend(errors)`). */
  function Merge(start: (bool, Results), paths: seq<string>, owned: seq<seq<OwnershipProblem>>): (bool, Results)
    requires |paths| == |owned|
    decreases |paths|
  {
    if paths == [] then start
    else
      var n := |paths| - 1;
      var prev := Merge(start, paths[..n], owned[..n]);
      if owned[n] == [] then prev
      else (false, Put(prev.1, paths[n], Get(prev.1, paths[n]).GetOr([]) + Ownerships(owned[n])))
  }

  /** The ownership errors of each found file. */
  function AllOwnershipErrors(paths: seq<string>, existing: map<string, ExistingFile>,
                              originals: map<string, string>, prAuthor: string): (r: seq<seq<OwnershipProblem>>)
    ensures |r| == |paths|
    ensures forall i :: 0 <= i < |paths| ==> r[i] == FileOwnershipErrors(paths[i], existing, originals, prAuthor)
  {
    seq(|paths|, i requires 0 <= i < |paths| => FileOwnershipErrors(paths[i], existing, originals, prAuthor))
  }

  /** The missing-file pass (`results[f] = ["not found"]`). */
  function Mark(start: (bool, Results), missing: seq<string>): (bool, Results)
    decreases |missing|
  {
    if missing == [] then start
    else
      var n := |missing| - 1;
      var prev := Mark(start, missing[..n]);
      (false, Put(prev.1, missing[n], [NotFound(missing[n])]))
  }

  /** The outcome of `check_pr_files`: nothing found, or the merged results
      (the formatted text is built from them). */
  datatype Outcome = NothingFound(missing: seq<string>) | Report(results: Results)

  /** Whether the ownership pass runs: author, repository owner and name all given. */
  predicate ChecksOwnership(prAuthor: Option<string>, repoOwner: Option<string>, repoName: Option<string>) {
    Truthy(prAuthor) && Truthy(repoOwner) && Truthy(repoName)
  }

  /** The validator's verdict and results for the found files. */
  function Validated(paths: seq<string>, config: ProjectConfig, files: map<string, Loaded<SubdomainFile>>,
                     ipv6: set<string>): (bool, Results)
  {
    var v := Collect(paths, AllFileErrors(paths, config, files, ipv6));
    (v.0, Lift(v.1))
  }

  function Owned(start: (bool, Results), paths: seq<string>, prAuthor: Option<string>, repoOwner: Option<string>,
                 repoName: Option<string>, existing: map<string, ExistingFile>, originals: map<string, string>): (bool, Results)
  {
    if ChecksOwnership(prAuthor, repoOwner, repoName)
    then Merge(start, paths, AllOwnershipErrors(paths, existing, originals, prAuthor.value))
    else start
  }

  /** `check_pr_files(pr_files, config, ...)` */
  function PrFilesOutcome(prFiles: seq<string>, found: map<string, string>, config: ProjectConfig,
                          files: map<string, Loaded<SubdomainFile>>, ipv6: set<string>,
                          prAuthor: Option<string>, repoOwner: Option<string>, repoName: Option<string>,
                          existing: map<string, ExistingFile>, originals: map<string, string>): (bool, Outcome)
  {
    var located := Locate(prFiles, found);
    if located.0 == [] then (false, NothingFound(located.1))
    else
      var validated := Validated(located.0, config, files, ipv6);
      var owned := Owned(validated, located.0, prAuthor, repoOwner, repoName, existing, originals);
      var marked := Mark(owned, located.1);
      (marked.0, Report(marked.1))
  }

  // ---------------------------------------------------------------- merging: properties

  lemma {:induction false} MergeVerdict(start: (bool, Results), paths: seq<string>, owned: seq<seq<OwnershipProblem>>)
    requires |paths| == |owned|
    ensures Merge(start, paths, owned).0 <==> start.0 && forall i :: 0 <= i < |owned| ==> owned[i] == []
    decreases |paths|
  {
    if paths != [] {
      var n := |paths| - 1;
      MergeVerdict(start, paths[..n], owned[..n]);
      assert forall i :: 0 <= i < n ==> owned[..n][i] == owned[i];
    }
  }

  /** The ownership pass only touches files with ownership errors and keeps the
      keys distinct. */
  lemma {:induction false} MergeFrame(start: (bool, Results), paths: seq<string>, owned: seq<seq<OwnershipProblem>>)
    requires |paths| == |owned| && DistinctKeys(start.1)
    ensures DistinctKeys(Merge(start, paths, owned).1)
    ensures forall k :: k !in paths ==> Get(Merge(start, paths, owned).1, k) == Get(start.1, k)
    decreases |paths|
  {
    if paths != [] {
      var n := |paths| - 1;
      MergeFrame(start, paths[..n], owned[..n]);
      assert paths == paths[..n] + [paths[n]];
    }
  }

  /** A file examined once ends with its validation errors followed by its
      ownership errors. */
  lemma {:induction false} MergeAppends(start: (bool, Results), paths: seq<string>, owned: seq<seq<OwnershipProblem>>, i: nat)
    requires |paths| == |owned| && DistinctKeys(start.1) && i < |paths|
    requires forall j :: 0 <= j < |paths| && j != i ==> paths[j] != paths[i]
    ensures Get(Merge(start, paths, owned).1, paths[i]) ==
            if owned[i] == [] then Get(start.1, paths[i])
            else Some(Get(start.1, paths[i]).GetOr([]) + Ownerships(owned[i]))
    decreases |paths|
  {
    var n := |paths| - 1;
    var p := paths[i];
    var prev := Merge(start, paths[..n], owned[..n]);
    MergeFrame(start, paths[..n], owned[..n]);
    var r := Merge(start, paths, owned);
    assert r == if owned[n] == [] then prev
                else (false, Put(prev.1, paths[n], Get(prev.1, paths[n]).GetOr([]) + Ownerships(owned[n])));
    if i == n {
      assert p !in paths[..n] by {
        forall j | 0 <= j < n ensures paths[..n][j] != p {
          assert paths[j] != paths[i];
        }
      }
      assert Get(prev.1, p) == Get(start.1, p);
    } else {
      assert forall j :: 0 <= j < n && j != i ==> paths[..n][j] != paths[..n][i] by {
        forall j | 0 <= j < n && j != i ensures paths[..n][j] != paths[..n][i] {
          assert paths[j] != paths[i];
        }
      }
      MergeAppends(start, paths[..n], owned[..n], i);
      assert paths[n] != p;
      assert owned[..n][i] == owned[i] && paths[..n][i] == p;
      assert Get(r.1, p) == Get(prev.1, p);
    }
  }

  lemma {:induction false} MarkVerdict(start: (bool, Results), missing: seq<string>)
    ensures Mark(start, missing).0 <==> start.0 && missing == []
    decreases |missing|
  {
    if missing != [] {
      MarkVerdict(start, missing[..|missing| - 1]);
    }
  }

  /** Each missing file ends with exactly the one "not found" error; the other
      entries keep theirs. */
  lemma {:induction false} MarkLookups(start: (bool, Results), missing: seq<string>)
    requires DistinctKeys(start.1)
    ensures DistinctKeys(Mark(start, missing).1)
    ensures forall p :: p in missing ==> Get(Mark(start, missing).1, p) == Some([NotFound(p)])
    ensures forall k :: k !in missing ==> Get(Mark(start, missing).1, k) == Get(start.1, k)
    decreases |missing|
  {
    if missing != [] {
      var n := |missing| - 1;
      MarkLookups(start, missing[..n]);
      assert missing == missing[..n] + [missing[n]];
    }
  }

  /** The verdict is true iff some file was found, the validator passed every
      found file, no ownership error was raised, and no file was missing. */
  lemma PrFilesVerdict(prFiles: seq<string>, found: map<string, string>, config: ProjectConfig,
                       files: map<string, Loaded<SubdomainFile>>, ipv6: set<string>,
                       prAuthor: Option<string>, repoOwner: Option<string>, repoName: Option<string>,
                       existing: map<string, ExistingFile>, originals: map<string, string>)
    ensures var located := Locate(prFiles, found);
      PrFilesOutcome(prFiles, found, config, files, ipv6, prAuthor, repoOwner, repoName, existing, originals).0 <==>
        && located.0 != []
        && (forall i :: 0 <= i < |located.0| ==> FileErrors(located.0[i], config, files, ipv6) == [])
        && (ChecksOwnership(prAuthor, repoOwner, repoName) ==>
              forall i :: 0 <= i < |located.0| ==>
                FileOwnershipErrors(located.0[i], existing, originals, prAuthor.value) == [])
        && located.1 == []
  {
    var located := Locate(prFiles, found);
    if located.0 != [] {
      var validated := Validated(located.0, config, files, ipv6);
      ValidatedVerdict(located.0, config, files, ipv6);
      OwnedVerdict(validated, located.0, prAuthor, repoOwner, repoName, existing, originals);
      var owned := Owned(validated, located.0, prAuthor, repoOwner, repoName, existing, originals);
      MarkVerdict(owned, located.1);
    }
  }

  /** The validator's verdict holds iff every found file has no error. */
  lemma ValidatedVerdict(paths: seq<string>, config: ProjectConfig, files: map<string, Loaded<SubdomainFile>>,
                         ipv6: set<string>)
    ensures Validated(paths, config, files, ipv6).0 <==>
            forall i :: 0 <= i < |paths| ==> FileErrors(paths[i], config, files, ipv6) == []
  {
    CollectVerdict(paths, AllFileErrors(paths, config, files, ipv6));
  }

  /** The ownership pass keeps the verdict iff it is skipped or no found file
      has an ownership error. */
  lemma OwnedVerdict(start: (bool, Results), paths: seq<string>, prAuthor: Option<string>, repoOwner: Option<string>,
                     repoName: Option<string>, existing: map<string, ExistingFile>, originals: map<string, string>)
    ensures Owned(start, paths, prAuthor, repoOwner, repoName, existing, originals).0 <==>
            && start.0
            && (ChecksOwnership(prAuthor, repoOwner, repoName) ==>
                  forall i :: 0 <= i < |paths| ==> FileOwnershipErrors(paths[i], existing, originals, prAuthor.value) == [])
  {
    if ChecksOwnership(prAuthor, repoOwner, repoName) {
      MergeVerdict(start, paths, AllOwnershipErrors(paths, existing, originals, prAuthor.value));
    }
  }

  /** Every missing PR file is reported with exactly one "not found" error. */
  lemma MissingReported(prFiles: seq<string>, found: map<string, string>, config: ProjectConfig,
                        files: map<string, Loaded<SubdomainFile>>, ipv6: set<string>,
                        prAuthor: Option<string>, repoOwner: Option<string>, repoName: Option<string>,
                        existing: map<string, ExistingFile>, originals: map<string, string>, p: string)
    requires p in prFiles && p !in found && exists q :: q in prFiles && q in found
    ensures var r := PrFilesOutcome(prFiles, found, config, files, ipv6, prAuthor, repoOwner, repoName, existing, originals);
      r.1.Report? && Get(r.1.results, p) == Some([NotFound(p)])
  {
    LocateParts(prFiles, found);
    var located := Locate(prFiles, found);
    var v := Collect(located.0, AllFileErrors(located.0, config, files, ipv6));
    CollectKeys(located.0, AllFileErrors(located.0, config, files, ipv6));
    LiftLookups(v.1);
    var validated := Validated(located.0, config, files, ipv6);
    if ChecksOwnership(prAuthor, repoOwner, repoName) {
      MergeFrame(validated, located.0, AllOwnershipErrors(located.0, existing, originals, prAuthor.value));
    }
    var owned := Owned(validated, located.0, prAuthor, repoOwner, repoName, existing, originals);
    MarkLookups(owned, located.1);
  }

  // ---------------------------------------------------------------- merging: the loops

  /** The search loop over `pr_files`. */
  method LocateFiles(prFiles: seq<string>, found: map<string, string>) returns (normalized: seq<string>, missing: seq<string>)
    ensures (normalized, missing) == Locate(prFiles, found)
  {
    normalized, missing := [], [];
    for i := 0 to |prFiles|
      invariant (normalized, missing) == Locate(prFiles[..i], found)
    {
      assert prFiles[..i + 1][..i] == prFiles[..i];
      if prFiles[i] in found {
        normalized := normalized + [found[prFiles[i]]];
      } else {
        missing := missing + [prFiles[i]];
      }
    }
    assert prFiles[..|prFiles|] == prFiles;
  }

  /** The ownership loop. */
  method MergeOwnership(valid0: bool, results0: Results, paths: seq<string>, existing: map<string, ExistingFile>,
                        originals: map<string, string>, prAuthor: string) returns (valid: bool, results: Results)
    ensures (valid, results) == Merge((valid0, results0), paths, AllOwnershipErrors(paths, existing, originals, prAuthor))
  {
    ghost var owned := AllOwnershipErrors(paths, existing, originals, prAuthor);
    valid, results := valid0, results0;
    for i := 0 to |paths|
      invariant (valid, results) == Merge((valid0, results0), paths[..i], owned[..i])
    {
      assert paths[..i + 1][..i] == paths[..i] && owned[..i + 1][..i] == owned[..i];
      var errors := FileOwnershipErrors(paths[i], existing, originals, prAuthor);
      if errors != [] {
        var current := Get(results, paths[i]);
        results := Put(results, paths[i], current.GetOr([]) + Ownerships(errors));
        valid := false;
      }
    }
    assert paths[..|paths|] == paths && owned[..|owned|] == owned;
  }

  /** The missing-file loop. */
  method MarkMissing(valid0: bool, results0: Results, missing: seq<string>) returns (valid: bool, results: Results)
    ensures (valid, results) == Mark((valid0, results0), missing)
  {
    valid, results := valid0, results0;
    for i := 0 to |missing|
      invariant (valid, results) == Mark((valid0, results0), missing[..i])
    {
      assert missing[..i + 1][..i] == missing[..i];
      results := Put(results, missing[i], [NotFound(missing[i])]);
      valid := false;
    }
    assert missing[..|missing|] == missing;
  }

  /** `check_pr_files(pr_files, config, ...)` */
  method CheckPrFiles(prFiles: seq<string>, found: map<string, string>, config: ProjectConfig,
                      files: map<string, Loaded<SubdomainFile>>, ipv6: set<string>,
                      prAuthor: Option<string>, repoOwner: Option<string>, repoName: Option<string>,
                      existing: map<string, ExistingFile>, originals: map<string, string>)
    returns (allValid: bool, outcome: Outcome)
    ensures (allValid, outcome) ==
            PrFilesOutcome(prFiles, found, config, files, ipv6, prAuthor, repoOwner, repoName, existing, originals)
  {
    var normalized, missing := LocateFiles(prFiles, found);
    if normalized == [] {
      return false, NothingFound(missing);
    }
    var valid, results := ValidateFound(normalized, config, files, ipv6);
    valid, results := OwnFound(valid, results, normalized, prAuthor, repoOwner, repoName, existing, originals);
    valid, results := MarkMissing(valid, results, missing);
    return valid, Report(results);
  }

  /** The validator call over the found files, its results lifted into the report. */
  method ValidateFound(normalized: seq<string>, config: ProjectConfig,
                       files: map<string, Loaded<SubdomainFile>>, ipv6: set<string>)
    returns (valid: bool, results: Results)
    ensures (valid, results) == Validated(normalized, config, files, ipv6)
  {
    var checked;
    valid, checked := ValidatePullRequest(normalized, config, files, ipv6);
    results := Lift(checked);
  }

  /** The ownership pass, run only when author and repository are all given. */
  method OwnFound(valid0: bool, results0: Results, normalized: seq<string>,
                  prAuthor: Option<string>, repoOwner: Option<string>, repoName: Option<string>,
                  existing: map<string, ExistingFile>, originals: map<string, string>)
    returns (valid: bool, results: Results)
    ensures (valid, results) == Owned((valid0, results0), normalized, prAuthor, repoOwner, repoName, existing, originals)
  {
    valid, results := valid0, results0;
    if ChecksOwnership(prAuthor, repoOwner, repoName) {
      valid, results := MergeOwnership(valid, results, normalized, existing, originals, prAuthor.value);
    }
  }

  // ---------------------------------------------------------------- report

  /** `sum(1 for errors in results.values() if errors)` */
  function ErrorFiles<E>(results: Dict<string, seq<E>>): (n: nat)
    ensures n <= |results|
    decreases |results|
  {
    if results == [] then 0
    else ErrorFiles(results[..|results| - 1]) + if results[|results| - 1].1 != [] then 1 else 0
  }

  /** `total_files - error_files` */
  function SuccessFiles<E>(results: Dict<string, seq<E>>): nat {
    |results| - ErrorFiles(results)
  }

  /** The number of files whose list is empty, counted on its own. */
  function PassingFiles<E>(results: Dict<string, seq<E>>): nat
    decreases |results|
  {
    if results == [] then 0
    else (if results[0].1 == [] then 1 else 0) + PassingFiles(results[1..])
  }

  lemma {:induction false} PassingFilesAppend<E>(a: Dict<string, seq<E>>, b: Dict<string, seq<E>>)
    ensures PassingFiles(a + b) == PassingFiles(a) + PassingFiles(b)
    decreases |a|
  {
    if a != [] {
      assert (a + b)[1..] == a[1..] + b;
      assert (a + b)[0] == a[0];
      PassingFilesAppend(a[1..], b);
    } else {
      assert a + b == b;
    }
  }

  /** The success count is the number of files without errors, and the error
      count is zero iff every list is empty. */
  lemma {:induction false} ReportCounts<E>(results: Dict<string, seq<E>>)
    ensures SuccessFiles(results) == PassingFiles(results)
    ensures ErrorFiles(results) == 0 <==> forall i :: 0 <= i < |results| ==> results[i].1 == []
    decreases |results|
  {
    if results != [] {
      var n := |results| - 1;
      var init := results[..n];
      ReportCounts(init);
      PassingFilesAppend(init, [results[n]]);
      assert init + [results[n]] == results;
      assert PassingFiles([results[n]]) == if results[n].1 == [] then 1 else 0;
    }
  }

  /** The label of the `i`-th error of a file, in the Markdown or the console report. */
  function Label(console: bool, i: nat): string {
    if console then "错误 " + NatToString(i) + ": " else "**错误 " + NatToString(i) + ":** "
  }

  /** `"  - " + line.strip()` for every line that is not blank. */
  function Bullets(lines: seq<string>): (r: seq<string>)
    ensures |r| <= |lines|
    decreases |lines|
  {
    if lines == [] then []
    else
      var init := lines[..|lines| - 1];
      var line := lines[|lines| - 1];
      Bullets(init) + if Strip(line) != "" then ["  - " + Strip(line)] else []
  }

  /** The report lines of one error: a multi-line error keeps its first line
      beside the label and lists the others as bullets. */
  function ErrorLines(console: bool, i: nat, error: string): (r: seq<string>)
    ensures |r| >= 1
  {
    if '\n' in error then
      var lines := Split(error, '\n');
      [Label(console, i) + lines[0]] + Bullets(lines[1..])
    else [Label(console, i) + error]
  }

  /** The lines of a file's errors, numbered from 1. */
  function AllErrorLines(console: bool, errors: seq<string>): seq<string>
    decreases |errors|
  {
    if errors == [] then []
    else
      var n := |errors| - 1;
      AllErrorLines(console, errors[..n]) + ErrorLines(console, n + 1, errors[n])
  }

  /** A bullet is a stripped, non-blank continuation line, and every such line
      gives one, in order. */
  lemma {:induction false} BulletsMeaning(lines: seq<string>)
    ensures forall b :: b in Bullets(lines) ==> exists l :: l in lines && Strip(l) != "" && b == "  - " + Strip(l)
    ensures forall l :: l in lines && Strip(l) != "" ==> "  - " + Strip(l) in Bullets(lines)
    ensures Bullets(lines) == [] <==> forall l :: l in lines ==> Strip(l) == ""
    decreases |lines|
  {
    if lines != [] {
      var init := lines[..|lines| - 1];
      var line := lines[|lines| - 1];
      BulletsMeaning(init);
      assert lines == init + [line];
      var last := if Strip(line) != "" then ["  - " + Strip(line)] else [];
      assert Bullets(lines) == Bullets(init) + last;
      forall b | b in Bullets(lines)
        ensures exists l :: l in lines && Strip(l) != "" && b == "  - " + Strip(l)
      {
        if b in Bullets(init) {
          var l :| l in init && Strip(l) != "" && b == "  - " + Strip(l);
          assert l in lines;
        } else {
          assert line in lines && b == "  - " + Strip(line);
        }
      }
      forall l | l in lines && Strip(l) != "" ensures "  - " + Strip(l) in Bullets(lines) {
        if l != line {
          assert l in init;
        }
      }
    }
  }

  lemma {:induction false} BulletsAppend(a: seq<string>, b: seq<string>)
    ensures Bullets(a + b) == Bullets(a) + Bullets(b)
    decreases |b|
  {
    if b != [] {
      var n := |b| - 1;
      assert (a + b)[..|a + b| - 1] == a + b[..n];
      assert (a + b)[|a + b| - 1] == b[n];
      BulletsAppend(a, b[..n]);
    } else {
      assert a + b == a;
    }
  }

  /** A one-line error is one labelled line; a multi-line one is the labelled
      first line and one bullet per non-blank further line, blank ones dropped. */
  lemma MultiLineErrors(console: bool, i: nat, first: string, rest: seq<string>)
    requires '\n' !in first && forall k :: 0 <= k < |rest| ==> '\n' !in rest[k]
    ensures rest == [] ==> ErrorLines(console, i, first) == [Label(console, i) + first]
    ensures rest != [] ==> ErrorLines(console, i, Join([first] + rest, '\n')) ==
                           [Label(console, i) + first] + Bullets(rest)
  {
    if rest != [] {
      var parts := [first] + rest;
      forall k | 0 <= k < |parts| ensures '\n' !in parts[k] {
        if k > 0 { assert parts[k] == rest[k - 1]; }
      }
      JoinSplit(parts, '\n');
      assert parts[1..] == rest;
      var e := Join(parts, '\n');
      assert e == first + ['\n'] + Join(rest, '\n');
      assert e[|first|] == '\n';
    }
  }

  /** The loop over the continuation lines of a multi-line error. */
  method FormatBullets(lines: seq<string>) returns (out: seq<string>)
    ensures out == Bullets(lines)
  {
    out := [];
    for j := 0 to |lines|
      invariant out == Bullets(lines[..j])
    {
      assert lines[..j + 1][..j] == lines[..j];
      var stripped := Strip(lines[j]);
      if stripped != "" {
        out := out + ["  - " + stripped];
      }
    }
    assert lines[..|lines|] == lines;
  }

  /** The report lines of the `i`-th error. */
  method FormatError(console: bool, i: nat, error: string) returns (out: seq<string>)
    ensures out == ErrorLines(console, i, error)
  {
    if '\n' in error {
      var lines := Split(error, '\n');
      var bullets := FormatBullets(lines[1..]);
      out := [Label(console, i) + lines[0]] + bullets;
    } else {
      out := [Label(console, i) + error];
    }
  }

  /** The loop over a file's errors in the report. */
  method FormatErrors(console: bool, errors: seq<string>) returns (out: seq<string>)
    ensures out == AllErrorLines(console, errors)
  {
    out := [];
    for i := 0 to |errors|
      invariant out == AllErrorLines(console, errors[..i])
    {
      assert errors[..i + 1][..i] == errors[..i];
      var lines := FormatError(console, i + 1, errors[i]);
      out := out + lines;
    }
    assert errors[..|errors|] == errors;
  }
}

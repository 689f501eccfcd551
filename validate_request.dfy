/** The request validator: the checks a subdomain request file goes through
    before it is accepted, against the `domains.yml` configuration. The schema
    check, the IPv6 parser, the GitHub lookup and the files already in the
    repository are inputs. */
module ValidateRequest {
  import opened Values
  import opened Text
  import opened Patterns
  import opened Config
  import Common

  /** The `settings` section of `domains.yml`; a key it leaves out is `None`. */
  datatype Settings = Settings(blockedSubdomains: Option<seq<string>>, blockedUsers: Option<seq<string>>,
                               maxSubdomainsPerUser: Option<int>, requireGithubVerification: Option<bool>)

  datatype YamlConfig = YamlConfig(domains: map<string, KeyedDomain>, settings: Settings)

  /** The `record` object of a request: its `type` and `value`, and whether it
      has a `priority` key. */
  datatype RequestRecord = RequestRecord(rtype: Option<string>, value: Option<string>, hasPriority: bool)

  datatype RequestOwner = RequestOwner(username: string, email: string)

  /** A request that passed the schema, so its four keys are present. */
  datatype RequestData = RequestData(domain: string, subdomain: string, owner: RequestOwner, record: RequestRecord)

  /** What opening and parsing the request file gave. */
  datatype RequestFile = Missing(path: string) | Malformed(message: string) | Parsed(data: RequestData)

  datatype RequestProblem =
    | FileNotFound(path: string)
    | BadJson(message: string)
    | SchemaFailed(message: string)
    | DomainUnknown(domain: string)
    | DomainClosed(domain: string)
    | SubdomainBlocked(subdomain: string)
    | SubdomainTaken(subdomain: string, domain: string)
    | BadIpv4(value: string)
    | BadIpv6(value: string)
    | BadDomain(value: string)
    | BadMailServer(value: string)
    | MissingPriority
    | TxtTooLong
    | BadSrv(value: string)
    | UserBlocked(username: string)
    | UserLimitReached(username: string, max: int)
    | GithubProblem(message: string)

  datatype RequestResult = RequestResult(valid: bool, errors: seq<RequestProblem>, warnings: seq<string>)

  // ---------------------------------------------------------------- formats

  /** `is_valid_ipv4` */
  predicate IsValidIpv4(ip: string) {
    IsIpv4(ip)
  }

  /** `is_valid_domain`: at most 253 characters of dot-separated labels, letters
      in either case. */
  predicate IsValidDomain(domain: string) {
    |domain| <= 253 && IsDottedName(domain)
  }

  /** The same rule as the shared domain-name check. */
  lemma SameAsCommonDomain(domain: string)
    ensures IsValidDomain(domain) <==> Common.IsValidDomainName(domain)
  {
    Common.DomainNameBounds(domain);
  }

  /** `int(s)` on a string without surrounding whitespace: an optional sign and
      decimal digits. */
  function ParseInt(s: string): (r: Option<int>)
    ensures IsDecimal(s) ==> r == Some(DecimalValue(s))
    ensures r.Some? && r.value < 0 ==> |s| > 0 && s[0] == '-'
  {
    if IsDecimal(s) then Some(DecimalValue(s))
    else if |s| > 1 && s[0] == '+' && IsDecimal(s[1..]) then Some(DecimalValue(s[1..]))
    else if |s| > 1 && s[0] == '-' && IsDecimal(s[1..]) then Some(-(DecimalValue(s[1..]) as int))
    else None
  }

  lemma ParseIntOfNat(n: nat)
    ensures ParseInt(NatToString(n)) == Some(n)
  {
    NatToStringValue(n);
  }

  predicate InPortRange(s: string) {
    ParseInt(s).Some? && 0 <= ParseInt(s).value <= 65535
  }

  /** `is_valid_srv_record`: four whitespace-separated fields, the first three
      integers in [0, 65535] and the last a valid domain. */
  predicate IsValidSrv(value: string) {
    var parts := SplitWhitespace(value);
    |parts| == 4 && InPortRange(parts[0]) && InPortRange(parts[1]) && InPortRange(parts[2]) &&
    IsValidDomain(parts[3])
  }

  predicate NoSpace(s: string) {
    forall i :: 0 <= i < |s| ==> !IsSpace(s[i])
  }

  lemma {:induction false} WordLengthOf(w: string, tail: string)
    requires NoSpace(w) && (tail == [] || IsSpace(tail[0]))
    ensures WordLength(w + tail) == |w|
    decreases |w|
  {
    if |w| > 0 {
      assert (w + tail)[1..] == w[1..] + tail;
      WordLengthOf(w[1..], tail);
    }
  }

  /** A word followed by a space and more text splits off as the first field. */
  lemma SplitFirstWord(w: string, rest: string)
    requires |w| > 0 && NoSpace(w)
    ensures SplitWhitespace(w + " " + rest) == [w] + SplitWhitespace(rest)
  {
    var s := w + " " + rest;
    assert s == w + (" " + rest);
    WordLengthOf(w, " " + rest);
    assert s[..|w|] == w;
    assert s[|w|..] == " " + rest;
    assert (" " + rest)[1..] == rest;
  }

  lemma SplitLastWord(w: string)
    requires |w| > 0 && NoSpace(w)
    ensures SplitWhitespace(w) == [w]
  {
    WordLengthOf(w, []);
    assert w + [] == w;
  }

  lemma NumeralHasNoSpace(n: nat)
    ensures |NatToString(n)| > 0 && NoSpace(NatToString(n))
  {
    var s := NatToString(n);
    assert forall i :: 0 <= i < |s| ==> IsDigit(s[i]);
  }

  /** Words joined by single spaces split back into those words. */
  lemma {:induction false} SplitJoinedWords(ws: seq<string>)
    requires forall k :: 0 <= k < |ws| ==> |ws[k]| > 0 && NoSpace(ws[k])
    ensures SplitWhitespace(Join(ws, ' ')) == ws
    decreases |ws|
  {
    if |ws| == 1 {
      SplitLastWord(ws[0]);
    } else if |ws| > 1 {
      SplitJoinedWords(ws[1..]);
      SplitFirstWord(ws[0], Join(ws[1..], ' '));
      assert ws == [ws[0]] + ws[1..];
    }
  }

  /** Three numbers in range and a valid target, joined by single spaces, make
      a valid SRV value. */
  lemma SrvOfParts(priority: nat, weight: nat, port: nat, target: string)
    requires priority <= 65535 && weight <= 65535 && port <= 65535
    requires IsValidDomain(target) && NoSpace(target)
    ensures IsValidSrv(Join([NatToString(priority), NatToString(weight), NatToString(port), target], ' '))
  {
    PortNumeral(priority);
    PortNumeral(weight);
    PortNumeral(port);
    DottedNameNotEmpty(target);
    SrvOfWords(NatToString(priority), NatToString(weight), NatToString(port), target);
  }

  /** Three in-range numerals and a valid target, joined by single spaces, make
      a valid SRV value. */
  lemma SrvOfWords(priority: string, weight: string, port: string, target: string)
    requires |priority| > 0 && NoSpace(priority) && InPortRange(priority)
    requires |weight| > 0 && NoSpace(weight) && InPortRange(weight)
    requires |port| > 0 && NoSpace(port) && InPortRange(port)
    requires |target| > 0 && NoSpace(target) && IsValidDomain(target)
    ensures IsValidSrv(Join([priority, weight, port, target], ' '))
  {
    var ws := [priority, weight, port, target];
    assert forall k :: 0 <= k < |ws| ==> |ws[k]| > 0 && NoSpace(ws[k]);
    SplitJoinedWords(ws);
  }

  /** A number up to 65535 is written as a non-empty, space-free numeral in range. */
  lemma PortNumeral(n: nat)
    requires n <= 65535
    ensures |NatToString(n)| > 0 && NoSpace(NatToString(n)) && InPortRange(NatToString(n))
  {
    NumeralHasNoSpace(n);
    ParseIntOfNat(n);
  }

  /** A first field above 65535 makes the value invalid, whatever else it holds. */
  lemma SrvPriorityOutOfRange(priority: nat, b: string, c: string, target: string)
    requires priority > 65535
    requires NoSpace(b) && NoSpace(c) && NoSpace(target) && |b| > 0 && |c| > 0 && |target| > 0
    ensures !IsValidSrv(Join([NatToString(priority), b, c, target], ' '))
  {
    NumeralHasNoSpace(priority);
    SplitJoinedWords([NatToString(priority), b, c, target]);
    ParseIntOfNat(priority);
  }

  // ---------------------------------------------------------------- records

  /** `validate_record_format`: the value checks for the (uppercased) type;
      a type without checks gives no problems. */
  function RecordFormatErrors(record: RequestRecord, ipv6: set<string>): (es: seq<RequestProblem>)
    ensures |es| <= 2
  {
    var t := Upper(record.rtype.GetOr(""));
    var v := record.value.GetOr("");
    if t == "A" then (if IsValidIpv4(v) then [] else [BadIpv4(v)])
    else if t == "AAAA" then (if v in ipv6 then [] else [BadIpv6(v)])
    else if t == "CNAME" then (if IsValidDomain(v) then [] else [BadDomain(v)])
    else if t == "MX" then
      (if IsValidDomain(v) then [] else [BadMailServer(v)]) + (if record.hasPriority then [] else [MissingPriority])
    else if t == "TXT" then (if |v| > 255 then [TxtTooLong] else [])
    else if t == "SRV" then (if IsValidSrv(v) then [] else [BadSrv(v)])
    else []
  }

  /** The record type is read without regard to case. */
  lemma RecordTypeAnyCase(record: RequestRecord, rtype: string, ipv6: set<string>)
    requires record.rtype.Some? && Upper(record.rtype.value) == Upper(rtype)
    ensures RecordFormatErrors(record, ipv6) == RecordFormatErrors(record.(rtype := Some(rtype)), ipv6)
  {
  }

  /** What each type asks of its value. */
  lemma RecordFormatMeaning(record: RequestRecord, ipv6: set<string>)
    ensures var t := Upper(record.rtype.GetOr(""));
      var v := record.value.GetOr("");
      var es := RecordFormatErrors(record, ipv6);
      && (t == "MX" ==> (MissingPriority in es <==> !record.hasPriority))
      && (t == "MX" ==> (BadMailServer(v) in es <==> !IsValidDomain(v)))
      && (t == "TXT" ==> (es == [] <==> |v| <= 255))
      && (t == "SRV" ==> (es == [] <==> IsValidSrv(v)))
      && (t == "A" ==> (es == [] <==> IsValidIpv4(v)))
      && (t == "AAAA" ==> (es == [] <==> v in ipv6))
      && (t == "CNAME" ==> (es == [] <==> IsValidDomain(v)))
      && (t == "MX" ==> forall p :: p in es ==> p == BadMailServer(v) || p == MissingPriority)
      && (t !in ["A", "AAAA", "CNAME", "MX", "TXT", "SRV"] ==> es == [])
  {
  }

  /** A record without a type has nothing checked. */
  lemma UntypedRecordPasses(value: Option<string>, hasPriority: bool, ipv6: set<string>)
    ensures RecordFormatErrors(RequestRecord(None, value, hasPriority), ipv6) == []
  {
    assert Upper("") == "";
  }

  // ---------------------------------------------------------------- availability

  /** `validate_domain_availability` */
  function DomainErrors(config: YamlConfig, domain: string): seq<RequestProblem> {
    if domain !in config.domains || !NonEmpty(config.domains[domain]) then [DomainUnknown(domain)]
    else if !Enabled(config.domains[domain]) then [DomainClosed(domain)]
    else []
  }

  /** An unconfigured domain gives only the unknown-domain problem, a disabled
      one only the closed-domain problem, and an enabled one none. */
  lemma DomainAvailability(config: YamlConfig, domain: string)
    ensures domain !in config.domains ==> DomainErrors(config, domain) == [DomainUnknown(domain)]
    ensures domain in config.domains && NonEmpty(config.domains[domain]) && !Enabled(config.domains[domain]) ==>
      DomainErrors(config, domain) == [DomainClosed(domain)]
    ensures DomainErrors(config, domain) == [] <==> domain in config.domains && Enabled(config.domains[domain])
  {
  }

  /** `validate_subdomain_availability`; `taken` holds the `(domain, subdomain)`
      pairs whose request file already exists. */
  function SubdomainErrors(config: YamlConfig, taken: set<(string, string)>, domain: string, sub: string): seq<RequestProblem> {
    var blocked := config.settings.blockedSubdomains.GetOr([]);
    (if Lower(sub) in Common.LowerAll(blocked) then [SubdomainBlocked(sub)] else []) +
    (if (domain, sub) in taken then [SubdomainTaken(sub, domain)] else [])
  }

  /** A blocked name is refused in any letter case, and a taken name is refused. */
  lemma SubdomainAvailability(config: YamlConfig, taken: set<(string, string)>, domain: string, sub: string)
    ensures var blocked := config.settings.blockedSubdomains.GetOr([]);
      && (SubdomainBlocked(sub) in SubdomainErrors(config, taken, domain, sub) <==>
          exists k :: 0 <= k < |blocked| && EqualsIgnoreCase(blocked[k], sub))
      && (SubdomainTaken(sub, domain) in SubdomainErrors(config, taken, domain, sub) <==> (domain, sub) in taken)
  {
    var blocked := config.settings.blockedSubdomains.GetOr([]);
    if Lower(sub) in Common.LowerAll(blocked) {
      var k :| 0 <= k < |blocked| && Common.LowerAll(blocked)[k] == Lower(sub);
      assert EqualsIgnoreCase(blocked[k], sub);
    }
  }

  // ---------------------------------------------------------------- users

  /** A file in a domain folder: its name, whether it could be read as JSON, and
      its `owner.username` if it has one. */
  datatype UserFile = UserFile(name: string, readable: bool, ownerName: Option<string>)

  /** An entry of the `domains/` directory: whether it is a directory, and its files. */
  datatype Folder = Folder(isDir: bool, files: seq<UserFile>)

  predicate CountsFor(f: UserFile, username: string) {
    EndsWith(f.name, ".json") && f.readable && EqualsIgnoreCase(f.ownerName.GetOr(""), username)
  }

  /** The files of one folder that belong to the user. */
  function FilesOwned(files: seq<UserFile>, username: string): (n: nat)
    ensures n <= |files|
    decreases |files|
  {
    if files == [] then 0
    else FilesOwned(files[..|files| - 1], username) + if CountsFor(files[|files| - 1], username) then 1 else 0
  }

  /** The user's files over the folders that are directories. */
  function FoldersOwned(folders: seq<Folder>, username: string): nat
    decreases |folders|
  {
    if folders == [] then 0
    else
      var last := folders[|folders| - 1];
      FoldersOwned(folders[..|folders| - 1], username) + if last.isDir then FilesOwned(last.files, username) else 0
  }

  /** What `count_user_subdomains` returns; `dir` is the `domains/` listing, or
      `None` when the directory does not exist. */
  function UserSubdomains(dir: Option<seq<Folder>>, username: string): nat {
    if dir.None? then 0 else FoldersOwned(dir.value, username)
  }

  lemma {:induction false} FilesOwnedIgnoresCase(files: seq<UserFile>, a: string, b: string)
    requires EqualsIgnoreCase(a, b)
    ensures FilesOwned(files, a) == FilesOwned(files, b)
    decreases |files|
  {
    if files != [] {
      FilesOwnedIgnoresCase(files[..|files| - 1], a, b);
    }
  }

  lemma {:induction false} FoldersOwnedIgnoresCase(folders: seq<Folder>, a: string, b: string)
    requires EqualsIgnoreCase(a, b)
    ensures FoldersOwned(folders, a) == FoldersOwned(folders, b)
    decreases |folders|
  {
    if folders != [] {
      FoldersOwnedIgnoresCase(folders[..|folders| - 1], a, b);
      FilesOwnedIgnoresCase(folders[|folders| - 1].files, a, b);
    }
  }

  /** The count does not depend on the letter case of the user name. */
  lemma UserSubdomainsIgnoreCase(dir: Option<seq<Folder>>, a: string, b: string)
    requires EqualsIgnoreCase(a, b)
    ensures UserSubdomains(dir, a) == UserSubdomains(dir, b)
  {
    if dir.Some? {
      FoldersOwnedIgnoresCase(dir.value, a, b);
    }
  }

  /** A folder of files none of which is a readable `.json` file counts nothing. */
  lemma {:induction false} NoJsonNoCount(files: seq<UserFile>, username: string)
    requires forall i :: 0 <= i < |files| ==> !EndsWith(files[i].name, ".json") || !files[i].readable
    ensures FilesOwned(files, username) == 0
    decreases |files|
  {
    if files != [] {
      NoJsonNoCount(files[..|files| - 1], username);
    }
  }

  /** `count_user_subdomains`: the two nested loops over the listing. */
  method CountUserSubdomains(dir: Option<seq<Folder>>, username: string) returns (count: nat)
    ensures count == UserSubdomains(dir, username)
  {
    if dir.None? {
      return 0;
    }
    var folders := dir.value;
    count := 0;
    for i := 0 to |folders|
      invariant count == FoldersOwned(folders[..i], username)
    {
      assert folders[..i + 1][..i] == folders[..i];
      if folders[i].isDir {
        var files := folders[i].files;
        var before := count;
        for j := 0 to |files|
          invariant count == before + FilesOwned(files[..j], username)
        {
          assert files[..j + 1][..j] == files[..j];
          if EndsWith(files[j].name, ".json") && files[j].readable &&
             Lower(files[j].ownerName.GetOr("")) == Lower(username) {
            count := count + 1;
          }
        }
        assert files[..|files|] == files;
      }
    }
    assert folders[..|folders|] == folders;
  }

  function MaxSubdomains(config: YamlConfig): int {
    config.settings.maxSubdomainsPerUser.GetOr(3)
  }

  /** `validate_user_limits`, given the user's current count. */
  function UserLimitErrors(config: YamlConfig, username: string, count: nat): seq<RequestProblem> {
    var blocked := config.settings.blockedUsers.GetOr([]);
    if Lower(username) in Common.LowerAll(blocked) then [UserBlocked(username)]
    else if count >= MaxSubdomains(config) then [UserLimitReached(username, MaxSubdomains(config))]
    else []
  }

  /** A blocked user, in any letter case, gets that one problem and nothing
      else; any other user is refused iff the count reached the limit, 3 unless
      configured. */
  lemma UserLimits(config: YamlConfig, username: string, count: nat)
    ensures var blocked := config.settings.blockedUsers.GetOr([]);
      (exists k :: 0 <= k < |blocked| && EqualsIgnoreCase(blocked[k], username)) ==>
        UserLimitErrors(config, username, count) == [UserBlocked(username)]
    ensures var blocked := config.settings.blockedUsers.GetOr([]);
      (forall k :: 0 <= k < |blocked| ==> !EqualsIgnoreCase(blocked[k], username)) ==>
        (UserLimitErrors(config, username, count) != [] <==> count >= MaxSubdomains(config))
    ensures config.settings.maxSubdomainsPerUser.None? && Lower(username) !in Common.LowerAll(config.settings.blockedUsers.GetOr([])) ==>
      (UserLimitErrors(config, username, count) == [] <==> count < 3)
  {
    var blocked := config.settings.blockedUsers.GetOr([]);
    if exists k :: 0 <= k < |blocked| && EqualsIgnoreCase(blocked[k], username) {
      var k :| 0 <= k < |blocked| && EqualsIgnoreCase(blocked[k], username);
      assert Common.LowerAll(blocked)[k] == Lower(username);
    }
    if Lower(username) in Common.LowerAll(blocked) {
      var k :| 0 <= k < |blocked| && Common.LowerAll(blocked)[k] == Lower(username);
      assert EqualsIgnoreCase(blocked[k], username);
    }
  }

  /** `validate_github_user`: nothing when verification is switched off;
      otherwise what the GitHub lookup reported. */
  function GithubErrors(config: YamlConfig, lookup: seq<string>): (es: seq<RequestProblem>)
    ensures config.settings.requireGithubVerification == Some(false) ==> es == []
    ensures config.settings.requireGithubVerification != Some(false) ==>
      |es| == |lookup| && forall i :: 0 <= i < |es| ==> es[i] == GithubProblem(lookup[i])
  {
    if !config.settings.requireGithubVerification.GetOr(true) then []
    else seq(|lookup|, i requires 0 <= i < |lookup| => GithubProblem(lookup[i]))
  }

  // ---------------------------------------------------------------- request

  /** The problems `validate_request` collects, in order: reading the file, the
      schema (whose failure ends the checks), then the domain, subdomain,
      record, user limit and GitHub checks. `schemaError` is the message of the
      schema failure, if any; `githubLookup` the GitHub lookup's messages. */
  function RequestErrors(file: RequestFile, config: YamlConfig, ipv6: set<string>, taken: set<(string, string)>,
                         dir: Option<seq<Folder>>, schemaError: Option<string>, githubLookup: seq<string>): seq<RequestProblem>
  {
    match file
    case Missing(path) => [FileNotFound(path)]
    case Malformed(message) => [BadJson(message)]
    case Parsed(data) =>
      if schemaError.Some? then [SchemaFailed(schemaError.value)]
      else
        DomainErrors(config, data.domain) +
        SubdomainErrors(config, taken, data.domain, data.subdomain) +
        RecordFormatErrors(data.record, ipv6) +
        UserLimitErrors(config, data.owner.username, UserSubdomains(dir, data.owner.username)) +
        GithubErrors(config, githubLookup)
  }

  /** `validate_request(request_file)` */
  method Validate(file: RequestFile, config: YamlConfig, ipv6: set<string>, taken: set<(string, string)>,
                  dir: Option<seq<Folder>>, schemaError: Option<string>, githubLookup: seq<string>)
    returns (result: RequestResult)
    ensures result.errors == RequestErrors(file, config, ipv6, taken, dir, schemaError, githubLookup)
    ensures result.valid <==> result.errors == []
    ensures result.warnings == []
  {
    if file.Missing? {
      return RequestResult(false, [FileNotFound(file.path)], []);
    }
    if file.Malformed? {
      return RequestResult(false, [BadJson(file.message)], []);
    }
    if schemaError.Some? {
      return RequestResult(false, [SchemaFailed(schemaError.value)], []);
    }
    var data := file.data;
    var count := CountUserSubdomains(dir, data.owner.username);
    var errors := DomainErrors(config, data.domain) +
                  SubdomainErrors(config, taken, data.domain, data.subdomain) +
                  RecordFormatErrors(data.record, ipv6) +
                  UserLimitErrors(config, data.owner.username, count) +
                  GithubErrors(config, githubLookup);
    return RequestResult(errors == [], errors, []);
  }

  /** A schema failure is the only problem reported: no later check runs. */
  lemma SchemaFailureStops(data: RequestData, config: YamlConfig, ipv6: set<string>, taken: set<(string, string)>,
                           dir: Option<seq<Folder>>, message: string, githubLookup: seq<string>)
    ensures RequestErrors(Parsed(data), config, ipv6, taken, dir, Some(message), githubLookup) == [SchemaFailed(message)]
  {
  }

  /** A request passes iff every check passes. */
  lemma RequestPasses(data: RequestData, config: YamlConfig, ipv6: set<string>, taken: set<(string, string)>,
                      dir: Option<seq<Folder>>, githubLookup: seq<string>)
    ensures RequestErrors(Parsed(data), config, ipv6, taken, dir, None, githubLookup) == [] <==>
      && data.domain in config.domains && Enabled(config.domains[data.domain])
      && SubdomainErrors(config, taken, data.domain, data.subdomain) == []
      && RecordFormatErrors(data.record, ipv6) == []
      && UserLimitErrors(config, data.owner.username, UserSubdomains(dir, data.owner.username)) == []
      && (config.settings.requireGithubVerification == Some(false) || githubLookup == [])
  {
    DomainAvailability(config, data.domain);
  }
}

/** The validator of subdomain registration files: one record, one
    `domains/<domain>/<subdomain>.json` file, and the files of a pull request.
    Error messages are modelled by their kind and the values they quote. The
    files of the repository are an oracle: a map from the paths that exist to
    what loading each one gave. */
module DomainValidator {
  import opened Values
  import opened Text
  import opened Patterns
  import opened Assoc
  import opened Config
  import Common

  /** `is_valid_domain_name`, which here checks a subdomain: `@`, or one label
      once lowercased. */
  predicate IsValidDomainName(name: string) {
    name == "@" || IsLabel(Lower(name))
  }

  /** The same rule as the shared subdomain check with no reserved names. */
  lemma SameAsCommonSubdomain(name: string)
    ensures IsValidDomainName(name) <==> Common.IsValidSubdomain(name, [])
  {
  }

  /** `is_valid_ip`: the IPv4 pattern, or the IPv6 pattern, given here as the
      set of strings it accepts. */
  predicate IsValidIp(ip: string, ipv6: set<string>) {
    IsIpv4(ip) || ip in ipv6
  }

  /** `is_valid_github_username` */
  predicate IsValidGithubUsername(username: string) {
    IsGithubUsername(username)
  }

  predicate IsCnameChar(c: char) { IsAlnum(c) || c == '-' || c == '.' }

  /** `[a-zA-Z0-9]([a-zA-Z0-9\-\.]{0,253}[a-zA-Z0-9])?` */
  predicate IsCnameTarget(s: string) {
    1 <= |s| <= 255 && IsAlnum(s[0]) && IsAlnum(s[|s| - 1]) &&
    forall i :: 0 <= i < |s| ==> IsCnameChar(s[i])
  }

  // ---------------------------------------------------------------- one record

  /** A record object of a subdomain file; a key the object leaves out is `None`. */
  datatype RecordIn = RecordIn(rtype: Option<string>, name: Option<string>, content: Option<string>,
                               ttl: Option<Json>, proxied: Option<Json>, priority: Option<Json>)

  datatype RecordProblem =
    | MissingField(field: string)
    | UnsupportedType(rtype: string, supported: seq<string>)
    | BadName(name: string)
    | BadTtl(ttl: Json)
    | BadProxied(proxied: Json)
    | BadAddress(rtype: string, content: string)
    | BadCnameTarget(content: string)
    | MissingPriority
    | BadPriority(priority: Json)

  const RequiredFields: seq<string> := ["type", "name", "content", "ttl"]

  predicate HasField(r: RecordIn, field: string) {
    (field == "type" && r.rtype.Some?) || (field == "name" && r.name.Some?) ||
    (field == "content" && r.content.Some?) || (field == "ttl" && r.ttl.Some?)
  }

  predicate Complete(r: RecordIn) {
    r.rtype.Some? && r.name.Some? && r.content.Some? && r.ttl.Some?
  }

  /** One `MissingField` per absent field of `fields`, in order. */
  function MissingAmong(r: RecordIn, fields: seq<string>): (ps: seq<RecordProblem>)
    ensures forall p :: p in ps ==> p.MissingField?
    ensures forall f :: MissingField(f) in ps <==> f in fields && !HasField(r, f)
    ensures ps == [] <==> forall i :: 0 <= i < |fields| ==> HasField(r, fields[i])
    decreases |fields|
  {
    if fields == [] then []
    else
      var init := fields[..|fields| - 1];
      var f := fields[|fields| - 1];
      assert fields == init + [f];
      MissingAmong(r, init) + if HasField(r, f) then [] else [MissingField(f)]
  }

  lemma NothingMissing(r: RecordIn)
    ensures MissingAmong(r, RequiredFields) == [] <==> Complete(r)
  {
    if Complete(r) {
      forall i | 0 <= i < |RequiredFields| ensures HasField(r, RequiredFields[i]) {
      }
    } else {
      assert !HasField(r, RequiredFields[0]) || !HasField(r, RequiredFields[1]) ||
             !HasField(r, RequiredFields[2]) || !HasField(r, RequiredFields[3]);
    }
  }

  predicate TtlOk(ttl: Json) {
    IsPyInt(ttl) && 60 <= PyIntValue(ttl) <= 86400
  }

  predicate PriorityOk(priority: Json) {
    IsPyInt(priority) && 0 <= PyIntValue(priority) <= 65535
  }

  /** The checks that depend on the record type. */
  function ContentErrors(rtype: string, content: string, priority: Option<Json>, ipv6: set<string>): (ps: seq<RecordProblem>)
    ensures |ps| <= 1
    ensures forall p :: p in ps ==> p.BadAddress? || p.BadCnameTarget? || p.MissingPriority? || p.BadPriority?
  {
    if rtype == "A" || rtype == "AAAA" then
      if IsValidIp(content, ipv6) then [] else [BadAddress(rtype, content)]
    else if rtype == "CNAME" then
      if !EndsWith(content, ".") && !IsCnameTarget(content) then [BadCnameTarget(content)] else []
    else if rtype == "MX" then
      if priority.None? then [MissingPriority]
      else if !PriorityOk(priority.value) then [BadPriority(priority.value)]
      else []
    else []
  }

  /** The checks every complete record goes through: type, name, TTL and
      `proxied`, in order. */
  function CommonErrors(r: RecordIn, types: seq<string>): (ps: seq<RecordProblem>)
    requires Complete(r)
    ensures forall p :: p in ps ==> p.UnsupportedType? || p.BadName? || p.BadTtl? || p.BadProxied?
  {
    var t, n, ttl := r.rtype.value, r.name.value, r.ttl.value;
    (if t in types then [] else [UnsupportedType(t, types)]) +
    (if IsValidDomainName(n) then [] else [BadName(n)]) +
    (if TtlOk(ttl) then [] else [BadTtl(ttl)]) +
    (if r.proxied.Some? && !r.proxied.value.JBool? then [BadProxied(r.proxied.value)] else [])
  }

  /** The checks made once every required field is present. */
  function CheckedErrors(r: RecordIn, types: seq<string>, ipv6: set<string>): seq<RecordProblem>
    requires Complete(r)
  {
    CommonErrors(r, types) + ContentErrors(r.rtype.value, r.content.value, r.priority, ipv6)
  }

  /** What `validate_record` reports: the missing required fields alone, or
      else the type, name, TTL, `proxied` and type-specific checks in order. */
  function RecordErrors(r: RecordIn, types: seq<string>, ipv6: set<string>): seq<RecordProblem> {
    var missing := MissingAmong(r, RequiredFields);
    if missing != [] then missing
    else
      NothingMissing(r);
      CheckedErrors(r, types, ipv6)
  }

  /** The required-field loop of `validate_record`. */
  method MissingFields(r: RecordIn) returns (errors: seq<RecordProblem>)
    ensures errors == MissingAmong(r, RequiredFields)
  {
    errors := [];
    for i := 0 to |RequiredFields|
      invariant errors == MissingAmong(r, RequiredFields[..i])
    {
      assert RequiredFields[..i + 1][..i] == RequiredFields[..i];
      if !HasField(r, RequiredFields[i]) {
        errors := errors + [MissingField(RequiredFields[i])];
      }
    }
    assert RequiredFields[..|RequiredFields|] == RequiredFields;
  }

  /** The type-specific branch of `validate_record`. */
  method CheckContent(rtype: string, content: string, priority: Option<Json>, ipv6: set<string>)
    returns (errors: seq<RecordProblem>)
    ensures errors == ContentErrors(rtype, content, priority, ipv6)
  {
    errors := [];
    if rtype == "A" {
      if !IsValidIp(content, ipv6) { errors := [BadAddress(rtype, content)]; }
    } else if rtype == "AAAA" {
      if !IsValidIp(content, ipv6) { errors := [BadAddress(rtype, content)]; }
    } else if rtype == "CNAME" {
      if !EndsWith(content, ".") && !IsCnameTarget(content) { errors := [BadCnameTarget(content)]; }
    } else if rtype == "MX" {
      if priority.None? {
        errors := [MissingPriority];
      } else if !PriorityOk(priority.value) {
        errors := [BadPriority(priority.value)];
      }
    }
  }

  /** The checks of `validate_record` that every complete record goes through. */
  method CheckCommon(r: RecordIn, types: seq<string>) returns (errors: seq<RecordProblem>)
    requires Complete(r)
    ensures errors == CommonErrors(r, types)
  {
    var t, n, ttl := r.rtype.value, r.name.value, r.ttl.value;
    errors := [];
    if t !in types {
      errors := errors + [UnsupportedType(t, types)];
    }
    if !IsValidDomainName(n) {
      errors := errors + [BadName(n)];
    }
    if !TtlOk(ttl) {
      errors := errors + [BadTtl(ttl)];
    }
    if r.proxied.Some? && !r.proxied.value.JBool? {
      errors := errors + [BadProxied(r.proxied.value)];
    }
  }

  /** `validate_record(record, config)` */
  method ValidateRecord(r: RecordIn, config: ProjectConfig, ipv6: set<string>)
    returns (valid: bool, errors: seq<RecordProblem>)
    ensures errors == RecordErrors(r, config.recordTypes.GetOr([]), ipv6)
    ensures valid <==> errors == []
  {
    errors := MissingFields(r);
    if errors != [] {
      return false, errors;
    }
    NothingMissing(r);
    var commonErrors := CheckCommon(r, config.recordTypes.GetOr([]));
    var contentErrors := CheckContent(r.rtype.value, r.content.value, r.priority, ipv6);
    errors := commonErrors + contentErrors;
    valid := |errors| == 0;
  }

  /** A record with a required field missing is reported for its missing fields
      and nothing else. */
  lemma MissingFieldsOnly(r: RecordIn, types: seq<string>, ipv6: set<string>)
    requires !Complete(r)
    ensures RecordErrors(r, types, ipv6) != []
    ensures forall p :: p in RecordErrors(r, types, ipv6) ==> p.MissingField?
    ensures forall f :: MissingField(f) in RecordErrors(r, types, ipv6) <==> f in RequiredFields && !HasField(r, f)
  {
    NothingMissing(r);
  }

  /** For a complete record: the type must be listed, the name valid, the TTL an
      integer in [60, 86400], and `proxied`, when given, a boolean. */
  lemma CompleteRecordChecks(r: RecordIn, types: seq<string>, ipv6: set<string>)
    requires Complete(r)
    ensures var es := RecordErrors(r, types, ipv6);
      && (UnsupportedType(r.rtype.value, types) in es <==> r.rtype.value !in types)
      && (BadName(r.name.value) in es <==> !IsValidDomainName(r.name.value))
      && (BadTtl(r.ttl.value) in es <==> !TtlOk(r.ttl.value))
      && ((exists p :: p in es && p.BadProxied?) <==> r.proxied.Some? && !r.proxied.value.JBool?)
      && forall p :: p in es ==> !p.MissingField?
  {
    NothingMissing(r);
    CommonChecks(r, types);
    var common := CommonErrors(r, types);
    var content := ContentErrors(r.rtype.value, r.content.value, r.priority, ipv6);
    assert RecordErrors(r, types, ipv6) == common + content;
  }

  lemma CommonChecks(r: RecordIn, types: seq<string>)
    requires Complete(r)
    ensures var es := CommonErrors(r, types);
      && (UnsupportedType(r.rtype.value, types) in es <==> r.rtype.value !in types)
      && (BadName(r.name.value) in es <==> !IsValidDomainName(r.name.value))
      && (BadTtl(r.ttl.value) in es <==> !TtlOk(r.ttl.value))
      && ((exists p :: p in es && p.BadProxied?) <==> r.proxied.Some? && !r.proxied.value.JBool?)
  {
    var es := CommonErrors(r, types);
    if r.proxied.Some? && !r.proxied.value.JBool? {
      assert BadProxied(r.proxied.value) in es;
    }
  }

  /** The type-specific checks: an A or AAAA record needs an address, a CNAME
      record a host name unless it ends in a dot, and an MX record a priority
      that is an integer in [0, 65535]; no other type is asked for a priority. */
  lemma ContentChecks(rtype: string, content: string, priority: Option<Json>, ipv6: set<string>)
    ensures var es := ContentErrors(rtype, content, priority, ipv6);
      && ((rtype == "A" || rtype == "AAAA") ==> (es == [] <==> IsValidIp(content, ipv6)))
      && (rtype == "CNAME" ==> (es == [] <==> EndsWith(content, ".") || IsCnameTarget(content)))
      && (rtype == "MX" ==> (MissingPriority in es <==> priority.None?))
      && (rtype == "MX" ==> ((exists p :: p in es && p.BadPriority?) <==> priority.Some? && !PriorityOk(priority.value)))
      && (rtype != "MX" ==> forall p :: p in es ==> !p.MissingPriority? && !p.BadPriority?)
      && (rtype !in ["A", "AAAA", "CNAME", "MX"] ==> es == [])
  {
    var es := ContentErrors(rtype, content, priority, ipv6);
    if rtype == "MX" && priority.Some? && !PriorityOk(priority.value) {
      assert BadPriority(priority.value) in es;
    }
  }

  /** An AAAA record is checked with the same address test as an A record, so
      an IPv4 address passes as its content. */
  lemma AaaaTakesIpv4(content: string, priority: Option<Json>, ipv6: set<string>)
    requires IsIpv4(content)
    ensures ContentErrors("AAAA", content, priority, ipv6) == []
  {
  }

  // ---------------------------------------------------------------- one file

  datatype Owner = Owner(name: Option<string>, github: Option<string>, email: Option<string>)

  /** A subdomain file as loaded; a key the object leaves out is `None`. */
  datatype SubdomainFile = SubdomainFile(owner: Option<Owner>, records: Option<seq<RecordIn>>)

  /** What `load_json_file` gave: the content, or the error message. */
  datatype Loaded<T> = Loaded(value: T) | LoadFailed(message: string)

  datatype ConfigProblem =
    | Unreadable(message: string)
    | MissingOwner
    | MissingOwnerField(field: string)
    | BadGithub(github: string)
    | BadEmail(email: string)
    | MissingRecords
    | TooManyRecords(count: nat, max: int)
    | InRecord(index: nat, problem: RecordProblem)

  const OwnerFields: seq<string> := ["name", "github", "email"]

  predicate HasOwnerField(o: Owner, field: string) {
    (field == "name" && o.name.Some?) || (field == "github" && o.github.Some?) || (field == "email" && o.email.Some?)
  }

  function OwnerMissingAmong(o: Owner, fields: seq<string>): (ps: seq<ConfigProblem>)
    ensures forall p :: p in ps ==> p.MissingOwnerField?
    ensures forall f :: MissingOwnerField(f) in ps <==> f in fields && !HasOwnerField(o, f)
    decreases |fields|
  {
    if fields == [] then []
    else
      var init := fields[..|fields| - 1];
      var f := fields[|fields| - 1];
      assert fields == init + [f];
      OwnerMissingAmong(o, init) + if HasOwnerField(o, f) then [] else [MissingOwnerField(f)]
  }

  function OwnerErrors(owner: Option<Owner>): seq<ConfigProblem> {
    if owner.None? then [MissingOwner]
    else
      var o := owner.value;
      OwnerMissingAmong(o, OwnerFields) +
      (if o.github.Some? && !IsValidGithubUsername(o.github.value) then [BadGithub(o.github.value)] else []) +
      (if o.email.Some? && !Common.IsValidEmail(o.email.value) then [BadEmail(o.email.value)] else [])
  }

  /** A record's problems, each tagged with the record's 1-based position. */
  function Prefixed(index: nat, ps: seq<RecordProblem>): (r: seq<ConfigProblem>)
    ensures |r| == |ps| && forall i :: 0 <= i < |ps| ==> r[i] == InRecord(index, ps[i])
  {
    seq(|ps|, i requires 0 <= i < |ps| => InRecord(index, ps[i]))
  }

  /** The problem lists of consecutive records, each tagged with the record's
      1-based position, in order. */
  function Tagged(ess: seq<seq<RecordProblem>>): seq<ConfigProblem>
    decreases |ess|
  {
    if ess == [] then []
    else Tagged(ess[..|ess| - 1]) + Prefixed(|ess|, ess[|ess| - 1])
  }

  /** The problems of each record. */
  function EachRecordErrors(rs: seq<RecordIn>, types: seq<string>, ipv6: set<string>): (r: seq<seq<RecordProblem>>)
    ensures |r| == |rs| && forall i :: 0 <= i < |rs| ==> r[i] == RecordErrors(rs[i], types, ipv6)
  {
    seq(|rs|, i requires 0 <= i < |rs| => RecordErrors(rs[i], types, ipv6))
  }

  /** The problems of every record, in order. */
  function AllRecordErrors(rs: seq<RecordIn>, types: seq<string>, ipv6: set<string>): seq<ConfigProblem> {
    Tagged(EachRecordErrors(rs, types, ipv6))
  }

  function MaxRecords(config: ProjectConfig): int {
    config.maxRecords.GetOr(10)
  }

  function RecordsErrors(records: Option<seq<RecordIn>>, config: ProjectConfig, ipv6: set<string>): seq<ConfigProblem> {
    if records.None? then [MissingRecords]
    else
      var rs := records.value;
      (if |rs| > MaxRecords(config) then [TooManyRecords(|rs|, MaxRecords(config))] else []) +
      AllRecordErrors(rs, config.recordTypes.GetOr([]), ipv6)
  }

  /** What `validate_domain_config` reports for a loaded (or unreadable) file. */
  function ConfigErrors(loaded: Loaded<SubdomainFile>, config: ProjectConfig, ipv6: set<string>): seq<ConfigProblem> {
    if loaded.LoadFailed? then [Unreadable(loaded.message)]
    else OwnerErrors(loaded.value.owner) + RecordsErrors(loaded.value.records, config, ipv6)
  }

  /** The owner checks of `validate_domain_config`. */
  method CheckOwner(owner: Option<Owner>) returns (errors: seq<ConfigProblem>)
    ensures errors == OwnerErrors(owner)
  {
    if owner.None? {
      return [MissingOwner];
    }
    var o := owner.value;
    errors := MissingOwnerFields(o);
    if o.github.Some? && !IsValidGithubUsername(o.github.value) {
      errors := errors + [BadGithub(o.github.value)];
    }
    if o.email.Some? && !Common.IsValidEmail(o.email.value) {
      errors := errors + [BadEmail(o.email.value)];
    }
  }

  /** The loop over the required owner fields. */
  method MissingOwnerFields(o: Owner) returns (errors: seq<ConfigProblem>)
    ensures errors == OwnerMissingAmong(o, OwnerFields)
  {
    errors := [];
    for i := 0 to |OwnerFields|
      invariant errors == OwnerMissingAmong(o, OwnerFields[..i])
    {
      assert OwnerFields[..i + 1][..i] == OwnerFields[..i];
      if !HasOwnerField(o, OwnerFields[i]) {
        errors := errors + [MissingOwnerField(OwnerFields[i])];
      }
    }
    assert OwnerFields[..|OwnerFields|] == OwnerFields;
  }

  /** The record checks of `validate_domain_config`: the count, then each
      record's problems under its 1-based position. */
  method CheckRecords(records: Option<seq<RecordIn>>, config: ProjectConfig, ipv6: set<string>)
    returns (errors: seq<ConfigProblem>)
    ensures errors == RecordsErrors(records, config, ipv6)
  {
    if records.None? {
      return [MissingRecords];
    }
    var rs := records.value;
    var max := config.maxRecords.GetOr(10);
    errors := [];
    if |rs| > max {
      errors := [TooManyRecords(|rs|, max)];
    }
    var recordErrors := CheckEachRecord(rs, config, ipv6);
    errors := errors + recordErrors;
  }

  /** The loop of `validate_domain_config` over the records. */
  method CheckEachRecord(rs: seq<RecordIn>, config: ProjectConfig, ipv6: set<string>)
    returns (errors: seq<ConfigProblem>)
    ensures errors == AllRecordErrors(rs, config.recordTypes.GetOr([]), ipv6)
  {
    errors := [];
    ghost var ess := EachRecordErrors(rs, config.recordTypes.GetOr([]), ipv6);
    for i := 0 to |rs|
      invariant errors == Tagged(ess[..i])
    {
      var ok, recordErrors := ValidateRecord(rs[i], config, ipv6);
      TaggedStep(ess, i);
      if !ok {
        var tagged := PrefixAll(i + 1, recordErrors);
        errors := errors + tagged;
      } else {
        assert Prefixed(i + 1, recordErrors) == [];
      }
    }
    assert ess[..|ess|] == ess;
  }

  lemma TaggedStep(ess: seq<seq<RecordProblem>>, i: nat)
    requires i < |ess|
    ensures Tagged(ess[..i + 1]) == Tagged(ess[..i]) + Prefixed(i + 1, ess[i])
  {
    assert ess[..i + 1][..i] == ess[..i];
  }

  /** The loop that tags a record's problems with its position. */
  method PrefixAll(index: nat, ps: seq<RecordProblem>) returns (tagged: seq<ConfigProblem>)
    ensures tagged == Prefixed(index, ps)
  {
    tagged := [];
    for j := 0 to |ps|
      invariant tagged == Prefixed(index, ps[..j])
    {
      tagged := tagged + [InRecord(index, ps[j])];
    }
    assert ps[..|ps|] == ps;
  }

  /** `validate_domain_config(file_path, config)` */
  method ValidateDomainConfig(loaded: Loaded<SubdomainFile>, config: ProjectConfig, ipv6: set<string>)
    returns (valid: bool, errors: seq<ConfigProblem>)
    ensures errors == ConfigErrors(loaded, config, ipv6)
    ensures valid <==> errors == []
  {
    if loaded.LoadFailed? {
      return false, [Unreadable(loaded.message)];
    }
    var ownerErrors := CheckOwner(loaded.value.owner);
    var recordErrors := CheckRecords(loaded.value.records, config, ipv6);
    errors := ownerErrors + recordErrors;
    valid := |errors| == 0;
  }

  lemma {:induction false} TaggedIndexed(ess: seq<seq<RecordProblem>>)
    ensures forall p :: p in Tagged(ess) ==> p.InRecord?
    ensures forall k: nat, q :: InRecord(k, q) in Tagged(ess) <==> 1 <= k <= |ess| && q in ess[k - 1]
    decreases |ess|
  {
    if ess != [] {
      var n := |ess| - 1;
      var init := ess[..n];
      TaggedIndexed(init);
      var last := Prefixed(|ess|, ess[n]);
      forall k: nat, q ensures InRecord(k, q) in last <==> k == |ess| && q in ess[n] {
        if InRecord(k, q) in last {
          var i :| 0 <= i < |last| && last[i] == InRecord(k, q);
        }
        if k == |ess| && q in ess[n] {
          var i :| 0 <= i < |ess[n]| && ess[n][i] == q;
          assert last[i] == InRecord(k, q);
        }
      }
      forall i | 0 <= i < n ensures init[i] == ess[i] {
      }
    }
  }

  /** Every record problem is reported under the 1-based position of its
      record, beside the owner and record-count problems. */
  lemma RecordProblemsIndexed(file: SubdomainFile, config: ProjectConfig, ipv6: set<string>)
    requires file.records.Some?
    ensures var es := ConfigErrors(Loaded(file), config, ipv6);
      var rs := file.records.value;
      forall k: nat, q :: InRecord(k, q) in es <==>
        1 <= k <= |rs| && q in RecordErrors(rs[k - 1], config.recordTypes.GetOr([]), ipv6)
  {
    var rs := file.records.value;
    var ess := EachRecordErrors(rs, config.recordTypes.GetOr([]), ipv6);
    TaggedIndexed(ess);
    ConfigErrorsShape(file, config, ipv6);
    var es := ConfigErrors(Loaded(file), config, ipv6);
    forall k: nat, q
      ensures InRecord(k, q) in es <==> 1 <= k <= |rs| && q in RecordErrors(rs[k - 1], config.recordTypes.GetOr([]), ipv6)
    {
      assert InRecord(k, q) in es <==> InRecord(k, q) in Tagged(ess);
      if 1 <= k <= |rs| {
        assert ess[k - 1] == RecordErrors(rs[k - 1], config.recordTypes.GetOr([]), ipv6);
      }
    }
  }

  /** A loaded file's problems: the owner's, then the record count's, then the
      tagged record problems, with no owner problem mistaken for the others. */
  lemma ConfigErrorsShape(file: SubdomainFile, config: ProjectConfig, ipv6: set<string>)
    requires file.records.Some?
    ensures var rs := file.records.value;
      ConfigErrors(Loaded(file), config, ipv6) ==
        OwnerErrors(file.owner) +
        ((if |rs| > MaxRecords(config) then [TooManyRecords(|rs|, MaxRecords(config))] else []) +
         Tagged(EachRecordErrors(rs, config.recordTypes.GetOr([]), ipv6)))
    ensures forall p :: p in OwnerErrors(file.owner) ==> !p.InRecord? && !p.TooManyRecords?
  {
    if file.owner.Some? {
      var o := file.owner.value;
      assert forall p :: p in OwnerMissingAmong(o, OwnerFields) ==> p.MissingOwnerField?;
    }
  }

  /** More records than the limit (10 unless configured) is one problem. */
  lemma RecordLimit(file: SubdomainFile, config: ProjectConfig, ipv6: set<string>)
    requires file.records.Some?
    ensures var es := ConfigErrors(Loaded(file), config, ipv6);
      var n := |file.records.value|;
      && (TooManyRecords(n, MaxRecords(config)) in es <==> n > MaxRecords(config))
      && (config.maxRecords.None? ==> (TooManyRecords(n, 10) in es <==> n > 10))
  {
    var ess := EachRecordErrors(file.records.value, config.recordTypes.GetOr([]), ipv6);
    TaggedIndexed(ess);
    ConfigErrorsShape(file, config, ipv6);
    assert TooManyRecords(|file.records.value|, MaxRecords(config)) !in Tagged(ess);
  }

  // ---------------------------------------------------------------- a pull request

  datatype PrProblem =
    | FileMissing(path: string)
    | OutsideDomains
    | BadLayout
    | NoDomainsDir
    | UnsupportedDomain(domain: string)
    | DomainClosed(domain: string)
    | NotJson
    | BadSubdomain(subdomain: string)
    | InFile(problem: ConfigProblem)

  /** The `(domain, filename)` candidates a PR path is cut into. The second and
      third ways are never reached once the first test has failed (see
      `BackslashPathsNormalised`); the third raises when it finds nothing. */
  function PrPathParts(path: string): Option<seq<string>> {
    var norm := ReplaceChar(path, '\\', '/');
    if Contains(norm, "/domains/") then Some(Split(SplitOn(norm, "/domains/")[1], '/'))
    else if Contains(path, "\\domains\\") then Some(Split(SplitOn(path, "\\domains\\")[1], '\\'))
    else
      var pathParts := Split(norm, '/');
      var i := Common.FindPart(pathParts, "domains");
      if i != -1 && i + 2 < |pathParts| then Some(pathParts[i + 1..i + 3]) else None
  }

  /** A path with `\domains\` in it has `/domains/` once backslashes are read as
      slashes, so only the first way of cutting is ever used. */
  lemma BackslashPathsNormalised(path: string)
    requires Contains(path, "\\domains\\")
    ensures Contains(ReplaceChar(path, '\\', '/'), "/domains/")
  {
    var norm := ReplaceChar(path, '\\', '/');
    var j := FindFrom(path, "\\domains\\", 0);
    assert OccursAt(path, "\\domains\\", j);
    var w := path[j..j + 9];
    assert norm[j..j + 9] == ReplaceChar(w, '\\', '/') by {
      forall k | 0 <= k < 9 ensures norm[j..j + 9][k] == ReplaceChar(w, '\\', '/')[k] {
        assert w[k] == path[j + k];
      }
    }
    SlashedDomains();
    assert OccursAt(norm, "/domains/", j);
  }

  /** `\domains\` with its backslashes read as slashes. */
  lemma SlashedDomains()
    ensures ReplaceChar("\\domains\\", '\\', '/') == "/domains/"
  {
    var r := ReplaceChar("\\domains\\", '\\', '/');
    assert r[0] == '/' && r[1] == 'd' && r[2] == 'o' && r[3] == 'm' && r[4] == 'a';
    assert r[5] == 'i' && r[6] == 'n' && r[7] == 's' && r[8] == '/';
  }

  /** The checks on where a PR file sits, the first failure deciding. */
  function PlacementError(path: string, config: ProjectConfig): Option<PrProblem> {
    var norm := ReplaceChar(path, '\\', '/');
    if !Contains(norm, "/domains/") && !Contains(path, "\\domains\\") then Some(OutsideDomains)
    else
      var parts := PrPathParts(path);
      if parts.None? then Some(NoDomainsDir)
      else if |parts.value| != 2 then Some(BadLayout)
      else
        var domain, filename := parts.value[0], parts.value[1];
        var entry := FirstNamed(config.domains, domain);
        if entry.None? then Some(UnsupportedDomain(domain))
        else if !entry.value.enabled.GetOr(false) then Some(DomainClosed(domain))
        else if !EndsWith(filename, ".json") then Some(NotJson)
        else
          var sub := filename[..|filename| - 5];
          if !IsValidDomainName(sub) then Some(BadSubdomain(sub)) else None
  }

  /** A PR file sits at `.../domains/<domain>/<name>.json` for a configured,
      enabled domain and a valid subdomain name. */
  predicate WellPlaced(path: string, config: ProjectConfig) {
    var norm := ReplaceChar(path, '\\', '/');
    && Contains(norm, "/domains/")
    && var parts := Split(SplitOn(norm, "/domains/")[1], '/');
    && |parts| == 2
    && var entry := FirstNamed(config.domains, parts[0]);
    && entry.Some? && entry.value.enabled == Some(true)
    && EndsWith(parts[1], ".json")
    && IsValidDomainName(parts[1][..|parts[1]| - 5])
  }

  lemma PlacementPasses(path: string, config: ProjectConfig)
    ensures PlacementError(path, config).None? <==> WellPlaced(path, config)
  {
    if Contains(path, "\\domains\\") {
      BackslashPathsNormalised(path);
    }
  }

  /** What `validate_pull_request` records for one file: that it is missing,
      where it sits wrongly, or else its content problems. */
  function FileErrors(path: string, config: ProjectConfig, files: map<string, Loaded<SubdomainFile>>,
                      ipv6: set<string>): seq<PrProblem>
  {
    if path !in files then [FileMissing(path)]
    else if PlacementError(path, config).Some? then [PlacementError(path, config).value]
    else InFileAll(ConfigErrors(files[path], config, ipv6))
  }

  function InFileAll(es: seq<ConfigProblem>): (r: seq<PrProblem>)
    ensures |r| == |es| && forall i :: 0 <= i < |es| ==> r[i] == InFile(es[i])
  {
    seq(|es|, i requires 0 <= i < |es| => InFile(es[i]))
  }

  /** A file passes iff it exists, sits at `.../domains/<domain>/<name>.json`
      for a configured, enabled domain and a valid name, and its content has no
      problems. */
  lemma FilePasses(path: string, config: ProjectConfig, files: map<string, Loaded<SubdomainFile>>, ipv6: set<string>)
    ensures FileErrors(path, config, files, ipv6) == [] <==>
      path in files && WellPlaced(path, config) && ConfigErrors(files[path], config, ipv6) == []
  {
    PlacementPasses(path, config);
  }

  /** One PR file, checked as the loop body does, with the configuration
      search written as the loop the source has. */
  method CheckPrFile(path: string, config: ProjectConfig, files: map<string, Loaded<SubdomainFile>>,
                     ipv6: set<string>) returns (errors: seq<PrProblem>)
    ensures errors == FileErrors(path, config, files, ipv6)
  {
    if path !in files {
      return [FileMissing(path)];
    }
    var placement := CheckPlacement(path, config);
    if placement.Some? {
      return [placement.value];
    }
    errors := ContentProblems(files[path], config, ipv6);
  }

  /** The placement checks of one PR file, in the order the loop body makes them. */
  method CheckPlacement(path: string, config: ProjectConfig) returns (problem: Option<PrProblem>)
    ensures problem == PlacementError(path, config)
  {
    var norm := ReplaceChar(path, '\\', '/');
    if !Contains(norm, "/domains/") && !Contains(path, "\\domains\\") {
      return Some(OutsideDomains);
    }
    var parts := PrPathParts(path);
    if parts.None? {
      return Some(NoDomainsDir);
    }
    if |parts.value| != 2 {
      return Some(BadLayout);
    }
    var domain, filename := parts.value[0], parts.value[1];
    var entry := FindDomain(config.domains, domain);
    if entry.None? {
      return Some(UnsupportedDomain(domain));
    }
    if !entry.value.enabled.GetOr(false) {
      return Some(DomainClosed(domain));
    }
    if !EndsWith(filename, ".json") {
      return Some(NotJson);
    }
    var sub := filename[..|filename| - 5];
    if !IsValidDomainName(sub) {
      return Some(BadSubdomain(sub));
    }
    return None;
  }

  /** The content problems of a well-placed file, each tagged as in-file. */
  method ContentProblems(loaded: Loaded<SubdomainFile>, config: ProjectConfig, ipv6: set<string>)
    returns (errors: seq<PrProblem>)
    ensures errors == InFileAll(ConfigErrors(loaded, config, ipv6))
  {
    var valid, configErrors := ValidateDomainConfig(loaded, config, ipv6);
    errors := [];
    if !valid {
      for i := 0 to |configErrors|
        invariant |errors| == i && forall k :: 0 <= k < i ==> errors[k] == InFile(configErrors[k])
      {
        errors := errors + [InFile(configErrors[i])];
      }
    }
    assert errors == InFileAll(configErrors);
  }

  /** The results dictionary and the verdict `validate_pull_request` builds
      from the files' problem lists, one file after the other: a file with
      problems stores them and makes the request invalid; a passing file gets an
      empty entry unless it already has one. */
  function Collect(paths: seq<string>, errs: seq<seq<PrProblem>>): (bool, Dict<string, seq<PrProblem>>)
    requires |paths| == |errs|
    decreases |paths|
  {
    if paths == [] then (true, [])
    else
      var n := |paths| - 1;
      var prev := Collect(paths[..n], errs[..n]);
      if errs[n] != [] then (false, Put(prev.1, paths[n], errs[n]))
      else if paths[n] !in Keys(prev.1) then (prev.0, Put(prev.1, paths[n], []))
      else prev
  }

  /** Files that are listed twice have the same problems. */
  predicate Consistent(paths: seq<string>, errs: seq<seq<PrProblem>>)
    requires |paths| == |errs|
  {
    forall i, j :: 0 <= i < j < |paths| && paths[i] == paths[j] ==> errs[i] == errs[j]
  }

  /** The request is valid iff no file has a problem. */
  lemma {:induction false} CollectVerdict(paths: seq<string>, errs: seq<seq<PrProblem>>)
    requires |paths| == |errs|
    ensures Collect(paths, errs).0 <==> forall i :: 0 <= i < |errs| ==> errs[i] == []
    decreases |paths|
  {
    if paths != [] {
      var n := |paths| - 1;
      CollectVerdict(paths[..n], errs[..n]);
      assert forall i :: 0 <= i < n ==> errs[..n][i] == errs[i];
    }
  }

  /** Every listed file, and no other, has exactly one entry. */
  lemma {:induction false} CollectKeys(paths: seq<string>, errs: seq<seq<PrProblem>>)
    requires |paths| == |errs|
    ensures DistinctKeys(Collect(paths, errs).1)
    ensures forall f :: f in Keys(Collect(paths, errs).1) <==> f in paths
    decreases |paths|
  {
    if paths != [] {
      var n := |paths| - 1;
      CollectKeys(paths[..n], errs[..n]);
      assert paths == paths[..n] + [paths[n]];
    }
  }

  /** Each listed file's entry holds its problems. */
  lemma {:induction false} CollectLookups(paths: seq<string>, errs: seq<seq<PrProblem>>)
    requires |paths| == |errs| && Consistent(paths, errs)
    ensures forall i :: 0 <= i < |paths| ==> Get(Collect(paths, errs).1, paths[i]) == Some(errs[i])
    decreases |paths|
  {
    if paths != [] {
      var n := |paths| - 1;
      var ps, es := paths[..n], errs[..n];
      assert Consistent(ps, es);
      CollectLookups(ps, es);
      CollectKeys(ps, es);
      var prev := Collect(ps, es);
      var r := Collect(paths, errs);
      CollectTurn(paths, errs);
      ResultRecorded(prev.1, paths[n], errs[n], r.1);
      forall i | 0 <= i < |paths| ensures Get(r.1, paths[i]) == Some(errs[i]) {
        if i == n {
        } else if paths[i] != paths[n] {
          assert Get(prev.1, ps[i]) == Some(es[i]);
          assert ps[i] == paths[i] && es[i] == errs[i];
          assert Get(r.1, paths[i]) == Get(prev.1, paths[i]);
        } else {
          assert errs[i] == errs[n];
        }
      }
    }
  }

  /** The last file's turn stores its problems, or finds them stored already. */
  lemma CollectTurn(paths: seq<string>, errs: seq<seq<PrProblem>>)
    requires |paths| == |errs| && paths != [] && Consistent(paths, errs)
    requires var n := |paths| - 1;
      forall i :: 0 <= i < n ==> Get(Collect(paths[..n], errs[..n]).1, paths[..n][i]) == Some(errs[..n][i])
    ensures var n := |paths| - 1;
      var prev := Collect(paths[..n], errs[..n]).1;
      var r := Collect(paths, errs).1;
      r == Put(prev, paths[n], errs[n]) || (r == prev && Get(prev, paths[n]) == Some(errs[n]))
  {
    var n := |paths| - 1;
    var ps, es := paths[..n], errs[..n];
    var prev := Collect(ps, es);
    CollectKeys(ps, es);
    if errs[n] == [] && paths[n] in Keys(prev.1) {
      var k :| 0 <= k < n && ps[k] == paths[n];
      assert Get(prev.1, ps[k]) == Some(es[k]);
      assert es[k] == errs[k];
    }
  }

  /** After a file's turn, its entry holds its problems and no other entry has
      changed. */
  lemma ResultRecorded(before: Dict<string, seq<PrProblem>>, path: string, errors: seq<PrProblem>,
                       after: Dict<string, seq<PrProblem>>)
    requires DistinctKeys(before)
    requires after == Put(before, path, errors) || (after == before && Get(before, path) == Some(errors))
    ensures DistinctKeys(after)
    ensures Keys(after) == Keys(before) + {path}
    ensures Get(after, path) == Some(errors)
    ensures forall k :: k != path ==> Get(after, k) == Get(before, k)
  {
  }

  /** The problems of each PR file. */
  function AllFileErrors(prFiles: seq<string>, config: ProjectConfig, files: map<string, Loaded<SubdomainFile>>,
                         ipv6: set<string>): (r: seq<seq<PrProblem>>)
    ensures |r| == |prFiles| && Consistent(prFiles, r)
    ensures forall i :: 0 <= i < |prFiles| ==> r[i] == FileErrors(prFiles[i], config, files, ipv6)
  {
    seq(|prFiles|, i requires 0 <= i < |prFiles| => FileErrors(prFiles[i], config, files, ipv6))
  }

  /** `validate_pull_request(pr_files, config)` */
  method ValidatePullRequest(prFiles: seq<string>, config: ProjectConfig,
                             files: map<string, Loaded<SubdomainFile>>, ipv6: set<string>)
    returns (allValid: bool, results: Dict<string, seq<PrProblem>>)
    ensures (allValid, results) == Collect(prFiles, AllFileErrors(prFiles, config, files, ipv6))
  {
    ghost var errs := AllFileErrors(prFiles, config, files, ipv6);
    allValid := true;
    results := [];
    for i := 0 to |prFiles|
      invariant (allValid, results) == Collect(prFiles[..i], errs[..i])
    {
      var path := prFiles[i];
      var errors := CheckPrFile(path, config, files, ipv6);
      assert errors == errs[i];
      CollectStep(prFiles, errs, i);
      if errors != [] {
        results := Put(results, path, errors);
        allValid := false;
      } else if path !in Keys(results) {
        results := Put(results, path, []);
      }
    }
    assert prFiles[..|prFiles|] == prFiles && errs[..|errs|] == errs;
  }

  /** One more file's turn in `Collect`. */
  lemma CollectStep(paths: seq<string>, errs: seq<seq<PrProblem>>, i: nat)
    requires |paths| == |errs| && i < |paths|
    ensures var prev := Collect(paths[..i], errs[..i]);
      Collect(paths[..i + 1], errs[..i + 1]) ==
        if errs[i] != [] then (false, Put(prev.1, paths[i], errs[i]))
        else if paths[i] !in Keys(prev.1) then (prev.0, Put(prev.1, paths[i], []))
        else prev
  {
    assert paths[..i + 1][..i] == paths[..i] && errs[..i + 1][..i] == errs[..i];
  }

  /** What the request's verdict and results dictionary say about its files. */
  lemma PullRequestResults(prFiles: seq<string>, config: ProjectConfig,
                           files: map<string, Loaded<SubdomainFile>>, ipv6: set<string>)
    ensures var r := Collect(prFiles, AllFileErrors(prFiles, config, files, ipv6));
      && (r.0 <==> forall i :: 0 <= i < |prFiles| ==> FileErrors(prFiles[i], config, files, ipv6) == [])
      && (forall f :: f in Keys(r.1) <==> f in prFiles)
      && forall i :: 0 <= i < |prFiles| ==> Get(r.1, prFiles[i]) == Some(FileErrors(prFiles[i], config, files, ipv6))
  {
    var errs := AllFileErrors(prFiles, config, files, ipv6);
    CollectVerdict(prFiles, errs);
    CollectKeys(prFiles, errs);
    CollectLookups(prFiles, errs);
  }
}

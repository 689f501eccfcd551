/** The shared helpers: name, e-mail and GitHub user name checks, and the
    reading of `domains/<domain>/<subdomain>.json` out of a file path. */
module Common {
  import opened Text
  import opened Patterns

  /** `is_valid_domain_name`: non-empty, at most 253 characters, dot-separated
      labels matched without regard to case. */
  predicate IsValidDomainName(domain: string) {
    domain != "" && |domain| <= 253 && IsDottedName(domain)
  }

  /** The emptiness test is implied by the pattern, which never matches `""`. */
  lemma DomainNameBounds(domain: string)
    ensures IsValidDomainName(domain) <==> |domain| <= 253 && IsDottedName(domain)
    ensures IsValidDomainName(domain) ==> 0 < |domain| <= 253
  {
    if IsDottedName(domain) {
      DottedNameNotEmpty(domain);
    }
  }

  /** Labels joined by dots make a valid domain name when the result is short enough. */
  lemma DomainNameOfLabels(labels: seq<string>)
    requires |labels| >= 1
    requires forall k :: 0 <= k < |labels| ==> IsLabel(Lower(labels[k]))
    requires |Join(labels, '.')| <= 253
    ensures IsValidDomainName(Join(labels, '.'))
  {
    DottedNameOfLabels(labels);
    DomainNameBounds(Join(labels, '.'));
  }

  /** `[n.lower() for n in names]`; the ensures is element-wise on purpose, and
      what the reserved check relies on is proved in `ReservedRefused`. */
  function LowerAll(names: seq<string>): (r: seq<string>)
    ensures |r| == |names| && forall i :: 0 <= i < |names| ==> r[i] == Lower(names[i])
  {
    seq(|names|, i requires 0 <= i < |names| => Lower(names[i]))
  }

  /** `is_valid_subdomain(subdomain, reserved_subdomains)`: `@` is accepted
      first; a name in the reserved list, compared without regard to case, is
      refused; otherwise the lowercased name must be a single label. An empty
      reserved list is the same as none. */
  predicate IsValidSubdomain(sub: string, reserved: seq<string>) {
    if sub == "@" then true
    else if |reserved| > 0 && Lower(sub) in LowerAll(reserved) then false
    else IsLabel(Lower(sub))
  }

  /** `@` is valid even when it is listed as reserved. */
  lemma AtIsValidSubdomain(reserved: seq<string>)
    ensures IsValidSubdomain("@", reserved)
  {
  }

  /** A reserved name is refused in any letter case. */
  lemma ReservedRefused(sub: string, reserved: seq<string>, k: nat)
    requires sub != "@" && k < |reserved| && EqualsIgnoreCase(reserved[k], sub)
    ensures !IsValidSubdomain(sub, reserved)
  {
    assert LowerAll(reserved)[k] == Lower(sub);
  }

  /** A valid subdomain other than `@` is exactly one label of a valid domain name. */
  lemma SubdomainIsOneLabel(sub: string, reserved: seq<string>)
    requires sub != "@" && IsValidSubdomain(sub, reserved)
    ensures '.' !in sub
    ensures IsValidDomainName(sub)
  {
    LabelHasNoDot(sub);
    assert Join([sub], '.') == sub;
    DomainNameOfLabels([sub]);
  }

  /** `is_valid_email` */
  predicate IsValidEmail(email: string) {
    IsEmail(email)
  }

  /** `is_valid_github_username` */
  predicate IsValidGithubUsername(username: string) {
    IsGithubUsername(username)
  }

  // ---------------------------------------------------------------- paths

  /** `os.path.splitext` with `/` as the separator: the extension starts at the
      last `.` of the last path component, unless only dots precede it there. */
  function Splitext(p: string): (r: (string, string))
    ensures r.0 + r.1 == p
    ensures r.1 == "" || (r.1[0] == '.' && '.' !in r.1[1..] && '/' !in r.1)
  {
    var sep := LastIndexOf(p, '/');
    var dot := LastIndexOf(p, '.');
    if dot > sep && exists k :: sep + 1 <= k < dot && p[k] != '.' then
      assert p[..dot] + p[dot..] == p;
      assert p[dot..][1..] == p[dot + 1..];
      (p[..dot], p[dot..])
    else (p, "")
  }

  predicate NotAllDots(s: string) {
    exists k :: 0 <= k < |s| && s[k] != '.'
  }

  /** A file name `<stem>.json` splits into its stem and `.json`. */
  lemma SplitextJson(stem: string)
    requires '/' !in stem && NotAllDots(stem)
    ensures Splitext(stem + ".json") == (stem, ".json")
  {
    var p := stem + ".json";
    assert p[|stem| + 1..] == "json";
    LastIndexOfAt(p, '.', |stem|);
    forall i | 0 <= i < |p| ensures p[i] != '/' {
      if i < |stem| { assert p[i] == stem[i]; assert stem[i] in stem; }
    }
    var k :| 0 <= k < |stem| && stem[k] != '.';
    assert p[k] != '.';
    assert p[..|stem|] == stem;
  }

  /** The path's segments, with `\` read as `/`. */
  function PathParts(path: string): seq<string> {
    Split(ReplaceChar(path, '\\', '/'), '/')
  }

  /** Index of the first segment equal to `x`, or -1. */
  function FindPart(parts: seq<string>, x: string): (r: int)
    ensures r == -1 <==> x !in parts
    ensures r != -1 ==> 0 <= r < |parts| && parts[r] == x && x !in parts[..r]
  {
    if |parts| == 0 then -1
    else if parts[0] == x then 0
    else
      var k := FindPart(parts[1..], x);
      assert parts == [parts[0]] + parts[1..];
      if k == -1 then -1
      else
        assert parts[..k + 1] == [parts[0]] + parts[1..][..k];
        k + 1
  }

  /** What `get_subdomain_from_path` returns: the segment after the first
      `domains` segment, and the one after that without its extension; or two
      empty strings when there is no `domains` segment or fewer than two
      segments follow it. */
  function SubdomainFromPath(path: string): (string, string) {
    var parts := PathParts(path);
    var i := FindPart(parts, "domains");
    if i == -1 || i + 2 >= |parts| then ("", "")
    else (parts[i + 1], Splitext(parts[i + 2]).0)
  }

  /** `get_subdomain_from_path` */
  method GetSubdomainFromPath(path: string) returns (domain: string, sub: string)
    ensures (domain, sub) == SubdomainFromPath(path)
  {
    var parts := Split(ReplaceChar(path, '\\', '/'), '/');
    var domainIndex := -1;
    var i := 0;
    while i < |parts|
      invariant 0 <= i <= |parts|
      invariant domainIndex == -1
      invariant "domains" !in parts[..i]
    {
      if parts[i] == "domains" {
        domainIndex := i;
        break;
      }
      assert parts[..i + 1] == parts[..i] + [parts[i]];
      i := i + 1;
    }
    if domainIndex != -1 {
      FindPartAt(parts, "domains", domainIndex);
    }
    assert domainIndex == -1 ==> "domains" !in parts by {
      if domainIndex == -1 { assert parts[..i] == parts; }
    }
    if domainIndex == -1 || domainIndex + 2 >= |parts| {
      return "", "";
    }
    domain := parts[domainIndex + 1];
    sub := Splitext(parts[domainIndex + 2]).0;
  }

  lemma {:induction false} FindPartAt(parts: seq<string>, x: string, i: nat)
    requires i < |parts| && parts[i] == x && x !in parts[..i]
    ensures FindPart(parts, x) == i
    decreases i
  {
    if i > 0 {
      assert parts[0] in parts[..i];
      assert parts[1..][..i - 1] == parts[..i][1..];
      FindPartAt(parts[1..], x, i - 1);
    }
  }

  /** A path segment: no `/` and no `\`. */
  predicate Segment(s: string) {
    '/' !in s && '\\' !in s
  }

  /** A path made of segments joined by `/` splits back into them, so the answer
      is read off the first `domains` segment. */
  lemma PathOfParts(parts: seq<string>, i: nat)
    requires forall k :: 0 <= k < |parts| ==> Segment(parts[k])
    requires i + 2 < |parts| && parts[i] == "domains" && "domains" !in parts[..i]
    ensures SubdomainFromPath(Join(parts, '/')) == (parts[i + 1], Splitext(parts[i + 2]).0)
  {
    var path := Join(parts, '/');
    JoinNoBackslash(parts);
    assert ReplaceChar(path, '\\', '/') == path by {
      forall j | 0 <= j < |path| ensures path[j] != '\\' { assert path[j] in path; }
    }
    JoinSplit(parts, '/');
    FindPartAt(parts, "domains", i);
  }

  /** A path `.../domains/<domain>/<stem>.json...` whose earlier segments are not
      `domains` gives back `<domain>` and `<stem>`. */
  lemma PathRoundTrip(before: seq<string>, domain: string, stem: string, after: seq<string>)
    requires forall k :: 0 <= k < |before| ==> Segment(before[k]) && before[k] != "domains"
    requires forall k :: 0 <= k < |after| ==> Segment(after[k])
    requires Segment(domain) && Segment(stem) && NotAllDots(stem)
    ensures var parts := before + ["domains", domain, stem + ".json"] + after;
      SubdomainFromPath(Join(parts, '/')) == (domain, stem)
  {
    var file := stem + ".json";
    JsonFileSegment(stem);
    var parts := before + ["domains", domain, file] + after;
    AllSegments(before, ["domains", domain, file], after);
    assert parts[..|before|] == before;
    assert parts[|before|] == "domains" && parts[|before| + 1] == domain && parts[|before| + 2] == file;
    PathOfParts(parts, |before|);
    SplitextJson(stem);
    var r := SubdomainFromPath(Join(parts, '/'));
    assert r == (parts[|before| + 1], Splitext(parts[|before| + 2]).0);
  }

  lemma JsonFileSegment(stem: string)
    requires Segment(stem)
    ensures Segment(stem + ".json")
  {
    var file := stem + ".json";
    forall j | 0 <= j < |file| ensures file[j] != '/' && file[j] != '\\' {
      if j < |stem| { assert file[j] == stem[j]; assert stem[j] in stem; }
    }
  }

  lemma AllSegments(a: seq<string>, b: seq<string>, c: seq<string>)
    requires forall k :: 0 <= k < |a| ==> Segment(a[k])
    requires forall k :: 0 <= k < |b| ==> Segment(b[k])
    requires forall k :: 0 <= k < |c| ==> Segment(c[k])
    ensures forall k :: 0 <= k < |a + b + c| ==> Segment((a + b + c)[k])
  {
  }

  lemma {:induction false} JoinNoBackslash(parts: seq<string>)
    requires forall k :: 0 <= k < |parts| ==> '\\' !in parts[k]
    ensures '\\' !in Join(parts, '/')
    decreases |parts|
  {
    if |parts| > 1 {
      JoinNoBackslash(parts[1..]);
      assert Join(parts, '/') == parts[0] + ['/'] + Join(parts[1..], '/');
    }
  }
}

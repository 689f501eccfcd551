/** Record names and the propagation check of the DNS utilities. The resolver is
    an oracle: the outcome of the lookup made on each attempt. */
module DnsUtils {
  import opened Values
  import opened Text
  import CloudflareManager

  /** `get_record_fqdn(domain, subdomain, name)`. */
  function GetRecordFqdn(domain: string, sub: string, name: string): (r: string)
    ensures EndsWith(r, domain)
    ensures name != "@" ==> StartsWith(r, name + ".")
    ensures sub != "@" ==> EndsWith(r, sub + "." + domain)
  {
    if name == "@" then
      if sub == "@" then domain else sub + "." + domain
    else
      if sub == "@" then name + "." + domain else name + "." + sub + "." + domain
  }

  /** The four cases, each stated on its own. */
  lemma FqdnCases(domain: string, sub: string, name: string)
    ensures name == "@" && sub == "@" ==> GetRecordFqdn(domain, sub, name) == domain
    ensures name == "@" && sub != "@" ==> GetRecordFqdn(domain, sub, name) == sub + "." + domain
    ensures name != "@" && sub == "@" ==> GetRecordFqdn(domain, sub, name) == name + "." + domain
    ensures name != "@" && sub != "@" ==> GetRecordFqdn(domain, sub, name) == name + "." + sub + "." + domain
  {
  }

  /** With the default name `@`, the name of a record is the name of its subdomain. */
  lemma FqdnDefaultName(domain: string, sub: string)
    ensures GetRecordFqdn(domain, sub, "@") == GetRecordFqdn(domain, "@", sub)
  {
  }

  /** The sync engine names records the same way, except for a record named `@`
      under a subdomain other than `@`, which it puts at the bare domain. */
  lemma FqdnAgreesWithSync(domain: string, sub: string, name: string)
    ensures !(name == "@" && sub != "@") ==> CloudflareManager.FullName(domain, sub, name) == GetRecordFqdn(domain, sub, name)
    ensures name == "@" && sub != "@" ==> CloudflareManager.FullName(domain, sub, name) != GetRecordFqdn(domain, sub, name)
  {
    if name == "@" && sub != "@" {
      assert |CloudflareManager.FullName(domain, sub, name)| < |GetRecordFqdn(domain, sub, name)|;
    }
  }

  // ---------------------------------------------------------------- matching

  /** What one attempt's lookup gave: the values (for MX, the exchanges), or an
      error, which covers both a returned error message and an exception. */
  datatype Lookup = Answer(values: seq<string>) | Failed

  /** The lookup of attempt `i`; attempts beyond the oracle fail. */
  function LookupAt(lookups: seq<Lookup>, i: nat): Lookup {
    if i < |lookups| then lookups[i] else Failed
  }

  /** The record types the check knows how to look up. */
  predicate IsChecked(rtype: string) {
    rtype == "A" || rtype == "AAAA" || rtype == "CNAME" || rtype == "TXT" || rtype == "MX"
  }

  /** CNAME and MX comparison: one trailing dot off each side, then case-insensitive. */
  predicate NameMatch(expected: string, actual: string) {
    Lower(StripTrailingDot(expected)) == Lower(StripTrailingDot(actual))
  }

  /** Whether a successful lookup satisfies the check: exact membership for A,
      AAAA and TXT, a `NameMatch` for CNAME and MX, never for other types. */
  predicate Matches(rtype: string, expected: string, values: seq<string>) {
    if rtype == "A" || rtype == "AAAA" || rtype == "TXT" then expected in values
    else if rtype == "CNAME" || rtype == "MX" then exists v :: v in values && NameMatch(expected, v)
    else false
  }

  predicate Hit(rtype: string, expected: string, l: Lookup) {
    l.Answer? && Matches(rtype, expected, l.values)
  }

  /** A trailing dot on either side makes no difference to a CNAME or MX match,
      and neither does letter case. */
  lemma NameMatchIgnoresDotAndCase(expected: string, actual: string)
    ensures NoTrailingDot(expected) ==> (NameMatch(expected + ".", actual) <==> NameMatch(expected, actual))
    ensures NoTrailingDot(actual) ==> (NameMatch(expected, actual + ".") <==> NameMatch(expected, actual))
    ensures NameMatch(expected, actual) <==> NameMatch(Upper(expected), Lower(actual))
    ensures NameMatch(expected, actual) <==> NameMatch(actual, expected)
  {
    StripTrailingDotAdded(expected);
    StripTrailingDotAdded(actual);
    LowerStrip(actual);
    LowerIdempotent(StripTrailingDot(actual));
    UpperStrip(expected);
    LowerUpper(StripTrailingDot(expected));
  }

  predicate NoTrailingDot(s: string) {
    |s| == 0 || s[|s| - 1] != '.'
  }

  lemma LowerStrip(s: string)
    ensures StripTrailingDot(Lower(s)) == Lower(StripTrailingDot(s))
  {
    if |s| > 0 && s[|s| - 1] == '.' {
      assert Lower(s)[..|s| - 1] == Lower(s[..|s| - 1]);
    }
  }

  lemma UpperStrip(s: string)
    ensures StripTrailingDot(Upper(s)) == Upper(StripTrailingDot(s))
  {
    if |s| > 0 && s[|s| - 1] == '.' {
      assert Upper(s)[..|s| - 1] == Upper(s[..|s| - 1]);
    }
  }

  lemma LowerUpper(s: string)
    ensures Lower(Upper(s)) == Lower(s)
  {
    assert forall i :: 0 <= i < |s| ==> LowerChar(UpperChar(s[i])) == LowerChar(s[i]);
  }

  /** Only one trailing dot is taken off: `a..` does not match `a`. */
  lemma OnlyOneDotStripped()
    ensures !NameMatch("a..", "a")
  {
    assert StripTrailingDot("a..") == "a.";
    assert Lower("a.")[1] == '.';
  }

  /** The loop over the CNAME values or MX exchanges. */
  method AnyNameMatch(expected: string, values: seq<string>) returns (found: bool)
    ensures found <==> exists v :: v in values && NameMatch(expected, v)
  {
    var target := Lower(StripTrailingDot(expected));
    var i := 0;
    while i < |values|
      invariant 0 <= i <= |values|
      invariant forall j :: 0 <= j < i ==> !NameMatch(expected, values[j])
    {
      if target == Lower(StripTrailingDot(values[i])) {
        assert values[i] in values && NameMatch(expected, values[i]);
        return true;
      }
      i := i + 1;
    }
    forall v | v in values ensures !NameMatch(expected, v) {
      var j :| 0 <= j < |values| && values[j] == v;
    }
    return false;
  }

  function TimeoutMessage(expected: string): string {
    "DNS 记录传播超时，未找到预期值 '" + expected + "'"
  }

  /** `check_dns_propagation`: up to `maxRetries` attempts, a failed lookup moves
      on to the next attempt, the first matching attempt ends the check.
      `attempts` counts the loop rounds run: each reads the lookup of that
      round when the type is one the check handles, and none for any other
      type; each round after the first is preceded by a `retry_delay` sleep. */
  method CheckPropagation(rtype: string, expected: string, maxRetries: int, lookups: seq<Lookup>)
    returns (ok: bool, error: Option<string>, attempts: nat)
    ensures ok <==> exists i :: 0 <= i < maxRetries && Hit(rtype, expected, LookupAt(lookups, i))
    ensures attempts <= if maxRetries < 0 then 0 else maxRetries
    ensures ok ==> error.None? && attempts > 0 && Hit(rtype, expected, LookupAt(lookups, attempts - 1)) &&
                   forall i :: 0 <= i < attempts - 1 ==> !Hit(rtype, expected, LookupAt(lookups, i))
    ensures !ok ==> error == Some(TimeoutMessage(expected)) && attempts == if maxRetries < 0 then 0 else maxRetries
    ensures !IsChecked(rtype) ==> !ok
  {
    var i := 0;
    while i < maxRetries
      invariant 0 <= i && (i <= maxRetries || i == 0)
      invariant forall j :: 0 <= j < i ==> !Hit(rtype, expected, LookupAt(lookups, j))
      decreases maxRetries - i
    {
      var l := LookupAt(lookups, i);
      if l.Answer? {
        var hit: bool;
        if rtype == "A" || rtype == "AAAA" || rtype == "TXT" {
          hit := expected in l.values;
        } else if rtype == "CNAME" || rtype == "MX" {
          hit := AnyNameMatch(expected, l.values);
        } else {
          hit := false;
        }
        if hit {
          return true, None, i + 1;
        }
      }
      i := i + 1;
    }
    return false, Some(TimeoutMessage(expected)), i;
  }
}

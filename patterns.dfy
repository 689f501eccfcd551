/** The regular expressions that several scripts share, each anchored at both
    ends (`^...$`) and so written as a predicate on the whole string: the DNS
    label, the dotted domain name, the IPv4 address, the e-mail address and the
    GitHub user name. Character classes are ASCII. */
module Patterns {
  import opened Text

  // ---------------------------------------------------------------- labels

  predicate IsLabelChar(c: char) { IsLowerAlnum(c) || c == '-' }

  /** `[a-z0-9]([a-z0-9-]{0,61}[a-z0-9])?`: 1 to 63 characters of `[a-z0-9-]`
      that neither start nor end with a hyphen. */
  predicate IsLabel(s: string) {
    1 <= |s| <= 63 && IsLowerAlnum(s[0]) && IsLowerAlnum(s[|s| - 1]) &&
    forall i :: 0 <= i < |s| ==> IsLabelChar(s[i])
  }

  /** `label(\.label)*`, or equally `(label\.)*label`, matched without regard to
      case: every dot-separated piece is a label once lowercased. */
  predicate IsDottedName(s: string) {
    forall p :: p in Split(s, '.') ==> IsLabel(Lower(p))
  }

  lemma LabelHasNoDot(p: string)
    requires IsLabel(Lower(p))
    ensures '.' !in p
  {
    forall i | 0 <= i < |p| ensures p[i] != '.' {
      assert Lower(p)[i] == LowerChar(p[i]);
    }
  }

  /** Dotted names are exactly the labels joined by dots: joining labels gives a
      dotted name that splits back into those labels. */
  lemma DottedNameOfLabels(labels: seq<string>)
    requires |labels| >= 1
    requires forall k :: 0 <= k < |labels| ==> IsLabel(Lower(labels[k]))
    ensures Split(Join(labels, '.'), '.') == labels
    ensures IsDottedName(Join(labels, '.'))
  {
    forall k | 0 <= k < |labels| ensures '.' !in labels[k] {
      LabelHasNoDot(labels[k]);
    }
    JoinSplit(labels, '.');
  }

  /** A dotted name is never empty and never has an empty label. */
  lemma DottedNameNotEmpty(s: string)
    requires IsDottedName(s)
    ensures |s| > 0
    ensures forall p :: p in Split(s, '.') ==> |p| > 0
  {
    var first := Split(s, '.')[0];
    assert first in Split(s, '.');
    assert |first| <= |s|;
  }

  // ---------------------------------------------------------------- IPv4

  /** `25[0-5]|2[0-4][0-9]|[01]?[0-9][0-9]?`, alternative by alternative. */
  predicate IsOctet(s: string) {
    (|s| == 3 && s[0] == '2' && s[1] == '5' && '0' <= s[2] <= '5') ||
    (|s| == 3 && s[0] == '2' && '0' <= s[1] <= '4' && IsDigit(s[2])) ||
    (|s| == 3 && (s[0] == '0' || s[0] == '1') && IsDigit(s[1]) && IsDigit(s[2])) ||
    (1 <= |s| <= 2 && IsDecimal(s))
  }

  /** The octet pattern accepts exactly the numerals of one to three digits whose
      value is at most 255 (leading zeros allowed). */
  lemma OctetMeansByte(s: string)
    ensures IsOctet(s) <==> IsDecimal(s) && |s| <= 3 && DecimalValue(s) <= 255
  {
    if IsDecimal(s) && |s| == 3 {
      assert s[..2][..1] == s[..1];
      assert DecimalValue(s) == DigitValue(s[0]) * 100 + DigitValue(s[1]) * 10 + DigitValue(s[2]);
    }
  }

  /** `(octet\.){3}octet` */
  predicate IsIpv4(s: string) {
    var parts := Split(s, '.');
    |parts| == 4 && forall k :: 0 <= k < 4 ==> IsOctet(parts[k])
  }

  function Dotted(a: nat, b: nat, c: nat, d: nat): string {
    Join([NatToString(a), NatToString(b), NatToString(c), NatToString(d)], '.')
  }

  /** Any four byte values written in dotted form make an IPv4 address, which
      splits back into those four values. */
  lemma Ipv4OfBytes(a: nat, b: nat, c: nat, d: nat)
    requires a < 256 && b < 256 && c < 256 && d < 256
    ensures IsIpv4(Dotted(a, b, c, d))
    ensures var parts := Split(Dotted(a, b, c, d), '.');
      DecimalValue(parts[0]) == a && DecimalValue(parts[1]) == b &&
      DecimalValue(parts[2]) == c && DecimalValue(parts[3]) == d
  {
    var parts := [NatToString(a), NatToString(b), NatToString(c), NatToString(d)];
    ByteNumeral(a);
    ByteNumeral(b);
    ByteNumeral(c);
    ByteNumeral(d);
    assert forall k :: 0 <= k < 4 ==> '.' !in parts[k];
    JoinSplit(parts, '.');
  }

  /** A byte value's numeral is an octet with that value and no dot. */
  lemma ByteNumeral(n: nat)
    requires n < 256
    ensures var s := NatToString(n); '.' !in s && IsOctet(s) && DecimalValue(s) == n
  {
    var s := NatToString(n);
    NatToStringValue(n);
    if n >= 100 {
      assert |NatToString(n / 10 / 10)| == 1;
      assert |NatToString(n / 10)| == 2;
    } else if n >= 10 {
      assert |NatToString(n / 10)| == 1;
    }
    assert |s| <= 3;
    assert forall j :: 0 <= j < |s| ==> s[j] != '.';
    OctetMeansByte(s);
  }

  // ---------------------------------------------------------------- e-mail

  predicate IsLocalChar(c: char) {
    IsAlnum(c) || c == '.' || c == '_' || c == '%' || c == '+' || c == '-'
  }

  predicate IsHostChar(c: char) {
    IsAlnum(c) || c == '.' || c == '-'
  }

  predicate AllLocal(s: string) { forall i :: 0 <= i < |s| ==> IsLocalChar(s[i]) }
  predicate AllHost(s: string) { forall i :: 0 <= i < |s| ==> IsHostChar(s[i]) }
  predicate AllAlpha(s: string) { forall i :: 0 <= i < |s| ==> IsAlpha(s[i]) }

  /** The part after `@` of an address: `[a-zA-Z0-9.-]+\.[a-zA-Z]{2,}`, split
      at its last `.`. */
  predicate IsMailDomain(rest: string) {
    var dot := LastIndexOf(rest, '.');
    dot != -1 && |rest[..dot]| >= 1 && AllHost(rest[..dot]) &&
    |rest[dot + 1..]| >= 2 && AllAlpha(rest[dot + 1..])
  }

  /** `[a-zA-Z0-9._%+-]+@[a-zA-Z0-9.-]+\.[a-zA-Z]{2,}`. None of the three
      classes holds `@` and the last class holds no `.`, so the address splits
      at its only `@` and at the last `.` after it. */
  predicate IsEmail(e: string) {
    var at := IndexOf(e, '@');
    at != -1 && |e[..at]| >= 1 && AllLocal(e[..at]) && IsMailDomain(e[at + 1..])
  }

  lemma MailDomainOfParts(host: string, tld: string)
    requires |host| >= 1 && AllHost(host)
    requires |tld| >= 2 && AllAlpha(tld)
    ensures IsMailDomain(host + "." + tld)
  {
    var rest := host + "." + tld;
    assert rest[|host| + 1..] == tld;
    assert rest[..|host|] == host;
    assert forall i :: 0 <= i < |tld| ==> tld[i] != '.';
    LastIndexOfAt(rest, '.', |host|);
  }

  /** The pattern read as a grammar: any local part, host and top-level domain
      drawn from their classes make an address. */
  lemma EmailOfParts(local: string, host: string, tld: string)
    requires |local| >= 1 && AllLocal(local)
    requires |host| >= 1 && AllHost(host)
    requires |tld| >= 2 && AllAlpha(tld)
    ensures IsEmail(local + "@" + host + "." + tld)
  {
    var rest := host + "." + tld;
    var e := local + "@" + host + "." + tld;
    assert e == local + ("@" + rest) by {
      assert |e| == |local| + 1 + |rest|;
      forall k | 0 <= k < |e| ensures e[k] == (local + ("@" + rest))[k] {
      }
    }
    assert e[..|local|] == local;
    assert e[|local| + 1..] == rest;
    assert forall i :: 0 <= i < |local| ==> local[i] != '@';
    IndexOfFirst(e, '@', |local|);
    MailDomainOfParts(host, tld);
  }

  // ---------------------------------------------------------------- GitHub

  /** `[a-zA-Z0-9](?:[a-zA-Z0-9]|-(?=[a-zA-Z0-9])){0,38}`: 1 to 39 characters,
      the first alphanumeric, every hyphen followed by an alphanumeric. */
  predicate IsGithubUsername(u: string) {
    1 <= |u| <= 39 && IsAlnum(u[0]) && HyphenRule(u)
  }

  predicate HyphenRule(u: string) {
    forall i :: 0 <= i < |u| ==> HyphenOk(u, i)
  }

  /** Position `i` holds an alphanumeric, or a hyphen with an alphanumeric next. */
  predicate HyphenOk(u: string, i: nat)
    requires i < |u|
  {
    IsAlnum(u[i]) || (u[i] == '-' && i + 1 < |u| && IsAlnum(u[i + 1]))
  }

  predicate IsWord(p: string) {
    |p| > 0 && forall i :: 0 <= i < |p| ==> IsAlnum(p[i])
  }

  predicate AllWords(ps: seq<string>) {
    forall p :: p in ps ==> IsWord(p)
  }

  /** A GitHub user name is a run of alphanumeric words joined by single hyphens. */
  lemma GithubUsernameWords(u: string)
    ensures IsGithubUsername(u) <==> 1 <= |u| <= 39 && AllWords(Split(u, '-'))
  {
    HyphenWords(u);
  }

  lemma {:induction false} HyphenWords(u: string)
    ensures (|u| > 0 && IsAlnum(u[0]) && HyphenRule(u)) <==> AllWords(Split(u, '-'))
    decreases |u|
  {
    var i := IndexOf(u, '-');
    if i == -1 {
      HyphenFreeWord(u);
    } else {
      var t := u[i + 1..];
      HyphenWords(t);
      assert Split(u, '-') == [u[..i]] + Split(t, '-');
      assert AllWords([u[..i]] + Split(t, '-')) <==> IsWord(u[..i]) && AllWords(Split(t, '-'));
      HyphenSplitForward(u, i);
      HyphenSplitBackward(u, i);
    }
  }

  lemma HyphenFreeWord(u: string)
    requires '-' !in u
    ensures (|u| > 0 && IsAlnum(u[0]) && HyphenRule(u)) <==> AllWords(Split(u, '-'))
  {
    assert Split(u, '-') == [u];
    assert AllWords([u]) <==> IsWord(u) by {
      assert u in [u];
    }
    forall k | 0 <= k < |u| ensures u[k] != '-' {
      assert u[k] in u;
    }
    assert forall k :: 0 <= k < |u| ==> (HyphenOk(u, k) <==> IsAlnum(u[k]));
  }

  lemma HyphenSplitForward(u: string, i: int)
    requires i == IndexOf(u, '-') && i != -1
    ensures |u| > 0 && IsAlnum(u[0]) && HyphenRule(u) ==>
      IsWord(u[..i]) && |u[i + 1..]| > 0 && IsAlnum(u[i + 1..][0]) && HyphenRule(u[i + 1..])
  {
    if |u| > 0 && IsAlnum(u[0]) && HyphenRule(u) {
      var t := u[i + 1..];
      forall k | 0 <= k < i ensures IsAlnum(u[..i][k]) {
        assert u[..i][k] == u[k];
        assert u[..i][k] in u[..i];
        assert HyphenOk(u, k);
      }
      assert u[i] == '-' && HyphenOk(u, i);
      forall k | 0 <= k < |t| ensures HyphenOk(t, k) {
        assert HyphenOk(u, i + 1 + k);
        assert t[k] == u[i + 1 + k];
        if k + 1 < |t| { assert t[k + 1] == u[i + 2 + k]; }
      }
    }
  }

  lemma HyphenSplitBackward(u: string, i: int)
    requires i == IndexOf(u, '-') && i != -1
    ensures IsWord(u[..i]) && |u[i + 1..]| > 0 && IsAlnum(u[i + 1..][0]) && HyphenRule(u[i + 1..]) ==>
      |u| > 0 && IsAlnum(u[0]) && HyphenRule(u)
  {
    var t := u[i + 1..];
    if IsWord(u[..i]) && |t| > 0 && IsAlnum(t[0]) && HyphenRule(t) {
      assert u[0] == u[..i][0];
      forall k | 0 <= k < |u| ensures HyphenOk(u, k) {
        if k < i {
          assert u[k] == u[..i][k];
          assert IsAlnum(u[..i][k]);
        } else if k > i {
          assert u[k] == t[k - i - 1];
          if k + 1 < |u| { assert u[k + 1] == t[k - i]; }
          assert HyphenOk(t, k - i - 1);
        } else {
          assert u[k] == '-';
          assert u[k + 1] == t[0];
        }
      }
    }
  }
}

/** The pull-request bot's review of a subdomain request: the PR title, the
    domain's entry, the changed file and the entry added to it, checked in a
    fixed order. A failed check comments and closes the PR; passing every check
    only comments. The PR, its files, the file contents at the head and base
    revisions and the schema validation are inputs. */
module Bot {
  import opened Values
  import opened Text

  // ---------------------------------------------------------------- title

  const TitleHead := "Add subdomain "
  const TitleMiddle := " for domain "

  /** `[a-z0-9-]` */
  predicate IsSubChar(c: char) { IsLowerAlnum(c) || c == '-' }
  /** `[a-z0-9.]` */
  predicate IsDomainChar(c: char) { IsLowerAlnum(c) || c == '.' }

  /** Length of the longest prefix of `s` whose characters are all accepted,
      which a greedy character class takes. */
  function SubRun(s: string): (n: nat)
    ensures n <= |s| && (forall j :: 0 <= j < n ==> IsSubChar(s[j])) && (n < |s| ==> !IsSubChar(s[n]))
    decreases |s|
  {
    if |s| == 0 || !IsSubChar(s[0]) then 0 else 1 + SubRun(s[1..])
  }

  function DomainRun(s: string): (n: nat)
    ensures n <= |s| && (forall j :: 0 <= j < n ==> IsDomainChar(s[j])) && (n < |s| ==> !IsDomainChar(s[n]))
    decreases |s|
  {
    if |s| == 0 || !IsDomainChar(s[0]) then 0 else 1 + DomainRun(s[1..])
  }

  lemma {:induction false} SubRunOf(w: string, rest: string)
    requires forall j :: 0 <= j < |w| ==> IsSubChar(w[j])
    requires rest == [] || !IsSubChar(rest[0])
    ensures SubRun(w + rest) == |w|
    decreases |w|
  {
    if w != [] {
      assert (w + rest)[1..] == w[1..] + rest;
      SubRunOf(w[1..], rest);
    } else {
      assert w + rest == rest;
    }
  }

  lemma {:induction false} DomainRunOf(w: string, rest: string)
    requires forall j :: 0 <= j < |w| ==> IsDomainChar(w[j])
    requires rest == [] || !IsDomainChar(rest[0])
    ensures DomainRun(w + rest) == |w|
    decreases |w|
  {
    if w != [] {
      assert (w + rest)[1..] == w[1..] + rest;
      DomainRunOf(w[1..], rest);
    } else {
      assert w + rest == rest;
    }
  }

  lemma SplitAt(s: string, n: nat)
    requires n <= |s|
    ensures s == s[..n] + s[n..]
  {
  }

  lemma Regroup(a: string, b: string, c: string, d: string, e: string)
    ensures a + (b + (c + (d + e))) == a + b + c + d + e
  {
  }

  lemma PrefixOf(p: string, t: string)
    ensures StartsWith(p + t, p)
  {
    assert (p + t)[..|p|] == p;
  }

  /** `re.match(r"Add subdomain (?P<sub>[a-z0-9-]+) for domain (?P<domain>[a-z0-9.]+)", title)`:
      anchored at the start only, so text may follow the domain. */
  function ParseTitle(title: string): (r: Option<(string, string)>)
    ensures r.Some? ==> |r.value.0| > 0 && |r.value.1| > 0 &&
                        (forall j :: 0 <= j < |r.value.0| ==> IsSubChar(r.value.0[j])) &&
                        (forall j :: 0 <= j < |r.value.1| ==> IsDomainChar(r.value.1[j])) &&
                        StartsWith(title, TitleHead + r.value.0 + TitleMiddle + r.value.1)
  {
    if !StartsWith(title, TitleHead) then None
    else
      var rest := title[|TitleHead|..];
      var n := SubRun(rest);
      if n == 0 || !StartsWith(rest[n..], TitleMiddle) then None
      else
        var tail := rest[n..][|TitleMiddle|..];
        var m := DomainRun(tail);
        if m == 0 then None
        else
          var sub, domain := rest[..n], tail[..m];
          assert title == TitleHead + sub + TitleMiddle + domain + tail[m..] by {
            SplitAt(title, |TitleHead|);
            SplitAt(rest, n);
            SplitAt(rest[n..], |TitleMiddle|);
            SplitAt(tail, m);
            Regroup(TitleHead, sub, TitleMiddle, domain, tail[m..]);
          }
          PrefixOf(TitleHead + sub + TitleMiddle + domain, tail[m..]);
          Some((sub, domain))
  }

  /** A title built from a subdomain and a domain parses back to them, whatever
      follows the domain, as long as it does not continue the domain. */
  lemma TitleRoundTrip(sub: string, domain: string, trailer: string)
    requires |sub| > 0 && forall j :: 0 <= j < |sub| ==> IsSubChar(sub[j])
    requires |domain| > 0 && forall j :: 0 <= j < |domain| ==> IsDomainChar(domain[j])
    requires trailer == [] || !IsDomainChar(trailer[0])
    ensures ParseTitle(TitleHead + sub + TitleMiddle + domain + trailer) == Some((sub, domain))
  {
    var title := TitleHead + sub + TitleMiddle + domain + trailer;
    var after := domain + trailer;
    var rest := sub + (TitleMiddle + after);
    Regroup(TitleHead, sub, TitleMiddle, domain, trailer);
    assert title == TitleHead + rest;
    Halves(TitleHead, rest);
    assert TitleMiddle[0] == ' ';
    SubRunOf(sub, TitleMiddle + after);
    Halves(sub, TitleMiddle + after);
    Halves(TitleMiddle, after);
    DomainRunOf(domain, trailer);
    Halves(domain, trailer);
  }

  lemma Halves(a: string, b: string)
    ensures (a + b)[..|a|] == a && (a + b)[|a|..] == b
  {
  }

  /** A title with an upper-case letter in the subdomain does not parse as that
      subdomain: the pattern is case-sensitive. */
  lemma TitleIsCaseSensitive(sub: string)
    requires |sub| > 0 && IsUpperAlpha(sub[0])
    ensures ParseTitle(TitleHead + sub).None?
  {
    var title := TitleHead + sub;
    assert title[..|TitleHead|] == TitleHead;
    assert title[|TitleHead|..] == sub;
  }

  // ---------------------------------------------------------------- the request

  /** An entry of the bot's `config/domains.json` list: its `domain` key and the
      truthiness of its `enabled` key. */
  datatype BotDomain = BotDomain(domain: string, enabled: bool)

  /** An entry of a `domains/<domain>.json` list: a JSON object. */
  type Entry = map<string, Json>

  /** Python's `==` on two entries: the same keys, and equal values under each. */
  predicate SameEntry(a: Entry, b: Entry) {
    PyEq(JObject(a), JObject(b))
  }

  /** `e in entries`, Python's list membership: some element equals `e`. */
  predicate Listed(e: Entry, entries: seq<Entry>) {
    exists i :: 0 <= i < |entries| && SameEntry(e, entries[i])
  }

  /** The changed file's content at one revision: `None` when it cannot be read
      or parsed. */
  type Listing = Option<seq<Entry>>

  /** `next((d for d in domains_config if d['domain'] == domain), None)` */
  function EntryFor(config: seq<BotDomain>, domain: string): (r: Option<BotDomain>)
    ensures r.None? <==> forall i :: 0 <= i < |config| ==> config[i].domain != domain
    ensures r.Some? ==> r.value.domain == domain && r.value in config
    decreases |config|
  {
    if config == [] then None
    else if config[0].domain == domain then Some(config[0])
    else
      assert forall i :: 0 < i < |config| ==> config[i] == config[1..][i - 1];
      EntryFor(config[1..], domain)
  }

  /** The first entry decides, even if a later one for the same domain differs. */
  lemma FirstEntryDecides(first: BotDomain, others: seq<BotDomain>)
    ensures EntryFor([first] + others, first.domain) == Some(first)
  {
  }

  /** `[item for item in new_list if item not in old_list]` */
  function Added(newList: seq<Entry>, oldList: seq<Entry>): (r: seq<Entry>)
    ensures |r| <= |newList|
    ensures forall e :: e in r <==> e in newList && !Listed(e, oldList)
    decreases |newList|
  {
    if newList == [] then []
    else
      var init := newList[..|newList| - 1];
      var e := newList[|newList| - 1];
      assert newList == init + [e];
      Added(init, oldList) + if Listed(e, oldList) then [] else [e]
  }

  /** The added entries keep the order of the new list. */
  lemma {:induction false} AddedAppend(a: seq<Entry>, b: seq<Entry>, oldList: seq<Entry>)
    ensures Added(a + b, oldList) == Added(a, oldList) + Added(b, oldList)
    decreases |b|
  {
    if b != [] {
      var n := |b| - 1;
      assert (a + b)[..|a + b| - 1] == a + b[..n];
      assert (a + b)[|a + b| - 1] == b[n];
      AddedAppend(a, b[..n], oldList);
    } else {
      assert a + b == a;
    }
  }

  /** Appending an entry that equals no entry of the base to a list the base
      already holds adds exactly that entry. */
  lemma AppendedEntry(oldList: seq<Entry>, e: Entry)
    requires !Listed(e, oldList)
    ensures Added(oldList + [e], oldList) == [e]
  {
    AddedAppend(oldList, [e], oldList);
    forall i | 0 <= i < |oldList| ensures Listed(oldList[i], oldList) {
      PyEqReflexive(JObject(oldList[i]));
    }
    AddedNothing(oldList, oldList);
  }

  lemma {:induction false} AddedNothing(newList: seq<Entry>, oldList: seq<Entry>)
    requires forall i :: 0 <= i < |newList| ==> Listed(newList[i], oldList)
    ensures Added(newList, oldList) == []
    decreases |newList|
  {
    if newList != [] {
      AddedNothing(newList[..|newList| - 1], oldList);
    }
  }

  /** Membership is Python's equality on dicts: an entry that differs from the
      old one, even only inside a nested value such as the owner, is added. */
  lemma RewrittenEntryIsAdded(base: Entry, rewritten: Entry, extra: Entry)
    requires !SameEntry(rewritten, base) && !SameEntry(extra, base)
    ensures Added([rewritten, extra], [base]) == [rewritten, extra]
  {
    assert [rewritten, extra] == [rewritten] + [extra];
    AddedAppend([rewritten], [extra], [base]);
    assert [rewritten] == [] + [rewritten];
    assert [extra] == [] + [extra];
  }

  datatype Reason =
    | BadTitle
    | DomainNotOpen(domain: string)
    | WrongFiles
    | Unreadable
    | NotOneEntry
    | SchemaRejected(message: string)
    | NameMismatch
    | SubdomainTaken(sub: string)

  /** Where the bot comments and closes, and where it only comments. */
  datatype Verdict = Close(reason: Reason) | Approve

  /** `e.get('name') == sub`: only a string equals a string. */
  predicate Named(e: Entry, sub: string) {
    "name" in e && e["name"] == JStr(sub)
  }

  /** `check_pr(pr)`: `files` are the changed file names; `head` and `base` the
      changed file's content at the two revisions; `schemaError` the message of
      the schema validation of the added entry. */
  function CheckPr(title: string, config: seq<BotDomain>, files: seq<string>, head: Listing, base: Listing,
                   schemaError: Option<string>): Verdict
  {
    var parsed := ParseTitle(title);
    if parsed.None? then Close(BadTitle)
    else
      var (sub, domain) := parsed.value;
      var entry := EntryFor(config, domain);
      if entry.None? || !entry.value.enabled then Close(DomainNotOpen(domain))
      else if |files| != 1 || files[0] != "domains/" + domain + ".json" then Close(WrongFiles)
      else if head.None? || base.None? then Close(Unreadable)
      else
        var added := Added(head.value, base.value);
        if |added| != 1 then Close(NotOneEntry)
        else if schemaError.Some? then Close(SchemaRejected(schemaError.value))
        else if !Named(added[0], sub) then Close(NameMismatch)
        else if exists i :: 0 <= i < |base.value| && Named(base.value[i], sub) then Close(SubdomainTaken(sub))
        else Approve
  }

  /** The bot approves iff the title names a subdomain and a domain, the domain's
      first entry is enabled, the only changed file is that domain's file, both
      revisions of it read, exactly one entry was added, it passes the schema,
      carries the title's name, and no entry of the base has that name. */
  lemma CheckPrApproves(title: string, config: seq<BotDomain>, files: seq<string>, head: Listing, base: Listing,
                        schemaError: Option<string>)
    ensures CheckPr(title, config, files, head, base, schemaError) == Approve <==>
      exists sub, domain, e ::
        && ParseTitle(title) == Some((sub, domain))
        && EntryFor(config, domain).Some? && EntryFor(config, domain).value.enabled
        && files == ["domains/" + domain + ".json"]
        && head.Some? && base.Some?
        && Added(head.value, base.value) == [e]
        && schemaError.None?
        && Named(e, sub)
        && forall i :: 0 <= i < |base.value| ==> !Named(base.value[i], sub)
  {
    if CheckPr(title, config, files, head, base, schemaError) == Approve {
      var (sub, domain) := ParseTitle(title).value;
      var e := Added(head.value, base.value)[0];
      assert files == [files[0]];
      assert Added(head.value, base.value) == [e];
      assert ParseTitle(title) == Some((sub, domain));
    }
  }

  /** A PR that adds one entry and rewrites another is closed, even when the
      rewrite is only inside a nested value such as the owner. */
  lemma RewriteCloses(title: string, config: seq<BotDomain>, files: seq<string>,
                      base: Entry, rewritten: Entry, extra: Entry, schemaError: Option<string>)
    requires !SameEntry(rewritten, base) && !SameEntry(extra, base)
    ensures CheckPr(title, config, files, Some([rewritten, extra]), Some([base]), schemaError).Close?
  {
    RewrittenEntryIsAdded(base, rewritten, extra);
  }

  /** A request for a file the base revision lacks is closed as unreadable once
      the earlier checks pass: the bot reads both revisions. */
  lemma NewFileCloses(title: string, config: seq<BotDomain>, files: seq<string>, head: Listing,
                      schemaError: Option<string>)
    ensures CheckPr(title, config, files, head, None, schemaError).Close?
  {
  }
}

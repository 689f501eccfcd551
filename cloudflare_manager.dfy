/** The reconciliation engine of the Cloudflare manager: given the records a
    request wants for `sub.domain`, it lists the zone, keeps the live records
    under that name keyed by `(type, name)`, creates, updates or leaves alone
    each wanted record, and deletes the live keys no longer wanted. The
    provider is the abstract table of module `Provider`. */
module CloudflareManager {
  import opened Values
  import opened Assoc
  import opened Provider
  import Config

  type Key = (string, string)

  // ---------------------------------------------------------------- zone table

  /** One entry of the `domains` list of the JSON configuration. */
  type DomainConfig = Config.ListedDomain

  /** Entry `d` gives domain `n` a zone id: both fields are present and non-empty. */
  predicate Configures(d: DomainConfig, n: string) {
    Truthy(d.name) && Truthy(d.zoneId) && d.name.value == n
  }

  /** The `zone_ids` table the constructor builds; a later entry for the same name wins. */
  function ZoneTable(domains: seq<DomainConfig>): map<string, string>
    decreases |domains|
  {
    if domains == [] then map[]
    else
      var m := ZoneTable(domains[..|domains| - 1]);
      var d := domains[|domains| - 1];
      if Truthy(d.name) && Truthy(d.zoneId) then m[d.name.value := d.zoneId.value] else m
  }

  /** A name is in the table iff some entry configures it, and its zone id is the
      one of the last entry that does. */
  lemma {:induction false} ZoneTableLookup(domains: seq<DomainConfig>, n: string)
    ensures n in ZoneTable(domains) <==> exists i :: 0 <= i < |domains| && Configures(domains[i], n)
    ensures n in ZoneTable(domains) ==>
      exists i :: 0 <= i < |domains| && Configures(domains[i], n) && domains[i].zoneId.value == ZoneTable(domains)[n] &&
        forall j :: i < j < |domains| ==> !Configures(domains[j], n)
    decreases |domains|
  {
    if domains != [] {
      var pre := domains[..|domains| - 1];
      var d := domains[|domains| - 1];
      ZoneTableLookup(pre, n);
      if Configures(d, n) {
        assert Configures(domains[|domains| - 1], n);
      } else {
        if exists i :: 0 <= i < |domains| && Configures(domains[i], n) {
          var i :| 0 <= i < |domains| && Configures(domains[i], n);
          assert i < |pre| && Configures(pre[i], n);
        }
        if n in ZoneTable(domains) {
          var i :| 0 <= i < |pre| && Configures(pre[i], n) && pre[i].zoneId.value == ZoneTable(pre)[n] &&
            forall j :: i < j < |pre| ==> !Configures(pre[j], n);
          assert domains[i] == pre[i];
          assert forall j :: i < j < |domains| ==> !Configures(domains[j], n) by {
            forall j | i < j < |domains| ensures !Configures(domains[j], n) {
              if j < |pre| { assert domains[j] == pre[j]; }
            }
          }
        }
      }
    }
  }

  /** The constructor's loop over the configured domains. */
  method BuildZoneIds(domains: seq<DomainConfig>) returns (zoneIds: map<string, string>)
    ensures zoneIds == ZoneTable(domains)
  {
    zoneIds := map[];
    var i := 0;
    while i < |domains|
      invariant 0 <= i <= |domains|
      invariant zoneIds == ZoneTable(domains[..i])
    {
      var d := domains[i];
      if Truthy(d.name) && Truthy(d.zoneId) {
        zoneIds := zoneIds[d.name.value := d.zoneId.value];
      }
      assert domains[..i + 1][..i] == domains[..i];
      i := i + 1;
    }
    assert domains[..i] == domains;
  }

  /** A call that either returns a value or raises with a message. */
  datatype Outcome<T> = Done(value: T) | Raises(error: string)

  function NoZoneId(domain: string): string {
    "no zone id configured for domain '" + domain + "'"
  }

  /** `get_zone_id`: an unconfigured domain raises `ValueError`. */
  function GetZoneId(zoneIds: map<string, string>, domain: string): (r: Outcome<string>)
    ensures r.Done? <==> domain in zoneIds
    ensures r.Done? ==> r.value == zoneIds[domain]
    ensures r.Raises? ==> r.error == NoZoneId(domain)
  {
    if domain in zoneIds then Done(zoneIds[domain]) else Raises(NoZoneId(domain))
  }

  // ---------------------------------------------------------------- payloads

  /** The record types the provider can proxy. */
  predicate Proxiable(rtype: string) {
    rtype == "A" || rtype == "AAAA" || rtype == "CNAME"
  }

  /** The request body `create_dns_record` and `update_dns_record` send:
      proxying only for A/AAAA/CNAME, a priority only for MX when one is given. */
  function ShapePayload(rtype: string, name: string, content: string, ttl: int,
                        proxied: bool, priority: Option<int>): (p: Payload)
    ensures p.rtype == rtype && p.name == name && p.content == content && p.ttl == ttl
    ensures p.proxied <==> Proxiable(rtype) && proxied
    ensures p.priority.Some? <==> rtype == "MX" && priority.Some?
    ensures p.priority.Some? ==> p.priority == priority
  {
    Payload(rtype, name, content, ttl,
            if Proxiable(rtype) then proxied else false,
            if rtype == "MX" && priority.Some? then priority else None)
  }

  // ---------------------------------------------------------------- desired records

  /** A record of a request, as the sync reads it. `priority` is `None` when the
      key is absent and `Some(None)` when it is present with value `null`. */
  datatype Desired = Desired(rtype: string, name: string, content: string,
                             ttl: Option<int>, proxied: Option<bool>,
                             priority: Option<Option<int>>)

  /** `record_data`: the wanted state of one record. `priority` is present only
      for MX records whose request carries the key. */
  datatype Wanted = Wanted(rtype: string, name: string, content: string,
                           ttl: int, proxied: bool, priority: Option<Option<int>>)

  /** The full name of a requested record: `@` is the bare domain, otherwise the
      record name is put in front of `sub.domain` (of `domain` when `sub` is `@`). */
  function FullName(domain: string, sub: string, name: string): string {
    if name == "@" then domain
    else if sub == "@" then name + "." + domain
    else name + "." + sub + "." + domain
  }

  function WantedFor(domain: string, sub: string, d: Desired): (w: Wanted)
    ensures w.rtype == d.rtype && w.name == FullName(domain, sub, d.name) && w.content == d.content
    ensures w.ttl == d.ttl.GetOr(3600) && w.proxied == d.proxied.GetOr(true)
    ensures w.priority.Some? <==> d.rtype == "MX" && d.priority.Some?
    ensures w.priority.Some? ==> w.priority == d.priority
  {
    Wanted(d.rtype, FullName(domain, sub, d.name), d.content, d.ttl.GetOr(3600),
           d.proxied.GetOr(true), if d.rtype == "MX" then d.priority else None)
  }

  function KeyOf(domain: string, sub: string, d: Desired): Key {
    (d.rtype, FullName(domain, sub, d.name))
  }

  /** What the sync passes on to create or update (`record_data.get('priority')`). */
  function PayloadOf(w: Wanted): Payload {
    ShapePayload(w.rtype, w.name, w.content, w.ttl, w.proxied,
                 if w.priority.Some? then w.priority.value else None)
  }

  /** Whether a live record differs from the wanted state: content (compared
      literally), ttl, proxying for A/AAAA/CNAME, or a given MX priority. */
  predicate NeedsUpdate(w: Wanted, live: Live) {
    w.content != live.content
    || w.ttl != live.ttl
    || (Proxiable(w.rtype) && w.proxied != live.proxied)
    || (w.rtype == "MX" && w.priority.Some? && w.priority.value != live.priority)
  }

  /** A record the sync has just written is in the wanted state: a second sync of
      the same request leaves it unchanged. */
  lemma WrittenRecordIsUnchanged(domain: string, sub: string, d: Desired, id: nat)
    ensures !NeedsUpdate(WantedFor(domain, sub, d), Stored(id, PayloadOf(WantedFor(domain, sub, d))))
  {
  }

  // ---------------------------------------------------------------- candidates

  /** Live records the sync considers its own: exactly `sub.domain`, or `domain` for `@`. */
  predicate IsCandidate(domain: string, sub: string, l: Live) {
    (sub != "@" && l.name == sub + "." + domain) || (sub == "@" && l.name == domain)
  }

  /** `current_records`, built over the listing in order. */
  function Candidates(domain: string, sub: string, listed: seq<Live>): (cur: Dict<Key, Live>)
    ensures DistinctKeys(cur)
    decreases |listed|
  {
    if listed == [] then []
    else
      var prev := Candidates(domain, sub, listed[..|listed| - 1]);
      var l := listed[|listed| - 1];
      if IsCandidate(domain, sub, l) then Put(prev, l.Key(), l) else prev
  }

  /** Reference definition: the last candidate of the listing with key `k`. */
  function LastCandidate(domain: string, sub: string, listed: seq<Live>, k: Key): (r: Option<Live>)
    ensures r.Some? ==> r.value in listed && IsCandidate(domain, sub, r.value) && r.value.Key() == k
    decreases |listed|
  {
    if listed == [] then None
    else
      var l := listed[|listed| - 1];
      if IsCandidate(domain, sub, l) && l.Key() == k then Some(l)
      else LastCandidate(domain, sub, listed[..|listed| - 1], k)
  }

  /** Only candidates are kept, under their own key, and a later record with the
      same key replaces an earlier one. */
  lemma {:induction false} CandidatesAreLast(domain: string, sub: string, listed: seq<Live>, k: Key)
    ensures Get(Candidates(domain, sub, listed), k) == LastCandidate(domain, sub, listed, k)
    decreases |listed|
  {
    if listed != [] {
      CandidatesAreLast(domain, sub, listed[..|listed| - 1], k);
    }
  }

  /** Every entry of `current_records` is a candidate stored under its own key. */
  lemma CandidateEntry(domain: string, sub: string, listed: seq<Live>, j: nat)
    requires j < |Candidates(domain, sub, listed)|
    ensures var e := Candidates(domain, sub, listed)[j];
      e.1.Key() == e.0 && IsCandidate(domain, sub, e.1) && e.1 in listed
  {
    var cur := Candidates(domain, sub, listed);
    GetAt(cur, j);
    CandidatesAreLast(domain, sub, listed, cur[j].0);
  }

  /** Under a subdomain other than `@`, no wanted key is a candidate key: a
      candidate is named `sub.domain`, a wanted record either `domain` or
      `name.sub.domain`, and neither has that length. */
  lemma NoMatchUnderSubdomain(domain: string, sub: string, listed: seq<Live>, d: Desired)
    requires sub != "@"
    ensures Get(Candidates(domain, sub, listed), KeyOf(domain, sub, d)) == None
  {
    var k := KeyOf(domain, sub, d);
    CandidatesAreLast(domain, sub, listed, k);
    assert |k.1| != |sub + "." + domain|;
  }

  // ---------------------------------------------------------------- the sync, as a specification

  datatype SyncError =
    | DeleteFailed(record: Live)  // a delete that returned False; the loop goes on
    | Aborted(message: string)    // the exception that ended the run

  /** The five lists of the result; `untouched` is the `unchanged` list. */
  datatype SyncResult = SyncResult(created: seq<Live>, updated: seq<Live>, deleted: seq<Live>,
                                   untouched: seq<Live>, errors: seq<SyncError>)

  const EmptyResult := SyncResult([], [], [], [], [])

  /** How many requested records have been placed in `created`, `updated` or `unchanged`. */
  function Placed(r: SyncResult): nat {
    |r.created| + |r.updated| + |r.untouched|
  }

  /** Whether the run ended in an exception. */
  predicate Stopped(r: SyncResult) {
    exists i :: 0 <= i < |r.errors| && r.errors[i].Aborted?
  }

  const DeclinedMessage := "API request failed"

  /** The message of the exception a failed call raises. */
  function Failure(reply: Reply): string {
    match reply
    case Reject(m) => m
    case _ => DeclinedMessage
  }

  /** `r` with one more error, the exception that ends the run. */
  predicate EndsWithAbort(res: SyncResult, r: SyncResult) {
    |res.errors| == |r.errors| + 1 && res.errors[..|r.errors|] == r.errors && res.errors[|r.errors|].Aborted?
  }

  /** The fixed context of one sync. */
  datatype Ctx = Ctx(domain: string, sub: string, zone: string)

  /** The effect of one step: new results, new provider state, and whether an
      exception ended the run. */
  datatype Move = Move(result: SyncResult, state: State, aborted: bool)

  /** One requested record: left alone when its key matches a candidate in the
      wanted state, updated under the candidate's id when it matches one that
      differs, created otherwise. */
  function ApplyOne(c: Ctx, cur: Dict<Key, Live>, d: Desired, r: SyncResult, s: State): (m: Move)
    ensures m.result.deleted == r.deleted
    ensures !m.aborted ==> m.result.errors == r.errors && Placed(m.result) == Placed(r) + 1
    ensures m.aborted ==> Placed(m.result) == Placed(r) && EndsWithAbort(m.result, r)
    ensures Get(cur, KeyOf(c.domain, c.sub, d)) == None ==> m.result.updated == r.updated && m.result.untouched == r.untouched
    ensures (var w := WantedFor(c.domain, c.sub, d); var f := Get(cur, (w.rtype, w.name));
             f.Some? && !NeedsUpdate(w, f.value)) ==>
      m == Move(r.(untouched := r.untouched + [Get(cur, KeyOf(c.domain, c.sub, d)).value]), s, false)
    ensures (var w := WantedFor(c.domain, c.sub, d); var f := Get(cur, (w.rtype, w.name));
             f.Some? && NeedsUpdate(w, f.value) && !m.aborted) ==>
      var w := WantedFor(c.domain, c.sub, d);
      var id := Get(cur, (w.rtype, w.name)).value.id;
      m.result == r.(updated := r.updated + [Stored(id, PayloadOf(w))]) &&
      m.state == UpdateStep(s, c.zone, id, PayloadOf(w)).next
    ensures (var w := WantedFor(c.domain, c.sub, d); Get(cur, (w.rtype, w.name)).None? && !m.aborted) ==>
      var w := WantedFor(c.domain, c.sub, d);
      m.result == r.(created := r.created + [Stored(s.nextId, PayloadOf(w))]) &&
      m.state == CreateStep(s, c.zone, PayloadOf(w)).next
  {
    var w := WantedFor(c.domain, c.sub, d);
    var k := (w.rtype, w.name);
    var found := Get(cur, k);
    if found.Some? && !NeedsUpdate(w, found.value) then
      Move(r.(untouched := r.untouched + [found.value]), s, false)
    else
      var st := if found.Some? then UpdateStep(s, c.zone, found.value.id, PayloadOf(w))
                else CreateStep(s, c.zone, PayloadOf(w));
      if st.reply != Accept then
        Move(r.(errors := r.errors + [Aborted(Failure(st.reply))]), st.next, true)
      else if found.Some? then
        Move(r.(updated := r.updated + [st.value.value]), st.next, false)
      else
        Move(r.(created := r.created + [st.value.value]), st.next, false)
  }

  /** The run of the state after a phase: results, provider state, the wanted
      keys seen so far and whether an exception ended it. */
  datatype Run = Run(result: SyncResult, state: State, keys: set<Key>, aborted: bool)

  /** Phase one, from the `i`-th requested record on. */
  function ApplyFrom(c: Ctx, cur: Dict<Key, Live>, records: seq<Desired>, i: nat,
                     r: SyncResult, keys: set<Key>, s: State): Run
    requires i <= |records|
    decreases |records| - i
  {
    if i == |records| then Run(r, s, keys, false)
    else
      var m := ApplyOne(c, cur, records[i], r, s);
      var keys' := keys + {KeyOf(c.domain, c.sub, records[i])};
      if m.aborted then Run(m.result, m.state, keys', true)
      else ApplyFrom(c, cur, records, i + 1, m.result, keys', m.state)
  }

  /** One candidate whose key is not wanted: deleted, or logged when the delete
      returns False; an exception ends the run. */
  function DeleteOne(zone: string, live: Live, r: SyncResult, s: State): (m: Move)
    ensures m.result.created == r.created && m.result.updated == r.updated && m.result.untouched == r.untouched
    ensures !m.aborted ==>
      (m.result.deleted == r.deleted + [live] && m.result.errors == r.errors) ||
      (m.result.deleted == r.deleted && m.result.errors == r.errors + [DeleteFailed(live)])
    ensures m.aborted ==> m.result.deleted == r.deleted && EndsWithAbort(m.result, r)
  {
    var st := DeleteStep(s, zone, live.id);
    match st.reply
    case Accept => Move(r.(deleted := r.deleted + [live]), st.next, false)
    case Decline => Move(r.(errors := r.errors + [DeleteFailed(live)]), st.next, false)
    case Reject(msg) =>
      assert (r.errors + [Aborted(msg)])[..|r.errors|] == r.errors;
      Move(r.(errors := r.errors + [Aborted(msg)]), st.next, true)
  }

  /** One delete of `delete_dns_record` exactly as written: `_request` raises on
      a response with `success: false` before `delete_dns_record` can return
      False, so a declined delete ends the run like a transport error, and no
      failed delete is ever logged. */
  function DeleteOneAsWritten(zone: string, live: Live, r: SyncResult, s: State): (m: Move)
    ensures m.result.created == r.created && m.result.updated == r.updated && m.result.untouched == r.untouched
    ensures !m.aborted ==> m.result.deleted == r.deleted + [live] && m.result.errors == r.errors
    ensures m.aborted ==> m.result.deleted == r.deleted && EndsWithAbort(m.result, r)
    ensures m.aborted <==> DeleteStep(s, zone, live.id).reply != Accept
  {
    var st := DeleteStep(s, zone, live.id);
    if st.reply == Accept then Move(r.(deleted := r.deleted + [live]), st.next, false)
    else
      assert (r.errors + [Aborted(Failure(st.reply))])[..|r.errors|] == r.errors;
      Move(r.(errors := r.errors + [Aborted(Failure(st.reply))]), st.next, true)
  }

  /** The branch of the delete loop that logs a failed delete is dead as written:
      a provider that declines the delete of an existing record makes the code as
      written end the run with the exception's message, where `DeleteOne` logs the
      record and lets the loop go on. */
  lemma DeclinedDeleteAborts(zone: string, live: Live, r: SyncResult, s: State)
    requires zone in s.zones && HasId(s.zones[zone], live.id) && Head(s.replies) == Decline
    ensures var m := DeleteOneAsWritten(zone, live, r, s);
      m.aborted && m.result.errors == r.errors + [Aborted(DeclinedMessage)]
    ensures var m := DeleteOne(zone, live, r, s);
      !m.aborted && m.result.errors == r.errors + [DeleteFailed(live)]
  {
  }

  /** Phase two, from the `j`-th candidate on: delete the candidates not wanted. */
  function DeleteFrom(zone: string, cur: Dict<Key, Live>, keys: set<Key>, j: nat,
                      r: SyncResult, s: State): Run
    requires j <= |cur|
    decreases |cur| - j
  {
    if j == |cur| then Run(r, s, keys, false)
    else if cur[j].0 in keys then DeleteFrom(zone, cur, keys, j + 1, r, s)
    else
      var m := DeleteOne(zone, cur[j].1, r, s);
      if m.aborted then Run(m.result, m.state, keys, true)
      else DeleteFrom(zone, cur, keys, j + 1, m.result, m.state)
  }

  datatype SyncRun = SyncRun(outcome: Outcome<SyncResult>, state: State)

  /** `sync_domain_records` as a function of the zone table, the request and the
      provider's state. */
  function SyncSpec(zoneIds: map<string, string>, domain: string, sub: string,
                    records: seq<Desired>, s: State): (run: SyncRun)
    ensures run.outcome.Raises? <==> domain !in zoneIds
    ensures run.outcome.Raises? ==> run.state == s
  {
    if domain !in zoneIds then SyncRun(Raises(NoZoneId(domain)), s)
    else
      var zone := zoneIds[domain];
      var ls := ListStep(s, zone, None);
      if ls.reply != Accept then
        SyncRun(Done(EmptyResult.(errors := [Aborted(Failure(ls.reply))])), ls.next)
      else
        var cur := Candidates(domain, sub, ls.value);
        var p1 := ApplyFrom(Ctx(domain, sub, zone), cur, records, 0, EmptyResult, {}, ls.next);
        if p1.aborted then SyncRun(Done(p1.result), p1.state)
        else
          var p2 := DeleteFrom(zone, cur, p1.keys, 0, p1.result, p1.state);
          SyncRun(Done(p2.result), p2.state)
  }

  // ---------------------------------------------------------------- what the sync promises

  /** The keys of the requested records from the `i`-th on (`new_record_keys`). */
  function KeysFrom(domain: string, sub: string, records: seq<Desired>, i: nat): set<Key> {
    set j | i <= j < |records| :: KeyOf(domain, sub, records[j])
  }

  function DesiredKeys(domain: string, sub: string, records: seq<Desired>): set<Key> {
    KeysFrom(domain, sub, records, 0)
  }

  /** The candidates from the `j`-th on whose key is not wanted, in order. */
  function OrphansFrom(cur: Dict<Key, Live>, keys: set<Key>, j: nat): (o: seq<Live>)
    requires j <= |cur|
    ensures |o| <= |cur| - j
    decreases |cur| - j
  {
    if j == |cur| then []
    else (if cur[j].0 in keys then [] else [cur[j].1]) + OrphansFrom(cur, keys, j + 1)
  }

  /** Phase one places each record it processes in exactly one of `created`,
      `updated`, `unchanged`; it deletes nothing; it either finishes with every
      requested key seen, or stops with one `Aborted` error and fewer placed. */
  lemma {:induction false} ApplyFromShape(c: Ctx, cur: Dict<Key, Live>, records: seq<Desired>, i: nat,
                                          r: SyncResult, keys: set<Key>, s: State)
    requires i <= |records|
    ensures var run := ApplyFrom(c, cur, records, i, r, keys, s);
      run.result.deleted == r.deleted &&
      (!run.aborted ==> Placed(run.result) == Placed(r) + |records| - i &&
                        run.result.errors == r.errors &&
                        run.keys == keys + KeysFrom(c.domain, c.sub, records, i)) &&
      (run.aborted ==> Placed(run.result) < Placed(r) + |records| - i && EndsWithAbort(run.result, r))
    decreases |records| - i
  {
    if i < |records| {
      var m := ApplyOne(c, cur, records[i], r, s);
      var k := KeyOf(c.domain, c.sub, records[i]);
      assert KeysFrom(c.domain, c.sub, records, i) == {k} + KeysFrom(c.domain, c.sub, records, i + 1);
      if !m.aborted {
        ApplyFromShape(c, cur, records, i + 1, m.result, keys + {k}, m.state);
      }
    }
  }

  /** When no requested record from the `i`-th on matches a candidate, phase one
      updates nothing and leaves nothing unchanged. */
  lemma {:induction false} ApplyFromNoMatch(c: Ctx, cur: Dict<Key, Live>, records: seq<Desired>, i: nat,
                                            r: SyncResult, keys: set<Key>, s: State)
    requires i <= |records|
    requires forall j :: i <= j < |records| ==> Get(cur, KeyOf(c.domain, c.sub, records[j])) == None
    ensures var run := ApplyFrom(c, cur, records, i, r, keys, s);
      run.result.updated == r.updated && run.result.untouched == r.untouched
    decreases |records| - i
  {
    if i < |records| {
      var m := ApplyOne(c, cur, records[i], r, s);
      if !m.aborted {
        ApplyFromNoMatch(c, cur, records, i + 1, m.result, keys + {KeyOf(c.domain, c.sub, records[i])}, m.state);
      }
    }
  }

  /** `res` extends `r`: the three lists of placed records only grew at the end. */
  predicate Extends(res: SyncResult, r: SyncResult) {
    r.created <= res.created && r.updated <= res.updated && r.untouched <= res.untouched
  }

  /** Where a requested record ends up: created with its payload when no
      candidate has its key, updated under the candidate's id with its payload
      when the candidate differs, reported unchanged as the candidate otherwise. */
  ghost predicate Written(c: Ctx, cur: Dict<Key, Live>, d: Desired, res: SyncResult) {
    var w := WantedFor(c.domain, c.sub, d);
    var f := Get(cur, (w.rtype, w.name));
    (f.None? ==> exists id :: Stored(id, PayloadOf(w)) in res.created) &&
    (f.Some? && NeedsUpdate(w, f.value) ==> Stored(f.value.id, PayloadOf(w)) in res.updated) &&
    (f.Some? && !NeedsUpdate(w, f.value) ==> f.value in res.untouched)
  }

  lemma InPrefix<T>(x: T, xs: seq<T>, ys: seq<T>)
    requires x in xs && xs <= ys
    ensures x in ys
  {
    var i :| 0 <= i < |xs| && xs[i] == x;
    assert ys[i] == x;
  }

  lemma WrittenKept(c: Ctx, cur: Dict<Key, Live>, d: Desired, r: SyncResult, res: SyncResult)
    requires Written(c, cur, d, r) && Extends(res, r)
    ensures Written(c, cur, d, res)
  {
    var w := WantedFor(c.domain, c.sub, d);
    var f := Get(cur, (w.rtype, w.name));
    if f.None? {
      var id :| Stored(id, PayloadOf(w)) in r.created;
      InPrefix(Stored(id, PayloadOf(w)), r.created, res.created);
    } else if NeedsUpdate(w, f.value) {
      InPrefix(Stored(f.value.id, PayloadOf(w)), r.updated, res.updated);
    } else {
      InPrefix(f.value, r.untouched, res.untouched);
    }
  }

  /** Phase one only appends to the three lists; when it runs to the end, every
      requested record from the `i`-th on was created, updated or left alone as
      `Written` says. */
  lemma {:induction false} ApplyFromWrites(c: Ctx, cur: Dict<Key, Live>, records: seq<Desired>, i: nat,
                                           r: SyncResult, keys: set<Key>, s: State)
    requires i <= |records|
    ensures var run := ApplyFrom(c, cur, records, i, r, keys, s);
      Extends(run.result, r) &&
      (!run.aborted ==> forall j :: i <= j < |records| ==> Written(c, cur, records[j], run.result))
    decreases |records| - i
  {
    if i < |records| {
      var m := ApplyOne(c, cur, records[i], r, s);
      var w := WantedFor(c.domain, c.sub, records[i]);
      assert Extends(m.result, r);
      if !m.aborted {
        if Get(cur, (w.rtype, w.name)).None? {
          assert Stored(s.nextId, PayloadOf(w)) in m.result.created;
        }
        assert Written(c, cur, records[i], m.result);
        var keys' := keys + {KeyOf(c.domain, c.sub, records[i])};
        ApplyFromWrites(c, cur, records, i + 1, m.result, keys', m.state);
        var run := ApplyFrom(c, cur, records, i + 1, m.result, keys', m.state);
        WrittenKept(c, cur, records[i], m.result, run.result);
      }
    }
  }

  /** Every requested record from the `i`-th on matches a candidate that is
      already in the wanted state. */
  predicate AllInWantedState(c: Ctx, cur: Dict<Key, Live>, records: seq<Desired>, i: nat) {
    forall j :: i <= j < |records| ==>
      var w := WantedFor(c.domain, c.sub, records[j]);
      Get(cur, (w.rtype, w.name)).Some? && !NeedsUpdate(w, Get(cur, (w.rtype, w.name)).value)
  }

  /** When every requested record is already in the wanted state, phase one makes
      no provider call and reports each of them as unchanged. */
  lemma {:induction false} ApplyFromQuiet(c: Ctx, cur: Dict<Key, Live>, records: seq<Desired>, i: nat,
                                          r: SyncResult, keys: set<Key>, s: State)
    requires i <= |records|
    requires AllInWantedState(c, cur, records, i)
    ensures var run := ApplyFrom(c, cur, records, i, r, keys, s);
      run.state == s && !run.aborted && run.result.created == r.created && run.result.updated == r.updated &&
      |run.result.untouched| == |r.untouched| + |records| - i
    decreases |records| - i
  {
    if i < |records| {
      var m := ApplyOne(c, cur, records[i], r, s);
      ApplyFromQuiet(c, cur, records, i + 1, m.result, keys + {KeyOf(c.domain, c.sub, records[i])}, m.state);
    }
  }

  /** What phase two added to the deleted list and to the errors. */
  function NewDeleted(res: SyncResult, r: SyncResult): seq<Live>
    requires |r.deleted| <= |res.deleted|
  {
    res.deleted[|r.deleted|..]
  }

  function NewErrors(res: SyncResult, r: SyncResult): seq<SyncError>
    requires |r.errors| <= |res.errors|
  {
    res.errors[|r.errors|..]
  }

  /** Phase two leaves the first three lists alone and only appends to the others. */
  lemma {:induction false} DeleteFromFrame(zone: string, cur: Dict<Key, Live>, keys: set<Key>, j: nat,
                                           r: SyncResult, s: State)
    requires j <= |cur|
    ensures var res := DeleteFrom(zone, cur, keys, j, r, s).result;
      res.created == r.created && res.updated == r.updated && res.untouched == r.untouched &&
      r.deleted <= res.deleted && r.errors <= res.errors
    decreases |cur| - j
  {
    if j < |cur| {
      if cur[j].0 in keys {
        DeleteFromFrame(zone, cur, keys, j + 1, r, s);
      } else {
        var m := DeleteOne(zone, cur[j].1, r, s);
        if !m.aborted {
          DeleteFromFrame(zone, cur, keys, j + 1, m.result, m.state);
        }
      }
    }
  }

  /** Phase two appends failed deletes, and, when an exception ends it, one
      `Aborted` error, last. */
  lemma {:induction false} DeleteFromErrors(zone: string, cur: Dict<Key, Live>, keys: set<Key>, j: nat,
                                            r: SyncResult, s: State)
    requires j <= |cur|
    ensures var run := DeleteFrom(zone, cur, keys, j, r, s);
      var res := run.result;
      res.created == r.created && res.updated == r.updated && res.untouched == r.untouched &&
      r.deleted <= res.deleted && r.errors <= res.errors &&
      var e := NewErrors(res, r);
      (forall k :: 0 <= k < |e| ==> e[k].DeleteFailed? || (run.aborted && k == |e| - 1)) &&
      (run.aborted ==> |e| > 0 && e[|e| - 1].Aborted?)
    decreases |cur| - j, 1
  {
    if j < |cur| {
      if cur[j].0 in keys {
        DeleteFromErrors(zone, cur, keys, j + 1, r, s);
      } else {
        DeleteTurnErrors(zone, cur, keys, j, r, s);
      }
    }
  }

  /** The same, when the `j`-th candidate is deleted. */
  lemma {:induction false} DeleteTurnErrors(zone: string, cur: Dict<Key, Live>, keys: set<Key>, j: nat,
                                            r: SyncResult, s: State)
    requires j < |cur| && cur[j].0 !in keys
    ensures var run := DeleteFrom(zone, cur, keys, j, r, s);
      var res := run.result;
      res.created == r.created && res.updated == r.updated && res.untouched == r.untouched &&
      r.deleted <= res.deleted && r.errors <= res.errors &&
      var e := NewErrors(res, r);
      (forall k :: 0 <= k < |e| ==> e[k].DeleteFailed? || (run.aborted && k == |e| - 1)) &&
      (run.aborted ==> |e| > 0 && e[|e| - 1].Aborted?)
    decreases |cur| - j, 0
  {
    DeleteFromFrame(zone, cur, keys, j, r, s);
    var m := DeleteOne(zone, cur[j].1, r, s);
    if !m.aborted {
      DeleteFromErrors(zone, cur, keys, j + 1, m.result, m.state);
      var run := DeleteFrom(zone, cur, keys, j + 1, m.result, m.state);
      assert DeleteFrom(zone, cur, keys, j, r, s) == run;
      var res := run.result;
      var e1: seq<SyncError>, e2: seq<SyncError> := NewErrors(m.result, r), NewErrors(res, m.result);
      assert e1 == [] || e1 == [DeleteFailed(cur[j].1)];
      assert NewErrors(res, r) == e1 + e2 by {
        assert res.errors[..|m.result.errors|] == m.result.errors;
      }
      ErrorShapeConcat(e1, e2, run.aborted);
    } else {
      assert NewErrors(m.result, r) == [m.result.errors[|r.errors|]];
    }
  }

  /** Failed deletes followed by a tail that may end with the abort keep that shape. */
  lemma ErrorShapeConcat(e1: seq<SyncError>, e2: seq<SyncError>, aborted: bool)
    requires forall k :: 0 <= k < |e1| ==> e1[k].DeleteFailed?
    requires forall k :: 0 <= k < |e2| ==> e2[k].DeleteFailed? || (aborted && k == |e2| - 1)
    requires aborted ==> |e2| > 0 && e2[|e2| - 1].Aborted?
    ensures forall k :: 0 <= k < |e1 + e2| ==> (e1 + e2)[k].DeleteFailed? || (aborted && k == |e1 + e2| - 1)
    ensures aborted ==> |e1 + e2| > 0 && (e1 + e2)[|e1 + e2| - 1].Aborted?
  {
    forall k | 0 <= k < |e1 + e2| ensures (e1 + e2)[k].DeleteFailed? || (aborted && k == |e1 + e2| - 1) {
      if k >= |e1| {
        assert (e1 + e2)[k] == e2[k - |e1|];
      }
    }
  }

  /** Phase two deletes or logs only candidates whose key is not wanted. */
  lemma {:induction false} DeleteFromOnlyOrphans(zone: string, cur: Dict<Key, Live>, keys: set<Key>, j: nat,
                                                 r: SyncResult, s: State)
    requires j <= |cur|
    ensures var run := DeleteFrom(zone, cur, keys, j, r, s);
      |r.deleted| <= |run.result.deleted| && |r.errors| <= |run.result.errors| &&
      (forall l :: l in NewDeleted(run.result, r) ==> l in OrphansFrom(cur, keys, j)) &&
      (forall l :: DeleteFailed(l) in NewErrors(run.result, r) ==> l in OrphansFrom(cur, keys, j))
    decreases |cur| - j
  {
    DeleteFromErrors(zone, cur, keys, j, r, s);
    if j < |cur| {
      if cur[j].0 in keys {
        DeleteFromOnlyOrphans(zone, cur, keys, j + 1, r, s);
      } else {
        var live := cur[j].1;
        var m := DeleteOne(zone, live, r, s);
        assert OrphansFrom(cur, keys, j) == [live] + OrphansFrom(cur, keys, j + 1);
        if !m.aborted {
          DeleteFromOnlyOrphans(zone, cur, keys, j + 1, m.result, m.state);
          DeleteFromErrors(zone, cur, keys, j + 1, m.result, m.state);
          var res := DeleteFrom(zone, cur, keys, j + 1, m.result, m.state).result;
          SplitNew(res, m.result, r);
        } else {
          assert NewDeleted(m.result, r) == [];
          assert NewErrors(m.result, r) == [m.result.errors[|r.errors|]];
        }
      }
    }
  }

  /** What two stages of phase two add is what the first adds followed by what the second adds. */
  lemma SplitNew(res: SyncResult, mid: SyncResult, r: SyncResult)
    requires r.deleted <= mid.deleted <= res.deleted && r.errors <= mid.errors <= res.errors
    ensures NewDeleted(res, r) == NewDeleted(mid, r) + NewDeleted(res, mid)
    ensures NewErrors(res, r) == NewErrors(mid, r) + NewErrors(res, mid)
  {
    assert res.deleted[..|mid.deleted|] == mid.deleted;
    assert res.errors[..|mid.errors|] == mid.errors;
  }

  /** When phase two finishes, it has deleted or logged every candidate whose key
      is not wanted, each once. */
  lemma {:induction false} DeleteFromAllOrphans(zone: string, cur: Dict<Key, Live>, keys: set<Key>, j: nat,
                                                r: SyncResult, s: State)
    requires j <= |cur|
    ensures var run := DeleteFrom(zone, cur, keys, j, r, s);
      |r.deleted| <= |run.result.deleted| && |r.errors| <= |run.result.errors| &&
      var d, e, o := NewDeleted(run.result, r), NewErrors(run.result, r), OrphansFrom(cur, keys, j);
      !run.aborted ==> |d| + |e| == |o| && forall l :: l in o ==> l in d || DeleteFailed(l) in e
    decreases |cur| - j
  {
    DeleteFromErrors(zone, cur, keys, j, r, s);
    if j < |cur| {
      if cur[j].0 in keys {
        DeleteFromAllOrphans(zone, cur, keys, j + 1, r, s);
      } else {
        var live := cur[j].1;
        var m := DeleteOne(zone, live, r, s);
        assert OrphansFrom(cur, keys, j) == [live] + OrphansFrom(cur, keys, j + 1);
        if !m.aborted {
          DeleteFromAllOrphans(zone, cur, keys, j + 1, m.result, m.state);
          DeleteFromErrors(zone, cur, keys, j + 1, m.result, m.state);
          var res := DeleteFrom(zone, cur, keys, j + 1, m.result, m.state).result;
          SplitNew(res, m.result, r);
        }
      }
    }
  }

  /** The listing `sync_domain_records` works from, when the listing succeeds. */
  function CurrentRecords(zoneIds: map<string, string>, domain: string, sub: string, s: State): Dict<Key, Live>
    requires domain in zoneIds && zoneIds[domain] in s.zones
  {
    Candidates(domain, sub, s.zones[zoneIds[domain]])
  }

  /** Phase one of a run whose listing succeeded. */
  function PhaseOne(zoneIds: map<string, string>, domain: string, sub: string,
                    records: seq<Desired>, s: State): Run
    requires domain in zoneIds && zoneIds[domain] in s.zones
  {
    var zone := zoneIds[domain];
    ApplyFrom(Ctx(domain, sub, zone), CurrentRecords(zoneIds, domain, sub, s), records, 0, EmptyResult, {},
              ListStep(s, zone, None).next)
  }

  /** A run ends in one of three ways: the listing fails, phase one stops, or
      phase one finishes and phase two runs over the listing's candidates. */
  lemma SyncCases(zoneIds: map<string, string>, domain: string, sub: string,
                  records: seq<Desired>, s: State)
    requires domain in zoneIds
    ensures var run := SyncSpec(zoneIds, domain, sub, records, s);
      var zone := zoneIds[domain];
      var ls := ListStep(s, zone, None);
      run.outcome.Done? &&
      (ls.reply != Accept ==> run.outcome.value.errors == [Aborted(Failure(ls.reply))] &&
                              Placed(run.outcome.value) == 0 && run.outcome.value.deleted == []) &&
      (ls.reply == Accept ==>
        zone in s.zones &&
        var p1 := PhaseOne(zoneIds, domain, sub, records, s);
        (p1.aborted ==> run.outcome.value == p1.result) &&
        (!p1.aborted ==>
           run.outcome.value ==
             DeleteFrom(zone, CurrentRecords(zoneIds, domain, sub, s), p1.keys, 0, p1.result, p1.state).result))
  {
  }

  /** Each processed record lands in exactly one of `created`, `updated`,
      `unchanged`; a run that raised nothing processed all of them; deletes happen
      only after every requested record was processed; and every error but the
      last is a failed delete, so there is at most one exception message. */
  lemma SyncPlacesRecords(zoneIds: map<string, string>, domain: string, sub: string,
                          records: seq<Desired>, s: State)
    ensures var run := SyncSpec(zoneIds, domain, sub, records, s);
      run.outcome.Done? ==>
        var res := run.outcome.value;
        Placed(res) <= |records| &&
        (!Stopped(res) ==> Placed(res) == |records|) &&
        (|res.deleted| > 0 ==> Placed(res) == |records|) &&
        (forall k :: 0 <= k < |res.errors| && res.errors[k].DeleteFailed? ==> Placed(res) == |records|) &&
        (forall k :: 0 <= k < |res.errors| - 1 ==> res.errors[k].DeleteFailed?)
  {
    if domain in zoneIds {
      SyncCases(zoneIds, domain, sub, records, s);
      var res := SyncSpec(zoneIds, domain, sub, records, s).outcome.value;
      var zone := zoneIds[domain];
      if ListStep(s, zone, None).reply == Accept {
        var cur := CurrentRecords(zoneIds, domain, sub, s);
        ApplyFromShape(Ctx(domain, sub, zone), cur, records, 0, EmptyResult, {}, ListStep(s, zone, None).next);
        var p1 := PhaseOne(zoneIds, domain, sub, records, s);
        if p1.aborted {
          assert res.errors[0].Aborted?;
        } else {
          DeleteFromErrors(zone, cur, p1.keys, 0, p1.result, p1.state);
          assert NewErrors(res, p1.result) == res.errors;
        }
      } else {
        assert res.errors[0].Aborted?;
      }
    }
  }

  /** A run that raised nothing deleted or logged exactly the candidates whose
      key is not among the requested keys, each once. */
  lemma SyncDeletesOrphans(zoneIds: map<string, string>, domain: string, sub: string,
                           records: seq<Desired>, s: State)
    ensures var run := SyncSpec(zoneIds, domain, sub, records, s);
      run.outcome.Done? && !Stopped(run.outcome.value) ==>
        var res := run.outcome.value;
        zoneIds[domain] in s.zones &&
        var orphans := OrphansFrom(CurrentRecords(zoneIds, domain, sub, s), DesiredKeys(domain, sub, records), 0);
        |res.deleted| + |res.errors| == |orphans| &&
        forall l :: l in orphans <==> l in res.deleted || DeleteFailed(l) in res.errors
  {
    if domain in zoneIds {
      SyncCases(zoneIds, domain, sub, records, s);
      var res := SyncSpec(zoneIds, domain, sub, records, s).outcome.value;
      var zone := zoneIds[domain];
      if ListStep(s, zone, None).reply == Accept {
        var cur := CurrentRecords(zoneIds, domain, sub, s);
        ApplyFromShape(Ctx(domain, sub, zone), cur, records, 0, EmptyResult, {}, ListStep(s, zone, None).next);
        var p1 := PhaseOne(zoneIds, domain, sub, records, s);
        if p1.aborted {
          assert res.errors[0].Aborted?;
        } else {
          assert p1.keys == DesiredKeys(domain, sub, records);
          DeleteFromErrors(zone, cur, p1.keys, 0, p1.result, p1.state);
          DeleteFromOnlyOrphans(zone, cur, p1.keys, 0, p1.result, p1.state);
          DeleteFromAllOrphans(zone, cur, p1.keys, 0, p1.result, p1.state);
          var p2 := DeleteFrom(zone, cur, p1.keys, 0, p1.result, p1.state);
          assert NewErrors(res, p1.result) == res.errors;
          assert NewDeleted(res, p1.result) == res.deleted;
          if p2.aborted {
            assert res.errors[|res.errors| - 1].Aborted?;
          }
        }
      } else {
        assert res.errors[0].Aborted?;
      }
    }
  }

  /** A run that raised nothing created every requested record that had no
      candidate, with the payload it asks for; updated every one whose candidate
      differs, under that candidate's id and with the payload it asks for; and
      reported the others unchanged. */
  lemma SyncWritesRequested(zoneIds: map<string, string>, domain: string, sub: string,
                            records: seq<Desired>, s: State)
    ensures var run := SyncSpec(zoneIds, domain, sub, records, s);
      run.outcome.Done? && !Stopped(run.outcome.value) ==>
        zoneIds[domain] in s.zones &&
        forall j :: 0 <= j < |records| ==>
          Written(Ctx(domain, sub, zoneIds[domain]), CurrentRecords(zoneIds, domain, sub, s), records[j],
                  run.outcome.value)
  {
    if domain in zoneIds {
      SyncCases(zoneIds, domain, sub, records, s);
      var res := SyncSpec(zoneIds, domain, sub, records, s).outcome.value;
      var zone := zoneIds[domain];
      if ListStep(s, zone, None).reply == Accept {
        var c := Ctx(domain, sub, zone);
        var cur := CurrentRecords(zoneIds, domain, sub, s);
        ApplyFromShape(c, cur, records, 0, EmptyResult, {}, ListStep(s, zone, None).next);
        ApplyFromWrites(c, cur, records, 0, EmptyResult, {}, ListStep(s, zone, None).next);
        var p1 := PhaseOne(zoneIds, domain, sub, records, s);
        if p1.aborted {
          assert res.errors[0].Aborted?;
        } else {
          DeleteFromFrame(zone, cur, p1.keys, 0, p1.result, p1.state);
          forall j | 0 <= j < |records| ensures Written(c, cur, records[j], res) {
            WrittenKept(c, cur, records[j], p1.result, res);
          }
        }
      } else {
        assert res.errors[0].Aborted?;
      }
    }
  }

  /** The length argument behind `NoMatchUnderSubdomain`. */
  lemma FullNameIsNotSub(domain: string, sub: string, name: string)
    requires sub != "@"
    ensures FullName(domain, sub, name) != sub + "." + domain
  {
    assert |FullName(domain, sub, name)| != |sub + "." + domain|;
  }

  lemma {:induction false} OrphansAll(cur: Dict<Key, Live>, keys: set<Key>, j: nat)
    requires j <= |cur|
    requires forall i :: j <= i < |cur| ==> cur[i].0 !in keys
    ensures |OrphansFrom(cur, keys, j)| == |cur| - j
    decreases |cur| - j
  {
    if j < |cur| { OrphansAll(cur, keys, j + 1); }
  }

  /** Under a subdomain other than `@`, no candidate's key is a requested key. */
  lemma CandidatesNotRequested(domain: string, sub: string, listed: seq<Live>, records: seq<Desired>)
    requires sub != "@"
    ensures var cur := Candidates(domain, sub, listed);
      forall i :: 0 <= i < |cur| ==> cur[i].0 !in DesiredKeys(domain, sub, records)
  {
    var cur := Candidates(domain, sub, listed);
    forall i | 0 <= i < |cur| ensures cur[i].0 !in DesiredKeys(domain, sub, records) {
      CandidateEntry(domain, sub, listed, i);
      if cur[i].0 in DesiredKeys(domain, sub, records) {
        var j :| 0 <= j < |records| && KeyOf(domain, sub, records[j]) == cur[i].0;
        FullNameIsNotSub(domain, sub, records[j].name);
      }
    }
  }

  /** Under a subdomain other than `@`, as written: nothing is updated or left
      unchanged, and a run that raised nothing created every requested record and
      deleted or logged every candidate. */
  lemma SyncUnderSubdomain(zoneIds: map<string, string>, domain: string, sub: string,
                           records: seq<Desired>, s: State)
    requires sub != "@"
    ensures var run := SyncSpec(zoneIds, domain, sub, records, s);
      run.outcome.Done? ==>
        var res := run.outcome.value;
        res.updated == [] && res.untouched == [] &&
        (!Stopped(res) ==>
           |res.created| == |records| && zoneIds[domain] in s.zones &&
           |res.deleted| + |res.errors| == |CurrentRecords(zoneIds, domain, sub, s)|)
  {
    SyncPlacesRecords(zoneIds, domain, sub, records, s);
    SyncDeletesOrphans(zoneIds, domain, sub, records, s);
    if domain in zoneIds {
      SyncCases(zoneIds, domain, sub, records, s);
      var zone := zoneIds[domain];
      var ls := ListStep(s, zone, None);
      if ls.reply == Accept {
        var cur := CurrentRecords(zoneIds, domain, sub, s);
        var c := Ctx(domain, sub, zone);
        forall j | 0 <= j < |records|
          ensures Get(cur, KeyOf(c.domain, c.sub, records[j])) == None
        {
          NoMatchUnderSubdomain(domain, sub, ls.value, records[j]);
        }
        ApplyFromNoMatch(c, cur, records, 0, EmptyResult, {}, ls.next);
        var p1 := PhaseOne(zoneIds, domain, sub, records, s);
        ApplyFromShape(c, cur, records, 0, EmptyResult, {}, ls.next);
        if !p1.aborted {
          DeleteFromErrors(zone, cur, p1.keys, 0, p1.result, p1.state);
          CandidatesNotRequested(domain, sub, s.zones[zone], records);
          OrphansAll(cur, DesiredKeys(domain, sub, records), 0);
        } else {
          assert SyncSpec(zoneIds, domain, sub, records, s).outcome.value.errors[0].Aborted?;
        }
      }
    }
  }

  /** Re-running a request whose records are all in place, under `@` or not,
      changes nothing at the provider beyond the listing and the deletes. */
  lemma SyncQuietWhenInPlace(zoneIds: map<string, string>, domain: string, sub: string,
                             records: seq<Desired>, s: State)
    requires domain in zoneIds && zoneIds[domain] in s.zones
    requires AllInWantedState(Ctx(domain, sub, zoneIds[domain]), CurrentRecords(zoneIds, domain, sub, s), records, 0)
    ensures var p1 := PhaseOne(zoneIds, domain, sub, records, s);
      !p1.aborted && p1.state == ListStep(s, zoneIds[domain], None).next &&
      p1.result.created == [] && p1.result.updated == [] && |p1.result.untouched| == |records|
  {
    var zone := zoneIds[domain];
    ApplyFromQuiet(Ctx(domain, sub, zone), CurrentRecords(zoneIds, domain, sub, s), records, 0,
                   EmptyResult, {}, ListStep(s, zone, None).next);
  }

  // ---------------------------------------------------------------- the sync, as the object does it

  class Manager {
    const zoneIds: map<string, string>
    const provider: DnsProvider

    constructor (domains: seq<DomainConfig>, provider: DnsProvider)
      ensures zoneIds == ZoneTable(domains) && this.provider == provider
    {
      var table := BuildZoneIds(domains);
      zoneIds := table;
      this.provider := provider;
    }

    /** `sync_domain_records` */
    method Sync(domain: string, sub: string, records: seq<Desired>) returns (res: Outcome<SyncResult>)
      modifies provider
      ensures SyncRun(res, provider.Snapshot()) == SyncSpec(zoneIds, domain, sub, records, old(provider.Snapshot()))
    {
      var zoneId := GetZoneId(zoneIds, domain);
      if zoneId.Raises? {
        return Raises(zoneId.error);
      }
      var zone := zoneId.value;
      var reply, listed := provider.List(zone, None);
      if reply != Accept {
        return Done(EmptyResult.(errors := [Aborted(Failure(reply))]));
      }
      var cur := CollectCandidates(domain, sub, listed);
      var r, keys, aborted := ApplyRecords(Ctx(domain, sub, zone), cur, records);
      if aborted {
        return Done(r);
      }
      r, aborted := DeleteOrphans(zone, cur, keys, r);
      return Done(r);
    }

    /** The body of the loop over the requested records. */
    method ApplyRecord(c: Ctx, cur: Dict<Key, Live>, d: Desired, r0: SyncResult)
      returns (r: SyncResult, aborted: bool)
      modifies provider
      ensures Move(r, provider.Snapshot(), aborted) == ApplyOne(c, cur, d, r0, old(provider.Snapshot()))
    {
      var w := WantedFor(c.domain, c.sub, d);
      var found := Get(cur, (w.rtype, w.name));
      r, aborted := r0, false;
      if found.Some? && !NeedsUpdate(w, found.value) {
        r := r.(untouched := r.untouched + [found.value]);
      } else if found.Some? {
        var reply, updated := provider.Update(c.zone, found.value.id, PayloadOf(w));
        if reply != Accept {
          r, aborted := r.(errors := r.errors + [Aborted(Failure(reply))]), true;
        } else {
          r := r.(updated := r.updated + [updated.value]);
        }
      } else {
        var reply, created := provider.Create(c.zone, PayloadOf(w));
        if reply != Accept {
          r, aborted := r.(errors := r.errors + [Aborted(Failure(reply))]), true;
        } else {
          r := r.(created := r.created + [created.value]);
        }
      }
    }

    /** The loop over the requested records. */
    method ApplyRecords(c: Ctx, cur: Dict<Key, Live>, records: seq<Desired>)
      returns (r: SyncResult, keys: set<Key>, aborted: bool)
      modifies provider
      ensures Run(r, provider.Snapshot(), keys, aborted) ==
              ApplyFrom(c, cur, records, 0, EmptyResult, {}, old(provider.Snapshot()))
    {
      ghost var s1 := provider.Snapshot();
      r, keys, aborted := EmptyResult, {}, false;
      var i := 0;
      while i < |records|
        invariant 0 <= i <= |records|
        invariant ApplyFrom(c, cur, records, i, r, keys, provider.Snapshot()) ==
                  ApplyFrom(c, cur, records, 0, EmptyResult, {}, s1)
        decreases |records| - i
      {
        keys := keys + {KeyOf(c.domain, c.sub, records[i])};
        r, aborted := ApplyRecord(c, cur, records[i], r);
        if aborted {
          return;
        }
        i := i + 1;
      }
    }

    /** The loop over the candidates no longer wanted. */
    method DeleteOrphans(zone: string, cur: Dict<Key, Live>, keys: set<Key>, r0: SyncResult)
      returns (r: SyncResult, aborted: bool)
      modifies provider
      ensures Run(r, provider.Snapshot(), keys, aborted) ==
              DeleteFrom(zone, cur, keys, 0, r0, old(provider.Snapshot()))
    {
      ghost var s2 := provider.Snapshot();
      r, aborted := r0, false;
      var j := 0;
      while j < |cur|
        invariant 0 <= j <= |cur|
        invariant DeleteFrom(zone, cur, keys, j, r, provider.Snapshot()) ==
                  DeleteFrom(zone, cur, keys, 0, r0, s2)
        decreases |cur| - j
      {
        if cur[j].0 !in keys {
          var live := cur[j].1;
          var reply, deleted := provider.Delete(zone, live.id);
          if reply.Reject? {
            r, aborted := r.(errors := r.errors + [Aborted(reply.message)]), true;
            return;
          }
          if deleted {
            r := r.(deleted := r.deleted + [live]);
          } else {
            r := r.(errors := r.errors + [DeleteFailed(live)]);
          }
        }
        j := j + 1;
      }
    }
  }

  /** The loop that builds `current_records` from the listing. */
  method CollectCandidates(domain: string, sub: string, listed: seq<Live>) returns (cur: Dict<Key, Live>)
    ensures cur == Candidates(domain, sub, listed)
  {
    cur := [];
    var i := 0;
    while i < |listed|
      invariant 0 <= i <= |listed|
      invariant cur == Candidates(domain, sub, listed[..i])
    {
      var l := listed[i];
      if (sub != "@" && l.name == sub + "." + domain) || (sub == "@" && l.name == domain) {
        cur := Put(cur, l.Key(), l);
      }
      assert listed[..i + 1][..i] == listed[..i];
      i := i + 1;
    }
    assert listed[..i] == listed;
  }
}

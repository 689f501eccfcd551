/** The single-request deployer: it reads one request file, checks it against
    the YAML domain configuration, and writes one DNS record (updating the first
    existing record of that name, or creating one), or deletes every record of
    that name. The request-file copies kept under `domains/<domain>/` are a map
    from `(domain, subdomain)` to the saved content. The deployer's HTTP client
    reports every failure as an empty listing, a `None` result or `False`. */
module DeployDns {
  import opened Values
  import opened Provider
  import Config

  /** The `record` object of a request. */
  datatype RecordSpec = RecordSpec(rtype: string, value: string, ttl: Option<int>,
                                   proxied: Option<bool>, priority: Option<int>)

  /** A request file as `json.load` returns it; `record` is `None` when the key is
      absent or `null` or the object is empty. */
  datatype Request = Request(domain: Option<string>, subdomain: Option<string>, record: Option<RecordSpec>)

  /** One entry of the `domains` mapping of `domains.yml`. */
  type DomainEntry = Config.KeyedDomain

  datatype Metadata = Metadata(deployedAt: string, deployedBy: string)

  /** The content of a saved request file: the request plus its `_metadata`. */
  datatype SavedRecord = SavedRecord(request: Request, metadata: Metadata)

  type Files = map<(string, string), SavedRecord>

  const DeployedBy := "github-actions"

  /** What a deploy works on once its guards have passed. */
  datatype Target = Target(domain: string, sub: string, record: RecordSpec, zone: string)

  /** The guards of `deploy_request`, in order: a readable file; `domain`,
      `subdomain` and `record` all present and truthy; a configured, enabled
      domain; a zone id. */
  function DeployTarget(domains: map<string, DomainEntry>, request: Option<Request>): (t: Option<Target>)
    ensures t.Some? <==>
      request.Some? && Truthy(request.value.domain) && Truthy(request.value.subdomain) &&
      request.value.record.Some? && request.value.domain.value in domains &&
      Config.Enabled(domains[request.value.domain.value]) && Truthy(domains[request.value.domain.value].zoneId)
    ensures t.Some? ==>
      t.value == Target(request.value.domain.value, request.value.subdomain.value, request.value.record.value,
                        domains[request.value.domain.value].zoneId.value)
  {
    if request.None? then None
    else
      var q := request.value;
      if !(Truthy(q.domain) && Truthy(q.subdomain) && q.record.Some?) then None
      else if q.domain.value !in domains || !Config.Enabled(domains[q.domain.value]) then None
      else if !Truthy(domains[q.domain.value].zoneId) then None
      else Some(Target(q.domain.value, q.subdomain.value, q.record.value, domains[q.domain.value].zoneId.value))
  }

  function FullDomain(domain: string, sub: string): string {
    sub + "." + domain
  }

  /** `record_data`: ttl defaults to 3600, proxied to False, and an MX record
      always carries a priority, 10 by default. */
  function DeployPayload(t: Target): (p: Payload)
    ensures p.rtype == t.record.rtype && p.name == FullDomain(t.domain, t.sub) && p.content == t.record.value
    ensures p.ttl == t.record.ttl.GetOr(3600) && p.proxied == t.record.proxied.GetOr(false)
    ensures p.priority.Some? <==> t.record.rtype == "MX"
    ensures p.priority.Some? ==> p.priority.value == t.record.priority.GetOr(10)
  {
    Payload(t.record.rtype, FullDomain(t.domain, t.sub), t.record.value,
            t.record.ttl.GetOr(3600), t.record.proxied.GetOr(false),
            if t.record.rtype == "MX" then Some(t.record.priority.GetOr(10)) else None)
  }

  /** The effect of one deployer call: its verdict, the provider's state and the saved files. */
  datatype DeployRun = DeployRun(ok: bool, state: State, files: Files)

  /** The write of a deploy: update the first listed record, or create one. */
  function WriteStep(t: Target, listed: seq<Live>, s: State): Step<Option<Live>> {
    if |listed| > 0 then UpdateStep(s, t.zone, listed[0].id, DeployPayload(t))
    else CreateStep(s, t.zone, DeployPayload(t))
  }

  /** `deploy_request` as a function of the configuration, the saved files, the
      request file, the clock and the provider's state. */
  function DeploySpec(domains: map<string, DomainEntry>, files: Files, request: Option<Request>,
                      now: string, s: State): (run: DeployRun)
    ensures DeployTarget(domains, request).None? ==> run == DeployRun(false, s, files)
    ensures run.ok ==>
      request.Some? && request.value.domain.Some? && request.value.subdomain.Some? &&
      run.files == files[(request.value.domain.value, request.value.subdomain.value) :=
                           SavedRecord(request.value, Metadata(now, DeployedBy))]
    ensures !run.ok ==> run.files == files
  {
    match DeployTarget(domains, request)
    case None => DeployRun(false, s, files)
    case Some(t) =>
      var ls := ListStep(s, t.zone, Some(FullDomain(t.domain, t.sub)));
      var st := WriteStep(t, ls.value, ls.next);
      if st.reply == Accept then
        DeployRun(true, st.next, files[(t.domain, t.sub) := SavedRecord(request.value, Metadata(now, DeployedBy))])
      else DeployRun(false, st.next, files)
  }

  /** Once the guards pass, a deploy makes exactly two provider calls: one
      listing and one write. */
  lemma DeployCallsOnce(domains: map<string, DomainEntry>, files: Files, request: Option<Request>,
                        now: string, s: State)
    requires DeployTarget(domains, request).Some?
    ensures DeploySpec(domains, files, request, now, s).state.replies == Tail(Tail(s.replies))
  {
  }

  /** A successful deploy leaves the provider holding the requested record: under
      the id of the first record of that name when there was one, under a fresh
      id otherwise. */
  lemma DeployStoresRecord(domains: map<string, DomainEntry>, files: Files, request: Option<Request>,
                           now: string, s: State)
    requires DeployTarget(domains, request).Some?
    ensures var t := DeployTarget(domains, request).value;
      var run := DeploySpec(domains, files, request, now, s);
      var listed := ListStep(s, t.zone, Some(FullDomain(t.domain, t.sub))).value;
      run.ok ==>
        t.zone in run.state.zones &&
        (|listed| > 0 ==> Stored(listed[0].id, DeployPayload(t)) in run.state.zones[t.zone] &&
                          run.state.nextId == s.nextId) &&
        (|listed| == 0 ==> Stored(s.nextId, DeployPayload(t)) in run.state.zones[t.zone] &&
                           run.state.nextId == s.nextId + 1)
  {
    var t := DeployTarget(domains, request).value;
    var ls := ListStep(s, t.zone, Some(FullDomain(t.domain, t.sub)));
    var st := WriteStep(t, ls.value, ls.next);
    if st.reply == Accept {
      if |ls.value| > 0 {
        var rs := ls.next.zones[t.zone];
        var id := ls.value[0].id;
        var i :| 0 <= i < |rs| && rs[i].id == id;
        assert ReplaceId(rs, id, Stored(id, DeployPayload(t)))[i] == Stored(id, DeployPayload(t));
      } else {
        var rs := ls.next.zones[t.zone];
        assert (rs + [Stored(s.nextId, DeployPayload(t))])[|rs|] == Stored(s.nextId, DeployPayload(t));
      }
    }
  }

  // ---------------------------------------------------------------- delete

  /** The guards of `delete_request`: a readable file, `domain` and `subdomain`
      present and truthy, a configured domain (enabled or not) with a zone id. */
  function DeleteTarget(domains: map<string, DomainEntry>, request: Option<Request>): (t: Option<(string, string, string)>)
    ensures t.Some? <==>
      request.Some? && Truthy(request.value.domain) && Truthy(request.value.subdomain) &&
      request.value.domain.value in domains && Truthy(domains[request.value.domain.value].zoneId)
    ensures t.Some? ==>
      t.value == (request.value.domain.value, request.value.subdomain.value,
                  domains[request.value.domain.value].zoneId.value)
  {
    if request.None? then None
    else
      var q := request.value;
      if !(Truthy(q.domain) && Truthy(q.subdomain)) then None
      else if q.domain.value !in domains then None
      else if !Truthy(domains[q.domain.value].zoneId) then None
      else Some((q.domain.value, q.subdomain.value, domains[q.domain.value].zoneId.value))
  }

  datatype Deletion = Deletion(ok: bool, state: State)

  /** The delete loop from the `i`-th listed record on: every record is tried,
      and the loop succeeds iff every delete does. */
  function DeleteAll(zone: string, recs: seq<Live>, i: nat, s: State): Deletion
    requires i <= |recs|
    decreases |recs| - i
  {
    if i == |recs| then Deletion(true, s)
    else
      var st := DeleteStep(s, zone, recs[i].id);
      var rest := DeleteAll(zone, recs, i + 1, st.next);
      Deletion(st.value && rest.ok, rest.state)
  }

  /** `n` calls' worth of replies consumed. */
  function Drop(replies: seq<Reply>, n: nat): seq<Reply> {
    if n <= |replies| then replies[n..] else []
  }

  /** The loop tries every listed record even after a failure, only removes
      records, and when it succeeds none of the listed ids is left in the zone. */
  lemma DeleteAllShape(zone: string, recs: seq<Live>, i: nat, s: State)
    requires i <= |recs|
    ensures var d := DeleteAll(zone, recs, i, s);
      d.state.replies == Drop(s.replies, |recs| - i) &&
      (zone in s.zones ==> zone in d.state.zones && forall x :: x in d.state.zones[zone] ==> x in s.zones[zone]) &&
      (d.ok && i < |recs| ==> zone in s.zones) &&
      (d.ok && zone in s.zones ==> forall x, j :: x in d.state.zones[zone] && i <= j < |recs| ==> x.id != recs[j].id)
  {
    DeleteAllReplies(zone, recs, i, s);
    DeleteAllZone(zone, recs, i, s);
  }

  /** Every listed record costs one call, failed or not. */
  lemma {:induction false} DeleteAllReplies(zone: string, recs: seq<Live>, i: nat, s: State)
    requires i <= |recs|
    ensures DeleteAll(zone, recs, i, s).state.replies == Drop(s.replies, |recs| - i)
    decreases |recs| - i
  {
    if i < |recs| {
      var st := DeleteStep(s, zone, recs[i].id);
      DeleteAllReplies(zone, recs, i + 1, st.next);
      assert st.next.replies == Tail(s.replies);
      if s.replies != [] {
        assert Tail(s.replies) == s.replies[1..];
        if |recs| - i <= |s.replies| {
          assert s.replies[1..][|recs| - (i + 1)..] == s.replies[|recs| - i..];
        }
      }
    }
  }

  /** The loop only removes records, and when it succeeds none of the listed
      ids is left in the zone. */
  lemma {:induction false} DeleteAllZone(zone: string, recs: seq<Live>, i: nat, s: State)
    requires i <= |recs|
    ensures var d := DeleteAll(zone, recs, i, s);
      (zone in s.zones ==> zone in d.state.zones && forall x :: x in d.state.zones[zone] ==> x in s.zones[zone]) &&
      (d.ok && i < |recs| ==> zone in s.zones) &&
      (d.ok && zone in s.zones ==> forall x, j :: x in d.state.zones[zone] && i <= j < |recs| ==> x.id != recs[j].id)
    decreases |recs| - i
  {
    if i < |recs| {
      var st := DeleteStep(s, zone, recs[i].id);
      DeleteAllZone(zone, recs, i + 1, st.next);
    }
  }

  /** `delete_request` as a function of the configuration, the saved files, the
      request file and the provider's state. */
  function DeleteSpec(domains: map<string, DomainEntry>, files: Files, request: Option<Request>,
                      s: State): (run: DeployRun)
    ensures DeleteTarget(domains, request).None? ==> run == DeployRun(false, s, files)
    ensures !run.ok ==> run.files == files
    ensures run.files != files ==>
      run.ok && DeleteTarget(domains, request).Some? &&
      var (domain, sub, zone) := DeleteTarget(domains, request).value;
      run.files == files - {(domain, sub)}
  {
    match DeleteTarget(domains, request)
    case None => DeployRun(false, s, files)
    case Some((domain, sub, zone)) =>
      var ls := ListStep(s, zone, Some(FullDomain(domain, sub)));
      if ls.value == [] then DeployRun(true, ls.next, files)
      else
        var d := DeleteAll(zone, ls.value, 0, ls.next);
        DeployRun(d.ok, d.state, if d.ok then files - {(domain, sub)} else files)
  }

  /** Whether a domain is enabled plays no part in a delete. */
  lemma DeleteIgnoresEnabled(domains: map<string, DomainEntry>, files: Files, request: Option<Request>,
                             s: State, domain: string, enabled: Option<bool>)
    requires domain in domains
    ensures DeleteSpec(domains[domain := domains[domain].(enabled := enabled)], files, request, s) ==
            DeleteSpec(domains, files, request, s)
  {
    var domains' := domains[domain := domains[domain].(enabled := enabled)];
    assert DeleteTarget(domains', request) == DeleteTarget(domains, request);
  }

  /** A delete that reports success after a successful listing leaves no record
      of that name in the zone. When the listing itself fails, the deployer sees
      an empty list and reports success without deleting anything. */
  lemma DeleteClearsName(domains: map<string, DomainEntry>, files: Files, request: Option<Request>, s: State)
    requires DeleteTarget(domains, request).Some?
    ensures var (domain, sub, zone) := DeleteTarget(domains, request).value;
      var run := DeleteSpec(domains, files, request, s);
      var ls := ListStep(s, zone, Some(FullDomain(domain, sub)));
      (ls.reply != Accept ==> run.ok && run.state.zones == s.zones) &&
      (run.ok && ls.reply == Accept ==> zone in run.state.zones && Named(run.state.zones[zone], FullDomain(domain, sub)) == [])
  {
    var (domain, sub, zone) := DeleteTarget(domains, request).value;
    var ls := ListStep(s, zone, Some(FullDomain(domain, sub)));
    var run := DeleteSpec(domains, files, request, s);
    if ls.reply == Accept && run.ok && ls.value != [] {
      DeleteAllShape(zone, ls.value, 0, ls.next);
      var rest := run.state.zones[zone];
      forall x | x in rest ensures x.name != FullDomain(domain, sub) {
        assert x in s.zones[zone];
        assert x !in ls.value;
      }
      NamedEmpty(rest, FullDomain(domain, sub));
    } else if ls.reply == Accept && ls.value == [] {
      forall x | x in s.zones[zone] ensures x.name != FullDomain(domain, sub) {
        assert x !in ls.value;
      }
      NamedEmpty(s.zones[zone], FullDomain(domain, sub));
    }
  }

  lemma NamedEmpty(rs: seq<Live>, name: string)
    requires forall x :: x in rs ==> x.name != name
    ensures Named(rs, name) == []
  {
    if Named(rs, name) != [] {
      assert Named(rs, name)[0] in Named(rs, name);
    }
  }

  // ---------------------------------------------------------------- the deployer object

  class Deployer {
    const domains: map<string, DomainEntry>
    const api: DnsProvider
    var files: Files

    constructor (domains: map<string, DomainEntry>, api: DnsProvider, files: Files)
      ensures this.domains == domains && this.api == api && this.files == files
    {
      this.domains := domains;
      this.api := api;
      this.files := files;
    }

    /** `save_domain_record`: the request gains `_metadata` and is written to its file. */
    method SaveDomainRecord(domain: string, sub: string, request: Request, now: string)
      modifies this
      ensures files == old(files)[(domain, sub) := SavedRecord(request, Metadata(now, DeployedBy))]
    {
      files := files[(domain, sub) := SavedRecord(request, Metadata(now, DeployedBy))];
    }

    /** `remove_domain_record`: the file goes if it exists. */
    method RemoveDomainRecord(domain: string, sub: string)
      modifies this
      ensures files == old(files) - {(domain, sub)}
    {
      files := files - {(domain, sub)};
    }

    /** `deploy_request`; `now` is the clock reading saved as `deployed_at`. */
    method DeployRequest(request: Option<Request>, now: string) returns (ok: bool)
      modifies this, api
      ensures DeployRun(ok, api.Snapshot(), files) == DeploySpec(domains, old(files), request, now, old(api.Snapshot()))
    {
      var target := DeployTarget(domains, request);
      if target.None? {
        return false;
      }
      var t := target.value;
      var full := FullDomain(t.domain, t.sub);
      var payload := DeployPayload(t);
      var reply, existing := api.List(t.zone, Some(full));
      var written: Option<Live>;
      if |existing| > 0 {
        reply, written := api.Update(t.zone, existing[0].id, payload);
      } else {
        reply, written := api.Create(t.zone, payload);
      }
      if written.Some? {
        SaveDomainRecord(t.domain, t.sub, request.value, now);
        return true;
      }
      return false;
    }

    /** `delete_request` */
    method DeleteRequest(request: Option<Request>) returns (ok: bool)
      modifies this, api
      ensures DeployRun(ok, api.Snapshot(), files) == DeleteSpec(domains, old(files), request, old(api.Snapshot()))
    {
      var target := DeleteTarget(domains, request);
      if target.None? {
        return false;
      }
      var (domain, sub, zone) := target.value;
      var reply, existing := api.List(zone, Some(FullDomain(domain, sub)));
      if existing == [] {
        return true;
      }
      ghost var s1 := api.Snapshot();
      var success := true;
      var i := 0;
      while i < |existing|
        invariant 0 <= i <= |existing|
        invariant this.files == old(files)
        invariant var rest := DeleteAll(zone, existing, i, api.Snapshot());
          Deletion(success && rest.ok, rest.state) == DeleteAll(zone, existing, 0, s1)
        decreases |existing| - i
      {
        var reply, deleted := api.Delete(zone, existing[i].id);
        if !deleted {
          success := false;
        }
        i := i + 1;
      }
      if success {
        RemoveDomainRecord(domain, sub);
      }
      return success;
    }
  }
}

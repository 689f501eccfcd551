/** The project's configuration as the scripts read it. `config/domains.json`
    lists the domains on offer, each an object with a name, an enabled flag, a
    description and a zone id, beside the allowed record types and the record
    limit; `config/domains.yml` keys the domains by name. */
module Config {
  import opened Values

  /** An entry of the `domains` list of `config/domains.json`; a key the entry
      leaves out is `None`. */
  datatype ListedDomain = ListedDomain(name: Option<string>, enabled: Option<bool>,
                                       description: Option<string>, zoneId: Option<string>)

  /** `config/domains.json` */
  datatype ProjectConfig = ProjectConfig(domains: seq<ListedDomain>, recordTypes: Option<seq<string>>,
                                         maxRecords: Option<int>)

  /** An entry of the `domains` map of `config/domains.yml`: its `enabled` and
      `cloudflare_zone_id` keys, and whether it has any other key. */
  datatype KeyedDomain = KeyedDomain(enabled: Option<bool>, zoneId: Option<string>, otherKeys: bool)

  /** The entry is truthy: a mapping with at least one key. */
  predicate NonEmpty(d: KeyedDomain) {
    d.enabled.Some? || d.zoneId.Some? || d.otherKeys
  }

  /** `entry.get("enabled", False)` is true. */
  predicate Enabled(d: KeyedDomain) {
    d.enabled == Some(true)
  }

  predicate Names(d: ListedDomain, name: string) {
    d.name == Some(name)
  }

  /** The first entry of the list with the given name, if any. */
  function FirstNamed(domains: seq<ListedDomain>, name: string): (r: Option<ListedDomain>)
    ensures r.None? <==> forall i :: 0 <= i < |domains| ==> !Names(domains[i], name)
    ensures r.Some? ==> exists i :: 0 <= i < |domains| && domains[i] == r.value && Names(r.value, name) &&
                                    forall j :: 0 <= j < i ==> !Names(domains[j], name)
  {
    if |domains| == 0 then None
    else if Names(domains[0], name) then Some(domains[0])
    else
      var r := FirstNamed(domains[1..], name);
      assert forall i :: 0 < i < |domains| ==> domains[i] == domains[1..][i - 1];
      if r.Some? then
        var i :| 0 <= i < |domains[1..]| && domains[1..][i] == r.value && Names(r.value, name) &&
                 forall j :: 0 <= j < i ==> !Names(domains[1..][j], name);
        assert domains[i + 1] == r.value;
        r
      else r
  }

  /** The search loop the scripts write over `config['domains']`: the first
      entry whose `name` matches, or `None`. */
  method FindDomain(domains: seq<ListedDomain>, name: string) returns (r: Option<ListedDomain>)
    ensures r == FirstNamed(domains, name)
  {
    var i := 0;
    while i < |domains|
      invariant 0 <= i <= |domains|
      invariant FirstNamed(domains, name) == FirstNamed(domains[i..], name)
    {
      if domains[i].name == Some(name) {
        return Some(domains[i]);
      }
      assert domains[i..][1..] == domains[i + 1..];
      i := i + 1;
    }
    return None;
  }
}

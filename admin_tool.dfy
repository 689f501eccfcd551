/** The administrator's domain registry: the `domains` list of
    `config/domains.json`, edited in place, beside the `domains/<name>/`
    directories, each given by its listing. Writing the configuration back to
    disk is not modelled. */
module AdminTool {
  import opened Values
  import opened Text
  import opened Config

  /** Index of the first entry with the given name, or -1. */
  function FirstIndexNamed(domains: seq<ListedDomain>, name: string): (r: int)
    ensures r == -1 <==> forall i :: 0 <= i < |domains| ==> !Names(domains[i], name)
    ensures r != -1 ==> 0 <= r < |domains| && Names(domains[r], name) &&
                        forall j :: 0 <= j < r ==> !Names(domains[j], name)
    decreases |domains|
  {
    if |domains| == 0 then -1
    else if Names(domains[0], name) then 0
    else
      var k := FirstIndexNamed(domains[1..], name);
      assert forall i :: 0 < i < |domains| ==> domains[i] == domains[1..][i - 1];
      if k == -1 then -1 else k + 1
  }

  /** The entry the lookup returns sits at the first index with that name. */
  lemma FirstNamedAtIndex(domains: seq<ListedDomain>, name: string)
    ensures var i := FirstIndexNamed(domains, name);
      (i == -1 <==> FirstNamed(domains, name).None?) &&
      (i != -1 ==> FirstNamed(domains, name) == Some(domains[i]))
  {
    var i := FirstIndexNamed(domains, name);
    var r := FirstNamed(domains, name);
    if r.Some? {
      var k :| 0 <= k < |domains| && domains[k] == r.value && Names(r.value, name) &&
               forall j :: 0 <= j < k ==> !Names(domains[j], name);
      assert i == k;
    }
  }

  /** The entry `add_domain` appends. */
  function NewEntry(name: string, zoneId: string, description: string, enabled: bool): (d: ListedDomain)
    ensures Names(d, name)
  {
    ListedDomain(Some(name), Some(enabled), Some(description), Some(zoneId))
  }

  /** An entry after `update_domain`: each field given a value takes it, and the
      fields given `None` keep theirs. */
  function Updated(d: ListedDomain, zoneId: Option<string>, description: Option<string>, enabled: Option<bool>): ListedDomain {
    var a := if zoneId.Some? then d.(zoneId := zoneId) else d;
    var b := if description.Some? then a.(description := description) else a;
    if enabled.Some? then b.(enabled := enabled) else b
  }

  lemma UpdatedFields(d: ListedDomain, zoneId: Option<string>, description: Option<string>, enabled: Option<bool>)
    ensures var u := Updated(d, zoneId, description, enabled);
      && u.name == d.name
      && u.zoneId == (if zoneId.Some? then zoneId else d.zoneId)
      && u.description == (if description.Some? then description else d.description)
      && u.enabled == (if enabled.Some? then enabled else d.enabled)
  {
  }

  /** Giving no field leaves the entry as it was. */
  lemma UpdatedNothing(d: ListedDomain)
    ensures Updated(d, None, None, None) == d
  {
  }

  /** The list without the entries of that name (`[d for d in domains if d.get('name') != name]`). */
  function WithoutName(domains: seq<ListedDomain>, name: string): (r: seq<ListedDomain>)
    ensures |r| <= |domains|
    ensures forall d :: d in r <==> d in domains && !Names(d, name)
    decreases |domains|
  {
    if domains == [] then []
    else
      var init := domains[..|domains| - 1];
      var last := domains[|domains| - 1];
      assert domains == init + [last];
      WithoutName(init, name) + if Names(last, name) then [] else [last]
  }

  /** Removing keeps the other entries in their order: it works part by part. */
  lemma {:induction false} WithoutNameAppend(a: seq<ListedDomain>, b: seq<ListedDomain>, name: string)
    ensures WithoutName(a + b, name) == WithoutName(a, name) + WithoutName(b, name)
    decreases |b|
  {
    if b != [] {
      var init := b[..|b| - 1];
      var last := b[|b| - 1];
      assert (a + b)[..|a + b| - 1] == a + init;
      assert (a + b)[|a + b| - 1] == last;
      WithoutNameAppend(a, init, name);
      assert WithoutName(a + b, name) == WithoutName(a + init, name) + if Names(last, name) then [] else [last];
      assert WithoutName(b, name) == WithoutName(init, name) + if Names(last, name) then [] else [last];
    } else {
      assert a + b == a;
    }
  }

  /** A list with no entry of that name is left as it is. */
  lemma {:induction false} WithoutAbsentName(domains: seq<ListedDomain>, name: string)
    requires forall i :: 0 <= i < |domains| ==> !Names(domains[i], name)
    ensures WithoutName(domains, name) == domains
    decreases |domains|
  {
    if domains != [] {
      var init := domains[..|domains| - 1];
      var last := domains[|domains| - 1];
      assert !Names(last, name);
      WithoutAbsentName(init, name);
      assert WithoutName(domains, name) == WithoutName(init, name) + [last];
      assert init + [last] == domains;
    }
  }

  /** The subdomain files of a listing: `.json` files other than `example.json`. */
  predicate IsSubdomainFile(f: string) {
    EndsWith(f, ".json") && f != "example.json"
  }

  /** `[f[:-5] for f in listing if f.endswith('.json') and f != 'example.json']` */
  function SubdomainStems(files: seq<string>): (r: seq<string>)
    ensures |r| <= |files|
    decreases |files|
  {
    if files == [] then []
    else
      var init := files[..|files| - 1];
      var f := files[|files| - 1];
      SubdomainStems(init) + if IsSubdomainFile(f) then [f[..|f| - 5]] else []
  }

  /** The stems are exactly the subdomain files' names without `.json`. */
  lemma {:induction false} SubdomainStemsMeaning(files: seq<string>)
    ensures forall s :: s in SubdomainStems(files) ==> s + ".json" in files && s + ".json" != "example.json"
    ensures forall f :: f in files && IsSubdomainFile(f) ==> f[..|f| - 5] in SubdomainStems(files)
    decreases |files|
  {
    if files != [] {
      var init := files[..|files| - 1];
      var f := files[|files| - 1];
      SubdomainStemsMeaning(init);
      assert files == init + [f];
      if IsSubdomainFile(f) {
        assert f[..|f| - 5] + ".json" == f;
      }
    }
  }

  /** A listing whose only `.json` file is `example.json` has no subdomains. */
  lemma {:induction false} OnlyExampleFile(files: seq<string>)
    requires forall i :: 0 <= i < |files| ==> !IsSubdomainFile(files[i])
    ensures SubdomainStems(files) == []
    decreases |files|
  {
    if files != [] {
      OnlyExampleFile(files[..|files| - 1]);
    }
  }

  /** The listing without one file name. */
  function WithoutFile(files: seq<string>, f: string): (r: seq<string>)
    ensures forall g :: g in r <==> g in files && g != f
    decreases |files|
  {
    if files == [] then []
    else
      var init := files[..|files| - 1];
      var last := files[|files| - 1];
      assert files == init + [last];
      WithoutFile(init, f) + if last == f then [] else [last]
  }

  class Registry {
    /** `self.config['domains']` */
    var domains: seq<ListedDomain>
    /** The listing of each existing `domains/<name>/` directory. */
    var dirs: map<string, seq<string>>

    constructor (domains: seq<ListedDomain>, dirs: map<string, seq<string>>)
      ensures this.domains == domains && this.dirs == dirs
    {
      this.domains := domains;
      this.dirs := dirs;
    }

    /** `get_domain_config(domain)` */
    method GetDomainConfig(name: string) returns (r: Option<ListedDomain>)
      ensures r == FirstNamed(domains, name)
    {
      r := FindDomain(domains, name);
    }

    /** `add_domain(name, zone_id, description, enabled)`: refused for a name
      already listed; otherwise the entry is appended and the directory made. */
    method AddDomain(name: string, zoneId: string, description: string, enabled: bool) returns (ok: bool)
      modifies this
      ensures ok <==> FirstNamed(old(domains), name).None?
      ensures !ok ==> domains == old(domains) && dirs == old(dirs)
      ensures ok ==> domains == old(domains) + [NewEntry(name, zoneId, description, enabled)]
      ensures ok ==> dirs == if name in old(dirs) then old(dirs) else old(dirs)[name := []]
    {
      var existing := GetDomainConfig(name);
      if existing.Some? {
        return false;
      }
      domains := domains + [ListedDomain(Some(name), Some(enabled), Some(description), Some(zoneId))];
      if name !in dirs {
        dirs := dirs[name := []];
      }
      return true;
    }

    /** `update_domain(name, zone_id, description, enabled)`: the first entry of
      that name takes the fields given; nothing else changes. */
    method UpdateDomain(name: string, zoneId: Option<string>, description: Option<string>, enabled: Option<bool>)
      returns (ok: bool)
      modifies this
      ensures ok <==> FirstNamed(old(domains), name).Some?
      ensures dirs == old(dirs)
      ensures !ok ==> domains == old(domains)
      ensures ok ==> var i := FirstIndexNamed(old(domains), name);
        domains == old(domains)[i := Updated(old(domains)[i], zoneId, description, enabled)]
    {
      FirstNamedAtIndex(domains, name);
      var i := 0;
      while i < |domains| && domains[i].name != Some(name)
        invariant 0 <= i <= |domains|
        invariant forall j :: 0 <= j < i ==> !Names(domains[j], name)
      {
        i := i + 1;
      }
      if i == |domains| {
        return false;
      }
      assert i == FirstIndexNamed(domains, name);
      if zoneId.Some? {
        domains := domains[i := domains[i].(zoneId := zoneId)];
      }
      if description.Some? {
        domains := domains[i := domains[i].(description := description)];
      }
      if enabled.Some? {
        domains := domains[i := domains[i].(enabled := enabled)];
      }
      return true;
    }

    /** `remove_domain(name, force)`: refused for an unlisted name, and for a
      directory holding subdomain files unless forced; otherwise every entry of
      that name leaves the list. */
    method RemoveDomain(name: string, force: bool) returns (ok: bool)
      modifies this
      ensures ok <==> FirstNamed(old(domains), name).Some? &&
                      (force || name !in old(dirs) || SubdomainStems(old(dirs)[name]) == [])
      ensures dirs == old(dirs)
      ensures ok ==> domains == WithoutName(old(domains), name)
      ensures !ok ==> domains == old(domains)
    {
      var existing := GetDomainConfig(name);
      if existing.None? {
        return false;
      }
      if name in dirs {
        var subdomains := ListStems(dirs[name]);
        if subdomains != [] && !force {
          return false;
        }
      }
      var kept: seq<ListedDomain> := [];
      for i := 0 to |domains|
        invariant kept == WithoutName(domains[..i], name)
      {
        assert domains[..i + 1][..i] == domains[..i];
        if domains[i].name != Some(name) {
          kept := kept + [domains[i]];
        }
      }
      assert domains[..|domains|] == domains;
      domains := kept;
      return true;
    }

    /** `list_subdomains(domain)` */
    method ListSubdomains(domain: string) returns (subs: seq<string>)
      ensures subs == if domain in dirs then SubdomainStems(dirs[domain]) else []
    {
      if domain !in dirs {
        return [];
      }
      subs := ListStems(dirs[domain]);
    }

    /** `remove_subdomain(domain, subdomain)`: refused when the file does not
      exist; otherwise the file leaves the directory. */
    method RemoveSubdomain(domain: string, sub: string) returns (ok: bool)
      modifies this
      ensures ok <==> domain in old(dirs) && sub + ".json" in old(dirs)[domain]
      ensures domains == old(domains)
      ensures ok ==> dirs == old(dirs)[domain := WithoutFile(old(dirs)[domain], sub + ".json")]
      ensures !ok ==> dirs == old(dirs)
    {
      var file := sub + ".json";
      if domain !in dirs || file !in dirs[domain] {
        return false;
      }
      dirs := dirs[domain := WithoutFile(dirs[domain], file)];
      return true;
    }
  }

  /** The comprehension over a directory listing. */
  method ListStems(files: seq<string>) returns (subs: seq<string>)
    ensures subs == SubdomainStems(files)
  {
    subs := [];
    for i := 0 to |files|
      invariant subs == SubdomainStems(files[..i])
    {
      assert files[..i + 1][..i] == files[..i];
      var f := files[i];
      if EndsWith(f, ".json") && f != "example.json" {
        subs := subs + [f[..|f| - 5]];
      }
    }
    assert files[..|files|] == files;
  }
}

# LibreDomains scripts, modelled in Dafny

LibreDomains hands out free subdomains of a few shared domains. A user asks for
one with a pull request that adds a JSON file (or, in the bot's variant, an entry
of a JSON list). The project's Python scripts then do the rest:

- They validate the file and check who owns the subdomain.
- They decide whether the pull request passes.
- They publish the records at Cloudflare by reconciling the wanted records with
  the live ones.
- They check that the records have propagated and report the health of every
  subdomain.
- An administrator keeps the list of offered domains with a small tool.

This project models the decision and string logic of those scripts. Every
HTTP, GitHub, DNS and filesystem call becomes abstract state or an oracle:

- The DNS provider is an object holding one table of records per zone. It is
  given a sequence of answers that decides which calls fail.
- The resolver is a sequence of lookup outcomes, one per attempt.
- Files that exist, their parsed content and directory listings are maps
  handed in.
- The JSON-schema check, the IPv6 test and the GitHub account lookups are
  parameters.

Code that works step by step is modelled as methods with loops. Each method is
proved equal to a specification function, and the properties are proved as
lemmas about those functions. Pure checks are modelled as functions and
predicates.

The modules follow the scripts:

| file | module | models |
|---|---|---|
| values.dfy | Values | Option, JSON values and Python's `==` on them, Python's truthiness and `bool`-is-`int` |
| text.dfy | Text | the `str` methods the scripts call: `lower`, `upper`, `strip`, `split`, `rstrip('.')`, `int` digits |
| assoc.dfy | Assoc | a Python `dict` as an insertion-ordered association list |
| config.dfy | Config | the two configuration shapes, and the find-first loop over `config['domains']` |
| patterns.dfy | Patterns | the shared regular expressions, as character-class predicates |
| common.dfy | Common | `scripts/utils/common.py` |
| provider.dfy | Provider | the DNS provider both Cloudflare clients talk to |
| cloudflare_manager.dfy | CloudflareManager | `scripts/cloudflare/cloudflare_manager.py` |
| deploy_dns.dfy | DeployDns | `scripts/deploy_dns.py` |
| dns_utils.dfy | DnsUtils | `scripts/dns/dns_utils.py` |
| domain_health.dfy | DomainHealth | `scripts/health/domain_health.py` |
| domain_validator.dfy | DomainValidator | `scripts/validation/domain_validator.py` |
| validate_request.dfy | ValidateRequest | `scripts/validate_request.py` |
| admin_tool.dfy | AdminTool | `scripts/admin/admin_tool.py` |
| pr_checker.dfy | PrChecker | `scripts/bot/pr_checker.py` |
| bot.dfy | Bot | `bot.py` |

The model follows the code as written, including where the code and its
documentation part ways:

- The Cloudflare sync resolves a record named `@` to the bare domain even under
  a subdomain. It only treats live records named exactly `sub.domain` as its
  own. So under any subdomain other than `@`, nothing is ever matched: every
  wanted record is created and every live record of the subdomain deleted
  (`CloudflareManager.SyncUnderSubdomain`).
- `is_valid_domain_name` in `domain_validator.py` checks a single label, not a
  dotted name (`DomainValidator.SameAsCommonSubdomain`).
- The AAAA check of `validate_record` uses the same address test as A, so an
  IPv4 address passes as AAAA content (`DomainValidator.AaaaTakesIpv4`).
- The title pattern of `bot.py` has no end anchor, so text after the domain is
  accepted (`Bot.TitleRoundTrip`).

One place departs from the code as written, and "## Findings" records it: a
delete the provider declines is logged and the delete loop goes on
(`CloudflareManager.DeleteOne`). As written, the exception raised for the
declined response ends the run (`CloudflareManager.DeleteOneAsWritten`).

## Model

| member | source | states |
|---|---|---|
| Config.FirstNamed | scripts/admin/admin_tool.py:60-63 | the first entry of the domain list with the given name, or `None` exactly when no entry has it |
| Config.FindDomain | scripts/admin/admin_tool.py:60-63 | the search loop returns the first entry with the given name, or `None` |
| Assoc.Put | scripts/validation/domain_validator.py:354 | `d[k] = v`: the key is added at the end when new and overwritten in place otherwise; all other lookups are unchanged and keys stay distinct |
| Assoc.PutLookups | scripts/bot/pr_checker.py:347-348 | either way of storing a key leaves it mapped to the new value and every other key untouched |
| Text.StripTrailingDot | scripts/dns/dns_utils.py:206-208 | `s[:-1] if s.endswith('.') else s`: the result is `s`, or `s` with one dot removed |
| Text.StripTrailingDotAdded | scripts/dns/dns_utils.py:206-208 | removing one trailing dot undoes adding one |
| Text.Split | scripts/utils/common.py:181 | `str.split(c)` gives at least one part, none holding `c`, and `[s]` when `c` is absent |
| Text.SplitJoin | scripts/utils/common.py:181 | joining the parts of a split with the separator gives back the string |
| Text.JoinSplit | scripts/bot/pr_checker.py:164-165 | splitting lines joined by the separator gives back the lines |
| Text.SplitWhitespace | scripts/validate_request.py:240 | `str.split()` returns non-empty words without white space |
| Text.ReplaceChar | scripts/utils/common.py:181 | `replace('\\', '/')` changes exactly the backslashes |
| Text.NatToStringValue | scripts/validate_request.py:243-249 | a numeral written out reads back as its value, and numbers below 1000 take at most three digits |
| Patterns.LabelHasNoDot | scripts/utils/common.py:117-118 | a DNS label holds no dot |
| Patterns.DottedNameOfLabels | scripts/utils/common.py:92-93 | labels joined by dots form a dotted name that splits back into those labels |
| Patterns.DottedNameNotEmpty | scripts/utils/common.py:92-93 | a dotted name is non-empty and has no empty label |
| Patterns.OctetMeansByte | scripts/validate_request.py:215-218 | the octet alternatives accept exactly the numerals of 1 to 3 digits with value at most 255 |
| Patterns.Ipv4OfBytes | scripts/validate_request.py:215-218 | any four byte values in dotted form are an IPv4 address made of those four octets |
| Patterns.ByteNumeral | scripts/validate_request.py:215-218 | the numeral of a value below 256 is an octet with that value and holds no dot |
| Patterns.MailDomainOfParts | scripts/utils/common.py:152-153 | a host and a top-level domain of two or more letters form the part after `@` |
| Patterns.EmailOfParts | scripts/utils/common.py:152-153 | any local part, host and top-level domain of the stated classes form a valid address |
| Patterns.GithubUsernameWords | scripts/utils/common.py:166-167 | a GitHub user name is exactly 1 to 39 characters of alphanumeric words joined by single hyphens |
| Patterns.HyphenWords | scripts/utils/common.py:166-167 | the look-ahead rule (every hyphen followed by an alphanumeric, first character alphanumeric) is the same as splitting into non-empty alphanumeric words |
| Common.DomainNameBounds | scripts/utils/common.py:83-93 | `is_valid_domain_name` holds iff the name has at most 253 characters and matches the dotted pattern case-insensitively, which rejects the empty string |
| Common.DomainNameOfLabels | scripts/utils/common.py:83-93 | labels joined by dots are a valid domain name when at most 253 characters long |
| Common.LowerAll | scripts/utils/common.py:113 | `[r.lower() for r in reserved]`, element by element |
| Common.AtIsValidSubdomain | scripts/utils/common.py:108-109 | `@` is accepted even when it is listed as reserved |
| Common.ReservedRefused | scripts/utils/common.py:112-114 | a name listed as reserved in any letter case is refused |
| Common.SubdomainIsOneLabel | scripts/utils/common.py:116-118 | a valid subdomain other than `@` has no dot and is a valid domain name |
| Common.Splitext | scripts/utils/common.py:193 | `os.path.splitext` cuts the path into stem and extension, the extension empty or one dot with no dot or slash after it |
| Common.SplitextJson | scripts/utils/common.py:193 | `<stem>.json` splits into the stem and `.json` |
| Common.FindPart | scripts/utils/common.py:182-187 | the index of the first `domains` segment, or -1 exactly when there is none |
| Common.GetSubdomainFromPath | scripts/utils/common.py:181-195 | the loop with its `break` returns what the path rule gives |
| Common.FindPartAt | scripts/utils/common.py:184-187 | a first occurrence at `i` is what the search finds |
| Common.PathOfParts | scripts/utils/common.py:189-195 | for segments joined by `/`, the result is the segment after the first `domains` and the stem of the one after that |
| Common.PathRoundTrip | scripts/utils/common.py:181-195 | the domain and stem of any path `.../domains/<domain>/<stem>.json/...` come back out |
| Provider.Stored | scripts/cloudflare/cloudflare_manager.py:184-197 | an accepted payload is stored under the given id and the payload's type and name |
| Provider.Named | scripts/deploy_dns.py:42-58 | the `name=` filter of a listing keeps exactly the records with that name |
| Provider.NamedAppend | scripts/deploy_dns.py:42-58 | the filter keeps order and multiplicity: filtering a concatenation concatenates the filtered parts |
| Provider.WithoutId | scripts/cloudflare/cloudflare_manager.py:232-244 | a delete removes exactly the records with that id |
| Provider.ReplaceId | scripts/cloudflare/cloudflare_manager.py:199-230 | an update replaces exactly the records with that id |
| Provider.ListStep | scripts/cloudflare/cloudflare_manager.py:142-165 | a listing changes no table, and a failed listing returns nothing |
| Provider.CreateStep | scripts/cloudflare/cloudflare_manager.py:167-197 | an accepted create returns the record stored under the next id; a refused one changes no table |
| Provider.UpdateStep | scripts/cloudflare/cloudflare_manager.py:199-230 | an accepted update returns the record stored under the same id; a refused one changes no table |
| Provider.DeleteStep | scripts/cloudflare/cloudflare_manager.py:232-244 | a delete reports success iff it was accepted; a refused one changes no table |
| Provider.DnsProvider.constructor | scripts/cloudflare/cloudflare_manager.py:25-64 | the provider starts from the given tables and answers |
| Provider.DnsProvider.List | scripts/cloudflare/cloudflare_manager.py:142-165 | returns and does what `ListStep` says |
| Provider.DnsProvider.Create | scripts/cloudflare/cloudflare_manager.py:167-197 | returns and does what `CreateStep` says |
| Provider.DnsProvider.Update | scripts/cloudflare/cloudflare_manager.py:199-230 | returns and does what `UpdateStep` says |
| Provider.DnsProvider.Delete | scripts/cloudflare/cloudflare_manager.py:232-244 | returns and does what `DeleteStep` says |
| CloudflareManager.ZoneTableLookup | scripts/cloudflare/cloudflare_manager.py:56-61 | a domain has a zone id iff some entry gives both name and id, and a later entry for the same name wins |
| CloudflareManager.BuildZoneIds | scripts/cloudflare/cloudflare_manager.py:56-61 | the constructor's loop builds that zone table |
| CloudflareManager.GetZoneId | scripts/cloudflare/cloudflare_manager.py:124-140 | returns the zone id of a configured domain, and raises `ValueError` with its message exactly when the domain is not configured |
| CloudflareManager.ShapePayload | scripts/cloudflare/cloudflare_manager.py:184-194 | the request body keeps type, name, content and ttl; `proxied` only for A, AAAA and CNAME; the priority only for MX with a priority given |
| CloudflareManager.WantedFor | scripts/cloudflare/cloudflare_manager.py:286-309 | the wanted record has the full name, ttl 3600 and proxied true by default, and a priority only for MX with one given |
| CloudflareManager.WrittenRecordIsUnchanged | scripts/cloudflare/cloudflare_manager.py:312-326 | a record just written by the sync needs no update on the next run |
| CloudflareManager.Candidates | scripts/cloudflare/cloudflare_manager.py:269-278 | `current_records` has distinct keys |
| CloudflareManager.LastCandidate | scripts/cloudflare/cloudflare_manager.py:275-278 | the reference definition: a listed candidate with the key |
| CloudflareManager.CandidatesAreLast | scripts/cloudflare/cloudflare_manager.py:269-278 | the lookup of a key in `current_records` is the last listed candidate with that key, so a later duplicate overwrites an earlier one |
| CloudflareManager.CandidateEntry | scripts/cloudflare/cloudflare_manager.py:275-278 | every entry is a listed record named `sub.domain` (or `domain` for `@`), stored under its own `(type, name)` |
| CloudflareManager.NoMatchUnderSubdomain | scripts/cloudflare/cloudflare_manager.py:275-296 | under a subdomain other than `@`, no wanted key is found among the candidates |
| CloudflareManager.FullNameIsNotSub | scripts/cloudflare/cloudflare_manager.py:286-293 | under a subdomain other than `@`, no full name of a record equals `sub.domain` |
| CloudflareManager.ApplyOne | scripts/cloudflare/cloudflare_manager.py:312-352 | one wanted record goes to exactly one list or ends the run with one error; a match in the wanted state goes to `unchanged` with no provider call; a match that differs is updated under the live id with the wanted payload and goes to `updated`; an unmatched key is created with the wanted payload under the next id and goes to `created` |
| CloudflareManager.DeleteOne | scripts/cloudflare/cloudflare_manager.py:354-364 | an unwanted candidate is deleted, or logged with the record when the delete fails, or ends the run |
| CloudflareManager.DeleteOneAsWritten | scripts/cloudflare/cloudflare_manager.py:114-117 | as written, a delete either removes the candidate or ends the run with the exception; it never logs a failed delete |
| CloudflareManager.DeclinedDeleteAborts | scripts/cloudflare/cloudflare_manager.py:354-364 | a delete the provider declines ends the run as written, but is logged and passed over by `DeleteOne` |
| CloudflareManager.SyncSpec | scripts/cloudflare/cloudflare_manager.py:246-372 | the run raises iff the domain has no zone id, and then the provider is untouched |
| CloudflareManager.OrphansFrom | scripts/cloudflare/cloudflare_manager.py:354-356 | the reference list of the candidates whose key is not wanted, at most one entry per candidate |
| CloudflareManager.ApplyFromShape | scripts/cloudflare/cloudflare_manager.py:312-352 | the first loop puts each processed record in exactly one of created, updated and unchanged, and stops at the first exception |
| CloudflareManager.ApplyFromNoMatch | scripts/cloudflare/cloudflare_manager.py:342-352 | when nothing matches, the first loop only creates |
| CloudflareManager.ApplyFromWrites | scripts/cloudflare/cloudflare_manager.py:312-352 | the first loop only appends to the three lists, and when it finishes every record is created with its payload, updated under the candidate's id with its payload, or reported unchanged, according to its match |
| CloudflareManager.ApplyFromQuiet | scripts/cloudflare/cloudflare_manager.py:340-341 | when everything is in the wanted state, the first loop makes no provider call and leaves all records unchanged |
| CloudflareManager.DeleteFromErrors | scripts/cloudflare/cloudflare_manager.py:354-364 | the delete loop leaves created, updated and unchanged alone, and every error but an ending exception is a failed delete |
| CloudflareManager.DeleteFromFrame | scripts/cloudflare/cloudflare_manager.py:354-364 | the delete loop leaves the created, updated and unchanged lists alone and only appends to the deleted and error lists |
| CloudflareManager.DeleteFromOnlyOrphans | scripts/cloudflare/cloudflare_manager.py:354-364 | the delete loop deletes or logs only candidates whose key is not wanted |
| CloudflareManager.DeleteFromAllOrphans | scripts/cloudflare/cloudflare_manager.py:354-364 | when the delete loop finishes, each unwanted candidate is deleted or logged, once |
| CloudflareManager.OrphansAll | scripts/cloudflare/cloudflare_manager.py:354-356 | when no candidate is wanted, all of them are orphans |
| CloudflareManager.SyncCases | scripts/cloudflare/cloudflare_manager.py:258-372 | with a zone id, the run ends one of three ways: the listing fails with one error, the first loop stops, or the delete loop runs on what the first loop left |
| CloudflareManager.SyncPlacesRecords | scripts/cloudflare/cloudflare_manager.py:312-372 | each processed record lands in exactly one list, all of them when nothing raised, and deletes happen only after every record is processed |
| CloudflareManager.SyncWritesRequested | scripts/cloudflare/cloudflare_manager.py:312-352 | a run that raised nothing created each unmatched record with its wanted payload, updated each outdated match under its live id with its wanted payload, and reported the others unchanged |
| CloudflareManager.SyncDeletesOrphans | scripts/cloudflare/cloudflare_manager.py:354-364 | a run that raised nothing deleted or logged exactly the candidates whose key is not wanted |
| CloudflareManager.CandidatesNotRequested | scripts/cloudflare/cloudflare_manager.py:275-296 | under a subdomain other than `@`, no candidate key is a wanted key |
| CloudflareManager.SyncUnderSubdomain | scripts/cloudflare/cloudflare_manager.py:275-364 | under a subdomain other than `@`, nothing is updated or unchanged; every record is created and every candidate deleted or logged |
| CloudflareManager.SyncQuietWhenInPlace | scripts/cloudflare/cloudflare_manager.py:312-341 | re-running a request whose records are in place makes no write and leaves every record unchanged |
| CloudflareManager.Manager.constructor | scripts/cloudflare/cloudflare_manager.py:25-64 | the zone table is built from the configured domains |
| CloudflareManager.Manager.Sync | scripts/cloudflare/cloudflare_manager.py:246-372 | `sync_domain_records` returns and does to the provider what `SyncSpec` says |
| CloudflareManager.Manager.ApplyRecord | scripts/cloudflare/cloudflare_manager.py:286-352 | one pass of the loop over the requested records does what `ApplyOne` says |
| CloudflareManager.Manager.ApplyRecords | scripts/cloudflare/cloudflare_manager.py:284-352 | the loop over the requested records does what phase one of `SyncSpec` says |
| CloudflareManager.Manager.DeleteOrphans | scripts/cloudflare/cloudflare_manager.py:354-364 | the delete loop does what phase two of `SyncSpec` says |
| CloudflareManager.CollectCandidates | scripts/cloudflare/cloudflare_manager.py:269-278 | the loop builds `current_records` as `Candidates` says |
| DeployDns.DeployTarget | scripts/deploy_dns.py:146-170 | a deploy passes its guards iff the file reads, `domain` and `subdomain` are truthy, `record` is present, and the domain is configured, enabled and has a zone id |
| DeployDns.DeployPayload | scripts/deploy_dns.py:172-184 | the payload is named `subdomain.domain` and carries `record.value`; ttl 3600 and proxied false by default; priority only for MX, 10 by default |
| DeployDns.DeploySpec | scripts/deploy_dns.py:144-205 | a failed guard returns false with no provider call; the local record is saved with its metadata only when the deploy succeeds |
| DeployDns.DeployCallsOnce | scripts/deploy_dns.py:187-199 | past the guards, a deploy makes one listing and exactly one write |
| DeployDns.DeployStoresRecord | scripts/deploy_dns.py:187-205 | a successful deploy stores the payload under the first listed record's id, or under a new id when nothing was listed |
| DeployDns.DeleteTarget | scripts/deploy_dns.py:214-231 | a delete passes its guards iff the file reads, `domain` and `subdomain` are truthy and the domain is configured with a zone id, enabled or not |
| DeployDns.DeleteAllShape | scripts/deploy_dns.py:240-250 | the loop tries every listed record even after a failure, only removes records, and on success leaves none of them |
| DeployDns.DeleteAllReplies | scripts/deploy_dns.py:241-244 | the delete loop makes one provider call per listed record, failed or not |
| DeployDns.DeleteAllZone | scripts/deploy_dns.py:241-250 | the delete loop only removes records, and when every call succeeds none of the listed ids is left in the zone |
| DeployDns.DeleteSpec | scripts/deploy_dns.py:207-250 | a failed guard returns false with no provider call; the local file is removed only when the delete succeeds |
| DeployDns.DeleteIgnoresEnabled | scripts/deploy_dns.py:216-231 | whether the domain is enabled makes no difference to a delete |
| DeployDns.DeleteClearsName | scripts/deploy_dns.py:233-250 | a failed listing counts as success with nothing deleted; a successful delete leaves no record with the name |
| DeployDns.Deployer.constructor | scripts/deploy_dns.py:116-142 | the deployer starts from the given configuration, provider and files |
| DeployDns.Deployer.SaveDomainRecord | scripts/deploy_dns.py:252-266 | the saved file is the request with `_metadata` holding `deployed_at` and `deployed_by`, nothing else changes |
| DeployDns.Deployer.RemoveDomainRecord | scripts/deploy_dns.py:268-272 | the file goes if it exists, nothing else changes |
| DeployDns.Deployer.DeployRequest | scripts/deploy_dns.py:144-205 | `deploy_request` returns and does what `DeploySpec` says |
| DeployDns.Deployer.DeleteRequest | scripts/deploy_dns.py:207-250 | `delete_request` returns and does what `DeleteSpec` says |
| DnsUtils.GetRecordFqdn | scripts/dns/dns_utils.py:237-256 | the name always ends with the domain, starts with `name.` unless the name is `@`, and ends with `sub.domain` unless the subdomain is `@` |
| DnsUtils.FqdnCases | scripts/dns/dns_utils.py:250-256 | the four cases of `@` or not in name and subdomain, each exactly |
| DnsUtils.FqdnDefaultName | scripts/dns/dns_utils.py:237-252 | with the default name `@`, a record's name is the name of its subdomain |
| DnsUtils.FqdnAgreesWithSync | scripts/cloudflare/cloudflare_manager.py:286-293 | the sync names records as `get_record_fqdn` does, except for a record named `@` under a subdomain other than `@` |
| DnsUtils.NameMatchIgnoresDotAndCase | scripts/dns/dns_utils.py:206-229 | a CNAME or MX match ignores one trailing dot on either side and letter case, and is symmetric |
| DnsUtils.OnlyOneDotStripped | scripts/dns/dns_utils.py:206-209 | only one trailing dot is removed: `a..` does not match `a` |
| DnsUtils.AnyNameMatch | scripts/dns/dns_utils.py:207-210 | the loop over values finds a match iff some value matches |
| DnsUtils.CheckPropagation | scripts/dns/dns_utils.py:167-234 | success iff one of the first `max_retries` lookups matches, stopping at the first; a failed lookup moves on; otherwise false with the timeout message after every attempt; an unchecked type never succeeds |
| DomainHealth.RecordFqdn | scripts/health/domain_health.py:81-102 | the health check names records as `dns_utils` does, with the name defaulting to `@` |
| DomainHealth.ErrorCount | scripts/health/domain_health.py:279-290 | the error count is at most the number of records, zero iff no record is in error, and full iff all are |
| DomainHealth.OverallStatusMeaning | scripts/health/domain_health.py:292-304 | healthy iff every record is ok; mismatch iff a record mismatches and none errs; partial otherwise without errors; unhealthy iff all err; degraded iff some err and some do not |
| DomainHealth.NoRecordsIsHealthy | scripts/health/domain_health.py:293-295 | a subdomain with no records is healthy |
| DomainHealth.CheckDomainHealth | scripts/health/domain_health.py:245-306 | one entry per record, in order, the error count of those entries, and the overall status they give |
| DomainHealth.Rank | scripts/health/domain_health.py:390-397 | the sort key ranks the six known statuses, unrecognised ones last |
| DomainHealth.WithRank | scripts/health/domain_health.py:390-397 | the results of one rank, in their original order |
| DomainHealth.BucketsAtLeast | scripts/health/domain_health.py:390-397 | grouping from a rank on yields ranks at least that one, in rising order |
| DomainHealth.SortedByRank | scripts/health/domain_health.py:390-397 | the report's results come in order of rank: unhealthy, mismatch, degraded, partial, unknown, healthy, then the rest |
| DomainHealth.BucketsCons | scripts/health/domain_health.py:390-397 | a result is grouped once exactly when its rank is high enough |
| DomainHealth.SortIsPermutation | scripts/health/domain_health.py:390-397 | sorting neither loses nor duplicates a result |
| DomainHealth.WithRankAppend | scripts/health/domain_health.py:390-397 | picking one rank distributes over concatenation |
| DomainHealth.WithRankTwice | scripts/health/domain_health.py:390-397 | picking one rank out of another gives that rank or nothing |
| DomainHealth.BucketsOfRank | scripts/health/domain_health.py:390-397 | the grouping holds the results of each rank in their original order |
| DomainHealth.NoneOfRank | scripts/health/domain_health.py:390-397 | no result has a rank above the last |
| DomainHealth.SortIsStable | scripts/health/domain_health.py:390-397 | the sort is stable: results of the same rank keep their relative order |
| DomainHealth.BadCount | scripts/health/domain_health.py:544 | the number of unhealthy or mismatching results, zero iff there are none |
| DomainHealth.ExitCode | scripts/health/domain_health.py:544-545 | the exit code is 1 iff some result is unhealthy or mismatching, else 0 |
| DomainValidator.SameAsCommonSubdomain | scripts/validation/domain_validator.py:53-58 | the validator's name check is the shared subdomain rule with no reserved names: `@`, or one lowercased label |
| DomainValidator.MissingAmong | scripts/validation/domain_validator.py:129-136 | one missing-field problem for each absent field, and none iff all are present |
| DomainValidator.NothingMissing | scripts/validation/domain_validator.py:129-136 | no required field missing iff the record is complete |
| DomainValidator.ContentErrors | scripts/validation/domain_validator.py:155-173 | the type-specific checks give at most one problem, of an address, target or priority kind |
| DomainValidator.CommonErrors | scripts/validation/domain_validator.py:139-152 | the shared checks give only type, name, ttl and proxied problems |
| DomainValidator.MissingFields | scripts/validation/domain_validator.py:129-136 | the required-field loop collects `MissingAmong` |
| DomainValidator.CheckContent | scripts/validation/domain_validator.py:155-173 | the type-specific branch collects `ContentErrors` |
| DomainValidator.CheckCommon | scripts/validation/domain_validator.py:139-152 | the shared checks collect `CommonErrors` |
| DomainValidator.ValidateRecord | scripts/validation/domain_validator.py:115-175 | `validate_record` returns the record's problems, and valid iff there are none |
| DomainValidator.MissingFieldsOnly | scripts/validation/domain_validator.py:129-136 | a record missing a required field gets exactly its missing-field problems and nothing else |
| DomainValidator.CompleteRecordChecks | scripts/validation/domain_validator.py:139-152 | for a complete record: unlisted type, bad name, ttl not an int in [60, 86400], and non-bool proxied are each reported iff they hold |
| DomainValidator.CommonChecks | scripts/validation/domain_validator.py:139-152 | the same four problems, each iff it holds, for the shared checks alone |
| DomainValidator.ContentChecks | scripts/validation/domain_validator.py:155-173 | A and AAAA need an address; CNAME a target or a trailing dot; MX a priority that is an int in [0, 65535]; other types nothing |
| DomainValidator.AaaaTakesIpv4 | scripts/validation/domain_validator.py:155-161 | an IPv4 address passes as AAAA content |
| DomainValidator.OwnerMissingAmong | scripts/validation/domain_validator.py:204-221 | one missing-owner-field problem for each absent owner field |
| DomainValidator.Prefixed | scripts/validation/domain_validator.py:235-239 | each problem of a record is tagged with its 1-based position |
| DomainValidator.EachRecordErrors | scripts/validation/domain_validator.py:234-239 | the problems of each record, record by record |
| DomainValidator.CheckOwner | scripts/validation/domain_validator.py:204-221 | the owner checks of `validate_domain_config` |
| DomainValidator.MissingOwnerFields | scripts/validation/domain_validator.py:210-213 | the loop over `name`, `github`, `email` reports exactly the fields the owner lacks, in that order |
| DomainValidator.CheckRecords | scripts/validation/domain_validator.py:224-239 | the record count check, then each record's problems |
| DomainValidator.CheckEachRecord | scripts/validation/domain_validator.py:234-239 | the loop over the records collects every record's tagged problems in order |
| DomainValidator.TaggedStep | scripts/validation/domain_validator.py:234-239 | one more record adds its tagged problems at the end |
| DomainValidator.PrefixAll | scripts/validation/domain_validator.py:236-239 | the loop that tags one record's problems |
| DomainValidator.ValidateDomainConfig | scripts/validation/domain_validator.py:178-241 | `validate_domain_config` returns the file's problems, and valid iff there are none |
| DomainValidator.TaggedIndexed | scripts/validation/domain_validator.py:234-239 | a tagged problem `k: q` is reported iff record `k` has problem `q` |
| DomainValidator.RecordProblemsIndexed | scripts/validation/domain_validator.py:224-239 | every record problem is reported under its record's 1-based position, and only those |
| DomainValidator.ConfigErrorsShape | scripts/validation/domain_validator.py:203-241 | a loaded file's problems are the owner's, then the record count's, then the tagged record problems, and no owner problem is a record or count problem |
| DomainValidator.RecordLimit | scripts/validation/domain_validator.py:229-232 | more records than the limit, 10 by default, is reported |
| DomainValidator.BackslashPathsNormalised | scripts/validation/domain_validator.py:280-286 | a path with `\domains\` in it contains `/domains/` once backslashes are read as slashes |
| DomainValidator.PlacementPasses | scripts/validation/domain_validator.py:283-348 | a PR file's placement passes iff the path is `.../domains/<domain>/<name>.json` for a configured, enabled domain and a valid name |
| DomainValidator.InFileAll | scripts/validation/domain_validator.py:351-354 | a file's problems are reported as they are, in order |
| DomainValidator.FilePasses | scripts/validation/domain_validator.py:274-367 | a PR file passes iff it exists, is well placed and its content has no problem |
| DomainValidator.CheckPrFile | scripts/validation/domain_validator.py:272-367 | the loop body for one PR file records what `FileErrors` says |
| DomainValidator.CheckPlacement | scripts/validation/domain_validator.py:279-348 | the placement checks give the first of outside `domains/`, bad layout, unknown or closed domain, not JSON, bad subdomain, or none |
| DomainValidator.ContentProblems | scripts/validation/domain_validator.py:350-356 | a well-placed file records the content problems of `validate_domain_config`, each as an in-file problem |
| DomainValidator.CollectVerdict | scripts/validation/domain_validator.py:255-369 | the request is valid iff no file has a problem |
| DomainValidator.CollectKeys | scripts/validation/domain_validator.py:255-369 | every listed file, and no other, gets exactly one entry |
| DomainValidator.CollectLookups | scripts/validation/domain_validator.py:255-369 | each listed file's entry holds its problems |
| DomainValidator.ResultRecorded | scripts/validation/domain_validator.py:354-367 | after a file's turn, its entry holds its problems and no other entry changed |
| DomainValidator.AllFileErrors | scripts/validation/domain_validator.py:272-367 | the problems of each PR file, the same for a file listed twice |
| DomainValidator.ValidatePullRequest | scripts/validation/domain_validator.py:244-369 | `validate_pull_request` returns what collecting each file's problems gives |
| DomainValidator.PullRequestResults | scripts/validation/domain_validator.py:255-369 | all-valid iff every file passes; every examined file, and no other, has its own problems as its entry |
| ValidateRequest.SameAsCommonDomain | scripts/validate_request.py:229-235 | `is_valid_domain` is the shared domain-name rule: at most 253 characters of dot-separated labels |
| ValidateRequest.ParseInt | scripts/validate_request.py:243-249 | `int(s)` of a decimal numeral is its value, and a negative result has a minus sign |
| ValidateRequest.ParseIntOfNat | scripts/validate_request.py:243-249 | a written-out number parses back to itself |
| ValidateRequest.WordLengthOf | scripts/validate_request.py:240 | the first word of a word followed by white space is that word |
| ValidateRequest.SplitFirstWord | scripts/validate_request.py:240 | a word, a space and more text split into that word and the rest's words |
| ValidateRequest.SplitLastWord | scripts/validate_request.py:240 | one word splits into itself |
| ValidateRequest.NumeralHasNoSpace | scripts/validate_request.py:240-249 | a numeral is a non-empty word |
| ValidateRequest.SplitJoinedWords | scripts/validate_request.py:240 | words joined by single spaces split back into those words |
| ValidateRequest.SrvOfParts | scripts/validate_request.py:237-255 | three numbers in [0, 65535] and a valid target, joined by spaces, form a valid SRV value |
| ValidateRequest.SrvOfWords | scripts/validate_request.py:237-255 | three non-empty space-free in-range numerals and a valid space-free target, joined by single spaces, form a valid SRV value |
| ValidateRequest.PortNumeral | scripts/validate_request.py:243-249 | a number up to 65535 is written as a non-empty, space-free numeral that passes the range check |
| ValidateRequest.SrvPriorityOutOfRange | scripts/validate_request.py:243-249 | a first field above 65535 makes the SRV value invalid, whatever the rest |
| ValidateRequest.RecordFormatErrors | scripts/validate_request.py:96-135 | at most two problems per record |
| ValidateRequest.RecordTypeAnyCase | scripts/validate_request.py:100-101 | the record type is read without regard to case |
| ValidateRequest.RecordFormatMeaning | scripts/validate_request.py:100-135 | A needs an IPv4 address; AAAA an address the IPv6 test accepts; CNAME a valid domain; MX `priority` and a valid mail server, and nothing else; TXT at most 255 characters; SRV a valid SRV value; unlisted types nothing |
| ValidateRequest.UntypedRecordPasses | scripts/validate_request.py:100-101 | a record with no type has nothing checked |
| ValidateRequest.DomainAvailability | scripts/validate_request.py:66-78 | an absent domain gives only the unknown-domain problem, a present disabled one the not-accepting problem, and none iff configured and enabled |
| ValidateRequest.SubdomainAvailability | scripts/validate_request.py:80-94 | a blocked name in any letter case is refused, and a taken name is refused |
| ValidateRequest.FilesOwned | scripts/validate_request.py:196-211 | a folder's count is at most its number of files |
| ValidateRequest.FilesOwnedIgnoresCase | scripts/validate_request.py:196-211 | a folder's count ignores the letter case of the user name |
| ValidateRequest.FoldersOwnedIgnoresCase | scripts/validate_request.py:194-211 | the count over folders ignores the letter case of the user name |
| ValidateRequest.UserSubdomainsIgnoreCase | scripts/validate_request.py:189-213 | `count_user_subdomains` ignores the letter case of the user name |
| ValidateRequest.NoJsonNoCount | scripts/validate_request.py:196-211 | a folder without readable `.json` files counts nothing |
| ValidateRequest.CountUserSubdomains | scripts/validate_request.py:189-213 | the two nested loops count what `UserSubdomains` says |
| ValidateRequest.UserLimits | scripts/validate_request.py:137-154 | a blocked user in any letter case gets that one problem only; otherwise a problem iff the count reaches the limit, 3 by default |
| ValidateRequest.GithubErrors | scripts/validate_request.py:156-187 | nothing when verification is off; otherwise one problem per finding of the account lookup |
| ValidateRequest.Validate | scripts/validate_request.py:257-309 | `validate_request` returns the collected problems, valid iff there are none, and no warnings |
| ValidateRequest.SchemaFailureStops | scripts/validate_request.py:278-285 | a schema failure is the only problem reported |
| ValidateRequest.RequestPasses | scripts/validate_request.py:278-307 | a parsed request passes iff the domain is configured and enabled and the subdomain, record, user and GitHub checks all pass |
| AdminTool.FirstIndexNamed | scripts/admin/admin_tool.py:113-117 | the index of the first entry with the name, or -1 exactly when there is none |
| AdminTool.FirstNamedAtIndex | scripts/admin/admin_tool.py:113-117 | that index holds the entry `get_domain_config` returns |
| AdminTool.NewEntry | scripts/admin/admin_tool.py:76-83 | the appended entry has the given name |
| AdminTool.UpdatedFields | scripts/admin/admin_tool.py:118-123 | each field passed as non-`None` is set and every other field kept |
| AdminTool.UpdatedNothing | scripts/admin/admin_tool.py:118-123 | an update passing nothing changes nothing |
| AdminTool.WithoutName | scripts/admin/admin_tool.py:155 | the filter keeps exactly the entries with another name |
| AdminTool.WithoutNameAppend | scripts/admin/admin_tool.py:155 | the filter keeps the order of the remaining entries |
| AdminTool.WithoutAbsentName | scripts/admin/admin_tool.py:155 | filtering out an absent name changes nothing |
| AdminTool.SubdomainStems | scripts/admin/admin_tool.py:172-176 | at most one stem per file |
| AdminTool.SubdomainStemsMeaning | scripts/admin/admin_tool.py:172-176 | the stems are exactly those of the `.json` files other than `example.json` |
| AdminTool.OnlyExampleFile | scripts/admin/admin_tool.py:146-150 | a directory with no subdomain file lists no subdomain |
| AdminTool.WithoutFile | scripts/admin/admin_tool.py:210-214 | removing a file keeps exactly the other files |
| AdminTool.Registry.constructor | scripts/admin/admin_tool.py:25-34 | the registry starts from the given list and directories |
| AdminTool.Registry.GetDomainConfig | scripts/admin/admin_tool.py:50-63 | returns the first entry with the name, or `None` |
| AdminTool.Registry.AddDomain | scripts/admin/admin_tool.py:65-97 | an existing name returns false and changes nothing; otherwise one entry with the given fields is appended and the directory created |
| AdminTool.Registry.UpdateDomain | scripts/admin/admin_tool.py:99-128 | an unknown name returns false; otherwise only the first entry with the name changes, in the fields passed |
| AdminTool.Registry.RemoveDomain | scripts/admin/admin_tool.py:130-160 | refused for an unknown name, or with subdomain files and no `force`; otherwise every entry with the name goes and the rest keep their order |
| AdminTool.Registry.ListSubdomains | scripts/admin/admin_tool.py:162-176 | the subdomain stems of the directory, or nothing when it is missing |
| AdminTool.Registry.RemoveSubdomain | scripts/admin/admin_tool.py:199-218 | false when the file does not exist; otherwise exactly that file goes |
| AdminTool.ListStems | scripts/admin/admin_tool.py:172-176 | the loop over the directory listing gives `SubdomainStems` |
| PrChecker.OwnershipErrors | scripts/bot/pr_checker.py:30-88 | at most one ownership problem per file |
| PrChecker.NewOrBrokenFileOwned | scripts/bot/pr_checker.py:48-58 | a file that does not exist yet, or unparsable JSON, has no ownership problem |
| PrChecker.OwnerShapes | scripts/bot/pr_checker.py:61-68 | the owner is the `username` of an object or the string itself; any other shape gives exactly one format problem |
| PrChecker.OwnershipRule | scripts/bot/pr_checker.py:71-83 | a problem iff the owner is non-empty and differs from the PR author case-insensitively, and the original author is known and differs too |
| PrChecker.OwnerMayEdit | scripts/bot/pr_checker.py:71-76 | the owner may always edit its own file |
| PrChecker.Invalids | scripts/bot/pr_checker.py:337 | validation problems are carried over one by one |
| PrChecker.Ownerships | scripts/bot/pr_checker.py:348 | ownership problems are carried over one by one |
| PrChecker.Lift | scripts/bot/pr_checker.py:337 | the validation results, entry by entry |
| PrChecker.LiftIndex | scripts/bot/pr_checker.py:337 | lifting keeps positions of keys |
| PrChecker.LiftLookups | scripts/bot/pr_checker.py:337 | lifting keeps the keys and maps each lookup |
| PrChecker.Locate | scripts/bot/pr_checker.py:300-317 | every PR file is either found or missing |
| PrChecker.LocateParts | scripts/bot/pr_checker.py:300-317 | missing are exactly the PR files not found; found files come from PR files; nothing found iff no PR file is found |
| PrChecker.AllOwnershipErrors | scripts/bot/pr_checker.py:340-349 | the ownership problems of each found file |
| PrChecker.MergeVerdict | scripts/bot/pr_checker.py:340-349 | the verdict stays true iff it was and no file has an ownership problem |
| PrChecker.MergeFrame | scripts/bot/pr_checker.py:340-349 | merging keeps keys distinct and leaves files not examined alone |
| PrChecker.MergeAppends | scripts/bot/pr_checker.py:344-348 | a file's ownership problems are appended after its validation problems |
| PrChecker.MarkVerdict | scripts/bot/pr_checker.py:352-354 | the verdict stays true iff it was and no file is missing |
| PrChecker.MarkLookups | scripts/bot/pr_checker.py:352-354 | each missing file gets exactly one not-found problem; other entries stay |
| PrChecker.PrFilesVerdict | scripts/bot/pr_checker.py:278-380 | `check_pr_files` passes iff some file is found, every found file validates and (when checked) has no ownership problem, and no file is missing |
| PrChecker.ValidatedVerdict | scripts/bot/pr_checker.py:337 | the validator's verdict over the found files holds iff none of them has a problem |
| PrChecker.OwnedVerdict | scripts/bot/pr_checker.py:340-349 | the ownership pass keeps the verdict iff it is skipped or no found file has an ownership problem |
| PrChecker.MissingReported | scripts/bot/pr_checker.py:327-354 | with some file found, each missing file is reported as not found |
| PrChecker.LocateFiles | scripts/bot/pr_checker.py:300-317 | the locating loop gives `Locate` |
| PrChecker.MergeOwnership | scripts/bot/pr_checker.py:340-349 | the ownership loop gives `Merge` |
| PrChecker.MarkMissing | scripts/bot/pr_checker.py:352-354 | the missing-file loop gives `Mark` |
| PrChecker.CheckPrFiles | scripts/bot/pr_checker.py:278-380 | `check_pr_files` returns what `PrFilesOutcome` says |
| PrChecker.ValidateFound | scripts/bot/pr_checker.py:337 | the validator call over the found files gives `Validated` |
| PrChecker.OwnFound | scripts/bot/pr_checker.py:340-349 | the ownership pass runs only when author, owner and repository are all given, and gives `Owned` |
| PrChecker.ErrorFiles | scripts/bot/pr_checker.py:148-150 | the number of files with problems is at most the number of files |
| PrChecker.PassingFilesAppend | scripts/bot/pr_checker.py:148-150 | the passing count adds up over concatenation |
| PrChecker.ReportCounts | scripts/bot/pr_checker.py:148-150 | `success_files`, total minus `error_files`, counts the passing files; `error_files` is 0 iff no file has a problem |
| PrChecker.Bullets | scripts/bot/pr_checker.py:166-173 | at most one bullet per line |
| PrChecker.ErrorLines | scripts/bot/pr_checker.py:160-179 | an error gives at least its labelled first line |
| PrChecker.BulletsMeaning | scripts/bot/pr_checker.py:166-173 | the bullets are exactly the stripped non-blank lines; blank lines are dropped |
| PrChecker.BulletsAppend | scripts/bot/pr_checker.py:166-173 | bullets keep the order of the lines |
| PrChecker.MultiLineErrors | scripts/bot/pr_checker.py:164-173 | a one-line error is its label and text; a multi-line error is the labelled first line followed by the bullets of the rest |
| PrChecker.FormatBullets | scripts/bot/pr_checker.py:166-173 | the bullet loop gives `Bullets` |
| PrChecker.FormatError | scripts/bot/pr_checker.py:160-179 | one error's lines |
| PrChecker.FormatErrors | scripts/bot/pr_checker.py:160-179 | the loop over a file's errors numbers them from 1 |
| Bot.SubRun | bot.py:46 | the greedy run of `[a-z0-9-]` at the start |
| Bot.DomainRun | bot.py:46 | the greedy run of `[a-z0-9.]` at the start |
| Bot.SubRunOf | bot.py:46 | the run stops exactly where the class does |
| Bot.DomainRunOf | bot.py:46 | the run stops exactly where the class does |
| Bot.ParseTitle | bot.py:46-51 | a match gives a non-empty subdomain and domain of their classes, and the title starts with `Add subdomain <sub> for domain <domain>` |
| Bot.TitleRoundTrip | bot.py:46-54 | any subdomain and domain come back out of the title, whatever follows that is not a domain character |
| Bot.TitleIsCaseSensitive | bot.py:46-47 | an upper-case subdomain does not match |
| Bot.EntryFor | bot.py:57 | the first config entry for the domain, `None` exactly when there is none |
| Bot.FirstEntryDecides | bot.py:57 | the first entry for the domain decides |
| Values.PyEqReflexive | bot.py:84 | every JSON value equals itself under Python's `==`, so a list holding an entry finds it |
| Bot.Added | bot.py:84 | the added entries are exactly the new entries that equal no old entry under Python's dict equality |
| Bot.AddedAppend | bot.py:84 | the added entries keep their order |
| Bot.AppendedEntry | bot.py:84-88 | appending one new entry adds exactly it |
| Bot.AddedNothing | bot.py:84-88 | a list of old entries adds nothing |
| Bot.RewrittenEntryIsAdded | bot.py:84 | an old entry rewritten only in a nested value counts as added, next to the new one |
| Bot.RewriteCloses | bot.py:84-88 | a PR that adds one entry and rewrites another is closed |
| Bot.CheckPrApproves | bot.py:41-112 | the PR is approved iff the title parses, the first entry of the domain is enabled, the only file is `domains/<domain>.json`, both lists read, exactly one entry is added, it passes the schema, its name is the subdomain, and no old entry has that name |
| Bot.NewFileCloses | bot.py:72-81 | a PR whose file has no base version is closed |

## Left out

- Transport: the HTTP layer of both Cloudflare clients (`_request`, `CloudflareAPI`), GitHub and PyGithub calls, and `get_original_author`. They are replaced by the provider object, its sequence of answers and maps of file contents and original authors.
- DNS resolution: the `resolve_*` functions, `check_dns_record`, sockets, `nslookup` and `time.sleep` are left out. The propagation check reads one lookup outcome per attempt from a sequence.
- Concurrency: the thread pool of `check_domain_health` is modelled as one pass over the collected outcomes, in order.
- Filesystem and loading: JSON and YAML loading, `save_config`, `makedirs`, directory walks and `os.remove` are left out. Their results are maps handed in or fields the methods reassign.
- Foreign validators: the JSON-schema check, `ipaddress.IPv6Address`, `socket.inet_pton` and the IPv6 regular expression of the validator are left out. Each is a parameter: a set of accepted IPv6 strings or a given error message.
- GitHub account checks: the account age and e-mail lookups of `validate_github_user` are left out. The lookup's findings are an input list.
- Reports and UI: the Markdown text, statistics, the status page, `cli.py`, every `main` and argparse are I/O and text layout. Only the counts and the error-line layout of the PR report are modelled.
- Plumbing: `deploy_to_cloudflare.py`, `check_format.py`, `bot.py`'s `apply_pr`, `create_cloudflare_record` and its module-level loading are left out.
- Text: letter case is ASCII only, and white space is the ASCII set Python's `str.isspace` accepts (space, `\t` to `\r`, `\x1c` to `\x1f`). Python's `lower`, `upper`, `split` and `strip` also act on other Unicode letters and spaces such as `\x85` and `\xa0`.
- JSON numbers: a number with a fraction or an exponent is an exact real. Python's `json` also reads `NaN` and the infinities, and rounds to binary floats; both are left out.
- Regular expressions: `$` is read as the end of the string. Python's `$` also matches before a final newline.
- `int()`: it is modelled for plain decimal numerals with an optional sign. Its acceptance of surrounding white space, underscores and non-ASCII digits is left out.
- Field types: a required field is taken to be a string where the code would raise on another type. A key the code reads with `[...]` and does not find is not modelled. This covers `KeyError` in `bot.py`'s config entries and the manager's record fields.
- Bot.Entry: both revisions of the domain file are taken to be JSON lists of objects. Two other shapes are left out. A non-object element of the base list makes `item.get('name')` (bot.py:106) raise `AttributeError`, which `check_pr` does not catch and which also ends `main`'s loop over the remaining open PRs (bot.py:163-164). A file whose top level is an object is iterated by its keys (bot.py:84).
- Exceptions: an exception inside `check_pr_files` or `remove_subdomain`'s `os.remove` is not modelled. Neither is the "could not load the project configuration" path of `validate_pull_request`.
- DomainHealth.SortByStatus: it is a function returning the sorted sequence; the in-place `list.sort` on the results list is not modelled.

## Findings

| source | as written | input that shows it | evidently intended | confidence | as-written member | corrected member |
|---|---|---|---|---|---|---|
| scripts/cloudflare/cloudflare_manager.py:354-364 | `_request` (lines 114-117) raises on a response with `success: false`, so `delete_dns_record` (lines 243-244) never returns `False`: the failed-delete branch of the delete loop is dead, and a declined delete ends the whole sync | a sync with one unwanted candidate whose DELETE the provider answers with `{"success": false}` | the declined delete is logged in `errors` with its record and the loop goes on to the next candidate | not executed | CloudflareManager.DeleteOneAsWritten, CloudflareManager.DeclinedDeleteAborts | CloudflareManager.DeleteOne, CloudflareManager.DeleteFromAllOrphans |

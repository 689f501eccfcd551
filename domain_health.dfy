/** The health check of a subdomain: the record checks' outcomes are collected
    into a result with an error count and an overall status; results are ordered
    worst first for the report; the run's exit code flags bad results. The
    per-record probes (sockets, `nslookup`, HTTP) are an oracle: the outcome
    collected for each record. */
module DomainHealth {
  import opened Values
  import DnsUtils

  /** `get_record_fqdn(domain, subdomain, record)`: `name` defaults to `@`. */
  function RecordFqdn(domain: string, sub: string, name: Option<string>): (r: string)
    ensures r == DnsUtils.GetRecordFqdn(domain, sub, name.GetOr("@"))
  {
    var n := if name.Some? then name.value else "@";
    if n == "@" then
      if sub == "@" then domain else sub + "." + domain
    else
      if sub == "@" then n + "." + domain else n + "." + sub + "." + domain
  }

  // Record statuses set by the probes.
  const Ok := "ok"
  const Mismatch := "mismatch"
  const Error := "error"

  // Overall statuses of a subdomain.
  const Healthy := "healthy"
  const Partial := "partial"
  const Degraded := "degraded"
  const Unhealthy := "unhealthy"
  const Unknown := "unknown"

  /** What collecting one record's check gave: the status the probe set, or an
      exception (a timeout, say), which becomes an `error` entry. */
  datatype Collected = Finished(status: string) | Failed

  function EntryStatus(c: Collected): string {
    if c.Finished? then c.status else Error
  }

  /** The number of `error` entries. */
  function ErrorCount(statuses: seq<string>): (n: nat)
    ensures n <= |statuses|
    ensures n == 0 <==> forall i :: 0 <= i < |statuses| ==> statuses[i] != Error
    ensures n == |statuses| <==> forall i :: 0 <= i < |statuses| ==> statuses[i] == Error
  {
    if statuses == [] then 0
    else
      var init := statuses[..|statuses| - 1];
      assert forall i :: 0 <= i < |init| ==> init[i] == statuses[i];
      ErrorCount(init) + if statuses[|statuses| - 1] == Error then 1 else 0
  }

  predicate AllOk(statuses: seq<string>) {
    forall i :: 0 <= i < |statuses| ==> statuses[i] == Ok
  }

  predicate AnyMismatch(statuses: seq<string>) {
    exists i :: 0 <= i < |statuses| && statuses[i] == Mismatch
  }

  /** The decision at the end of `check_domain_health`. */
  function OverallStatus(statuses: seq<string>, errors: nat): string {
    if errors == 0 then
      if AllOk(statuses) then Healthy
      else if AnyMismatch(statuses) then Mismatch
      else Partial
    else if errors == |statuses| then Unhealthy
    else Degraded
  }

  predicate AnyError(statuses: seq<string>) {
    exists i :: 0 <= i < |statuses| && statuses[i] == Error
  }

  predicate AnyNonError(statuses: seq<string>) {
    exists i :: 0 <= i < |statuses| && statuses[i] != Error
  }

  /** What each overall status means about the entries, when `errors` is their
      error count. */
  lemma {:induction false} OverallStatusMeaning(statuses: seq<string>)
    ensures var s := OverallStatus(statuses, ErrorCount(statuses));
      && (s == Healthy <==> AllOk(statuses))
      && (s == Mismatch <==> AnyMismatch(statuses) && forall i :: 0 <= i < |statuses| ==> statuses[i] != Error)
      && (s == Partial <==> !AllOk(statuses) && !AnyMismatch(statuses) && forall i :: 0 <= i < |statuses| ==> statuses[i] != Error)
      && (s == Unhealthy <==> |statuses| > 0 && forall i :: 0 <= i < |statuses| ==> statuses[i] == Error)
      && (s == Degraded <==> AnyError(statuses) && AnyNonError(statuses))
  {
    var n := ErrorCount(statuses);
    if n != 0 && n != |statuses| {
      var i :| 0 <= i < |statuses| && statuses[i] != Error;
      var j :| 0 <= j < |statuses| && statuses[j] == Error;
    } else if n == |statuses| && n != 0 {
      assert statuses[0] == Error;
    }
  }

  /** A subdomain with no records is healthy. */
  lemma NoRecordsIsHealthy()
    ensures OverallStatus([], ErrorCount([])) == Healthy
  {
  }

  /** A result of `check_domain_health`: its record entries' statuses, the
      error count and the overall status. */
  datatype HealthResult = HealthResult(domain: string, subdomain: string, records: seq<string>,
                                       errors: nat, status: string)

  /** `check_domain_health`, collecting one outcome per configured record, in order. */
  method CheckDomainHealth(domain: string, sub: string, collected: seq<Collected>) returns (res: HealthResult)
    ensures res.domain == domain && res.subdomain == sub
    ensures |res.records| == |collected|
    ensures forall i :: 0 <= i < |collected| ==> res.records[i] == EntryStatus(collected[i])
    ensures res.errors == ErrorCount(res.records)
    ensures res.status == OverallStatus(res.records, res.errors)
  {
    var records: seq<string> := [];
    var errors: nat := 0;
    for i := 0 to |collected|
      invariant |records| == i
      invariant forall j :: 0 <= j < i ==> records[j] == EntryStatus(collected[j])
      invariant errors == ErrorCount(records)
    {
      var old_records := records;
      match collected[i] {
        case Finished(status) =>
          records := records + [status];
          if status == Error {
            errors := errors + 1;
          }
        case Failed =>
          records := records + [Error];
          errors := errors + 1;
      }
      assert records[..|records| - 1] == old_records;
    }
    res := HealthResult(domain, sub, records, errors, OverallStatus(records, errors));
  }

  // ---------------------------------------------------------------- report order

  /** The report's sort key: worst first, unrecognised statuses last. */
  function Rank(status: string): (n: nat)
    ensures n <= 6
    ensures n == 6 <==> status !in {Unhealthy, Mismatch, Degraded, Partial, Unknown, Healthy}
  {
    if status == Unhealthy then 0
    else if status == Mismatch then 1
    else if status == Degraded then 2
    else if status == Partial then 3
    else if status == Unknown then 4
    else if status == Healthy then 5
    else 6
  }

  /** The results of rank `k`, in their original order. */
  function WithRank(rs: seq<HealthResult>, k: nat): (r: seq<HealthResult>)
    ensures forall x :: x in r ==> x in rs && Rank(x.status) == k
  {
    if rs == [] then []
    else (if Rank(rs[0].status) == k then [rs[0]] else []) + WithRank(rs[1..], k)
  }

  /** The results of rank `k` or more, grouped by rank. */
  function Buckets(rs: seq<HealthResult>, k: nat): (r: seq<HealthResult>)
    requires k <= 7
    decreases 7 - k
  {
    if k == 7 then [] else WithRank(rs, k) + Buckets(rs, k + 1)
  }

  /** `domain_results.sort(key=...)`. The sort is stable, so this grouping is
      the only order it can produce. */
  function SortByStatus(rs: seq<HealthResult>): seq<HealthResult> {
    Buckets(rs, 0)
  }

  lemma {:induction false} BucketsAtLeast(rs: seq<HealthResult>, k: nat)
    requires k <= 7
    ensures forall x :: x in Buckets(rs, k) ==> k <= Rank(x.status)
    ensures forall i, j :: 0 <= i < j < |Buckets(rs, k)| ==> Rank(Buckets(rs, k)[i].status) <= Rank(Buckets(rs, k)[j].status)
    decreases 7 - k
  {
    if k < 7 {
      BucketsAtLeast(rs, k + 1);
      var a: seq<HealthResult> := WithRank(rs, k);
      var b: seq<HealthResult> := Buckets(rs, k + 1);
      assert Buckets(rs, k) == a + b;
      forall i, j | 0 <= i < j < |a + b|
        ensures Rank((a + b)[i].status) <= Rank((a + b)[j].status)
      {
        if j < |a| {
          assert a[i] in a && a[j] in a;
        } else if i < |a| {
          assert a[i] in a && b[j - |a|] in b;
        } else {
          assert (a + b)[i] == b[i - |a|] && (a + b)[j] == b[j - |a|];
        }
      }
    }
  }

  /** The report lists the results in order of rank. */
  lemma SortedByRank(rs: seq<HealthResult>)
    ensures forall i, j :: 0 <= i < j < |SortByStatus(rs)| ==>
      Rank(SortByStatus(rs)[i].status) <= Rank(SortByStatus(rs)[j].status)
  {
    BucketsAtLeast(rs, 0);
  }

  lemma {:induction false} BucketsCons(x: HealthResult, t: seq<HealthResult>, k: nat)
    requires k <= 7
    ensures multiset(Buckets([x] + t, k)) == multiset(Buckets(t, k)) + if k <= Rank(x.status) then multiset{x} else multiset{}
    decreases 7 - k
  {
    if k < 7 {
      assert ([x] + t)[1..] == t;
      BucketsCons(x, t, k + 1);
    }
  }

  /** Sorting neither loses nor duplicates a result. */
  lemma {:induction false} SortIsPermutation(rs: seq<HealthResult>)
    ensures multiset(SortByStatus(rs)) == multiset(rs)
    decreases |rs|
  {
    if rs != [] {
      SortIsPermutation(rs[1..]);
      BucketsCons(rs[0], rs[1..], 0);
      assert [rs[0]] + rs[1..] == rs;
    }
  }

  lemma {:induction false} WithRankAppend(a: seq<HealthResult>, b: seq<HealthResult>, k: nat)
    ensures WithRank(a + b, k) == WithRank(a, k) + WithRank(b, k)
    decreases |a|
  {
    if a != [] {
      assert (a + b)[1..] == a[1..] + b;
      WithRankAppend(a[1..], b, k);
    } else {
      assert a + b == b;
    }
  }

  lemma {:induction false} WithRankTwice(rs: seq<HealthResult>, j: nat, k: nat)
    ensures WithRank(WithRank(rs, j), k) == if j == k then WithRank(rs, k) else []
    decreases |rs|
  {
    if rs != [] {
      var head := if Rank(rs[0].status) == j then [rs[0]] else [];
      WithRankAppend(head, WithRank(rs[1..], j), k);
      WithRankTwice(rs[1..], j, k);
      if head != [] {
        assert head[1..] == [];
      }
    }
  }

  lemma {:induction false} BucketsOfRank(rs: seq<HealthResult>, k: nat, m: nat)
    requires k <= 7
    ensures WithRank(Buckets(rs, k), m) == if k <= m then WithRank(rs, m) else []
    decreases 7 - k
  {
    if k < 7 {
      WithRankAppend(WithRank(rs, k), Buckets(rs, k + 1), m);
      WithRankTwice(rs, k, m);
      BucketsOfRank(rs, k + 1, m);
    } else {
      assert m >= 7 ==> WithRank(rs, m) == [] by {
        if m >= 7 { NoneOfRank(rs, m); }
      }
    }
  }

  lemma {:induction false} NoneOfRank(rs: seq<HealthResult>, m: nat)
    requires m > 6
    ensures WithRank(rs, m) == []
    decreases |rs|
  {
    if rs != [] {
      NoneOfRank(rs[1..], m);
    }
  }

  /** The sort is stable: the results of each rank keep their relative order. */
  lemma SortIsStable(rs: seq<HealthResult>, k: nat)
    ensures WithRank(SortByStatus(rs), k) == WithRank(rs, k)
  {
    BucketsOfRank(rs, 0, k);
  }

  // ---------------------------------------------------------------- exit code

  predicate IsBad(r: HealthResult) {
    r.status == Unhealthy || r.status == Mismatch
  }

  /** `len([r for r in all_results if r['status'] in ['unhealthy', 'mismatch']])` */
  function BadCount(results: seq<HealthResult>): (n: nat)
    ensures n <= |results|
    ensures n == 0 <==> forall i :: 0 <= i < |results| ==> !IsBad(results[i])
  {
    if results == [] then 0
    else (if IsBad(results[0]) then 1 else 0) + BadCount(results[1..])
  }

  /** The exit code of a health run. */
  function ExitCode(results: seq<HealthResult>): (code: int)
    ensures code == 0 || code == 1
    ensures code == 1 <==> exists i :: 0 <= i < |results| && IsBad(results[i])
  {
    if BadCount(results) > 0 then 1 else 0
  }
}

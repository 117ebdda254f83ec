// Usage counters: one record per (tenant, billing period, project), incremented in place,
// proved to be the fold of the log of increments.
module UsageLedger {
  import opened Wrappers

  datatype Key = Key(tenant: nat, period: string, project: Option<nat>)

  datatype Counters = Counters(requests: int, aiCalls: int, sqlAirlockBlocks: int, rateLimitBlocks: int, tokens: int)

  const ZERO := Counters(0, 0, 0, 0, 0)

  function Plus(a: Counters, b: Counters): Counters {
    Counters(a.requests + b.requests, a.aiCalls + b.aiCalls, a.sqlAirlockBlocks + b.sqlAirlockBlocks,
             a.rateLimitBlocks + b.rateLimitBlocks, a.tokens + b.tokens)
  }

  datatype Increment = Increment(key: Key, delta: Counters)

  /** The sum of the logged deltas for one key. */
  function Total(log: seq<Increment>, key: Key): Counters {
    if log == [] then ZERO
    else
      var last := log[|log| - 1];
      var before := Total(log[..|log| - 1], key);
      if last.key == key then Plus(before, last.delta) else before
  }

  /** The logged requests of a tenant in a period, over all projects. */
  function LoggedRequests(log: seq<Increment>, tenant: nat, period: string): int {
    if log == [] then 0
    else
      var last := log[|log| - 1];
      LoggedRequests(log[..|log| - 1], tenant, period)
      + if last.key.tenant == tenant && last.key.period == period then last.delta.requests else 0
  }

  datatype UsageError = TenantRequired

  class UsageRecord {
    const key: Key
    var requestCount: int
    var aiCallCount: int
    var sqlAirlockBlocks: int
    var rateLimitBlocks: int
    var tokenUsage: int

    constructor (key: Key)
      ensures this.key == key && View() == ZERO
    {
      this.key := key;
      requestCount, aiCallCount, sqlAirlockBlocks, rateLimitBlocks, tokenUsage := 0, 0, 0, 0, 0;
    }

    function View(): Counters
      reads this
    {
      Counters(requestCount, aiCallCount, sqlAirlockBlocks, rateLimitBlocks, tokenUsage)
    }
  }

  class UsageRepository {
    var records: seq<UsageRecord>
    ghost var log: seq<Increment>

    /** One record per key, each holding its key's logged total; every logged key has one. */
    ghost predicate Valid()
      reads this, records
    {
      && (forall i, j :: 0 <= i < j < |records| ==> records[i].key != records[j].key)
      && (forall r :: r in records ==> r.View() == Total(log, r.key))
      && (forall k :: 0 <= k < |log| ==> log[k].key in Keys())
    }

    ghost function Keys(): set<Key>
      reads this
    {
      set r | r in records :: r.key
    }

    constructor ()
      ensures Valid() && records == [] && log == []
    {
      records, log := [], [];
    }

    method Find(key: Key) returns (record: Option<UsageRecord>)
      requires Valid()
      ensures record.None? ==> key !in Keys()
      ensures record.Some? ==> record.value in records && record.value.key == key
    {
      for i := 0 to |records|
        invariant forall j :: 0 <= j < i ==> records[j].key != key
      {
        if records[i].key == key {
          return Some(records[i]);
        }
      }
      return None;
    }

    method GetOrCreate(tenant: Option<nat>, period: string, project: Option<nat>)
      returns (result: Result<UsageRecord, UsageError>)
      requires Valid()
      modifies this
      ensures Valid() && log == old(log)
      ensures tenant.None? ==> result == Err(TenantRequired) && records == old(records)
      ensures tenant.Some? ==> result.Ok? && result.value in records
                               && result.value.key == Key(tenant.value, period, project)
      ensures old(records) <= records
      ensures forall r :: r in records && r !in old(records) ==> fresh(r)
    {
      if tenant.None? {
        return Err(TenantRequired);
      }
      var key := Key(tenant.value, period, project);
      var found := Find(key);
      if found.Some? {
        return Ok(found.value);
      }
      var record := new UsageRecord(key);
      TotalOfUnloggedKey(log, key);
      records := records + [record];
      return Ok(record);
    }

    method IncrementUsage(tenant: Option<nat>, period: string, project: Option<nat>, delta: Counters)
      returns (result: Result<UsageRecord, UsageError>)
      requires Valid()
      modifies this, records
      ensures Valid()
      ensures tenant.None? ==> result == Err(TenantRequired) && log == old(log) && records == old(records)
      ensures tenant.Some? ==>
                var key := Key(tenant.value, period, project);
                && log == old(log) + [Increment(key, delta)]
                && result.Ok? && result.value in records && result.value.key == key
                && result.value.View() == Plus(Total(old(log), key), delta)
    {
      hide Total;
      var got := GetOrCreate(tenant, period, project);
      if got.Err? {
        return got;
      }
      var record := got.value;
      ghost var before := log;
      assert record.View() == Total(before, record.key);
      log := log + [Increment(record.key, delta)];
      forall k
        ensures Total(log, k) == if k == record.key then Plus(Total(before, k), delta) else Total(before, k)
      {
        TotalOneMore(before, Increment(record.key, delta), k);
      }
      assert forall r :: r in records && r.key == record.key ==> r == record;
      record.requestCount := record.requestCount + delta.requests;
      record.aiCallCount := record.aiCallCount + delta.aiCalls;
      record.sqlAirlockBlocks := record.sqlAirlockBlocks + delta.sqlAirlockBlocks;
      record.rateLimitBlocks := record.rateLimitBlocks + delta.rateLimitBlocks;
      record.tokenUsage := record.tokenUsage + delta.tokens;
      assert record.View() == Total(log, record.key);
      return Ok(record);
    }

    /** sum(r.request_count for r in the tenant's records of the period) */
    method MonthlyRequests(tenant: nat, period: string) returns (total: int)
      requires Valid()
      ensures total == LoggedRequests(log, tenant, period)
    {
      total := 0;
      ghost var keys: seq<Key> := [];
      for i := 0 to |records|
        invariant |keys| == i && forall j :: 0 <= j < i ==> keys[j] == records[j].key
        invariant total == SumOver(keys, log, tenant, period)
      {
        SumOverAppend(keys, records[i].key, log, tenant, period);
        keys := keys + [records[i].key];
        assert records[i] in records;
        if records[i].key.tenant == tenant && records[i].key.period == period {
          total := total + records[i].requestCount;
        }
      }
      forall k | 0 <= k < |log|
        ensures log[k].key in keys
      {
        var r :| r in records && r.key == log[k].key;
        var j :| 0 <= j < |records| && records[j] == r;
        assert keys[j] == log[k].key;
      }
      RecordsAccountForTheLog(keys, log, tenant, period);
    }
  }

  lemma TotalOneMore(log: seq<Increment>, e: Increment, key: Key)
    ensures Total(log + [e], key) == if e.key == key then Plus(Total(log, key), e.delta) else Total(log, key)
  {
    assert (log + [e])[..|log|] == log;
  }

  lemma {:induction false} TotalOfUnloggedKey(log: seq<Increment>, key: Key)
    requires forall k :: 0 <= k < |log| ==> log[k].key != key
    ensures Total(log, key) == ZERO
  {
    if log != [] {
      TotalOfUnloggedKey(log[..|log| - 1], key);
    }
  }

  /** One counter, summed over the increments logged for a key. */
  function SumOf(log: seq<Increment>, key: Key, counter: Counters -> int): int {
    if log == [] then 0
    else
      var last := log[|log| - 1];
      SumOf(log[..|log| - 1], key, counter) + if last.key == key then counter(last.delta) else 0
  }

  /** Each of the five counters of a key's total is the sum of that counter's deltas. */
  lemma {:induction false} TotalsAreSums(log: seq<Increment>, key: Key)
    ensures Total(log, key).requests == SumOf(log, key, (c: Counters) => c.requests)
    ensures Total(log, key).aiCalls == SumOf(log, key, (c: Counters) => c.aiCalls)
    ensures Total(log, key).sqlAirlockBlocks == SumOf(log, key, (c: Counters) => c.sqlAirlockBlocks)
    ensures Total(log, key).rateLimitBlocks == SumOf(log, key, (c: Counters) => c.rateLimitBlocks)
    ensures Total(log, key).tokens == SumOf(log, key, (c: Counters) => c.tokens)
  {
    if log != [] {
      TotalsAreSums(log[..|log| - 1], key);
    }
  }

  // ---------- Records against the log ----------

  /** The request totals of the listed keys that belong to the tenant and period. */
  function SumOver(keys: seq<Key>, log: seq<Increment>, tenant: nat, period: string): int {
    if keys == [] then 0
    else
      var last := keys[|keys| - 1];
      SumOver(keys[..|keys| - 1], log, tenant, period)
      + if last.tenant == tenant && last.period == period then Total(log, last).requests else 0
  }

  lemma SumOverAppend(keys: seq<Key>, key: Key, log: seq<Increment>, tenant: nat, period: string)
    ensures SumOver(keys + [key], log, tenant, period) ==
            SumOver(keys, log, tenant, period)
            + if key.tenant == tenant && key.period == period then Total(log, key).requests else 0
  {
    assert (keys + [key])[..|keys|] == keys;
  }

  ghost predicate Distinct(keys: seq<Key>) {
    forall i, j :: 0 <= i < j < |keys| ==> keys[i] != keys[j]
  }

  /** One more increment changes the sum by its delta if its key is listed, once. */
  lemma {:induction false} SumOverOneMore(keys: seq<Key>, log: seq<Increment>, e: Increment, tenant: nat,
                                          period: string)
    requires Distinct(keys)
    ensures SumOver(keys, log + [e], tenant, period) ==
            SumOver(keys, log, tenant, period)
            + if e.key in keys && e.key.tenant == tenant && e.key.period == period then e.delta.requests else 0
  {
    assert (log + [e])[..|log|] == log;
    if keys != [] {
      var before, last := keys[..|keys| - 1], keys[|keys| - 1];
      SumOverOneMore(before, log, e, tenant, period);
      assert keys == before + [last];
      assert last !in before;
    }
  }

  lemma {:induction false} SumOverEmptyLog(keys: seq<Key>, tenant: nat, period: string)
    ensures SumOver(keys, [], tenant, period) == 0
  {
    if keys != [] {
      SumOverEmptyLog(keys[..|keys| - 1], tenant, period);
    }
  }

  /** Conservation: for distinct keys covering the log, the stored request totals of a tenant
      and period add up to exactly what was logged, over all projects. */
  lemma {:induction false} RecordsAccountForTheLog(keys: seq<Key>, log: seq<Increment>, tenant: nat, period: string)
    requires Distinct(keys) && forall k :: 0 <= k < |log| ==> log[k].key in keys
    ensures SumOver(keys, log, tenant, period) == LoggedRequests(log, tenant, period)
  {
    if log == [] {
      SumOverEmptyLog(keys, tenant, period);
    } else {
      var before, e := log[..|log| - 1], log[|log| - 1];
      RecordsAccountForTheLog(keys, before, tenant, period);
      SumOverOneMore(keys, before, e, tenant, period);
      assert before + [e] == log;
      assert e.key in keys;
    }
  }
}

/** The service records of one name (`SnsdTable` and `weighted_shuffle` in `crates/ntk-andna/src/snsd.rs`). */
module Snsd {
  import opened Prelude
  import opened Registration

  const ZERO_SERVICE: U16 := 0
  const MAX_WEIGHT: Byte := 127

  /** The number of priorities. */
  const PRIORITIES: nat := 0x100

  datatype CapError = TooManyRecords(max: nat) | TooManyForService(service: U16, perServiceMax: nat)

  type Buckets = map<U16, seq<SnsdRecord>>

  /** The value of a table. */
  datatype Table = Table(byService: Buckets, total: nat)

  // ---------------------------------------------------------------- counting

  /** The number of records over all services. */
  ghost function Size(m: Buckets): nat {
    if m == map[] then 0
    else
      var s :| s in m;
      |m[s]| + Size(m - {s})
  }

  /** Any service may be counted first. */
  lemma {:induction false} SizeSplit(m: Buckets, s: U16)
    requires s in m
    ensures Size(m) == |m[s]| + Size(m - {s})
    decreases |m|
  {
    var first :| first in m && Size(m) == |m[first]| + Size(m - {first});
    if first != s {
      SizeSplit(m - {first}, s);
      SizeSplit(m - {s}, first);
      assert (m - {first}) - {s} == (m - {s}) - {first};
    }
  }

  lemma SizeUpdate(m: Buckets, s: U16, bucket: seq<SnsdRecord>)
    ensures Size(m[s := bucket]) == |bucket| + Size(m - {s})
  {
    SizeSplit(m[s := bucket], s);
    assert m[s := bucket] - {s} == m - {s};
  }

  lemma SizeWithout(m: Buckets, s: U16)
    ensures Size(m) == Size(m - {s}) + if s in m then |m[s]| else 0
  {
    if s in m {
      SizeSplit(m, s);
    } else {
      assert m - {s} == m;
    }
  }

  ghost predicate Counted(t: Table) {
    t.total == Size(t.byService)
  }

  // ---------------------------------------------------------------- the two updates

  function Bucket(t: Table, service: U16): seq<SnsdRecord> {
    if service in t.byService then t.byService[service] else []
  }

  /** Insertion. A refused service keeps the empty bucket its lookup created. */
  function Inserted(t: Table, r: SnsdRecord, maxPerService: nat, maxTotal: nat): (Table, Option<CapError>) {
    var bucket := Bucket(t, r.service);
    if t.total >= maxTotal then (t, Some(TooManyRecords(maxTotal)))
    else if |bucket| >= maxPerService then
      (t.(byService := t.byService[r.service := bucket]), Some(TooManyForService(r.service, maxPerService)))
    else (Table(t.byService[r.service := bucket + [r]], t.total + 1), None)
  }

  function ZeroRecord(owner: Naddr, priority: Byte, weight: Byte): SnsdRecord {
    SnsdRecord(ZERO_SERVICE, priority, weight, Address(owner))
  }

  lemma InsertKeepsCount(t: Table, r: SnsdRecord, maxPerService: nat, maxTotal: nat)
    requires Counted(t)
    ensures Counted(Inserted(t, r, maxPerService, maxTotal).0)
  {
    SizeWithout(t.byService, r.service);
    SizeUpdate(t.byService, r.service, Bucket(t, r.service));
    SizeUpdate(t.byService, r.service, Bucket(t, r.service) + [r]);
  }

  class SnsdTable {
    var byService: Buckets
    var total: nat

    function Value(): Table
      reads this
    {
      Table(byService, total)
    }

    constructor ()
      ensures Value() == Table(map[], 0) && Counted(Value())
    {
      byService, total := map[], 0;
    }

    /** `insert`. */
    method Insert(r: SnsdRecord, maxPerService: nat, maxTotal: nat) returns (refused: Option<CapError>)
      requires Counted(Value())
      modifies this
      ensures Counted(Value())
      ensures (Value(), refused) == Inserted(old(Value()), r, maxPerService, maxTotal)
    {
      InsertKeepsCount(Value(), r, maxPerService, maxTotal);
      if total >= maxTotal {
        return Some(TooManyRecords(maxTotal));
      }
      if r.service !in byService {
        byService := byService[r.service := []];
      }
      var bucket := byService[r.service];
      if |bucket| >= maxPerService {
        assert byService == old(byService)[r.service := bucket];
        return Some(TooManyForService(r.service, maxPerService));
      }
      byService := byService[r.service := bucket + [r]];
      total := total + 1;
      assert byService == old(byService)[r.service := bucket + [r]];
      return None;
    }

    /** `set_zero_record`: the subtraction of the old bucket's length cannot underflow, and nothing
        but the zero service changes. */
    method SetZeroRecord(owner: Naddr, priority: Byte, weight: Byte)
      requires Counted(Value())
      modifies this
      ensures Counted(Value())
      ensures byService == old(byService)[ZERO_SERVICE := [ZeroRecord(owner, priority, weight)]]
    {
      SizeWithout(byService, ZERO_SERVICE);
      SizeUpdate(byService, ZERO_SERVICE, [ZeroRecord(owner, priority, weight)]);
      if ZERO_SERVICE in byService {
        total := total - |byService[ZERO_SERVICE]|;
        byService := byService - {ZERO_SERVICE};
      }
      byService := byService[ZERO_SERVICE := [ZeroRecord(owner, priority, weight)]];
      total := total + 1;
      assert byService == old(byService)[ZERO_SERVICE := [ZeroRecord(owner, priority, weight)]];
    }
  }

  /** `resolve`; `rng(k)` is the k-th random number drawn. Exactly the enabled records of the chosen
      bucket, each once, in nonincreasing priority. */
  method Resolve(t: Table, service: U16, rng: nat -> nat) returns (ordered: seq<SnsdRecord>)
    ensures ordered == Ordering([], Enabled(Chosen(t, service)), PRIORITIES, rng, 0)
    ensures multiset(ordered) == multiset(Enabled(Chosen(t, service)))
    ensures Descending(ordered)
  {
    var records;
    if service in t.byService && t.byService[service] != [] {
      records := t.byService[service];
    } else if ZERO_SERVICE in t.byService {
      records := t.byService[ZERO_SERVICE];
    } else {
      records := [];
    }
    ordered := OrderRecords(records, rng);
    OrderingMeaning(records, rng);
  }

  // ---------------------------------------------------------------- accepted lists of records

  function OfService(rs: seq<SnsdRecord>, service: U16): (r: seq<SnsdRecord>)
    ensures |r| <= |rs|
  {
    if rs == [] then []
    else
      var n := |rs| - 1;
      OfService(rs[..n], service) + if rs[n].service == service then [rs[n]] else []
  }

  /** Inserting a list until the first refusal. */
  function InsertedAll(t: Table, rs: seq<SnsdRecord>, maxPerService: nat, maxTotal: nat): (Table, Option<CapError>)
  {
    if rs == [] then (t, None)
    else
      var n := |rs| - 1;
      var (t', e) := InsertedAll(t, rs[..n], maxPerService, maxTotal);
      if e.Some? then (t', e) else Inserted(t', rs[n], maxPerService, maxTotal)
  }

  /** The caps, as a condition on the list alone. */
  predicate WithinCaps(rs: seq<SnsdRecord>, maxPerService: nat, maxTotal: nat) {
    rs == [] || (|rs| + 1 <= maxTotal && forall r :: r in rs ==> |OfService(rs, r.service)| <= maxPerService)
  }

  lemma {:induction false} OfServicePrefix(rs: seq<SnsdRecord>, n: nat, service: U16)
    requires n <= |rs|
    ensures |OfService(rs[..n], service)| <= |OfService(rs, service)|
  {
    if n < |rs| {
      OfServicePrefix(rs[..|rs| - 1], n, service);
      assert rs[..|rs| - 1][..n] == rs[..n];
    } else {
      assert rs[..n] == rs;
    }
  }

  /** A table started from its zero record takes a list of other records if and only if the list is
      within the caps; every service then holds its records in the order given. */
  lemma {:induction false} InsertedAllIff(zero: SnsdRecord, rs: seq<SnsdRecord>, maxPerService: nat, maxTotal: nat)
    requires zero.service == ZERO_SERVICE
    requires forall r :: r in rs ==> r.service != ZERO_SERVICE
    ensures
      var (t, e) := InsertedAll(Table(map[ZERO_SERVICE := [zero]], 1), rs, maxPerService, maxTotal);
      && (e.None? <==> WithinCaps(rs, maxPerService, maxTotal))
      && (e.None? ==>
        && t.total == |rs| + 1
        && Bucket(t, ZERO_SERVICE) == [zero]
        && forall s: U16 :: s != ZERO_SERVICE ==> Bucket(t, s) == OfService(rs, s))
  {
    if rs != [] {
      var n := |rs| - 1;
      var last := rs[n];
      InsertedAllIff(zero, rs[..n], maxPerService, maxTotal);
      assert forall r :: r in rs[..n] ==> r in rs;
      forall r | r in rs[..n] ensures |OfService(rs[..n], r.service)| <= |OfService(rs, r.service)| {
        OfServicePrefix(rs, n, r.service);
      }
      assert rs == rs[..n] + [last];
      assert |OfService(rs, last.service)| == |OfService(rs[..n], last.service)| + 1;
    }
  }

  // ---------------------------------------------------------------- resolution

  /** The bucket a service resolves to: its own if it has records, otherwise the zero record's. */
  function Chosen(t: Table, service: U16): seq<SnsdRecord> {
    if Bucket(t, service) != [] then Bucket(t, service) else Bucket(t, ZERO_SERVICE)
  }

  predicate IsEnabled(r: SnsdRecord) {
    r.weight > 0
  }

  function Enabled(rs: seq<SnsdRecord>): seq<SnsdRecord> {
    if rs == [] then []
    else
      var n := |rs| - 1;
      Enabled(rs[..n]) + if IsEnabled(rs[n]) then [rs[n]] else []
  }

  /** The records of one priority, in order. */
  function Tier(rs: seq<SnsdRecord>, priority: int): seq<SnsdRecord> {
    if rs == [] then []
    else
      var n := |rs| - 1;
      Tier(rs[..n], priority) + if rs[n].priority == priority then [rs[n]] else []
  }

  lemma {:induction false} EnabledIff(rs: seq<SnsdRecord>, r: SnsdRecord)
    ensures r in Enabled(rs) <==> r in rs && IsEnabled(r)
  {
    if rs != [] {
      EnabledIff(rs[..|rs| - 1], r);
      assert rs == rs[..|rs| - 1] + [rs[|rs| - 1]];
    }
  }

  lemma {:induction false} TierIff(rs: seq<SnsdRecord>, p: int, r: SnsdRecord)
    ensures r in Tier(rs, p) <==> r in rs && r.priority == p
  {
    if rs != [] {
      TierIff(rs[..|rs| - 1], p, r);
      assert rs == rs[..|rs| - 1] + [rs[|rs| - 1]];
    }
  }

  /** `tiers` holds the nonempty tiers of `rs`. */
  ghost predicate Grouped(tiers: map<int, seq<SnsdRecord>>, rs: seq<SnsdRecord>) {
    forall p :: (if p in tiers then tiers[p] != [] && tiers[p] == Tier(rs, p) else Tier(rs, p) == [])
  }

  lemma TierAppend(rs: seq<SnsdRecord>, r: SnsdRecord, p: int)
    ensures Tier(rs + [r], p) == Tier(rs, p) + if r.priority == p then [r] else []
  {
    assert (rs + [r])[..|rs|] == rs;
  }

  lemma GroupedAppend(tiers: map<int, seq<SnsdRecord>>, rs: seq<SnsdRecord>, r: SnsdRecord)
    requires Grouped(tiers, rs)
    ensures Grouped(tiers[r.priority := Tier(rs, r.priority) + [r]], rs + [r])
  {
    var more := tiers[r.priority := Tier(rs, r.priority) + [r]];
    forall p
      ensures (if p in more then more[p] != [] && more[p] == Tier(rs + [r], p) else Tier(rs + [r], p) == [])
    {
      TierAppend(rs, r, p);
    }
  }

  method GroupByPriority(records: seq<SnsdRecord>) returns (tiers: map<int, seq<SnsdRecord>>)
    ensures Grouped(tiers, Enabled(records))
  {
    tiers := map[];
    for k := 0 to |records|
      invariant Grouped(tiers, Enabled(records[..k]))
    {
      var r := records[k];
      assert records[..k + 1][..k] == records[..k];
      if IsEnabled(r) {
        GroupedAppend(tiers, Enabled(records[..k]), r);
        assert Tier(Enabled(records[..k]), r.priority) == if r.priority in tiers then tiers[r.priority] else [];
        var tier := if r.priority in tiers then tiers[r.priority] else [];
        tiers := tiers[r.priority := tier + [r]];
        assert Enabled(records[..k + 1]) == Enabled(records[..k]) + [r];
      } else {
        assert Enabled(records[..k + 1]) == Enabled(records[..k]);
      }
    }
    assert records[..|records|] == records;
  }

  // ---------------------------------------------------------------- weighted picks

  /** The weight before record `i`. */
  function Before(rs: seq<SnsdRecord>, i: nat): (w: nat)
    requires i <= |rs|
  {
    if i == 0 then 0 else Before(rs, i - 1) + rs[i - 1].weight
  }

  function TotalWeight(rs: seq<SnsdRecord>): nat {
    Before(rs, |rs|)
  }

  /** `pick` falls in the weight interval of record `i`. */
  predicate Selects(rs: seq<SnsdRecord>, pick: int, i: nat)
    requires i < |rs|
  {
    Before(rs, i) < pick <= Before(rs, i) + rs[i].weight
  }

  lemma {:induction false} BeforeMonotone(rs: seq<SnsdRecord>, i: nat, j: nat)
    requires i <= j <= |rs|
    ensures Before(rs, i) <= Before(rs, j)
  {
    if i < j {
      BeforeMonotone(rs, i, j - 1);
    }
  }

  /** The intervals do not overlap. */
  lemma SelectsOne(rs: seq<SnsdRecord>, pick: int, i: nat, j: nat)
    requires i < |rs| && j < |rs|
    requires Selects(rs, pick, i) && Selects(rs, pick, j)
    ensures i == j
  {
    if i < j {
      BeforeMonotone(rs, i + 1, j);
    } else if j < i {
      BeforeMonotone(rs, j + 1, i);
    }
  }

  /** The `n` numbers after `a`. */
  function Interval(a: int, n: nat): (s: set<int>)
    ensures |s| == n
    ensures forall p :: p in s <==> a < p <= a + n
  {
    if n == 0 then {} else Interval(a, n - 1) + {a + n}
  }

  /** Of all picks, exactly as many select a record as its weight. */
  lemma PicksOf(rs: seq<SnsdRecord>, i: nat)
    requires i < |rs|
    ensures |set p: int | 1 <= p <= TotalWeight(rs) && Selects(rs, p, i)| == rs[i].weight
  {
    BeforeMonotone(rs, i + 1, |rs|);
    var picks := set p: int | 1 <= p <= TotalWeight(rs) && Selects(rs, p, i);
    var interval := Interval(Before(rs, i), rs[i].weight);
    forall p: int ensures p in picks <==> p in interval {
      assert p in interval <==> Selects(rs, p, i);
    }
    assert picks == interval;
  }

  /** The intervals cover every pick from 1 to the total weight. */
  lemma {:induction false} SelectsSome(rs: seq<SnsdRecord>, pick: int, n: nat)
    requires n <= |rs| && 1 <= pick <= Before(rs, n)
    ensures exists i :: 0 <= i < |rs| && Selects(rs, pick, i)
  {
    if Selects(rs, pick, n - 1) {
    } else {
      SelectsSome(rs, pick, n - 1);
    }
  }

  ghost function Selected(rs: seq<SnsdRecord>, pick: int): (i: nat)
    requires 1 <= pick <= TotalWeight(rs)
    ensures i < |rs| && Selects(rs, pick, i)
  {
    SelectsSome(rs, pick, |rs|);
    var i: nat :| i < |rs| && Selects(rs, pick, i);
    i
  }

  /** The scan of one pick: it always stops inside a record's interval. */
  method PickOne(rs: seq<SnsdRecord>, pick: nat) returns (chosen: nat)
    requires 1 <= pick <= TotalWeight(rs)
    ensures chosen < |rs| && Selects(rs, pick, chosen)
  {
    chosen := 0;
    var remaining: int := pick;
    for i := 0 to |rs|
      invariant remaining == pick - Before(rs, i) && remaining > 0
    {
      var w := rs[i].weight;
      if remaining <= w {
        chosen := i;
        return;
      }
      remaining := remaining - w;
    }
  }

  function Without(rs: seq<SnsdRecord>, i: nat): (r: seq<SnsdRecord>)
    requires i < |rs|
    ensures |r| == |rs| - 1
  {
    rs[..i] + rs[i + 1..]
  }

  lemma WithoutRemoves(rs: seq<SnsdRecord>, i: nat)
    requires i < |rs|
    ensures multiset(rs) == multiset([rs[i]]) + multiset(Without(rs, i))
  {
    assert rs == rs[..i] + ([rs[i]] + rs[i + 1..]);
  }

  /** A random number from 1 to `total`; every such number is its own image. */
  function InRange(x: nat, total: nat): (p: nat)
    requires total > 0
    ensures 1 <= p <= total && (1 <= x <= total ==> p == x)
  {
    if x < 1 then 1 else if x > total then total else x
  }

  predicate AllEnabled(rs: seq<SnsdRecord>) {
    forall r :: r in rs ==> IsEnabled(r)
  }

  lemma SomeWeight(rs: seq<SnsdRecord>)
    requires AllEnabled(rs) && rs != []
    ensures TotalWeight(rs) > 0
  {
    assert IsEnabled(rs[|rs| - 1]);
  }

  /** Repeated weighted draws without replacement, added to `acc`: each draw takes the record in whose
      interval the random number falls. Records without weight are never drawn. */
  ghost function Drawn(acc: seq<SnsdRecord>, rs: seq<SnsdRecord>, rng: nat -> nat, k: nat): seq<SnsdRecord>
    decreases |rs|
  {
    if TotalWeight(rs) == 0 then acc
    else
      var i := Selected(rs, InRange(rng(k), TotalWeight(rs)));
      Drawn(acc + [rs[i]], Without(rs, i), rng, k + 1)
  }

  method DrawOne(pool: seq<SnsdRecord>, pick: nat) returns (chosen: nat)
    requires AllEnabled(pool) && 1 <= pick <= TotalWeight(pool)
    ensures chosen < |pool| && chosen == Selected(pool, pick)
    ensures AllEnabled(Without(pool, chosen))
  {
    chosen := PickOne(pool, pick);
    SelectsOne(pool, pick, chosen, Selected(pool, pick));
  }

  /** `weighted_shuffle`. */
  method WeightedShuffle(records: seq<SnsdRecord>, rng: nat -> nat, start: nat) returns (ordered: seq<SnsdRecord>)
    requires AllEnabled(records)
    ensures ordered == Drawn([], records, rng, start)
  {
    ordered := [];
    var pool := records;
    var k := start;
    while pool != []
      invariant AllEnabled(pool)
      invariant Drawn(ordered, pool, rng, k) == Drawn([], records, rng, start)
      decreases |pool|
    {
      SomeWeight(pool);
      var total := SumWeights(pool);
      var chosen := DrawOne(pool, InRange(rng(k), total));
      ordered := ordered + [pool[chosen]];
      pool := Without(pool, chosen);
      k := k + 1;
    }
  }

  method SumWeights(rs: seq<SnsdRecord>) returns (total: nat)
    ensures total == TotalWeight(rs)
  {
    total := 0;
    for i := 0 to |rs|
      invariant total == Before(rs, i)
    {
      total := total + rs[i].weight;
    }
  }

  lemma {:induction false} DrawnPermutes(acc: seq<SnsdRecord>, rs: seq<SnsdRecord>, rng: nat -> nat, k: nat)
    requires AllEnabled(rs)
    ensures multiset(Drawn(acc, rs, rng, k)) == multiset(acc) + multiset(rs)
    decreases |rs|
  {
    if rs != [] {
      SomeWeight(rs);
      var i := Selected(rs, InRange(rng(k), TotalWeight(rs)));
      WithoutRemoves(rs, i);
      DrawnPermutes(acc + [rs[i]], Without(rs, i), rng, k + 1);
    }
  }

  // ---------------------------------------------------------------- the whole ordering

  /** The tiers below priority `p`, highest first and each drawn by weight, added to `acc`. */
  ghost function Ordering(
    acc: seq<SnsdRecord>, enabled: seq<SnsdRecord>, p: nat, rng: nat -> nat, k: nat): seq<SnsdRecord>
    decreases p, enabled
  {
    if p == 0 then acc
    else
      var tier := Tier(enabled, p - 1);
      Ordering(acc + Drawn([], tier, rng, k), enabled, p - 1, rng, k + |tier|)
  }

  /** The records of priority below `p`. */
  function Below(rs: seq<SnsdRecord>, p: int): seq<SnsdRecord> {
    if rs == [] then []
    else
      var n := |rs| - 1;
      Below(rs[..n], p) + if rs[n].priority < p then [rs[n]] else []
  }

  lemma {:induction false} BelowSplits(rs: seq<SnsdRecord>, p: int)
    ensures multiset(Below(rs, p)) == multiset(Tier(rs, p - 1)) + multiset(Below(rs, p - 1))
  {
    if rs != [] {
      BelowSplits(rs[..|rs| - 1], p);
    }
  }

  lemma {:induction false} BelowAll(rs: seq<SnsdRecord>)
    ensures Below(rs, PRIORITIES) == rs && Below(rs, 0) == []
  {
    if rs != [] {
      BelowAll(rs[..|rs| - 1]);
      assert rs == rs[..|rs| - 1] + [rs[|rs| - 1]];
    }
  }

  predicate Descending(s: seq<SnsdRecord>) {
    forall i, j :: 0 <= i < j < |s| ==> s[i].priority >= s[j].priority
  }

  predicate AtLeast(s: seq<SnsdRecord>, p: int) {
    forall i :: 0 <= i < |s| ==> s[i].priority >= p
  }

  lemma DescendingJoin(a: seq<SnsdRecord>, b: seq<SnsdRecord>, p: int)
    requires Descending(a) && AtLeast(a, p + 1)
    requires forall i :: 0 <= i < |b| ==> b[i].priority == p
    ensures Descending(a + b) && AtLeast(a + b, p)
  {}

  lemma AllEnabledTier(enabled: seq<SnsdRecord>, p: int)
    requires AllEnabled(enabled)
    ensures AllEnabled(Tier(enabled, p))
  {
    forall r | r in Tier(enabled, p) ensures IsEnabled(r) {
      TierIff(enabled, p, r);
    }
  }

  lemma EnabledAll(records: seq<SnsdRecord>)
    ensures AllEnabled(Enabled(records))
  {
    forall r | r in Enabled(records) ensures IsEnabled(r) {
      EnabledIff(records, r);
    }
  }

  lemma DrawnOfTier(enabled: seq<SnsdRecord>, p: int, rng: nat -> nat, k: nat)
    requires AllEnabled(enabled)
    ensures
      var tier := Tier(enabled, p);
      var drawn := Drawn([], tier, rng, k);
      && multiset(drawn) == multiset(tier)
      && forall i :: 0 <= i < |drawn| ==> drawn[i].priority == p
  {
    var tier := Tier(enabled, p);
    var drawn := Drawn([], tier, rng, k);
    AllEnabledTier(enabled, p);
    DrawnPermutes([], tier, rng, k);
    forall i | 0 <= i < |drawn| ensures drawn[i].priority == p {
      assert drawn[i] in multiset(drawn);
      TierIff(enabled, p, drawn[i]);
    }
  }

  /** The records of the tiers below `p`, in any order. */
  function TiersBelow(rs: seq<SnsdRecord>, p: nat): multiset<SnsdRecord>
    decreases p
  {
    if p == 0 then multiset{} else multiset(Tier(rs, p - 1)) + TiersBelow(rs, p - 1)
  }

  lemma {:induction false} TiersBelowAll(rs: seq<SnsdRecord>, p: nat)
    ensures TiersBelow(rs, p) == multiset(Below(rs, p))
    decreases p
  {
    if p == 0 {
      BelowAll(rs);
    } else {
      TiersBelowAll(rs, p - 1);
      BelowSplits(rs, p);
    }
  }

  lemma TierPermutes(acc: seq<SnsdRecord>, tier: seq<SnsdRecord>, rng: nat -> nat, k: nat, below: multiset<SnsdRecord>)
    requires AllEnabled(tier)
    ensures multiset(acc + Drawn([], tier, rng, k)) + below == multiset(acc) + (multiset(tier) + below)
  {
    DrawnPermutes([], tier, rng, k);
  }

  lemma {:induction false} OrderingPermutes(
    acc: seq<SnsdRecord>, enabled: seq<SnsdRecord>, p: nat, rng: nat -> nat, k: nat)
    requires forall q :: AllEnabled(Tier(enabled, q))
    ensures multiset(Ordering(acc, enabled, p, rng, k)) == multiset(acc) + TiersBelow(enabled, p)
    decreases p
  {
    if p > 0 {
      var tier := Tier(enabled, p - 1);
      TierPermutes(acc, tier, rng, k, TiersBelow(enabled, p - 1));
      OrderingPermutes(acc + Drawn([], tier, rng, k), enabled, p - 1, rng, k + |tier|);
    }
  }

  lemma TierDescends(acc: seq<SnsdRecord>, enabled: seq<SnsdRecord>, p: nat, rng: nat -> nat, k: nat)
    requires AllEnabled(enabled) && Descending(acc) && AtLeast(acc, p + 1)
    ensures
      var more := acc + Drawn([], Tier(enabled, p), rng, k);
      Descending(more) && AtLeast(more, p)
  {
    DrawnOfTier(enabled, p, rng, k);
    DescendingJoin(acc, Drawn([], Tier(enabled, p), rng, k), p);
  }

  lemma {:induction false} OrderingDescends(
    acc: seq<SnsdRecord>, enabled: seq<SnsdRecord>, p: nat, rng: nat -> nat, k: nat)
    requires AllEnabled(enabled) && Descending(acc) && AtLeast(acc, p)
    ensures Descending(Ordering(acc, enabled, p, rng, k))
    decreases p
  {
    if p > 0 {
      var tier := Tier(enabled, p - 1);
      TierDescends(acc, enabled, p - 1, rng, k);
      OrderingDescends(acc + Drawn([], tier, rng, k), enabled, p - 1, rng, k + |tier|);
    }
  }

  lemma OrderingMeaning(records: seq<SnsdRecord>, rng: nat -> nat)
    ensures multiset(Ordering([], Enabled(records), PRIORITIES, rng, 0)) == multiset(Enabled(records))
    ensures Descending(Ordering([], Enabled(records), PRIORITIES, rng, 0))
  {
    var enabled := Enabled(records);
    EnabledAll(records);
    forall q ensures AllEnabled(Tier(enabled, q)) {
      AllEnabledTier(enabled, q);
    }
    OrderingPermutes([], enabled, PRIORITIES, rng, 0);
    OrderingDescends([], enabled, PRIORITIES, rng, 0);
    TiersBelowAll(enabled, PRIORITIES);
    BelowAll(enabled);
  }

  lemma OrderingUnfold(acc: seq<SnsdRecord>, enabled: seq<SnsdRecord>, p: nat, rng: nat -> nat, k: nat)
    ensures
      var tier := Tier(enabled, p);
      Ordering(acc, enabled, p + 1, rng, k) == Ordering(acc + Drawn([], tier, rng, k), enabled, p, rng, k + |tier|)
  {}

  /** One tier drawn and appended. */
  method AppendTier(
    ordered: seq<SnsdRecord>, tiers: map<int, seq<SnsdRecord>>, ghost enabled: seq<SnsdRecord>, p: nat, rng: nat -> nat,
    drawn: nat)
    returns (more: seq<SnsdRecord>, drawn': nat)
    requires Grouped(tiers, enabled) && AllEnabled(enabled)
    ensures more == ordered + Drawn([], Tier(enabled, p), rng, drawn) && drawn' == drawn + |Tier(enabled, p)|
  {
    var members := if p in tiers then tiers[p] else [];
    assert members == Tier(enabled, p);
    AllEnabledTier(enabled, p);
    var tier := WeightedShuffle(members, rng, drawn);
    more := ordered + tier;
    drawn' := drawn + |members|;
  }

  /** The tiers in descending priority, as the source's ordered map yields them. */
  method OrderTiers(tiers: map<int, seq<SnsdRecord>>, ghost enabled: seq<SnsdRecord>, rng: nat -> nat)
    returns (ordered: seq<SnsdRecord>)
    requires Grouped(tiers, enabled) && AllEnabled(enabled)
    ensures ordered == Ordering([], enabled, PRIORITIES, rng, 0)
  {
    ordered := [];
    var drawn: nat := 0;
    for p := PRIORITIES downto 0
      invariant Ordering(ordered, enabled, p, rng, drawn) == Ordering([], enabled, PRIORITIES, rng, 0)
    {
      OrderingUnfold(ordered, enabled, p, rng, drawn);
      ordered, drawn := AppendTier(ordered, tiers, enabled, p, rng, drawn);
    }
  }

  method OrderRecords(records: seq<SnsdRecord>, rng: nat -> nat) returns (ordered: seq<SnsdRecord>)
    ensures ordered == Ordering([], Enabled(records), PRIORITIES, rng, 0)
  {
    var tiers := GroupByPriority(records);
    EnabledAll(records);
    ordered := OrderTiers(tiers, Enabled(records), rng);
  }
}

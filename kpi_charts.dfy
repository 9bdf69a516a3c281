/** The dashboard charts: records grouped into (year, month) buckets, the per-bucket
    progress trend, and the three-category breakdown. */
module KpiCharts {
  import opened Seqs
  import opened Schema
  import opened Metrics
  import Dashboard

  /** The Map key `${getFullYear()}-${getMonth()}`. */
  datatype MonthKey = MonthKey(year: int, month0: int)

  function KeyOf(d: Date): MonthKey {
    MonthKey(d.year, d.month0)
  }

  /** Records of different months have different dates, hence different date keys. */
  lemma DifferentMonthsDifferentDates(a: Date, b: Date)
    requires KeyOf(a) != KeyOf(b)
    ensures DateKey(a) != DateKey(b)
  {
    DateKeyIsChronological(a, b);
  }

  /** A chart entry: the date of its month's first record and the month's two sums. */
  datatype Bucket = Bucket(date: Date, target: real, newDepositShipOk: real)

  function BucketTarget(b: Bucket): real { b.target }
  function BucketShipOk(b: Bucket): real { b.newDepositShipOk }
  function BucketDateKey(b: Bucket): int { DateKey(b.date) }

  /** The records of one month, in input order. */
  function InMonth(data: seq<Record>, k: MonthKey): (rs: seq<Record>)
    ensures |rs| <= |data|
    ensures forall i :: 0 <= i < |rs| ==> KeyOf(rs[i].date) == k
    decreases |data|
  {
    if data == [] then []
    else
      var r := data[|data| - 1];
      InMonth(data[..|data| - 1], k) + (if KeyOf(r.date) == k then [r] else [])
  }

  lemma InMonthSnoc(s: seq<Record>, r: Record, k: MonthKey)
    ensures InMonth(s + [r], k) == InMonth(s, k) + (if KeyOf(r.date) == k then [r] else [])
  {
    assert (s + [r])[..|s + [r]| - 1] == s;
  }

  /** A month's records are exactly the records with that month's key. */
  lemma {:induction false} InMonthMembers(data: seq<Record>, k: MonthKey)
    ensures forall r :: r in InMonth(data, k) <==> r in data && KeyOf(r.date) == k
    decreases |data|
  {
    if data != [] {
      var init := data[..|data| - 1];
      assert data == init + [data[|data| - 1]];
      InMonthMembers(init, k);
    }
  }

  lemma {:induction false} InMonthAppend(a: seq<Record>, b: seq<Record>, k: MonthKey)
    ensures InMonth(a + b, k) == InMonth(a, k) + InMonth(b, k)
    decreases |b|
  {
    if b == [] {
      assert a + b == a;
    } else {
      var init := b[..|b| - 1];
      assert a + b == (a + init) + [b[|b| - 1]];
      InMonthSnoc(a + init, b[|b| - 1], k);
      InMonthAppend(a, init, k);
    }
  }

  lemma {:induction false} InMonthNone(s: seq<Record>, k: MonthKey)
    requires forall j :: 0 <= j < |s| ==> KeyOf(s[j].date) != k
    ensures InMonth(s, k) == []
    decreases |s|
  {
    if s != [] {
      InMonthNone(s[..|s| - 1], k);
    }
  }

  /** What the Map holds for month `k` once all of `data` is seen. */
  function BucketOf(data: seq<Record>, k: MonthKey): (b: Bucket)
    requires InMonth(data, k) != []
    ensures KeyOf(b.date) == k
  {
    var rs := InMonth(data, k);
    Bucket(rs[0].date, Sum(rs, TargetOf), Sum(rs, ShipOkOf))
  }

  /** A bucket's date is the date of the first record of that month in input order. */
  lemma BucketDateIsFirst(data: seq<Record>, k: MonthKey, i: int)
    requires 0 <= i < |data| && KeyOf(data[i].date) == k
    requires forall j :: 0 <= j < i ==> KeyOf(data[j].date) != k
    ensures InMonth(data, k) != [] && BucketOf(data, k).date == data[i].date
  {
    assert data == data[..i] + ([data[i]] + data[i + 1..]);
    InMonthNone(data[..i], k);
    InMonthAppend(data[..i], [data[i]] + data[i + 1..], k);
    InMonthAppend([data[i]], data[i + 1..], k);
    InMonthSnoc([], data[i], k);
    assert [] + [data[i]] == [data[i]];
  }

  /** Each month present in the records, once, in the order of its first record. */
  function MonthKeys(data: seq<Record>): (ks: seq<MonthKey>)
    ensures Distinct(ks)
    decreases |data|
  {
    if data == [] then []
    else
      var ks := MonthKeys(data[..|data| - 1]);
      var k := KeyOf(data[|data| - 1].date);
      if k !in ks then ks + [k] else ks
  }

  lemma MonthKeysSnoc(s: seq<Record>, r: Record)
    ensures MonthKeys(s + [r]) ==
      if KeyOf(r.date) in MonthKeys(s) then MonthKeys(s) else MonthKeys(s) + [KeyOf(r.date)]
  {
    assert (s + [r])[..|s + [r]| - 1] == s;
  }

  /** A month is listed exactly when some record falls in it. */
  lemma {:induction false} MonthKeysMembers(data: seq<Record>, k: MonthKey)
    ensures k in MonthKeys(data) <==> InMonth(data, k) != []
    decreases |data|
  {
    if data != [] {
      var init, r := data[..|data| - 1], data[|data| - 1];
      assert data == init + [r];
      MonthKeysSnoc(init, r);
      InMonthSnoc(init, r, k);
      MonthKeysMembers(init, k);
    }
  }

  /** The new record's own month after one more record. */
  lemma BucketOfSnocSame(s: seq<Record>, r: Record)
    ensures InMonth(s + [r], KeyOf(r.date)) != []
    ensures BucketOf(s + [r], KeyOf(r.date)) ==
      if InMonth(s, KeyOf(r.date)) == [] then Bucket(r.date, r.target, r.newDepositShipOk)
      else var b := BucketOf(s, KeyOf(r.date));
        b.(target := b.target + r.target, newDepositShipOk := b.newDepositShipOk + r.newDepositShipOk)
  {
    InMonthSnoc(s, r, KeyOf(r.date));
    if InMonth(s, KeyOf(r.date)) == [] {
      BucketOfSnocFirst(s, r);
    } else {
      BucketOfSnocMore(s, r);
    }
  }

  lemma BucketOfSnocFirst(s: seq<Record>, r: Record)
    requires InMonth(s + [r], KeyOf(r.date)) == [r]
    ensures BucketOf(s + [r], KeyOf(r.date)) == Bucket(r.date, r.target, r.newDepositShipOk)
  {
    assert [r][..0] == [];
    assert Sum([r], TargetOf) == r.target;
    assert Sum([r], ShipOkOf) == r.newDepositShipOk;
  }

  lemma BucketOfSnocMore(s: seq<Record>, r: Record)
    requires InMonth(s, KeyOf(r.date)) != []
    requires InMonth(s + [r], KeyOf(r.date)) == InMonth(s, KeyOf(r.date)) + [r]
    ensures var b := BucketOf(s, KeyOf(r.date));
      BucketOf(s + [r], KeyOf(r.date)) ==
        b.(target := b.target + r.target, newDepositShipOk := b.newDepositShipOk + r.newDepositShipOk)
  {
    var rs := InMonth(s, KeyOf(r.date));
    assert (rs + [r])[..|rs|] == rs;
    assert (rs + [r])[0] == rs[0];
  }

  /** Any other month after one more record. */
  lemma BucketOfSnocOther(s: seq<Record>, r: Record, k: MonthKey)
    requires k != KeyOf(r.date)
    ensures InMonth(s + [r], k) == InMonth(s, k)
  {
    InMonthSnoc(s, r, k);
  }

  function MonthSumFn(data: seq<Record>, f: Record -> real): MonthKey -> real {
    k => Sum(InMonth(data, k), f)
  }

  lemma MonthSumSnoc(s: seq<Record>, r: Record, f: Record -> real, k: MonthKey)
    ensures MonthSumFn(s + [r], f)(k) == MonthSumFn(s, f)(k) + (if k == KeyOf(r.date) then f(r) else 0.0)
  {
    InMonthSnoc(s, r, k);
    SumAppend(InMonth(s, k), if k == KeyOf(r.date) then [r] else [], f);
    assert [r][..0] == [];
  }

  /** One more record adds its value to exactly one month's sum. */
  lemma PartitionStep(s: seq<Record>, r: Record, f: Record -> real)
    ensures Sum(MonthKeys(s + [r]), MonthSumFn(s + [r], f)) == Sum(MonthKeys(s), MonthSumFn(s, f)) + f(r)
  {
    var ks := MonthKeys(s);
    var k0 := KeyOf(r.date);
    var g, g' := MonthSumFn(s, f), MonthSumFn(s + [r], f);
    MonthKeysSnoc(s, r);
    forall i | 0 <= i < |ks| ensures g'(ks[i]) == g(ks[i]) + (if ks[i] == k0 then f(r) else 0.0) {
      MonthSumSnoc(s, r, f, ks[i]);
    }
    if k0 in ks {
      SumBump(ks, g, g', k0, f(r));
    } else {
      PartitionStepNewMonth(s, r, f);
    }
  }

  lemma PartitionStepNewMonth(s: seq<Record>, r: Record, f: Record -> real)
    requires KeyOf(r.date) !in MonthKeys(s)
    requires forall i :: 0 <= i < |MonthKeys(s)| ==>
      MonthSumFn(s + [r], f)(MonthKeys(s)[i]) == MonthSumFn(s, f)(MonthKeys(s)[i])
    ensures Sum(MonthKeys(s + [r]), MonthSumFn(s + [r], f)) == Sum(MonthKeys(s), MonthSumFn(s, f)) + f(r)
  {
    var ks := MonthKeys(s);
    var k0 := KeyOf(r.date);
    MonthKeysSnoc(s, r);
    SumPointwise(ks, MonthSumFn(s, f), MonthSumFn(s + [r], f));
    MonthSumSnoc(s, r, f, k0);
    MonthKeysMembers(s, k0);
    assert (ks + [k0])[..|ks|] == ks;
  }

  /** The months partition the records: the per-month sums add up to the overall sum. */
  lemma {:induction false} MonthTotalsPartition(data: seq<Record>, f: Record -> real)
    ensures Sum(MonthKeys(data), MonthSumFn(data, f)) == Sum(data, f)
    decreases |data|
  {
    if data != [] {
      var init := data[..|data| - 1];
      var r := data[|data| - 1];
      assert data == init + [r];
      MonthTotalsPartition(init, f);
      PartitionStep(init, r, f);
    }
  }

  /** `Array.from(monthlyMap.values())` read in key order: the bucket of each month. */
  ghost predicate AreMonthBuckets(data: seq<Record>, values: seq<Bucket>) {
    |values| == |MonthKeys(data)| &&
    forall t :: 0 <= t < |values| ==>
      InMonth(data, MonthKeys(data)[t]) != [] && values[t] == BucketOf(data, MonthKeys(data)[t])
  }

  /** The Map after the `forEach` has seen `s`: a new month opens an entry with the record's
      date and zero sums, and every record adds its two values to its month's entry. */
  ghost function MonthMap(s: seq<Record>): map<MonthKey, Bucket>
    decreases |s|
  {
    if s == [] then map[]
    else
      var m := MonthMap(s[..|s| - 1]);
      var item := s[|s| - 1];
      AddToMonth(m, item)
  }

  ghost function AddToMonth(m: map<MonthKey, Bucket>, item: Record): map<MonthKey, Bucket> {
    var key := KeyOf(item.date);
    var entry := if key in m then m[key] else Bucket(item.date, 0.0, 0.0);
    m[key := entry.(target := entry.target + item.target,
                    newDepositShipOk := entry.newDepositShipOk + item.newDepositShipOk)]
  }

  /** The page's two steps, opening the entry when the month is new and then adding to it,
      are `AddToMonth`. */
  lemma OpenThenAdd(m: map<MonthKey, Bucket>, item: Record)
    ensures var key := KeyOf(item.date);
      var m1 := if key in m then m else m[key := Bucket(item.date, 0.0, 0.0)];
      m1[key := m1[key].(target := m1[key].target + item.target,
                         newDepositShipOk := m1[key].newDepositShipOk + item.newDepositShipOk)]
      == AddToMonth(m, item)
  {
  }

  lemma MonthMapSnoc(s: seq<Record>, item: Record)
    ensures MonthMap(s + [item]) == AddToMonth(MonthMap(s), item)
  {
    assert (s + [item])[..|s + [item]| - 1] == s;
  }

  /** The Map holds an entry for a month exactly when a record falls in it, and that entry is
      the month's first date with the sums over the month's records. */
  lemma {:induction false} MonthMapAt(s: seq<Record>, k: MonthKey)
    ensures k in MonthMap(s) <==> InMonth(s, k) != []
    ensures k in MonthMap(s) ==> MonthMap(s)[k] == BucketOf(s, k)
    decreases |s|
  {
    if s != [] {
      var init, item := s[..|s| - 1], s[|s| - 1];
      assert s == init + [item];
      MonthMapSnoc(init, item);
      MonthMapAt(init, k);
      if k == KeyOf(item.date) {
        BucketOfSnocSame(init, item);
      } else {
        BucketOfSnocOther(init, item, k);
      }
    }
  }

  lemma SortedBucketsCover(data: seq<Record>, values: seq<Bucket>, r: Record)
    requires AreMonthBuckets(data, values)
    requires r in data
    ensures InMonth(data, KeyOf(r.date)) != [] && BucketOf(data, KeyOf(r.date)) in values
  {
    var k := KeyOf(r.date);
    var keys := MonthKeys(data);
    InMonthMembers(data, k);
    assert r in InMonth(data, k);
    MonthKeysMembers(data, k);
    var j :| 0 <= j < |keys| && keys[j] == k;
    assert values[j] == BucketOf(data, k);
    assert values[j] in values;
  }

  lemma SortedBucketsStrict(data: seq<Record>, values: seq<Bucket>)
    requires AreMonthBuckets(data, values)
    ensures StrictlySortedByKey(SortByKey(values, BucketDateKey), BucketDateKey)
  {
    forall i, j | 0 <= i < j < |values| ensures BucketDateKey(values[i]) != BucketDateKey(values[j]) {
      DifferentMonthsDifferentDates(values[i].date, values[j].date);
    }
    SortByKeyStrict(values, BucketDateKey);
  }

  lemma SortedBucketsSums(data: seq<Record>, values: seq<Bucket>)
    requires AreMonthBuckets(data, values)
    ensures Sum(SortByKey(values, BucketDateKey), BucketTarget) == Sum(data, TargetOf)
    ensures Sum(SortByKey(values, BucketDateKey), BucketShipOk) == Sum(data, ShipOkOf)
  {
    SumSortByKey(values, BucketDateKey, BucketTarget);
    SumSortByKey(values, BucketDateKey, BucketShipOk);
    SumCorresponding(values, MonthKeys(data), BucketTarget, MonthSumFn(data, TargetOf));
    SumCorresponding(values, MonthKeys(data), BucketShipOk, MonthSumFn(data, ShipOkOf));
    MonthTotalsPartition(data, TargetOf);
    MonthTotalsPartition(data, ShipOkOf);
  }

  /** One `forEach` step keeps the Map and its key order in step with the records seen. */
  lemma BucketStep(s: seq<Record>, item: Record, monthly: map<MonthKey, Bucket>, keys: seq<MonthKey>)
    requires monthly == MonthMap(s) && keys == MonthKeys(s)
    ensures KeyOf(item.date) in monthly <==> KeyOf(item.date) in keys
    ensures AddToMonth(monthly, item) == MonthMap(s + [item])
    ensures (if KeyOf(item.date) in keys then keys else keys + [KeyOf(item.date)]) == MonthKeys(s + [item])
  {
    MonthMapSnoc(s, item);
    MonthKeysSnoc(s, item);
    MonthMapAt(s, KeyOf(item.date));
    MonthKeysMembers(s, KeyOf(item.date));
  }

  lemma SortedBucketsMembers(data: seq<Record>, values: seq<Bucket>, b: Bucket)
    requires AreMonthBuckets(data, values)
    requires b in SortByKey(values, BucketDateKey)
    ensures InMonth(data, KeyOf(b.date)) != [] && b == BucketOf(data, KeyOf(b.date))
  {
    var j :| 0 <= j < |values| && values[j] == b;
    assert b == BucketOf(data, MonthKeys(data)[j]);
  }

  /** What sorting the Map's values by date gives. */
  lemma SortedBuckets(data: seq<Record>, values: seq<Bucket>)
    requires AreMonthBuckets(data, values)
    ensures |SortByKey(values, BucketDateKey)| == |MonthKeys(data)|
    ensures forall b :: b in SortByKey(values, BucketDateKey) ==>
      InMonth(data, KeyOf(b.date)) != [] && b == BucketOf(data, KeyOf(b.date))
    ensures forall r :: r in data ==>
      InMonth(data, KeyOf(r.date)) != [] && BucketOf(data, KeyOf(r.date)) in SortByKey(values, BucketDateKey)
    ensures StrictlySortedByKey(SortByKey(values, BucketDateKey), BucketDateKey)
    ensures Sum(SortByKey(values, BucketDateKey), BucketTarget) == Sum(data, TargetOf)
    ensures Sum(SortByKey(values, BucketDateKey), BucketShipOk) == Sum(data, ShipOkOf)
  {
    var buckets := SortByKey(values, BucketDateKey);
    forall b | b in buckets ensures InMonth(data, KeyOf(b.date)) != [] && b == BucketOf(data, KeyOf(b.date)) {
      SortedBucketsMembers(data, values, b);
    }
    forall r | r in data ensures InMonth(data, KeyOf(r.date)) != [] && BucketOf(data, KeyOf(r.date)) in buckets {
      SortedBucketsCover(data, values, r);
    }
    SortedBucketsStrict(data, values);
    SortedBucketsSums(data, values);
  }

  /** The `forEach` that fills the Map: afterwards it holds one entry per month present,
      that month's bucket, and `keys` lists the months in the Map's insertion order. */
  method FillMonthlyMap(data: seq<Record>) returns (monthly: map<MonthKey, Bucket>, keys: seq<MonthKey>)
    ensures keys == MonthKeys(data)
    ensures forall k :: k in monthly <==> k in keys
    ensures forall k :: k in monthly ==> InMonth(data, k) != [] && monthly[k] == BucketOf(data, k)
  {
    monthly := map[];
    keys := [];
    for i := 0 to |data|
      invariant monthly == MonthMap(data[..i])
      invariant keys == MonthKeys(data[..i])
    {
      var item := data[i];
      var key := KeyOf(item.date);
      assert data[..i + 1] == data[..i] + [item];
      BucketStep(data[..i], item, monthly, keys);
      OpenThenAdd(monthly, item);
      if key !in monthly {
        monthly := monthly[key := Bucket(item.date, 0.0, 0.0)];
        keys := keys + [key];
      }
      var entry := monthly[key];
      monthly := monthly[key := entry.(target := entry.target + item.target,
                                       newDepositShipOk := entry.newDepositShipOk + item.newDepositShipOk)];
    }
    assert data[..|data|] == data;
    forall k ensures (k in monthly <==> k in keys) && (k in monthly ==> InMonth(data, k) != [] && monthly[k] == BucketOf(data, k)) {
      MonthMapAt(data, k);
      MonthKeysMembers(data, k);
    }
  }

  /** The bucketing of `TargetVsShipOkChart` and `TrendLineChart`: the filled Map's values,
      sorted by the entries' dates. */
  method MonthlyBuckets(data: seq<Record>) returns (buckets: seq<Bucket>)
    ensures |buckets| == |MonthKeys(data)|
    ensures forall b :: b in buckets ==> InMonth(data, KeyOf(b.date)) != [] && b == BucketOf(data, KeyOf(b.date))
    ensures forall r :: r in data ==> InMonth(data, KeyOf(r.date)) != [] && BucketOf(data, KeyOf(r.date)) in buckets
    ensures StrictlySortedByKey(buckets, BucketDateKey)
    ensures Sum(buckets, BucketTarget) == Sum(data, TargetOf)
    ensures Sum(buckets, BucketShipOk) == Sum(data, ShipOkOf)
  {
    var monthly, keys := FillMonthlyMap(data);
    var values: seq<Bucket> := [];
    for j := 0 to |keys|
      invariant |values| == j
      invariant forall t :: 0 <= t < j ==> InMonth(data, keys[t]) != [] && values[t] == BucketOf(data, keys[t])
    {
      assert keys[j] in keys;
      values := values + [monthly[keys[j]]];
    }
    buckets := SortByKey(values, BucketDateKey);
    SortedBuckets(data, values);
  }

  /** Records that all fall in month `k` make at most one bucket, the bucket of `k`. */
  lemma {:induction false} OneMonthOneKey(data: seq<Record>, k: MonthKey)
    requires forall i :: 0 <= i < |data| ==> KeyOf(data[i].date) == k
    ensures MonthKeys(data) == [] || MonthKeys(data) == [k]
    decreases |data|
  {
    if data != [] {
      var init := data[..|data| - 1];
      assert data == init + [data[|data| - 1]];
      OneMonthOneKey(init, k);
      MonthKeysSnoc(init, data[|data| - 1]);
    }
  }

  /** The dashboard's month view, and any slice of it such as `slice(0, 12)` or `slice(-6)`,
      makes at most one bucket: its "6 Months" trend chart shows a single point. */
  lemma MonthViewOneBucket(all: seq<Record>, sel: Dashboard.Selection, lo: int, hi: int)
    requires 0 <= lo <= hi <= |Dashboard.MonthView(all, sel)|
    ensures |MonthKeys(Dashboard.MonthView(all, sel)[lo..hi])| <= 1
  {
    var part := Dashboard.MonthView(all, sel)[lo..hi];
    forall i | 0 <= i < |part| ensures KeyOf(part[i].date) == MonthKey(sel.year, sel.month0) {
      assert part[i] in Dashboard.MonthView(all, sel);
    }
    OneMonthOneKey(part, MonthKey(sel.year, sel.month0));
  }

  // --- Progress trend ---

  /** A trend entry: the bucket's fields and its progress. */
  datatype TrendPoint = TrendPoint(date: Date, target: real, newDepositShipOk: real, progress: real)

  /** `.map(item => ({...item, progress}))` with the zero-guarded progress. */
  function TrendPoints(bs: seq<Bucket>): (ps: seq<TrendPoint>)
    ensures |ps| == |bs|
    ensures forall i :: 0 <= i < |bs| ==>
      ps[i].date == bs[i].date && ps[i].target == bs[i].target && ps[i].newDepositShipOk == bs[i].newDepositShipOk
    ensures forall i :: 0 <= i < |bs| ==>
      (bs[i].target > 0.0 ==> ps[i].progress * bs[i].target == bs[i].newDepositShipOk * 100.0) &&
      (bs[i].target <= 0.0 ==> ps[i].progress == 0.0)
  {
    seq(|bs|, i requires 0 <= i < |bs| =>
      TrendPoint(bs[i].date, bs[i].target, bs[i].newDepositShipOk, Percent(bs[i].newDepositShipOk, bs[i].target)))
  }

  /** `TrendLineChart`'s data: one point per month, in date order, with the month's progress. */
  method TrendData(data: seq<Record>) returns (ps: seq<TrendPoint>)
    ensures |ps| == |MonthKeys(data)|
    ensures forall i, j :: 0 <= i < j < |ps| ==> DateKey(ps[i].date) < DateKey(ps[j].date)
    ensures forall i :: 0 <= i < |ps| ==>
      var rs := InMonth(data, KeyOf(ps[i].date));
      rs != [] && ps[i].date == rs[0].date &&
      ps[i].target == Sum(rs, TargetOf) && ps[i].newDepositShipOk == Sum(rs, ShipOkOf) &&
      ps[i].progress == Percent(Sum(rs, ShipOkOf), Sum(rs, TargetOf))
  {
    var buckets := MonthlyBuckets(data);
    ps := TrendPoints(buckets);
    forall i | 0 <= i < |ps|
      ensures var rs := InMonth(data, KeyOf(ps[i].date));
        rs != [] && ps[i].date == rs[0].date &&
        ps[i].target == Sum(rs, TargetOf) && ps[i].newDepositShipOk == Sum(rs, ShipOkOf) &&
        ps[i].progress == Percent(Sum(rs, ShipOkOf), Sum(rs, TargetOf))
    {
      assert buckets[i] in buckets;
    }
  }

  // --- Breakdown of Ship OK into its three categories ---

  /** A pie slice: category name, summed value and its share of the three-category total. */
  datatype Slice = Slice(name: string, value: real, percent: real)

  datatype Totals = Totals(newDeposit: real, strategic: real, retention: real)

  /** The `reduce` into one object: "New Deposit" sums `newDepositShipOk`. */
  function BreakdownTotals(data: seq<Record>): Totals {
    Totals(Sum(data, ShipOkOf), Sum(data, StrategicOf), Sum(data, RetentionOf))
  }

  function TotalValue(t: Totals): real {
    t.newDeposit + t.strategic + t.retention
  }

  function SlicePercent(s: Slice): real { s.percent }

  function IsShown(): Slice -> bool {
    (s: Slice) => s.value > 0.0
  }

  /** The three candidate slices, in their fixed order. */
  function Categories(t: Totals): seq<Slice> {
    var total := TotalValue(t);
    [Slice("New Deposit", t.newDeposit, Percent(t.newDeposit, total)),
     Slice("Strategic", t.strategic, Percent(t.strategic, total)),
     Slice("Retention", t.retention, Percent(t.retention, total))]
  }

  /** `BreakdownChart`'s data: the categories with a positive value, in the fixed order. */
  function Breakdown(data: seq<Record>): (slices: seq<Slice>)
    ensures var t := BreakdownTotals(data);
      (Categories(t)[0] in slices <==> t.newDeposit > 0.0) &&
      (Categories(t)[1] in slices <==> t.strategic > 0.0) &&
      (Categories(t)[2] in slices <==> t.retention > 0.0)
    ensures forall s :: s in slices ==> s in Categories(BreakdownTotals(data)) && s.value > 0.0
    ensures IsSubsequence(slices, Categories(BreakdownTotals(data)))
  {
    var cs := Categories(BreakdownTotals(data));
    FilterIsSubsequence(cs, IsShown());
    Filter(cs, IsShown())
  }

  /** An empty breakdown means no category has a positive total; in particular no records give none. */
  lemma BreakdownEmptyIff(data: seq<Record>)
    ensures var t := BreakdownTotals(data);
      Breakdown(data) == [] <==> t.newDeposit <= 0.0 && t.strategic <= 0.0 && t.retention <= 0.0
    ensures data == [] ==> Breakdown(data) == []
  {
    var slices := Breakdown(data);
    if slices != [] {
      assert slices[0] in slices;
    }
  }

  lemma NonNegativeTotals(data: seq<Record>)
    requires forall x :: x in data ==> NonNegative(x)
    ensures var t := BreakdownTotals(data); t.newDeposit >= 0.0 && t.strategic >= 0.0 && t.retention >= 0.0
  {
    assert forall i :: 0 <= i < |data| ==> data[i] in data;
    SumNonNegative(data, ShipOkOf);
    SumNonNegative(data, StrategicOf);
    SumNonNegative(data, RetentionOf);
  }

  /** `s.percent` is `s.value` as a percentage of the positive `total`. */
  predicate IsShareOf(s: Slice, total: real) {
    total > 0.0 && s.percent * total == s.value * 100.0
  }

  /** For valid (non-negative) data every kept slice's percent is its share of a positive total. */
  lemma BreakdownPercentOfTotal(data: seq<Record>)
    requires forall x :: x in data ==> NonNegative(x)
    ensures forall s :: s in Breakdown(data) ==> IsShareOf(s, TotalValue(BreakdownTotals(data)))
  {
    NonNegativeTotals(data);
    ShownShares(BreakdownTotals(data));
  }

  lemma ShownShares(t: Totals)
    requires t.newDeposit >= 0.0 && t.strategic >= 0.0 && t.retention >= 0.0
    ensures forall s :: s in Filter(Categories(t), IsShown()) ==> IsShareOf(s, TotalValue(t))
  {
    forall s | s in Filter(Categories(t), IsShown())
      ensures IsShareOf(s, TotalValue(t))
    {
      CategoryShare(t, s);
    }
  }

  lemma CategoryShare(t: Totals, s: Slice)
    requires t.newDeposit >= 0.0 && t.strategic >= 0.0 && t.retention >= 0.0
    requires s in Categories(t) && s.value > 0.0
    ensures TotalValue(t) > 0.0 && s.percent * TotalValue(t) == s.value * 100.0
  {
  }

  function MaskedPercent(s: Slice): real {
    if s.value > 0.0 then s.percent else 0.0
  }

  /** Summing the kept slices' percents is summing every slice's percent with dropped ones as 0. */
  lemma {:induction false} SumShownIsMasked(cs: seq<Slice>)
    ensures Sum(Filter(cs, IsShown()), SlicePercent) == Sum(cs, MaskedPercent)
    decreases |cs|
  {
    if cs != [] {
      SumShownIsMasked(cs[1..]);
      SumCons(cs[0], cs[1..], MaskedPercent);
      assert cs == [cs[0]] + cs[1..];
      if cs[0].value > 0.0 {
        SumCons(cs[0], Filter(cs[1..], IsShown()), SlicePercent);
      }
    }
  }

  /** For valid data the kept percents add up to 100 (before display rounding). */
  lemma BreakdownPercentsSumTo100(data: seq<Record>)
    requires forall x :: x in data ==> NonNegative(x)
    requires Breakdown(data) != []
    ensures Sum(Breakdown(data), SlicePercent) == 100.0
  {
    var t := BreakdownTotals(data);
    NonNegativeTotals(data);
    BreakdownEmptyIff(data);
    assert Breakdown(data) == Filter(Categories(t), IsShown());
    ShownPercentsSumTo100(t);
  }

  lemma ShownPercentsSumTo100(t: Totals)
    requires t.newDeposit >= 0.0 && t.strategic >= 0.0 && t.retention >= 0.0
    requires TotalValue(t) > 0.0
    ensures Sum(Filter(Categories(t), IsShown()), SlicePercent) == 100.0
  {
    var cs := Categories(t);
    PercentsOfTotal(t.newDeposit, t.strategic, t.retention);
    SumShownIsMasked(cs);
    SumThree(cs[0], cs[1], cs[2], MaskedPercent);
  }
}

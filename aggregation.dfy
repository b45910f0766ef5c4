/** The business filter and the per-date roll-up of src/utils/dataAggregation.tsx:
    `filterValidTransactions` keeps Airtel, Nano, positive-amount rows of a known
    denomination, and `aggregateDataByDate` sums the flows and maximises the user
    counts of each date's surviving segments, then sorts the days by date. */
module Aggregation {
  import opened Wrappers
  import opened JsText
  import opened JsValues
  import opened Grouping
  import opened Records

  // ---------------------------------------------------------------------------
  // filterValidTransactions

  /** The denominations a row may carry. */
  const ValidDenoms: set<int> := {100, 200, 300, 400, 500, 750, 1000}

  /** A telco that is present and non-empty must read "airtel" in lower case. */
  predicate TelcoAllowed(r: Segment) {
    r.telco.None? || r.telco.value == "" || Lower(r.telco.value) == "airtel"
  }

  /** A loan type that is present and non-empty must contain "nano" in lower case. */
  predicate LoanTypeAllowed(r: Segment) {
    r.loanType.None? || r.loanType.value == "" || Contains(Lower(r.loanType.value), "nano")
  }

  /** A truthy denomination must parse, as an integer, to one of `ValidDenoms`. */
  predicate DenomAllowed(r: Segment) {
    !Truthy(r.denom) || (ParseInt(ToText(r.denom)).Some? && ParseInt(ToText(r.denom)).value in ValidDenoms)
  }

  /** The four exclusion rules; a row survives only if no rule excludes it. */
  predicate IsValid(r: Segment) {
    TelcoAllowed(r) && LoanTypeAllowed(r) && r.grossLent > 0.0 && DenomAllowed(r)
  }

  /** `filterValidTransactions`: the valid rows, in their original order, unchanged. */
  function FilterValid(data: seq<Segment>): seq<Segment>
  {
    if data == [] then []
    else (if IsValid(data[0]) then [data[0]] else []) + FilterValid(data[1..])
  }

  /** The filter keeps exactly the valid rows, and nothing else. */
  lemma {:induction false} FilterValidSpec(data: seq<Segment>)
    ensures |FilterValid(data)| <= |data|
    ensures forall x :: x in FilterValid(data) ==> x in data && IsValid(x)
    ensures forall x :: x in data && IsValid(x) ==> x in FilterValid(data)
  {
    if data != [] {
      FilterValidSpec(data[1..]);
      assert data == [data[0]] + data[1..];
    }
  }

  /** The filter works row by row: filtering a concatenation filters each part and
      keeps them in order, so the surviving rows keep their relative order. */
  lemma {:induction false} FilterAppend(a: seq<Segment>, b: seq<Segment>)
    ensures FilterValid(a + b) == FilterValid(a) + FilterValid(b)
  {
    if a == [] {
      assert a + b == b;
    } else {
      var head := if IsValid(a[0]) then [a[0]] else [];
      assert (a + b)[0] == a[0] && (a + b)[1..] == a[1..] + b;
      assert FilterValid(a + b) == head + FilterValid(a[1..] + b);
      FilterAppend(a[1..], b);
      assert FilterValid(a) == head + FilterValid(a[1..]);
    }
  }

  /** A row is kept exactly when it is valid. */
  lemma FilterSingle(x: Segment)
    ensures FilterValid([x]) == if IsValid(x) then [x] else []
  {
  }

  // ---------------------------------------------------------------------------
  // One date's totals

  /** The bucket a new date starts from: every field 0. */
  function EmptyDay(d: string): DayTotals {
    DayTotals(d, 0.0, 0.0, 0.0, 0.0, 0.0, 0.0, 0.0, 0.0, 0.0, 0.0, 0.0, 0.0, 0.0, 0.0, 0.0, 0.0, 0.0, 0)
  }

  function Max(a: real, b: real): real {
    if a >= b then a else b
  }

  /** What the reducer does with one more row of the bucket's date: adds its flows,
      raises the user counts to its own, counts it. */
  function Absorb(b: DayTotals, r: Segment): DayTotals {
    b.(grossLent := b.grossLent + r.grossLent,
       principalLent := b.principalLent + r.principalLent,
       serviceFeeLent := b.serviceFeeLent + r.serviceFeeLent,
       lendingTransactions := b.lendingTransactions + r.lendingTransactions,
       grossRecovered := b.grossRecovered + r.grossRecovered,
       principalRecovered := b.principalRecovered + r.principalRecovered,
       serviceFeeRecovered := b.serviceFeeRecovered + r.serviceFeeRecovered,
       lateFeesRecovered := b.lateFeesRecovered + r.lateFeesRecovered,
       setupFeesRecovered := b.setupFeesRecovered + r.setupFeesRecovered,
       interestFeesRecovered := b.interestFeesRecovered + r.interestFeesRecovered,
       recoveryTransactions := b.recoveryTransactions + r.recoveryTransactions,
       lateFeesCharged := b.lateFeesCharged + r.lateFeesCharged,
       setupFeesCharged := b.setupFeesCharged + r.setupFeesCharged,
       interestFeesCharged := b.interestFeesCharged + r.interestFeesCharged,
       uniqueUsers := Max(b.uniqueUsers, r.uniqueUsers),
       overallUniqueUsers := Max(b.overallUniqueUsers, r.overallUniqueUsers),
       qualifiedBase := Max(b.qualifiedBase, r.qualifiedBase),
       count := b.count + 1)
  }

  /** The totals of date `d` over its rows `ms`: the bucket the reducer holds once
      it has absorbed them in order. */
  function DayOf(d: string, ms: seq<Segment>): (t: DayTotals)
    ensures t.date == d && t.count == |ms|
  {
    if ms == [] then EmptyDay(d) else Absorb(DayOf(d, ms[..|ms| - 1]), ms[|ms| - 1])
  }

  lemma AbsorbFlow(b: DayTotals, x: Segment, fl: Flow)
    ensures DayFlow(Absorb(b, x), fl) == DayFlow(b, fl) + SegmentFlow(x, fl)
  {
  }

  lemma AbsorbPopulation(b: DayTotals, x: Segment, p: Population)
    ensures DayPopulation(Absorb(b, x), p) == Max(DayPopulation(b, p), SegmentPopulation(x, p))
  {
  }

  /** Each flow of a day is the sum of that flow over the day's rows. */
  lemma {:induction false} DayOfFlow(d: string, ms: seq<Segment>, fl: Flow)
    ensures DayFlow(DayOf(d, ms), fl) == SumOf(ms, FlowOf(fl))
  {
    if ms != [] {
      var ys, x := ms[..|ms| - 1], ms[|ms| - 1];
      assert ms == ys + [x];
      DayOfFlow(d, ys, fl);
      AbsorbFlow(DayOf(d, ys), x, fl);
      SumSnoc(ys, x, FlowOf(fl));
    }
  }

  /** Each user count of a day is the running maximum, from 0, over the day's rows. */
  lemma {:induction false} DayOfPopulation(d: string, ms: seq<Segment>, p: Population)
    ensures DayPopulation(DayOf(d, ms), p) == MaxOr0(ms, PopulationOf(p))
  {
    if ms != [] {
      var ys, x := ms[..|ms| - 1], ms[|ms| - 1];
      DayOfPopulation(d, ys, p);
      AbsorbPopulation(DayOf(d, ys), x, p);
    }
  }

  lemma DayOfFields(d: string, ms: seq<Segment>)
    ensures forall fl :: DayFlow(DayOf(d, ms), fl) == SumOf(ms, FlowOf(fl))
    ensures forall p :: DayPopulation(DayOf(d, ms), p) == MaxOr0(ms, PopulationOf(p))
  {
    forall fl ensures DayFlow(DayOf(d, ms), fl) == SumOf(ms, FlowOf(fl)) {
      DayOfFlow(d, ms, fl);
    }
    forall p ensures DayPopulation(DayOf(d, ms), p) == MaxOr0(ms, PopulationOf(p)) {
      DayOfPopulation(d, ms, p);
    }
  }

  /** Absorbing one more row into a bucket that holds the totals of `ms` gives the
      totals of `ms` followed by that row. */
  lemma DayOfAppend(d: string, ms: seq<Segment>, x: Segment)
    ensures DayOf(d, ms + [x]) == Absorb(DayOf(d, ms), x)
  {
    assert (ms + [x])[..|ms|] == ms;
  }

  /** The reducer's state after the rows `rs`: the dates seen, in order of first
      occurrence, each with a bucket holding the totals of its rows so far. */
  ghost predicate Folded(acc: map<string, DayTotals>, order: seq<string>, rs: seq<Segment>) {
    && order == Keys(rs, DateOf)
    && (forall d :: d in acc <==> d in order)
    && (forall d :: d in acc ==> acc[d] == DayOf(d, Members(rs, DateOf, d)))
  }

  /** One step of the reducer lists the row's date when it first occurs. */
  lemma FoldOrder(acc: map<string, DayTotals>, order: seq<string>, rs: seq<Segment>, item: Segment)
    requires order == Keys(rs, DateOf)
    requires forall d :: d in acc <==> d in order
    ensures (if item.date in acc then order else order + [item.date]) == Keys(rs + [item], DateOf)
  {
    KeysAppend(rs, item, DateOf);
  }

  /** One step of the reducer: the row's bucket (a zeroed one when its date first
      occurs) absorbs the row, and every other bucket stays as it was. */
  lemma FoldBucket(acc: map<string, DayTotals>, rs: seq<Segment>, item: Segment)
    requires forall d :: d in acc ==> acc[d] == DayOf(d, Members(rs, DateOf, d))
    requires forall d :: d in acc <==> d in Keys(rs, DateOf)
    ensures var acc' := acc[item.date := Absorb(if item.date in acc then acc[item.date] else EmptyDay(item.date), item)];
            forall d :: d in acc' ==> acc'[d] == DayOf(d, Members(rs + [item], DateOf, d))
  {
    var date := item.date;
    var acc' := acc[date := Absorb(if date in acc then acc[date] else EmptyDay(date), item)];
    OwnDayAbsorbs(acc, rs, item);
    forall d | d in acc' && d != date
      ensures acc'[d] == DayOf(d, Members(rs + [item], DateOf, d))
    {
      OtherDayUnchanged(rs, item, d);
    }
  }

  /** The row's own bucket, after absorbing it, holds the totals of its date. */
  lemma OwnDayAbsorbs(acc: map<string, DayTotals>, rs: seq<Segment>, item: Segment)
    requires item.date in acc ==> acc[item.date] == DayOf(item.date, Members(rs, DateOf, item.date))
    requires item.date in acc <==> item.date in Keys(rs, DateOf)
    ensures Absorb(if item.date in acc then acc[item.date] else EmptyDay(item.date), item)
            == DayOf(item.date, Members(rs + [item], DateOf, item.date))
  {
    var date := item.date;
    MembersSpec(rs, DateOf, date);
    if date !in acc {
      assert Members(rs, DateOf, date) == [];
    }
    MembersAppend(rs, item, DateOf, date);
    DayOfAppend(date, Members(rs, DateOf, date), item);
  }

  lemma FoldDomain(acc: map<string, DayTotals>, order: seq<string>, date: string, b: DayTotals)
    requires forall d :: d in acc <==> d in order
    ensures date in acc ==> forall d :: d in acc[date := b] <==> d in order
    ensures date !in acc ==> forall d :: d in acc[date := b] <==> d in order + [date]
  {
  }

  /** A row of another date leaves a day's rows as they were. */
  lemma OtherDayUnchanged(rs: seq<Segment>, item: Segment, d: string)
    requires d != item.date
    ensures Members(rs + [item], DateOf, d) == Members(rs, DateOf, d)
  {
    MembersAppend(rs, item, DateOf, d);
  }

  // ---------------------------------------------------------------------------
  // The groups, before sorting

  /** The totals of each date of `ks`, in that order (`Object.values(grouped)`). */
  function DaysFor(ks: seq<string>, rs: seq<Segment>): (ts: seq<DayTotals>)
    ensures |ts| == |ks|
  {
    if ks == [] then [] else [DayOf(ks[0], Members(rs, DateOf, ks[0]))] + DaysFor(ks[1..], rs)
  }

  lemma {:induction false} DaysForIndex(ks: seq<string>, rs: seq<Segment>)
    ensures forall i :: 0 <= i < |ks| ==> DaysFor(ks, rs)[i] == DayOf(ks[i], Members(rs, DateOf, ks[i]))
  {
    if ks != [] {
      DaysForIndex(ks[1..], rs);
    }
  }

  lemma {:induction false} DaysForFlow(ks: seq<string>, rs: seq<Segment>, fl: Flow)
    ensures SumOf(DaysFor(ks, rs), DayFlowOf(fl)) == SumOverKeys(ks, rs, DateOf, FlowOf(fl))
  {
    if ks != [] {
      DaysForFlow(ks[1..], rs, fl);
      DayOfFields(ks[0], Members(rs, DateOf, ks[0]));
    }
  }

  lemma {:induction false} DaysForCount(ks: seq<string>, rs: seq<Segment>)
    ensures SumOf(DaysFor(ks, rs), DayCount) == SumOverKeys(ks, rs, DateOf, UnitWeight)
  {
    if ks != [] {
      DaysForCount(ks[1..], rs);
      SumOfUnit(Members(rs, DateOf, ks[0]), UnitWeight);
    }
  }

  /** One record per distinct date of `rs`, in order of first occurrence. */
  function Grouped(rs: seq<Segment>): seq<DayTotals> {
    DaysFor(Keys(rs, DateOf), rs)
  }

  // ---------------------------------------------------------------------------
  // The sort by date

  /** The records ordered by `dateKey` of their dates (`new Date(date).getTime()`). */
  predicate SortedByDate(ts: seq<DayTotals>, dateKey: string -> int) {
    forall i, j :: 0 <= i < j < |ts| ==> dateKey(ts[i].date) <= dateKey(ts[j].date)
  }

  predicate DistinctDates(ts: seq<DayTotals>) {
    forall i, j :: 0 <= i < j < |ts| ==> ts[i].date != ts[j].date
  }

  /** Puts `t` before the first record whose date is not earlier, so records with
      equal dates keep their relative order. */
  function InsertByDate(t: DayTotals, ts: seq<DayTotals>, dateKey: string -> int): (r: seq<DayTotals>)
    ensures multiset(r) == multiset(ts) + multiset{t}
  {
    if ts == [] || dateKey(t.date) <= dateKey(ts[0].date) then [t] + ts
    else
      assert ts == [ts[0]] + ts[1..];
      [ts[0]] + InsertByDate(t, ts[1..], dateKey)
  }

  /** A stable sort by date, as `Array.prototype.sort` with a numeric comparator is. */
  function SortByDate(ts: seq<DayTotals>, dateKey: string -> int): (r: seq<DayTotals>)
    ensures multiset(r) == multiset(ts)
  {
    if ts == [] then []
    else
      assert ts == [ts[0]] + ts[1..];
      InsertByDate(ts[0], SortByDate(ts[1..], dateKey), dateKey)
  }

  lemma {:induction false} InsertSorted(t: DayTotals, ts: seq<DayTotals>, dateKey: string -> int)
    requires SortedByDate(ts, dateKey)
    ensures SortedByDate(InsertByDate(t, ts, dateKey), dateKey)
  {
    if ts != [] && dateKey(t.date) > dateKey(ts[0].date) {
      var rest := InsertByDate(t, ts[1..], dateKey);
      InsertSorted(t, ts[1..], dateKey);
      forall k | 0 <= k < |rest|
        ensures dateKey(ts[0].date) <= dateKey(rest[k].date)
      {
        assert rest[k] in multiset(ts[1..]) + multiset{t};
        if rest[k] != t {
          var m :| 0 <= m < |ts[1..]| && ts[1..][m] == rest[k];
          assert ts[m + 1] == rest[k];
        }
      }
    }
  }

  /** The sorted records are ordered by date. */
  lemma {:induction false} SortSorted(ts: seq<DayTotals>, dateKey: string -> int)
    ensures SortedByDate(SortByDate(ts, dateKey), dateKey)
  {
    if ts != [] {
      SortSorted(ts[1..], dateKey);
      InsertSorted(ts[0], SortByDate(ts[1..], dateKey), dateKey);
    }
  }

  /** Inserting a record whose date is new keeps the dates distinct. */
  lemma {:induction false} InsertDistinct(t: DayTotals, ts: seq<DayTotals>, dateKey: string -> int)
    requires DistinctDates(ts)
    requires forall k :: 0 <= k < |ts| ==> ts[k].date != t.date
    ensures DistinctDates(InsertByDate(t, ts, dateKey))
  {
    if ts != [] && dateKey(t.date) > dateKey(ts[0].date) {
      var rest := InsertByDate(t, ts[1..], dateKey);
      InsertDistinct(t, ts[1..], dateKey);
      forall k | 0 <= k < |rest|
        ensures ts[0].date != rest[k].date
      {
        assert rest[k] in multiset(ts[1..]) + multiset{t};
        if rest[k] != t {
          var m :| 0 <= m < |ts[1..]| && ts[1..][m] == rest[k];
          assert ts[m + 1] == rest[k];
        }
      }
    }
  }

  /** Sorting records with distinct dates leaves the dates distinct. */
  lemma {:induction false} SortDistinct(ts: seq<DayTotals>, dateKey: string -> int)
    requires DistinctDates(ts)
    ensures DistinctDates(SortByDate(ts, dateKey))
  {
    if ts != [] {
      var rest := SortByDate(ts[1..], dateKey);
      SortDistinct(ts[1..], dateKey);
      forall k | 0 <= k < |rest|
        ensures rest[k].date != ts[0].date
      {
        assert rest[k] in multiset(ts[1..]);
        var m :| 0 <= m < |ts[1..]| && ts[1..][m] == rest[k];
        assert ts[m + 1] == rest[k];
      }
      InsertDistinct(ts[0], rest, dateKey);
    }
  }

  // ---------------------------------------------------------------------------
  // aggregateDataByDate

  /** Once every row is folded in, the buckets listed in order of first occurrence
      are the groups. */
  lemma FoldedValues(acc: map<string, DayTotals>, order: seq<string>, rs: seq<Segment>, values: seq<DayTotals>)
    requires Folded(acc, order, rs)
    requires |values| == |order| && forall k :: 0 <= k < |order| ==> values[k] == acc[order[k]]
    ensures values == Grouped(rs)
  {
    DaysForIndex(order, rs);
  }

  /** What `aggregateDataByDate` returns. */
  function Aggregated(data: seq<Segment>, dateKey: string -> int): seq<DayTotals> {
    SortByDate(Grouped(FilterValid(data)), dateKey)
  }

  /** `aggregateDataByDate`: filters, folds every surviving row into the bucket of
      its date (opening a zeroed bucket on a date's first row), then sorts the
      buckets by date. */
  method AggregateByDate(data: seq<Segment>, dateKey: string -> int) returns (out: seq<DayTotals>)
    ensures out == Aggregated(data, dateKey)
  {
    var filtered := FilterValid(data);
    var acc: map<string, DayTotals> := map[];
    var order: seq<string> := [];
    var i := 0;
    while i < |filtered|
      invariant 0 <= i <= |filtered|
      invariant Folded(acc, order, filtered[..i])
    {
      TakeSnoc(filtered, i);
      var item := filtered[i];
      var date := item.date;
      FoldOrder(acc, order, filtered[..i], item);
      FoldDomain(acc, order, date, Absorb(if date in acc then acc[date] else EmptyDay(date), item));
      FoldBucket(acc, filtered[..i], item);
      var bucket := if date in acc then acc[date] else EmptyDay(date);
      if date !in acc {
        order := order + [date];
      }
      acc := acc[date := Absorb(bucket, item)];
      i := i + 1;
    }
    assert filtered[..i] == filtered;
    var values := seq(|order|, k requires 0 <= k < |order| => acc[order[k]]);
    FoldedValues(acc, order, filtered, values);
    out := SortByDate(values, dateKey);
  }

  // ---------------------------------------------------------------------------
  // What the aggregate promises

  /** Membership in the aggregate: a record is there exactly when it is the totals
      of some date that occurs among the valid rows, taken over that date's rows. */
  lemma AggregatedMember(data: seq<Segment>, dateKey: string -> int, t: DayTotals)
    ensures t in Aggregated(data, dateKey) <==>
            t.date in Keys(FilterValid(data), DateOf)
            && t == DayOf(t.date, Members(FilterValid(data), DateOf, t.date))
  {
    var rs := FilterValid(data);
    var ks := Keys(rs, DateOf);
    DaysForIndex(ks, rs);
    assert t in Aggregated(data, dateKey) <==> t in multiset(Grouped(rs));
    if t.date in ks && t == DayOf(t.date, Members(rs, DateOf, t.date)) {
      var i :| 0 <= i < |ks| && ks[i] == t.date;
      assert Grouped(rs)[i] == t;
    }
  }

  /** Before sorting there is one record per date. */
  lemma GroupedDistinct(rs: seq<Segment>)
    ensures DistinctDates(Grouped(rs))
  {
    var ks := Keys(rs, DateOf);
    KeysSpec(rs, DateOf);
    DaysForIndex(ks, rs);
    forall i, j | 0 <= i < j < |ks|
      ensures Grouped(rs)[i].date != Grouped(rs)[j].date
    {
      assert Grouped(rs)[i].date == ks[i];
      assert Grouped(rs)[j].date == ks[j];
    }
  }

  /** One record per date: the output dates are distinct, and there are no more
      records than valid rows. */
  lemma AggregatedDistinct(data: seq<Segment>, dateKey: string -> int)
    ensures DistinctDates(Aggregated(data, dateKey))
    ensures |Aggregated(data, dateKey)| <= |FilterValid(data)|
  {
    var rs := FilterValid(data);
    KeysLength(rs, DateOf);
    GroupedDistinct(rs);
    SortDistinct(Grouped(rs), dateKey);
    assert |Aggregated(data, dateKey)| == |multiset(Grouped(rs))|;
  }

  /** The output dates are exactly the dates of the valid rows. */
  lemma AggregatedCovers(data: seq<Segment>, dateKey: string -> int)
    ensures forall t :: t in Aggregated(data, dateKey) ==> exists r :: r in FilterValid(data) && r.date == t.date
    ensures forall r :: r in FilterValid(data) ==> exists t :: t in Aggregated(data, dateKey) && t.date == r.date
  {
    var rs := FilterValid(data);
    var ks := Keys(rs, DateOf);
    KeysSpec(rs, DateOf);
    forall t | t in Aggregated(data, dateKey)
      ensures exists r :: r in rs && r.date == t.date
    {
      AggregatedMember(data, dateKey, t);
      var i :| 0 <= i < |rs| && DateOf(rs[i]) == t.date;
    }
    forall r | r in rs
      ensures exists t :: t in Aggregated(data, dateKey) && t.date == r.date
    {
      var i :| 0 <= i < |rs| && rs[i] == r;
      assert DateOf(rs[i]) in ks;
      var t := DayOf(r.date, Members(rs, DateOf, r.date));
      AggregatedMember(data, dateKey, t);
    }
  }

  /** The output is in date order. */
  lemma AggregatedSorted(data: seq<Segment>, dateKey: string -> int)
    ensures SortedByDate(Aggregated(data, dateKey), dateKey)
  {
    SortSorted(Grouped(FilterValid(data)), dateKey);
  }

  /** Each day's flows are the sums over that day's valid rows, and each day's user
      counts are at least 0 and at least every row's value. */
  lemma AggregatedDay(data: seq<Segment>, dateKey: string -> int, t: DayTotals)
    requires t in Aggregated(data, dateKey)
    ensures forall fl :: DayFlow(t, fl) == SumOf(Members(FilterValid(data), DateOf, t.date), FlowOf(fl))
    ensures forall p, r :: r in FilterValid(data) && r.date == t.date
              ==> SegmentPopulation(r, p) <= DayPopulation(t, p)
    ensures forall p :: DayPopulation(t, p) >= 0.0
    ensures t.count > 0
  {
    var rs := FilterValid(data);
    var ms := Members(rs, DateOf, t.date);
    AggregatedMember(data, dateKey, t);
    DayOfFields(t.date, ms);
    MembersSpec(rs, DateOf, t.date);
    forall p, r | r in rs && r.date == t.date
      ensures SegmentPopulation(r, p) <= DayPopulation(t, p)
    {
      MembersHas(rs, r);
      var k :| 0 <= k < |ms| && ms[k] == r;
      MaxOr0Spec(ms, PopulationOf(p));
      assert PopulationOf(p)(ms[k]) <= MaxOr0(ms, PopulationOf(p));
    }
    forall p ensures DayPopulation(t, p) >= 0.0 {
      MaxOr0Spec(ms, PopulationOf(p));
    }
  }

  /** A row is among the members of its own date. */
  lemma {:induction false} MembersHas(rs: seq<Segment>, r: Segment)
    requires r in rs
    ensures r in Members(rs, DateOf, r.date)
  {
    var ys := rs[..|rs| - 1];
    assert rs == ys + [rs[|rs| - 1]];
    MembersAppend(ys, rs[|rs| - 1], DateOf, r.date);
    if rs[|rs| - 1] != r {
      MembersHas(ys, r);
    }
  }

  /** Nothing is lost or counted twice: every flow summed over the output equals
      the same flow summed over the valid rows, and the counts add up to the number
      of valid rows. */
  lemma AggregatedConserves(data: seq<Segment>, dateKey: string -> int)
    ensures forall fl :: SumOf(Aggregated(data, dateKey), DayFlowOf(fl)) == SumOf(FilterValid(data), FlowOf(fl))
    ensures SumOf(Aggregated(data, dateKey), DayCount) == |FilterValid(data)| as real
  {
    var rs := FilterValid(data);
    var ks := Keys(rs, DateOf);
    forall fl ensures SumOf(Aggregated(data, dateKey), DayFlowOf(fl)) == SumOf(rs, FlowOf(fl)) {
      SumPermutation(Aggregated(data, dateKey), Grouped(rs), DayFlowOf(fl));
      DaysForFlow(ks, rs, fl);
      PartitionSum(rs, DateOf, FlowOf(fl));
    }
    SumPermutation(Aggregated(data, dateKey), Grouped(rs), DayCount);
    DaysForCount(ks, rs);
    PartitionSum(rs, DateOf, UnitWeight);
    SumOfUnit(rs, UnitWeight);
  }

  /** Every output day has lent something: its gross lent is positive. */
  lemma AggregatedGrossPositive(data: seq<Segment>, dateKey: string -> int, t: DayTotals)
    requires t in Aggregated(data, dateKey)
    ensures t.grossLent > 0.0
  {
    var rs := FilterValid(data);
    var ms := Members(rs, DateOf, t.date);
    AggregatedMember(data, dateKey, t);
    MembersSpec(rs, DateOf, t.date);
    FilterValidSpec(data);
    forall i | 0 <= i < |ms|
      ensures ms[i].grossLent > 0.0
    {
      assert ms[i] in ms;
    }
    SumPositive(ms);
    DayOfFlow(t.date, ms, GrossLent);
  }

  lemma {:induction false} SumPositive(ms: seq<Segment>)
    requires |ms| > 0
    requires forall i :: 0 <= i < |ms| ==> ms[i].grossLent > 0.0
    ensures SumOf(ms, FlowOf(GrossLent)) > 0.0
  {
    if |ms| > 1 {
      SumPositive(ms[1..]);
    }
  }

  /** No valid rows, no output. */
  lemma AggregatedEmpty(data: seq<Segment>, dateKey: string -> int)
    ensures Aggregated(data, dateKey) == [] <==> FilterValid(data) == []
  {
    var rs := FilterValid(data);
    if rs != [] {
      KeysSpec(rs, DateOf);
      assert |Keys(rs, DateOf)| > 0;
    }
  }
}

/** The reductions of the development-only panel in
    src/components/DataDebugger.tsx: samples of the raw and aggregated rows, the
    rows and the aggregated day of 2025-08-06 with their totals and a
    loan-type/denomination/telco breakdown, and per-telco and per-loan-type
    tallies over all rows. Tallies are `reduce`s over an object that opens a
    zeroed slot on a key's first row and then counts and adds into it in place. */
module DataDebugger {
  import opened Wrappers
  import opened JsValues
  import opened Grouping
  import opened Records
  import opened Aggregation

  /** The day the panel singles out. */
  const Aug6: string := "2025-08-06"

  /** `xs.slice(0, n)` */
  function Take<T>(xs: seq<T>, n: nat): (r: seq<T>)
    ensures |r| == if |xs| < n then |xs| else n
    ensures forall i :: 0 <= i < |r| ==> r[i] == xs[i]
  {
    if |xs| < n then xs else xs[..n]
  }

  predicate IsAug6Day(t: DayTotals) {
    t.date == Aug6
  }

  /** `${v}` for a string property that may be absent. */
  function Shown(v: Option<string>): string {
    if v.Some? then v.value else "undefined"
  }

  /** `${item.loan_type}-${item.denom}-${item.telco}` */
  function BreakdownKey(r: Segment): string {
    Shown(r.loanType) + "-" + ToText(r.denom) + "-" + Shown(r.telco)
  }

  /** `${v || 'Unknown'}` */
  function OrUnknown(v: Option<string>): (k: string)
    ensures v.None? || v.value == "" ==> k == "Unknown"
    ensures v.Some? && v.value != "" ==> k == v.value
  {
    if v.Some? && v.value != "" then v.value else "Unknown"
  }

  function TelcoKey(r: Segment): string {
    OrUnknown(r.telco)
  }

  function LoanTypeKey(r: Segment): string {
    OrUnknown(r.loanType)
  }

  /** A breakdown slot: `{ count, gross_lent, principal_recovered,
      service_fee_recovered }` (each breakdown displays a subset). */
  datatype Tally = Tally(count: nat, grossLent: real, principalRecovered: real, serviceFeeRecovered: real)

  /** The slot of a group whose rows are `ms`. */
  function TallyOf(ms: seq<Segment>): Tally {
    Tally(|ms|, SumOf(ms, FlowOf(GrossLent)), SumOf(ms, FlowOf(PrincipalRecovered)), SumOf(ms, FlowOf(ServiceFeeRecovered)))
  }

  /** `acc[key].count++` and the `+= item.field || 0` lines. */
  function AddRow(t: Tally, r: Segment): Tally {
    Tally(t.count + 1, t.grossLent + r.grossLent, t.principalRecovered + r.principalRecovered,
          t.serviceFeeRecovered + r.serviceFeeRecovered)
  }

  lemma TallyOfAppend(ms: seq<Segment>, x: Segment)
    ensures TallyOf(ms + [x]) == AddRow(TallyOf(ms), x)
  {
    SumSnoc(ms, x, FlowOf(GrossLent));
    SumSnoc(ms, x, FlowOf(PrincipalRecovered));
    SumSnoc(ms, x, FlowOf(ServiceFeeRecovered));
  }

  /** The finished breakdown: one slot per key that occurs, holding the tally of
      exactly the rows with that key. */
  function Breakdown(rows: seq<Segment>, key: Segment -> string): map<string, Tally> {
    map k | k in Keys(rows, key) :: TallyOf(Members(rows, key, k))
  }

  /** The `reduce` that builds a breakdown. */
  method Tallies(rows: seq<Segment>, key: Segment -> string) returns (acc: map<string, Tally>)
    ensures acc == Breakdown(rows, key)
  {
    acc := map[];
    var i := 0;
    while i < |rows|
      invariant 0 <= i <= |rows|
      invariant forall k :: k in acc <==> k in Keys(rows[..i], key)
      invariant forall k :: k in acc ==> acc[k] == TallyOf(Members(rows[..i], key, k))
    {
      TakeSnoc(rows, i);
      var item := rows[i];
      var k := key(item);
      KeysAppend(rows[..i], item, key);
      TallyStep(acc, rows[..i], key, item);
      if k !in acc {
        acc := acc[k := Tally(0, 0.0, 0.0, 0.0)];
      }
      acc := acc[k := AddRow(acc[k], item)];
      i := i + 1;
    }
    TakeAll(rows);
  }

  /** One step of the `reduce`: the row's slot (a zeroed one when its key is new)
      absorbs it; every other slot stays as it was. */
  lemma TallyStep(acc: map<string, Tally>, rs: seq<Segment>, key: Segment -> string, x: Segment)
    requires forall k :: k in acc <==> k in Keys(rs, key)
    requires forall k :: k in acc ==> acc[k] == TallyOf(Members(rs, key, k))
    ensures AddRow(if key(x) in acc then acc[key(x)] else Tally(0, 0.0, 0.0, 0.0), x) == TallyOf(Members(rs + [x], key, key(x)))
    ensures forall k :: k in acc && k != key(x) ==> acc[k] == TallyOf(Members(rs + [x], key, k))
  {
    var k := key(x);
    MembersSpec(rs, key, k);
    if k !in acc {
      assert Members(rs, key, k) == [];
    }
    MembersAppend(rs, x, key, k);
    TallyOfAppend(Members(rs, key, k), x);
    OtherSlots(acc, rs, key, x);
  }

  lemma OtherSlots(acc: map<string, Tally>, rs: seq<Segment>, key: Segment -> string, x: Segment)
    requires forall k :: k in acc ==> acc[k] == TallyOf(Members(rs, key, k))
    ensures forall k :: k in acc && k != key(x) ==> acc[k] == TallyOf(Members(rs + [x], key, k))
  {
    forall k | k in acc && k != key(x)
      ensures acc[k] == TallyOf(Members(rs + [x], key, k))
    {
      OtherMembers(rs, key, x, k);
    }
  }

  /** A row of another key leaves a key's rows as they were. */
  lemma OtherMembers(rs: seq<Segment>, key: Segment -> string, x: Segment, k: string)
    requires key(x) != k
    ensures Members(rs + [x], key, k) == Members(rs, key, k)
  {
    MembersAppend(rs, x, key, k);
  }

  /** The sum of a slot field over the slots of `ks`. */
  function SlotSum(ks: seq<string>, m: map<string, Tally>, f: Tally -> real): real {
    if ks == [] then 0.0 else (if ks[0] in m then f(m[ks[0]]) else 0.0) + SlotSum(ks[1..], m, f)
  }

  function CountOf(t: Tally): real { t.count as real }
  function GrossLentOf(t: Tally): real { t.grossLent }

  lemma {:induction false} SlotSumOverKeys(ks: seq<string>, rows: seq<Segment>, key: Segment -> string)
    requires forall k :: k in ks ==> k in Keys(rows, key)
    ensures SlotSum(ks, Breakdown(rows, key), CountOf) == SumOverKeys(ks, rows, key, UnitWeight)
    ensures SlotSum(ks, Breakdown(rows, key), GrossLentOf) == SumOverKeys(ks, rows, key, FlowOf(GrossLent))
  {
    if ks != [] {
      SlotSumOverKeys(ks[1..], rows, key);
      SumOfUnit(Members(rows, key, ks[0]), UnitWeight);
    }
  }

  /** The slots partition the rows: their counts add up to the number of rows and
      their gross lent to the rows' total. */
  lemma BreakdownAddsUp(rows: seq<Segment>, key: Segment -> string)
    ensures SlotSum(Keys(rows, key), Breakdown(rows, key), CountOf) == |rows| as real
    ensures SlotSum(Keys(rows, key), Breakdown(rows, key), GrossLentOf) == SumOf(rows, FlowOf(GrossLent))
  {
    SlotSumOverKeys(Keys(rows, key), rows, key);
    PartitionSum(rows, key, UnitWeight);
    PartitionSum(rows, key, FlowOf(GrossLent));
    SumOfUnit(rows, UnitWeight);
  }

  /** Every row lands in the slot of its key, and the slot keys are exactly the
      keys that occur. */
  lemma BreakdownSlots(rows: seq<Segment>, key: Segment -> string)
    ensures forall i :: 0 <= i < |rows| ==> key(rows[i]) in Breakdown(rows, key)
    ensures forall k :: k in Breakdown(rows, key) ==> exists i :: 0 <= i < |rows| && key(rows[i]) == k
  {
    KeysSpec(rows, key);
  }

  // ---------------------------------------------------------------------------
  // aug6RawTotals

  datatype RawTotals = RawTotals(
    grossLent: real, principalRecovered: real, serviceFeeRecovered: real,
    lateFeesRecovered: real, lendingTransactions: real, recoveryTransactions: real)

  /** Each total is the sum of its field over the rows. */
  function RawTotalsOf(rows: seq<Segment>): RawTotals {
    RawTotals(SumOf(rows, FlowOf(GrossLent)), SumOf(rows, FlowOf(PrincipalRecovered)),
              SumOf(rows, FlowOf(ServiceFeeRecovered)), SumOf(rows, FlowOf(LateFeesRecovered)),
              SumOf(rows, FlowOf(LendingTransactions)), SumOf(rows, FlowOf(RecoveryTransactions)))
  }

  function AddRaw(t: RawTotals, r: Segment): RawTotals {
    RawTotals(t.grossLent + r.grossLent, t.principalRecovered + r.principalRecovered,
              t.serviceFeeRecovered + r.serviceFeeRecovered, t.lateFeesRecovered + r.lateFeesRecovered,
              t.lendingTransactions + r.lendingTransactions, t.recoveryTransactions + r.recoveryTransactions)
  }

  lemma RawTotalsAppend(rows: seq<Segment>, x: Segment)
    ensures RawTotalsOf(rows + [x]) == AddRaw(RawTotalsOf(rows), x)
  {
    SumSnoc(rows, x, FlowOf(GrossLent));
    SumSnoc(rows, x, FlowOf(PrincipalRecovered));
    SumSnoc(rows, x, FlowOf(ServiceFeeRecovered));
    SumSnoc(rows, x, FlowOf(LateFeesRecovered));
    SumSnoc(rows, x, FlowOf(LendingTransactions));
    SumSnoc(rows, x, FlowOf(RecoveryTransactions));
  }

  /** The `reduce` that computes `aug6RawTotals`. */
  method SumRawTotals(rows: seq<Segment>) returns (t: RawTotals)
    ensures t == RawTotalsOf(rows)
  {
    t := RawTotals(0.0, 0.0, 0.0, 0.0, 0.0, 0.0);
    var i := 0;
    while i < |rows|
      invariant 0 <= i <= |rows|
      invariant t == RawTotalsOf(rows[..i])
    {
      TakeSnoc(rows, i);
      RawTotalsAppend(rows[..i], rows[i]);
      t := AddRaw(t, rows[i]);
      i := i + 1;
    }
    TakeAll(rows);
  }

  // ---------------------------------------------------------------------------
  // Cross-checking the aggregate

  lemma {:induction false} FilterValidKeepsAllValid(xs: seq<Segment>)
    requires forall i :: 0 <= i < |xs| ==> IsValid(xs[i])
    ensures FilterValid(xs) == xs
  {
    if xs != [] {
      FilterValidKeepsAllValid(xs[1..]);
    }
  }

  /** Filtering and picking one date's rows commute. */
  lemma {:induction false} MembersOfValid(xs: seq<Segment>, d: string)
    ensures Members(FilterValid(xs), DateOf, d) == FilterValid(Members(xs, DateOf, d))
  {
    if xs != [] {
      var ys, x := xs[..|xs| - 1], xs[|xs| - 1];
      assert xs == ys + [x];
      MembersOfValid(ys, d);
      FilterAppend(ys, [x]);
      FilterSingle(x);
      MembersAppend(ys, x, DateOf, d);
      if IsValid(x) {
        MembersAppend(FilterValid(ys), x, DateOf, d);
      } else {
        assert FilterValid(ys) + [] == FilterValid(ys);
      }
      FilterAppend(Members(ys, DateOf, d), if x.date == d then [x] else []);
      if x.date != d {
        assert Members(ys, DateOf, d) + [] == Members(ys, DateOf, d);
        assert FilterValid(Members(ys, DateOf, d)) + [] == FilterValid(Members(ys, DateOf, d));
      }
    }
  }

  /** `aug6Data` is found exactly when some valid row has date 2025-08-06. */
  lemma Aug6Found(data: seq<Segment>, dateKey: string -> int)
    ensures Find(Aggregated(data, dateKey), IsAug6Day).Some? <==> exists r :: r in FilterValid(data) && r.date == Aug6
  {
    var agg := Aggregated(data, dateKey);
    AggregatedCovers(data, dateKey);
    if FindIndex(agg, IsAug6Day).None? {
      forall r | r in FilterValid(data) && r.date == Aug6 ensures false {
      }
    }
  }

  /** The flows of `aug6Data` are the sums over the valid rows of 2025-08-06. */
  lemma Aug6Flows(data: seq<Segment>, dateKey: string -> int)
    ensures var found := Find(Aggregated(data, dateKey), IsAug6Day);
            found.Some? ==> found.value.date == Aug6
                            && forall fl :: DayFlow(found.value, fl) == SumOf(Members(FilterValid(data), DateOf, Aug6), FlowOf(fl))
  {
    var agg := Aggregated(data, dateKey);
    var idx := FindIndex(agg, IsAug6Day);
    if idx.Some? {
      AggregatedDay(data, dateKey, agg[idx.value]);
    }
  }

  /** When every raw row of 2025-08-06 passes the filter, the aggregate's record
      of that day agrees with the panel's raw totals. */
  lemma Aug6MatchesRawTotals(data: seq<Segment>, dateKey: string -> int)
    requires forall r :: r in data && r.date == Aug6 ==> IsValid(r)
    ensures var found := Find(Aggregated(data, dateKey), IsAug6Day);
            var raw := RawTotalsOf(Members(data, DateOf, Aug6));
            found.Some? ==> && DayFlow(found.value, GrossLent) == raw.grossLent
                            && DayFlow(found.value, PrincipalRecovered) == raw.principalRecovered
                            && DayFlow(found.value, ServiceFeeRecovered) == raw.serviceFeeRecovered
                            && DayFlow(found.value, LateFeesRecovered) == raw.lateFeesRecovered
  {
    Aug6Flows(data, dateKey);
    ValidAug6Rows(data);
  }

  lemma ValidAug6Rows(data: seq<Segment>)
    requires forall r :: r in data && r.date == Aug6 ==> IsValid(r)
    ensures Members(FilterValid(data), DateOf, Aug6) == Members(data, DateOf, Aug6)
  {
    var ms := Members(data, DateOf, Aug6);
    MembersSpec(data, DateOf, Aug6);
    FilterValidKeepsAllValid(ms);
    MembersOfValid(data, Aug6);
  }

  // ---------------------------------------------------------------------------
  // The panel

  datatype DebugView = DebugView(
    sampleRawData: seq<Segment>,
    sampleAggregated: seq<DayTotals>,
    aug6Data: Option<DayTotals>,
    aug6RawData: seq<Segment>,
    aug6DetailedBreakdown: map<string, Tally>,
    aug6RawTotals: RawTotals,
    telcoBreakdown: map<string, Tally>,
    loanTypeBreakdown: map<string, Tally>)

  /** What the panel computes: nothing outside development; otherwise the
      samples (the first 5 raw and first 3 aggregated rows), the rows of
      2025-08-06 in order, the aggregate's first record of that day, and the
      breakdowns and totals of those rows and of all rows. */
  method Render(nodeEnv: string, data: seq<Segment>, aggregatedData: seq<DayTotals>) returns (view: Option<DebugView>)
    ensures view.None? <==> nodeEnv != "development"
    ensures view.Some? ==> var v := view.value;
      && v.sampleRawData == Take(data, 5)
      && v.sampleAggregated == Take(aggregatedData, 3)
      && v.aug6Data == Find(aggregatedData, IsAug6Day)
      && v.aug6RawData == Members(data, DateOf, Aug6)
      && v.aug6DetailedBreakdown == Breakdown(Members(data, DateOf, Aug6), BreakdownKey)
      && v.aug6RawTotals == RawTotalsOf(Members(data, DateOf, Aug6))
      && v.telcoBreakdown == Breakdown(data, TelcoKey)
      && v.loanTypeBreakdown == Breakdown(data, LoanTypeKey)
  {
    if nodeEnv != "development" {
      return None;
    }
    var aug6Raw := Members(data, DateOf, Aug6);
    var detailed := Tallies(aug6Raw, BreakdownKey);
    var totals := SumRawTotals(aug6Raw);
    var byTelco := Tallies(data, TelcoKey);
    var byLoanType := Tallies(data, LoanTypeKey);
    view := Some(DebugView(Take(data, 5), Take(aggregatedData, 3), Find(aggregatedData, IsAug6Day),
                           aug6Raw, detailed, totals, byTelco, byLoanType));
  }

  /** The rows of 2025-08-06 are exactly the raw rows of that date. */
  lemma Aug6RowsSpec(data: seq<Segment>)
    ensures forall r :: r in Members(data, DateOf, Aug6) ==> r in data && r.date == Aug6
    ensures forall r :: r in data && r.date == Aug6 ==> r in Members(data, DateOf, Aug6)
  {
    MembersSpec(data, DateOf, Aug6);
    forall r | r in data && r.date == Aug6 ensures r in Members(data, DateOf, Aug6) {
      MemberIncluded(data, Aug6, r);
    }
  }

  lemma {:induction false} MemberIncluded(xs: seq<Segment>, d: string, r: Segment)
    requires r in xs && r.date == d
    ensures r in Members(xs, DateOf, d)
  {
    var ys, x := xs[..|xs| - 1], xs[|xs| - 1];
    assert xs == ys + [x];
    if r != x {
      MemberIncluded(ys, d, r);
    }
  }
}

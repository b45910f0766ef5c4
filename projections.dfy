/** The three projections of src/utils/dataAggregation.tsx over the per-date totals:
    `calculateRevenueData`, `calculateNPLData` and `formatChartData`. Each maps the
    days one to one, keeping their order and their date. */
module Projections {
  import opened Grouping
  import opened Records
  import opened Aggregation

  datatype RevenuePoint = RevenuePoint(date: string, revenue: real)

  datatype NplPoint = NplPoint(date: string, npl: real)

  /** A day as the charts read it, under the display names "Gross Lent",
      "Principal Lent", ... "Qualified_Base". */
  datatype ChartRow = ChartRow(
    date: string,
    grossLent: real,
    principalLent: real,
    serviceFeeLent: real,
    lendingTransactions: real,
    grossRecovered: real,
    principalRecovered: real,
    serviceFeeRecovered: real,
    lateFeesRecovered: real,
    setupFeesRecovered: real,
    interestFeesRecovered: real,
    recoveryTransactions: real,
    uniqueUsers: real,
    overallUniqueUsers: real,
    qualifiedBase: real)

  /** The revenue of one record: the sum of its revenue flows. */
  function SegmentRevenue(r: Segment): real {
    SegmentFlow(r, ServiceFeeRecovered) + SegmentFlow(r, LateFeesRecovered)
    + SegmentFlow(r, SetupFeesRecovered) + SegmentFlow(r, InterestFeesRecovered)
  }

  /** What is still out on one record: lent minus recovered. */
  function SegmentNpl(r: Segment): real {
    SegmentFlow(r, GrossLent) - SegmentFlow(r, GrossRecovered)
  }

  /** `calculateRevenueData` */
  function RevenueData(ts: seq<DayTotals>): (r: seq<RevenuePoint>)
    ensures |r| == |ts|
    ensures forall i :: 0 <= i < |ts| ==> r[i].date == ts[i].date && r[i].revenue == DayRevenue(ts[i])
  {
    if ts == [] then []
    else
      var t := ts[0];
      [RevenuePoint(t.date, t.serviceFeeRecovered + t.lateFeesRecovered + t.setupFeesRecovered + t.interestFeesRecovered)]
      + RevenueData(ts[1..])
  }

  /** `calculateNPLData` */
  function NplData(ts: seq<DayTotals>): (r: seq<NplPoint>)
    ensures |r| == |ts|
    ensures forall i :: 0 <= i < |ts| ==> r[i].date == ts[i].date && r[i].npl == DayNpl(ts[i])
  {
    if ts == [] then []
    else [NplPoint(ts[0].date, ts[0].grossLent - ts[0].grossRecovered)] + NplData(ts[1..])
  }

  /** A day under the chart's field names: the fees charged and the count are
      dropped, every other value is kept. */
  function ChartRowOf(t: DayTotals): ChartRow {
    ChartRow(t.date, t.grossLent, t.principalLent, t.serviceFeeLent, t.lendingTransactions,
             t.grossRecovered, t.principalRecovered, t.serviceFeeRecovered, t.lateFeesRecovered,
             t.setupFeesRecovered, t.interestFeesRecovered, t.recoveryTransactions,
             t.uniqueUsers, t.overallUniqueUsers, t.qualifiedBase)
  }

  /** `formatChartData` */
  function ChartData(ts: seq<DayTotals>): (r: seq<ChartRow>)
    ensures |r| == |ts|
    ensures forall i :: 0 <= i < |ts| ==> r[i].date == ts[i].date && r[i] == ChartRowOf(ts[i])
  {
    if ts == [] then [] else [ChartRowOf(ts[0])] + ChartData(ts[1..])
  }

  function PointRevenue(p: RevenuePoint): real {
    p.revenue
  }

  function PointNpl(p: NplPoint): real {
    p.npl
  }

  lemma {:induction false} SumAdd<T>(xs: seq<T>, f: T -> real, g: T -> real, h: T -> real)
    requires forall x :: h(x) == f(x) + g(x)
    ensures SumOf(xs, h) == SumOf(xs, f) + SumOf(xs, g)
  {
    if xs != [] {
      SumAdd(xs[1..], f, g, h);
    }
  }

  lemma {:induction false} SumSub<T>(xs: seq<T>, f: T -> real, g: T -> real, h: T -> real)
    requires forall x :: h(x) == f(x) - g(x)
    ensures SumOf(xs, h) == SumOf(xs, f) - SumOf(xs, g)
  {
    if xs != [] {
      SumSub(xs[1..], f, g, h);
    }
  }

  /** The revenue of one day: the four recovered fees. */
  function DayRevenue(t: DayTotals): real {
    DayFlow(t, ServiceFeeRecovered) + DayFlow(t, LateFeesRecovered)
    + DayFlow(t, SetupFeesRecovered) + DayFlow(t, InterestFeesRecovered)
  }

  /** What is still out on one day: gross lent minus gross recovered. */
  function DayNpl(t: DayTotals): real {
    DayFlow(t, GrossLent) - DayFlow(t, GrossRecovered)
  }

  lemma {:induction false} RevenueDataSum(ts: seq<DayTotals>)
    ensures SumOf(RevenueData(ts), PointRevenue) == SumOf(ts, DayRevenue)
  {
    if ts != [] {
      RevenueDataSum(ts[1..]);
    }
  }

  lemma {:induction false} NplDataSum(ts: seq<DayTotals>)
    ensures SumOf(NplData(ts), PointNpl) == SumOf(ts, DayNpl)
  {
    if ts != [] {
      NplDataSum(ts[1..]);
    }
  }

  /** The revenue series adds up to the revenue of all valid records: the
      aggregation neither loses nor duplicates a fee. */
  lemma RevenueConserved(data: seq<Segment>, dateKey: string -> int)
    ensures SumOf(RevenueData(Aggregated(data, dateKey)), PointRevenue) == SumOf(FilterValid(data), SegmentRevenue)
  {
    var out, rs := Aggregated(data, dateKey), FilterValid(data);
    RevenueDataSum(out);
    AggregatedConserves(data, dateKey);
    var s, l := DayFlowOf(ServiceFeeRecovered), DayFlowOf(LateFeesRecovered);
    var u, n := DayFlowOf(SetupFeesRecovered), DayFlowOf(InterestFeesRecovered);
    var sl: DayTotals -> real := t => s(t) + l(t);
    var slu: DayTotals -> real := t => sl(t) + u(t);
    SumAdd(out, s, l, sl);
    SumAdd(out, sl, u, slu);
    SumAdd(out, slu, n, DayRevenue);
    var S, L := FlowOf(ServiceFeeRecovered), FlowOf(LateFeesRecovered);
    var U, N := FlowOf(SetupFeesRecovered), FlowOf(InterestFeesRecovered);
    var SL: Segment -> real := r => S(r) + L(r);
    var SLU: Segment -> real := r => SL(r) + U(r);
    SumAdd(rs, S, L, SL);
    SumAdd(rs, SL, U, SLU);
    SumAdd(rs, SLU, N, SegmentRevenue);
  }

  /** The NPL series adds up to everything lent minus everything recovered over the
      valid records. */
  lemma NplConserved(data: seq<Segment>, dateKey: string -> int)
    ensures SumOf(NplData(Aggregated(data, dateKey)), PointNpl) == SumOf(FilterValid(data), SegmentNpl)
  {
    var out, rs := Aggregated(data, dateKey), FilterValid(data);
    NplDataSum(out);
    AggregatedConserves(data, dateKey);
    SumSub(out, DayFlowOf(GrossLent), DayFlowOf(GrossRecovered), DayNpl);
    SumSub(rs, FlowOf(GrossLent), FlowOf(GrossRecovered), SegmentNpl);
  }
}

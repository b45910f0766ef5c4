/** The two summaries `useFetchNPLData` (src/hooks/useFetchFromAPI.tsx) derives
    from the rows of the `npl-data` endpoint: one line per loan product, and the
    arrears profile in eight age buckets. Amounts are read with `x || 0`. */
module ApiNplViews {
  import opened Wrappers
  import opened JsText
  import opened JsValues
  import opened Grouping

  // ---------------------------------------------------------------------------
  // Loan-type table

  datatype LoanTypeSummary = LoanTypeSummary(
    name: string,
    outstandingBalance: real,
    totalRecovered: real,
    unrecoveredPercentage: real)

  /** The loan products, in display order. */
  const LoanTypes: seq<string> := ["7", "14", "21", "30"]

  function LoanName(t: string): string {
    t + " Days Loan"
  }

  /** A row for product `t` carries `loan_type` "t" or "t Days Loan". */
  function IsLoanTypeRow(t: string): Row -> bool {
    item => Get(item, "loan_type") == Text(t) || Get(item, "loan_type") == Text(LoanName(t))
  }

  function ZeroSummary(t: string): LoanTypeSummary {
    LoanTypeSummary(LoanName(t), 0.0, 0.0, 0.0)
  }

  /** The line for product `t`, from the row found for it if there is one. */
  function SummaryOf(t: string, found: Option<Row>): LoanTypeSummary {
    match found
    case None => ZeroSummary(t)
    case Some(r) =>
      LoanTypeSummary(LoanName(t), NumOrZero(Get(r, "total_balance")), NumOrZero(Get(r, "net_recovered_value")),
                      NumOrZero(Get(r, "unrecovered_percentage_net")))
  }

  /** `loanTypeData` */
  function LoanTypeData(data: seq<Row>): seq<LoanTypeSummary> {
    if |data| > 0 then
      seq(4, i requires 0 <= i < 4 => SummaryOf(LoanTypes[i], Find(data, IsLoanTypeRow(LoanTypes[i]))))
    else
      [ZeroSummary("7"), ZeroSummary("14"), ZeroSummary("21"), ZeroSummary("30")]
  }

  /** Always the four products in order; each line reads the first row for its
      product, or is all zero when there is none (in particular when there are no
      rows at all). */
  lemma LoanTypeDataSpec(data: seq<Row>)
    ensures |LoanTypeData(data)| == 4
    ensures forall i :: 0 <= i < 4 ==> LoanTypeData(data)[i].name == LoanTypes[i] + " Days Loan"
    ensures forall i :: 0 <= i < 4 ==>
      match FindIndex(data, IsLoanTypeRow(LoanTypes[i]))
      case None =>
        LoanTypeData(data)[i] == ZeroSummary(LoanTypes[i])
      case Some(k) =>
        && LoanTypeData(data)[i].outstandingBalance == NumOrZero(Get(data[k], "total_balance"))
        && LoanTypeData(data)[i].totalRecovered == NumOrZero(Get(data[k], "net_recovered_value"))
        && LoanTypeData(data)[i].unrecoveredPercentage == NumOrZero(Get(data[k], "unrecovered_percentage_net"))
  {
  }

  // ---------------------------------------------------------------------------
  // Arrears profile

  /** The row keys of the eight buckets and their display names, youngest first. */
  const ArrearsKeys: seq<string> := [
    "within_tenure", "arrears_30_days", "arrears_31_60_days", "arrears_61_90_days",
    "arrears_91_120_days", "arrears_121_150_days", "arrears_151_180_days", "arrears_181_plus_days"]

  const ArrearsNames: seq<string> := [
    "Within Tenure", "30 days in arrears", "31-60 days in arrears", "61-90 days in arrears",
    "91-120 days in arrears", "121-150 days in arrears", "151-180 days in arrears", "181+ days in arrears"]

  datatype ArrearsBucket = ArrearsBucket(name: string, amount: real)

  function Buckets(amounts: seq<real>): (bs: seq<ArrearsBucket>)
    requires |amounts| == 8
    ensures |bs| == 8
    ensures forall i :: 0 <= i < 8 ==> bs[i] == ArrearsBucket(ArrearsNames[i], amounts[i])
  {
    seq(8, i requires 0 <= i < 8 => ArrearsBucket(ArrearsNames[i], amounts[i]))
  }

  /** The "Grand Total" test on one `loan_type`. `toLowerCase` is called through
      `?.`, so it is skipped for `undefined` and `null` but throws on a boolean or
      a number. */
  function GrandTotalTest(c: Cell): Result<bool> {
    match c
    case Text(s) => Ok(s == "Grand Total" || Contains(Lower(s), "grand") || Contains(Lower(s), "total"))
    case Undefined => Ok(false)
    case Null => Ok(false)
    case Bool(_) => TypeError
    case Number(_, _) => TypeError
  }

  /** `data.find(...)` with that test: the first row that passes, unless a row
      before it makes the test throw. */
  function FindGrandTotal(data: seq<Row>): (r: Result<Option<Row>>)
    ensures r.Ok? && r.value.Some? ==>
      exists i :: 0 <= i < |data| && data[i] == r.value.value && GrandTotalTest(Get(data[i], "loan_type")) == Ok(true)
        && forall j :: 0 <= j < i ==> GrandTotalTest(Get(data[j], "loan_type")) == Ok(false)
    ensures r == Ok(None) <==> forall j :: 0 <= j < |data| ==> GrandTotalTest(Get(data[j], "loan_type")) == Ok(false)
    ensures r.TypeError? <==>
      exists i :: 0 <= i < |data| && GrandTotalTest(Get(data[i], "loan_type")) == TypeError
        && forall j :: 0 <= j < i ==> GrandTotalTest(Get(data[j], "loan_type")) == Ok(false)
  {
    if data == [] then Ok(None)
    else
      match GrandTotalTest(Get(data[0], "loan_type"))
      case TypeError => TypeError
      case Ok(found) =>
        if found then Ok(Some(data[0]))
        else
          var rest := FindGrandTotal(data[1..]);
          assert forall j :: 1 <= j < |data| ==> data[j] == data[1..][j - 1];
          rest
  }

  /** The guard of the fallback `forEach`, for a `loan_type` that the search
      above has already read without throwing. */
  predicate Counted(item: Row) {
    var lt := Get(item, "loan_type");
    lt.Text? && lt.s != "" && !Contains(Lower(lt.s), "total")
  }

  /** What one row adds to the bucket under `key`. */
  function BucketShare(key: string): Row -> real {
    item => if Counted(item) then NumOrZero(Get(item, key)) else 0.0
  }

  /** The eight fallback sums. */
  function FallbackSums(data: seq<Row>): (sums: seq<real>)
    ensures |sums| == 8
  {
    seq(8, j requires 0 <= j < 8 => SumOf(data, BucketShare(ArrearsKeys[j])))
  }

  lemma FallbackSumsSnoc(data: seq<Row>, i: nat)
    requires i < |data|
    ensures FallbackSums(data[..i + 1])
            == seq(8, j requires 0 <= j < 8 => FallbackSums(data[..i])[j] + BucketShare(ArrearsKeys[j])(data[i]))
  {
    assert data[..i + 1] == data[..i] + [data[i]];
    forall j | 0 <= j < 8 {
      SumSnoc(data[..i], data[i], BucketShare(ArrearsKeys[j]));
    }
  }

  /** The fallback `forEach`: eight running sums over the counted rows. */
  method SumArrears(data: seq<Row>) returns (sums: seq<real>)
    ensures sums == FallbackSums(data)
  {
    sums := [0.0, 0.0, 0.0, 0.0, 0.0, 0.0, 0.0, 0.0];
    var i := 0;
    while i < |data|
      invariant 0 <= i <= |data|
      invariant sums == FallbackSums(data[..i])
    {
      var item := data[i];
      FallbackSumsSnoc(data, i);
      if Counted(item) {
        sums := seq(8, j requires 0 <= j < 8 => sums[j] + NumOrZero(Get(item, ArrearsKeys[j])));
      } else {
        assert sums == seq(8, j requires 0 <= j < 8 => sums[j] + BucketShare(ArrearsKeys[j])(item));
      }
      i := i + 1;
    }
    TakeAll(data);
  }

  /** The amounts read from the "Grand Total" row. */
  function GrandTotalAmounts(g: Row): (amounts: seq<real>)
    ensures |amounts| == 8
  {
    seq(8, j requires 0 <= j < 8 => NumOrZero(Get(g, ArrearsKeys[j])))
  }

  /** `arrearsOverTimeData`; a thrown `TypeError` is `TypeError`. */
  function ArrearsOverTime(data: seq<Row>): Result<seq<ArrearsBucket>> {
    if |data| > 0 then
      match FindGrandTotal(data)
      case TypeError => TypeError
      case Ok(Some(g)) => Ok(Buckets(GrandTotalAmounts(g)))
      case Ok(None) => Ok(Buckets(FallbackSums(data)))
    else
      Ok(Buckets([0.0, 0.0, 0.0, 0.0, 0.0, 0.0, 0.0, 0.0]))
  }

  /** `arrearsOverTimeData`, running the fallback loop when no row is a total. */
  method ArrearsOverTimeData(data: seq<Row>) returns (r: Result<seq<ArrearsBucket>>)
    ensures r == ArrearsOverTime(data)
  {
    if |data| > 0 {
      var found := FindGrandTotal(data);
      if found.TypeError? {
        r := TypeError;
      } else if found.value.Some? {
        r := Ok(Buckets(GrandTotalAmounts(found.value.value)));
      } else {
        var sums := SumArrears(data);
        r := Ok(Buckets(sums));
      }
    } else {
      r := Ok(Buckets([0.0, 0.0, 0.0, 0.0, 0.0, 0.0, 0.0, 0.0]));
    }
  }

  /** Whenever the view exists it is the eight buckets, named in order. */
  lemma ArrearsShape(data: seq<Row>)
    ensures ArrearsOverTime(data).Ok? ==>
      |ArrearsOverTime(data).value| == 8
      && forall i :: 0 <= i < 8 ==> ArrearsOverTime(data).value[i].name == ArrearsNames[i]
  {
  }

  /** With a "Grand Total" row, every bucket is that row's figure. */
  lemma ArrearsFromGrandTotal(data: seq<Row>, g: Row)
    requires FindGrandTotal(data) == Ok(Some(g))
    ensures ArrearsOverTime(data).Ok?
    ensures forall i :: 0 <= i < 8 ==> ArrearsOverTime(data).value[i].amount == NumOrZero(Get(g, ArrearsKeys[i]))
  {
  }

  /** The view throws exactly when the search meets a boolean or numeric
      `loan_type` before any total row. */
  lemma ArrearsThrows(data: seq<Row>)
    ensures ArrearsOverTime(data) == TypeError <==> FindGrandTotal(data) == TypeError
  {
  }

  /** The fallback never meets a row the search would have taken: every
      `loan_type` there is text, `undefined` or `null`, none contains "total",
      and a row counts exactly when its `loan_type` is non-empty text. */
  lemma FallbackTotalTestIsDead(data: seq<Row>)
    requires FindGrandTotal(data) == Ok(None)
    ensures forall i :: 0 <= i < |data| ==>
      var lt := Get(data[i], "loan_type");
      && (lt.Text? || lt.Undefined? || lt.Null?)
      && (lt.Text? ==> !Contains(Lower(lt.s), "total"))
      && (Counted(data[i]) <==> lt.Text? && lt.s != "")
  {
    forall i | 0 <= i < |data|
      ensures var lt := Get(data[i], "loan_type");
        && (lt.Text? || lt.Undefined? || lt.Null?)
        && (lt.Text? ==> !Contains(Lower(lt.s), "total"))
        && (Counted(data[i]) <==> lt.Text? && lt.s != "")
    {
      PassedTotalTest(Get(data[i], "loan_type"));
    }
  }

  /** A `loan_type` the search read without throwing or stopping. */
  lemma PassedTotalTest(lt: Cell)
    requires GrandTotalTest(lt) == Ok(false)
    ensures lt.Text? || lt.Undefined? || lt.Null?
    ensures lt.Text? ==> !Contains(Lower(lt.s), "total")
  {
  }

  /** Without a total row, each bucket sums its figure over the rows with a
      non-empty text `loan_type`; with no rows at all every bucket is 0, which is
      also what that sum gives. */
  lemma ArrearsFallback(data: seq<Row>)
    requires FindGrandTotal(data) == Ok(None)
    ensures ArrearsOverTime(data).Ok?
    ensures forall i :: 0 <= i < 8 ==>
      ArrearsOverTime(data).value[i].amount == SumOf(data, BucketShare(ArrearsKeys[i]))
  {
  }
}

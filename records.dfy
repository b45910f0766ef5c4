/** The canonical per-segment loan record and the per-date totals the dashboard
    derives from it (`TelcoData` in src/hooks/useFetch.tsx and
    src/hooks/useFetchFromAPI.tsx, `AggregatedData` in src/utils/dataAggregation.tsx). */
module Records {
  import opened Wrappers
  import opened JsValues

  /** One date x telco x loan-type x denomination slice. Numeric fields that a
      record lacks are 0: every reader of these fields writes `field || 0`.
      `activeBase` exists only in rows read from the legacy CSV layout;
      `loanType` and `denom` exist only in rows that come from the API. */
  datatype Segment = Segment(
    date: string,
    telco: Option<string>,
    country: Option<string>,
    loanType: Option<string>,
    denom: Cell,
    qualifiedBase: real,
    activeBase: Option<real>,
    uniqueUsers: real,
    overallUniqueUsers: real,
    lendingTransactions: real,
    grossLent: real,
    principalLent: real,
    serviceFeeLent: real,
    lateFeesCharged: real,
    setupFeesCharged: real,
    interestFeesCharged: real,
    recoveryTransactions: real,
    grossRecovered: real,
    principalRecovered: real,
    serviceFeeRecovered: real,
    lateFeesRecovered: real,
    setupFeesRecovered: real,
    interestFeesRecovered: real,
    fxRate: real)

  /** The flow fields: per-segment amounts that add up across segments. */
  datatype Flow =
    | GrossLent | PrincipalLent | ServiceFeeLent | LendingTransactions
    | GrossRecovered | PrincipalRecovered | ServiceFeeRecovered | LateFeesRecovered
    | SetupFeesRecovered | InterestFeesRecovered | RecoveryTransactions
    | LateFeesCharged | SetupFeesCharged | InterestFeesCharged

  /** The population fields: user counts that overlap across segments. */
  datatype Population = UniqueUsers | OverallUniqueUsers | QualifiedBase

  function SegmentFlow(r: Segment, fl: Flow): real {
    match fl
    case GrossLent => r.grossLent
    case PrincipalLent => r.principalLent
    case ServiceFeeLent => r.serviceFeeLent
    case LendingTransactions => r.lendingTransactions
    case GrossRecovered => r.grossRecovered
    case PrincipalRecovered => r.principalRecovered
    case ServiceFeeRecovered => r.serviceFeeRecovered
    case LateFeesRecovered => r.lateFeesRecovered
    case SetupFeesRecovered => r.setupFeesRecovered
    case InterestFeesRecovered => r.interestFeesRecovered
    case RecoveryTransactions => r.recoveryTransactions
    case LateFeesCharged => r.lateFeesCharged
    case SetupFeesCharged => r.setupFeesCharged
    case InterestFeesCharged => r.interestFeesCharged
  }

  function SegmentPopulation(r: Segment, p: Population): real {
    match p
    case UniqueUsers => r.uniqueUsers
    case OverallUniqueUsers => r.overallUniqueUsers
    case QualifiedBase => r.qualifiedBase
  }

  /** A flow field as a measure on segments. */
  function FlowOf(fl: Flow): Segment -> real {
    r => SegmentFlow(r, fl)
  }

  function PopulationOf(p: Population): Segment -> real {
    r => SegmentPopulation(r, p)
  }

  /** Every segment weighs 1, for counting. */
  function UnitWeight(r: Segment): real {
    1.0
  }

  function DateOf(r: Segment): string {
    r.date
  }

  /** One date's totals: flows summed, populations maximised, segments counted. */
  datatype DayTotals = DayTotals(
    date: string,
    grossLent: real,
    principalLent: real,
    serviceFeeLent: real,
    lendingTransactions: real,
    grossRecovered: real,
    principalRecovered: real,
    serviceFeeRecovered: real,
    lateFeesRecovered: real,
    setupFeesRecovered: real,
    interestFeesRecovered: real,
    recoveryTransactions: real,
    uniqueUsers: real,
    overallUniqueUsers: real,
    qualifiedBase: real,
    lateFeesCharged: real,
    setupFeesCharged: real,
    interestFeesCharged: real,
    count: nat)

  function DayFlow(t: DayTotals, fl: Flow): real {
    match fl
    case GrossLent => t.grossLent
    case PrincipalLent => t.principalLent
    case ServiceFeeLent => t.serviceFeeLent
    case LendingTransactions => t.lendingTransactions
    case GrossRecovered => t.grossRecovered
    case PrincipalRecovered => t.principalRecovered
    case ServiceFeeRecovered => t.serviceFeeRecovered
    case LateFeesRecovered => t.lateFeesRecovered
    case SetupFeesRecovered => t.setupFeesRecovered
    case InterestFeesRecovered => t.interestFeesRecovered
    case RecoveryTransactions => t.recoveryTransactions
    case LateFeesCharged => t.lateFeesCharged
    case SetupFeesCharged => t.setupFeesCharged
    case InterestFeesCharged => t.interestFeesCharged
  }

  function DayPopulation(t: DayTotals, p: Population): real {
    match p
    case UniqueUsers => t.uniqueUsers
    case OverallUniqueUsers => t.overallUniqueUsers
    case QualifiedBase => t.qualifiedBase
  }

  function DayFlowOf(fl: Flow): DayTotals -> real {
    t => DayFlow(t, fl)
  }

  function DayCount(t: DayTotals): real {
    t.count as real
  }
}

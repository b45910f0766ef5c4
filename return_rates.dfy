/** The return-rate series and the inline revenue and NPL series of src/App.tsx:
    `calculateReturnRates` groups the rows by calendar month and by week of the
    month, adds up principal recovered and gross lent per group, and turns each
    group into `{ period, returnRate }`. Amounts follow JavaScript's `+=` on
    numbers, and an operand that is not a number, such as a missing
    (`undefined`) amount, is read as `NaN`, which keeps the running total `NaN`
    for good. The coercions JavaScript applies to `null`, booleans and strings
    are not modelled. */
module ReturnRates {
  import opened Wrappers
  import opened JsText
  import opened Grouping
  import opened Records

  // ---------------------------------------------------------------------------
  // Amounts and entries

  /** A JavaScript number as `+=` leaves it: `None` is `NaN` (what adding
      `undefined` or a non-number yields). */
  type Amount = Option<real>

  /** `a + b` on numbers: `NaN` absorbs everything. */
  function AddAmount(a: Amount, b: Amount): Amount {
    if a.Some? && b.Some? then Some(a.value + b.value) else None
  }

  /** `a - b` on numbers. */
  function SubAmount(a: Amount, b: Amount): Amount {
    if a.Some? && b.Some? then Some(a.value - b.value) else None
  }

  /** The fields of one row that App reads: the date text and five amounts.
      `date` is `None` when the row has no such property. */
  datatype Entry = Entry(
    date: Option<string>,
    principalRecovered: Amount,
    grossLent: Amount,
    serviceFeeRecovered: Amount,
    lateFeesRecovered: Amount,
    grossRecovered: Amount)

  function PrincipalOf(e: Entry): Amount { e.principalRecovered }
  function GrossLentOf(e: Entry): Amount { e.grossLent }

  // ---------------------------------------------------------------------------
  // Dates and period keys

  type MonthNumber = m: int | 1 <= m <= 12 witness 1
  type DayOfMonth = d: int | 1 <= d <= 31 witness 1

  /** A valid `Date` as its local calendar fields: `getFullYear()`,
      `getMonth() + 1` and `getDate()`. */
  datatype CivilDate = CivilDate(year: int, month: MonthNumber, day: DayOfMonth)

  /** `new Date(entry.Date)`: no date property, or a text the date parser rejects,
      gives an Invalid Date (`None`). The parser itself is a parameter. */
  function CivilOf(parse: string -> Option<CivilDate>, e: Entry): Option<CivilDate> {
    if e.date.None? then None else parse(e.date.value)
  }

  /** `Math.ceil(day / 7)` */
  function WeekOfMonth(day: DayOfMonth): int {
    (day + 6) / 7
  }

  /** The week index is the ceiling of day / 7, so it runs from 1 to 5 and
      week w holds days 7(w-1)+1 through 7w. */
  lemma WeekOfMonthSpec(day: DayOfMonth)
    ensures 1 <= WeekOfMonth(day) <= 5
    ensures 7 * (WeekOfMonth(day) - 1) < day <= 7 * WeekOfMonth(day)
  {
  }

  /** `${getFullYear()}-${getMonth() + 1}`; an Invalid Date yields `NaN` twice. */
  function MonthKey(d: Option<CivilDate>): string {
    match d
    case None => "NaN-NaN"
    case Some(c) => IntToString(c.year) + "-" + IntToString(c.month)
  }

  /** `${getFullYear()}-W${Math.ceil(getDate() / 7)}` */
  function WeekKey(d: Option<CivilDate>): string {
    match d
    case None => "NaN-WNaN"
    case Some(c) => IntToString(c.year) + "-W" + IntToString(WeekOfMonth(c.day))
  }

  /** The week key carries no month: the first days of every month of a year
      share one week group. */
  lemma WeekKeyIgnoresMonth(a: CivilDate, b: CivilDate)
    requires a.year == b.year && WeekOfMonth(a.day) == WeekOfMonth(b.day)
    ensures WeekKey(Some(a)) == WeekKey(Some(b))
  {
  }

  function MonthKeyOf(parse: string -> Option<CivilDate>): Entry -> string {
    e => MonthKey(CivilOf(parse, e))
  }

  function WeekKeyOf(parse: string -> Option<CivilDate>): Entry -> string {
    e => WeekKey(CivilOf(parse, e))
  }

  // ---------------------------------------------------------------------------
  // Group totals

  /** A group's running totals: `{ month | week, principalRecovered, grossLent }`. */
  datatype Group = Group(period: string, principalRecovered: Amount, grossLent: Amount)

  /** The running total of `f` over `ms` as `+=` from 0 computes it. */
  function Total<T>(ms: seq<T>, f: T -> Amount): Amount {
    if ms == [] then Some(0.0) else AddAmount(Total(ms[..|ms| - 1], f), f(ms[|ms| - 1]))
  }

  /** `f` where it is a number, 0 where it is not. */
  function Known<T>(f: T -> Amount): T -> real {
    x => if f(x).Some? then f(x).value else 0.0
  }

  /** A total is `NaN` exactly when some member's amount is, and otherwise it is
      the sum of the amounts. */
  lemma {:induction false} TotalSpec<T>(ms: seq<T>, f: T -> Amount)
    ensures Total(ms, f).None? <==> exists i :: 0 <= i < |ms| && f(ms[i]).None?
    ensures Total(ms, f).Some? ==> Total(ms, f).value == SumOf(ms, Known(f))
  {
    if ms != [] {
      var ys, x := ms[..|ms| - 1], ms[|ms| - 1];
      assert ms == ys + [x];
      TotalSpec(ys, f);
      SumSnoc(ys, x, Known(f));
      if Total(ys, f).None? {
        var i :| 0 <= i < |ys| && f(ys[i]).None?;
        assert ms[i] == ys[i];
      }
      if f(x).None? {
        assert ms[|ms| - 1] == x;
      }
      if Total(ms, f).None? && Total(ys, f).Some? {
        assert f(ms[|ms| - 1]).None?;
      }
      if Total(ms, f).Some? {
        forall i | 0 <= i < |ms| ensures f(ms[i]).Some? {
          if i < |ys| {
            assert ms[i] == ys[i];
          }
        }
      }
    }
  }

  /** The totals of the group `k` over its members `ms`. */
  function GroupOf(k: string, ms: seq<Entry>): (g: Group)
    ensures g.period == k
  {
    Group(k, Total(ms, PrincipalOf), Total(ms, GrossLentOf))
  }

  /** What the loop body does with one more entry of the group. */
  function Absorb(g: Group, e: Entry): Group {
    g.(principalRecovered := AddAmount(g.principalRecovered, e.principalRecovered),
       grossLent := AddAmount(g.grossLent, e.grossLent))
  }

  lemma GroupOfAppend(k: string, ms: seq<Entry>, x: Entry)
    ensures GroupOf(k, ms + [x]) == Absorb(GroupOf(k, ms), x)
  {
    assert (ms + [x])[..|ms|] == ms;
  }

  // ---------------------------------------------------------------------------
  // Rates

  /** `{ period, returnRate }` */
  datatype Rate = Rate(period: string, returnRate: Amount)

  /** `grossLent ? (principalRecovered / grossLent) * 100 : 0`: a `NaN` or zero
      gross lent is falsy and gives 0. */
  function RateOf(g: Group): Rate {
    Rate(g.period,
         if g.grossLent.Some? && g.grossLent.value != 0.0 then
           (if g.principalRecovered.Some? then Some(g.principalRecovered.value / g.grossLent.value * 100.0) else None)
         else Some(0.0))
  }

  /** The rate is a percentage: a group that lent something and recovered no more
      principal than it lent has a rate from 0 to 100. A group without a number to
      divide by reports 0. */
  lemma RateBounds(g: Group)
    ensures g.grossLent.None? || g.grossLent == Some(0.0) ==> RateOf(g).returnRate == Some(0.0)
    ensures g.grossLent.Some? && g.grossLent.value > 0.0 && g.principalRecovered.Some?
              && 0.0 <= g.principalRecovered.value <= g.grossLent.value
            ==> RateOf(g).returnRate.Some? && 0.0 <= RateOf(g).returnRate.value <= 100.0
  {
    if g.grossLent.Some? && g.grossLent.value > 0.0 && g.principalRecovered.Some?
       && 0.0 <= g.principalRecovered.value <= g.grossLent.value {
      var p, l := g.principalRecovered.value, g.grossLent.value;
      assert p / l * l == p;
      assert p / l <= 1.0;
    }
  }

  /** The rate of each group `ks[i]`, in the order of `ks`. */
  function RatesFor(ks: seq<string>, es: seq<Entry>, key: Entry -> string): (rs: seq<Rate>)
    ensures |rs| == |ks|
  {
    if ks == [] then [] else [RateOf(GroupOf(ks[0], Members(es, key, ks[0])))] + RatesFor(ks[1..], es, key)
  }

  lemma {:induction false} RatesForIndex(ks: seq<string>, es: seq<Entry>, key: Entry -> string)
    ensures forall i :: 0 <= i < |ks| ==> RatesFor(ks, es, key)[i] == RateOf(GroupOf(ks[i], Members(es, key, ks[i])))
  {
    if ks != [] {
      RatesForIndex(ks[1..], es, key);
    }
  }

  /** The rates of the groups of `es` under `key`, in order of first occurrence
      (`Object.values(grouped).map(...)`). */
  function ReturnRates(es: seq<Entry>, key: Entry -> string): seq<Rate> {
    RatesFor(Keys(es, key), es, key)
  }

  /** One rate per distinct period, the periods distinct and in order of first
      occurrence, each the rate of the totals of exactly the entries of that period. */
  lemma ReturnRatesSpec(es: seq<Entry>, key: Entry -> string)
    ensures |ReturnRates(es, key)| == |Keys(es, key)| <= |es|
    ensures forall i :: 0 <= i < |es| ==> exists j :: 0 <= j < |ReturnRates(es, key)| && ReturnRates(es, key)[j].period == key(es[i])
    ensures forall j :: 0 <= j < |ReturnRates(es, key)| ==>
              ReturnRates(es, key)[j] == RateOf(GroupOf(Keys(es, key)[j], Members(es, key, Keys(es, key)[j])))
    ensures forall i, j :: 0 <= i < j < |ReturnRates(es, key)| ==> ReturnRates(es, key)[i].period != ReturnRates(es, key)[j].period
  {
    var ks := Keys(es, key);
    KeysLength(es, key);
    KeysSpec(es, key);
    RatesForIndex(ks, es, key);
    forall i | 0 <= i < |es|
      ensures exists j :: 0 <= j < |ReturnRates(es, key)| && ReturnRates(es, key)[j].period == key(es[i])
    {
      var j :| 0 <= j < |ks| && ks[j] == key(es[i]);
      assert ReturnRates(es, key)[j].period == ks[j];
    }
  }

  // ---------------------------------------------------------------------------
  // calculateReturnRates

  /** The loop's state after the entries `es`: the periods seen, in order of first
      occurrence, each with the totals of its entries so far. */
  ghost predicate Folded(acc: map<string, Group>, order: seq<string>, es: seq<Entry>, key: Entry -> string) {
    && order == Keys(es, key)
    && (forall k :: k in acc <==> k in order)
    && (forall k :: k in acc ==> acc[k] == GroupOf(k, Members(es, key, k)))
  }

  /** The group an entry joins: its period's group, or a zeroed one when the
      period has not occurred yet. */
  function Opened(acc: map<string, Group>, k: string): Group {
    if k in acc then acc[k] else Group(k, Some(0.0), Some(0.0))
  }

  /** The periods listed after an entry of period `k`. */
  function Listed(acc: map<string, Group>, order: seq<string>, k: string): seq<string> {
    if k in acc then order else order + [k]
  }

  /** One step of the loop for one of the two groupings: the entry's group absorbs
      it, and its period is listed when new. */
  lemma FoldStep(acc: map<string, Group>, order: seq<string>, es: seq<Entry>, key: Entry -> string, e: Entry)
    requires Folded(acc, order, es, key)
    ensures Folded(acc[key(e) := Absorb(Opened(acc, key(e)), e)], Listed(acc, order, key(e)), es + [e], key)
  {
    var k := key(e);
    var acc' := acc[k := Absorb(Opened(acc, k), e)];
    KeysAppend(es, e, key);
    assert forall k' :: k' in acc' <==> k' in Listed(acc, order, k);
    JoinedGroup(acc, es, key, e);
    OtherGroupsUnchanged(acc, es, key, e);
  }

  /** The entry's own group holds the totals of its period's entries so far. */
  lemma JoinedGroup(acc: map<string, Group>, es: seq<Entry>, key: Entry -> string, e: Entry)
    requires forall k :: k in acc ==> acc[k] == GroupOf(k, Members(es, key, k))
    requires forall k :: k in acc <==> k in Keys(es, key)
    ensures Absorb(Opened(acc, key(e)), e) == GroupOf(key(e), Members(es + [e], key, key(e)))
  {
    var k := key(e);
    MembersSpec(es, key, k);
    if k !in acc {
      assert Members(es, key, k) == [];
    }
    MembersAppend(es, e, key, k);
    GroupOfAppend(k, Members(es, key, k), e);
  }

  /** An entry of another period leaves a period's entries as they were. */
  lemma OtherMembers(es: seq<Entry>, key: Entry -> string, e: Entry, k: string)
    requires key(e) != k
    ensures Members(es + [e], key, k) == Members(es, key, k)
  {
    MembersAppend(es, e, key, k);
  }

  /** An entry leaves the groups of the other periods as they were. */
  lemma OtherGroupsUnchanged(acc: map<string, Group>, es: seq<Entry>, key: Entry -> string, e: Entry)
    requires forall k :: k in acc ==> acc[k] == GroupOf(k, Members(es, key, k))
    ensures forall k :: k in acc && k != key(e) ==> acc[k] == GroupOf(k, Members(es + [e], key, k))
  {
    forall k | k in acc && k != key(e)
      ensures acc[k] == GroupOf(k, Members(es + [e], key, k))
    {
      OtherMembers(es, key, e, k);
    }
  }

  /** Once every entry is folded in, the groups listed in order of first
      occurrence give the rates. */
  lemma FoldedRates(acc: map<string, Group>, order: seq<string>, es: seq<Entry>, key: Entry -> string, rates: seq<Rate>)
    requires Folded(acc, order, es, key)
    requires |rates| == |order| && forall j :: 0 <= j < |order| ==> rates[j] == RateOf(acc[order[j]])
    ensures rates == ReturnRates(es, key)
  {
    RatesForIndex(order, es, key);
  }

  /** `calculateReturnRates`: one pass over the entries that adds each entry's
      principal recovered and gross lent to its month's and its week's group
      (opening a zeroed group on a period's first entry), then one rate per group. */
  method CalculateReturnRates(entries: seq<Entry>, parse: string -> Option<CivilDate>)
    returns (monthly: seq<Rate>, weekly: seq<Rate>)
    ensures monthly == ReturnRates(entries, MonthKeyOf(parse))
    ensures weekly == ReturnRates(entries, WeekKeyOf(parse))
  {
    if |entries| == 0 {
      return [], [];
    }
    var byMonth: map<string, Group> := map[];
    var byWeek: map<string, Group> := map[];
    var months: seq<string> := [];
    var weeks: seq<string> := [];
    var i := 0;
    while i < |entries|
      invariant 0 <= i <= |entries|
      invariant Folded(byMonth, months, entries[..i], MonthKeyOf(parse))
      invariant Folded(byWeek, weeks, entries[..i], WeekKeyOf(parse))
    {
      TakeSnoc(entries, i);
      var entry := entries[i];
      var date := CivilOf(parse, entry);
      var monthKey := MonthKey(date);
      var weekKey := WeekKey(date);
      FoldStep(byMonth, months, entries[..i], MonthKeyOf(parse), entry);
      FoldStep(byWeek, weeks, entries[..i], WeekKeyOf(parse), entry);
      if monthKey !in byMonth {
        byMonth := byMonth[monthKey := Group(monthKey, Some(0.0), Some(0.0))];
        months := months + [monthKey];
      }
      if weekKey !in byWeek {
        byWeek := byWeek[weekKey := Group(weekKey, Some(0.0), Some(0.0))];
        weeks := weeks + [weekKey];
      }
      byMonth := byMonth[monthKey := Absorb(byMonth[monthKey], entry)];
      byWeek := byWeek[weekKey := Absorb(byWeek[weekKey], entry)];
      i := i + 1;
    }
    TakeAll(entries);
    monthly := seq(|months|, j requires 0 <= j < |months| => RateOf(byMonth[months[j]]));
    weekly := seq(|weeks|, j requires 0 <= j < |weeks| => RateOf(byWeek[weeks[j]]));
    FoldedRates(byMonth, months, entries, MonthKeyOf(parse), monthly);
    FoldedRates(byWeek, weeks, entries, WeekKeyOf(parse), weekly);
  }

  // ---------------------------------------------------------------------------
  // The revenue and NPL series

  datatype RevenuePoint = RevenuePoint(date: Option<string>, revenue: Amount)
  datatype NplPoint = NplPoint(date: Option<string>, npl: Amount)

  function RevenueOf(e: Entry): RevenuePoint {
    RevenuePoint(e.date, AddAmount(e.serviceFeeRecovered, e.lateFeesRecovered))
  }

  function NplOf(e: Entry): NplPoint {
    NplPoint(e.date, SubAmount(e.grossLent, e.grossRecovered))
  }

  /** `calculateRevenueData`: one point per entry, in order. */
  function RevenueData(es: seq<Entry>): seq<RevenuePoint> {
    MapSeq(es, RevenueOf)
  }

  /** `calculateNPLData`: one point per entry, in order. */
  function NplData(es: seq<Entry>): seq<NplPoint> {
    MapSeq(es, NplOf)
  }

  /** Each point keeps its entry's date; revenue is service fees plus late fees
      recovered and NPL is gross lent less gross recovered, both `NaN` as soon as
      either operand is. */
  lemma SeriesSpec(es: seq<Entry>)
    ensures |RevenueData(es)| == |es| && |NplData(es)| == |es|
    ensures forall i :: 0 <= i < |es| ==>
              && RevenueData(es)[i].date == es[i].date
              && (RevenueData(es)[i].revenue.Some?
                  <==> es[i].serviceFeeRecovered.Some? && es[i].lateFeesRecovered.Some?)
              && (RevenueData(es)[i].revenue.Some?
                  ==> RevenueData(es)[i].revenue.value == es[i].serviceFeeRecovered.value + es[i].lateFeesRecovered.value)
    ensures forall i :: 0 <= i < |es| ==>
              && NplData(es)[i].date == es[i].date
              && (NplData(es)[i].npl.Some? <==> es[i].grossLent.Some? && es[i].grossRecovered.Some?)
              && (NplData(es)[i].npl.Some? ==> NplData(es)[i].npl.value == es[i].grossLent.value - es[i].grossRecovered.value)
  {
    forall i | 0 <= i < |es|
      ensures RevenueData(es)[i] == RevenueOf(es[i]) && NplData(es)[i] == NplOf(es[i])
    {
      MapSeqAt(es, RevenueOf, i);
      MapSeqAt(es, NplOf, i);
    }
  }

  // ---------------------------------------------------------------------------
  // Reading the entries from the loaded records

  /** The property names every record that the CSV loader produces carries
      (src/hooks/useFetch.tsx, both layouts; `active_base` only in the legacy one). */
  const RecordKeys: set<string> := {
    "date", "telco", "country", "qualified_base", "active_base", "unique_users",
    "overall_unique_users", "lending_transactions", "gross_lent", "principal_lent",
    "service_fee_lent", "late_fees_charged", "setup_fees_charged", "interest_fees_charged",
    "recovery_transactions", "gross_recovered", "principal_recovered",
    "service_fee_recovered", "late_fees_recovered", "setup_fees_recovered",
    "interest_fees_recovered", "fx_rate"}

  /** A record property as App sees it. */
  datatype Value = Missing | Str(s: string) | Num(n: real) | Unread

  /** `record[name]`: a name the record does not carry reads `undefined`.
      (Properties App never asks for are `Unread`.) */
  function Property(s: Segment, name: string): (v: Value)
    ensures name !in RecordKeys ==> v == Missing
  {
    if name !in RecordKeys then Missing
    else if name == "date" then Str(s.date)
    else if name == "principal_recovered" then Num(s.principalRecovered)
    else if name == "gross_lent" then Num(s.grossLent)
    else if name == "service_fee_recovered" then Num(s.serviceFeeRecovered)
    else if name == "late_fees_recovered" then Num(s.lateFeesRecovered)
    else if name == "gross_recovered" then Num(s.grossRecovered)
    else Unread
  }

  /** An amount operand of `+=`, `+` or `-`: only a number is a number here. */
  function AmountOf(v: Value): Amount {
    if v.Num? then Some(v.n) else None
  }

  function DateTextOf(v: Value): Option<string> {
    if v.Str? then Some(v.s) else None
  }

  /** The entry read through six property names: the date, principal recovered,
      gross lent, service fee recovered, late fees recovered, gross recovered. */
  function EntryVia(s: Segment, names: seq<string>): Entry
    requires |names| == 6
  {
    Entry(DateTextOf(Property(s, names[0])), AmountOf(Property(s, names[1])), AmountOf(Property(s, names[2])),
          AmountOf(Property(s, names[3])), AmountOf(Property(s, names[4])), AmountOf(Property(s, names[5])))
  }

  /** The names App.tsx uses: the column headings of the raw sheet. */
  const DisplayNames: seq<string> :=
    ["Date", "Principal Recovered", "Gross Lent", "Service Fee Recovered", "Late Fees Recovered", "Gross Recovered"]

  /** The names the loaded records actually carry. */
  const FieldNames: seq<string> :=
    ["date", "principal_recovered", "gross_lent", "service_fee_recovered", "late_fees_recovered", "gross_recovered"]

  /** As written: App reads the records of `useFetch("/Data.csv")` by their
      display names. */
  function AppEntry(s: Segment): Entry {
    EntryVia(s, DisplayNames)
  }

  /** Corrected: the same reads through the record's own property names. */
  function RecordEntry(s: Segment): Entry {
    EntryVia(s, FieldNames)
  }

  /** The entry with no date and every amount `NaN`. */
  const Blank: Entry := Entry(None, None, None, None, None, None)

  /** None of the display names is a property of a loaded record, so every
      entry App reads is blank. */
  lemma AppEntryIsBlank(s: Segment)
    ensures AppEntry(s) == Blank
  {
    assert forall i :: 0 <= i < |DisplayNames| ==> DisplayNames[i] !in RecordKeys;
  }

  /** Read through the record's own names, every entry has the record's date and
      its five amounts. */
  lemma RecordEntryReadsFields(s: Segment)
    ensures RecordEntry(s) == Entry(Some(s.date), Some(s.principalRecovered), Some(s.grossLent),
                                    Some(s.serviceFeeRecovered), Some(s.lateFeesRecovered), Some(s.grossRecovered))
  {
    assert forall i :: 0 <= i < |FieldNames| ==> FieldNames[i] in RecordKeys;
  }

  /** Entries that all fall in the period `k` form the single group `k`. */
  lemma {:induction false} OneGroup(es: seq<Entry>, key: Entry -> string, k: string)
    requires |es| > 0 && forall i :: 0 <= i < |es| ==> key(es[i]) == k
    ensures Keys(es, key) == [k] && Members(es, key, k) == es
  {
    var ys := es[..|es| - 1];
    if |ys| > 0 {
      OneGroup(ys, key, k);
    }
    TakeAll(es);
  }

  /** The as-written reads collapse every month into one "NaN-NaN" period and
      every week into one "NaN-WNaN" period, each with rate 0: gross lent is
      `NaN`, hence falsy. */
  lemma AppRatesCollapse(ss: seq<Segment>, parse: string -> Option<CivilDate>)
    requires |ss| > 0
    ensures ReturnRates(MapSeq(ss, AppEntry), MonthKeyOf(parse)) == [Rate("NaN-NaN", Some(0.0))]
    ensures ReturnRates(MapSeq(ss, AppEntry), WeekKeyOf(parse)) == [Rate("NaN-WNaN", Some(0.0))]
  {
    var es := MapSeq(ss, AppEntry);
    forall i | 0 <= i < |es| ensures es[i] == Blank {
      MapSeqAt(ss, AppEntry, i);
      AppEntryIsBlank(ss[i]);
    }
    OneGroup(es, MonthKeyOf(parse), "NaN-NaN");
    OneGroup(es, WeekKeyOf(parse), "NaN-WNaN");
    TotalSpec(es, GrossLentOf);
    assert GrossLentOf(es[0]).None?;
  }

  /** Read through the record's own names, no total is ever `NaN`, and the
      month groups' gross lent adds back up to the gross lent of all records
      (likewise the weeks'). */
  lemma RecordGroupsAddUp(ss: seq<Segment>, key: Entry -> string)
    ensures var es := MapSeq(ss, RecordEntry);
            forall k :: Total(Members(es, key, k), GrossLentOf).Some? && Total(Members(es, key, k), PrincipalOf).Some?
    ensures var es := MapSeq(ss, RecordEntry);
            SumOverKeys(Keys(es, key), es, key, Known(GrossLentOf)) == SumOf(ss, FlowOf(GrossLent))
  {
    var es := MapSeq(ss, RecordEntry);
    forall i | 0 <= i < |es| ensures es[i] == RecordEntry(ss[i]) {
      MapSeqAt(ss, RecordEntry, i);
    }
    forall k ensures Total(Members(es, key, k), GrossLentOf).Some? && Total(Members(es, key, k), PrincipalOf).Some? {
      var ms := Members(es, key, k);
      MembersSpec(es, key, k);
      forall j | 0 <= j < |ms| ensures GrossLentOf(ms[j]).Some? && PrincipalOf(ms[j]).Some? {
        assert ms[j] in es;
        var i :| 0 <= i < |es| && es[i] == ms[j];
        RecordEntryReadsFields(ss[i]);
      }
      TotalSpec(ms, GrossLentOf);
      TotalSpec(ms, PrincipalOf);
    }
    PartitionSum(es, key, Known(GrossLentOf));
    KnownGrossLent(ss);
  }

  lemma {:induction false} KnownGrossLent(ss: seq<Segment>)
    ensures SumOf(MapSeq(ss, RecordEntry), Known(GrossLentOf)) == SumOf(ss, FlowOf(GrossLent))
  {
    if ss != [] {
      var ys, x := ss[..|ss| - 1], ss[|ss| - 1];
      assert ss == ys + [x];
      KnownGrossLent(ys);
      RecordEntryReadsFields(x);
      assert MapSeq(ss, RecordEntry) == MapSeq(ys, RecordEntry) + [RecordEntry(x)];
      assert GrossLentOf(RecordEntry(x)) == Some(x.grossLent);
      assert Known(GrossLentOf)(RecordEntry(x)) == x.grossLent;
      assert FlowOf(GrossLent)(x) == x.grossLent;
      SumSnoc(MapSeq(ys, RecordEntry), RecordEntry(x), Known(GrossLentOf));
      SumSnoc(ys, x, FlowOf(GrossLent));
    }
  }
}

/** `sanitizeColumns` of src/hooks/useFetchNPLData.tsx: the NPL report CSV, whose
    first (unnamed) column labels each row, becomes one line per loan product that
    has a row and the eight arrears buckets of the "Grand Total" row. Amounts are
    text such as "12,345" or "8.5%", read with `parseInt`/`parseFloat`, so an
    unreadable amount is `NaN` (here `None`). */
module NplCsv {
  import opened Wrappers
  import opened JsText
  import opened JsValues
  import opened Grouping

  /** The row labels of the loan products, in display order. */
  const LoanKeys: seq<string> := ["7 Days Loan", "14 Days Loan", "21 Days Loan", "30 Days Loan"]

  /** The arrears columns; each bucket is named after its column. */
  const BucketColumns: seq<string> := [
    "Within Tenure", "30 days in arrears", "31-60 days in arrears", "61-90 days in arrears",
    "91-120 days in arrears", "121-150 days in arrears", "151-180 days in arrears", "181+ days in arrears"]

  datatype LoanLine = LoanLine(
    name: string,
    outstandingBalance: Option<int>,
    totalRecovered: Option<int>,
    unrecoveredPercentage: Option<real>)

  datatype ArrearsEntry = ArrearsEntry(name: string, amount: Option<int>)

  /** How a cell becomes the text that `.replace` works on. */
  type CellReader = Cell -> Result<string>

  /** As written, `.replace` is called on the cell itself, which throws unless the
      parser left it a string. */
  function AsWritten(c: Cell): Result<string> {
    if c.Text? then Ok(c.s) else TypeError
  }

  /** As intended, the cell's text, `String(cell)`, whatever the parser made of it. */
  function AsText(c: Cell): Result<string> {
    Ok(ToText(c))
  }

  /** `r[''] === tag` */
  function HasLabel(tag: string): Row -> bool {
    r => Get(r, "") == Text(tag)
  }

  /** `parseInt(s.replace(/,/g, ''), 10)` */
  function WholeAmount(s: string): Option<int> {
    ParseInt(StripCommas(s))
  }

  /** `parseFloat(s.replace('%', ''))` */
  function Percentage(s: string): Option<real> {
    ParseFloat(RemoveFirst(s, '%'))
  }

  /** The line for the product labelled `key`, read from its row. */
  function LoanLineOf(read: CellReader, key: string, row: Row): Result<LoanLine> {
    match (read(Get(row, "Outstanding Balance (Gross)")), read(Get(row, "Net Recovered Value")),
           read(Get(row, "Unrecovered % (Net)")))
    case (Ok(a), Ok(b), Ok(c)) => Ok(LoanLine(key, WholeAmount(a), WholeAmount(b), Percentage(c)))
    case _ => TypeError
  }

  /** The table's contribution for one key: nothing when no row bears the
      label, else the line read from the first such row. */
  function LineOfKey(read: CellReader, key: string, data: seq<Row>): (r: Result<seq<LoanLine>>)
    ensures r.TypeError? <==> HasRow(data, key) && LoanLineOf(read, key, RowOf(data, key)).TypeError?
    ensures r.Ok? && HasRow(data, key) ==> r.value == [LoanLineOf(read, key, RowOf(data, key)).value]
    ensures r.Ok? && !HasRow(data, key) ==> r.value == []
  {
    match Find(data, HasLabel(key))
    case None => Ok([])
    case Some(row) =>
      match LoanLineOf(read, key, row)
      case TypeError => TypeError
      case Ok(line) => Ok([line])
  }

  /** Some row bears the label `key`. */
  predicate HasRow(data: seq<Row>, key: string) {
    Find(data, HasLabel(key)).Some?
  }

  /** The first row bearing the label `key`. */
  function RowOf(data: seq<Row>, key: string): Row
    requires HasRow(data, key)
  {
    Find(data, HasLabel(key)).value
  }

  /** `keys.map(find row, read it or null).filter(Boolean)`, stopping at the
      first throw. */
  function LoanLines(read: CellReader, keys: seq<string>, data: seq<Row>): Result<seq<LoanLine>> {
    if keys == [] then Ok([])
    else
      match LineOfKey(read, keys[0], data)
      case TypeError => TypeError
      case Ok(head) =>
        match LoanLines(read, keys[1..], data)
        case TypeError => TypeError
        case Ok(rest) => Ok(head + rest)
  }

  /** The keys that label some row, in order. */
  function KeysWithRow(keys: seq<string>, data: seq<Row>): (ks: seq<string>)
    ensures |ks| <= |keys|
    ensures forall i :: 0 <= i < |ks| ==> HasRow(data, ks[i])
  {
    KeysWhere(keys, k => HasRow(data, k))
  }

  /** The keys that pass `has`, in order. */
  function KeysWhere(keys: seq<string>, has: string -> bool): (ks: seq<string>)
    ensures |ks| <= |keys|
    ensures forall i :: 0 <= i < |ks| ==> has(ks[i])
  {
    if keys == [] then []
    else (if has(keys[0]) then [keys[0]] else []) + KeysWhere(keys[1..], has)
  }

  /** A key is listed exactly when it is one of `keys` and labels some row. */
  lemma KeysWithRowMembers(keys: seq<string>, data: seq<Row>)
    ensures forall k :: k in KeysWithRow(keys, data) <==> k in keys && HasRow(data, k)
  {
    KeysWhereMembers(keys, k => HasRow(data, k));
  }

  lemma {:induction false} KeysWhereMembers(keys: seq<string>, has: string -> bool)
    ensures forall k :: k in KeysWhere(keys, has) <==> k in keys && has(k)
  {
    if keys != [] {
      KeysWhereMembers(keys[1..], has);
      var ks' := KeysWhere(keys[1..], has);
      assert KeysWhere(keys, has) == (if has(keys[0]) then [keys[0]] else []) + ks';
      assert forall k :: k in keys <==> k == keys[0] || k in keys[1..];
    }
  }

  /** The listed keys keep the order of `keys`: listing the keys of `a + b`
      lists those of `a` first, then those of `b`. */
  lemma KeysWithRowOrder(a: seq<string>, b: seq<string>, data: seq<Row>)
    ensures KeysWithRow(a + b, data) == KeysWithRow(a, data) + KeysWithRow(b, data)
  {
    KeysWhereAppend(a, b, k => HasRow(data, k));
  }

  lemma {:induction false} KeysWhereAppend(a: seq<string>, b: seq<string>, has: string -> bool)
    ensures KeysWhere(a + b, has) == KeysWhere(a, has) + KeysWhere(b, has)
  {
    if a != [] {
      KeysWhereAppend(a[1..], b, has);
      assert (a + b)[1..] == a[1..] + b;
      assert (a + b)[0] == a[0];
    } else {
      assert a + b == b;
    }
  }

  /** The loan-type table, when it can be read, lists exactly the products that
      have a row, in the order of `keys`, each line read from the first row
      bearing its label; it throws exactly when one of those rows cannot be
      read. */
  lemma LoanLinesSpec(read: CellReader, keys: seq<string>, data: seq<Row>)
    ensures var r := LoanLines(read, keys, data);
      r.Ok? ==>
        && |r.value| == |KeysWithRow(keys, data)|
        && forall i :: 0 <= i < |r.value| ==>
             var k := KeysWithRow(keys, data)[i];
             Ok(r.value[i]) == LoanLineOf(read, k, RowOf(data, k))
    ensures LoanLines(read, keys, data).TypeError? <==>
      exists i :: 0 <= i < |keys| && HasRow(data, keys[i]) && LoanLineOf(read, keys[i], RowOf(data, keys[i])).TypeError?
  {
    LoanLinesAt(read, keys, data);
    LoanLinesThrows(read, keys, data);
  }

  lemma {:induction false} LoanLinesThrows(read: CellReader, keys: seq<string>, data: seq<Row>)
    ensures LoanLines(read, keys, data).TypeError? <==>
      exists i :: 0 <= i < |keys| && LineOfKey(read, keys[i], data).TypeError?
  {
    if keys != [] {
      LoanLinesThrows(read, keys[1..], data);
      var rest := LoanLines(read, keys[1..], data);
      if LineOfKey(read, keys[0], data).Ok? {
        assert LoanLines(read, keys, data).TypeError? <==> rest.TypeError?;
        if rest.TypeError? {
          var j :| 0 <= j < |keys[1..]| && LineOfKey(read, keys[1..][j], data).TypeError?;
          assert keys[j + 1] == keys[1..][j];
        }
        if exists i :: 0 <= i < |keys| && LineOfKey(read, keys[i], data).TypeError? {
          var j :| 0 <= j < |keys| && LineOfKey(read, keys[j], data).TypeError?;
          assert j > 0 && keys[1..][j - 1] == keys[j];
        }
      }
    }
  }

  lemma {:induction false} LoanLinesAt(read: CellReader, keys: seq<string>, data: seq<Row>)
    ensures var r := LoanLines(read, keys, data);
      r.Ok? ==>
        && |r.value| == |KeysWithRow(keys, data)|
        && forall i :: 0 <= i < |r.value| ==>
             var k := KeysWithRow(keys, data)[i];
             Ok(r.value[i]) == LoanLineOf(read, k, RowOf(data, k))
  {
    if keys != [] {
      LoanLinesAt(read, keys[1..], data);
      var r := LoanLines(read, keys, data);
      if r.Ok? {
        var rest := LoanLines(read, keys[1..], data);
        var head := LineOfKey(read, keys[0], data);
        var ks, ks' := KeysWithRow(keys, data), KeysWithRow(keys[1..], data);
        assert head.Ok? && rest.Ok? && r.value == head.value + rest.value;
        if !HasRow(data, keys[0]) {
          assert r.value == rest.value && ks == ks';
        } else {
          assert ks == [keys[0]] + ks';
          forall i | 0 <= i < |r.value|
            ensures Ok(r.value[i]) == LoanLineOf(read, ks[i], RowOf(data, ks[i]))
          {
            if i > 0 {
              assert r.value[i] == rest.value[i - 1] && ks[i] == ks'[i - 1];
            }
          }
        }
      }
    }
  }

  /** `loanTypeData` */
  function LoanTypeData(read: CellReader, data: seq<Row>): Result<seq<LoanLine>> {
    LoanLines(read, LoanKeys, data)
  }

  /** The buckets read from the total row, stopping at the first throw. */
  function EntriesOf(read: CellReader, columns: seq<string>, g: Row): (r: Result<seq<ArrearsEntry>>)
    ensures r.Ok? ==> |r.value| == |columns|
  {
    if columns == [] then Ok([])
    else
      match read(Get(g, columns[0]))
      case TypeError => TypeError
      case Ok(s) =>
        match EntriesOf(read, columns[1..], g)
        case TypeError => TypeError
        case Ok(rest) => Ok([ArrearsEntry(columns[0], WholeAmount(s))] + rest)
  }

  /** One entry per column, named by it and holding its parsed cell; a throw
      exactly when some cell cannot be read. */
  lemma EntriesOfSpec(read: CellReader, columns: seq<string>, g: Row)
    ensures var r := EntriesOf(read, columns, g);
      r.Ok? ==> forall i :: 0 <= i < |columns| ==>
        && r.value[i].name == columns[i]
        && read(Get(g, columns[i])).Ok?
        && r.value[i].amount == WholeAmount(read(Get(g, columns[i])).value)
    ensures EntriesOf(read, columns, g).TypeError? <==>
      exists i :: 0 <= i < |columns| && read(Get(g, columns[i])).TypeError?
  {
    EntriesOfAt(read, columns, g);
    EntriesOfThrows(read, columns, g);
  }

  lemma {:induction false} EntriesOfAt(read: CellReader, columns: seq<string>, g: Row)
    ensures var r := EntriesOf(read, columns, g);
      r.Ok? ==> forall i :: 0 <= i < |columns| ==>
        && r.value[i].name == columns[i]
        && read(Get(g, columns[i])).Ok?
        && r.value[i].amount == WholeAmount(read(Get(g, columns[i])).value)
  {
    var r := EntriesOf(read, columns, g);
    if columns != [] && r.Ok? {
      EntriesOfAt(read, columns[1..], g);
      var rest := EntriesOf(read, columns[1..], g);
      var s := read(Get(g, columns[0]));
      assert s.Ok? && rest.Ok?;
      assert r.value == [ArrearsEntry(columns[0], WholeAmount(s.value))] + rest.value;
      forall i | 0 <= i < |columns|
        ensures r.value[i].name == columns[i] && read(Get(g, columns[i])).Ok?
          && r.value[i].amount == WholeAmount(read(Get(g, columns[i])).value)
      {
        if i > 0 {
          assert r.value[i] == rest.value[i - 1] && columns[i] == columns[1..][i - 1];
        }
      }
    }
  }

  lemma {:induction false} EntriesOfThrows(read: CellReader, columns: seq<string>, g: Row)
    ensures EntriesOf(read, columns, g).TypeError? <==>
      exists i :: 0 <= i < |columns| && read(Get(g, columns[i])).TypeError?
  {
    if columns != [] && read(Get(g, columns[0])).Ok? {
      EntriesOfThrows(read, columns[1..], g);
      var rest := EntriesOf(read, columns[1..], g);
      assert EntriesOf(read, columns, g).TypeError? <==> rest.TypeError?;
      if rest.TypeError? {
        var j :| 0 <= j < |columns[1..]| && read(Get(g, columns[1..][j])).TypeError?;
        assert read(Get(g, columns[j + 1])).TypeError?;
      }
      if exists i :: 0 <= i < |columns| && read(Get(g, columns[i])).TypeError? {
        var j :| 0 <= j < |columns| && read(Get(g, columns[j])).TypeError?;
        assert j > 0 && read(Get(g, columns[1..][j - 1])).TypeError?;
      }
    } else if columns != [] {
      assert read(Get(g, columns[0])).TypeError?;
    }
  }

  /** `arrearsOverTimeData`: nothing without a "Grand Total" row, else all eight
      buckets from it. */
  function ArrearsData(read: CellReader, data: seq<Row>): Result<seq<ArrearsEntry>> {
    match Find(data, HasLabel("Grand Total"))
    case None => Ok([])
    case Some(g) => EntriesOf(read, BucketColumns, g)
  }

  /** Without a total row the arrears list is empty; with one it is the eight
      buckets in order, or a throw when a bucket cell cannot be read. */
  lemma ArrearsDataSpec(read: CellReader, data: seq<Row>)
    ensures Find(data, HasLabel("Grand Total")).None? ==> ArrearsData(read, data) == Ok([])
    ensures ArrearsData(read, data).Ok? && Find(data, HasLabel("Grand Total")).Some? ==>
      |ArrearsData(read, data).value| == 8
      && forall i :: 0 <= i < 8 ==> ArrearsData(read, data).value[i].name == BucketColumns[i]
  {
    var g := Find(data, HasLabel("Grand Total"));
    if g.Some? {
      EntriesOfSpec(read, BucketColumns, g.value);
    }
  }

  /** The two tables the hook keeps. */
  datatype NplTables = NplTables(loanTypeData: seq<LoanLine>, arrearsOverTimeData: seq<ArrearsEntry>)

  /** `sanitizeColumns`: the loan-type table is built first, so when it throws
      the arrears list is never built; otherwise both tables are returned. */
  function SanitizeColumns(read: CellReader, data: seq<Row>): (r: Result<NplTables>)
    ensures LoanTypeData(read, data).TypeError? ==> r.TypeError?
    ensures r.Ok? <==> LoanTypeData(read, data).Ok? && ArrearsData(read, data).Ok?
    ensures r.Ok? ==> r.value.loanTypeData == LoanTypeData(read, data).value
                      && r.value.arrearsOverTimeData == ArrearsData(read, data).value
  {
    match LoanTypeData(read, data)
    case TypeError => TypeError
    case Ok(loans) =>
      match ArrearsData(read, data)
      case TypeError => TypeError
      case Ok(arrears) => Ok(NplTables(loans, arrears))
  }

  /** Reading cells as text, the hook always yields both tables: one line per
      product that has a row, and the eight buckets or none. */
  lemma SanitizeColumnsAsText(data: seq<Row>)
    ensures SanitizeColumns(AsText, data).Ok?
    ensures |SanitizeColumns(AsText, data).value.loanTypeData| == |KeysWithRow(LoanKeys, data)|
    ensures |SanitizeColumns(AsText, data).value.arrearsOverTimeData|
            == if HasRow(data, "Grand Total") then 8 else 0
  {
    AsTextNeverThrows(LoanKeys, data);
    LoanLinesSpec(AsText, LoanKeys, data);
    ArrearsDataSpec(AsText, data);
  }

  // ---------------------------------------------------------------------------
  // Reading amounts

  lemma NoPercentInIntToString(n: int)
    ensures '%' !in IntToString(n)
  {
    assert AllDigits(NatToString(if n < 0 then -n else n));
  }

  lemma NoCommaIn(n: int)
    ensures ',' !in IntToString(n)
  {
    assert AllDigits(NatToString(if n < 0 then -n else n));
  }

  /** A whole amount written without separators reads back as itself. */
  lemma WholeAmountOfIntToString(n: int)
    ensures WholeAmount(IntToString(n)) == Some(n)
  {
    NoCommaIn(n);
    StripCommasNoComma(IntToString(n));
    ParseIntOfIntToString(n);
  }

  /** A whole percentage followed by "%" reads back as its number. */
  lemma PercentageOfIntToString(n: int)
    ensures Percentage(IntToString(n) + "%") == Some(n as real)
  {
    NoPercentInIntToString(n);
    RemoveFirstSuffix(IntToString(n), '%');
    ParseFloatOfIntToString(n);
  }

  // ---------------------------------------------------------------------------
  // Numeric cells

  /** As written, a product row whose balance the CSV parser turned into a number
      (a balance written without a thousands separator) makes the whole table
      throw. */
  lemma NumericBalanceThrows(data: seq<Row>, row: Row, v: real, shown: string)
    requires Find(data, HasLabel("7 Days Loan")) == Some(row)
    requires Get(row, "Outstanding Balance (Gross)") == Number(v, shown)
    ensures LoanTypeData(AsWritten, data) == TypeError
    ensures SanitizeColumns(AsWritten, data) == TypeError
  {
  }

  /** Reading the cell's text instead never throws, and a numeric balance reads
      as its value. */
  lemma AsTextReadsNumbers(key: string, row: Row, n: int)
    requires Get(row, "Outstanding Balance (Gross)") == Number(n as real, IntToString(n))
    ensures LoanLineOf(AsText, key, row).Ok?
    ensures LoanLineOf(AsText, key, row).value.outstandingBalance == Some(n)
  {
    var b, r, u := Get(row, "Outstanding Balance (Gross)"), Get(row, "Net Recovered Value"), Get(row, "Unrecovered % (Net)");
    assert AsText(b) == Ok(IntToString(n));
    assert LoanLineOf(AsText, key, row)
      == Ok(LoanLine(key, WholeAmount(IntToString(n)), WholeAmount(ToText(r)), Percentage(ToText(u))));
    WholeAmountOfIntToString(n);
  }

  /** With the text reader neither view throws. */
  lemma {:induction false} AsTextNeverThrows(keys: seq<string>, data: seq<Row>)
    ensures LoanLines(AsText, keys, data).Ok?
    ensures ArrearsData(AsText, data).Ok?
  {
    if keys != [] {
      AsTextNeverThrows(keys[1..], data);
    }
    var g := Find(data, HasLabel("Grand Total"));
    if g.Some? {
      EntriesOfSpec(AsText, BucketColumns, g.value);
    }
  }
}

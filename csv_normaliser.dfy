/** The CSV reader of src/hooks/useFetch.tsx: it decides from the header line
    whether a file uses the new or the legacy column layout, normalises every
    column name of every row, and maps the row onto the canonical record,
    reading each field under its aliases and parsing it as an integer or a
    decimal amount. */
module CsvNormaliser {
  import opened Wrappers
  import opened JsText
  import opened JsValues
  import opened Grouping
  import opened Records
  import opened Aggregation

  /** A parsed CSV row as the parser hands it over: its cells under the header
      names, in column order. */
  type RawRow = seq<(string, Cell)>

  // ---------------------------------------------------------------------------
  // isNewFormat

  /** A header that only the new layout has. */
  predicate NewFormatMarker(header: string) {
    var h := Lower(header);
    Contains(h, "unique_users") || Contains(h, "setup_fees") || Contains(h, "date level aggregation")
  }

  /** `isNewFormat`: some header, lower-cased but otherwise as written, is a marker. */
  predicate IsNewFormat(headers: seq<string>) {
    exists i :: 0 <= i < |headers| && NewFormatMarker(headers[i])
  }

  // ---------------------------------------------------------------------------
  // Column-name normalisation

  /** The characters the pattern `(\s|-|_)+` matches. */
  predicate IsSeparator(c: char) {
    IsSpace(c) || c == '-' || c == '_'
  }

  /** A normalised column name: no white space, no hyphen, no capital, and no two
      underscores in a row. */
  predicate IsNormalKey(k: string) {
    && (forall i :: 0 <= i < |k| ==> !IsSpace(k[i]) && k[i] != '-' && !IsUpper(k[i]))
    && (forall i :: 0 <= i < |k| - 1 ==> !(k[i] == '_' && k[i + 1] == '_'))
  }

  /** `s` without its leading separators. */
  function DropSeparators(s: string): (r: string)
    ensures |r| <= |s| && r == s[|s| - |r|..]
    ensures r == [] || !IsSeparator(r[0])
  {
    if s != [] && IsSeparator(s[0]) then DropSeparators(s[1..]) else s
  }

  /** `s.replace(/(\s|-|_)+/g, "_")`: every run of separators becomes one underscore. */
  function Collapse(s: string): string
    decreases |s|
  {
    if s == [] then []
    else if IsSeparator(s[0]) then ['_'] + Collapse(DropSeparators(s[1..]))
    else [s[0]] + Collapse(s[1..])
  }

  /** The column-name normalisation of `sanitizeColumns`: trim, lower-case, then
      collapse separator runs. */
  function NormalizeKey(key: string): string {
    Collapse(Lower(Trim(key)))
  }

  /** The first character of a collapse: the underscore for a separator run,
      otherwise the first character itself. */
  lemma CollapseHead(s: string)
    requires s != []
    ensures Collapse(s) != [] && Collapse(s)[0] == (if IsSeparator(s[0]) then '_' else s[0])
  {
  }

  /** A collapsed string holds no white space and no hyphen. */
  lemma {:induction false} CollapseNoSeparator(s: string)
    ensures forall i :: 0 <= i < |Collapse(s)| ==> !IsSpace(Collapse(s)[i]) && Collapse(s)[i] != '-'
    decreases |s|
  {
    if s != [] {
      var t := if IsSeparator(s[0]) then DropSeparators(s[1..]) else s[1..];
      CollapseNoSeparator(t);
      assert Collapse(s) == [if IsSeparator(s[0]) then '_' else s[0]] + Collapse(t);
    }
  }

  /** Dropping separators leaves only characters of the input. */
  lemma {:induction false} DropSeparatorsIn(u: string)
    ensures forall c :: c in DropSeparators(u) ==> c in u
  {
    if u != [] && IsSeparator(u[0]) {
      DropSeparatorsIn(u[1..]);
    }
  }

  /** Collapsing only ever writes underscores and characters of its input. */
  lemma {:induction false} CollapseChars(s: string)
    ensures forall c :: c in Collapse(s) ==> c == '_' || c in s
    decreases |s|
  {
    if s != [] {
      var u := s[1..];
      var x, t;
      if IsSeparator(s[0]) {
        x, t := '_', DropSeparators(u);
        DropSeparatorsIn(u);
      } else {
        x, t := s[0], u;
      }
      assert Collapse(s) == [x] + Collapse(t);
      CollapseChars(t);
      forall c | c in Collapse(s)
        ensures c == '_' || c in s
      {
        if c != x {
          assert c in Collapse(t);
          if c != '_' {
            assert c in t && c in u;
          }
        } else if c != '_' {
          assert c == s[0];
        }
      }
    }
  }

  /** Collapsing adds no capital letter. */
  lemma CollapseNoUpper(s: string)
    requires forall i :: 0 <= i < |s| ==> !IsUpper(s[i])
    ensures forall i :: 0 <= i < |Collapse(s)| ==> !IsUpper(Collapse(s)[i])
  {
    CollapseChars(s);
    forall i | 0 <= i < |Collapse(s)|
      ensures !IsUpper(Collapse(s)[i])
    {
      var c := Collapse(s)[i];
      assert c in Collapse(s);
      if c != '_' {
        var j :| 0 <= j < |s| && s[j] == c;
      }
    }
  }

  /** A collapsed string never holds two underscores in a row. */
  lemma {:induction false} CollapseNoDoubleUnderscore(s: string)
    ensures forall i :: 0 <= i < |Collapse(s)| - 1 ==> !(Collapse(s)[i] == '_' && Collapse(s)[i + 1] == '_')
    decreases |s|
  {
    if s != [] {
      var t := if IsSeparator(s[0]) then DropSeparators(s[1..]) else s[1..];
      CollapseNoDoubleUnderscore(t);
      var c := if IsSeparator(s[0]) then '_' else s[0];
      assert Collapse(s) == [c] + Collapse(t);
      if IsSeparator(s[0]) && t != [] {
        CollapseHead(t);
      }
    }
  }

  /** A string that is already normal passes through the collapse unchanged. */
  lemma {:induction false} CollapseOfNormal(k: string)
    requires IsNormalKey(k)
    ensures Collapse(k) == k
  {
    if k != [] {
      assert IsNormalKey(k[1..]);
      if k[0] == '_' {
        assert DropSeparators(k[1..]) == k[1..];
      }
      CollapseOfNormal(k[1..]);
    }
  }

  /** Every normalised name is normal. */
  lemma NormalizeKeyIsNormal(key: string)
    ensures IsNormalKey(NormalizeKey(key))
  {
    CollapseNoSeparator(Lower(Trim(key)));
    CollapseNoUpper(Lower(Trim(key)));
    CollapseNoDoubleUnderscore(Lower(Trim(key)));
  }

  /** Normalising a normal name changes nothing, so normalisation is idempotent:
      a column already called `gross_lent` keeps its name. */
  lemma NormalizeKeyOfNormal(k: string)
    requires IsNormalKey(k)
    ensures NormalizeKey(k) == k
  {
    TrimOfSpaceless(k);
    LowerOfLower(k);
    CollapseOfNormal(k);
  }

  lemma NormalizeKeyIdempotent(key: string)
    ensures NormalizeKey(NormalizeKey(key)) == NormalizeKey(key)
  {
    NormalizeKeyIsNormal(key);
    NormalizeKeyOfNormal(NormalizeKey(key));
  }

  /** Assigning `obj[k] = v` for every pair in turn: a later pair overwrites an
      earlier one with the same key. */
  function Overwrite<K, V>(pairs: seq<(K, V)>): map<K, V> {
    if pairs == [] then map[]
    else Overwrite(pairs[..|pairs| - 1])[pairs[|pairs| - 1].0 := pairs[|pairs| - 1].1]
  }

  /** A key is present exactly when some pair has it, and it holds the value of
      the last such pair. */
  lemma {:induction false} OverwriteAt<K, V>(pairs: seq<(K, V)>, k: K)
    ensures k in Overwrite(pairs) <==> exists i :: 0 <= i < |pairs| && pairs[i].0 == k
    ensures forall i :: 0 <= i < |pairs| && pairs[i].0 == k && (forall j :: i < j < |pairs| ==> pairs[j].0 != k)
                        ==> k in Overwrite(pairs) && Overwrite(pairs)[k] == pairs[i].1
  {
    if pairs != [] {
      var n := |pairs| - 1;
      var prefix := pairs[..n];
      OverwriteAt(prefix, k);
      assert forall i :: 0 <= i < n ==> prefix[i] == pairs[i];
    }
  }

  lemma OverwriteSnoc<K, V>(pairs: seq<(K, V)>, i: nat)
    requires i < |pairs|
    ensures Overwrite(pairs[..i + 1]) == Overwrite(pairs[..i])[pairs[i].0 := pairs[i].1]
  {
    assert pairs[..i + 1][..i] == pairs[..i];
  }

  /** The row's columns under their normalised names, in column order. */
  function Renamed(entries: RawRow): (r: RawRow)
    ensures |r| == |entries|
    ensures forall i :: 0 <= i < |entries| ==> r[i] == (NormalizeKey(entries[i].0), entries[i].1)
  {
    seq(|entries|, i requires 0 <= i < |entries| => (NormalizeKey(entries[i].0), entries[i].1))
  }

  /** The object built by the key loop of `sanitizeColumns`. */
  function NormalizedRow(entries: RawRow): Row {
    Overwrite(Renamed(entries))
  }

  /** A name is present exactly when some column normalises to it, and it holds
      the cell of the last such column. */
  lemma NormalizedRowAt(entries: RawRow, k: string)
    ensures k in NormalizedRow(entries) <==> exists i :: 0 <= i < |entries| && NormalizeKey(entries[i].0) == k
    ensures forall i :: 0 <= i < |entries| && NormalizeKey(entries[i].0) == k
                        && (forall j :: i < j < |entries| ==> NormalizeKey(entries[j].0) != k)
                        ==> k in NormalizedRow(entries) && NormalizedRow(entries)[k] == entries[i].1
  {
    OverwriteAt(Renamed(entries), k);
  }

  /** The `forEach` over the row's keys. */
  method NormalizeRow(entries: RawRow) returns (m: Row)
    ensures m == NormalizedRow(entries)
  {
    ghost var renamed := Renamed(entries);
    m := map[];
    var i := 0;
    while i < |entries|
      invariant 0 <= i <= |entries|
      invariant m == Overwrite(renamed[..i])
    {
      OverwriteSnoc(renamed, i);
      m := m[NormalizeKey(entries[i].0) := entries[i].1];
      i := i + 1;
    }
    TakeAll(renamed);
  }

  // ---------------------------------------------------------------------------
  // The two layouts

  /** `String(c1 || ... || "")` */
  function TextOf(cs: seq<Cell>): string {
    FirstText(cs)
  }

  /** `parseInt(String(c1 || ... || "").replace(/,/g, ""), 10) || 0` */
  function IntOf(cs: seq<Cell>): real {
    IntOrZero(StripCommas(FirstText(cs)))
  }

  /** `parseFloat(String(c1 || ... || "").replace(/,/g, "")) || 0` */
  function FloatOf(cs: seq<Cell>): real {
    FloatOrZero(StripCommas(FirstText(cs)))
  }

  /** The new layout: aliases are tried in order, amounts are decimals, and the
      exchange rate is parsed without removing commas. */
  function NewFormatRecord(m: Row): Segment {
    Segment(
      date := TextOf([Get(m, "date_level_aggregation"), Get(m, "date")]),
      telco := Some(TextOf([Get(m, "telco")])),
      country := Some(TextOf([Get(m, "country")])),
      loanType := None,
      denom := Undefined,
      qualifiedBase := IntOf([Get(m, "qualified_base")]),
      activeBase := None,
      uniqueUsers := IntOf([Get(m, "unique_users")]),
      overallUniqueUsers := IntOf([Get(m, "overall_unique_users")]),
      lendingTransactions := IntOf([Get(m, "lending_txns"), Get(m, "lending_transactions")]),
      grossLent := FloatOf([Get(m, "gross_lent")]),
      principalLent := FloatOf([Get(m, "principal_lent"), Get(m, "net_lent")]),
      serviceFeeLent := FloatOf([Get(m, "sfee_lent"), Get(m, "service_fee_lent")]),
      lateFeesCharged := FloatOf([Get(m, "late_fees_charged")]),
      setupFeesCharged := FloatOf([Get(m, "setup_fees_charged")]),
      interestFeesCharged := FloatOf([Get(m, "interest_fees_charged")]),
      recoveryTransactions := IntOf([Get(m, "recovery_txns"), Get(m, "recovery_transactions")]),
      grossRecovered := FloatOf([Get(m, "gross_rec"), Get(m, "gross_recovered")]),
      principalRecovered := FloatOf([Get(m, "principal_rec"), Get(m, "principal_recovered")]),
      serviceFeeRecovered := FloatOf([Get(m, "sfee_rec"), Get(m, "service_fee_recovered")]),
      lateFeesRecovered := FloatOf([Get(m, "late_fees_rec"), Get(m, "late_fees_recovered")]),
      setupFeesRecovered := FloatOf([Get(m, "setup_fees_rec")]),
      interestFeesRecovered := FloatOf([Get(m, "interest_fees_rec")]),
      fxRate := FloatOrZero(TextOf([Get(m, "exchange_rate"), Get(m, "fx_rate")])))
  }

  /** `s.split(" ")[0] || ""` and `s.split(" ")[1] || ""`: the words before the
      first and the second space. */
  function TelcoCountry(s: string): (string, string) {
    var parts := Split(s, ' ');
    (parts[0], if |parts| > 1 then parts[1] else "")
  }

  /** The legacy layout: telco and country share one column separated by a space,
      amounts are integers, and the fields of the new layout are 0. */
  function LegacyRecord(m: Row): Segment {
    var (telco, country) := TelcoCountry(TextOf([Get(m, "telco_country")]));
    Segment(
      date := TextOf([Get(m, "date")]),
      telco := Some(telco),
      country := Some(country),
      loanType := None,
      denom := Undefined,
      qualifiedBase := IntOf([Get(m, "qualified_base")]),
      activeBase := Some(IntOf([Get(m, "active_base")])),
      uniqueUsers := 0.0,
      overallUniqueUsers := 0.0,
      lendingTransactions := IntOf([Get(m, "lending_transactions")]),
      grossLent := IntOf([Get(m, "gross_lent")]),
      principalLent := IntOf([Get(m, "net_lent")]),
      serviceFeeLent := IntOf([Get(m, "service_fee_lent")]),
      lateFeesCharged := IntOf([Get(m, "late_fees_charged")]),
      setupFeesCharged := 0.0,
      interestFeesCharged := 0.0,
      recoveryTransactions := IntOf([Get(m, "recovery_transactions")]),
      grossRecovered := IntOf([Get(m, "gross_recovered")]),
      principalRecovered := IntOf([Get(m, "principal_recovered")]),
      serviceFeeRecovered := IntOf([Get(m, "service_fee_recovered")]),
      lateFeesRecovered := IntOf([Get(m, "late_fees_recovered")]),
      setupFeesRecovered := 0.0,
      interestFeesRecovered := 0.0,
      fxRate := FloatOrZero(TextOf([Get(m, "fx_rate")])))
  }

  function RecordOf(isNew: bool, m: Row): Segment {
    if isNew then NewFormatRecord(m) else LegacyRecord(m)
  }

  /** How `sanitizeColumns` reads one row. */
  function RowReader(isNew: bool): RawRow -> Segment {
    row => RecordOf(isNew, NormalizedRow(row))
  }

  /** What `sanitizeColumns` returns: one record per row, in order, every row
      read in the layout the headers announce. */
  function Sanitized(rawData: seq<RawRow>, isNew: bool): seq<Segment> {
    MapSeq(rawData, RowReader(isNew))
  }

  /** `sanitizeColumns` */
  method SanitizeColumns(rawData: seq<RawRow>, headers: seq<string>) returns (out: seq<Segment>)
    ensures out == Sanitized(rawData, IsNewFormat(headers))
  {
    var isNew := IsNewFormat(headers);
    out := [];
    var i := 0;
    while i < |rawData|
      invariant 0 <= i <= |rawData|
      invariant out == Sanitized(rawData[..i], isNew)
    {
      var m := NormalizeRow(rawData[i]);
      MapSeqSnoc(rawData, RowReader(isNew), i);
      out := out + [RecordOf(isNew, m)];
      i := i + 1;
    }
    TakeAll(rawData);
  }

  // ---------------------------------------------------------------------------
  // What the records look like downstream

  /** A CSV record carries a telco and a country, and neither a loan type nor a
      denomination. */
  predicate FromCsv(r: Segment) {
    r.telco.Some? && r.country.Some? && r.loanType.None? && r.denom == Undefined
  }

  lemma NewFormatShape(m: Row)
    ensures FromCsv(NewFormatRecord(m))
    ensures NewFormatRecord(m).activeBase.None?
  {
  }

  lemma LegacyShape(m: Row)
    ensures FromCsv(LegacyRecord(m))
    ensures LegacyRecord(m).activeBase.Some?
    ensures var r := LegacyRecord(m);
            r.uniqueUsers == 0.0 && r.overallUniqueUsers == 0.0 && r.setupFeesCharged == 0.0
            && r.interestFeesCharged == 0.0 && r.setupFeesRecovered == 0.0 && r.interestFeesRecovered == 0.0
  {
  }

  /** With no loan type and no denomination, only the telco rule and the
      positive-amount rule of the business filter can reject a CSV record. */
  lemma CsvRecordFilter(r: Segment)
    requires FromCsv(r)
    ensures IsValid(r) <==> (TelcoAllowed(r) && r.grossLent > 0.0)
  {
  }

  /** A legacy "Telco Country" text with one space splits into the telco and the
      country. */
  lemma TelcoCountrySplits(telco: string, country: string)
    requires ' ' !in telco && ' ' !in country
    ensures TelcoCountry(telco + " " + country) == (telco, country)
  {
    var s := telco + " " + country;
    assert Split(country, ' ') == [country];
    assert ' ' in s by {
      assert s[|telco|] == ' ';
    }
    var i := IndexOf(s, ' ');
    assert s[..|telco|] == telco;
    assert i == |telco|;
    assert s[..i] == telco;
    assert s[i + 1..] == country;
    assert Split(s, ' ') == [telco, country];
  }

  /** A text without a space is all telco and no country. */
  lemma TelcoCountryNoSpace(s: string)
    requires ' ' !in s
    ensures TelcoCountry(s) == (s, "")
  {
  }

  lemma NoCommaInIntToString(n: int)
    ensures ',' !in IntToString(n)
  {
    assert AllDigits(NatToString(if n < 0 then -n else n));
  }

  /** The two layouts parse amounts differently, the legacy one as integers and
      the new one as decimals, but agree on every whole amount: a numeric cell
      holding `n` reads as `n` either way. */
  lemma WholeAmountsAgree(c: Cell, n: int)
    requires c == Number(n as real, IntToString(n))
    ensures IntOf([c]) == n as real
    ensures FloatOf([c]) == n as real
  {
    if n == 0 {
      EmptyReadsAsZero();
      assert FirstText([c]) == "";
    } else {
      var t := IntToString(n);
      assert FirstText([c]) == t;
      NoCommaInIntToString(n);
      StripCommasNoComma(t);
      WholeIntText(n);
      WholeFloatText(n);
    }
  }

  /** An amount written with thousands separators, such as "12,345", reads as
      the number its digits spell, whether parsed as an integer or a decimal. */
  lemma GroupedAmount(s: string)
    requires GroupedDigits(s)
    ensures IntOf([Text(s)]) == GroupedValue(s) as real
    ensures FloatOf([Text(s)]) == GroupedValue(s) as real
  {
    assert FirstText([Text(s)]) == s;
    var t := StripCommas(s);
    StripCommasGrouped(s);
    DigitsParse(t);
    assert IntOf([Text(s)]) == IntOrZero(t);
    assert FloatOf([Text(s)]) == FloatOrZero(t);
  }

  /** For instance "12,345" is 12345. */
  lemma ThousandsSeparated()
    ensures IntOf([Text("12,345")]) == 12345.0
    ensures FloatOf([Text("12,345")]) == 12345.0
  {
    var s := "12,345";
    assert GroupedDigits(s) by {
      assert forall i :: 0 <= i < |s| ==> IsDigit(s[i]) || s[i] == ',';
    }
    GroupedAmount(s);
    SpelledValue();
  }

  /** Text that starts with neither a digit, a sign, a point, a comma nor white
      space is not a number, and the `|| 0` fallback makes it 0. */
  lemma NonNumericReadsAsZero(s: string)
    requires s != [] && !IsDigit(s[0]) && !IsSpace(s[0])
    requires s[0] != '-' && s[0] != '+' && s[0] != '.' && s[0] != ','
    ensures IntOf([Text(s)]) == 0.0
    ensures FloatOf([Text(s)]) == 0.0
  {
    assert FirstText([Text(s)]) == s;
    StripCommasKeeps(s);
    var t := StripCommas(s);
    assert t != [] && t[0] == s[0];
    assert TrimStart(t) == t;
    assert SignAndBody(t) == (false, t);
    assert DigitPrefix(t) == [];
    assert t[0..] == t;
  }

  /** For instance "abc" is 0. */
  lemma LettersReadAsZero()
    ensures IntOf([Text("abc")]) == 0.0
    ensures FloatOf([Text("abc")]) == 0.0
  {
    NonNumericReadsAsZero("abc");
  }

  /** In the records `sanitizeColumns` returns, a gross-lent cell written with
      thousands separators is the number its digits spell, in either layout. */
  lemma SanitizedGrossLentGrouped(rawData: seq<RawRow>, isNew: bool, i: nat, s: string)
    requires i < |rawData|
    requires Get(NormalizedRow(rawData[i]), "gross_lent") == Text(s) && GroupedDigits(s)
    ensures Sanitized(rawData, isNew)[i].grossLent == GroupedValue(s) as real
  {
    MapSeqAt(rawData, RowReader(isNew), i);
    var m := NormalizedRow(rawData[i]);
    assert Sanitized(rawData, isNew)[i] == RecordOf(isNew, m);
    GroupedAmount(s);
    if isNew {
      assert NewFormatRecord(m).grossLent == FloatOf([Text(s)]);
    } else {
      assert LegacyRecord(m).grossLent == IntOf([Text(s)]);
    }
  }

  lemma EmptyReadsAsZero()
    ensures IntOrZero(StripCommas("")) == 0.0 && FloatOrZero(StripCommas("")) == 0.0
  {
    assert StripCommas("") == "";
    assert DigitPrefix("") == "";
  }

  lemma WholeIntText(n: int)
    ensures IntOrZero(IntToString(n)) == n as real
  {
    ParseIntOfIntToString(n);
  }

  lemma WholeFloatText(n: int)
    ensures FloatOrZero(IntToString(n)) == n as real
  {
    ParseFloatOfIntToString(n);
  }
}

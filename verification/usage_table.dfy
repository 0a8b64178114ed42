/** The usage table's cell formatters, its CSV export and the summary line
    under the table. The rows are whatever the table currently shows, after
    its own sorting and filtering. */
module UsageTable {
  import opened Wrappers
  import opened Text
  import opened Seqs
  import opened Records

  /* ---------- the H:MM:SS formatter ---------- */

  /** JavaScript's `%`: the remainder of division truncated toward zero, so
      it takes the sign of the dividend. */
  function JsRem(a: int, b: int): (r: int)
    requires b > 0
    ensures -b < r < b
    ensures a >= 0 ==> r >= 0
    ensures a < 0 ==> r <= 0
    ensures a == b * (if a >= 0 then a / b else -((-a) / b)) + r
  {
    if a >= 0 then a % b else -((-a) % b)
  }

  /** `${n < 10 ? '0' : ''}${n}`. */
  function Pad2(n: int): string {
    (if n < 10 then "0" else "") + IntToDecimal(n)
  }

  /** `formatHours`: decimal hours as "h:MM:SS", truncated to whole seconds.
      Dafny's `/` with a positive divisor rounds down, as `Math.floor` does. */
  function FormatHours(decimalHours: real): string {
    if decimalHours == 0.0 then "0:00:00"
    else
      var totalSeconds := (decimalHours * 3600.0).Floor;
      var hours := totalSeconds / 3600;
      var minutes := JsRem(totalSeconds, 3600) / 60;
      var seconds := JsRem(totalSeconds, 60);
      IntToDecimal(hours) + ":" + Pad2(minutes) + ":" + Pad2(seconds)
  }

  /** Reads "h:MM:SS" — digits, then exactly two digits below 60 twice —
      back into a number of seconds. */
  function ReadClock(s: string): Option<nat> {
    var parts := Split(s, ':');
    if |parts| == 3
      && |parts[0]| > 0 && AllDigits(parts[0])
      && |parts[1]| == 2 && AllDigits(parts[1]) && DecimalValue(parts[1]) < 60
      && |parts[2]| == 2 && AllDigits(parts[2]) && DecimalValue(parts[2]) < 60
    then Some(DecimalValue(parts[0]) * 3600 + DecimalValue(parts[1]) * 60 + DecimalValue(parts[2]))
    else None
  }

  /* ---------- the average-session cell ---------- */

  /** Hours per session, or 0 for a record without sessions. */
  function AverageSession(r: UsageRecord): (avg: real)
    ensures Sessions(r) > 0 ==> avg * Sessions(r) as real == Hours(r)
    ensures Sessions(r) == 0 ==> avg == 0.0
  {
    Ratio(Hours(r), Sessions(r))
  }

  function AverageSessionCell(r: UsageRecord): string {
    FormatHours(AverageSession(r))
  }

  /* ---------- CSV export ---------- */

  /** A column's `Header` and `accessor`; an empty accessor means none. */
  datatype Column = Column(header: string, accessor: string)

  /** The value `row.original[accessor]` yields. */
  datatype Value = Str(s: string) | Num(n: real) | Undefined

  /** The fields a usage record carries, by accessor name. */
  function Field(r: UsageRecord, accessor: string): Value {
    if accessor == "app" then Str(r.app)
    else if accessor == "total_hours" then
      (match r.totalHours case Some(h) => Num(h) case None => Undefined)
    else if accessor == "usage_count" then
      (match r.usageCount case Some(n) => Num(n as real) case None => Undefined)
    else if accessor == "username" then Str(r.username)
    else if accessor == "computerName" then Str(r.computerName)
    else if accessor == "ipAddress" then Str(r.ipAddress)
    else if accessor == "lastActivity" then
      (match r.lastActivity case Some(t) => Str(t) case None => Undefined)
    else Undefined
  }

  /** `rowData`: for each column with an accessor, in order,
      `rowData[Header] = row.original[accessor]`; a later column with the
      same header overwrites an earlier one. */
  function RowData(r: UsageRecord, columns: seq<Column>): map<string, Value>
    decreases |columns|
  {
    if |columns| == 0 then map[]
    else
      var c := columns[|columns| - 1];
      var m := RowData(r, columns[..|columns| - 1]);
      if c.accessor != "" then m[c.header := Field(r, c.accessor)] else m
  }

  /** `row[col.Header]`. */
  function Lookup(m: map<string, Value>, header: string): Value {
    if header in m then m[header] else Undefined
  }

  /** One cell as `join` renders it: a string with a comma is wrapped in
      double quotes (quotes inside are left as they are), other strings as
      they are, numbers through `numeral`, undefined as the empty string. */
  function CellText(v: Value, numeral: real -> string): string {
    match v
    case Str(s) => if ',' in s then "\"" + s + "\"" else s
    case Num(n) => numeral(n)
    case Undefined => ""
  }

  function HeaderLine(columns: seq<Column>): string {
    Join(seq(|columns|, i requires 0 <= i < |columns| => columns[i].header), ',')
  }

  function RowCells(r: UsageRecord, columns: seq<Column>, numeral: real -> string): (cells: seq<string>)
    ensures |cells| == |columns|
  {
    var m := RowData(r, columns);
    seq(|columns|, i requires 0 <= i < |columns| => CellText(Lookup(m, columns[i].header), numeral))
  }

  function RowLine(r: UsageRecord, columns: seq<Column>, numeral: real -> string): string {
    Join(RowCells(r, columns, numeral), ',')
  }

  function RowLines(rows: seq<UsageRecord>, columns: seq<Column>, numeral: real -> string): (lines: seq<string>)
    ensures |lines| == |rows|
    ensures forall i :: 0 <= i < |rows| ==> lines[i] == RowLine(rows[i], columns, numeral)
  {
    seq(|rows|, i requires 0 <= i < |rows| => RowLine(rows[i], columns, numeral))
  }

  /** `csvContent`: the header line, then one line per row, joined by "\n". */
  function Csv(rows: seq<UsageRecord>, columns: seq<Column>, numeral: real -> string): string {
    Join([HeaderLine(columns)] + RowLines(rows, columns, numeral), '\n')
  }

  /** The columns the table shows by default. */
  const DefaultColumns: seq<Column> := [
    Column("Application", "app"),
    Column("Total Hours", "total_hours"),
    Column("Sessions", "usage_count"),
    Column("Avg Session", "avg_session"),
    Column("Computer", "computerName"),
    Column("IP Address", "ipAddress"),
    Column("User", "username"),
    Column("Last Activity", "lastActivity")
  ]

  /* ---------- summary statistics ---------- */

  datatype SummaryStats = SummaryStats(
    totalHours: real,
    totalSessions: nat,
    uniqueApps: nat,
    uniqueUsers: nat,
    avgSessionTime: real)

  /** `getSummaryStats`. */
  function Summary(rows: seq<UsageRecord>): (st: SummaryStats)
    ensures st.totalHours == SumHours(rows) && st.totalSessions == SumSessions(rows)
    ensures st.uniqueApps == |Elems(Apps(rows))| && st.uniqueUsers == |Elems(Usernames(rows))|
    ensures st.totalSessions > 0 ==> st.avgSessionTime * st.totalSessions as real == st.totalHours
    ensures st.totalSessions == 0 ==> st.avgSessionTime == 0.0
  {
    var hours := SumHours(rows);
    var sessions := SumSessions(rows);
    SummaryStats(hours, sessions, |Elems(Apps(rows))|, |Elems(Usernames(rows))|, Ratio(hours, sessions))
  }
}

/** Properties of the table's formatters, export and summary. */
module UsageTableProperties {
  import opened Wrappers
  import opened Text
  import opened Seqs
  import opened Records
  import opened UsageTable

  /** A minutes or seconds field is always two digits that read back as the number. */
  lemma Pad2Facts(n: nat)
    requires n < 60
    ensures |Pad2(n)| == 2 && AllDigits(Pad2(n)) && DecimalValue(Pad2(n)) == n
  {
    DecimalRoundTrip(n);
    if n < 10 {
      assert Pad2(n) == "0" + NatToDecimal(n);
      assert Pad2(n)[..1] == "0";
    } else {
      assert NatToDecimal(n) == NatToDecimal(n / 10) + [DigitChar(n % 10)];
    }
  }

  /** Whole hours, minutes below an hour and seconds below a minute add back
      up to the seconds they were taken from. */
  lemma ClockArithmetic(total: nat)
    ensures 0 <= (total % 3600) / 60 < 60 && 0 <= total % 60 < 60
    ensures (total / 3600) * 3600 + ((total % 3600) / 60) * 60 + total % 60 == total
  {
    var q := total / 3600;
    var r := total % 3600;
    assert total == q * 3600 + r;
    var m := r / 60;
    var s := r % 60;
    assert r == m * 60 + s;
    assert total == (q * 60 + m) * 60 + s;
    assert total % 60 == s;
  }

  /** The clock text for a non-negative number of seconds reads back as it. */
  lemma ClockTextReadBack(total: nat)
    ensures ReadClock(IntToDecimal(total / 3600) + ":" + Pad2(JsRem(total, 3600) / 60) + ":" + Pad2(JsRem(total, 60)))
      == Some(total)
  {
    ClockArithmetic(total);
    var h := IntToDecimal(total / 3600);
    var mm := Pad2((total % 3600) / 60);
    var ss := Pad2(total % 60);
    Pad2Facts((total % 3600) / 60);
    Pad2Facts(total % 60);
    DecimalRoundTrip(total / 3600);
    assert ':' !in h;
    assert ':' !in mm;
    assert ':' !in ss;
    assert h + ":" + mm + ":" + ss == h + [':'] + (mm + [':'] + ss);
    SplitFirst(h, ':', mm + [':'] + ss);
    SplitFirst(mm, ':', ss);
    SplitNoSep(ss, ':');
  }

  /** For any non-negative number of hours the cell text is "h:MM:SS" with
      two-digit minutes and seconds below 60, and it reads back as the whole
      number of seconds in the input. */
  lemma ClockRoundTrip(decimalHours: real)
    requires decimalHours >= 0.0
    ensures ReadClock(FormatHours(decimalHours)) == Some((decimalHours * 3600.0).Floor)
  {
    var total := (decimalHours * 3600.0).Floor;
    ClockTextReadBack(total);
    if decimalHours == 0.0 {
      assert Pad2(0) == "00";
      assert IntToDecimal(0) + ":" + Pad2(0) + ":" + Pad2(0) == "0:00:00";
    }
  }

  /* ---------- CSV ---------- */

  /** `c` occurs in none of the record's text fields. */
  predicate FieldsFree(r: UsageRecord, c: char) {
    && c !in r.app && c !in r.username && c !in r.computerName && c !in r.ipAddress
    && (r.lastActivity.Some? ==> c !in r.lastActivity.value)
  }

  predicate ValueFree(v: Value, c: char) {
    v.Str? ==> c !in v.s
  }

  lemma FieldFree(r: UsageRecord, accessor: string, c: char)
    requires FieldsFree(r, c)
    ensures ValueFree(Field(r, accessor), c)
  {
  }

  lemma {:induction false} RowDataFree(r: UsageRecord, columns: seq<Column>, c: char)
    requires FieldsFree(r, c)
    ensures forall h :: h in RowData(r, columns) ==> ValueFree(RowData(r, columns)[h], c)
    decreases |columns|
  {
    if |columns| > 0 {
      RowDataFree(r, columns[..|columns| - 1], c);
      FieldFree(r, columns[|columns| - 1].accessor, c);
    }
  }

  /** What the export writes for column `c` of a record when headers are unique. */
  function ColumnValue(r: UsageRecord, c: Column): Value {
    if c.accessor != "" then Field(r, c.accessor) else Undefined
  }

  predicate DistinctHeaders(columns: seq<Column>) {
    forall i, j :: 0 <= i < j < |columns| ==> columns[i].header != columns[j].header
  }

  /** The average-session cell is the clock text of the average: for a
      record with non-negative hours it reads back as the average session
      in whole seconds. */
  lemma AverageSessionCellReadBack(r: UsageRecord)
    requires Hours(r) >= 0.0
    ensures AverageSession(r) >= 0.0
    ensures ReadClock(AverageSessionCell(r)) == Some((AverageSession(r) * 3600.0).Floor)
  {
    ClockRoundTrip(AverageSession(r));
  }

  /** The table's own columns have distinct headers, so the lemmas below
      that need distinct headers apply to the default export. */
  lemma DefaultHeadersDistinct()
    ensures DistinctHeaders(DefaultColumns)
  {
  }

  /** With distinct headers each cell holds its own column's field. */
  lemma {:induction false} RowDataLookup(r: UsageRecord, columns: seq<Column>, i: nat)
    requires DistinctHeaders(columns) && i < |columns|
    ensures Lookup(RowData(r, columns), columns[i].header) == ColumnValue(r, columns[i])
    decreases |columns|
  {
    var n := |columns| - 1;
    var init := columns[..n];
    assert DistinctHeaders(init);
    if i < n {
      RowDataLookup(r, init, i);
      assert init[i] == columns[i];
    } else {
      assert forall k :: 0 <= k < n ==> init[k].header != columns[i].header;
      HeaderAbsent(r, init, columns[i].header);
    }
  }

  /** A header no column carries is never a key of the row data. */
  lemma {:induction false} HeaderAbsent(r: UsageRecord, columns: seq<Column>, h: string)
    requires forall k :: 0 <= k < |columns| ==> columns[k].header != h
    ensures h !in RowData(r, columns)
    decreases |columns|
  {
    if |columns| > 0 {
      HeaderAbsent(r, columns[..|columns| - 1], h);
    }
  }

  /** Column `c` writes a value under header `h`: it carries that header
      and has an accessor. */
  predicate Supplies(c: Column, h: string) {
    c.header == h && c.accessor != ""
  }

  /** Under a header no column with an accessor carries, the row data
      holds nothing: columns without an accessor never write. */
  lemma {:induction false} RowDataNoSupplier(r: UsageRecord, columns: seq<Column>, h: string)
    requires forall j :: 0 <= j < |columns| ==> !Supplies(columns[j], h)
    ensures Lookup(RowData(r, columns), h) == Undefined
    decreases |columns|
  {
    if |columns| > 0 {
      var init := columns[..|columns| - 1];
      assert forall k :: 0 <= k < |init| ==> init[k] == columns[k];
      RowDataNoSupplier(r, init, h);
    }
  }

  /** The general rule for shared headers: under header `h` the row data
      holds the field of the last column that supplies `h`; later columns
      with that header but no accessor do not overwrite it. */
  lemma {:induction false} RowDataLastSupplier(r: UsageRecord, columns: seq<Column>, h: string, j: nat)
    requires j < |columns| && Supplies(columns[j], h)
    requires forall k :: j < k < |columns| ==> !Supplies(columns[k], h)
    ensures Lookup(RowData(r, columns), h) == Field(r, columns[j].accessor)
    decreases |columns|
  {
    var n := |columns| - 1;
    var init := columns[..n];
    if j < n {
      assert forall k :: 0 <= k < n ==> init[k] == columns[k];
      RowDataLastSupplier(r, init, h, j);
      assert !Supplies(columns[n], h);
      assert Lookup(RowData(r, columns), h) == Lookup(RowData(r, init), h);
    }
  }

  /** Two columns with the same header, both with an accessor: both cells
      show the value of the later one. */
  lemma DuplicateHeaderExample(r: UsageRecord)
    ensures var columns := [Column("User", "app"), Column("User", "username")];
      RowCells(r, columns, _ => "") == [CellText(Str(r.username), _ => ""), CellText(Str(r.username), _ => "")]
  {
  }

  /** A later column with the same header but no accessor does not
      overwrite: both cells show the earlier column's value. */
  lemma DuplicateHeaderNoAccessor(r: UsageRecord)
    ensures var columns := [Column("User", "app"), Column("User", "")];
      RowCells(r, columns, _ => "") == [CellText(Str(r.app), _ => ""), CellText(Str(r.app), _ => "")]
  {
  }

  /** A cell contains a comma only when it is a string with a comma, and
      then it is that string between double quotes, quotes inside untouched. */
  lemma CellQuoting(v: Value, numeral: real -> string)
    requires forall x :: ',' !in numeral(x)
    ensures ',' in CellText(v, numeral) <==> v.Str? && ',' in v.s
    ensures v.Str? && ',' in v.s ==> CellText(v, numeral) == "\"" + v.s + "\""
    ensures v.Str? && ',' !in v.s ==> CellText(v, numeral) == v.s
  {
  }

  /** Embedded double quotes are not escaped. */
  lemma QuotesNotEscaped()
    ensures CellText(Str("a,\"b\""), _ => "") == "\"a,\"b\"\""
  {
  }

  /** Without commas in the values, splitting a row line on commas gives back
      one cell per column, each its own column's value. */
  lemma RowLineFields(r: UsageRecord, columns: seq<Column>, numeral: real -> string)
    requires |columns| > 0 && DistinctHeaders(columns)
    requires FieldsFree(r, ',')
    requires forall x :: ',' !in numeral(x)
    ensures var cells := Split(RowLine(r, columns, numeral), ',');
      |cells| == |columns|
      && forall i :: 0 <= i < |columns| ==> cells[i] == CellText(ColumnValue(r, columns[i]), numeral)
  {
    var cells := RowCells(r, columns, numeral);
    forall i | 0 <= i < |columns|
      ensures cells[i] == CellText(ColumnValue(r, columns[i]), numeral) && ',' !in cells[i]
    {
      RowDataLookup(r, columns, i);
      FieldFree(r, columns[i].accessor, ',');
    }
    SplitJoin(cells, ',');
  }

  /** Without line breaks in headers, values or numerals, the export is one
      header line followed by exactly one line per row, in row order. */
  lemma CsvLines(rows: seq<UsageRecord>, columns: seq<Column>, numeral: real -> string)
    requires forall i :: 0 <= i < |columns| ==> '\n' !in columns[i].header
    requires forall i :: 0 <= i < |rows| ==> FieldsFree(rows[i], '\n')
    requires forall x :: '\n' !in numeral(x)
    ensures var lines := Split(Csv(rows, columns, numeral), '\n');
      |lines| == |rows| + 1
      && lines[0] == HeaderLine(columns)
      && forall i :: 0 <= i < |rows| ==> lines[i + 1] == RowLine(rows[i], columns, numeral)
  {
    var headers := seq(|columns|, i requires 0 <= i < |columns| => columns[i].header);
    JoinChars(headers, ',', '\n');
    var all := [HeaderLine(columns)] + RowLines(rows, columns, numeral);
    forall i | 0 <= i < |rows|
      ensures '\n' !in RowLine(rows[i], columns, numeral)
    {
      var m := RowData(rows[i], columns);
      RowDataFree(rows[i], columns, '\n');
      var cells := RowCells(rows[i], columns, numeral);
      forall k | 0 <= k < |cells|
        ensures '\n' !in cells[k]
      {
        var h := columns[k].header;
        if h in m {
          assert ValueFree(m[h], '\n');
        }
      }
      JoinChars(cells, ',', '\n');
    }
    assert forall i :: 1 <= i < |all| ==> all[i] == RowLine(rows[i - 1], columns, numeral);
    SplitJoin(all, '\n');
  }

  /* ---------- summary ---------- */

  /** Distinct counts never exceed the row count, are positive for a
      non-empty table, and the user count equals the length of the
      de-duplicated user list. */
  lemma SummaryBounds(rows: seq<UsageRecord>)
    ensures Summary(rows).uniqueApps <= |rows| && Summary(rows).uniqueUsers <= |rows|
    ensures |rows| > 0 ==> Summary(rows).uniqueApps >= 1 && Summary(rows).uniqueUsers >= 1
    ensures Summary(rows).uniqueUsers == |Dedup(Usernames(rows))|
  {
    ElemsBound(Apps(rows));
    ElemsBound(Usernames(rows));
    DedupSize(Usernames(rows));
  }
}

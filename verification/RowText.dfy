/**
 The text of a QUERY answer: a header line, then one line per row. Rendering,
 its length bounds, and the decoder that shows when no information is lost.
 */
module RowText {
  import opened Wrappers
  import opened CText
  import opened DecimalText
  import opened SensorTable

  function Header(): (s: string)
    ensures |s| == 63 && NoNul(s)
  {
    HeaderFront() + HeaderBack()
  }

  function HeaderFront(): (s: string)
    ensures |s| == 26 && NoNul(s)
  {
    "id | device_id | data_1 | "
  }

  function HeaderBack(): (s: string)
    ensures |s| == 37 && NoNul(s)
  {
    "data_2 | data_3 | data_4 | timestamp\n"
  }

  const SEP := " | "

  /** %s of a text column: nothing for NULL, and C strings end at their first NUL. */
  function ColumnText(column: Option<string>): string {
    match column
    case None => ""
    case Some(s) => UpToNul(s)
  }

  /** printf("%d") */
  function IntText(id: int): string {
    if id < 0 then "-" + NatText(-id) else NatText(id)
  }

  function NumberColumns(r: Reading): string {
    FixedText(r.data1) + SEP + FixedText(r.data2) + SEP + FixedText(r.data3) + SEP + FixedText(r.data4)
  }

  /** One line: "%d | %s | %.6f | %.6f | %.6f | %.6f | %s\n" */
  function RenderRow(r: Row): string
  {
    IntText(r.id) + SEP + ColumnText(Some(r.reading.device)) + SEP + NumberColumns(r.reading) + SEP
    + ColumnText(r.timestamp) + "\n"
  }

  function Lines(rows: seq<Row>): (lines: seq<string>)
    ensures |lines| == |rows| && forall i :: 0 <= i < |rows| ==> lines[i] == RenderRow(rows[i])
  {
    seq(|rows|, i requires 0 <= i < |rows| => RenderRow(rows[i]))
  }

  function RenderRows(rows: seq<Row>): string {
    Flatten(Lines(rows))
  }

  /** The text of one batch. */
  function BatchText(first: bool, rows: seq<Row>): string
  {
    (if first then Header() else "") + RenderRows(rows)
  }

  /** The one-shot rendering of a whole answer: nothing at all when no row matches. */
  function QueryText(rows: seq<Row>): string
  {
    if rows == [] then "" else BatchText(true, rows)
  }

  lemma Associate<T>(a: seq<T>, b: seq<T>, c: seq<T>)
    ensures (a + b) + c == a + (b + c)
  {
  }

  lemma RenderNone()
    ensures RenderRows([]) == ""
  {
  }

  lemma RenderConcat(a: seq<Row>, b: seq<Row>)
    ensures RenderRows(a + b) == RenderRows(a) + RenderRows(b)
  {
    hide RenderRow;
    assert Lines(a + b) == Lines(a) + Lines(b);
    FlattenConcat(Lines(a), Lines(b));
  }

  lemma RenderAppend(rows: seq<Row>, r: Row)
    ensures RenderRows(rows + [r]) == RenderRows(rows) + RenderRow(r)
  {
    hide RenderRow;
    assert Lines(rows + [r])[..|rows|] == Lines(rows);
  }

  lemma RenderSplit(rows: seq<Row>)
    requires rows != []
    ensures RenderRows(rows) == RenderRows(rows[..|rows| - 1]) + RenderRow(rows[|rows| - 1])
  {
    assert rows == rows[..|rows| - 1] + [rows[|rows| - 1]];
    RenderAppend(rows[..|rows| - 1], rows[|rows| - 1]);
  }

  /** Sending one more batch extends the one-shot rendering of what was sent before. */
  lemma BatchExtendsQueryText(sent: seq<Row>, batch: seq<Row>)
    requires batch != []
    ensures QueryText(sent + batch) == QueryText(sent) + BatchText(sent == [], batch)
  {
    hide Header;
    hide RenderRows;
    RenderConcat(sent, batch);
    if sent == [] {
      assert sent + batch == batch;
      assert RenderRows([]) == "" by { RenderNone(); }
    } else {
      Associate(Header(), RenderRows(sent), RenderRows(batch));
    }
  }

  // ---- what the text never contains ----

  lemma NumberColumnsNoNul(r: Reading)
    ensures NoNul(NumberColumns(r))
  {
    FixedTextBytes(r.data1);
    FixedTextBytes(r.data2);
    FixedTextBytes(r.data3);
    FixedTextBytes(r.data4);
  }

  lemma IntTextBytes(id: int)
    ensures forall i :: 0 <= i < |IntText(id)| ==> IsDigit(IntText(id)[i]) || IntText(id)[i] == '-'
  {
  }

  /** The rendering is itself a C string, so strlen of the buffer is the length written. */
  lemma {:induction false} RenderNoNul(rows: seq<Row>)
    ensures NoNul(RenderRows(rows))
  {
    if rows != [] {
      RenderSplit(rows);
      RenderNoNul(rows[..|rows| - 1]);
      var r := rows[|rows| - 1];
      NumberColumnsNoNul(r.reading);
      IntTextBytes(r.id);
    }
  }

  // ---- the header names the columns ----

  function ColumnNames(): (names: seq<string>)
    ensures |names| == 7
  {
    ["id", "device_id", "data_1", "data_2", "data_3", "data_4", "timestamp"]
  }

  /** What a row has in the column of this name. */
  function ColumnNamed(r: Row, name: string): string {
    match name
    case "id" => IntText(r.id)
    case "device_id" => UpToNul(r.reading.device)
    case "data_1" => FixedText(r.reading.data1)
    case "data_2" => FixedText(r.reading.data2)
    case "data_3" => FixedText(r.reading.data3)
    case "data_4" => FixedText(r.reading.data4)
    case "timestamp" => if r.timestamp.Some? then UpToNul(r.timestamp.value) else ""
    case _ => ""
  }

  /** Seven columns on a line. */
  function Line(columns: seq<string>): string
    requires |columns| == 7
  {
    columns[0] + SEP + columns[1] + SEP + columns[2] + SEP + columns[3] + SEP + columns[4] + SEP + columns[5] + SEP
    + columns[6] + "\n"
  }

  /** Header and rows have the same layout: under each name stands what the name says. A NULL column is empty. */
  lemma RowsFollowHeader(r: Row)
    ensures Header() == Line(ColumnNames())
    ensures RenderRow(r) == Line(seq(7, i requires 0 <= i < 7 => ColumnNamed(r, ColumnNames()[i])))
  {
    HeaderIsLine();
    hide Header, IntText, FixedText, Line;
    var columns := seq(7, i requires 0 <= i < 7 => ColumnNamed(r, ColumnNames()[i]));
    NamedColumns(r);
    LineIs(columns, r);
  }

  lemma HeaderIsLine()
    ensures Header() == Line(ColumnNames())
  {
    FrontNames();
    BackNames();
    var n := ColumnNames();
    hide HeaderFront, HeaderBack, ColumnNames;
    SplitLine(n[0] + SEP + n[1] + SEP + n[2] + SEP, n[3], n[4], n[5], n[6]);
  }

  lemma FrontNames()
    ensures var n := ColumnNames(); n[0] + SEP + n[1] + SEP + n[2] + SEP == HeaderFront()
  {
  }

  lemma BackNames()
    ensures var n := ColumnNames(); n[3] + SEP + n[4] + SEP + n[5] + SEP + n[6] + "\n" == HeaderBack()
  {
  }

  lemma SplitLine(head: string, a: string, b: string, c: string, d: string)
    ensures head + a + SEP + b + SEP + c + SEP + d + "\n" == head + (a + SEP + b + SEP + c + SEP + d + "\n")
  {
  }

  lemma NamedColumns(r: Row)
    ensures ColumnNamed(r, "id") == IntText(r.id) && ColumnNamed(r, "timestamp") == ColumnText(r.timestamp)
    ensures ColumnNamed(r, "device_id") == ColumnText(Some(r.reading.device))
    ensures ColumnNamed(r, "data_1") == FixedText(r.reading.data1)
    ensures ColumnNamed(r, "data_2") == FixedText(r.reading.data2)
    ensures ColumnNamed(r, "data_3") == FixedText(r.reading.data3)
    ensures ColumnNamed(r, "data_4") == FixedText(r.reading.data4)
  {
    hide IntText, FixedText;
  }

  lemma LineIs(columns: seq<string>, r: Row)
    requires |columns| == 7 && columns[0] == IntText(r.id) && columns[1] == ColumnText(Some(r.reading.device))
    requires columns[2] == FixedText(r.reading.data1) && columns[3] == FixedText(r.reading.data2)
    requires columns[4] == FixedText(r.reading.data3) && columns[5] == FixedText(r.reading.data4)
    requires columns[6] == ColumnText(r.timestamp)
    ensures RenderRow(r) == Line(columns)
  {
    hide IntText, FixedText, ColumnText;
    RegroupNumbers(columns[0] + SEP + columns[1] + SEP, columns[2], columns[3], columns[4], columns[5]);
  }

  lemma RegroupNumbers(head: string, a: string, b: string, c: string, d: string)
    ensures head + (a + SEP + b + SEP + c + SEP + d) == head + a + SEP + b + SEP + c + SEP + d
  {
  }

  // ---- length bounds ----

  /** What the parser and the schema guarantee of text columns, plus a bound on the magnitudes. */
  ghost predicate Modest(r: Row) {
    && |r.reading.device| <= 63
    && (r.timestamp.Some? ==> |r.timestamp.value| <= 19)
    && SmallValues(r.reading)
  }

  /** Every value has a magnitude below 10^14. */
  ghost predicate SmallValues(r: Reading) {
    forall v :: v in [r.data1, r.data2, r.data3, r.data4] ==> -Pow10(14) * MILLION < v < Pow10(14) * MILLION
  }

  lemma SmallNumberColumns(r: Reading)
    requires SmallValues(r)
    ensures |NumberColumns(r)| <= 97
  {
    var all := [r.data1, r.data2, r.data3, r.data4];
    assert all[0] in all && all[1] in all && all[2] in all && all[3] in all;
    FixedTextLength(r.data1, 14);
    FixedTextLength(r.data2, 14);
    FixedTextLength(r.data3, 14);
    FixedTextLength(r.data4, 14);
  }

  lemma IntFitsTenDigits()
    ensures INT_MAX < Pow10(10)
  {
    assert Pow10(2) == 100;
    assert Pow10(4) == 100 * Pow10(2);
    assert Pow10(6) == 100 * Pow10(4);
    assert Pow10(8) == 100 * Pow10(6);
    assert Pow10(10) == 100 * Pow10(8);
  }

  lemma ModestRowLength(r: Row)
    requires Modest(r) && 0 <= r.id <= INT_MAX
    ensures |RenderRow(r)| <= 199
  {
    IntFitsTenDigits();
    NatTextLength(r.id, 10);
    SmallNumberColumns(r.reading);
  }

  lemma {:induction false} ModestRowsLength(rows: seq<Row>)
    requires forall i :: 0 <= i < |rows| ==> Modest(rows[i]) && 0 <= rows[i].id <= INT_MAX
    ensures |RenderRows(rows)| <= 199 * |rows|
  {
    if rows != [] {
      RenderSplit(rows);
      ModestRowsLength(rows[..|rows| - 1]);
      ModestRowLength(rows[|rows| - 1]);
    }
  }

  /** A full batch of modest rows, header included, is at most 4043 bytes: it fits 4096. */
  lemma ModestBatchFits(first: bool, rows: seq<Row>)
    requires |rows| <= BATCH
    requires forall i :: 0 <= i < |rows| ==> Modest(rows[i]) && 0 <= rows[i].id <= INT_MAX
    ensures |BatchText(first, rows)| <= 4043
  {
    hide Header, RenderRows;
    ModestRowsLength(rows);
  }

  ghost predicate Huge(r: Row) {
    forall v :: v in [r.reading.data1, r.reading.data2, r.reading.data3, r.reading.data4] ==>
      v >= Pow10(300) * MILLION
  }

  lemma HugeRowLength(r: Row)
    requires Huge(r)
    ensures |RenderRow(r)| >= 1200
  {
    var all := [r.reading.data1, r.reading.data2, r.reading.data3, r.reading.data4];
    forall i | 0 <= i < 4 ensures |FixedText(all[i])| >= 300 {
      assert all[i] in all;
      HugeNumberLength(all[i]);
    }
    assert |FixedText(all[0])| + |FixedText(all[1])| + |FixedText(all[2])| + |FixedText(all[3])| >= 1200;
  }

  lemma HugeNumberLength(v: int)
    requires v >= Pow10(300) * MILLION
    ensures |FixedText(v)| >= 300
  {
    assert v / MILLION >= Pow10(300);
    NatTextLongerThan(v / MILLION, 300);
  }

  /** Four rows with values of 10^300 in one batch do not fit 4096 bytes. */
  lemma {:induction false} HugeRowsOverflow(first: bool, rows: seq<Row>)
    requires forall i :: 0 <= i < |rows| ==> Huge(rows[i])
    ensures |BatchText(first, rows)| >= 1200 * |rows|
    ensures |rows| >= 4 ==> |BatchText(first, rows)| >= 4096
  {
    hide Header;
    if rows != [] {
      RenderSplit(rows);
      HugeRowsOverflow(first, rows[..|rows| - 1]);
      HugeRowLength(rows[|rows| - 1]);
    }
  }
}

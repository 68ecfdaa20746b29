/**
 Reading a QUERY answer back: the header, then line by line, the id from the
 left and the last five columns from the right. A device id may itself contain
 the separator; it is whatever is left in the middle.
 */
module RowDecoding {
  import opened Wrappers
  import opened CText
  import opened DecimalText
  import opened SensorTable
  import opened RowText
  import opened CommandText

  /** One past the index of the last `c` in `s`, or 0. */
  function PastLastOf(s: string, c: char): (n: nat)
    ensures n <= |s| && c !in s[n..]
    ensures n > 0 ==> s[n - 1] == c
  {
    if s == "" then 0
    else if s[|s| - 1] == c then |s|
    else
      var n := PastLastOf(s[..|s| - 1], c);
      assert s[n..] == s[..|s| - 1][n..] + [s[|s| - 1]];
      n
  }

  /** Cuts " | " out around the bar at index `bar`. */
  function CutAt(s: string, bar: nat): Option<(string, string)> {
    if 1 <= bar && bar + 2 <= |s| && s[bar - 1..bar + 2] == SEP then Some((s[..bar - 1], s[bar + 2..]))
    else None
  }

  function CutFirst(s: string): Option<(string, string)> {
    CutAt(s, FirstOf(s, '|'))
  }

  function CutLast(s: string): Option<(string, string)> {
    var n := PastLastOf(s, '|');
    if n == 0 then None else CutAt(s, n - 1)
  }

  function ReadId(s: string): Option<int> {
    if s != "" && AllDigits(s) then Some(TextNat(s)) else None
  }

  function DecodeLine(line: string): Option<Row> {
    var (idText, rest) :- CutFirst(line);
    var (rest1, timestamp) :- CutLast(rest);
    var (rest2, text4) :- CutLast(rest1);
    var (rest3, text3) :- CutLast(rest2);
    var (rest4, text2) :- CutLast(rest3);
    var (device, text1) :- CutLast(rest4);
    var id :- ReadId(idText);
    var data1 :- ReadFixed(text1);
    var data2 :- ReadFixed(text2);
    var data3 :- ReadFixed(text3);
    var data4 :- ReadFixed(text4);
    Some(Row(id, Reading(device, data1, data2, data3, data4), Some(timestamp)))
  }

  function DecodeLines(s: string): Option<seq<Row>>
    decreases |s|
  {
    if s == "" then Some([])
    else
      var n := FirstOf(s, '\n');
      if n == |s| then None
      else
        var row :- DecodeLine(s[..n]);
        var rows :- DecodeLines(s[n + 1..]);
        Some([row] + rows)
  }

  function Decode(text: string): Option<seq<Row>> {
    if text == "" then Some([])
    else if Header() <= text then DecodeLines(text[|Header()|..])
    else None
  }

  /** What SQLite and the parser guarantee of a stored row: C strings, and a real timestamp. */
  ghost predicate Stored(r: Row) {
    && r.id >= 0
    && NoNul(r.reading.device)
    && r.timestamp.Some? && NoNul(r.timestamp.value)
    && '|' !in r.timestamp.value && '\n' !in r.timestamp.value
  }

  // ---- cutting undoes joining ----

  lemma {:induction false} PastLastOfBefore(x: string, y: string, c: char)
    requires c !in y
    ensures PastLastOf(x + y, c) == PastLastOf(x, c)
  {
    if y == "" {
      assert x + y == x;
    } else {
      assert (x + y)[..|x + y| - 1] == x + y[..|y| - 1];
      PastLastOfBefore(x, y[..|y| - 1], c);
    }
  }

  lemma CutAtJoint(x: string, y: string)
    ensures CutAt(x + SEP + y, |x| + 1) == Some((x, y))
  {
    var s := x + SEP + y;
    assert s[|x|..|x| + 3] == SEP;
    assert s[..|x|] == x && s[|x| + 3..] == y;
  }

  lemma CutFirstJoint(x: string, y: string)
    requires '|' !in x
    ensures CutFirst(x + SEP + y) == Some((x, y))
  {
    var s := x + SEP + y;
    assert s == (x + " ") + ("| " + y);
    FirstOfAfter(x + " ", "| " + y, '|');
    CutAtJoint(x, y);
  }

  lemma CutLastJoint(x: string, y: string)
    requires '|' !in y
    ensures CutLast(x + SEP + y) == Some((x, y))
  {
    var s := x + SEP + y;
    assert s == (x + " |") + (" " + y);
    PastLastOfBefore(x + " |", " " + y, '|');
    CutAtJoint(x, y);
  }

  lemma NumberHasNoBar(v: int)
    ensures '|' !in FixedText(v) && '\n' !in FixedText(v)
  {
    FixedTextBytes(v);
  }

  /** The line of a row, regrouped so that one separator at a time comes off the right end. */
  lemma RegroupLine(r: Row)
    requires Stored(r)
    ensures var c := r.reading;
            var m1 := c.device + SEP + FixedText(c.data1);
            var m2 := m1 + SEP + FixedText(c.data2);
            var m3 := m2 + SEP + FixedText(c.data3);
            var m4 := m3 + SEP + FixedText(c.data4);
            RenderRow(r) == IntText(r.id) + SEP + (m4 + SEP + r.timestamp.value) + "\n"
  {
    UpToNulUnique(r.reading.device, r.reading.device);
    UpToNulUnique(r.timestamp.value, r.timestamp.value);
    RegroupPieces(IntText(r.id), r.reading.device, FixedText(r.reading.data1), FixedText(r.reading.data2),
                  FixedText(r.reading.data3), FixedText(r.reading.data4), r.timestamp.value);
  }

  lemma RegroupPieces(id: string, d: string, a: string, b: string, c: string, e: string, t: string)
    ensures id + SEP + d + SEP + (a + SEP + b + SEP + c + SEP + e) + SEP + t + "\n"
         == id + SEP + (d + SEP + a + SEP + b + SEP + c + SEP + e + SEP + t) + "\n"
  {
  }

  /** Every stored row is recovered from its own line, whatever bars its device id contains. */
  lemma LineDecodes(r: Row)
    requires Stored(r)
    ensures var line := RenderRow(r);
            |line| >= 1 && DecodeLine(line[..|line| - 1]) == Some(r)
  {
    hide FixedText, IntText, CutFirst, CutLast, ReadFixed, RenderRow, ReadId;
    var c := r.reading;
    var m1 := c.device + SEP + FixedText(c.data1);
    var m2 := m1 + SEP + FixedText(c.data2);
    var m3 := m2 + SEP + FixedText(c.data3);
    var m4 := m3 + SEP + FixedText(c.data4);
    var body := IntText(r.id) + SEP + (m4 + SEP + r.timestamp.value);
    assert RenderRow(r) == body + "\n" by { RegroupLine(r); }
    assert RenderRow(r)[..|RenderRow(r)| - 1] == body;
    IdReadsBack(r.id);
    NumberHasNoBar(c.data1);
    NumberHasNoBar(c.data2);
    NumberHasNoBar(c.data3);
    NumberHasNoBar(c.data4);
    CutFirstJoint(IntText(r.id), m4 + SEP + r.timestamp.value);
    CutLastJoint(m4, r.timestamp.value);
    CutLastJoint(m3, FixedText(c.data4));
    CutLastJoint(m2, FixedText(c.data3));
    CutLastJoint(m1, FixedText(c.data2));
    CutLastJoint(c.device, FixedText(c.data1));
    FixedReadsBack(c.data1);
    FixedReadsBack(c.data2);
    FixedReadsBack(c.data3);
    FixedReadsBack(c.data4);
  }

  lemma IdReadsBack(id: nat)
    ensures ReadId(IntText(id)) == Some(id) && '|' !in IntText(id) && Newlines(IntText(id)) == 0
  {
    IntTextBytes(id);
    NatTextReadsBack(id);
    NewlinesAbsent(IntText(id));
  }

  // ---- newlines ----

  function Newlines(s: string): nat {
    multiset(s)['\n']
  }

  lemma NewlinesConcat(x: string, y: string)
    ensures Newlines(x + y) == Newlines(x) + Newlines(y)
  {
    assert multiset(x + y) == multiset(x) + multiset(y);
  }

  lemma NewlinesJoint(x: string, y: string)
    ensures Newlines(x + SEP + y) == Newlines(x) + Newlines(y)
  {
    NewlinesConcat(x + SEP, y);
    NewlinesConcat(x, SEP);
  }

  lemma NewlineItself()
    ensures Newlines("\n") == 1
  {
  }

  lemma NewlinesAbsent(s: string)
    ensures Newlines(s) == 0 <==> '\n' !in s
  {
    assert '\n' in multiset(s) <==> '\n' in s;
  }

  /** A line ends in the only newline that is not part of the device id. */
  lemma LineNewlines(r: Row)
    requires Stored(r)
    ensures var line := RenderRow(r);
            && |line| >= 1 && line[|line| - 1] == '\n'
            && Newlines(line[..|line| - 1]) == Newlines(r.reading.device)
  {
    hide Newlines, FixedText, IntText, RenderRow;
    var c := r.reading;
    var m1 := c.device + SEP + FixedText(c.data1);
    var m2 := m1 + SEP + FixedText(c.data2);
    var m3 := m2 + SEP + FixedText(c.data3);
    var m4 := m3 + SEP + FixedText(c.data4);
    var body := IntText(r.id) + SEP + (m4 + SEP + r.timestamp.value);
    assert RenderRow(r) == body + "\n" by { RegroupLine(r); }
    assert RenderRow(r)[..|RenderRow(r)| - 1] == body;
    IdReadsBack(r.id);
    NewlinesAbsent(r.timestamp.value);
    NumberNewlines(c.data1);
    NumberNewlines(c.data2);
    NumberNewlines(c.data3);
    NumberNewlines(c.data4);
    NewlinesJoint(c.device, FixedText(c.data1));
    NewlinesJoint(m1, FixedText(c.data2));
    NewlinesJoint(m2, FixedText(c.data3));
    NewlinesJoint(m3, FixedText(c.data4));
    NewlinesJoint(m4, r.timestamp.value);
    NewlinesJoint(IntText(r.id), m4 + SEP + r.timestamp.value);
  }

  lemma NumberNewlines(v: int)
    ensures Newlines(FixedText(v)) == 0
  {
    NumberHasNoBar(v);
    NewlinesAbsent(FixedText(v));
  }

  /** A decoded text has as many rows as it has newlines. */
  lemma {:induction false} DecodedRowsAreNewlines(s: string)
    requires DecodeLines(s).Some?
    ensures |DecodeLines(s).value| == Newlines(s)
    decreases |s|
  {
    hide DecodeLine, Newlines;
    NewlineItself();
    if s == "" {
      NewlinesAbsent(s);
    } else {
      var n := FirstOf(s, '\n');
      assert s == s[..n] + ("\n" + s[n + 1..]);
      DecodedRowsAreNewlines(s[n + 1..]);
      NewlinesAbsent(s[..n]);
      NewlinesConcat(s[..n], "\n" + s[n + 1..]);
      NewlinesConcat("\n", s[n + 1..]);
    }
  }

  ghost predicate AllStored(rows: seq<Row>) {
    forall i :: 0 <= i < |rows| ==> Stored(rows[i])
  }

  ghost predicate SingleLine(rows: seq<Row>) {
    forall i :: 0 <= i < |rows| ==> '\n' !in rows[i].reading.device
  }

  lemma RenderFirst(rows: seq<Row>)
    requires rows != []
    ensures RenderRows(rows) == RenderRow(rows[0]) + RenderRows(rows[1..])
  {
    hide RenderRow, RenderRows;
    RenderNone();
    RenderAppend([], rows[0]);
    assert [] + [rows[0]] == [rows[0]];
    RenderConcat([rows[0]], rows[1..]);
    assert rows == [rows[0]] + rows[1..];
  }

  /** The whole text has one newline per row, and those inside device ids on top. */
  lemma {:induction false} RowsNewlines(rows: seq<Row>)
    requires AllStored(rows)
    ensures Newlines(RenderRows(rows)) >= |rows|
    ensures !SingleLine(rows) ==> Newlines(RenderRows(rows)) > |rows|
  {
    hide RenderRow, RenderRows, Newlines;
    RenderNone();
    NewlineItself();
    NewlinesAbsent("");
    if rows != [] {
      RowsNewlines(rows[1..]);
      RenderFirst(rows);
      var line := RenderRow(rows[0]);
      LineNewlines(rows[0]);
      NewlinesAbsent(rows[0].reading.device);
      assert line == line[..|line| - 1] + "\n";
      NewlinesConcat(line[..|line| - 1], "\n");
      NewlinesConcat(line, RenderRows(rows[1..]));
    }
  }

  lemma FirstLineSplits(line: string, rest: string)
    requires |line| >= 1 && line[|line| - 1] == '\n' && '\n' !in line[..|line| - 1]
    ensures var s := line + rest;
            FirstOf(s, '\n') == |line| - 1 && s[..|line| - 1] == line[..|line| - 1] && s[|line|..] == rest
  {
    FirstOfAfter(line[..|line| - 1], "\n" + rest, '\n');
    assert line + rest == line[..|line| - 1] + ("\n" + rest);
  }

  lemma {:induction false} LinesDecode(rows: seq<Row>)
    requires AllStored(rows) && SingleLine(rows)
    ensures DecodeLines(RenderRows(rows)) == Some(rows)
  {
    hide RenderRow, RenderRows, DecodeLine, Newlines;
    RenderNone();
    if rows != [] {
      var line := RenderRow(rows[0]);
      LinesDecode(rows[1..]);
      RenderFirst(rows);
      LineNewlines(rows[0]);
      NewlinesAbsent(rows[0].reading.device);
      NewlinesAbsent(line[..|line| - 1]);
      LineDecodes(rows[0]);
      FirstLineSplits(line, RenderRows(rows[1..]));
      assert rows == [rows[0]] + rows[1..];
    }
  }

  lemma TextHasHeader(rows: seq<Row>)
    requires rows != []
    ensures QueryText(rows) == Header() + RenderRows(rows) && Header() <= QueryText(rows)
    ensures QueryText(rows)[|Header()|..] == RenderRows(rows) && QueryText(rows) != ""
  {
    hide Header, RenderRows;
  }

  /**
   Six decimals and the column layout lose nothing: the answer to a QUERY
   decodes to exactly the rows selected - if and only if no device id contains
   a line break (the parser trims device ids only at their ends).
   */
  lemma AnswerDecodes(rows: seq<Row>)
    requires AllStored(rows)
    ensures Decode(QueryText(rows)) == Some(rows) <==> SingleLine(rows)
  {
    hide Header, RenderRows, DecodeLines;
    if rows != [] {
      TextHasHeader(rows);
      if SingleLine(rows) {
        LinesDecode(rows);
      } else if DecodeLines(RenderRows(rows)).Some? {
        DecodedRowsAreNewlines(RenderRows(rows));
        RowsNewlines(rows);
      }
    }
  }

  function BrokenReading(): Reading {
    Reading("A\nB", 0, 0, 0, 0)
  }

  /**
   The failing input: a device id with a line break inside is accepted by the
   parser, and a row that stores it is not recovered from the answer holding it.
   */
  lemma LineBreakArrives(c: Libc, id: nat, timestamp: string)
    requires Platform(c) && ReadsBack(c, 0)
    requires NoNul(timestamp) && '|' !in timestamp && '\n' !in timestamp
    ensures ParseCommand(Print(Sensor(BrokenReading())), c) == Some(Sensor(BrokenReading()))
    ensures var rows := [Row(id, BrokenReading(), Some(timestamp))];
            Decode(QueryText(rows)) != Some(rows)
  {
    hide ParseCommand, ReadsBack, QueryText, Decode, FixedText;
    BrokenReadingIsSmall();
    PrintParses(Sensor(BrokenReading()), c);
    var rows := [Row(id, BrokenReading(), Some(timestamp))];
    assert rows[0].reading.device[1] == '\n';
    AnswerDecodes(rows);
  }

  lemma BrokenReadingIsSmall()
    ensures SmallValues(BrokenReading()) && Sensible(Sensor(BrokenReading()))
  {
  }
}

/** The reply texts of the protocol, and which replies are right for a command on a given table. */
module Replies {
  import opened Wrappers
  import opened CText
  import opened DecimalText
  import opened SensorTable
  import opened RowText
  import opened CommandText

  function WelcomeText(): (s: string)
    ensures 1 <= |s| <= 200 && NoNul(s)
  {
    "TCP Sensor Gateway," + "Type HELP for available commands.\n"
  }

  function OkText(): (s: string)
    ensures 1 <= |s| <= 200 && NoNul(s)
  {
    "OK\n"
  }

  function ErrorText(): (s: string)
    ensures 1 <= |s| <= 200 && NoNul(s)
  {
    "ERROR\n"
  }

  function HelpTitle(): (s: string)
    ensures 1 <= |s| <= 200 && NoNul(s)
  {
    "TCP Sensor Gateway\n" + "==================\n"
  }

  function HelpCommands(): (s: string)
    ensures 1 <= |s| <= 200 && NoNul(s)
  {
    "Commands:\n" + "  SENSOR  Upload sensor data\n" + HelpReading()
  }

  function HelpReading(): (s: string)
    ensures 1 <= |s| <= 100 && NoNul(s)
  {
    "  QUERY   Query records\n" + "  HELP    Show help\n" + "\n"
  }

  function HelpUsage(): (s: string)
    ensures 1 <= |s| <= 200 && NoNul(s)
  {
    "Usage:\n" + HelpUsageLines()
  }

  function HelpUsageLines(): (s: string)
    ensures 1 <= |s| <= 150 && NoNul(s)
  {
    "  SENSOR,<device_id>," + "<data1>,<data2>,<data3>,<data4>\n" + "  QUERY,<start_id>,<end_id>\n" + "\n"
  }

  function HelpExample(): (s: string)
    ensures 1 <= |s| <= 200 && NoNul(s)
  {
    "Example:\n" + "  SENSOR,DEV2,26.8,55.2,101.3,568.4\n" + "  QUERY,1,20\n" + "\n"
  }

  function HelpRange(lo: int, hi: int): string {
    "Data Range: " + IntText(lo) + " - " + IntText(hi) + ("\n" + "==================\n")
  }

  function HelpText(lo: int, hi: int): string {
    HelpTitle() + HelpCommands() + HelpUsage() + HelpExample() + HelpRange(lo, hi)
  }

  lemma HelpRangeShape(lo: int, hi: int)
    requires INT_MIN <= lo <= INT_MAX && INT_MIN <= hi <= INT_MAX
    ensures |HelpRange(lo, hi)| <= 100 && NoNul(HelpRange(lo, hi))
  {
    IntTextShape(lo);
    IntTextShape(hi);
    hide IntText;
  }

  lemma IntTextShape(n: int)
    requires INT_MIN <= n <= INT_MAX
    ensures |IntText(n)| <= 11 && NoNul(IntText(n))
  {
    IntTextBytes(n);
    IntFitsTenDigits();
    NatTextLength(if n < 0 then -n else n, 10);
  }

  /** HELP never overruns the 4096-byte output buffer and is a non-empty C string. */
  lemma HelpTextShape(lo: int, hi: int)
    requires INT_MIN <= lo <= INT_MAX && INT_MIN <= hi <= INT_MAX
    ensures 1 <= |HelpText(lo, hi)| < 4096 && NoNul(HelpText(lo, hi))
  {
    HelpRangeShape(lo, hi);
    hide HelpTitle, HelpCommands, HelpReading, HelpUsageLines, HelpUsage, HelpExample, HelpRange;
  }

  /** Different ranges read differently: a client can tell the reported range from the HELP text. */
  lemma HelpTellsRange(lo: int, hi: int, lo': int, hi': int)
    requires HelpText(lo, hi) == HelpText(lo', hi')
    ensures lo == lo' && hi == hi'
  {
    SameTail(HelpTitle() + HelpCommands() + HelpUsage() + HelpExample(), HelpRange(lo, hi), HelpRange(lo', hi'));
    hide HelpTitle, HelpCommands, HelpUsage, HelpExample;
    RangeLineSplits(lo, hi);
    RangeLineSplits(lo', hi');
    hide HelpRange, HelpText;
    IntTextInjective(lo, lo');
    IntTextInjective(hi, hi');
  }

  lemma SameTail(head: string, a: string, b: string)
    requires head + a == head + b
    ensures a == b
  {
    assert (head + a)[|head|..] == a && (head + b)[|head|..] == b;
  }

  /** The range line cut at its blanks: the third and fifth words are the ids. */
  lemma RangeLineSplits(lo: int, hi: int)
    ensures var line := HelpRange(lo, hi);
            && |line| >= 12
            && FirstOf(line[12..], ' ') == |IntText(lo)| && line[12..][..|IntText(lo)|] == IntText(lo)
            && |line[12..]| >= |IntText(lo)| + 3
            && var rest := line[12..][|IntText(lo)| + 3..];
               FirstOf(rest, '\n') == |IntText(hi)| && rest[..|IntText(hi)|] == IntText(hi)
  {
    hide IntText, FirstOf;
    IntTextBytes(lo);
    IntTextBytes(hi);
    WordsSplit("Data Range: ", IntText(lo), IntText(hi), "\n" + "==================\n", HelpRange(lo, hi));
  }

  lemma WordsSplit(head: string, a: string, b: string, tail: string, line: string)
    requires line == head + a + " - " + b + tail
    requires ' ' !in a && '\n' !in b && tail != "" && tail[0] == '\n'
    ensures |line| >= |head| && |line[|head|..]| >= |a| + 3
    ensures FirstOf(line[|head|..], ' ') == |a| && line[|head|..][..|a|] == a
    ensures var rest := line[|head|..][|a| + 3..]; FirstOf(rest, '\n') == |b| && rest[..|b|] == b
  {
    assert line[|head|..] == a + (" - " + (b + tail));
    FirstOfAfter(a, " - " + (b + tail), ' ');
    assert line[|head|..][|a| + 3..] == b + tail;
    FirstOfAfter(b, tail, '\n');
  }

  lemma IntTextInjective(a: int, b: int)
    requires IntText(a) == IntText(b)
    ensures a == b
  {
    hide Strtol, IntText;
    var longMax := (if a < 0 then -a else a) + (if b < 0 then -b else b);
    IntTextScans(a, longMax);
    IntTextScans(b, longMax);
  }

  /**
   The failing table: with a row of id 2^31 stored, HELP reports a range that ends
   below its start, leaves the row out, and cannot even be sent back in a QUERY.
   */
  lemma LargeIdWraps(first: Row, last: Row, c: Libc)
    requires first.id == 1 && last.id == INT_MAX + 1 && Platform(c)
    ensures var t := Table([first, last], INT_MAX + 1);
            && WellFormed(t) && IdRange(t.rows) == (1, INT_MIN)
            && last !in Select(t.rows, IdRange(t.rows).0, IdRange(t.rows).1)
    ensures ParseCommand(Joined(["QUERY", IntText(1), IntText(INT_MIN)]), c).None?
  {
    hide Select, ParseCommand, IntText;
    SelectMembers([first, last], 1, INT_MIN);
    SentRange(1, INT_MIN, c);
  }

  /** Two ids sent in a QUERY are read back as they are exactly when they form a range of ints. */
  lemma SentRange(a: int, b: int, c: Libc)
    requires INT_MIN <= a <= INT_MAX && INT_MIN <= b <= INT_MAX && Platform(c)
    ensures ParseCommand(Joined(["QUERY", IntText(a), IntText(b)]), c) == Some(Query(a, b)) <==> 0 <= a <= b
    ensures b < 0 ==> ParseCommand(Joined(["QUERY", IntText(a), IntText(b)]), c).None?
  {
    hide IntText, CleanField, Joined, Decorated, ParseInt, Fields;
    var fields, slots := ["QUERY", IntText(a), IntText(b)], seq(3, _ => Slot("", "", 0));
    LiteralsAreClean();
    IdIsClean(a);
    IdIsClean(b);
    FieldsOfDecorable(fields, slots);
    JoinedIsUndecorated(fields, slots);
    DecorationIrrelevant(0, fields, slots, c);
    assert Commas(0) + Joined(fields) == Joined(fields);
    SentRangeFits(a, b);
    ReadBackOrRefused(a, c);
    ReadBackOrRefused(b, c);
  }

  lemma ReadBackOrRefused(n: int, c: Libc)
    requires INT_MIN <= n <= INT_MAX && Platform(c)
    ensures ParseInt(IntText(n), c.longMax) == if n < 0 then None else Some(n)
  {
    if n < 0 {
      NegativeRejected(n, c.longMax);
    } else {
      ParseIntReadsBack(n, c.longMax);
    }
  }

  lemma SentRangeFits(a: int, b: int)
    requires INT_MIN <= a <= INT_MAX && INT_MIN <= b <= INT_MAX
    ensures |Joined(["QUERY", IntText(a), IntText(b)])| < MAX_INPUT
  {
    hide IntText, Joined;
    IntTextShape(a);
    IntTextShape(b);
    LastField(IntText(b));
    JoinedLength(IntText(a), [IntText(b)]);
    JoinedLength("QUERY", [IntText(a)] + [IntText(b)]);
    assert ["QUERY", IntText(a), IntText(b)] == ["QUERY"] + ([IntText(a)] + [IntText(b)]);
  }

  /** The QUERY a client makes of a reported range. */
  function RangeQuery(rows: seq<Row>): string {
    var (lo, hi) := IdRange(rows);
    Joined(["QUERY", IntText(lo), IntText(hi)])
  }

  /**
   The range HELP reports can be sent back in a QUERY and then selects exactly the
   rows there were, now and in every later table, if and only if the largest id fits
   in an int or there are none. An empty table reports 0 - 0.
   */
  lemma ReportedRangeSentBack(t: Table, t': Table, c: Libc)
    requires WellFormed(t) && Grows(t, t') && Platform(c)
    ensures var (lo, hi) := IdRange(t.rows);
            ParseCommand(RangeQuery(t.rows), c) == Some(Query(lo, hi)) && Select(t'.rows, lo, hi) == t.rows <==>
            t.rows == [] || t.rows[|t.rows| - 1].id <= INT_MAX
    ensures t.rows == [] ==> IdRange(t.rows) == (0, 0)
  {
    hide ParseCommand, Joined, IntText, Select;
    var (lo, hi) := IdRange(t.rows);
    ReportedRangeIsStable(t, t');
    SentRange(lo, hi, c);
    if t.rows != [] && t.rows[|t.rows| - 1].id <= INT_MAX {
      ToInt32Lossless(t.rows[0].id);
      ToInt32Lossless(t.rows[|t.rows| - 1].id);
    }
  }

  /**
   Beyond 2^32 the range may even look right: with ids 1 and 2^32 + 5 HELP reports
   1 - 5, which the parser takes and which leaves the last row out.
   */
  lemma LargerIdMisleads(first: Row, last: Row, c: Libc)
    requires first.id == 1 && last.id == 0x1_0000_0005 && Platform(c)
    ensures var t := Table([first, last], last.id);
            && WellFormed(t) && IdRange(t.rows) == (1, 5)
            && ParseCommand(RangeQuery(t.rows), c) == Some(Query(1, 5))
            && last !in Select(t.rows, 1, 5)
  {
    hide ParseCommand, Joined, IntText, Select;
    SelectMembers([first, last], 1, 5);
    SentRange(1, 5, c);
  }

  lemma IntTextScans(n: int, longMax: int)
    requires -longMax <= n <= longMax
    ensures Strtol(IntText(n), longMax).value == n
  {
    hide Strtol, Spells, IntText, NatText;
    var digits := NatText(if n < 0 then -n else n);
    if n < 0 {
      NegativeSpelled(n);
      SpelledIsScanned(IntText(n), "", "-", digits, n, longMax);
    } else {
      NaturalSpelled(n);
      SpelledIsScanned(IntText(n), "", "", digits, n, longMax);
    }
  }

  lemma NegativeSpelled(n: int)
    requires n < 0
    ensures Spells(IntText(n), "", "-", NatText(-n), n)
  {
    hide NatText, TextNat;
    NatTextReadsBack(-n);
    assert "" + "-" + NatText(-n) == "-" + NatText(-n);
  }

  lemma NaturalSpelled(n: nat)
    ensures Spells(IntText(n), "", "", NatText(n), n)
  {
    hide NatText;
    NatTextReadsBack(n);
  }

  /** A failed QUERY's reply: the rendering of the first few selected rows, then the error line. */
  ghost predicate PartialAnswer(selected: seq<Row>, reply: string) {
    exists sent :: sent <= selected && reply == QueryText(sent) + ErrorText()
  }

  /**
   `reply` is a right answer to `request` executed as one atomic step on the
   first `at` rows of the table; a stored reading becomes row `at`.
   */
  ghost predicate Answers(rows: seq<Row>, at: nat, request: Option<Command>, ok: bool, reply: string) {
    && at <= |rows|
    && match request
       case None => !ok && reply == ErrorText()
       case Some(Sensor(r)) =>
         if ok then at < |rows| && rows[at].reading == r && reply == OkText() else reply == ErrorText()
       case Some(Help) =>
         var (lo, hi) := IdRange(rows[..at]);
         reply == if ok then HelpText(lo, hi) else ErrorText()
       case Some(Query(a, b)) =>
         if ok then reply == QueryText(Select(rows[..at], a, b))
         else PartialAnswer(Select(rows[..at], a, b), reply)
  }

  /** A bare error line is a right answer to anything that failed before it produced output. */
  lemma ErrorAnswers(rows: seq<Row>, at: nat, request: Option<Command>)
    requires at <= |rows|
    ensures Answers(rows, at, request, false, ErrorText())
  {
    hide ErrorText;
    if request.Some? && request.value.Query? {
      var none: seq<Row> := [];
      assert none <= Select(rows[..at], request.value.startId, request.value.endId);
      assert QueryText(none) + ErrorText() == ErrorText();
    }
  }

  /** Answers stay right when the table grows: they depend on an old version only. */
  lemma AnswersStay(rows: seq<Row>, rows': seq<Row>, at: nat, request: Option<Command>, ok: bool, reply: string)
    requires Answers(rows, at, request, ok, reply) && rows <= rows'
    ensures Answers(rows', at, request, ok, reply)
  {
    hide ErrorText, OkText, HelpText, QueryText, Select, IdRange, PartialAnswer;
    assert rows'[..at] == rows[..at];
  }

  // ---- telling success from failure ----

  lemma LinesAreLong(rows: seq<Row>)
    requires rows != []
    ensures |RenderRows(rows)| >= 32
  {
    hide RenderRow, RenderRows;
    RenderSplit(rows);
    LineIsLong(rows[|rows| - 1]);
  }

  lemma LineIsLong(r: Row)
    ensures |RenderRow(r)| >= 32
  {
    hide FixedText, IntText, ColumnText;
  }

  lemma LongerText(sent: seq<Row>, all: seq<Row>)
    requires sent <= all
    ensures |QueryText(sent)| <= |QueryText(all)|
    ensures sent != all ==> |QueryText(sent)| + 32 <= |QueryText(all)|
  {
    hide Header, RenderRows;
    if sent != all {
      var more := all[|sent|..];
      assert all == sent + more;
      RenderConcat(sent, more);
      LinesAreLong(more);
      RenderNone();
    }
  }

  lemma ErrorLineLength()
    ensures |ErrorText()| == 6 && ErrorText() != OkText()
  {
  }

  lemma HelpIsNoError(lo: int, hi: int)
    ensures HelpText(lo, hi) != ErrorText()
  {
    ErrorLineLength();
    HelpTitleLength();
    hide HelpTitle, HelpCommands, HelpUsage, HelpExample, HelpRange, ErrorText;
  }

  lemma HelpTitleLength()
    ensures |HelpTitle()| > 6
  {
  }

  /** No successful answer has the bytes of a failed one, whichever versions of the table the two saw. */
  lemma AnswersDiffer(all: seq<Row>, selected: seq<Row>, sent: seq<Row>)
    requires selected <= all && sent <= all
    ensures QueryText(selected) != QueryText(sent) + ErrorText()
  {
    hide QueryText, ErrorText;
    ErrorLineLength();
    if |sent| <= |selected| {
      assert sent <= selected;
      LongerText(sent, selected);
    } else {
      assert selected <= sent;
      LongerText(selected, sent);
    }
  }

  /** A client can tell from the bytes of a reply whether its command succeeded. */
  lemma OutcomeTold(rows: seq<Row>, at: nat, at': nat, request: Option<Command>, ok: bool, ok': bool, reply: string)
    requires Answers(rows, at, request, ok, reply) && Answers(rows, at', request, ok', reply)
    ensures ok == ok'
  {
    hide QueryText, ErrorText, HelpText, OkText, Select, IdRange;
    ErrorLineLength();
    if request.Some? && request.value.Help? {
      HelpIsNoError(IdRange(rows[..at]).0, IdRange(rows[..at]).1);
      HelpIsNoError(IdRange(rows[..at']).0, IdRange(rows[..at']).1);
    }
    if request.Some? && request.value.Query? && ok != ok' {
      var a, b := request.value.startId, request.value.endId;
      SelectGrows(rows[..at], rows, a, b);
      SelectGrows(rows[..at'], rows, a, b);
      var good, bad := if ok then at else at', if ok then at' else at;
      var sent :| sent <= Select(rows[..bad], a, b) && reply == QueryText(sent) + ErrorText();
      AnswersDiffer(Select(rows, a, b), Select(rows[..good], a, b), sent);
    }
  }
}

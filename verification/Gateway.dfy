/** core/gateway: parsing one command, dispatching it, and delivering QUERY results batch by batch. */
module Gateway {
  import opened Wrappers
  import opened CText
  import opened SensorTable
  import opened RowText
  import opened CommandText
  import opened ParserBuffer
  import opened Replies
  import opened Storage
  import opened Paging
  import opened Transport

  /** gateway_build_help(): the help text with the id range stored at one moment during the call. */
  method BuildHelp(db: Database, output: array<char>) returns (rc: int, ghost at: nat)
    requires db.Valid()
    modifies db`table, db`faults, output
    ensures Grows(old(db.table), db.table)
    ensures rc == 0 || rc == -1
    ensures db.faults >= old(db.faults)
    ensures rc == 0 <==> output.Length > 0 && db.faults == old(db.faults)
    ensures rc == 0 ==>
              && |old(db.table).rows| <= at <= |db.table.rows|
              && var (lo, hi) := IdRange(db.table.rows[..at]);
                 BufferHolds(output[..], Fit(HelpText(lo, hi), output.Length))
    ensures rc == -1 ==> output[..] == old(output[..])
  {
    hide HelpText, BufferHolds, Fit, IdRange;
    at := 0;
    if output.Length == 0 {
      return -1, at;
    }
    var minId, maxId;
    rc, minId, maxId, at := db.GetIdRange();
    if rc != 0 {
      return -1, at;
    }
    PrintedFits(output[..], HelpText(minId, maxId));
    var written := Snprintf(output, 0, HelpText(minId, maxId));
    rc := 0;
  }

  lemma GrowthFacts(before: Table, after: Table)
    requires WellFormed(before) && Grows(before, after)
    ensures Ascending(before.rows) && Ascending(after.rows) && before.rows <= after.rows
  {
  }

  lemma SameTableGrows(t: Table)
    requires WellFormed(t)
    ensures Grows(t, t)
  {
  }

  lemma BatchVerdict(before: seq<Row>, rows: seq<Row>, mem: string, b: Batch, rc: int, page: seq<Row>, next: int,
                     seen: nat, fault: bool)
    requires BatchOutcome(before, rows, mem, b, rc, page, next, seen, fault)
    ensures rc == 0 || rc == -1
    ensures rc == 0 ==> !fault && BufferHolds(mem, BatchText(b.first, page))
  {
    hide BatchText, BufferHolds;
  }

  lemma DeliveredSizes(before: seq<Row>, rows: seq<Row>, q: Asked, lastId: int, pages: seq<seq<Row>>)
    requires Delivered(before, rows, q, lastId, pages)
    ensures PageSizes(pages, q.limit) && (Flatten(pages) == [] <==> pages == [])
  {
    FlattenEmpty(pages, q.limit);
  }

  /** A delivered batch extends the text on the wire to the rendering of all rows delivered. */
  lemma WireExtends(wire: string, pages: seq<seq<Row>>, page: seq<Row>)
    requires page != [] && (Flatten(pages) == [] <==> pages == [])
    ensures wire + QueryText(Flatten(pages)) + BatchText(pages == [], page) == wire + QueryText(Flatten(pages + [page]))
  {
    hide QueryText, BatchText, Flatten;
    FlattenAppend(pages, page);
    BatchExtendsQueryText(Flatten(pages), page);
    Associate(wire, QueryText(Flatten(pages)), BatchText(pages == [], page));
  }

  lemma AnswerPages(before: seq<Row>, rows: seq<Row>, q: Asked, wire: string, wire': string,
                    pages: seq<seq<Row>>, at: nat)
    requires QueryOutcome(before, rows, q, wire, wire', 0, pages, at, 0, false, false)
    ensures Answer(before, q) == Answer(rows, q) ==> |pages| == (|Answer(before, q)| + q.limit - 1) / q.limit
  {
    hide Select, QueryText, Flatten, Pages, AllFit;
    PagesCount(Answer(before, q), q.limit);
  }

  /**
   gateway_handle_query(): a loop of separate batch SELECTs that stops on the
   first empty batch, with other clients inserting in between. The source's only
   caller passes parsed ids; the C subtraction needs startId above INT_MIN.
   */
  method HandleQuery(db: Database, startId: int32, endId: int32, sock: Socket)
    returns (rc: int, ghost pages: seq<seq<Row>>, ghost at: nat, ghost sent: nat,
             ghost sqlFault: bool, ghost sendFault: bool, ghost selects: nat)
    requires db.Valid() && startId > -0x8000_0000
    modifies db`table, db`faults, sock
    ensures Grows(old(db.table), db.table)
    // The faults spoken of are failed SQLite calls and failed sends of this very call.
    ensures db.faults >= old(db.faults) && (sqlFault <==> db.faults > old(db.faults))
    ensures sock.failures >= old(sock.failures) && (sendFault <==> sock.failures > old(sock.failures))
    ensures QueryOutcome(old(db.table).rows, db.table.rows, Asked(startId as int, endId as int, db.limit),
                         old(sock.wire), sock.wire, rc, pages, at, sent, sqlFault, sendFault)
    ensures rc == 0 ==> selects == |pages| + 1
    // While nobody adds to its range n rows take ceil(n / limit) deliveries and one batch SELECT more.
    ensures var q := Asked(startId as int, endId as int, db.limit);
            var all := Answer(old(db.table).rows, q);
            rc == 0 && all == Answer(db.table.rows, q) ==>
              |pages| == (|all| + db.limit - 1) / db.limit && selects == (|all| + db.limit - 1) / db.limit + 1
  {
    hide Delivered, BatchOutcome, QueryOutcome, BatchText, QueryText, Flatten, BufferHolds, Ascending, PageSizes,
         Select;
    var lastId := startId - 1;
    var isFirst := true;
    var batchBuffer := new char[BATCH_BUFFER];
    pages, at, sent, sqlFault, sendFault, selects := [], 0, 0, false, false, 0;
    ghost var before, wire := db.table.rows, sock.wire;
    ghost var q := Asked(startId as int, endId as int, db.limit);
    GrowthFacts(db.table, db.table) by { SameTableGrows(db.table); }
    DeliveryStarts(before, q);
    FlattenNone();
    while true
      invariant Grows(old(db.table), db.table)
      invariant isFirst == (pages == []) && selects == |pages|
      invariant Delivered(before, db.table.rows, q, lastId as int, pages)
      invariant sock.wire == wire + QueryText(Flatten(pages))
      invariant db.faults == old(db.faults) && sock.failures == old(sock.failures)
      decreases if endId > lastId then endId as int - lastId as int else 0
    {
      ghost var rows, last := db.table.rows, lastId as int;
      ghost var b := NextBatch(q, last, pages);
      var nextId, rowCount;
      ghost var page, next, seen, fault;
      rc, nextId, rowCount, page, next, seen, fault := db.QueryNextBatch(lastId, endId, batchBuffer, isFirst);
      selects := selects + 1;
      GrowthFacts(old(db.table), db.table);
      BatchVerdict(rows, db.table.rows, batchBuffer[..], b, rc, page, next, seen, fault);
      if rc != 0 {
        FailedBatchEnds(before, rows, db.table.rows, batchBuffer[..], q, last, pages, page, next, seen, fault, at,
                        wire);
        sqlFault := fault;
        return;
      }
      if rowCount == 0 {
        EmptyBatchEnds(before, rows, db.table.rows, batchBuffer[..], q, last, pages, next, seen, wire);
        at := seen;
        AnswerPages(before, db.table.rows, q, wire, sock.wire, pages, at);
        return;
      }
      PageDelivered(before, rows, db.table.rows, batchBuffer[..], q, last, pages, page, next, seen);
      BatchTextNonEmpty(isFirst, page);
      BufferIsString(batchBuffer[..], BatchText(isFirst, page));
      ghost var handed := pages + [page];
      DeliveredSizes(before, rows, q, last, pages);
      rows := db.table.rows;
      ghost var n;
      rc, n := OutputHandler(sock, StrAt(batchBuffer[..], 0));
      db.OtherClients();
      GrowthFacts(old(db.table), db.table);
      DeliverySurvives(before, rows, db.table.rows, q, next, handed);
      if rc != 0 {
        FailedSendEnds(before, db.table.rows, q, next, pages, page, at, wire, n);
        sent, sendFault := |QueryText(Flatten(pages))| + n, true;
        pages := handed;
        return;
      }
      WireExtends(wire, pages, page);
      pages := handed;
      lastId := nextId;
      isFirst := false;
    }
  }

  /**
   What processing one command promises, other clients' inserts included: `text`
   is what a QUERY handed to the output handler, `pending` the reply left in the
   output buffer, and together they answer the command as one atomic step on the
   first `at` rows. After a failure the error line is still to be sent.
   */
  ghost predicate Processed(before: seq<Row>, rows: seq<Row>, wire: string, wire': string, request: Option<Command>,
                            rc: int, text: string, pending: string, at: nat, sent: nat, sendFault: bool)
  {
    && (rc == 0 || rc == -1)
    && before <= rows && |before| <= at <= |rows| && |pending| < BATCH_BUFFER && NoNul(pending)
    && (rc == 0 ==>
          && !sendFault && wire' == wire + text && (text == "" || pending == "")
          && (request.Some? && request.value.Query? ==> pending == "")
          && Answers(rows, at, request, true, text + pending))
    && (rc == -1 ==>
          && pending == "" && Answers(rows, at, request, false, text + ErrorText())
          && if sendFault then sent < |text| && wire' == wire + text[..sent] else wire' == wire + text)
  }

  /**
   When a QUERY succeeds, faults aside: only if the batches of the answer it began
   with fit the buffer, failing only over rows that do not, and exactly so while
   nobody adds to its range.
   */
  ghost predicate QueryVerdict(before: seq<Row>, rows: seq<Row>, q: Asked, ok: bool)
    requires q.limit >= 1
  {
    && (ok ==> AllFit(Wanted(before, q)))
    && (!ok ==> exists pages, page :: DoesNotFit(rows, q, pages, page))
    && (Answer(before, q) == Answer(rows, q) ==> (ok <==> AllFit(Wanted(before, q))))
  }

  /**
   When a command succeeds: never if it did not parse or a SQLite call failed, and
   otherwise always - save a QUERY, whose batches must fit and go out.
   */
  ghost predicate Verdict(before: seq<Row>, rows: seq<Row>, limit: nat, request: Option<Command>, ok: bool,
                          sqlFault: bool, sendFault: bool)
    requires limit >= 1
  {
    match request
    case None => !ok
    case Some(Sensor(_)) => ok <==> !sqlFault
    case Some(Help) => ok <==> !sqlFault
    case Some(Query(a, b)) =>
      if sqlFault || sendFault then !ok else QueryVerdict(before, rows, Asked(a, b, limit), ok)
  }

  lemma QueryDecided(before: seq<Row>, rows: seq<Row>, q: Asked, wire: string, wire': string, rc: int,
                     pages: seq<seq<Row>>, at: nat, sent: nat, sqlFault: bool, sendFault: bool)
    requires QueryOutcome(before, rows, q, wire, wire', rc, pages, at, sent, sqlFault, sendFault)
    ensures Verdict(before, rows, q.limit, Some(Query(q.startId, q.endId)), rc == 0, sqlFault, sendFault)
  {
    hide QueryText, Flatten, Select, Pages, AllFit, DoesNotFit, PageSizes;
    if rc == -1 && !sqlFault && !sendFault {
      var page :| DoesNotFit(rows, q, pages, page);
    }
  }

  /** A verdict stays right when the table grows further. */
  lemma VerdictStays(before: seq<Row>, rows: seq<Row>, rows': seq<Row>, limit: nat, request: Option<Command>, ok: bool,
                     sqlFault: bool, sendFault: bool)
    requires limit >= 1 && before <= rows <= rows'
    requires Verdict(before, rows, limit, request, ok, sqlFault, sendFault)
    ensures Verdict(before, rows', limit, request, ok, sqlFault, sendFault)
  {
    hide Wanted, AllFit, Select, BatchText;
    if request.Some? && request.value.Query? && !sqlFault && !sendFault {
      var q := Asked(request.value.startId, request.value.endId, limit);
      SelectGrows(before, rows, q.startId, q.endId);
      SelectGrows(rows, rows', q.startId, q.endId);
      if !ok {
        var pages, page :| DoesNotFit(rows, q, pages, page);
        assert DoesNotFit(rows', q, pages, page);
      }
    }
  }

  lemma NothingProcessed(before: seq<Row>, rows: seq<Row>, wire: string, request: Option<Command>)
    requires before <= rows
    ensures Processed(before, rows, wire, wire, request, -1, "", "", |rows|, 0, false)
  {
    hide ErrorText, Answers;
    ErrorAnswers(rows, |rows|, request);
    assert "" + ErrorText() == ErrorText();
    assert wire + "" == wire;
  }

  lemma SensorProcessed(before: seq<Row>, rows: seq<Row>, wire: string, r: Reading, at: nat)
    requires before <= rows && |before| <= at < |rows| && rows[at].reading == r
    ensures Processed(before, rows, wire, wire, Some(Sensor(r)), 0, "", OkText(), at, 0, false)
  {
    hide OkText;
    assert "" + OkText() == OkText();
    assert wire + "" == wire;
  }

  lemma HelpProcessed(before: seq<Row>, rows: seq<Row>, wire: string, at: nat)
    requires before <= rows && |before| <= at <= |rows|
    ensures var (lo, hi) := IdRange(rows[..at]);
            Processed(before, rows, wire, wire, Some(Help), 0, "", HelpText(lo, hi), at, 0, false)
  {
    hide HelpText;
    var (lo, hi) := IdRange(rows[..at]);
    HelpTextShape(lo, hi);
    assert "" + HelpText(lo, hi) == HelpText(lo, hi);
    assert wire + "" == wire;
  }

  lemma QueryProcessed(before: seq<Row>, rows: seq<Row>, q: Asked, wire: string, wire': string, rc: int,
                       pages: seq<seq<Row>>, at: nat, sent: nat, sqlFault: bool, sendFault: bool)
    requires QueryOutcome(before, rows, q, wire, wire', rc, pages, at, sent, sqlFault, sendFault)
    ensures Processed(before, rows, wire, wire', Some(Query(q.startId, q.endId)), rc, QueryText(Flatten(pages)), "",
                      if rc == 0 then at else |rows|, sent, sendFault)
  {
    hide QueryText, Flatten, Select, ErrorText, Pages, AllFit, DoesNotFit, PageSizes;
    var text := QueryText(Flatten(pages));
    assert text + "" == text;
    if rc != 0 {
      assert rows[..|rows|] == rows;
      assert PartialAnswer(Select(rows, q.startId, q.endId), text + ErrorText());
    }
  }

  /**
   gateway_process(): parse, dispatch, answer. It fails only for an unparsable text, a
   failed call or an overlong batch.
   */
  method Process(db: Database, input: string, c: Libc, output: array<char>, sock: Socket)
    returns (rc: int, ghost text: string, ghost pending: string, ghost at: nat, ghost sent: nat, ghost sendFault: bool)
    requires db.Valid() && NoNul(input) && Platform(c)
    modifies db, output, sock
    ensures Grows(old(db.table), db.table)
    ensures db.faults >= old(db.faults) && sock.failures >= old(sock.failures)
    ensures sendFault <==> sock.failures > old(sock.failures)
    ensures output.Length == 0 ==> rc == -1
    ensures output.Length > 0 ==>
              Verdict(old(db.table).rows, db.table.rows, db.limit, ParseCommand(input, c), rc == 0,
                      db.faults > old(db.faults), sendFault)
    ensures Processed(old(db.table).rows, db.table.rows, old(sock.wire), sock.wire, ParseCommand(input, c),
                      rc, text, pending, at, sent, sendFault)
    ensures output.Length > 0 ==> BufferHolds(output[..], Fit(pending, output.Length))
    // This thread stores exactly the readings it acknowledges.
    ensures var request := ParseCommand(input, c);
            db.authored == old(db.authored) + if rc == 0 && request.Some? && request.value.Sensor? then [at] else []
  {
    hide Processed, BufferHolds, Fit, ParseCommand, QueryOutcome, QueryText, Flatten, OkText, HelpText, IdRange,
         QueryVerdict;
    rc, text, pending, at, sent, sendFault := -1, "", "", 0, 0, false;
    ghost var before, wire := db.table.rows, sock.wire;
    GrowthFacts(db.table, db.table) by { SameTableGrows(db.table); }
    if output.Length == 0 {
      NothingProcessed(before, db.table.rows, wire, ParseCommand(input, c));
      at := |db.table.rows|;
      return;
    }
    output[0] := NUL;
    BufferBlank(output[..]);
    var command := Parse(input, c);
    if command.None? {
      NothingProcessed(before, db.table.rows, wire, None);
      at := |db.table.rows|;
      return;
    }
    match command.value
    case Sensor(reading) =>
      ParsedIsSensible(input, c);
      rc, at := db.InsertSensor(reading);
      if rc != 0 {
        NothingProcessed(before, db.table.rows, wire, command);
        at := |db.table.rows|;
        return;
      }
      PrintedFits(output[..], OkText());
      var written := Snprintf(output, 0, OkText());
      pending := OkText();
      SensorProcessed(before, db.table.rows, wire, reading, at);
    case Query(startId, endId) =>
      ParsedIsSensible(input, c);
      ghost var pages, sqlFault, selects;
      rc, pages, at, sent, sqlFault, sendFault, selects := HandleQuery(db, startId as int32, endId as int32, sock);
      text := QueryText(Flatten(pages));
      QueryProcessed(before, db.table.rows, Asked(startId, endId, db.limit), wire, sock.wire, rc, pages, at, sent,
                     sqlFault, sendFault);
      QueryDecided(before, db.table.rows, Asked(startId, endId, db.limit), wire, sock.wire, rc, pages, at, sent,
                   sqlFault, sendFault);
      at := if rc == 0 then at else |db.table.rows|;
    case Help =>
      rc, at := BuildHelp(db, output);
      if rc != 0 {
        NothingProcessed(before, db.table.rows, wire, command);
        at := |db.table.rows|;
        return;
      }
      ghost var (lo, hi) := IdRange(db.table.rows[..at]);
      pending := HelpText(lo, hi);
      HelpProcessed(before, db.table.rows, wire, at);
  }

  lemma BufferBlank(mem: string)
    requires mem != "" && mem[0] == NUL
    ensures BufferHolds(mem, Fit("", |mem|))
  {
  }
}

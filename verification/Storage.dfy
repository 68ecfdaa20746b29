/**
 storage/sqlite: the database handle every client thread shares. Other threads
 may insert rows between any two SQLite calls of this thread, even between two
 steps of one running SELECT; each SQLite call may fail.
 */
module Storage {
  import opened Wrappers
  import opened CText
  import opened SensorTable
  import opened RowText

  /** What sqlite3_step reports. */
  datatype StepResult = RowReady(row: Row) | Done | Failed

  /** A running batch SELECT: the bound range, rows returned so far, and the table size when it began. */
  datatype Statement = Statement(after: int, hi: int, returned: nat, base: nat)

  /** The buffer holds `text` as a C string from its first byte on. */
  ghost predicate BufferHolds(mem: string, text: string) {
    |text| < |mem| && mem[..|text|] == text && mem[|text|] == NUL
  }

  lemma BufferEmpty(mem: string)
    requires mem != "" && mem[0] == NUL
    ensures BufferHolds(mem, "")
  {
  }

  /** A text without NULs that a buffer holds is the buffer's C string: strlen is its length. */
  lemma BufferIsString(mem: string, text: string)
    requires BufferHolds(mem, text) && NoNul(text)
    ensures StrAt(mem, 0) == text
  {
    assert mem[0..|text|] == text;
    StrAtIs(mem, 0, text);
  }

  /** What snprintf leaves in memory when it writes `text` at `at`. */
  function Printed(mem: string, at: nat, text: string): string
    requires at < |mem|
  {
    if |text| < |mem| - at then mem[..at] + text + [NUL] + mem[at + |text| + 1..]
    else mem[..at] + text[..|mem| - at - 1] + [NUL]
  }

  /** The part of a text that a buffer of `size` bytes can hold next to its NUL. */
  function Fit(text: string, size: nat): string
    requires size >= 1
  {
    if |text| < size then text else text[..size - 1]
  }

  lemma PrintedFits(mem: string, text: string)
    requires mem != ""
    ensures BufferHolds(Printed(mem, 0, text), Fit(text, |mem|))
  {
  }

  lemma PrintedAppends(mem: string, text: string, more: string)
    requires BufferHolds(mem, text) && |text| + |more| < |mem|
    ensures BufferHolds(Printed(mem, |text|, more), text + more)
  {
    var after := Printed(mem, |text|, more);
    assert after[..|text| + |more|] == text + more;
  }

  /** snprintf(buf + at, size - at, ...): never writes outside, always terminates, reports the full length. */
  method Snprintf(buf: array<char>, at: nat, text: string) returns (written: nat)
    requires at < buf.Length
    modifies buf
    ensures written == |text| && buf[..] == Printed(old(buf[..]), at, text)
  {
    written := |text|;
    var n := if |text| < buf.Length - at then |text| else buf.Length - at - 1;
    forall i | 0 <= i < n {
      buf[at + i] := text[i];
    }
    buf[at + n] := NUL;
    assert buf[..] == Printed(old(buf[..]), at, text);
  }

  // ---- one batch, on table and buffer values ----

  /** What one batch call is asked for: ids in (after, hi], at most `limit` rows, the header if it is the first. */
  datatype Batch = Batch(after: int, hi: int, limit: nat, first: bool)

  /** The batch of a table that stands still. */
  function StillPage(rows: seq<Row>, b: Batch): seq<Row> {
    NextPage(rows, b.after, b.hi, b.limit)
  }

  /** Everything the batch could return. */
  function InRange(rows: seq<Row>, b: Batch): seq<Row> {
    Select(rows, b.after + 1, b.hi)
  }

  /** The state of the row loop: the cursor's page, its rendering in the buffer, and nothing else. */
  ghost predicate Filling(rows: seq<Row>, mem: string, b: Batch, page: seq<Row>, currentId: int, used: nat) {
    && PageRead(rows, b.after, b.hi, b.limit, page, currentId)
    && used == |BatchText(b.first, page)|
    && BufferHolds(mem, BatchText(b.first, page))
  }

  /**
   A successful batch: the next rows in range without a gap, their text in the
   buffer; fewer than the limit only if some version of the table (its first
   `seen` rows, no older than the call) has nothing further in range.
   */
  ghost predicate BatchRead(before: seq<Row>, rows: seq<Row>, mem: string, b: Batch,
                            page: seq<Row>, next: int, seen: nat)
  {
    && PageRead(rows, b.after, b.hi, b.limit, page, next)
    && BufferHolds(mem, BatchText(b.first, page))
    && |before| <= seen <= |rows|
    && (|page| < b.limit ==> Select(rows[..seen], next + 1, b.hi) == [])
  }

  /** The rows read so far, the last one included, no longer fit the buffer. */
  ghost predicate BatchTooLong(rows: seq<Row>, b: Batch, size: nat, page: seq<Row>, next: int) {
    PageRead(rows, b.after, b.hi, b.limit, page, next) && |BatchText(b.first, page)| >= size
  }

  /**
   A successful batch leaves out nothing that was in range when it was called, up
   to the limit. As long as nobody adds to the range, the rows and the verdict
   are functions of the table, whatever is appended elsewhere.
   */
  ghost predicate Settles(before: seq<Row>, rows: seq<Row>, b: Batch, size: nat, ok: bool, page: seq<Row>) {
    && (ok ==> StillPage(before, b) <= page && |BatchText(b.first, page)| < size)
    && (InRange(before, b) == InRange(rows, b) ==>
          && (ok <==> |BatchText(b.first, StillPage(before, b))| < size)
          && (ok ==> page == StillPage(before, b)))
  }

  /** Everything a call of the batch function promises about its result. */
  ghost predicate BatchOutcome(before: seq<Row>, rows: seq<Row>, mem: string, b: Batch, rc: int,
                               page: seq<Row>, next: int, seen: nat, fault: bool)
  {
    && (rc == 0 || rc == -1)
    // Success: the rows read are the next ones in range, and the buffer holds their text.
    && (rc == 0 ==> !fault && BatchRead(before, rows, mem, b, page, next, seen))
    // Without a SQLite fault a batch fails only when its text reaches the buffer size.
    && (rc == -1 && !fault ==> BatchTooLong(rows, b, |mem|, page, next))
    // While nobody adds to its range, exactly when the text of the next page does.
    && (!fault ==> Settles(before, rows, b, |mem|, rc == 0, page))
  }

  lemma TextGrows(isFirst: bool, page: seq<Row>, longer: seq<Row>)
    requires page <= longer
    ensures |BatchText(isFirst, page)| <= |BatchText(isFirst, longer)|
  {
    hide Header, RenderRows;
    assert longer == page + longer[|page|..];
    RenderConcat(page, longer[|page|..]);
  }

  lemma FillingSurvives(rows: seq<Row>, rows': seq<Row>, mem: string, b: Batch, page: seq<Row>, currentId: int,
                        used: nat)
    requires Filling(rows, mem, b, page, currentId, used)
    requires rows <= rows' && Ascending(rows')
    ensures Filling(rows', mem, b, page, currentId, used)
  {
    hide BatchText;
    CursorSurvives(rows, rows', b.after, b.hi, page, currentId);
  }

  /** One more row was fetched: either its line fits and extends the buffer, or the batch is too long. */
  lemma RowFetched(rows: seq<Row>, mem: string, mem': string, b: Batch, page: seq<Row>, currentId: int, used: nat,
                   seen: nat)
    requires Ascending(rows) && seen <= |rows| && |page| < b.limit
    requires Filling(rows, mem, b, page, currentId, used)
    requires Select(rows[..seen], currentId + 1, b.hi) != []
    requires mem' == Printed(mem, used, RenderRow(Select(rows[..seen], currentId + 1, b.hi)[0]))
    ensures var r := Select(rows[..seen], currentId + 1, b.hi)[0];
            var line := RenderRow(r);
            && currentId < r.id <= b.hi
            && (|line| < |mem| - used ==> Filling(rows, mem', b, page + [r], r.id, used + |line|))
            && (|line| >= |mem| - used ==> BatchTooLong(rows, b, |mem|, page + [r], r.id))
  {
    hide Header, RenderRow, RenderRows, Select, Printed, CursorRead, Ascending, BufferHolds;
    var r := Select(rows[..seen], currentId + 1, b.hi)[0];
    CursorAdvances(rows, seen, b.after, b.hi, page, currentId);
    TextAppends(b.first, page, r);
    if |RenderRow(r)| < |mem| - used {
      PrintedAppends(mem, BatchText(b.first, page), RenderRow(r));
    }
  }

  lemma TextAppends(isFirst: bool, page: seq<Row>, r: Row)
    ensures BatchText(isFirst, page + [r]) == BatchText(isFirst, page) + RenderRow(r)
  {
    hide Header, RenderRow, RenderRows;
    RenderAppend(page, r);
    Associate(if isFirst then Header() else "", RenderRows(page), RenderRow(r));
  }

  /** DONE: the batch is read, whatever was appended since. */
  lemma BatchFinishes(before: seq<Row>, mid: seq<Row>, rows: seq<Row>, mem: string, b: Batch, page: seq<Row>,
                      currentId: int, used: nat, seen: nat)
    requires before <= mid <= rows && Ascending(rows) && |before| <= seen <= |mid|
    requires Filling(mid, mem, b, page, currentId, used)
    requires |page| >= b.limit || Select(mid[..seen], currentId + 1, b.hi) == []
    ensures BatchOutcome(before, rows, mem, b, 0, page, currentId, seen, false)
  {
    hide BatchText, Select;
    CursorSurvives(mid, rows, b.after, b.hi, page, currentId);
    assert mid[..seen] == rows[..seen];
    PageComplete(before, rows, seen, b.after, b.hi, b.limit, page, currentId);
  }

  lemma BatchOverflows(before: seq<Row>, rows: seq<Row>, mem: string, b: Batch, page: seq<Row>, next: int, seen: nat)
    requires Ascending(rows) && BatchTooLong(rows, b, |mem|, page, next)
    ensures BatchOutcome(before, rows, mem, b, -1, page, next, seen, false)
  {
    hide BatchText, Select;
    CursorIsPrefix(rows, b.after, b.hi, page, next);
    TextGrows(b.first, page, StillPage(rows, b));
  }

  lemma BatchFaults(before: seq<Row>, rows: seq<Row>, mem: string, b: Batch, page: seq<Row>, next: int, seen: nat)
    ensures BatchOutcome(before, rows, mem, b, -1, page, next, seen, true)
  {
  }

  /** The header alone does not fit (or there is no buffer at all). */
  lemma HeaderTooLong(before: seq<Row>, rows: seq<Row>, mem: string, b: Batch)
    requires Ascending(rows)
    requires mem == "" || (b.first && |Header()| >= |mem|)
    ensures BatchOutcome(before, rows, mem, b, -1, [], b.after, 0, false)
  {
    hide Header, Select, BatchOutcome;
    CursorStarts(rows, b.after, b.hi);
    BatchOverflows(before, rows, mem, b, [], b.after, 0);
  }

  /** The header (if any) is in the buffer: the row loop may start. */
  lemma HeaderFits(rows: seq<Row>, mem: string, mem': string, b: Batch)
    requires Ascending(rows) && mem != "" && mem[0] == NUL
    requires b.first ==> |Header()| < |mem| && mem' == Printed(mem, 0, Header())
    requires !b.first ==> mem' == mem
    ensures Filling(rows, mem', b, [], b.after, if b.first then |Header()| else 0)
  {
    hide Header, Select, Printed, BufferHolds;
    BufferEmpty(mem);
    RenderNone();
    hide RenderRows;
    if b.first {
      PrintedAppends(mem, "", Header());
      assert "" + Header() == Header() == Header() + "";
    }
    CursorStarts(rows, b.after, b.hi);
  }

  class Database {
    var table: Table
    /** The LIMIT of a batch SELECT. The program fixes it at SQLITE_DB_QUERY_BATCH_SIZE. */
    const limit: nat
    /** Positions of the rows this thread inserted. */
    ghost var authored: seq<nat>
    /** How many of this thread's SQLite calls have failed. */
    ghost var faults: nat

    ghost predicate Valid()
      reads this
    {
      WellFormed(table) && limit >= 1
    }

    constructor (stored: Table, batchSize: nat)
      requires WellFormed(stored) && batchSize >= 1
      ensures Valid() && table == stored && limit == batchSize && authored == [] && faults == 0
    {
      table := stored;
      limit := batchSize;
      authored := [];
      faults := 0;
    }

    /** Any number of inserts by other threads. */
    method OtherClients()
      requires Valid()
      modifies this`table
      ensures Grows(old(table), table)
    {
      var n: nat := *;
      while n > 0
        invariant Grows(old(table), table)
      {
        var r: Row := *;
        if table.highest < r.id <= MAX_ROWID {
          InsertGrows(table, r);
          table := Insert(table, r);
        }
        n := n - 1;
      }
    }

    /** The return code of a SQLite call that touches no row. */
    method CallSucceeds() returns (ok: bool)
      modifies this`faults
      ensures faults == old(faults) + if ok then 0 else 1
    {
      ok := *;
      faults := faults + if ok then 0 else 1;
    }

    /** sqlite3_step on the INSERT: a fresh larger id and SQLite's own timestamp, or failure and no change. */
    method StepInsert(r: Reading) returns (done: bool)
      requires Valid()
      modifies this
      ensures Grows(old(table), table)
      ensures done ==> |table.rows| == |old(table).rows| + 1 && table.rows[|old(table).rows|].reading == r
                       && authored == old(authored) + [|old(table).rows|]
      ensures !done ==> table == old(table) && authored == old(authored)
      ensures faults == old(faults) + if done then 0 else 1
    {
      done := *;
      var id: int := *;
      var timestamp: Option<string> := *;
      if !done || id <= table.highest || id > MAX_ROWID {
        faults := faults + 1;
        return false;
      }
      InsertGrows(table, Row(id, r, timestamp));
      authored := authored + [|table.rows|];
      table := Insert(table, Row(id, r, timestamp));
    }

    /** sqlite_db_insert_sensor(): success means exactly one new row of this thread, with the parsed values. */
    method InsertSensor(r: Reading) returns (rc: int, ghost at: nat)
      requires Valid()
      modifies this
      ensures Grows(old(table), table)
      ensures rc == 0 || rc == -1
      ensures faults >= old(faults) && (rc == 0 <==> r.device != "" && faults == old(faults))
      ensures rc == 0 ==> |old(table).rows| <= at < |table.rows| && table.rows[at].reading == r
                          && authored == old(authored) + [at]
      ensures rc == -1 ==> authored == old(authored)
    {
      at := 0;
      if r.device == "" {
        return -1, at;
      }
      var prepared := CallSucceeds();
      if !prepared {
        return -1, at;
      }
      var bound := CallSucceeds();
      if !bound {
        return -1, at;
      }
      OtherClients();
      at := |table.rows|;
      var done := StepInsert(r);
      label inserted:
      OtherClients();
      assert old@inserted(table).rows <= table.rows;
      rc := if done then 0 else -1;
    }

    /** sqlite_db_get_id_range(): the 32-bit readings of the ids stored at one moment during the call. */
    method GetIdRange() returns (rc: int, minId: int, maxId: int, ghost at: nat)
      requires Valid()
      modifies this`table, this`faults
      ensures Grows(old(table), table)
      ensures rc == 0 || rc == -1
      ensures faults >= old(faults) && (rc == 0 <==> faults == old(faults))
      ensures rc == 0 ==> |old(table).rows| <= at <= |table.rows| && (minId, maxId) == IdRange(table.rows[..at])
    {
      minId, maxId, at := 0, 0, 0;
      var prepared := CallSucceeds();
      if !prepared {
        return -1, minId, maxId, at;
      }
      OtherClients();
      var stepped := CallSucceeds();
      if !stepped {
        return -1, minId, maxId, at;
      }
      at := |table.rows|;
      ghost var seen := table.rows;
      if table.rows != [] {
        minId := ToInt32(table.rows[0].id);
        maxId := ToInt32(table.rows[|table.rows| - 1].id);
      }
      OtherClients();
      assert table.rows[..at] == seen;
      rc := 0;
    }

    /**
     sqlite3_step on the batch SELECT: the least matching id above the last one
     returned, in some version of the table between the start of the statement
     and now; DONE when that version has none or LIMIT is reached; or an error.
     */
    method Step(stmt: Statement) returns (result: StepResult, ghost seen: nat)
      requires Valid() && stmt.base <= |table.rows|
      modifies this`faults
      ensures faults == old(faults) + if result.Failed? then 1 else 0
      ensures stmt.base <= seen <= |table.rows|
      ensures result.RowReady? ==>
                && stmt.returned < limit
                && Select(table.rows[..seen], stmt.after + 1, stmt.hi) != []
                && result.row == Select(table.rows[..seen], stmt.after + 1, stmt.hi)[0]
      ensures result.Done? ==>
                stmt.returned >= limit || Select(table.rows[..seen], stmt.after + 1, stmt.hi) == []
    {
      var version: nat := *;
      if version < stmt.base || version > |table.rows| {
        version := |table.rows|;
      }
      seen := version;
      var broken: bool := *;
      if broken {
        faults := faults + 1;
        return Failed, seen;
      }
      if stmt.returned >= limit {
        return Done, seen;
      }
      var matching := Select(table.rows[..version], stmt.after + 1, stmt.hi);
      if matching == [] {
        return Done, seen;
      }
      return RowReady(matching[0]), seen;
    }

    /**
     sqlite_db_query_next_batch(). `page` are the rows read and `next` the id of
     the last one, `seen` the table version that answered the last step, `fault`
     whether a SQLite call failed during this one.
     */
    method QueryNextBatch(lastId: int32, endId: int32, buffer: array<char>, isFirst: bool)
      returns (rc: int, nextId: int32, rowCount: int,
               ghost page: seq<Row>, ghost next: int, ghost seen: nat, ghost fault: bool)
      requires Valid()
      modifies this`table, this`faults, buffer
      ensures Grows(old(table), table)
      ensures BatchOutcome(old(table).rows, table.rows, buffer[..], Batch(lastId as int, endId as int, limit, isFirst),
                           rc, page, next, seen, fault)
      ensures rc == 0 ==> nextId as int == next && rowCount == |page|
      ensures rc == -1 ==> nextId == lastId && rowCount == 0
      ensures faults >= old(faults) && (fault <==> faults > old(faults))
    {
      hide Header, BatchOutcome, Filling, Printed, Select, Ascending;
      ghost var b := Batch(lastId as int, endId as int, limit, isFirst);
      rc, nextId, rowCount, page, next, seen, fault := -1, lastId, 0, [], lastId as int, 0, false;
      if buffer.Length == 0 {
        HeaderTooLong(table.rows, table.rows, buffer[..], b);
        return;
      }
      buffer[0] := NUL;
      ghost var mem := buffer[..];
      var ready := CallSucceeds();
      if ready {
        ready := CallSucceeds();
      }
      if !ready {
        fault := true;
        BatchFaults(table.rows, table.rows, buffer[..], b, page, next, seen);
        return;
      }
      var used: nat := 0;
      if isFirst {
        var written := Snprintf(buffer, used, Header());
        if written >= buffer.Length - used {
          HeaderTooLong(table.rows, table.rows, buffer[..], b);
          return;
        }
        used := used + written;
      }
      HeaderFits(table.rows, mem, buffer[..], b);
      rc, nextId, rowCount, page, next, seen, fault := ReadRows(lastId, endId, buffer, isFirst, used);
    }

    /** The row loop of the batch, entered with the header (if any) in the buffer. */
    method ReadRows(lastId: int32, endId: int32, buffer: array<char>, isFirst: bool, headerLength: nat)
      returns (rc: int, nextId: int32, rowCount: int,
               ghost page: seq<Row>, ghost next: int, ghost seen: nat, ghost fault: bool)
      requires Valid()
      requires Filling(table.rows, buffer[..], Batch(lastId as int, endId as int, limit, isFirst),
                       [], lastId as int, headerLength)
      requires headerLength < buffer.Length
      modifies this`table, this`faults, buffer
      ensures Grows(old(table), table)
      ensures BatchOutcome(old(table).rows, table.rows, buffer[..], Batch(lastId as int, endId as int, limit, isFirst),
                           rc, page, next, seen, fault)
      ensures rc == 0 ==> nextId as int == next && rowCount == |page|
      ensures rc == -1 ==> nextId == lastId && rowCount == 0
      ensures faults >= old(faults) && (fault <==> faults > old(faults))
    {
      hide BatchOutcome, Filling, Printed, Select, Ascending, RenderRow, BatchTooLong;
      ghost var b := Batch(lastId as int, endId as int, limit, isFirst);
      ghost var before := table.rows;
      rc, nextId, rowCount, page, next, fault := -1, lastId, 0, [], lastId as int, false;
      var used, currentId, count := headerLength, lastId, 0;
      var base := |table.rows|;
      ghost var rows0 := table.rows;
      OtherClients();
      FillingSurvives(rows0, table.rows, buffer[..], b, page, next, used);
      var result: StepResult;
      result, seen := Step(Statement(currentId as int, endId as int, count, base));
      while result.RowReady?
        invariant Grows(old(table), table) && base == |before| <= seen <= |table.rows|
        invariant faults == old(faults) + if result.Failed? then 1 else 0
        invariant count == |page| && currentId as int == next && 0 <= used < buffer.Length
        invariant Filling(table.rows, buffer[..], b, page, next, used)
        invariant result.RowReady? ==>
                    && count < limit && Select(table.rows[..seen], next + 1, endId as int) != []
                    && result.row == Select(table.rows[..seen], next + 1, endId as int)[0]
        invariant result.Done? ==> count >= limit || Select(table.rows[..seen], next + 1, endId as int) == []
        decreases limit - count, result.RowReady?
      {
        ghost var mem := buffer[..];
        rows0 := table.rows;
        var id := ToInt32(result.row.id) as int32;
        var line := RenderRow(result.row.(id := id as int));
        var written := Snprintf(buffer, used, line);
        RowIdInRange(table.rows, seen, next, endId as int);
        RowFetched(table.rows, mem, buffer[..], b, page, next, used, seen);
        page, next := page + [result.row], result.row.id;
        if written >= buffer.Length - used {
          BatchOverflows(before, table.rows, buffer[..], b, page, next, seen);
          return;
        }
        used, count, currentId := used + written, count + 1, id;
        OtherClients();
        FillingSurvives(rows0, table.rows, buffer[..], b, page, next, used);
        result, seen := Step(Statement(currentId as int, endId as int, count, base));
      }
      ghost var mid := table.rows;
      OtherClients();
      if result.Failed? {
        fault := true;
        BatchFaults(before, table.rows, buffer[..], b, page, next, seen);
        return;
      }
      BatchFinishes(before, mid, table.rows, buffer[..], b, page, next, used, seen);
      rc, nextId, rowCount := 0, currentId, count;
    }
  }

  /** The 64-bit id of a fetched row fits the C int it is read into: the query range bounds it. */
  lemma RowIdInRange(rows: seq<Row>, seen: nat, next: int, endId: int)
    requires seen <= |rows| && Ascending(rows) && INT_MIN <= next && endId <= INT_MAX
    requires Select(rows[..seen], next + 1, endId) != []
    ensures var id := Select(rows[..seen], next + 1, endId)[0].id; ToInt32(id) == id
  {
    SelectFirst(rows[..seen], next + 1, endId);
    ToInt32Lossless(Select(rows[..seen], next + 1, endId)[0].id);
  }
}

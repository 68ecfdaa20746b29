/**
 What holds of every run of the server: it refines a sequential server in real
 time order, conserves readings, and keeps its promises to each client.
 */
module RunTheorems {
  import opened Wrappers
  import opened CText
  import opened DecimalText
  import opened SensorTable
  import opened RowText
  import opened RowDecoding
  import opened CommandText
  import opened Replies
  import opened Paging
  import opened ServerLog
  import opened ServerRuns

  lemma {:induction false} RunInv(states: seq<Server>, steps: seq<Step>, libc: Libc, i: nat)
    requires IsRun(states, steps, libc) && i <= |steps|
    ensures Inv(states[i]) && states[i].clock == i && states[i].origin == |states[0].table.rows|
    ensures |states[i].clients| == |states[0].clients|
  {
    hide Inv, Enabled, Apply;
    if i == 0 {
      RunStarts(states, steps, libc);
    } else {
      RunInv(states, steps, libc, i - 1);
      StepInv(states[i - 1], steps[i - 1], libc);
      StepGrows(states[i - 1], steps[i - 1], libc);
      StepTicks(states[i - 1], steps[i - 1], libc);
    }
  }

  /** The clock counts the steps of the run. */
  lemma StepTicks(s: Server, step: Step, libc: Libc)
    requires Enabled(s, step)
    ensures Apply(s, step, libc).clock == s.clock + 1
  {
    hide Select, OkText, HelpText, ErrorText, ParseCommand, QueryText, BatchText, RequestOf, Partial, PlaceOf, InsertAt;
  }

  lemma RunStarts(states: seq<Server>, steps: seq<Step>, libc: Libc)
    requires IsRun(states, steps, libc)
    ensures Inv(states[0]) && states[0].origin == |states[0].table.rows|
    ensures states[0].clock == 0 && states[0].log == []
    ensures forall c :: 0 <= c < |states[0].clients| ==>
              states[0].clients[c].requests == [] && states[0].clients[c].phase.Idle?
  {
    hide Inv, Enabled, Apply;
    var table, n: nat :| WellFormed(table) && states[0] == Start(table, n);
    StartInv(table, n);
  }

  lemma {:induction false} RunGrows(states: seq<Server>, steps: seq<Step>, libc: Libc, i: nat, j: nat)
    requires IsRun(states, steps, libc) && i <= j <= |steps|
    ensures Grows(states[i].table, states[j].table)
    decreases j - i
  {
    hide Inv, Grows, Enabled, Apply;
    if i == j {
      RunInv(states, steps, libc, i);
      StandsStill(states[i]);
    } else {
      RunGrows(states, steps, libc, i, j - 1);
      RunInv(states, steps, libc, j - 1);
      StepGrows(states[j - 1], steps[j - 1], libc);
      GrowsChain(states[i].table, states[j - 1].table, states[j].table);
    }
  }

  lemma StandsStill(s: Server)
    requires Inv(s)
    ensures Grows(s.table, s.table)
  {
    hide LogOk, ClientOk;
  }

  lemma GrowsChain(t0: Table, t1: Table, t2: Table)
    requires Grows(t0, t1) && Grows(t1, t2)
    ensures Grows(t0, t2)
  {
    hide WellFormed;
  }

  // ---- refinement ----

  /** The commands client `c` sends along a run, each with the step that received it. */
  function Received(steps: seq<Step>, c: nat, libc: Libc): seq<Receipt> {
    if steps == [] then []
    else Received(steps[..|steps| - 1], c, libc) + ReceivedAt(steps[|steps| - 1], |steps| - 1, c, libc)
  }

  function ReceivedAt(step: Step, clock: nat, c: nat, libc: Libc): seq<Receipt> {
    if step.Receive? && step.c == c then [Receipt(clock, ParseCommand(UpToNul(step.chunk), libc))] else []
  }

  lemma StepReceives(s: Server, step: Step, libc: Libc, c: nat)
    requires Enabled(s, step) && c < |s.clients|
    ensures |Apply(s, step, libc).clients| == |s.clients|
    ensures Apply(s, step, libc).clients[c].requests == s.clients[c].requests + ReceivedAt(step, s.clock, c, libc)
  {
    hide Select, OkText, HelpText, ErrorText, ParseCommand, QueryText, BatchText, RequestOf, Partial, PlaceOf, InsertAt;
  }

  /** The requests a client's state records are the chunks received from it, parsed, in order. */
  lemma {:induction false} RunReceives(states: seq<Server>, steps: seq<Step>, libc: Libc, i: nat, c: nat)
    requires IsRun(states, steps, libc) && i <= |steps| && c < |states[0].clients|
    ensures c < |states[i].clients| && states[i].clients[c].requests == Received(steps[..i], c, libc)
  {
    hide Inv, Enabled, Apply, ReceivedAt;
    if i == 0 {
      RunStarts(states, steps, libc);
    } else {
      RunReceives(states, steps, libc, i - 1, c);
      RunInv(states, steps, libc, i - 1);
      StepReceives(states[i - 1], steps[i - 1], libc, c);
      assert steps[..i][..i - 1] == steps[..i - 1];
    }
  }

  /**
   Main theorem. Every run of any number of interleaved clients is explained by a
   run of a server that executes the logged commands one at a time, from the table
   at the start to the table now, in an order that agrees with real time wherever
   commands do not overlap. Each client's entries are the chunks received from it,
   parsed, in order (the last one may be under way). What a client has been sent is
   the welcome line followed by that sequential run's replies: exactly, when nothing
   is under way, and otherwise up to the bytes still to be sent; after a failed send
   the bytes up to it are still a prefix of that stream.
   */
  lemma RunRefinesSequential(states: seq<Server>, steps: seq<Step>, libc: Libc, i: nat)
    requires IsRun(states, steps, libc) && i <= |steps|
    ensures var s := states[i];
            && LogOk(s.origin, s.table.rows, s.log) && RealTimeOrder(s.log)
            && var tables := Versions(s.origin, s.table.rows, s.log);
               && SequentialRun(tables, s.log)
               && tables[0] == states[0].table.rows && tables[|s.log|] == s.table.rows
    ensures forall c :: 0 <= c < |states[i].clients| ==> Faithful(states[i], c, Received(steps[..i], c, libc))
  {
    hide SequentialRun, LogOk, Versions, Faithful, Enabled, Apply, RealTimeOrder;
    RunInv(states, steps, libc, i);
    var s := states[i];
    LogIsSequential(s.origin, s.table.rows, s.log);
    LogKeepsTime(s.origin, s.table.rows, s.log);
    RunGrows(states, steps, libc, 0, i);
    forall c | 0 <= c < |s.clients| ensures Faithful(s, c, Received(steps[..i], c, libc)) {
      ClientIsFaithful(s, c);
      RunReceives(states, steps, libc, i, c);
    }
  }

  lemma LogKeepsTime(origin: nat, rows: seq<Row>, log: seq<Entry>)
    requires LogOk(origin, rows, log)
    ensures RealTimeOrder(log)
  {
    hide RealTimeOrder, DoneBefore, Inserts, AnsweredRight;
  }

  /** What the sequential run says about one client, given what was received from it. */
  ghost predicate Faithful(s: Server, c: nat, received: seq<Receipt>)
    requires c < |s.clients|
  {
    var cl := s.clients[c];
    var owed := WelcomeText() + RepliesTo(s.log, c);
    // Every command received is in the log, in order, except one that is under way.
    && received == RequestsBy(s.log, c) + (if Busy(cl.phase) then [Receipt(cl.begun, RequestOf(cl.phase))] else [])
    // With nothing under way the client has been sent exactly what the sequential run replied.
    && (cl.intact && !Busy(cl.phase) && cl.pending == "" ==> cl.wire == owed)
    // At any moment it is a prefix of that, plus the part of a running QUERY that was handed over.
    && (cl.intact ==> cl.wire + cl.pending == owed + Partial(cl.phase))
    && cl.sound <= |cl.wire| && (cl.intact ==> cl.sound == |cl.wire|)
    && cl.wire[..cl.sound] <= owed + Partial(cl.phase)
    // Those rows are a prefix of the selection, in the table as it is now.
    && (Querying(cl.phase) ==>
          RowsHanded(cl.phase) <= Select(s.table.rows, cl.phase.pager.startId, cl.phase.pager.endId))
  }

  lemma ClientIsFaithful(s: Server, c: nat)
    requires Inv(s) && c < |s.clients|
    ensures Faithful(s, c, s.clients[c].requests)
  {
    hide WelcomeText, RepliesTo, RequestsBy, QueryText, Select, LogOk, PhaseOk, DoneBefore, OwnDone, Ascending,
         RowsHanded;
    var cl := s.clients[c];
    assert ClientOk(s.origin, s.table.rows, s.log, c, cl);
    if Querying(cl.phase) {
      SentIsPrefix(s.table.rows, cl);
    } else {
      NothingHanded(cl.phase);
    }
    hide Partial;
    var owed := WelcomeText() + RepliesTo(s.log, c);
    assert owed + "" == owed && cl.wire + "" == cl.wire;
  }

  // ---- real time ----

  /** A step adds at most one entry, settled at that step: the log as of any earlier step stays what it was. */
  lemma StepKeepsHistory(s: Server, step: Step, libc: Libc, clock: nat)
    requires Enabled(s, step) && clock <= s.clock
    ensures SettledBy(Apply(s, step, libc).log, clock) == SettledBy(s.log, clock)
  {
    hide Select, OkText, HelpText, ErrorText, ParseCommand, QueryText, BatchText, RequestOf, Partial, PlaceOf, InsertAt,
         SettledBy;
    EntriesUnsettled(s, clock);
  }

  lemma EntriesUnsettled(s: Server, clock: nat)
    requires clock <= s.clock
    ensures forall p: nat, e: Entry :: p <= |s.log| && e.done == s.clock ==>
              SettledBy(InsertAt(s.log, p, e), clock) == SettledBy(s.log, clock)
  {
    forall p: nat, e: Entry | p <= |s.log| && e.done == s.clock
      ensures SettledBy(InsertAt(s.log, p, e), clock) == SettledBy(s.log, clock)
    {
      SettledUnchanged(s.log, p, e, clock);
    }
  }

  /**
   History is never rewritten: the entries settled by step `a` are, in the same
   order, the whole log of that moment; later steps only put new ones between them.
   */
  lemma {:induction false} RunKeepsHistory(states: seq<Server>, steps: seq<Step>, libc: Libc, a: nat, i: nat)
    requires IsRun(states, steps, libc) && a <= i <= |steps|
    ensures SettledBy(states[i].log, a) == states[a].log
    decreases i - a
  {
    hide Inv, Enabled, Apply, SettledBy;
    if a == i {
      RunInv(states, steps, libc, a);
      LogStamped(states[a]);
      AllSettled(states[a].log, a);
    } else {
      RunKeepsHistory(states, steps, libc, a, i - 1);
      RunInv(states, steps, libc, i - 1);
      StepKeepsHistory(states[i - 1], steps[i - 1], libc, a);
    }
  }

  lemma LogStamped(s: Server)
    requires Inv(s)
    ensures Stamped(s.log, s.clock)
  {
    hide LogOk, ClientOk, Stamped;
  }

  /**
   The rows a QUERY had handed over at any moment, the batch being sent included,
   are a prefix of its selection in every later table.
   */
  lemma DeliveredForever(states: seq<Server>, steps: seq<Step>, libc: Libc, i: nat, j: nat, c: nat)
    requires IsRun(states, steps, libc) && i <= j <= |steps| && c < |states[i].clients|
    requires Querying(states[i].clients[c].phase)
    ensures var phase := states[i].clients[c].phase;
            RowsHanded(phase) <= Select(states[j].table.rows, phase.pager.startId, phase.pager.endId)
  {
    hide Inv, Enabled, Apply, Select, WellFormed, RowsHanded;
    RunInv(states, steps, libc, i);
    RunGrows(states, steps, libc, i, j);
    HandedOver(states[i], c);
    var q := states[i].clients[c].phase.pager;
    SelectGrows(states[i].table.rows, states[j].table.rows, q.startId, q.endId);
  }

  lemma HandedOver(s: Server, c: nat)
    requires Inv(s) && c < |s.clients| && Querying(s.clients[c].phase)
    ensures RowsHanded(s.clients[c].phase)
         <= Select(s.table.rows, s.clients[c].phase.pager.startId, s.clients[c].phase.pager.endId)
  {
    hide LogOk, PhaseOk, Select, StreamOk, RequestsOk, DoneBefore, OwnDone, Ascending, RowsHanded;
    assert ClientOk(s.origin, s.table.rows, s.log, c, s.clients[c]);
    SentIsPrefix(s.table.rows, s.clients[c]);
  }

  /** Over every run the rows added correspond one to one, in order, to the acknowledged SENSOR commands. */
  lemma RunConserves(states: seq<Server>, steps: seq<Step>, libc: Libc, i: nat)
    requires IsRun(states, steps, libc) && i <= |steps|
    ensures var s := states[i];
            && states[0].table.rows <= s.table.rows
            && ReadingsOf(s.table.rows[|states[0].table.rows|..]) == AcceptedReadings(s.log)
  {
    hide LogOk, AcceptedReadings, ReadingsOf, Enabled, Apply;
    RunInv(states, steps, libc, i);
    RunGrows(states, steps, libc, 0, i);
    RowsAreAcceptedReadings(states[i].origin, states[i].table.rows, states[i].log);
  }

  // ---- what the parser lets in ----

  ghost predicate SensibleRequest(request: Option<Command>) {
    request.Some? ==> Sensible(request.value)
  }

  /** Everything stored since the start, and every command under way, has passed the parser. */
  ghost predicate FromParser(s: Server) {
    && (forall k :: s.origin <= k < |s.table.rows| ==> Sensible(Sensor(s.table.rows[k].reading)))
    && forall c :: 0 <= c < |s.clients| && Busy(s.clients[c].phase) ==> SensibleRequest(RequestOf(s.clients[c].phase))
  }

  lemma MoveFromParser(s: Server, c: nat, cl: Client)
    requires FromParser(s) && c < |s.clients| && (Busy(cl.phase) ==> SensibleRequest(RequestOf(cl.phase)))
    ensures FromParser(Move(s, c, cl))
  {
    hide SensibleRequest, Sensible, RequestOf, Busy;
  }

  lemma FinishFromParser(s: Server, c: nat, p: nat, ok: bool, at: nat, text: string)
    requires FromParser(s) && c < |s.clients| && Busy(s.clients[c].phase) && p <= |s.log|
    ensures FromParser(Finish(s, c, p, ok, at, text))
  {
    hide SensibleRequest, Sensible, RequestOf, InsertAt, Partial;
  }

  lemma RequestOfPhase(request: Option<Command>, size: nat)
    ensures Busy(PhaseFor(request, size)) && RequestOf(PhaseFor(request, size)) == request
  {
  }

  lemma ReceiveFromParser(s: Server, c: nat, chunk: string, libc: Libc)
    requires FromParser(s) && CanReceive(s, c, chunk)
    ensures FromParser(DoReceive(s, c, chunk, libc))
  {
    hide ParseCommand, Sensible, UpToNul, FromParser;
    var request := ParseCommand(UpToNul(chunk), libc);
    if request.Some? {
      ParsedIsSensible(UpToNul(chunk), libc);
    }
    RequestOfPhase(request, |s.table.rows|);
    var cl := s.clients[c];
    MoveFromParser(s, c, cl.(phase := PhaseFor(request, |s.table.rows|),
                             requests := cl.requests + [Receipt(s.clock, request)],
                             begun := s.clock, since := |s.table.rows|));
  }

  lemma InsertFromParser(s: Server, c: nat, id: int, timestamp: Option<string>)
    requires FromParser(s) && CanInsert(s, c, id)
    ensures FromParser(DoInsert(s, c, id, timestamp))
  {
    hide OkText, InsertAt, Sensible, Partial;
    assert SensibleRequest(RequestOf(s.clients[c].phase));
    FinishFromParser(s, c, |s.log|, true, |s.table.rows|, OkText());
  }

  lemma SendFromParser(s: Server, c: nat, n: nat)
    requires FromParser(s) && CanSend(s, c, n)
    ensures FromParser(DoSend(s, c, n))
  {
    hide SensibleRequest, Sensible;
  }

  lemma LoseFromParser(s: Server, c: nat)
    requires FromParser(s) && CanLose(s, c)
    ensures FromParser(DoLose(s, c))
  {
    hide SensibleRequest, Sensible, ErrorText, InsertAt, Partial;
  }

  lemma EndFromParser(s: Server, c: nat, version: nat)
    requires FromParser(s) && CanEnd(s, c, version)
    ensures FromParser(DoEnd(s, c, version))
  {
    hide SensibleRequest, Sensible, Ahead, InsertAt, Partial, PlaceOf, BatchText;
  }

  lemma ScanFromParser(s: Server, c: nat, page: seq<Row>, base: nat)
    requires FromParser(s) && c < |s.clients| && (s.clients[c].phase.Between? || s.clients[c].phase.Scanning?)
    ensures FromParser(Move(s, c, s.clients[c].(phase := Scanning(s.clients[c].phase.pager, base, page))))
  {
    hide Sensible, FromParser;
    assert SensibleRequest(RequestOf(s.clients[c].phase)) by { BusyFromParser(s, c); }
    MoveFromParser(s, c, s.clients[c].(phase := Scanning(s.clients[c].phase.pager, base, page)));
  }

  lemma BusyFromParser(s: Server, c: nat)
    requires FromParser(s) && c < |s.clients| && Busy(s.clients[c].phase)
    ensures SensibleRequest(RequestOf(s.clients[c].phase))
  {
    hide SensibleRequest, RequestOf, Busy;
  }

  lemma StepFromParser(s: Server, step: Step, libc: Libc)
    requires FromParser(s) && Enabled(s, step)
    ensures FromParser(Apply(s, step, libc))
  {
    hide FromParser, CanReceive, CanInsert, CanEnd, CanSend, CanLose, HelpText, ErrorText, IdRange, Ahead, BatchText,
         DoReceive, DoInsert, DoEnd, DoSend, DoLose, Move, Finish;
    match step
    case Receive(c, chunk) => ReceiveFromParser(s, c, chunk, libc);
    case InsertRow(c, id, timestamp) => InsertFromParser(s, c, id, timestamp);
    case ReadRange(c) =>
      var (lo, hi) := IdRange(s.table.rows);
      FinishFromParser(s, c, |s.log|, true, |s.table.rows|, HelpText(lo, hi));
    case BeginBatch(c) => ScanFromParser(s, c, [], |s.table.rows|);
    case FetchRow(c, version) => ScanFromParser(s, c, PageAhead(s, c, version), s.clients[c].phase.base);
    case FetchDone(c, version) => EndFromParser(s, c, version);
    case Overflows(c, _) => FinishFromParser(s, c, |s.log|, false, |s.table.rows|, ErrorText());
    case Refuses(c) => FinishFromParser(s, c, |s.log|, false, |s.table.rows|, ErrorText());
    case SqlFails(c) => FinishFromParser(s, c, |s.log|, false, |s.table.rows|, ErrorText());
    case SendSome(c, n) => SendFromParser(s, c, n);
    case SendFails(c) => LoseFromParser(s, c);
    case HangUp(c) => MoveFromParser(s, c, s.clients[c].(phase := Closed));
  }

  lemma StartFromParser(table: Table, n: nat)
    ensures FromParser(Start(table, n))
  {
    hide WelcomeText;
  }

  /**
   In every reachable state each row added since the start holds a reading that
   passed the parser - a trimmed device id of 1 to 63 bytes, without comma and
   NUL - and each QUERY under way has 0 <= start <= end <= 2^31-1.
   */
  lemma {:induction false} RunFromParser(states: seq<Server>, steps: seq<Step>, libc: Libc, i: nat)
    requires IsRun(states, steps, libc) && i <= |steps|
    ensures FromParser(states[i])
  {
    hide FromParser, Enabled, Apply;
    if i == 0 {
      var table, n: nat :| WellFormed(table) && states[0] == Start(table, n);
      StartFromParser(table, n);
    } else {
      RunFromParser(states, steps, libc, i - 1);
      StepFromParser(states[i - 1], steps[i - 1], libc);
    }
  }

  /** What is not up to the clients: device ids stored before the start, the timestamps, and the size of the values. */
  ghost predicate ModestRow(r: Row, inherited: bool) {
    && (inherited ==> |r.reading.device| <= 63)
    && (r.timestamp.Some? ==> |r.timestamp.value| <= 19)
    && SmallValues(r.reading)
  }

  lemma StoredIsModest(s: Server, k: nat)
    requires FromParser(s) && k < |s.table.rows| && ModestRow(s.table.rows[k], k < s.origin)
    ensures Modest(s.table.rows[k])
  {
    hide SmallValues, NoOuterSpace;
    if k >= s.origin {
      assert Sensible(Sensor(s.table.rows[k].reading));
    }
  }

  /** The page being read, with any row it may still take, continues the rows handed over. */
  lemma RowContinues(rows: seq<Row>, version: nat, after: int, hi: int, sent: seq<Row>, mid: int, page: seq<Row>,
                     next: int)
    requires Ascending(rows) && version <= |rows| && Select(rows[..version], next + 1, hi) != []
    requires CursorRead(rows, after, hi, sent, mid) && CursorRead(rows, mid, hi, page, next)
    ensures sent + (page + [Select(rows[..version], next + 1, hi)[0]]) <= Select(rows, after + 1, hi)
  {
    hide Select, Ascending, CursorRead;
    var r := Select(rows[..version], next + 1, hi)[0];
    CursorAdvances(rows, version, mid, hi, page, next);
    RowsContinue(rows, after, hi, sent, mid, page + [r], r.id);
  }

  lemma ScanFacts(rows: seq<Row>, cl: Client)
    requires PhaseOk(rows, cl) && cl.phase.Scanning?
    ensures var q, page := cl.phase.pager, cl.phase.page;
            && HandedOk(rows, cl.since, cl.phase) && LastHanded(cl.phase) == q.lastId
            && PagesHanded(cl.phase) == q.pages && |page| <= BATCH
            && CursorRead(rows, q.lastId, q.endId, page, Cursor(q, page))
  {
    hide HandedOk, CursorRead, BatchText;
  }

  lemma TailWithin(front: seq<Row>, tail: seq<Row>, all: seq<Row>)
    requires front + tail <= all
    ensures forall r :: r in tail ==> r in all
  {
    assert forall i :: 0 <= i < |tail| ==> tail[i] == all[|front| + i];
  }

  lemma RowsContinue(rows: seq<Row>, after: int, hi: int, sent: seq<Row>, mid: int, more: seq<Row>, next: int)
    requires Ascending(rows)
    requires CursorRead(rows, after, hi, sent, mid) && CursorRead(rows, mid, hi, more, next)
    ensures sent + more <= Select(rows, after + 1, hi)
  {
    hide Select, Ascending, CursorRead;
    CursorJoins(rows, after, hi, sent, mid, more, next);
    CursorIsPrefix(rows, after, hi, sent + more, next);
  }

  /** The rows in the range of the QUERY client `c` is at are modest. */
  ghost predicate ModestRange(s: Server, c: nat)
    requires c < |s.clients| && Querying(s.clients[c].phase)
  {
    var q := s.clients[c].phase.pager;
    forall k :: 0 <= k < |s.table.rows| && q.startId <= s.table.rows[k].id <= q.endId ==>
      ModestRow(s.table.rows[k], k < s.origin)
  }

  lemma ModestStateFits(s: Server, c: nat, version: nat)
    requires Inv(s) && FromParser(s) && HasRow(s, c, version) && ModestRange(s, c)
    ensures CanFetch(s, c, version) && !CanOverflow(s, c, version)
  {
    hide FromParser, Select, BatchText, ModestRow, Modest, LogOk, DoneBefore, OwnDone, StreamOk, RequestsOk, Ascending,
         PhaseOk, HandedOk, RowsHanded, LastHanded, CursorRead, Cursor;
    var cl := s.clients[c];
    var q, page := cl.phase.pager, PageAhead(s, c, version);
    assert ClientOk(s.origin, s.table.rows, s.log, c, cl);
    ScanFacts(s.table.rows, cl);
    HandedNow(s.table.rows, cl.since, cl.phase);
    RowContinues(s.table.rows, version, q.startId - 1, q.endId, RowsHanded(cl.phase), q.lastId, cl.phase.page,
                 Cursor(q, cl.phase.page));
    TailWithin(RowsHanded(cl.phase), page, Select(s.table.rows, q.startId, q.endId));
    BusyFromParser(s, c);
    SelectMembers(s.table.rows, q.startId, q.endId);
    forall j | 0 <= j < |page| ensures Modest(page[j]) && 0 <= page[j].id <= INT_MAX {
      assert page[j] in page && page[j] in Select(s.table.rows, q.startId, q.endId);
      var k :| 0 <= k < |s.table.rows| && s.table.rows[k] == page[j];
      StoredIsModest(s, k);
    }
    ModestBatchFits(q.pages == [], page);
  }

  /**
   Over every run, no batch overflows its buffer as long as the rows in the
   QUERY's range have values below 10^14 and schema timestamps: what the parser
   accepted takes care of the rest.
   */
  lemma ModestRunsFit(states: seq<Server>, steps: seq<Step>, libc: Libc, i: nat, c: nat, version: nat)
    requires IsRun(states, steps, libc) && i <= |steps| && HasRow(states[i], c, version)
    requires ModestRange(states[i], c)
    ensures CanFetch(states[i], c, version) && !CanOverflow(states[i], c, version)
  {
    hide Inv, FromParser, Enabled, Apply, HasRow, CanFetch, CanOverflow, ModestRange;
    RunInv(states, steps, libc, i);
    RunFromParser(states, steps, libc, i);
    ModestStateFits(states[i], c, version);
  }

  /** What is not up to the parser: device ids stored before the start are C strings, timestamps are plain. */
  ghost predicate PlainRow(r: Row, inherited: bool) {
    && (inherited ==> NoNul(r.reading.device))
    && r.timestamp.Some? && NoNul(r.timestamp.value)
    && '|' !in r.timestamp.value && '\n' !in r.timestamp.value
  }

  lemma PlainIsStored(s: Server, k: nat)
    requires FromParser(s) && WellFormed(s.table) && k < |s.table.rows| && PlainRow(s.table.rows[k], k < s.origin)
    ensures Stored(s.table.rows[k])
  {
    hide NoOuterSpace, Ascending;
    if k >= s.origin {
      assert Sensible(Sensor(s.table.rows[k].reading));
    }
  }

  /**
   Over every run, the reply to a successful QUERY decodes to exactly the rows of
   its range, with every value and device id - if and only if none of these device
   ids contains a line break.
   */
  lemma RunAnswersDecode(states: seq<Server>, steps: seq<Step>, libc: Libc, i: nat, j: nat)
    requires IsRun(states, steps, libc) && i <= |steps| && j < |states[i].log|
    requires var e := states[i].log[j]; e.ok && e.request.Some? && e.request.value.Query?
    requires var s, e := states[i], states[i].log[j];
             forall k :: 0 <= k < e.at && k < |s.table.rows| ==>
               e.request.value.startId <= s.table.rows[k].id <= e.request.value.endId ==>
                 PlainRow(s.table.rows[k], k < s.origin)
    ensures var s, e := states[i], states[i].log[j];
            && e.at <= |s.table.rows|
            && var answer := Select(s.table.rows[..e.at], e.request.value.startId, e.request.value.endId);
               Decode(e.reply) == Some(answer) <==> SingleLine(answer)
  {
    hide FromParser, Enabled, Apply, Select, QueryText, Decode, PlainRow, Stored, LogOk, ClientOk, Answers, Ascending;
    RunInv(states, steps, libc, i);
    RunFromParser(states, steps, libc, i);
    var s, e := states[i], states[i].log[j];
    EntryFacts(s.origin, s.table.rows, s.log, j);
    QueryAnswered(s.table.rows, e);
    var query := e.request.value;
    var answer := Select(s.table.rows[..e.at], query.startId, query.endId);
    SelectMembers(s.table.rows[..e.at], query.startId, query.endId);
    forall m | 0 <= m < |answer| ensures Stored(answer[m]) {
      assert answer[m] in answer && answer[m] in s.table.rows[..e.at];
      var k :| 0 <= k < e.at && s.table.rows[..e.at][k] == answer[m];
      assert s.table.rows[k] == answer[m];
      PlainIsStored(s, k);
    }
    AnswerDecodes(answer);
  }

  // ---- what a client may rely on ----

  /**
   Fresh reads: a successful QUERY received after some client's SENSOR was settled
   contains the stored row, if its id is in range - whichever clients sent the two.
   A client's own earlier commands are always settled when its next is received.
   */
  lemma AnswersAreFresh(s: Server, i: nat, j: nat)
    requires Inv(s) && i < |s.log| && j < |s.log|
    requires s.log[i].done < s.log[j].begun || (i < j && s.log[i].client == s.log[j].client)
    requires Stores(s.log[i]) && s.log[j].ok && s.log[j].request.Some? && s.log[j].request.value.Query?
    ensures var stored, query := s.log[i], s.log[j].request.value;
            && i < j && stored.at < s.log[j].since <= s.log[j].at <= |s.table.rows|
            && var row := s.table.rows[stored.at];
               var answer := Select(s.table.rows[..s.log[j].at], query.startId, query.endId);
               && row.reading == stored.request.value.reading
               && s.log[j].reply == QueryText(answer)
               && (row in answer <==> query.startId <= row.id <= query.endId)
  {
    hide ClientOk, Select, QueryText, LogOk, Answers, Inserts, Ascending;
    if i < j && s.log[i].client == s.log[j].client {
      OwnOrder(s.origin, s.table.rows, s.log, i, j);
    }
    EntryFacts(s.origin, s.table.rows, s.log, i);
    EntryFacts(s.origin, s.table.rows, s.log, j);
    SettledFirst(s.origin, s.table.rows, s.log, i, j);
    StoredRow(s.table.rows, s.log[i]);
    QueryAnswered(s.table.rows, s.log[j]);
    var query := s.log[j].request.value;
    var row, seen := s.table.rows[s.log[i].at], s.table.rows[..s.log[j].at];
    assert row == seen[s.log[i].at];
    SelectMembers(seen, query.startId, query.endId);
  }

  /**
   Stable ranges: once HELP reported a..b, every successful QUERY,a,b of any client
   that was received after HELP was settled, or saw no older a table, answers
   exactly the rows HELP saw, whatever was inserted in between - if and only if
   their ids fit in an int or there were none.
   */
  lemma ReportedRangeAnswers(s: Server, i: nat, j: nat)
    requires Inv(s) && i < |s.log| && j < |s.log|
    requires s.log[i].done < s.log[j].begun || s.log[i].at <= s.log[j].at
    requires s.log[i].ok && s.log[i].request == Some(Help)
    requires s.log[i].at <= |s.table.rows|
    requires var (lo, hi) := IdRange(s.table.rows[..s.log[i].at]);
             s.log[j].ok && s.log[j].request == Some(Query(lo, hi))
    ensures var reported := s.table.rows[..s.log[i].at];
            && s.log[i].reply == HelpText(IdRange(reported).0, IdRange(reported).1)
            && s.log[i].at <= s.log[j].at <= |s.table.rows|
            && var answer := Select(s.table.rows[..s.log[j].at], IdRange(reported).0, IdRange(reported).1);
               && s.log[j].reply == QueryText(answer)
               && (answer == reported <==> reported == [] || reported[|reported| - 1].id <= INT_MAX)
  {
    hide ClientOk, Select, QueryText, HelpText, IdRange, LogOk, Answers, Inserts;
    EntryFacts(s.origin, s.table.rows, s.log, i);
    EntryFacts(s.origin, s.table.rows, s.log, j);
    if s.log[i].done < s.log[j].begun {
      SettledFirst(s.origin, s.table.rows, s.log, i, j);
    }
    HelpAnswered(s.table.rows, s.log[i]);
    QueryAnswered(s.table.rows, s.log[j]);
    var t := VersionTable(s.table, s.log[i].at);
    var t' := VersionTable(s.table, s.log[j].at);
    assert t'.rows[..s.log[i].at] == t.rows;
    ReportedRangeIsStable(t, t');
  }

  /** An earlier version of a well-formed table is well-formed. */
  ghost function VersionTable(t: Table, n: nat): (v: Table)
    requires WellFormed(t) && n <= |t.rows|
    ensures WellFormed(v) && v.rows == t.rows[..n] && v.highest == t.highest
  {
    Table(t.rows[..n], t.highest)
  }
}

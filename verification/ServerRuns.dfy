/**
 The whole server: any number of client threads over one shared table, each
 taking one small step at a time - one SQLite call, one partial send - in any
 interleaving. The log is the history that turns every such run into a run of a
 server that executes whole commands one after the other.
 */
module ServerRuns {
  import opened Wrappers
  import opened CText
  import opened SensorTable
  import opened RowText
  import opened CommandText
  import opened Replies
  import opened Paging
  import opened ServerLog

  const CHUNK_LIMIT := 127

  /**
   A QUERY in progress: its range, the last id delivered, the pages delivered so
   far, and the size of the table when the last of them was handed to the socket.
   */
  datatype Pager = Pager(startId: int, endId: int, lastId: int, pages: seq<seq<Row>>, handed: nat) {

    function Ask(): Asked {
      Asked(startId, endId, BATCH)
    }
  }

  /** Where a client thread stands between two of its steps. */
  datatype Phase =
    | Idle
    | Refusing                                          // the chunk did not parse; the error line is due
    | Inserting(reading: Reading)                       // about to run the INSERT
    | Ranging                                           // about to run SELECT MIN, MAX
    | Between(pager: Pager)                             // about to start the next batch SELECT
    | Scanning(pager: Pager, base: nat, page: seq<Row>) // stepping the SELECT begun when the table had `base` rows
    | Handing(pager: Pager, page: seq<Row>)             // sending a batch
    | Closed

  /**
   `wire` are the bytes sent, `pending` those still to be sent, `intact` whether
   no send has failed yet, `sound` the bytes that went out before one did,
   `requests` the parsed commands received, `begun` the step of the last and
   `since` the table size then.
   */
  datatype Client = Client(phase: Phase, wire: string, pending: string, intact: bool, sound: nat,
                           requests: seq<Receipt>, begun: nat, since: nat)

  /** `clock` counts the steps taken, `origin` the rows there were at the start. */
  datatype Server = Server(origin: nat, clock: nat, table: Table, clients: seq<Client>, log: seq<Entry>)

  datatype Step =
    | Receive(c: nat, chunk: string)
    | InsertRow(c: nat, id: int, timestamp: Option<string>)
    | ReadRange(c: nat)
    | BeginBatch(c: nat)
    | FetchRow(c: nat, version: nat)
    | FetchDone(c: nat, version: nat)
    | Overflows(c: nat, version: nat)
    | Refuses(c: nat)            // the chunk did not parse
    | SqlFails(c: nat)
    | SendSome(c: nat, n: nat)
    | SendFails(c: nat)
    | HangUp(c: nat)

  predicate Busy(phase: Phase) {
    !phase.Idle? && !phase.Closed?
  }

  predicate Querying(phase: Phase) {
    phase.Between? || phase.Scanning? || phase.Handing?
  }

  function RequestOf(phase: Phase): Option<Command>
    requires Busy(phase)
  {
    match phase
    case Refusing => None
    case Inserting(r) => Some(Sensor(r))
    case Ranging => Some(Help)
    case Between(q) => Some(Query(q.startId, q.endId))
    case Scanning(q, _, _) => Some(Query(q.startId, q.endId))
    case Handing(q, _) => Some(Query(q.startId, q.endId))
  }

  /** The pages a QUERY under way has given to the output handler, the one being sent included. */
  function PagesHanded(phase: Phase): seq<seq<Row>> {
    match phase
    case Between(q) => q.pages
    case Scanning(q, _, _) => q.pages
    case Handing(q, page) => q.pages + [page]
    case _ => []
  }

  /** The last id among them. */
  function LastHanded(phase: Phase): int
    requires Querying(phase)
  {
    match phase
    case Handing(q, page) => Cursor(q, page)
    case _ => phase.pager.lastId
  }

  function RowsHanded(phase: Phase): seq<Row> {
    Flatten(PagesHanded(phase))
  }

  /** What the command in progress has handed to the socket so far. */
  function Partial(phase: Phase): string {
    QueryText(RowsHanded(phase))
  }

  /** The id the running SELECT stands on. */
  function Cursor(q: Pager, page: seq<Row>): int {
    if page == [] then q.lastId else page[|page| - 1].id
  }

  /** What a command received on a table of `size` rows starts with. */
  function PhaseFor(request: Option<Command>, size: nat): Phase {
    match request
    case None => Refusing
    case Some(Sensor(r)) => Inserting(r)
    case Some(Query(a, b)) => Between(Pager(a, b, a - 1, [], size))
    case Some(Help) => Ranging
  }

  // ---- one step ----

  /** The current command of client `c` takes effect: its entry goes to place `p` of the log, `text` is left to send. */
  function Finish(s: Server, c: nat, p: nat, ok: bool, at: nat, text: string): Server
    requires c < |s.clients| && Busy(s.clients[c].phase) && p <= |s.log|
  {
    var cl := s.clients[c];
    s.(clients := s.clients[c := cl.(phase := Idle, pending := text)],
       log := InsertAt(s.log, p, EntryOf(s, c, ok, at, text)), clock := s.clock + 1)
  }

  /** The log entry of the command client `c` is at, settled now. */
  function EntryOf(s: Server, c: nat, ok: bool, at: nat, text: string): Entry
    requires c < |s.clients| && Busy(s.clients[c].phase)
  {
    var cl := s.clients[c];
    Entry(c, RequestOf(cl.phase), ok, Partial(cl.phase) + text, at, cl.since, cl.begun, s.clock)
  }

  function Put(s: Server, c: nat, cl: Client): Server
    requires c < |s.clients|
  {
    s.(clients := s.clients[c := cl])
  }

  /** A step of client `c` that settles nothing. */
  function Move(s: Server, c: nat, cl: Client): Server
    requires c < |s.clients|
  {
    Put(s, c, cl).(clock := s.clock + 1)
  }

  predicate CanReceive(s: Server, c: nat, chunk: string) {
    c < |s.clients| && s.clients[c].phase.Idle? && s.clients[c].pending == "" && 1 <= |chunk| <= CHUNK_LIMIT
  }

  /** recv returned a chunk, which is parsed at once. */
  function DoReceive(s: Server, c: nat, chunk: string, libc: Libc): Server
    requires CanReceive(s, c, chunk)
  {
    var request := ParseCommand(UpToNul(chunk), libc);
    var cl := s.clients[c];
    Move(s, c, cl.(phase := PhaseFor(request, |s.table.rows|), requests := cl.requests + [Receipt(s.clock, request)],
                   begun := s.clock, since := |s.table.rows|))
  }

  predicate CanInsert(s: Server, c: nat, id: int) {
    c < |s.clients| && s.clients[c].phase.Inserting? && s.table.highest < id <= MAX_ROWID
  }

  function DoInsert(s: Server, c: nat, id: int, timestamp: Option<string>): Server
    requires CanInsert(s, c, id)
  {
    var row := Row(id, s.clients[c].phase.reading, timestamp);
    var s' := Finish(s, c, |s.log|, true, |s.table.rows|, OkText());
    s'.(table := Insert(s.table, row))
  }

  predicate CanReadRange(s: Server, c: nat) {
    c < |s.clients| && s.clients[c].phase.Ranging?
  }

  function DoReadRange(s: Server, c: nat): Server
    requires CanReadRange(s, c)
  {
    var (lo, hi) := IdRange(s.table.rows);
    Finish(s, c, |s.log|, true, |s.table.rows|, HelpText(lo, hi))
  }

  predicate CanBegin(s: Server, c: nat) {
    c < |s.clients| && s.clients[c].phase.Between?
  }

  function DoBegin(s: Server, c: nat): Server
    requires CanBegin(s, c)
  {
    var cl := s.clients[c];
    Move(s, c, cl.(phase := Scanning(cl.phase.pager, |s.table.rows|, [])))
  }

  /** What version `version` of the table still has for the SELECT of client `c`. */
  function Ahead(s: Server, c: nat, version: nat): seq<Row>
    requires c < |s.clients| && s.clients[c].phase.Scanning? && version <= |s.table.rows|
  {
    var scan := s.clients[c].phase;
    Select(s.table.rows[..version], Cursor(scan.pager, scan.page) + 1, scan.pager.endId)
  }

  /** The version answering a step lies between the start of the statement and now. */
  predicate CanStep(s: Server, c: nat, version: nat) {
    c < |s.clients| && s.clients[c].phase.Scanning? && s.clients[c].phase.base <= version <= |s.table.rows|
  }

  predicate HasRow(s: Server, c: nat, version: nat) {
    CanStep(s, c, version) && |s.clients[c].phase.page| < BATCH && Ahead(s, c, version) != []
  }

  /** The batch with the next row on top. */
  function PageAhead(s: Server, c: nat, version: nat): seq<Row>
    requires HasRow(s, c, version)
  {
    s.clients[c].phase.page + [Ahead(s, c, version)[0]]
  }

  predicate CanFetch(s: Server, c: nat, version: nat) {
    && HasRow(s, c, version)
    && |BatchText(s.clients[c].phase.pager.pages == [], PageAhead(s, c, version))| < BATCH_BUFFER
  }

  /** sqlite3_step returned a row, and its line fits the batch buffer. */
  function DoFetch(s: Server, c: nat, version: nat): Server
    requires CanFetch(s, c, version)
  {
    var cl := s.clients[c];
    Move(s, c, cl.(phase := Scanning(cl.phase.pager, cl.phase.base, PageAhead(s, c, version))))
  }

  /** sqlite3_step returned a row whose line reaches the end of the batch buffer: the QUERY fails. */
  predicate CanOverflow(s: Server, c: nat, version: nat) {
    && HasRow(s, c, version)
    && |BatchText(s.clients[c].phase.pager.pages == [], PageAhead(s, c, version))| >= BATCH_BUFFER
  }

  predicate CanEnd(s: Server, c: nat, version: nat) {
    CanStep(s, c, version) && (|s.clients[c].phase.page| >= BATCH || Ahead(s, c, version) == [])
  }

  /** sqlite3_step returned DONE: an empty batch ends the QUERY, any other is handed to the socket. */
  function DoEnd(s: Server, c: nat, version: nat): Server
    requires CanEnd(s, c, version)
  {
    var cl := s.clients[c];
    var q, page := cl.phase.pager, cl.phase.page;
    if page == [] then
      Finish(s, c, PlaceOf(s.log, if version >= s.origin then version - s.origin else 0), true, version, "")
    else
      Move(s, c, cl.(phase := Handing(q.(handed := |s.table.rows|), page), pending := BatchText(q.pages == [], page)))
  }

  predicate CanFail(s: Server, c: nat) {
    c < |s.clients| && Busy(s.clients[c].phase) && !s.clients[c].phase.Handing?
  }

  function DoFail(s: Server, c: nat): Server
    requires CanFail(s, c)
  {
    Finish(s, c, |s.log|, false, |s.table.rows|, ErrorText())
  }

  predicate CanRefuse(s: Server, c: nat) {
    c < |s.clients| && s.clients[c].phase.Refusing?
  }

  predicate CanSqlFail(s: Server, c: nat) {
    CanFail(s, c) && !s.clients[c].phase.Refusing?
  }

  predicate CanSend(s: Server, c: nat, n: nat) {
    c < |s.clients| && 1 <= n <= |s.clients[c].pending|
  }

  /** Some bytes went out; a batch sent whole moves the QUERY on to its next batch. */
  function DoSend(s: Server, c: nat, n: nat): Server
    requires CanSend(s, c, n)
  {
    var cl := s.clients[c];
    var rest := cl.pending[n..];
    var cl' := cl.(wire := cl.wire + cl.pending[..n], pending := rest,
                   sound := if cl.intact then |cl.wire| + n else cl.sound);
    Move(s, c, if rest == "" then cl'.(phase := AfterSend(cl.phase)) else cl')
  }

  function AfterSend(phase: Phase): Phase {
    if phase.Handing? then
      var q := phase.pager;
      Between(q.(lastId := Cursor(q, phase.page), pages := q.pages + [phase.page]))
    else phase
  }

  predicate CanLose(s: Server, c: nat) {
    c < |s.clients| && s.clients[c].pending != ""
  }

  /** A send failed: a QUERY fails with it and tries to send its error line; any other reply is dropped. */
  function DoLose(s: Server, c: nat): Server
    requires CanLose(s, c)
  {
    var cl := s.clients[c].(intact := false);
    if cl.phase.Handing? then Finish(Put(s, c, cl), c, |s.log|, false, |s.table.rows|, ErrorText())
    else Move(s, c, cl.(pending := ""))
  }

  predicate CanHangUp(s: Server, c: nat) {
    c < |s.clients| && s.clients[c].phase.Idle? && s.clients[c].pending == ""
  }

  function DoHangUp(s: Server, c: nat): Server
    requires CanHangUp(s, c)
  {
    Move(s, c, s.clients[c].(phase := Closed))
  }

  predicate Enabled(s: Server, step: Step) {
    match step
    case Receive(c, chunk) => CanReceive(s, c, chunk)
    case InsertRow(c, id, _) => CanInsert(s, c, id)
    case ReadRange(c) => CanReadRange(s, c)
    case BeginBatch(c) => CanBegin(s, c)
    case FetchRow(c, version) => CanFetch(s, c, version)
    case FetchDone(c, version) => CanEnd(s, c, version)
    case Overflows(c, version) => CanOverflow(s, c, version)
    case Refuses(c) => CanRefuse(s, c)
    case SqlFails(c) => CanSqlFail(s, c)
    case SendSome(c, n) => CanSend(s, c, n)
    case SendFails(c) => CanLose(s, c)
    case HangUp(c) => CanHangUp(s, c)
  }

  function Apply(s: Server, step: Step, libc: Libc): Server
    requires Enabled(s, step)
  {
    hide BatchText, Select, Ahead, PageAhead;
    match step
    case Receive(c, chunk) => DoReceive(s, c, chunk, libc)
    case InsertRow(c, id, timestamp) => DoInsert(s, c, id, timestamp)
    case ReadRange(c) => DoReadRange(s, c)
    case BeginBatch(c) => DoBegin(s, c)
    case FetchRow(c, version) => DoFetch(s, c, version)
    case FetchDone(c, version) => DoEnd(s, c, version)
    case Overflows(c, version) => DoFail(s, c)
    case Refuses(c) => DoFail(s, c)
    case SqlFails(c) => DoFail(s, c)
    case SendSome(c, n) => DoSend(s, c, n)
    case SendFails(c) => DoLose(s, c)
    case HangUp(c) => DoHangUp(s, c)
  }

  /** A server over an existing database file, with `n` fresh connections. */
  function Start(table: Table, n: nat): Server {
    Server(|table.rows|, 0, table,
           seq(n, _ => Client(Idle, "", WelcomeText(), true, 0, [], 0, |table.rows|)), [])
  }

  /** `states` are the server's states along the run that takes `steps`. */
  ghost predicate IsRun(states: seq<Server>, steps: seq<Step>, libc: Libc) {
    && |states| == |steps| + 1
    && (exists table, n: nat :: WellFormed(table) && states[0] == Start(table, n))
    && forall i :: 0 <= i < |steps| ==>
         Enabled(states[i], steps[i]) && states[i + 1] == Apply(states[i], steps[i], libc)
  }

  // ---- the invariant ----

  /** The stream the sequential server owes client `c`: welcome, its replies in order, what is under way. */
  function Stream(log: seq<Entry>, c: nat, phase: Phase): string {
    WelcomeText() + RepliesTo(log, c) + Partial(phase)
  }

  ghost predicate StreamOk(log: seq<Entry>, c: nat, cl: Client) {
    && cl.sound <= |cl.wire|
    && cl.wire[..cl.sound] <= Stream(log, c, cl.phase)
    && (cl.intact ==> cl.sound == |cl.wire| && cl.wire + cl.pending == Stream(log, c, cl.phase))
  }

  /** The pages handed over are right for the table as it was then, and on track for the answer at receipt. */
  ghost predicate HandedOk(rows: seq<Row>, since: nat, phase: Phase)
    requires Querying(phase)
  {
    var q := phase.pager;
    && since <= q.handed <= |rows|
    && Delivered(rows[..since], rows[..q.handed], q.Ask(), LastHanded(phase), PagesHanded(phase))
  }

  /** The page being read is right for the table as it is now, and fits. */
  ghost predicate ScanOk(rows: seq<Row>, q: Pager, base: nat, page: seq<Row>) {
    && q.handed <= base <= |rows|
    && PageRead(rows, q.lastId, q.endId, BATCH, page, Cursor(q, page))
    && |BatchText(q.pages == [], page)| < BATCH_BUFFER
  }

  ghost predicate PhaseOk(rows: seq<Row>, cl: Client) {
    && (cl.pending != "" ==> cl.phase.Idle? || cl.phase.Handing?)
    && (Querying(cl.phase) ==> HandedOk(rows, cl.since, cl.phase))
    && (cl.phase.Scanning? ==> ScanOk(rows, cl.phase.pager, cl.phase.base, cl.phase.page))
    && (cl.phase.Handing? ==> cl.pending != "" && cl.phase.page != [])
  }

  ghost predicate RequestsOk(log: seq<Entry>, c: nat, cl: Client) {
    cl.requests == RequestsBy(log, c) + if Busy(cl.phase) then [Receipt(cl.begun, RequestOf(cl.phase))] else []
  }

  ghost predicate ClientOk(origin: nat, rows: seq<Row>, log: seq<Entry>, c: nat, cl: Client) {
    && origin <= cl.since <= |rows|
    && (Busy(cl.phase) ==> DoneBefore(origin, log, cl.begun, cl.since) && OwnDone(log, c, cl.begun))
    && RequestsOk(log, c, cl)
    && PhaseOk(rows, cl)
    && StreamOk(log, c, cl)
  }

  ghost predicate Inv(s: Server) {
    && WellFormed(s.table)
    && LogOk(s.origin, s.table.rows, s.log)
    && Timely(s)
    && forall c :: 0 <= c < |s.clients| ==> ClientOk(s.origin, s.table.rows, s.log, c, s.clients[c])
  }

  /** No step recorded anywhere is still to come. */
  ghost predicate Timely(s: Server) {
    Stamped(s.log, s.clock) && forall c :: 0 <= c < |s.clients| ==> s.clients[c].begun <= s.clock
  }

  lemma StartInv(table: Table, n: nat)
    requires WellFormed(table)
    ensures Inv(Start(table, n))
  {
    hide WelcomeText, Partial, Ascending, HandedOk, ScanOk;
    NothingHanded(Idle);
    assert WelcomeText() + "" == WelcomeText();
  }

  // ---- other clients' steps ----

  /** Another client's entry, or its row, changes nothing for this client. */
  lemma OtherLogged(origin: nat, rows: seq<Row>, log: seq<Entry>, c: nat, cl: Client, p: nat, e: Entry)
    requires ClientOk(origin, rows, log, c, cl) && p <= |log| && e.client != c && !Stores(e) && cl.begun <= e.done
    ensures ClientOk(origin, rows, InsertAt(log, p, e), c, cl)
  {
    hide PhaseOk, RequestsBy, RepliesTo, InsertAt, Stores, Partial, DoneBefore, OwnDone;
    OthersUnaffected(log, p, e, c);
    if Busy(cl.phase) {
      DoneBeforeInserted(origin, log, p, e, cl.begun, cl.since);
      OwnDoneInserted(log, p, e, c, cl.begun);
    }
  }

  lemma OtherStored(origin: nat, rows: seq<Row>, rows': seq<Row>, log: seq<Entry>, c: nat, cl: Client, e: Entry)
    requires ClientOk(origin, rows, log, c, cl) && e.client != c && cl.begun <= e.done
    requires rows <= rows' && Ascending(rows')
    ensures ClientOk(origin, rows', InsertAt(log, |log|, e), c, cl)
  {
    hide PhaseOk, RequestsBy, RepliesTo, InsertAt, Stores, Partial, DoneBefore, OwnDone, Ascending;
    OthersUnaffected(log, |log|, e, c);
    InsertAtLength(log, |log|, e);
    if Busy(cl.phase) {
      DoneBeforeAppended(origin, log, e, cl.begun, cl.since);
      OwnDoneInserted(log, |log|, e, c, cl.begun);
    }
    PhaseSurvives(rows, rows', cl);
  }

  /** The rows a QUERY has delivered or read stay exactly the right ones when the table grows. */
  lemma PhaseSurvives(rows: seq<Row>, rows': seq<Row>, cl: Client)
    requires PhaseOk(rows, cl) && rows <= rows' && Ascending(rows')
    ensures PhaseOk(rows', cl)
  {
    hide CursorRead, Ascending, Delivered, BatchText, PagesHanded, LastHanded;
    if Querying(cl.phase) {
      var q := cl.phase.pager;
      assert rows'[..cl.since] == rows[..cl.since] && rows'[..q.handed] == rows[..q.handed];
      if cl.phase.Scanning? {
        CursorSurvives(rows, rows', q.lastId, q.endId, cl.phase.page, Cursor(q, cl.phase.page));
      }
    }
  }

  // ---- a client's own steps ----

  /** A step that neither logs nor stores keeps the invariant if it does so for its client. */
  lemma PutInv(s: Server, c: nat, cl: Client)
    requires Inv(s) && c < |s.clients| && ClientOk(s.origin, s.table.rows, s.log, c, cl) && cl.begun <= s.clock
    ensures Inv(Put(s, c, cl))
  {
    hide ClientOk, LogOk, WellFormed;
  }

  lemma MoveInv(s: Server, c: nat, cl: Client)
    requires Inv(s) && c < |s.clients| && ClientOk(s.origin, s.table.rows, s.log, c, cl) && cl.begun <= s.clock
    ensures Inv(Move(s, c, cl))
  {
    hide ClientOk, LogOk, WellFormed;
    PutInv(s, c, cl);
  }

  /** The client whose command just took effect: the reply is the new end of its stream. */
  lemma OwnFinished(origin: nat, rows: seq<Row>, rows': seq<Row>, log: seq<Entry>, c: nat, cl: Client, p: nat,
                    e: Entry, text: string)
    requires ClientOk(origin, rows, log, c, cl) && Busy(cl.phase) && p <= |log| && NoneOf(log[p..], c)
    requires |rows| <= |rows'|
    requires cl.intact ==> cl.pending == ""
    requires e.client == c && e.request == RequestOf(cl.phase) && e.reply == Partial(cl.phase) + text
    requires e.begun == cl.begun
    ensures ClientOk(origin, rows', InsertAt(log, p, e), c, cl.(phase := Idle, pending := text))
  {
    hide WelcomeText, RequestsBy, RepliesTo, InsertAt, DoneBefore, OwnDone;
    var log' := InsertAt(log, p, e);
    OwnAppended(log, p, e);
    StreamEnds(WelcomeText(), RepliesTo(log, c), Partial(cl.phase), text);
    NothingHanded(Idle);
    hide Partial;
    var stream, stream' := Stream(log, c, cl.phase), Stream(log', c, Idle);
    assert stream' == stream + text;
    if cl.intact {
      assert cl.wire + "" == cl.wire;
      assert cl.wire[..cl.sound] == cl.wire;
    }
  }

  lemma NothingHanded(phase: Phase)
    requires !Querying(phase)
    ensures Partial(phase) == ""
  {
  }

  lemma StreamEnds(welcome: string, replies: string, partial: string, text: string)
    ensures welcome + (replies + (partial + text)) + "" == (welcome + replies + partial) + text
  {
  }

  /** A command that stores nothing takes effect at a place that fits its version. */
  lemma FinishInv(s: Server, c: nat, p: nat, ok: bool, at: nat, text: string)
    requires Inv(s) && c < |s.clients| && Busy(s.clients[c].phase) && p <= |s.log|
    requires s.clients[c].intact ==> s.clients[c].pending == ""
    requires NoneDone(s.log, p, s.clients[c].begun)
    requires var e := EntryOf(s, c, ok, at, text);
             !Stores(e) && at == s.origin + Inserts(s.log[..p]) && AnsweredRight(s.table.rows, e)
    ensures Inv(Finish(s, c, p, ok, at, text))
  {
    hide AnsweredRight, Stores, LogOk, InsertAt, Partial, RequestOf, WellFormed, DoneBefore, OwnDone, NoneDone, PhaseOk,
         StreamOk, RequestsOk;
    var cl := s.clients[c];
    var e := EntryOf(s, c, ok, at, text);
    var s' := Finish(s, c, p, ok, at, text);
    assert ClientOk(s.origin, s.table.rows, s.log, c, cl);
    NoneBehind(s.log, p, c, cl.begun);
    LogInserted(s.origin, s.table.rows, s.log, p, e);
    StampsInserted(s.log, p, e);
    hide ClientOk;
    OwnFinished(s.origin, s.table.rows, s.table.rows, s.log, c, cl, p, e, text);
    forall d | 0 <= d < |s'.clients| ensures ClientOk(s'.origin, s'.table.rows, s'.log, d, s'.clients[d]) {
      if d != c {
        OtherLogged(s.origin, s.table.rows, s.log, d, s.clients[d], p, e);
      }
    }
  }

  lemma StampsInserted(log: seq<Entry>, p: nat, e: Entry)
    requires p <= |log| && Stamped(log, e.done) && e.begun <= e.done
    ensures Stamped(InsertAt(log, p, e), e.done + 1)
  {
    hide InsertAt;
    var log' := InsertAt(log, p, e);
    InsertAtLength(log, p, e);
    forall i | 0 <= i < |log'| ensures log'[i].begun <= log'[i].done < e.done + 1 {
      EntryAround(log, p, e, i);
    }
  }

  // ---- each step keeps the invariant ----

  lemma ReceiveInv(s: Server, c: nat, chunk: string, libc: Libc)
    requires Inv(s) && CanReceive(s, c, chunk)
    ensures Inv(DoReceive(s, c, chunk, libc))
  {
    hide LogOk, DoneBefore, OwnDone, ParseCommand, WelcomeText, RepliesTo, RequestsBy, UpToNul, WellFormed, PhaseFor;
    var cl := s.clients[c];
    assert ClientOk(s.origin, s.table.rows, s.log, c, cl);
    var request := ParseCommand(UpToNul(chunk), libc);
    DoneBeforeNow(s.origin, s.table.rows, s.log, s.clock);
    OwnDoneNow(s.log, c, s.clock);
    PhaseForRequest(s.table, request);
    hide Partial, RequestOf, HandedOk;
    MoveInv(s, c, cl.(phase := PhaseFor(request, |s.table.rows|), requests := cl.requests + [Receipt(s.clock, request)],
                      begun := s.clock, since := |s.table.rows|));
  }

  lemma PhaseForRequest(t: Table, request: Option<Command>)
    requires WellFormed(t)
    ensures var phase := PhaseFor(request, |t.rows|);
            && Busy(phase) && RequestOf(phase) == request && Partial(phase) == ""
            && !phase.Handing? && !phase.Scanning?
            && (Querying(phase) ==> HandedOk(t.rows, |t.rows|, phase))
  {
    hide Delivered, QueryText;
    FlattenNone();
    assert t.rows[..|t.rows|] == t.rows;
    if request.Some? && request.value.Query? {
      DeliveryStarts(t.rows, Asked(request.value.startId, request.value.endId, BATCH));
    }
  }

  lemma InsertInv(s: Server, c: nat, id: int, timestamp: Option<string>)
    requires Inv(s) && CanInsert(s, c, id)
    ensures Inv(DoInsert(s, c, id, timestamp))
  {
    hide OkText, LogOk, InsertAt, PhaseOk, StreamOk, RequestsOk, DoneBefore, OwnDone, NoneDone, Ascending,
         AnsweredRight;
    var cl := s.clients[c];
    var rows := s.table.rows;
    var row := Row(id, cl.phase.reading, timestamp);
    var s' := DoInsert(s, c, id, timestamp);
    var e := EntryOf(s, c, true, |rows|, OkText());
    InsertGrows(s.table, row);
    assert ClientOk(s.origin, rows, s.log, c, cl);
    assert "" + OkText() == OkText();
    NothingHanded(cl.phase);
    hide Partial;
    IdleNothing(s, c);
    InsertAnswered(rows, row, e);
    LogStored(s.origin, rows, s'.table.rows, s.log, e);
    InsertAtLength(s.log, |s.log|, e);
    StampsInserted(s.log, |s.log|, e);
    hide ClientOk;
    OwnFinished(s.origin, rows, s'.table.rows, s.log, c, cl, |s.log|, e, OkText());
    forall d | 0 <= d < |s'.clients| ensures ClientOk(s'.origin, s'.table.rows, s'.log, d, s'.clients[d]) {
      if d != c {
        OtherStored(s.origin, rows, s'.table.rows, s.log, d, s.clients[d], e);
      }
    }
  }

  lemma InsertAnswered(rows: seq<Row>, row: Row, e: Entry)
    requires e.since <= e.at == |rows| && e.ok && e.reply == OkText()
    requires e.request == Some(Sensor(row.reading))
    ensures Stores(e) && AnsweredRight(rows + [row], e)
  {
    hide OkText, AllFit, Wanted;
  }

  lemma ReadRangeInv(s: Server, c: nat)
    requires Inv(s) && CanReadRange(s, c)
    ensures Inv(DoReadRange(s, c))
  {
    hide HelpText, LogOk, Finish, DoneBefore, OwnDone, IdRange, WellFormed, RepliesTo, RequestsBy;
    var rows := s.table.rows;
    assert ClientOk(s.origin, rows, s.log, c, s.clients[c]);
    var (lo, hi) := IdRange(rows);
    assert rows[..|rows|] == rows && "" + HelpText(lo, hi) == HelpText(lo, hi);
    NothingHanded(Ranging);
    hide Partial, PhaseOk;
    LogLength(s, s.clients[c].begun);
    FinishInv(s, c, |s.log|, true, |rows|, HelpText(lo, hi));
  }

  lemma LogLength(s: Server, begun: nat)
    requires LogOk(s.origin, s.table.rows, s.log)
    ensures |s.table.rows| == s.origin + Inserts(s.log[..|s.log|]) && NoneDone(s.log, |s.log|, begun)
  {
    hide Inserts;
    assert s.log[..|s.log|] == s.log;
  }

  lemma BeginInv(s: Server, c: nat)
    requires Inv(s) && CanBegin(s, c)
    ensures Inv(DoBegin(s, c))
  {
    hide LogOk, DoneBefore, OwnDone, WelcomeText, RepliesTo, RequestsBy, CursorRead, QueryText, Ascending, Delivered,
         BatchText, Flatten;
    var cl := s.clients[c];
    var rows := s.table.rows;
    assert ClientOk(s.origin, rows, s.log, c, cl);
    var q := cl.phase.pager;
    CursorStarts(rows, q.lastId, q.endId);
    EmptyTextFits(q.pages == []);
    MoveInv(s, c, cl.(phase := Scanning(q, |rows|, [])));
  }

  lemma FetchInv(s: Server, c: nat, version: nat)
    requires Inv(s) && CanFetch(s, c, version)
    ensures Inv(DoFetch(s, c, version))
  {
    hide LogOk, DoneBefore, OwnDone, WelcomeText, RepliesTo, RequestsBy, CursorRead, QueryText, Ascending, BatchText,
         Select, Delivered, Flatten;
    var cl := s.clients[c];
    var rows := s.table.rows;
    assert ClientOk(s.origin, rows, s.log, c, cl);
    var q, page := cl.phase.pager, cl.phase.page;
    CursorAdvances(rows, version, q.lastId, q.endId, page, Cursor(q, page));
    MoveInv(s, c, cl.(phase := Scanning(q, cl.phase.base, PageAhead(s, c, version))));
  }

  /** DONE after some rows: they join the pages handed over. */
  lemma PageHanded(rows: seq<Row>, cl: Client, version: nat)
    requires Ascending(rows) && PhaseOk(rows, cl) && cl.phase.Scanning? && cl.phase.page != []
    requires var q, page := cl.phase.pager, cl.phase.page;
             && cl.phase.base <= version <= |rows|
             && (|page| >= BATCH || Select(rows[..version], Cursor(q, page) + 1, q.endId) == [])
    ensures HandedOk(rows, cl.since, Handing(cl.phase.pager.(handed := |rows|), cl.phase.page))
    ensures cl.pending == "" && (Flatten(cl.phase.pager.pages) == [] <==> cl.phase.pager.pages == [])
  {
    hide Select, Ascending, BatchText, Delivered, CursorRead;
    var q, page, base := cl.phase.pager, cl.phase.page, cl.phase.base;
    assert rows[..|rows|] == rows && rows[..base] <= rows && rows[..q.handed] <= rows[..base];
    PrefixAscends(rows, base);
    DeliverySurvives(rows[..cl.since], rows[..q.handed], rows[..base], q.Ask(), q.lastId, q.pages);
    PageComplete(rows[..base], rows, version, q.lastId, q.endId, BATCH, page, Cursor(q, page));
    PageJoins(rows[..cl.since], rows[..base], rows, q.Ask(), q.lastId, q.pages, page, Cursor(q, page));
    PagesNonEmpty(rows[..cl.since], rows[..q.handed], q.Ask(), q.lastId, q.pages);
  }

  lemma PrefixAscends(rows: seq<Row>, n: nat)
    requires Ascending(rows) && n <= |rows|
    ensures Ascending(rows[..n])
  {
  }

  lemma PagesNonEmpty(before: seq<Row>, rows: seq<Row>, q: Asked, lastId: int, pages: seq<seq<Row>>)
    requires Delivered(before, rows, q, lastId, pages)
    ensures Flatten(pages) == [] <==> pages == []
  {
    hide OnTrack, AllFit, CursorRead;
    FlattenEmpty(pages, q.limit);
  }

  /** DONE after some rows: the batch text continues the stream. */
  lemma HandOverInv(s: Server, c: nat, version: nat)
    requires Inv(s) && CanEnd(s, c, version) && s.clients[c].phase.page != []
    ensures Inv(DoEnd(s, c, version))
  {
    hide LogOk, DoneBefore, OwnDone, WelcomeText, RepliesTo, RequestsBy, HandedOk, QueryText, Ascending, BatchText,
         Select, Flatten, PageRead;
    var cl := s.clients[c];
    var rows := s.table.rows;
    assert ClientOk(s.origin, rows, s.log, c, cl);
    var q, page := cl.phase.pager, cl.phase.page;
    var text := BatchText(q.pages == [], page);
    PageHanded(rows, cl, version);
    BatchTextNonEmpty(q.pages == [], page);
    FlattenAppend(q.pages, page);
    BatchExtendsQueryText(Flatten(q.pages), page);
    StreamContinues(WelcomeText() + RepliesTo(s.log, c), QueryText(Flatten(q.pages)), text);
    var cl' := cl.(phase := Handing(q.(handed := |rows|), page), pending := text);
    assert Stream(s.log, c, cl'.phase) == Stream(s.log, c, cl.phase) + text;
    if cl.intact {
      assert cl.wire + "" == cl.wire;
    }
    MoveInv(s, c, cl');
  }

  lemma StreamContinues(head: string, sent: string, text: string)
    ensures head + (sent + text) == (head + sent) + text
  {
  }

  /** DONE at once: the QUERY took effect on the version that had nothing further. */
  lemma QueryEndInv(s: Server, c: nat, version: nat)
    requires Inv(s) && CanEnd(s, c, version) && s.clients[c].phase.page == []
    ensures Inv(DoEnd(s, c, version))
  {
    hide LogOk, DoneBefore, OwnDone, CursorRead, QueryText, Ascending, BatchText, Select, Finish, PlaceOf, PhaseOk,
         StreamOk, RequestsOk, Answers, Partial, RowsHanded, AllFit, Wanted;
    var cl := s.clients[c];
    var rows := s.table.rows;
    assert ClientOk(s.origin, rows, s.log, c, cl);
    var q := cl.phase.pager;
    ScanEnds(rows, cl, version);
    QueryAnswers(rows, cl.phase, version);
    DoneBeforeWiden(s.origin, s.log, cl.begun, cl.since, version);
    LogLength(s, cl.begun);
    assert s.log[..|s.log|] == s.log;
    PlaceIsAfterSettled(s.origin, s.log, cl.begun, version);
    FinishInv(s, c, PlaceOf(s.log, version - s.origin), true, version, "");
  }

  /** Every version from the last hand-over to the one that has nothing further gives the same answer. */
  lemma ScanEnds(rows: seq<Row>, cl: Client, version: nat)
    requires Ascending(rows) && PhaseOk(rows, cl) && cl.phase.Scanning? && cl.phase.page == []
    requires cl.phase.base <= version <= |rows|
    requires Select(rows[..version], cl.phase.pager.lastId + 1, cl.phase.pager.endId) == []
    ensures cl.since <= cl.phase.pager.handed <= version && cl.pending == ""
    ensures forall v :: cl.phase.pager.handed <= v <= version ==>
              Answer(rows[..v], cl.phase.pager.Ask()) == RowsHanded(cl.phase)
    ensures AllFit(Wanted(rows[..cl.since], cl.phase.pager.Ask()))
  {
    hide CursorRead, Ascending, Select, Delivered, AllFit, Wanted, BatchText;
    var q, before := cl.phase.pager, rows[..cl.since];
    forall v | q.handed <= v <= version ensures Answer(rows[..v], q.Ask()) == RowsHanded(cl.phase) {
      assert rows[..v] <= rows[..version];
      SelectGrows(rows[..v], rows[..version], q.lastId + 1, q.endId);
      DeliveredRead(before, rows[..q.handed], q.Ask(), q.lastId, q.pages);
      CursorAtEnd(rows, q.handed, v, q.startId - 1, q.endId, Flatten(q.pages), q.lastId);
    }
    assert before <= rows[..version];
    SelectGrows(before, rows[..version], q.lastId + 1, q.endId);
    DeliveredRead(before, rows[..q.handed], q.Ask(), q.lastId, q.pages);
    TrackEnds(before, rows[..version], q.Ask(), q.lastId, q.pages);
  }

  lemma DeliveredRead(before: seq<Row>, rows: seq<Row>, q: Asked, lastId: int, pages: seq<seq<Row>>)
    requires Delivered(before, rows, q, lastId, pages)
    ensures CursorRead(rows, q.startId - 1, q.endId, Flatten(pages), lastId)
    ensures q.limit >= 1 && AllFit(pages) && OnTrack(before, q, lastId, pages)
  {
    hide CursorRead, AllFit, OnTrack;
  }

  lemma QueryAnswers(rows: seq<Row>, phase: Phase, at: nat)
    requires Querying(phase) && at <= |rows| && Answer(rows[..at], phase.pager.Ask()) == RowsHanded(phase)
    ensures Answers(rows, at, RequestOf(phase), true, Partial(phase) + "")
  {
    hide QueryText, Select, RowsHanded;
    assert Partial(phase) + "" == Partial(phase);
  }

  lemma DoneBeforeWiden(origin: nat, log: seq<Entry>, begun: nat, limit: nat, limit': nat)
    requires DoneBefore(origin, log, begun, limit) && limit <= limit'
    ensures DoneBefore(origin, log, begun, limit')
  {
  }

  /** A command fails: what it handed over so far plus the error line is a right answer. */
  lemma FailureAnswers(rows: seq<Row>, phase: Phase, cl: Client)
    requires Ascending(rows) && Busy(phase) && phase == cl.phase && PhaseOk(rows, cl)
    ensures Answers(rows, |rows|, RequestOf(phase), false, Partial(phase) + ErrorText())
  {
    hide ErrorText, QueryText, Select, Ascending, PhaseOk, RowsHanded;
    assert rows[..|rows|] == rows;
    if Querying(phase) {
      SentIsPrefix(rows, cl);
      assert RowsHanded(phase) <= Select(rows, phase.pager.startId, phase.pager.endId);
    } else {
      NothingHanded(phase);
      assert "" + ErrorText() == ErrorText();
    }
  }

  /**
   At every moment of a QUERY the rows handed over so far, the batch just being
   sent included, are a prefix of the range selection of the table as it is now.
   */
  lemma SentIsPrefix(rows: seq<Row>, cl: Client)
    requires Ascending(rows) && PhaseOk(rows, cl) && Querying(cl.phase)
    ensures RowsHanded(cl.phase) <= Select(rows, cl.phase.pager.startId, cl.phase.pager.endId)
  {
    hide Select, Ascending, HandedOk, CursorRead, RowsHanded, LastHanded, ScanOk;
    var q := cl.phase.pager;
    HandedNow(rows, cl.since, cl.phase);
    CursorIsPrefix(rows, q.startId - 1, q.endId, RowsHanded(cl.phase), LastHanded(cl.phase));
  }

  lemma HandedNow(rows: seq<Row>, since: nat, phase: Phase)
    requires Ascending(rows) && Querying(phase) && HandedOk(rows, since, phase)
    ensures var q := phase.pager; CursorRead(rows, q.startId - 1, q.endId, RowsHanded(phase), LastHanded(phase))
  {
    hide Select, Ascending, CursorRead, Delivered, LastHanded, PagesHanded;
    var q := phase.pager;
    assert rows[..q.handed] <= rows;
    PrefixAscends(rows, q.handed);
    DeliverySurvives(rows[..since], rows[..q.handed], rows, q.Ask(), LastHanded(phase), PagesHanded(phase));
    DeliveredRead(rows[..since], rows, q.Ask(), LastHanded(phase), PagesHanded(phase));
  }

  lemma FailInv(s: Server, c: nat)
    requires Inv(s) && c < |s.clients| && Busy(s.clients[c].phase)
    requires s.clients[c].intact ==> s.clients[c].pending == ""
    ensures Inv(Finish(s, c, |s.log|, false, |s.table.rows|, ErrorText()))
  {
    hide ErrorText, LogOk, Finish, DoneBefore, OwnDone, Ascending, PhaseOk, StreamOk, RequestsOk, Partial,
         RequestOf, Answers;
    var rows := s.table.rows;
    var cl := s.clients[c];
    assert ClientOk(s.origin, rows, s.log, c, cl);
    FailureAnswers(rows, cl.phase, cl);
    LogLength(s, cl.begun);
    FinishInv(s, c, |s.log|, false, |rows|, ErrorText());
  }

  lemma SendInv(s: Server, c: nat, n: nat)
    requires Inv(s) && CanSend(s, c, n)
    ensures Inv(DoSend(s, c, n))
  {
    hide LogOk, DoneBefore, OwnDone, WelcomeText, RepliesTo, RequestsBy, Delivered, QueryText, Ascending, Stream,
         ScanOk;
    var cl := s.clients[c];
    assert ClientOk(s.origin, s.table.rows, s.log, c, cl);
    var rest := cl.pending[n..];
    var cl' := cl.(wire := cl.wire + cl.pending[..n], pending := rest,
                   sound := if cl.intact then |cl.wire| + n else cl.sound);
    WireMoves(cl.wire, cl.pending, n);
    StreamOnDelivery(s.log, c, cl.phase);
    assert cl'.wire[..cl.sound] == cl.wire[..cl.sound];
    assert cl'.wire[..|cl'.wire|] == cl'.wire;
    if rest == "" {
      MoveInv(s, c, cl'.(phase := AfterSend(cl.phase)));
    } else {
      MoveInv(s, c, cl');
    }
  }

  lemma WireMoves(wire: string, pending: string, n: nat)
    requires n <= |pending|
    ensures (wire + pending[..n]) + pending[n..] == wire + pending
    ensures wire + pending[..n] <= wire + pending
  {
  }

  lemma StreamOnDelivery(log: seq<Entry>, c: nat, phase: Phase)
    ensures Stream(log, c, AfterSend(phase)) == Stream(log, c, phase)
    ensures Busy(AfterSend(phase)) == Busy(phase)
    ensures Busy(phase) ==> RequestOf(AfterSend(phase)) == RequestOf(phase)
  {
    hide WelcomeText, RepliesTo, QueryText;
  }

  lemma LoseInv(s: Server, c: nat)
    requires Inv(s) && CanLose(s, c)
    ensures Inv(DoLose(s, c))
  {
    hide LogOk, DoneBefore, OwnDone, Stream, HandedOk, ScanOk, RequestsBy, ErrorText, Finish, WellFormed;
    var cl := s.clients[c];
    assert ClientOk(s.origin, s.table.rows, s.log, c, cl);
    var lost := cl.(intact := false);
    if cl.phase.Handing? {
      PutInv(s, c, lost);
      FailInv(Put(s, c, lost), c);
    } else {
      MoveInv(s, c, lost.(pending := ""));
    }
  }

  lemma HangUpInv(s: Server, c: nat)
    requires Inv(s) && CanHangUp(s, c)
    ensures Inv(DoHangUp(s, c))
  {
    hide LogOk, DoneBefore, OwnDone, CursorRead, RequestsBy, RepliesTo, WelcomeText;
    assert ClientOk(s.origin, s.table.rows, s.log, c, s.clients[c]);
    MoveInv(s, c, s.clients[c].(phase := Closed));
  }

  lemma StepInv(s: Server, step: Step, libc: Libc)
    requires Inv(s) && Enabled(s, step)
    ensures Inv(Apply(s, step, libc))
  {
    hide Inv, CanReceive, CanInsert, CanReadRange, CanBegin, CanFetch, CanEnd, CanSend, CanLose, CanHangUp, HasRow,
         DoReceive, DoInsert, DoReadRange, DoBegin, DoFetch, DoEnd, DoSend, DoLose, DoHangUp;
    match step
    case Receive(c, chunk) => ReceiveInv(s, c, chunk, libc);
    case InsertRow(c, id, timestamp) => InsertInv(s, c, id, timestamp);
    case ReadRange(c) => ReadRangeInv(s, c);
    case BeginBatch(c) => BeginInv(s, c);
    case FetchRow(c, version) => FetchInv(s, c, version);
    case FetchDone(c, version) => EndInv(s, c, version);
    case Overflows(c, version) => OverflowFails(s, c, version); IdleNothing(s, c); FailInv(s, c);
    case Refuses(c) => IdleNothing(s, c); FailInv(s, c);
    case SqlFails(c) => IdleNothing(s, c); FailInv(s, c);
    case SendSome(c, n) => SendInv(s, c, n);
    case SendFails(c) => LoseInv(s, c);
    case HangUp(c) => HangUpInv(s, c);
  }

  lemma OverflowFails(s: Server, c: nat, version: nat)
    requires CanOverflow(s, c, version)
    ensures CanFail(s, c)
  {
    hide Ahead, PageAhead, BatchText;
  }

  lemma EndInv(s: Server, c: nat, version: nat)
    requires Inv(s) && CanEnd(s, c, version)
    ensures Inv(DoEnd(s, c, version))
  {
    hide Inv, DoEnd, Ahead;
    if s.clients[c].phase.page == [] {
      QueryEndInv(s, c, version);
    } else {
      HandOverInv(s, c, version);
    }
  }

  /** A command that is not sending has nothing left to send. */
  lemma IdleNothing(s: Server, c: nat)
    requires Inv(s) && CanFail(s, c)
    ensures s.clients[c].pending == ""
  {
    hide LogOk, DoneBefore, OwnDone, CursorRead, StreamOk, RequestsOk;
    assert ClientOk(s.origin, s.table.rows, s.log, c, s.clients[c]);
  }

  /**
   The rely of every client: any step of any client only appends rows with larger
   ids - exactly what the single-threaded methods assume of other clients.
   */
  lemma StepGrows(s: Server, step: Step, libc: Libc)
    requires Inv(s) && Enabled(s, step)
    ensures Grows(s.table, Apply(s, step, libc).table)
    ensures Apply(s, step, libc).origin == s.origin
    ensures |Apply(s, step, libc).clients| == |s.clients|
  {
    hide LogOk, ClientOk, OkText, HelpText, ErrorText, Partial, RequestOf, ParseCommand, Select, BatchText, QueryText,
         PlaceOf, InsertAt, Timely, EntryOf;
    if step.InsertRow? {
      InsertGrows(s.table, Row(step.id, s.clients[step.c].phase.reading, step.timestamp));
    }
  }

  // ---- progress ----

  /** A bound on the steps a QUERY still has to take, sends aside, however the table grows. */
  function Work(phase: Phase): nat {
    match phase
    case Between(q) => 5 * Ids(q.lastId, q.endId) + 1
    case Scanning(q, _, page) => 5 * Ids(Cursor(q, page), q.endId) + if page == [] then 0 else 4
    case Handing(q, page) => 5 * Ids(Cursor(q, page), q.endId) + 3
    case _ => 0
  }

  function Ids(last: int, end: int): nat {
    if end > last then end - last else 0
  }

  /** The QUERY ended, came strictly closer to its end, or sent some of the bytes it has left. */
  ghost predicate Progress(before: Client, after: Client) {
    || !Querying(after.phase)
    || Work(after.phase) < Work(before.phase)
    || (after.phase == before.phase && |after.pending| < |before.pending|)
  }

  /** A step changes nothing of a client that does not take it. */
  lemma OthersUntouched(s: Server, step: Step, libc: Libc, c: nat)
    requires Enabled(s, step) && c < |s.clients| && step.c != c
    ensures |Apply(s, step, libc).clients| == |s.clients| && Apply(s, step, libc).clients[c] == s.clients[c]
  {
    hide Select, OkText, HelpText, ErrorText, ParseCommand, QueryText, BatchText, RequestOf, Partial, PlaceOf, InsertAt;
  }

  lemma FetchProgress(s: Server, c: nat, version: nat)
    requires Inv(s) && CanFetch(s, c, version)
    ensures Progress(s.clients[c], DoFetch(s, c, version).clients[c])
  {
    hide LogOk, DoneBefore, OwnDone, StreamOk, RequestsOk, Select, CursorRead, Ascending, BatchText;
    assert ClientOk(s.origin, s.table.rows, s.log, c, s.clients[c]);
    var q, page := s.clients[c].phase.pager, s.clients[c].phase.page;
    CursorAdvances(s.table.rows, version, q.lastId, q.endId, page, Cursor(q, page));
  }

  /** An empty batch ends the QUERY, a batch with rows is handed over closer to the end. */
  lemma EndProgress(s: Server, c: nat, version: nat)
    requires CanEnd(s, c, version)
    ensures Progress(s.clients[c], DoEnd(s, c, version).clients[c])
  {
    hide QueryText, BatchText, PlaceOf, InsertAt, RequestOf, Ahead;
  }

  lemma SendProgress(s: Server, c: nat, n: nat)
    requires CanSend(s, c, n) && Querying(s.clients[c].phase)
    ensures Progress(s.clients[c], DoSend(s, c, n).clients[c])
  {
  }

  lemma LoseProgress(s: Server, c: nat)
    requires Inv(s) && CanLose(s, c)
    ensures c < |DoLose(s, c).clients| && Progress(s.clients[c], DoLose(s, c).clients[c])
  {
    hide LogOk, DoneBefore, OwnDone, StreamOk, RequestsOk, CursorRead, ErrorText, RequestOf, Partial, InsertAt;
    assert ClientOk(s.origin, s.table.rows, s.log, c, s.clients[c]);
  }

  /**
   A QUERY cannot be kept busy by inserts: each of its own steps ends it, brings it
   strictly closer to its end, or sends some of the bytes it has left; and no other
   client's step touches it.
   */
  lemma QueryProgresses(s: Server, step: Step, libc: Libc, c: nat, s': Server)
    requires Inv(s) && Enabled(s, step) && c < |s.clients| && Querying(s.clients[c].phase)
    requires s' == Apply(s, step, libc)
    ensures |s'.clients| == |s.clients|
    ensures step.c != c ==> s'.clients[c] == s.clients[c]
    ensures step.c == c ==> Progress(s.clients[c], s'.clients[c])
  {
    hide Inv, Progress, Querying, CanReceive, CanInsert, CanReadRange, CanBegin, CanFetch, CanEnd, CanFail, CanSend,
         CanLose, CanHangUp, CanOverflow, DoReceive, DoInsert, DoReadRange, DoBegin, DoFetch, DoEnd, DoFail, DoSend,
         DoLose, DoHangUp;
    SameClients(s, step, libc);
    if step.c != c {
      hide Enabled, Apply;
      OthersUntouched(s, step, libc, c);
    } else {
      StepsOfQueries(s, step);
      match step
      case BeginBatch(_) => BeginProgress(s, c);
      case FetchRow(_, version) => FetchProgress(s, c, version);
      case FetchDone(_, version) => EndProgress(s, c, version);
      case Overflows(_, version) => OverflowFails(s, c, version); FailProgress(s, c);
      case SqlFails(_) => FailProgress(s, c);
      case SendSome(_, n) => SendProgress(s, c, n);
      case SendFails(_) => LoseProgress(s, c);
      case _ =>
    }
  }

  lemma SameClients(s: Server, step: Step, libc: Libc)
    requires Enabled(s, step)
    ensures |Apply(s, step, libc).clients| == |s.clients|
  {
    hide Select, OkText, HelpText, ErrorText, ParseCommand, QueryText, BatchText, RequestOf, Partial, PlaceOf, InsertAt;
  }

  /** A client in a QUERY neither receives nor runs another command's step. */
  lemma StepsOfQueries(s: Server, step: Step)
    requires Enabled(s, step) && step.c < |s.clients| && Querying(s.clients[step.c].phase)
    ensures !step.Receive? && !step.InsertRow? && !step.ReadRange? && !step.Refuses? && !step.HangUp?
  {
    hide CanBegin, CanFetch, CanEnd, CanOverflow, CanFail, CanSend, CanLose;
  }

  lemma FailProgress(s: Server, c: nat)
    requires CanFail(s, c)
    ensures c < |DoFail(s, c).clients| && Progress(s.clients[c], DoFail(s, c).clients[c])
  {
    hide ErrorText, Partial, InsertAt, RequestOf;
  }

  lemma BeginProgress(s: Server, c: nat)
    requires CanBegin(s, c)
    ensures Progress(s.clients[c], DoBegin(s, c).clients[c])
  {
  }
}

/**
 Why commands succeed and fail, over every run: each failure has a step that
 explains it, and a QUERY that met no fault is decided by the rows of its range.
 */
module RunVerdicts {
  import opened Wrappers
  import opened CText
  import opened DecimalText
  import opened SensorTable
  import opened RowText
  import opened CommandText
  import opened Replies
  import opened Paging
  import opened ServerLog
  import opened ServerRuns
  import opened RunTheorems

  /** The entry a step adds to the log, if it settles a command. */
  function Settling(s: Server, step: Step): Option<Entry>
    requires Enabled(s, step)
  {
    hide BatchText, Select, Ahead, PageAhead, HelpText, InsertAt;
    match step
    case InsertRow(c, _, _) => Some(EntryOf(s, c, true, |s.table.rows|, OkText()))
    case ReadRange(c) =>
      var (lo, hi) := IdRange(s.table.rows);
      Some(EntryOf(s, c, true, |s.table.rows|, HelpText(lo, hi)))
    case FetchDone(c, version) =>
      if s.clients[c].phase.page == [] then Some(EntryOf(s, c, true, version, "")) else None
    case Overflows(c, _) => Some(FailedEntry(s, c))
    case Refuses(c) => Some(FailedEntry(s, c))
    case SqlFails(c) => Some(FailedEntry(s, c))
    case SendFails(c) => if s.clients[c].phase.Handing? then Some(FailedEntry(s, c)) else None
    case _ => None
  }

  function FailedEntry(s: Server, c: nat): Entry
    requires c < |s.clients| && Busy(s.clients[c].phase)
  {
    EntryOf(s, c, false, |s.table.rows|, ErrorText())
  }

  /** `log'` is `log` with at most the entry `e` put somewhere. */
  ghost predicate Logs(log: seq<Entry>, log': seq<Entry>, e: Option<Entry>) {
    match e
    case None => log' == log
    case Some(entry) => exists p :: 0 <= p <= |log| && log' == InsertAt(log, p, entry)
  }

  lemma LogsAt(log: seq<Entry>, p: nat, e: Entry)
    requires p <= |log|
    ensures Logs(log, InsertAt(log, p, e), Some(e))
  {
    hide InsertAt;
  }

  lemma StepLogs(s: Server, step: Step, libc: Libc)
    requires Enabled(s, step)
    ensures Logs(s.log, Apply(s, step, libc).log, Settling(s, step))
  {
    hide Select, OkText, HelpText, ErrorText, ParseCommand, QueryText, BatchText, RequestOf, Partial, PlaceOf, InsertAt,
         Logs, Ahead, PageAhead;
    forall p: nat, e: Entry | p <= |s.log| ensures Logs(s.log, InsertAt(s.log, p, e), Some(e)) {
      LogsAt(s.log, p, e);
    }
    assert Logs(s.log, s.log, None) by { NothingLogged(s.log); }
  }

  lemma NothingLogged(log: seq<Entry>)
    ensures Logs(log, log, None)
  {
  }

  /** The step `done` of the run settled this very entry. */
  ghost predicate Witnessed(states: seq<Server>, steps: seq<Step>, i: nat, e: Entry)
    requires |states| == |steps| + 1
  {
    && e.done < i <= |steps| && Enabled(states[e.done], steps[e.done])
    && Settling(states[e.done], steps[e.done]) == Some(e)
  }

  lemma LoggedEntry(log: seq<Entry>, log': seq<Entry>, e: Option<Entry>, k: nat) returns (j: nat)
    requires Logs(log, log', e) && k < |log'|
    ensures (e.Some? && log'[k] == e.value) || (j < |log| && log'[k] == log[j])
  {
    hide InsertAt;
    j := k;
    if e.Some? {
      var p :| 0 <= p <= |log| && log' == InsertAt(log, p, e.value);
      InsertAtLength(log, p, e.value);
      EntryAround(log, p, e.value, k);
      j := if k > p then k - 1 else k;
    }
  }

  /** Every entry of the log was settled by the step it names, as the client stood then. */
  lemma {:induction false} RunWitnesses(states: seq<Server>, steps: seq<Step>, libc: Libc, i: nat, k: nat)
    requires IsRun(states, steps, libc) && i <= |steps| && k < |states[i].log|
    ensures Witnessed(states, steps, i, states[i].log[k])
    decreases i
  {
    hide Inv, Enabled, Apply, Settling, Logs;
    if i == 0 {
      RunStarts(states, steps, libc);
    } else {
      var s, step := states[i - 1], steps[i - 1];
      RunInv(states, steps, libc, i - 1);
      StepLogs(s, step, libc);
      var j := LoggedEntry(s.log, states[i].log, Settling(s, step), k);
      if Settling(s, step).Some? && states[i].log[k] == Settling(s, step).value {
        SettledNow(s, step);
      } else {
        RunWitnesses(states, steps, libc, i - 1, j);
      }
    }
  }

  lemma SettledNow(s: Server, step: Step)
    requires Enabled(s, step) && Settling(s, step).Some?
    ensures Settling(s, step).value.done == s.clock
  {
    hide BatchText, Select, HelpText, ErrorText, OkText, RequestOf, Partial, Ahead, PageAhead;
  }

  /** What a step that settles `e` says about it: whose command, whether it succeeded, and if not, why. */
  ghost predicate Reason(e: Entry, step: Step) {
    && step.c == e.client
    && (e.ok <==> step.InsertRow? || step.ReadRange? || step.FetchDone?)
    && (!e.ok <==> step.Refuses? || step.SqlFails? || step.Overflows? || step.SendFails?)
    && (step.Refuses? <==> e.request.None?)
    && (e.request.Some? && e.request.value.Query? <== step.FetchDone? || step.Overflows? || step.SendFails?)
    && (e.request.Some? && e.request.value.Sensor? <== step.InsertRow?)
    && (e.request == Some(Help) <== step.ReadRange?)
  }

  lemma StepReason(s: Server, step: Step)
    requires Enabled(s, step) && Settling(s, step).Some?
    ensures Reason(Settling(s, step).value, step)
  {
    hide BatchText, Select, HelpText, ErrorText, OkText, Partial, Ahead, PageAhead;
  }

  /**
   Nothing fails without a reason: in every run a command that was answered with the
   error line was settled by a step of its own client that did not parse it, met a
   failing SQLite call, met a batch too long for its buffer, or lost a batch to a
   failed send - the last two only for a QUERY; one that did not parse always was.
   */
  lemma RunExplains(states: seq<Server>, steps: seq<Step>, libc: Libc, i: nat, k: nat)
    requires IsRun(states, steps, libc) && i <= |steps| && k < |states[i].log|
    ensures var e := states[i].log[k]; e.done < i && Reason(e, steps[e.done])
  {
    hide Enabled, Apply, Settling, Reason;
    RunWitnesses(states, steps, libc, i, k);
    var e := states[i].log[k];
    StepReason(states[e.done], steps[e.done]);
  }

  /** No SQLite call and no batch of client `c` fails up to step `i`. */
  ghost predicate Undisturbed(steps: seq<Step>, i: nat, c: nat)
    requires i <= |steps|
  {
    forall d :: 0 <= d < i && steps[d].c == c ==> !steps[d].SqlFails? && !steps[d].SendFails?
  }

  /**
   In a run in which no SQLite call or send of a client fails, and whose rows have
   values below 10^14 and schema timestamps, that client's commands succeed exactly if
   they parse, whatever the other clients meet.
   */
  lemma ModestRunsSucceed(states: seq<Server>, steps: seq<Step>, libc: Libc, i: nat, k: nat)
    requires IsRun(states, steps, libc) && i <= |steps| && k < |states[i].log|
    requires Undisturbed(steps, i, states[i].log[k].client)
    requires var s := states[i]; forall m :: 0 <= m < |s.table.rows| ==> ModestRow(s.table.rows[m], m < s.origin)
    ensures states[i].log[k].ok <==> states[i].log[k].request.Some?
  {
    hide Enabled, Apply, Settling, ModestRow, Inv, Grows;
    RunWitnesses(states, steps, libc, i, k);
    RunExplains(states, steps, libc, i, k);
    var e := states[i].log[k];
    if steps[e.done].Overflows? {
      ModestBefore(states, steps, libc, e.done, i);
      OverflowStep(states[e.done], steps[e.done]);
      ModestRunsFit(states, steps, libc, e.done, e.client, steps[e.done].version);
    }
  }

  lemma OverflowStep(s: Server, step: Step)
    requires Enabled(s, step) && step.Overflows?
    ensures CanOverflow(s, step.c, step.version) && HasRow(s, step.c, step.version)
  {
    hide BatchText, Ahead, PageAhead;
  }

  lemma ModestBefore(states: seq<Server>, steps: seq<Step>, libc: Libc, d: nat, i: nat)
    requires IsRun(states, steps, libc) && d <= i <= |steps|
    requires var s := states[i]; forall m :: 0 <= m < |s.table.rows| ==> ModestRow(s.table.rows[m], m < s.origin)
    ensures var s := states[d]; forall m :: 0 <= m < |s.table.rows| ==> ModestRow(s.table.rows[m], m < s.origin)
  {
    hide Enabled, Apply, ModestRow, Inv;
    RunInv(states, steps, libc, d);
    RunInv(states, steps, libc, i);
    RunGrows(states, steps, libc, d, i);
    var s, t := states[d], states[i];
    forall m | 0 <= m < |s.table.rows| ensures ModestRow(s.table.rows[m], m < s.origin) {
      assert s.table.rows[m] == t.table.rows[m];
    }
  }

  // ---- what decides a QUERY ----

  /** A batch too long, on a range nobody added to since the QUERY was received: its batches did not fit. */
  lemma OverflowDecides(s: Server, c: nat, version: nat)
    requires Inv(s) && CanOverflow(s, c, version)
    ensures var cl, rows := s.clients[c], s.table.rows;
            && cl.since <= |rows|
            && (Answer(rows[..cl.since], cl.phase.pager.Ask()) == Answer(rows, cl.phase.pager.Ask()) ==>
                  !AllFit(Wanted(rows[..cl.since], cl.phase.pager.Ask())))
  {
    hide Select, BatchText, LogOk, DoneBefore, OwnDone, StreamOk, RequestsOk, Ascending, PhaseOk, HandedOk, RowsHanded,
         LastHanded, CursorRead, Cursor, AllFit, Wanted, PagesHanded;
    var cl, rows := s.clients[c], s.table.rows;
    var q, page := cl.phase.pager, PageAhead(s, c, version);
    assert ClientOk(s.origin, rows, s.log, c, cl);
    ScanFacts(rows, cl);
    HandedNow(rows, cl.since, cl.phase);
    RowContinues(rows, version, q.startId - 1, q.endId, RowsHanded(cl.phase), q.lastId, cl.phase.page,
                 Cursor(q, cl.phase.page));
    OnTrackAtReceipt(rows, cl.since, cl.phase);
    HandedRows(cl.phase);
    if Answer(rows[..cl.since], q.Ask()) == Answer(rows, q.Ask()) {
      OverlongPage(rows[..cl.since], rows, q.Ask(), q.lastId, q.pages, page);
    }
  }

  lemma OnTrackAtReceipt(rows: seq<Row>, since: nat, phase: Phase)
    requires Querying(phase) && HandedOk(rows, since, phase)
    ensures since <= |rows| && OnTrack(rows[..since], phase.pager.Ask(), LastHanded(phase), PagesHanded(phase))
  {
    hide OnTrack, LastHanded, PagesHanded, CursorRead, AllFit;
  }

  lemma HandedRows(phase: Phase)
    ensures RowsHanded(phase) == Flatten(PagesHanded(phase))
  {
  }

  lemma OverflowEntry(s: Server, step: Step)
    requires Enabled(s, step) && step.Overflows? && Settling(s, step).Some?
    ensures var e, cl := Settling(s, step).value, s.clients[step.c];
            && CanOverflow(s, step.c, step.version)
            && e.since == cl.since && e.at == |s.table.rows| && e.request.Some? && e.request.value.Query?
            && AskedBy(e.request) == cl.phase.pager.Ask()
  {
    hide BatchText, Ahead, PageAhead, ErrorText, Partial;
  }

  /**
   A QUERY that met no failing SQLite call and no failing send is decided by its
   range: it succeeds only if the batches of the answer at its receipt all fit, and
   while nobody adds to the range between its receipt and its end, exactly then.
   */
  lemma RunQueryDecided(states: seq<Server>, steps: seq<Step>, libc: Libc, i: nat, k: nat)
    requires IsRun(states, steps, libc) && i <= |steps| && k < |states[i].log|
    requires states[i].log[k].request.Some? && states[i].log[k].request.value.Query?
    ensures var e, rows := states[i].log[k], states[i].table.rows;
            && e.since <= e.at <= |rows| && e.done < i
            && var q := AskedBy(e.request);
               && (e.ok ==> AllFit(Wanted(rows[..e.since], q)))
               && (Answer(rows[..e.since], q) == Answer(rows[..e.at], q)
                   && !steps[e.done].SqlFails? && !steps[e.done].SendFails? ==>
                     (e.ok <==> AllFit(Wanted(rows[..e.since], q))))
  {
    hide Enabled, Apply, Settling, Inv, AllFit, Wanted, Answer, CanOverflow;
    RunInv(states, steps, libc, i);
    RunWitnesses(states, steps, libc, i, k);
    RunExplains(states, steps, libc, i, k);
    LoggedRight(states[i], k);
    var e := states[i].log[k];
    if steps[e.done].Overflows? {
      var s := states[e.done];
      OverflowEntry(s, steps[e.done]);
      RunInv(states, steps, libc, e.done);
      OverflowDecides(s, e.client, steps[e.done].version);
      RunGrows(states, steps, libc, e.done, i);
      SameVersions(s.table.rows, states[i].table.rows, e.since, e.at);
    }
  }

  lemma SameVersions(rows: seq<Row>, rows': seq<Row>, since: nat, at: nat)
    requires rows <= rows' && since <= at == |rows|
    ensures rows'[..at] == rows && rows'[..since] == rows[..since]
  {
  }

  lemma LoggedRight(s: Server, k: nat)
    requires Inv(s) && k < |s.log|
    ensures AnsweredRight(s.table.rows, s.log[k])
  {
    hide ClientOk, Timely, AnsweredRight, DoneBefore, RealTimeOrder, Inserts;
  }

  /**
   A QUERY up to an id that was stored when it was received is decided then: met by
   no fault it succeeds, with the answer of that moment, if and only if the batches of
   that answer fit, whatever is inserted meanwhile.
   */
  lemma RunSettledQuery(states: seq<Server>, steps: seq<Step>, libc: Libc, i: nat, k: nat)
    requires IsRun(states, steps, libc) && i <= |steps| && k < |states[i].log|
    requires var e, rows := states[i].log[k], states[i].table.rows;
             && e.request.Some? && e.request.value.Query? && e.since <= |rows|
             && exists m :: 0 <= m < e.since && e.request.value.endId <= rows[m].id
    ensures var e, rows := states[i].log[k], states[i].table.rows;
            && e.done < i && e.since <= |rows|
            && (!steps[e.done].SqlFails? && !steps[e.done].SendFails? ==>
                  (e.ok <==> AllFit(Wanted(rows[..e.since], AskedBy(e.request)))))
            && (e.ok ==> e.reply == QueryText(Answer(rows[..e.since], AskedBy(e.request))))
  {
    hide Enabled, Apply, Inv, AllFit, Wanted, Select, QueryText, Answers, Ascending;
    RunQueryDecided(states, steps, libc, i, k);
    RunInv(states, steps, libc, i);
    var e, rows := states[i].log[k], states[i].table.rows;
    AscendingTable(states[i]);
    PrefixAscends(rows, e.at);
    assert rows[..e.since] <= rows[..e.at];
    var m :| 0 <= m < e.since && e.request.value.endId <= rows[m].id;
    assert rows[..e.since][m] == rows[m];
    SelectStable(rows[..e.since], rows[..e.at], e.request.value.startId, e.request.value.endId);
    LoggedRight(states[i], k);
    if e.ok {
      QueryAnswered(rows, e);
    }
  }

  lemma AscendingTable(s: Server)
    requires Inv(s)
    ensures Ascending(s.table.rows)
  {
    hide LogOk, ClientOk, Timely;
  }

  /** A QUERY received while its range held at least four rows, all with values of 10^300 or more, never succeeds. */
  lemma RunHugeQueriesFail(states: seq<Server>, steps: seq<Step>, libc: Libc, i: nat, k: nat)
    requires IsRun(states, steps, libc) && i <= |steps| && k < |states[i].log|
    requires var e, rows := states[i].log[k], states[i].table.rows;
             && e.request.Some? && e.request.value.Query? && e.since <= |rows|
             && |Answer(rows[..e.since], AskedBy(e.request))| >= 4
             && forall r :: r in Answer(rows[..e.since], AskedBy(e.request)) ==> Huge(r)
    ensures !states[i].log[k].ok
  {
    hide Enabled, Apply, Inv, AllFit, Wanted, Answer, Huge;
    RunQueryDecided(states, steps, libc, i, k);
    HugeAnswerDoesNotFit(states[i].table.rows[..states[i].log[k].since], AskedBy(states[i].log[k].request));
  }

  // ---- the last rows of an answer ----

  lemma EndEntry(s: Server, step: Step)
    requires Enabled(s, step) && step.FetchDone? && Settling(s, step).Some?
    ensures step.c < |s.clients|
    ensures var e, cl := Settling(s, step).value, s.clients[step.c];
            && e.client == step.c && cl.phase.Scanning? && cl.phase.page == []
            && CanEnd(s, step.c, step.version)
            && e.since == cl.since && e.at == step.version && e.reply == Partial(cl.phase) + ""
            && e.request.Some? && e.request.value.Query? && AskedBy(e.request) == cl.phase.pager.Ask()
  {
    hide BatchText, Ahead, PageAhead, Partial;
  }

  /**
   The rows of a QUERY are on the wire before the empty batch that settles it. Its
   answer is the selection of every version from the one at which its last batch was
   handed to the socket up to the one that showed there was no more, so nothing that
   happened in between could have changed it.
   */
  lemma RunAnswerLasts(states: seq<Server>, steps: seq<Step>, libc: Libc, i: nat, k: nat, v: nat)
    requires IsRun(states, steps, libc) && i <= |steps| && k < |states[i].log|
    requires var e := states[i].log[k]; e.ok && e.request.Some? && e.request.value.Query?
    ensures var e, rows := states[i].log[k], states[i].table.rows;
            && e.done < i && e.client < |states[e.done].clients| && e.at <= |rows|
            && var cl := states[e.done].clients[e.client];
               && cl.phase.Scanning? && cl.pending == "" && e.since <= cl.phase.pager.handed <= e.at
               && (cl.phase.pager.handed <= v <= e.at ==> e.reply == QueryText(Answer(rows[..v], AskedBy(e.request))))
  {
    hide Enabled, Apply, Settling, Inv, Select, QueryText, CanEnd;
    RunWitnesses(states, steps, libc, i, k);
    RunExplains(states, steps, libc, i, k);
    var e := states[i].log[k];
    var s := states[e.done];
    EndEntry(s, steps[e.done]);
    RunInv(states, steps, libc, e.done);
    RunGrows(states, steps, libc, e.done, i);
    EndAnswer(s, e.client, steps[e.done].version, v);
    if v <= e.at {
      assert states[i].table.rows[..v] == s.table.rows[..v];
    }
  }

  lemma EndAnswer(s: Server, c: nat, version: nat, v: nat)
    requires Inv(s) && CanEnd(s, c, version) && s.clients[c].phase.page == []
    ensures version <= |s.table.rows|
    ensures var cl := s.clients[c];
            && cl.pending == "" && cl.since <= cl.phase.pager.handed <= version
            && (cl.phase.pager.handed <= v <= version ==>
                  Partial(cl.phase) + "" == QueryText(Answer(s.table.rows[..v], cl.phase.pager.Ask())))
  {
    hide Select, LogOk, DoneBefore, OwnDone, StreamOk, RequestsOk, Ascending, PhaseOk, RowsHanded, AllFit, Wanted,
         QueryText, BatchText;
    assert ClientOk(s.origin, s.table.rows, s.log, c, s.clients[c]);
    ScanEnds(s.table.rows, s.clients[c], version);
    assert Partial(s.clients[c].phase) + "" == Partial(s.clients[c].phase);
  }

  // ---- what a run can lead to ----

  ghost predicate Reaches(s: Server, libc: Libc) {
    exists states, steps :: IsRun(states, steps, libc) && states[|steps|] == s
  }

  lemma ReachesNext(s: Server, step: Step, libc: Libc)
    requires Reaches(s, libc) && Enabled(s, step)
    ensures Reaches(Apply(s, step, libc), libc)
  {
    hide Enabled, Apply;
    var states, steps :| IsRun(states, steps, libc) && states[|steps|] == s;
    assert IsRun(states + [Apply(s, step, libc)], steps + [step], libc);
  }

  /** `n` rows with ids 1 to n, all holding `reading`. */
  ghost predicate Stocked(t: Table, reading: Reading, n: nat) {
    && t.highest == |t.rows| == n
    && forall k :: 0 <= k < n ==> t.rows[k].id == k + 1 && t.rows[k].reading == reading
  }

  /** Such a table, and a client 0 that waits for a command. */
  ghost predicate Holds(s: Server, reading: Reading, n: nat) {
    && 1 <= |s.clients| && s.clients[0].phase.Idle? && s.clients[0].pending == ""
    && Stocked(s.table, reading, n)
  }

  lemma EmptyReached(reading: Reading, libc: Libc)
    ensures exists s :: Reaches(s, libc) && Holds(s, reading, 0)
  {
    hide WelcomeText, Reaches;
    var s := Start(Table([], 0), 1);
    StartReached(Table([], 0), 1, libc);
    var step := SendSome(0, |WelcomeText()|);
    ReachesNext(s, step, libc);
    assert Holds(Apply(s, step, libc), reading, 0);
  }

  lemma StartReached(table: Table, n: nat, libc: Libc)
    requires WellFormed(table)
    ensures Reaches(Start(table, n), libc)
  {
    hide Start;
    assert IsRun([Start(table, n)], [], libc);
  }

  lemma ChunkTaken(s: Server, chunk: string, reading: Reading, n: nat, libc: Libc)
    requires Holds(s, reading, n) && 1 <= |chunk| <= CHUNK_LIMIT
    requires ParseCommand(UpToNul(chunk), libc) == Some(Sensor(reading))
    ensures Enabled(s, Receive(0, chunk))
    ensures var s' := Apply(s, Receive(0, chunk), libc);
            |s'.clients| >= 1 && s'.clients[0].phase == Inserting(reading) && Stocked(s'.table, reading, n)
  {
    hide ParseCommand, Stocked, Select, BatchText, HelpText, ErrorText;
  }

  lemma ReadingStored(s: Server, reading: Reading, n: nat, libc: Libc)
    requires |s.clients| >= 1 && s.clients[0].phase == Inserting(reading) && n < MAX_ROWID
    requires Stocked(s.table, reading, n)
    ensures Enabled(s, InsertRow(0, n + 1, None))
    ensures var s' := Apply(s, InsertRow(0, n + 1, None), libc);
            && |s'.clients| >= 1 && s'.clients[0].pending == OkText()
            && Holds(Put(s', 0, s'.clients[0].(pending := "")), reading, n + 1)
  {
    hide OkText, InsertAt, EntryOf, Select, BatchText, HelpText, ErrorText;
  }

  lemma ReplySent(s: Server, reading: Reading, n: nat, libc: Libc)
    requires |s.clients| >= 1 && s.clients[0].pending != ""
    requires Holds(Put(s, 0, s.clients[0].(pending := "")), reading, n)
    ensures var step := SendSome(0, |s.clients[0].pending|);
            Enabled(s, step) && Holds(Apply(s, step, libc), reading, n)
  {
    hide Stocked, Select, BatchText, HelpText, ErrorText;
  }

  /** Received, stored and acknowledged: one row more. */
  lemma OneMoreReached(s: Server, chunk: string, reading: Reading, n: nat, libc: Libc)
    requires Reaches(s, libc) && Holds(s, reading, n) && n < MAX_ROWID && 1 <= |chunk| <= CHUNK_LIMIT
    requires ParseCommand(UpToNul(chunk), libc) == Some(Sensor(reading))
    ensures exists s' :: Reaches(s', libc) && Holds(s', reading, n + 1)
  {
    hide Reaches, Holds, Stocked, OkText, ParseCommand, Enabled, Apply;
    ChunkTaken(s, chunk, reading, n, libc);
    ReachesNext(s, Receive(0, chunk), libc);
    var s1 := Apply(s, Receive(0, chunk), libc);
    ReadingStored(s1, reading, n, libc);
    ReachesNext(s1, InsertRow(0, n + 1, None), libc);
    var s2 := Apply(s1, InsertRow(0, n + 1, None), libc);
    ReplySent(s2, reading, n + 1, libc);
    ReachesNext(s2, SendSome(0, |s2.clients[0].pending|), libc);
  }

  /** Whatever SENSOR command the parser accepts, some run stores its reading any number of times. */
  lemma {:induction false} AcceptedIsStorable(chunk: string, reading: Reading, n: nat, libc: Libc)
    requires n <= MAX_ROWID && 1 <= |chunk| <= CHUNK_LIMIT
    requires ParseCommand(UpToNul(chunk), libc) == Some(Sensor(reading))
    ensures exists s :: Reaches(s, libc) && Holds(s, reading, n)
  {
    hide Reaches, Holds, ParseCommand;
    if n == 0 {
      EmptyReached(reading, libc);
    } else {
      AcceptedIsStorable(chunk, reading, n - 1, libc);
      var s :| Reaches(s, libc) && Holds(s, reading, n - 1);
      OneMoreReached(s, chunk, reading, n - 1, libc);
    }
  }

  lemma StepStamps(s: Server, step: Step, libc: Libc, c: nat)
    requires Enabled(s, step) && c < |s.clients|
    ensures |Apply(s, step, libc).clients| == |s.clients|
    ensures var cl, cl' := s.clients[c], Apply(s, step, libc).clients[c];
            if step.Receive? && step.c == c then cl'.begun == s.clock && cl'.since == |s.table.rows|
            else cl'.begun == cl.begun && cl'.since == cl.since && (Busy(cl'.phase) ==> Busy(cl.phase))
  {
    hide Select, OkText, HelpText, ErrorText, ParseCommand, QueryText, BatchText, RequestOf, Partial, PlaceOf, InsertAt;
  }

  /** A command under way saw the table, at its receipt, as the run shows it at that step. */
  lemma {:induction false} RunSince(states: seq<Server>, steps: seq<Step>, libc: Libc, i: nat, c: nat)
    requires IsRun(states, steps, libc) && i <= |steps| && c < |states[i].clients| && Busy(states[i].clients[c].phase)
    ensures var cl := states[i].clients[c]; cl.begun < i && cl.since == |states[cl.begun].table.rows|
  {
    hide Enabled, Apply, Inv;
    if i == 0 {
      RunStarts(states, steps, libc);
    } else {
      RunInv(states, steps, libc, i);
      RunInv(states, steps, libc, i - 1);
      StepStamps(states[i - 1], steps[i - 1], libc, c);
      if !(steps[i - 1].Receive? && steps[i - 1].c == c) {
        RunSince(states, steps, libc, i - 1, c);
      }
    }
  }

  lemma EntryStamps(s: Server, step: Step)
    requires Enabled(s, step) && Settling(s, step).Some?
    ensures var e := Settling(s, step).value;
            && e.client < |s.clients| && Busy(s.clients[e.client].phase)
            && e.begun == s.clients[e.client].begun && e.since == s.clients[e.client].since
  {
    hide BatchText, Select, HelpText, ErrorText, OkText, RequestOf, Partial, Ahead, PageAhead;
  }

  /** The same for every command in the log. */
  lemma EntrySince(states: seq<Server>, steps: seq<Step>, libc: Libc, i: nat, k: nat)
    requires IsRun(states, steps, libc) && i <= |steps| && k < |states[i].log|
    ensures var e := states[i].log[k]; e.begun < i && e.since == |states[e.begun].table.rows|
  {
    hide Enabled, Apply, Settling;
    RunWitnesses(states, steps, libc, i, k);
    var e := states[i].log[k];
    EntryStamps(states[e.done], steps[e.done]);
    RunSince(states, steps, libc, e.done, e.client);
  }

  /** However a run goes on, no QUERY of this range that is received from step `n` on ever succeeds. */
  ghost predicate NeverAnswered(s: Server, n: nat, libc: Libc, query: Command) {
    forall states: seq<Server>, steps: seq<Step> ::
      IsRun(states, steps, libc) && n <= |steps| && states[n] == s ==> NoneOk(states[|steps|].log, n, query)
  }

  /** No such command received from step `n` on has succeeded. */
  ghost predicate NoneOk(log: seq<Entry>, n: nat, query: Command) {
    forall k :: 0 <= k < |log| && log[k].request == Some(query) && n <= log[k].begun ==> !log[k].ok
  }

  /**
   The failing input of QUERY: four times "SENSOR,D,1e300,1e300,1e300,1e300" leads
   to a state from which no QUERY,1,4 of any client can ever succeed again.
   */
  lemma HugeRangeReachable(libc: Libc, v: int)
    requires Accepted(libc.strtod("1e300"), "1e300") == Some(v) && v >= Pow10(300) * MILLION
    ensures exists s, n: nat :: ReachesIn(s, n, libc) && NeverAnswered(s, n, libc, Query(1, 4))
  {
    hide Reaches, ReachesIn, ParseCommand, Accepted, HugeCommand, Pow10, NeverAnswered;
    var reading := Reading("D", v, v, v, v);
    HugeReadingArrives(libc, v, 0, None);
    WholeCommand();
    AcceptedIsStorable(HugeCommand(), reading, 4, libc);
    var s :| Reaches(s, libc) && Holds(s, reading, 4);
    var n := ReachedIn(s, libc);
    HugeRowsStuck(s, n, reading, libc, v);
  }

  /** The state is reached after `n` steps of some run. */
  ghost predicate ReachesIn(s: Server, n: nat, libc: Libc) {
    exists states, steps :: IsRun(states, steps, libc) && |steps| == n && states[n] == s
  }

  lemma ReachedIn(s: Server, libc: Libc) returns (n: nat)
    requires Reaches(s, libc)
    ensures ReachesIn(s, n, libc)
  {
    var states, steps :| IsRun(states, steps, libc) && states[|steps|] == s;
    n := |steps|;
  }

  lemma WholeCommand()
    ensures UpToNul(HugeCommand()) == HugeCommand()
  {
    HugeTextSpelled();
    assert NoNul(HugeCommand());
    hide HugeCommand;
    UpToNulUnique(HugeCommand(), HugeCommand());
  }

  lemma HugeRowsStuck(s: Server, n: nat, reading: Reading, libc: Libc, v: int)
    requires Holds(s, reading, 4) && reading == Reading("D", v, v, v, v)
    requires Accepted(libc.strtod("1e300"), "1e300") == Some(v) && v >= Pow10(300) * MILLION
    ensures NeverAnswered(s, n, libc, Query(1, 4))
  {
    hide Pow10, Accepted, Holds, Enabled, Apply;
    forall states: seq<Server>, steps: seq<Step> | IsRun(states, steps, libc) && n <= |steps| && states[n] == s
      ensures NoneOk(states[|steps|].log, n, Query(1, 4))
    {
      var log := states[|steps|].log;
      forall k | 0 <= k < |log| && log[k].request == Some(Query(1, 4)) && n <= log[k].begun ensures !log[k].ok {
        HugeRowsSeen(states, steps, n, k, reading, libc, v);
      }
    }
  }

  lemma HugeRowsSeen(states: seq<Server>, steps: seq<Step>, n: nat, k: nat, reading: Reading, libc: Libc, v: int)
    requires IsRun(states, steps, libc) && n <= |steps| && k < |states[|steps|].log| && Holds(states[n], reading, 4)
    requires reading == Reading("D", v, v, v, v)
    requires Accepted(libc.strtod("1e300"), "1e300") == Some(v) && v >= Pow10(300) * MILLION
    requires states[|steps|].log[k].request == Some(Query(1, 4)) && n <= states[|steps|].log[k].begun
    ensures !states[|steps|].log[k].ok
  {
    hide Enabled, Apply, Inv, Huge, Pow10, Accepted, ParseCommand, HugeCommand, Select;
    var i := |steps|;
    var e, rows := states[i].log[k], states[i].table.rows;
    EntrySince(states, steps, libc, i, k);
    RunGrows(states, steps, libc, n, e.begun);
    RunGrows(states, steps, libc, e.begun, i);
    var old4, seen := states[n].table.rows, rows[..e.since];
    assert old4 <= seen;
    RunInv(states, steps, libc, i);
    AscendingTable(states[i]);
    PrefixAscends(rows, e.since);
    SelectAll(old4, 1, 4);
    assert old4[3].id == 4;
    SelectStable(old4, seen, 1, 4);
    forall r | r in Answer(seen, AskedBy(e.request)) ensures Huge(r) {
      HugeReadingArrives(libc, v, r.id, r.timestamp);
    }
    RunHugeQueriesFail(states, steps, libc, i, k);
  }
}

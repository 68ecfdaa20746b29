/**
 The history of a whole server: one entry per command, in an order in which the
 commands could have been executed one at a time. A QUERY may have been answered
 from a slightly older version of the table, so its entry may have to go in front
 of inserts that are already in the log.
 */
module ServerLog {
  import opened Wrappers
  import opened SensorTable
  import opened RowText
  import opened CommandText
  import opened Replies
  import opened Paging

  /**
   `client` sent `request` when the table had `since` rows; it took effect on the
   first `at` rows and was answered with `reply`. It was received at step `begun`
   of the run and settled - its effect made, its reply fixed - at step `done`. The
   reply to a SENSOR or HELP is sent after that step. The rows of a QUERY are sent
   before it: a QUERY is settled by the empty batch that shows there are no more.
   */
  datatype Entry = Entry(client: nat, request: Option<Command>, ok: bool, reply: string, at: nat, since: nat,
                         begun: nat, done: nat)

  /** A command as received, at step `begun`. */
  datatype Receipt = Receipt(begun: nat, request: Option<Command>)

  /** The entry of an acknowledged SENSOR command. */
  predicate Stores(e: Entry) {
    e.ok && e.request.Some? && e.request.value.Sensor?
  }

  function Inserts(log: seq<Entry>): nat {
    if log == [] then 0 else Inserts(log[..|log| - 1]) + if Stores(log[|log| - 1]) then 1 else 0
  }

  function InsertAt(log: seq<Entry>, p: nat, e: Entry): seq<Entry>
    requires p <= |log|
  {
    log[..p] + [e] + log[p..]
  }

  /** Everything a client has been answered, in order. */
  function RepliesTo(log: seq<Entry>, client: nat): string {
    if log == [] then ""
    else
      var last := log[|log| - 1];
      RepliesTo(log[..|log| - 1], client) + if last.client == client then last.reply else ""
  }

  /** Everything a client has asked and been answered, in order. */
  function RequestsBy(log: seq<Entry>, client: nat): seq<Receipt> {
    if log == [] then []
    else
      var last := log[|log| - 1];
      RequestsBy(log[..|log| - 1], client) + if last.client == client then [Receipt(last.begun, last.request)] else []
  }

  /** The log as it was at step `clock`. */
  function SettledBy(log: seq<Entry>, clock: nat): seq<Entry> {
    if log == [] then []
    else
      var last := log[|log| - 1];
      SettledBy(log[..|log| - 1], clock) + if last.done < clock then [last] else []
  }

  /** The readings the log acknowledged, in order. */
  function AcceptedReadings(log: seq<Entry>): seq<Reading> {
    if log == [] then []
    else
      var last := log[|log| - 1];
      AcceptedReadings(log[..|log| - 1]) + if Stores(last) then [last.request.value.reading] else []
  }

  ghost predicate NoneOf(log: seq<Entry>, client: nat) {
    forall i :: 0 <= i < |log| ==> log[i].client != client
  }

  /** How many rows the log has inserted when entry `i` is done. */
  function Through(log: seq<Entry>, i: nat): nat
    requires i < |log|
  {
    Inserts(log[..i + 1])
  }

  /** The effects of every command settled before step `begun` are in the first `limit` rows. */
  ghost predicate DoneBefore(origin: nat, log: seq<Entry>, begun: nat, limit: nat) {
    forall i :: 0 <= i < |log| && log[i].done < begun ==> origin + Through(log, i) <= limit
  }

  /** Every command of `client` in the log was settled before step `begun`. */
  ghost predicate OwnDone(log: seq<Entry>, client: nat, begun: nat) {
    forall i :: 0 <= i < |log| && log[i].client == client ==> log[i].done < begun
  }

  /** No entry from place `p` on was settled before step `begun`. */
  ghost predicate NoneDone(log: seq<Entry>, p: nat, begun: nat) {
    forall i :: p <= i < |log| ==> begun <= log[i].done
  }

  /** All steps the log speaks of lie before step `clock`. */
  ghost predicate Stamped(log: seq<Entry>, clock: nat) {
    forall i :: 0 <= i < |log| ==> log[i].begun <= log[i].done < clock
  }

  /** A command settled before another one was received precedes it, whichever clients sent them. */
  ghost predicate RealTimeOrder(log: seq<Entry>) {
    forall i, j :: 0 <= i < |log| && 0 <= j < |log| && log[i].done < log[j].begun ==> i < j
  }

  /**
   The log explains the table: `origin` rows were there at the start, each
   acknowledged SENSOR added exactly the row at its position, every reply is
   right for the table at its position in the log, no command took effect before
   it was received, the order is that of real time where commands do not overlap,
   and each client's commands follow each other.
   */
  ghost predicate LogOk(origin: nat, rows: seq<Row>, log: seq<Entry>) {
    && origin + Inserts(log) == |rows|
    && (forall i :: 0 <= i < |log| ==> log[i].at == origin + Inserts(log[..i]))
    && (forall i :: 0 <= i < |log| ==> AnsweredRight(rows, log[i]))
    && RealTimeOrder(log)
    && (forall j :: 0 <= j < |log| ==> DoneBefore(origin, log, log[j].begun, log[j].since))
    && (forall i, j :: 0 <= i < j < |log| && log[i].client == log[j].client ==> log[i].done < log[j].begun)
  }

  /** The range of a QUERY, with the program's batch size. */
  function AskedBy(request: Option<Command>): Asked
    requires request.Some? && request.value.Query?
  {
    Asked(request.value.startId, request.value.endId, BATCH)
  }

  /** A successful QUERY: the batches of its answer, as of its receipt, all fit the buffer. */
  ghost predicate FitsIfQuery(rows: seq<Row>, e: Entry)
    requires e.since <= |rows|
  {
    e.ok && e.request.Some? && e.request.value.Query? ==> AllFit(Wanted(rows[..e.since], AskedBy(e.request)))
  }

  ghost predicate AnsweredRight(rows: seq<Row>, e: Entry) {
    e.since <= e.at <= |rows| && Answers(rows, e.at, e.request, e.ok, e.reply) && FitsIfQuery(rows, e)
  }

  // ---- the log under insertion ----

  lemma {:induction false} InsertsConcat(a: seq<Entry>, b: seq<Entry>)
    ensures Inserts(a + b) == Inserts(a) + Inserts(b)
  {
    hide Stores;
    if b == [] {
      assert a + b == a;
    } else {
      InsertsConcat(a, b[..|b| - 1]);
      assert (a + b)[..|a + b| - 1] == a + b[..|b| - 1];
    }
  }

  lemma {:induction false} RepliesConcat(a: seq<Entry>, b: seq<Entry>, client: nat)
    ensures RepliesTo(a + b, client) == RepliesTo(a, client) + RepliesTo(b, client)
  {
    if b == [] {
      assert a + b == a;
    } else {
      RepliesConcat(a, b[..|b| - 1], client);
      assert (a + b)[..|a + b| - 1] == a + b[..|b| - 1];
      Associate(RepliesTo(a, client), RepliesTo(b[..|b| - 1], client),
                if b[|b| - 1].client == client then b[|b| - 1].reply else "");
    }
  }

  lemma {:induction false} RequestsConcat(a: seq<Entry>, b: seq<Entry>, client: nat)
    ensures RequestsBy(a + b, client) == RequestsBy(a, client) + RequestsBy(b, client)
  {
    if b == [] {
      assert a + b == a;
    } else {
      var last := b[|b| - 1];
      RequestsConcat(a, b[..|b| - 1], client);
      assert (a + b)[..|a + b| - 1] == a + b[..|b| - 1];
      Associate(RequestsBy(a, client), RequestsBy(b[..|b| - 1], client),
                if last.client == client then [Receipt(last.begun, last.request)] else []);
    }
  }

  lemma {:induction false} NothingFrom(log: seq<Entry>, client: nat)
    requires NoneOf(log, client)
    ensures RepliesTo(log, client) == "" && RequestsBy(log, client) == []
  {
    if log != [] {
      NothingFrom(log[..|log| - 1], client);
    }
  }

  lemma OneEntry(e: Entry, client: nat)
    ensures RepliesTo([e], client) == if e.client == client then e.reply else ""
    ensures RequestsBy([e], client) == if e.client == client then [Receipt(e.begun, e.request)] else []
    ensures Inserts([e]) == if Stores(e) then 1 else 0
  {
    assert [e][..0] == [];
  }

  lemma SplitAt(log: seq<Entry>, p: nat)
    requires p <= |log|
    ensures log == log[..p] + log[p..]
  {
  }

  /** Other clients see nothing of a new entry, wherever it goes. */
  lemma OthersUnaffected(log: seq<Entry>, p: nat, e: Entry, client: nat)
    requires p <= |log| && e.client != client
    ensures RepliesTo(InsertAt(log, p, e), client) == RepliesTo(log, client)
    ensures RequestsBy(InsertAt(log, p, e), client) == RequestsBy(log, client)
  {
    hide RepliesTo, RequestsBy;
    SplitAt(log, p);
    RepliesConcat(log[..p], log[p..], client);
    RequestsConcat(log[..p], log[p..], client);
    RepliesConcat(log[..p] + [e], log[p..], client);
    RequestsConcat(log[..p] + [e], log[p..], client);
    RepliesConcat(log[..p], [e], client);
    RequestsConcat(log[..p], [e], client);
    OneEntry(e, client);
  }

  /** The client itself sees it as its latest, if it has no entry behind that place. */
  lemma OwnAppended(log: seq<Entry>, p: nat, e: Entry)
    requires p <= |log| && NoneOf(log[p..], e.client)
    ensures RepliesTo(InsertAt(log, p, e), e.client) == RepliesTo(log, e.client) + e.reply
    ensures RequestsBy(InsertAt(log, p, e), e.client) == RequestsBy(log, e.client) + [Receipt(e.begun, e.request)]
  {
    hide RepliesTo, RequestsBy;
    SplitAt(log, p);
    NothingFrom(log[p..], e.client);
    RepliesConcat(log[..p], log[p..], e.client);
    RequestsConcat(log[..p], log[p..], e.client);
    RepliesConcat(log[..p] + [e], log[p..], e.client);
    RequestsConcat(log[..p] + [e], log[p..], e.client);
    RepliesConcat(log[..p], [e], e.client);
    RequestsConcat(log[..p], [e], e.client);
    OneEntry(e, e.client);
  }

  /** Prefix counts around a new entry that stores nothing. */
  lemma CountsAround(log: seq<Entry>, p: nat, e: Entry, i: nat)
    requires p <= |log| && i <= |log| + 1 && !Stores(e)
    ensures Inserts(InsertAt(log, p, e)[..i]) == if i <= p then Inserts(log[..i]) else Inserts(log[..i - 1])
  {
    hide Stores, Inserts;
    var log' := InsertAt(log, p, e);
    if i <= p {
      assert log'[..i] == log[..i];
    } else {
      assert log'[..i] == log[..p] + [e] + log[p..i - 1];
      assert log[..i - 1] == log[..p] + log[p..i - 1];
      InsertsConcat(log[..p] + [e], log[p..i - 1]);
      InsertsConcat(log[..p], [e]);
      InsertsConcat(log[..p], log[p..i - 1]);
      OneEntry(e, 0);
    }
  }

  lemma EntryAround(log: seq<Entry>, p: nat, e: Entry, i: nat)
    requires p <= |log| && i <= |log|
    ensures InsertAt(log, p, e)[i] == if i < p then log[i] else if i == p then e else log[i - 1]
  {
  }

  lemma {:induction false} InsertsMonotone(log: seq<Entry>, i: nat, j: nat)
    requires i <= j <= |log|
    ensures Inserts(log[..i]) <= Inserts(log[..j])
  {
    assert log[..j] == log[..i] + log[i..j];
    InsertsConcat(log[..i], log[i..j]);
  }

  /** A client whose commands were settled before `begun` has no entry where none was settled before `begun`. */
  lemma NoneBehind(log: seq<Entry>, p: nat, client: nat, begun: nat)
    requires p <= |log| && OwnDone(log, client, begun) && NoneDone(log, p, begun)
    ensures NoneOf(log[p..], client)
  {
    forall i | 0 <= i < |log[p..]| ensures log[p..][i].client != client {
      assert log[p..][i] == log[p + i];
    }
  }

  /** An entry that stores nothing may be put where the count of inserts is its version. */
  lemma LogInserted(origin: nat, rows: seq<Row>, log: seq<Entry>, p: nat, e: Entry)
    requires LogOk(origin, rows, log) && p <= |log| && !Stores(e)
    requires e.at == origin + Inserts(log[..p]) && AnsweredRight(rows, e)
    requires Stamped(log, e.done) && e.begun <= e.done
    requires NoneDone(log, p, e.begun) && OwnDone(log, e.client, e.begun)
    requires DoneBefore(origin, log, e.begun, e.since)
    ensures LogOk(origin, rows, InsertAt(log, p, e))
  {
    hide Stores, Inserts, AnsweredRight, InsertAt, Through, RealTimeOrder, Stamped, NoneDone, OwnDone, DoneBefore;
    var log' := InsertAt(log, p, e);
    InsertAtLength(log, p, e);
    CountsAround(log, p, e, |log| + 1);
    assert log'[..|log| + 1] == log' && log[..|log|] == log;
    forall i | 0 <= i < |log'|
      ensures log'[i].at == origin + Inserts(log'[..i]) && AnsweredRight(rows, log'[i])
      ensures DoneBefore(origin, log', log'[i].begun, log'[i].since)
    {
      CountsAround(log, p, e, i);
      EntryAround(log, p, e, i);
      StampedEntry(log, e.done, i, p);
      DoneBeforeInserted(origin, log, p, e, log'[i].begun, log'[i].since);
    }
    RealTimeInserted(log, p, e);
    OwnOrderInserted(log, p, e);
  }

  lemma StampedEntry(log: seq<Entry>, clock: nat, i: nat, p: nat)
    requires Stamped(log, clock) && i <= |log| && p <= |log|
    ensures i != p ==> (if i < p then log[i] else log[i - 1]).begun <= clock
  {
  }

  lemma RealTimeInserted(log: seq<Entry>, p: nat, e: Entry)
    requires RealTimeOrder(log) && p <= |log| && Stamped(log, e.done) && e.begun <= e.done && NoneDone(log, p, e.begun)
    ensures RealTimeOrder(InsertAt(log, p, e))
  {
    hide InsertAt;
    var log' := InsertAt(log, p, e);
    InsertAtLength(log, p, e);
    forall i, j | 0 <= i < |log'| && 0 <= j < |log'| && log'[i].done < log'[j].begun ensures i < j {
      EntryAround(log, p, e, i);
      EntryAround(log, p, e, j);
    }
  }

  lemma OwnOrderInserted(log: seq<Entry>, p: nat, e: Entry)
    requires forall i, j :: 0 <= i < j < |log| && log[i].client == log[j].client ==> log[i].done < log[j].begun
    requires p <= |log| && NoneDone(log, p, e.begun) && OwnDone(log, e.client, e.begun)
    ensures var log' := InsertAt(log, p, e);
            forall i, j :: 0 <= i < j < |log'| && log'[i].client == log'[j].client ==> log'[i].done < log'[j].begun
  {
    hide InsertAt;
    var log' := InsertAt(log, p, e);
    InsertAtLength(log, p, e);
    forall i, j | 0 <= i < j < |log'| && log'[i].client == log'[j].client ensures log'[i].done < log'[j].begun {
      EntryAround(log, p, e, i);
      EntryAround(log, p, e, j);
    }
  }

  lemma InsertAtLength(log: seq<Entry>, p: nat, e: Entry)
    requires p <= |log|
    ensures |InsertAt(log, p, e)| == |log| + 1
    ensures p == |log| ==> InsertAt(log, p, e) == log + [e]
  {
  }

  /** A new entry that stores nothing moves no effect, and was not settled before anything already received. */
  lemma DoneBeforeInserted(origin: nat, log: seq<Entry>, p: nat, e: Entry, begun: nat, limit: nat)
    requires DoneBefore(origin, log, begun, limit) && p <= |log| && !Stores(e) && begun <= e.done
    ensures DoneBefore(origin, InsertAt(log, p, e), begun, limit)
  {
    hide Stores, Inserts, InsertAt;
    var log' := InsertAt(log, p, e);
    InsertAtLength(log, p, e);
    forall i | 0 <= i < |log'| && log'[i].done < begun ensures origin + Through(log', i) <= limit {
      CountsAround(log, p, e, i + 1);
      EntryAround(log, p, e, i);
    }
  }

  lemma OwnDoneInserted(log: seq<Entry>, p: nat, e: Entry, client: nat, begun: nat)
    requires OwnDone(log, client, begun) && p <= |log| && e.client != client
    ensures OwnDone(InsertAt(log, p, e), client, begun)
  {
    hide InsertAt;
    InsertAtLength(log, p, e);
    forall i | 0 <= i < |log| + 1 && InsertAt(log, p, e)[i].client == client
      ensures InsertAt(log, p, e)[i].done < begun
    {
      EntryAround(log, p, e, i);
    }
  }

  /** An acknowledged SENSOR goes to the end, together with its row. */
  lemma LogStored(origin: nat, rows: seq<Row>, rows': seq<Row>, log: seq<Entry>, e: Entry)
    requires LogOk(origin, rows, log) && Stores(e)
    requires rows <= rows' && |rows'| == |rows| + 1
    requires e.at == |rows| && AnsweredRight(rows', e)
    requires Stamped(log, e.done) && e.begun <= e.done && OwnDone(log, e.client, e.begun)
    requires DoneBefore(origin, log, e.begun, e.since)
    ensures LogOk(origin, rows', log + [e])
  {
    hide Stores, AnsweredRight, Inserts, RealTimeOrder, Stamped, OwnDone, DoneBefore;
    var log' := log + [e];
    InsertAtLength(log, |log|, e);
    InsertsConcat(log, [e]);
    OneEntry(e, 0);
    forall i | 0 <= i < |log'|
      ensures log'[i].at == origin + Inserts(log'[..i]) && AnsweredRight(rows', log'[i])
      ensures DoneBefore(origin, log', log'[i].begun, log'[i].since)
    {
      assert log'[..i] == if i < |log| then log[..i] else log;
      StampedEntry(log, e.done, i, |log|);
      DoneBeforeAppended(origin, log, e, log'[i].begun, log'[i].since);
      if i < |log| {
        StillRight(rows, rows', log[i]);
      }
    }
    assert NoneDone(log, |log|, e.begun);
    RealTimeInserted(log, |log|, e);
    OwnOrderInserted(log, |log|, e);
  }

  lemma StillRight(rows: seq<Row>, rows': seq<Row>, e: Entry)
    requires AnsweredRight(rows, e) && rows <= rows'
    ensures AnsweredRight(rows', e)
  {
    hide Answers, Wanted, AllFit;
    AnswersStay(rows, rows', e.at, e.request, e.ok, e.reply);
    assert rows'[..e.since] == rows[..e.since];
  }

  lemma DoneBeforeAppended(origin: nat, log: seq<Entry>, e: Entry, begun: nat, limit: nat)
    requires DoneBefore(origin, log, begun, limit) && begun <= e.done
    ensures DoneBefore(origin, log + [e], begun, limit)
  {
    hide Inserts;
    forall i | 0 <= i < |log + [e]| && (log + [e])[i].done < begun ensures origin + Through(log + [e], i) <= limit {
      assert (log + [e])[..i + 1] == log[..i + 1];
    }
  }

  /** All effects in the log are in the table. */
  lemma DoneBeforeNow(origin: nat, rows: seq<Row>, log: seq<Entry>, begun: nat)
    requires LogOk(origin, rows, log)
    ensures DoneBefore(origin, log, begun, |rows|)
  {
    hide Inserts, LogOk;
    forall i | 0 <= i < |log| ensures origin + Through(log, i) <= |rows| {
      CountsWithin(origin, rows, log, i + 1);
    }
  }

  lemma OwnDoneNow(log: seq<Entry>, client: nat, clock: nat)
    requires Stamped(log, clock)
    ensures OwnDone(log, client, clock)
  {
  }

  /** The last place in the log at which exactly `m` rows had been inserted. */
  function PlaceOf(log: seq<Entry>, m: nat): (p: nat)
    ensures p <= |log|
  {
    if log == [] || Inserts(log) <= m then |log| else PlaceOf(log[..|log| - 1], m)
  }

  lemma {:induction false} PlaceFits(log: seq<Entry>, m: nat)
    requires m <= Inserts(log)
    ensures Inserts(log[..PlaceOf(log, m)]) == m
    ensures forall i :: PlaceOf(log, m) <= i < |log| ==> Through(log, i) > m
  {
    if log == [] || Inserts(log) <= m {
      assert log[..|log|] == log;
    } else {
      var front := log[..|log| - 1];
      PlaceFits(front, m);
      var p := PlaceOf(log, m);
      assert front[..p] == log[..p];
      forall i | p <= i < |log| ensures Through(log, i) > m {
        if i < |front| {
          assert Through(front, i) > m;
          assert front[..i + 1] == log[..i + 1];
        } else {
          assert log[..i + 1] == log;
        }
      }
    }
  }

  /** When all that was settled before `begun` is in version `version`, none of it is behind that version's place. */
  lemma PlaceIsAfterSettled(origin: nat, log: seq<Entry>, begun: nat, version: nat)
    requires origin <= version <= origin + Inserts(log) && DoneBefore(origin, log, begun, version)
    ensures NoneDone(log, PlaceOf(log, version - origin), begun)
    ensures origin + Inserts(log[..PlaceOf(log, version - origin)]) == version
  {
    hide Inserts, PlaceOf;
    PlaceFits(log, version - origin);
  }

  // ---- history is never rewritten ----

  lemma {:induction false} SettledConcat(a: seq<Entry>, b: seq<Entry>, clock: nat)
    ensures SettledBy(a + b, clock) == SettledBy(a, clock) + SettledBy(b, clock)
  {
    if b == [] {
      assert a + b == a;
    } else {
      SettledConcat(a, b[..|b| - 1], clock);
      assert (a + b)[..|a + b| - 1] == a + b[..|b| - 1];
      Associate(SettledBy(a, clock), SettledBy(b[..|b| - 1], clock),
                if b[|b| - 1].done < clock then [b[|b| - 1]] else []);
    }
  }

  lemma {:induction false} AllSettled(log: seq<Entry>, clock: nat)
    requires Stamped(log, clock)
    ensures SettledBy(log, clock) == log
  {
    hide Stamped;
    if log != [] {
      StampedFront(log, clock);
      AllSettled(log[..|log| - 1], clock);
      assert log == log[..|log| - 1] + [log[|log| - 1]];
    }
  }

  lemma StampedFront(log: seq<Entry>, clock: nat)
    requires Stamped(log, clock) && log != []
    ensures Stamped(log[..|log| - 1], clock) && log[|log| - 1].done < clock
  {
  }

  /** A new entry, wherever it goes, leaves the log as it was at any earlier step. */
  lemma SettledUnchanged(log: seq<Entry>, p: nat, e: Entry, clock: nat)
    requires p <= |log| && clock <= e.done
    ensures SettledBy(InsertAt(log, p, e), clock) == SettledBy(log, clock)
  {
    hide SettledBy;
    SplitAt(log, p);
    SettledConcat(log[..p], log[p..], clock);
    SettledConcat(log[..p] + [e], log[p..], clock);
    SettledConcat(log[..p], [e], clock);
    NotSettled(e, clock);
  }

  lemma NotSettled(e: Entry, clock: nat)
    requires clock <= e.done
    ensures SettledBy([e], clock) == []
  {
    assert [e][..0] == [];
  }

  // ---- the sequential server the log describes ----

  /** One command executed alone: the table before it, the table after it. */
  ghost predicate ServedAlone(before: seq<Row>, e: Entry, after: seq<Row>) {
    if Stores(e) then
      && before <= after && |after| == |before| + 1
      && after[|before|].reading == e.request.value.reading && e.reply == OkText()
    else
      after == before && Answers(before, |before|, e.request, e.ok, e.reply)
  }

  /** A run of a server that executes one whole command at a time. */
  ghost predicate SequentialRun(tables: seq<seq<Row>>, log: seq<Entry>) {
    |tables| == |log| + 1 && forall i :: 0 <= i < |log| ==> ServedAlone(tables[i], log[i], tables[i + 1])
  }

  ghost function Versions(origin: nat, rows: seq<Row>, log: seq<Entry>): (tables: seq<seq<Row>>)
    requires LogOk(origin, rows, log)
    ensures |tables| == |log| + 1
  {
    seq(|log| + 1, i requires 0 <= i <= |log| => VersionAt(origin, rows, log, i))
  }

  ghost function VersionAt(origin: nat, rows: seq<Row>, log: seq<Entry>, i: nat): seq<Row>
    requires LogOk(origin, rows, log) && i <= |log|
  {
    assert origin + Inserts(log[..i]) <= |rows| by {
      InsertsMonotone(log, i, |log|);
      assert log[..|log|] == log;
    }
    rows[..origin + Inserts(log[..i])]
  }

  lemma AnswersAlone(rows: seq<Row>, e: Entry)
    requires Answers(rows, e.at, e.request, e.ok, e.reply) && !Stores(e)
    ensures Answers(rows[..e.at], e.at, e.request, e.ok, e.reply)
  {
    hide OkText, ErrorText, HelpText, IdRange, QueryText, Select, PartialAnswer;
    assert rows[..e.at][..e.at] == rows[..e.at];
  }

  lemma StoresAlone(rows: seq<Row>, e: Entry)
    requires Answers(rows, e.at, e.request, e.ok, e.reply) && Stores(e)
    ensures e.at < |rows| && ServedAlone(rows[..e.at], e, rows[..e.at + 1])
  {
    hide OkText;
    assert rows[..e.at + 1][..e.at] == rows[..e.at];
  }

  lemma NextCount(log: seq<Entry>, i: nat)
    requires i < |log|
    ensures Inserts(log[..i + 1]) == Inserts(log[..i]) + if Stores(log[i]) then 1 else 0
  {
    hide Stores;
    assert log[..i + 1][..i] == log[..i];
  }

  lemma StepIsServedAlone(origin: nat, rows: seq<Row>, log: seq<Entry>, i: nat)
    requires LogOk(origin, rows, log) && i < |log|
    ensures ServedAlone(VersionAt(origin, rows, log, i), log[i], VersionAt(origin, rows, log, i + 1))
  {
    hide Answers, Stores, Inserts, LogOk;
    EntryFacts(origin, rows, log, i);
    NextCount(log, i);
    CountsWithin(origin, rows, log, i);
    if Stores(log[i]) {
      StoresAlone(rows, log[i]);
    } else {
      AnswersAlone(rows, log[i]);
      assert |VersionAt(origin, rows, log, i)| == log[i].at;
    }
  }

  lemma EntryFacts(origin: nat, rows: seq<Row>, log: seq<Entry>, i: nat)
    requires LogOk(origin, rows, log) && i < |log|
    ensures log[i].at == origin + Inserts(log[..i]) && log[i].since <= log[i].at
    ensures Answers(rows, log[i].at, log[i].request, log[i].ok, log[i].reply)
  {
    hide Answers, Inserts;
    assert AnsweredRight(rows, log[i]);
  }

  /** The log is a run of the sequential server, from the table at the start to the table now. */
  lemma LogIsSequential(origin: nat, rows: seq<Row>, log: seq<Entry>)
    requires LogOk(origin, rows, log)
    ensures var tables := Versions(origin, rows, log);
            && SequentialRun(tables, log)
            && tables[0] == rows[..origin] && tables[|log|] == rows
  {
    hide LogOk, ServedAlone;
    var tables := Versions(origin, rows, log);
    forall i | 0 <= i < |log| ensures ServedAlone(tables[i], log[i], tables[i + 1]) {
      StepIsServedAlone(origin, rows, log, i);
    }
    EndVersions(origin, rows, log);
  }

  lemma EndVersions(origin: nat, rows: seq<Row>, log: seq<Entry>)
    requires LogOk(origin, rows, log)
    ensures VersionAt(origin, rows, log, 0) == rows[..origin] && VersionAt(origin, rows, log, |log|) == rows
  {
    hide AnsweredRight, RealTimeOrder, DoneBefore;
    assert log[..0] == [] && log[..|log|] == log;
    assert rows[..|rows|] == rows;
  }

  function ReadingsOf(rows: seq<Row>): (readings: seq<Reading>)
    ensures |readings| == |rows| && forall i :: 0 <= i < |rows| ==> readings[i] == rows[i].reading
  {
    seq(|rows|, i requires 0 <= i < |rows| => rows[i].reading)
  }

  lemma {:induction false} AcceptedPrefix(origin: nat, rows: seq<Row>, log: seq<Entry>, n: nat)
    requires LogOk(origin, rows, log) && n <= |log|
    ensures origin + Inserts(log[..n]) <= |rows|
    ensures AcceptedReadings(log[..n]) == ReadingsOf(rows[origin..origin + Inserts(log[..n])])
  {
    hide *;
    CountsWithin(origin, rows, log, n);
    if n == 0 {
      NothingAccepted(log, rows, origin);
    } else {
      AcceptedPrefix(origin, rows, log, n - 1);
      NextCount(log, n - 1);
      EntryFacts(origin, rows, log, n - 1);
      StoredRow(rows, log[n - 1]);
      AcceptedNext(log, n);
      ReadingsNext(rows, origin, log[n - 1].at, origin + Inserts(log[..n]));
    }
  }

  lemma NothingAccepted(log: seq<Entry>, rows: seq<Row>, origin: nat)
    requires origin <= |rows|
    ensures Inserts(log[..0]) == 0 && AcceptedReadings(log[..0]) == ReadingsOf(rows[origin..origin])
  {
    assert log[..0] == [] && rows[origin..origin] == [];
  }

  lemma CountsWithin(origin: nat, rows: seq<Row>, log: seq<Entry>, n: nat)
    requires LogOk(origin, rows, log) && n <= |log|
    ensures origin + Inserts(log[..n]) <= |rows|
  {
    hide Inserts, AnsweredRight;
    InsertsMonotone(log, n, |log|);
    assert log[..|log|] == log;
  }

  lemma AcceptedNext(log: seq<Entry>, n: nat)
    requires 1 <= n <= |log|
    ensures AcceptedReadings(log[..n]) == AcceptedReadings(log[..n - 1]) +
            if Stores(log[n - 1]) then [log[n - 1].request.value.reading] else []
  {
    assert log[..n][..n - 1] == log[..n - 1];
  }

  lemma ReadingsNext(rows: seq<Row>, from: nat, mid: nat, to: nat)
    requires from <= mid <= to <= mid + 1 && to <= |rows|
    ensures ReadingsOf(rows[from..to]) == ReadingsOf(rows[from..mid]) + if to == mid then [] else [rows[mid].reading]
  {
    assert rows[from..to] == rows[from..mid] + rows[mid..to];
  }

  /** What had been settled when a command was received precedes it and is in every version it may see. */
  lemma SettledFirst(origin: nat, rows: seq<Row>, log: seq<Entry>, i: nat, j: nat)
    requires LogOk(origin, rows, log) && i < |log| && j < |log| && log[i].done < log[j].begun
    ensures i < j && log[i].at + (if Stores(log[i]) then 1 else 0) <= log[j].since <= log[j].at
  {
    hide Inserts, AnsweredRight, Stores;
    NextCount(log, i);
    EntryFacts(origin, rows, log, j);
    assert DoneBefore(origin, log, log[j].begun, log[j].since);
    assert origin + Through(log, i) <= log[j].since;
  }

  lemma OwnOrder(origin: nat, rows: seq<Row>, log: seq<Entry>, i: nat, j: nat)
    requires LogOk(origin, rows, log) && i < j < |log| && log[i].client == log[j].client
    ensures log[i].done < log[j].begun
  {
    hide Inserts, AnsweredRight, Stores, RealTimeOrder, DoneBefore;
  }

  lemma QueryAnswered(rows: seq<Row>, e: Entry)
    requires Answers(rows, e.at, e.request, e.ok, e.reply)
    requires e.ok && e.request.Some? && e.request.value.Query?
    ensures e.at <= |rows|
    ensures e.reply == QueryText(Select(rows[..e.at], e.request.value.startId, e.request.value.endId))
  {
  }

  lemma HelpAnswered(rows: seq<Row>, e: Entry)
    requires Answers(rows, e.at, e.request, e.ok, e.reply) && e.ok && e.request == Some(Help)
    ensures e.at <= |rows|
    ensures e.reply == HelpText(IdRange(rows[..e.at]).0, IdRange(rows[..e.at]).1)
  {
    hide HelpText, IdRange;
  }

  lemma StoredRow(rows: seq<Row>, e: Entry)
    requires Answers(rows, e.at, e.request, e.ok, e.reply)
    ensures Stores(e) ==> e.at < |rows| && rows[e.at].reading == e.request.value.reading
  {
  }

  /**
   Conservation: the rows added since the start are in one-to-one correspondence
   with the acknowledged SENSOR commands, in log order, each with its own values.
   */
  lemma RowsAreAcceptedReadings(origin: nat, rows: seq<Row>, log: seq<Entry>)
    requires LogOk(origin, rows, log)
    ensures origin <= |rows| && AcceptedReadings(log) == ReadingsOf(rows[origin..])
  {
    hide AcceptedReadings, Inserts, AnsweredRight, ReadingsOf;
    AcceptedPrefix(origin, rows, log, |log|);
    assert log[..|log|] == log;
    assert rows[origin..|rows|] == rows[origin..];
  }
}

/**
 app/main and the client thread of transport/tcp: which bytes follow which
 received chunk, over the whole life of one connection.
 */
module App {
  import opened Wrappers
  import opened CText
  import opened SensorTable
  import opened RowText
  import opened CommandText
  import opened Replies
  import opened Storage
  import opened Paging
  import opened Transport
  import opened Gateway

  /** BUFFER_SIZE in config.h and TCP_SERVER_BUFFER_SIZE in tcp_server.c */
  const BUFFER_SIZE := 128

  datatype Event = Connected | Data(bytes: string) | Disconnected

  /**
   What handling one received chunk promises: the reply answers the command as
   one atomic step on the first `at` rows of the table; it is on the wire in full
   unless a send failed, and then its first `sent` bytes are.
   */
  ghost predicate Served(before: seq<Row>, rows: seq<Row>, wire: string, wire': string, request: Option<Command>,
                         rc: int, ok: bool, reply: string, at: nat, sent: nat, sendFault: bool)
  {
    && (rc == 0 || rc == -1)
    && before <= rows && |before| <= at <= |rows|
    && Answers(rows, at, request, ok, reply)
    && (!sendFault ==> wire' == wire + reply && (rc == 0 <==> ok))
    && (sendFault ==> rc == -1 && sent < |reply| && wire + reply[..sent] <= wire')
  }

  lemma ReplySent(before: seq<Row>, rows: seq<Row>, rows': seq<Row>, wire: string, wire': string,
                  request: Option<Command>, text: string, pending: string, at: nat, n: nat)
    requires Processed(before, rows, wire, wire + text, request, 0, text, pending, at, 0, false)
    requires pending != "" && n <= |pending| && wire' == wire + text + pending[..n] && rows <= rows'
    ensures n == |pending| ==> Served(before, rows', wire, wire', request, 0, true, text + pending, at, 0, false)
    ensures n < |pending| ==> Served(before, rows', wire, wire', request, -1, true, text + pending, at, n, true)
  {
    hide Answers;
    AnswersStay(rows, rows', at, request, true, text + pending);
    assert text == "" && text + pending == pending && wire + text == wire;
    assert pending[..|pending|] == pending;
  }

  lemma NoReplyToSend(before: seq<Row>, rows: seq<Row>, wire: string, wire': string, request: Option<Command>,
                      text: string, at: nat, sent: nat)
    requires Processed(before, rows, wire, wire', request, 0, text, "", at, sent, false)
    ensures Served(before, rows, wire, wire', request, 0, true, text, at, 0, false)
  {
    hide Answers;
    assert text + "" == text;
  }

  lemma ErrorSent(before: seq<Row>, rows: seq<Row>, rows': seq<Row>, wire: string, mid: string, wire': string,
                  request: Option<Command>, text: string, at: nat, sent: nat, sendFault: bool, n: nat)
    requires Processed(before, rows, wire, mid, request, -1, text, "", at, sent, sendFault)
    requires n <= |ErrorText()| && wire' == mid + ErrorText()[..n] && rows <= rows'
    ensures var reply := text + ErrorText();
            var fault := sendFault || n < |ErrorText()|;
            Served(before, rows', wire, wire', request, -1, false, reply, at,
                   if sendFault then sent else |text| + n, fault)
  {
    hide ErrorText, Answers;
    var reply := text + ErrorText();
    AnswersStay(rows, rows', at, request, false, reply);
    if sendFault {
      assert reply[..sent] == text[..sent];
    } else {
      assert reply[..|text| + n] == text + ErrorText()[..n];
      assert wire' == wire + reply[..|text| + n];
      assert reply[..|reply|] == reply;
    }
  }

  /** The TCP_CLIENT_DATA branch of client_handler(): copy, terminate, process, reply. */
  method HandleData(db: Database, sock: Socket, c: Libc, data: string)
    returns (rc: int, ghost ok: bool, ghost reply: string, ghost at: nat, ghost sent: nat, ghost sendFault: bool)
    requires db.Valid() && Platform(c)
    modifies db, sock
    ensures Grows(old(db.table), db.table)
    ensures db.faults >= old(db.faults) && sock.failures >= old(sock.failures)
    ensures sendFault <==> sock.failures > old(sock.failures)
    ensures 1 <= |data| < BUFFER_SIZE ==>
              Verdict(old(db.table).rows, db.table.rows, db.limit, ParseCommand(UpToNul(data), c), ok,
                      db.faults > old(db.faults), sendFault)
    ensures 1 <= |data| < BUFFER_SIZE ==>
              Served(old(db.table).rows, db.table.rows, old(sock.wire), sock.wire, ParseCommand(UpToNul(data), c),
                     rc, ok, reply, at, sent, sendFault)
    // The "too large" branch: no reply at all.
    ensures !(1 <= |data| < BUFFER_SIZE) ==> rc == -1 && sock.wire == old(sock.wire) && db.table == old(db.table)
    // A row is stored for this client exactly when its SENSOR command took effect.
    ensures var request := ParseCommand(UpToNul(data), c);
            db.authored == old(db.authored) +
              if 1 <= |data| < BUFFER_SIZE && ok && request.Some? && request.value.Sensor? then [at] else []
  {
    hide Processed, Served, BufferHolds, Fit, ParseCommand, ErrorText, Verdict;
    rc, ok, reply, at, sent, sendFault := -1, false, "", 0, 0, false;
    if data == "" || |data| >= BUFFER_SIZE {
      return;
    }
    var input := new char[BUFFER_SIZE];
    forall i | 0 <= i < |data| {
      input[i] := data[i];
    }
    input[|data|] := NUL;
    assert input[..|data|] == data;
    ChunkCopied(input[..], data);
    var output := new char[BATCH_BUFFER];
    ghost var before, wire := db.table.rows, sock.wire;
    ghost var request := ParseCommand(UpToNul(data), c);
    ghost var text, pending;
    rc, text, pending, at, sent, sendFault := Process(db, StrAt(input[..], 0), c, output, sock);
    ghost var rows, mid := db.table.rows, sock.wire;
    ProcessedShape(before, rows, wire, mid, request, rc, text, pending, at, sent, sendFault);
    ghost var n;
    if rc != 0 {
      rc, n := TcpServerSend(sock, ErrorText());
      db.OtherClients();
      GrowthFacts(old(db.table), db.table);
      ErrorSent(before, rows, db.table.rows, wire, mid, sock.wire, request, text, at, sent, sendFault, n);
      VerdictStays(before, rows, db.table.rows, db.limit, request, false, db.faults > old(db.faults), sendFault);
      LostErrorLine(before, db.table.rows, db.limit, request, db.faults > old(db.faults), sendFault);
      reply := text + ErrorText();
      sent, sendFault := if sendFault then sent else |text| + n, sendFault || n < |ErrorText()|;
      return -1, false, reply, at, sent, sendFault;
    }
    ok, reply := true, text + pending;
    PendingInBuffer(output[..], pending);
    if output[0] != NUL {
      rc, n := TcpServerSend(sock, StrAt(output[..], 0));
      db.OtherClients();
      GrowthFacts(old(db.table), db.table);
      ReplySent(before, rows, db.table.rows, wire, sock.wire, request, text, pending, at, n);
      VerdictStays(before, rows, db.table.rows, db.limit, request, true, db.faults > old(db.faults), false);
      LostReply(before, rows, db.table.rows, db.limit, request, db.faults > old(db.faults), text, pending, at,
                wire, mid);
      sent, sendFault := if n < |pending| then n else 0, n < |pending|;
      return;
    }
    NoReplyToSend(before, rows, wire, mid, request, text, at, sent);
    sent := 0;
    assert reply == text;
  }

  /** A failed send of the error line leaves a failed command failed. */
  lemma LostErrorLine(before: seq<Row>, rows: seq<Row>, limit: nat, request: Option<Command>, sqlFault: bool,
                      sendFault: bool)
    requires limit >= 1 && Verdict(before, rows, limit, request, false, sqlFault, sendFault)
    ensures Verdict(before, rows, limit, request, false, sqlFault, true)
  {
    hide QueryVerdict;
  }

  /** Only SENSOR and HELP leave a reply in the output buffer: losing it undoes nothing. */
  lemma LostReply(before: seq<Row>, mid: seq<Row>, rows: seq<Row>, limit: nat, request: Option<Command>,
                  sqlFault: bool, text: string, pending: string, at: nat, wire: string, wire': string)
    requires limit >= 1 && Verdict(before, rows, limit, request, true, sqlFault, false) && pending != ""
    requires Processed(before, mid, wire, wire', request, 0, text, pending, at, 0, false)
    ensures Verdict(before, rows, limit, request, true, sqlFault, true)
  {
    hide QueryVerdict, Answers;
  }

  /** The chunk with a NUL behind it holds the bytes up to the chunk's first NUL as a C string. */
  lemma ChunkCopied(mem: string, data: string)
    requires |data| < |mem| && mem[..|data|] == data && mem[|data|] == NUL
    ensures StrAt(mem, 0) == UpToNul(data)
  {
    var s := UpToNul(data);
    assert mem[|s|] == if |s| < |data| then data[|s|] else NUL;
    assert mem[0..|s|] == data[..|s|] == s;
    StrAtIs(mem, 0, s);
  }

  lemma ProcessedShape(before: seq<Row>, rows: seq<Row>, wire: string, wire': string, request: Option<Command>,
                       rc: int, text: string, pending: string, at: nat, sent: nat, sendFault: bool)
    requires Processed(before, rows, wire, wire', request, rc, text, pending, at, sent, sendFault)
    ensures rc == 0 || rc == -1
    ensures |pending| < BATCH_BUFFER && NoNul(pending) && (rc == -1 ==> pending == "")
    ensures rc == 0 ==>
              && !sendFault && wire' == wire + text
              && Processed(before, rows, wire, wire', request, rc, text, pending, at, 0, false)
  {
    hide Answers, ErrorText;
  }

  lemma PendingInBuffer(mem: string, pending: string)
    requires |mem| == BATCH_BUFFER && |pending| < BATCH_BUFFER && NoNul(pending)
    requires BufferHolds(mem, Fit(pending, |mem|))
    ensures StrAt(mem, 0) == pending && (mem[0] == NUL <==> pending == "")
  {
    BufferIsString(mem, pending);
    if pending != "" {
      assert mem[0] == mem[..|pending|][0] == pending[0];
      assert pending[0] in pending;
    }
  }

  // ---- the life of one connection ----

  /** What recv(2) on a 127-byte request can report. */
  datatype Received = Bytes(data: string) | EndOfStream | Interrupted | RecvError

  /** One turn of the receive loop: the running flag as the loop test sees it, then the outcome of recv. */
  datatype Observation = Observation(running: bool, received: Received)

  /** recv never returns more than it was asked for: the buffer of 128 bytes minus one. */
  ghost predicate RecvContract(script: seq<Observation>) {
    forall i :: 0 <= i < |script| && script[i].received.Bytes? ==> 1 <= |script[i].received.data| <= 127
  }

  /** The events after CONNECTED that a thread raises while the world behaves as in `script`. */
  function EventsOf(script: seq<Observation>): seq<Event> {
    if script == [] || !script[0].running then []
    else
      match script[0].received
      case Bytes(data) => [Data(data)] + EventsOf(script[1..])
      case EndOfStream => [Disconnected]
      case Interrupted => EventsOf(script[1..])
      case RecvError => []
  }

  /** The thread has left its loop by the end of the script. */
  predicate Exits(script: seq<Observation>) {
    script != [] &&
    (!script[0].running || match script[0].received
                           case Bytes(_) => Exits(script[1..])
                           case Interrupted => Exits(script[1..])
                           case EndOfStream => true
                           case RecvError => true)
  }

  /** The peer closes its side at turn `k` of a thread that is still reading. */
  ghost predicate PeerCloses(script: seq<Observation>, k: nat) {
    && k < |script| && script[k].received == EndOfStream
    && (forall i :: 0 <= i <= k ==> script[i].running)
    && (forall i :: 0 <= i < k ==> script[i].received.Bytes? || script[i].received.Interrupted?)
  }

  lemma PeerClosesShift(script: seq<Observation>, k: nat)
    requires script != [] && script[0].running && (script[0].received.Bytes? || script[0].received.Interrupted?)
    ensures PeerCloses(script[1..], k) <==> PeerCloses(script, k + 1)
  {
    if PeerCloses(script[1..], k) {
      forall i | 0 <= i <= k + 1 ensures script[i].running {
        assert i > 0 ==> script[1..][i - 1].running;
      }
      forall i | 0 <= i < k + 1 ensures script[i].received.Bytes? || script[i].received.Interrupted? {
        assert i > 0 ==> script[1..][i - 1] == script[i];
      }
    }
    if PeerCloses(script, k + 1) {
      forall i | 0 <= i <= k ensures script[1..][i].running {
        assert script[i + 1].running;
      }
    }
  }

  /**
   After CONNECTED come DATA events of 1 to 127 bytes, so neither the handler's
   "too large" branch nor the parser's 256-byte limit ever rejects a chunk;
   DISCONNECTED is raised at most once, as the last event, and exactly when the
   peer closes while the thread is reading.
   */
  lemma {:induction false} EventOrder(script: seq<Observation>)
    requires RecvContract(script)
    ensures forall i :: 0 <= i < |EventsOf(script)| ==>
              var e := EventsOf(script)[i];
              || (e.Data? && 1 <= |e.bytes| <= 127 && |UpToNul(e.bytes)| < MAX_INPUT)
              || (e == Disconnected && i == |EventsOf(script)| - 1)
    ensures Disconnected in EventsOf(script) <==> exists k: nat :: PeerCloses(script, k)
  {
    if script != [] && script[0].running {
      match script[0].received
      case Bytes(_) =>
        EventOrder(script[1..]);
        LaterClose(script);
      case Interrupted =>
        EventOrder(script[1..]);
        LaterClose(script);
      case EndOfStream =>
        assert PeerCloses(script, 0);
      case RecvError =>
    }
  }

  lemma LaterClose(script: seq<Observation>)
    requires script != [] && script[0].running && (script[0].received.Bytes? || script[0].received.Interrupted?)
    ensures (exists k: nat :: PeerCloses(script[1..], k)) <==> (exists k: nat :: PeerCloses(script, k))
  {
    if k: nat :| PeerCloses(script[1..], k) {
      PeerClosesShift(script, k);
    }
    if k: nat :| PeerCloses(script, k) {
      assert k > 0;
      PeerClosesShift(script, k - 1);
    }
  }

  // ---- which events a script causes, told from its turns ----

  predicate GoesOn(o: Observation) {
    o.running && (o.received.Bytes? || o.received.Interrupted?)
  }

  /** The loop stops at turn `stop`: the first that does not go on, or the end of the script. */
  ghost predicate StopsAt(script: seq<Observation>, stop: nat) {
    && stop <= |script|
    && (forall i :: 0 <= i < stop ==> GoesOn(script[i]))
    && (stop < |script| ==> !GoesOn(script[stop]))
  }

  /** The turns before turn `n` at which recv returned data. */
  ghost function DataTurns(script: seq<Observation>, n: nat): set<nat>
    requires n <= |script|
  {
    set i: nat | i < n && script[i].received.Bytes?
  }

  /**
   `chunks` are exactly the data received before turn `stop`: one for each such turn,
   at the place that counts the data turns before it.
   */
  ghost predicate Heard(script: seq<Observation>, stop: nat, chunks: seq<string>)
    requires stop <= |script|
  {
    && |chunks| == |DataTurns(script, stop)|
    && forall i :: 0 <= i < stop && script[i].received.Bytes? ==>
         |DataTurns(script, i)| < |chunks| && chunks[|DataTurns(script, i)|] == script[i].received.data
  }

  /** The data of the first `n` turns. */
  function DataOf(script: seq<Observation>, n: nat): seq<string>
    requires n <= |script|
  {
    if n == 0 then []
    else DataOf(script, n - 1) + if script[n - 1].received.Bytes? then [script[n - 1].received.data] else []
  }

  lemma DataTurnsNext(script: seq<Observation>, n: nat)
    requires n < |script|
    ensures |DataTurns(script, n + 1)| == |DataTurns(script, n)| + if script[n].received.Bytes? then 1 else 0
  {
    assert DataTurns(script, n + 1) == DataTurns(script, n) + if script[n].received.Bytes? then {n} else {};
  }

  lemma {:induction false} DataIsHeard(script: seq<Observation>, n: nat)
    requires n <= |script|
    ensures Heard(script, n, DataOf(script, n))
  {
    if n == 0 {
      assert DataTurns(script, 0) == {};
    } else {
      DataIsHeard(script, n - 1);
      HeardNext(script, n - 1, DataOf(script, n - 1));
    }
  }

  lemma HeardNext(script: seq<Observation>, n: nat, chunks: seq<string>)
    requires n < |script| && Heard(script, n, chunks)
    ensures Heard(script, n + 1, chunks + if script[n].received.Bytes? then [script[n].received.data] else [])
  {
    hide DataTurns;
    DataTurnsNext(script, n);
  }

  lemma {:induction false} DataOfFirst(script: seq<Observation>, n: nat)
    requires 1 <= n <= |script|
    ensures DataOf(script, n) == (if script[0].received.Bytes? then [script[0].received.data] else [])
                                 + DataOf(script[1..], n - 1)
  {
    if n > 1 {
      DataOfFirst(script, n - 1);
      assert script[1..][n - 2] == script[n - 1];
    }
  }

  function AsEvents(chunks: seq<string>): (events: seq<Event>)
    ensures |events| == |chunks|
    ensures forall i :: 0 <= i < |chunks| ==> events[i] == Data(chunks[i])
  {
    seq(|chunks|, i requires 0 <= i < |chunks| => Data(chunks[i]))
  }

  /** A thread stopped by the peer's close says so. */
  function Farewell(script: seq<Observation>, stop: nat): seq<Event> {
    if stop < |script| && script[stop].running && script[stop].received.EndOfStream? then [Disconnected] else []
  }

  lemma {:induction false} EventsUntilStop(script: seq<Observation>, stop: nat)
    requires StopsAt(script, stop)
    ensures EventsOf(script) == AsEvents(DataOf(script, stop)) + Farewell(script, stop)
    ensures Exits(script) <==> stop < |script|
    decreases stop
  {
    if stop > 0 {
      assert GoesOn(script[0]);
      assert StopsAt(script[1..], stop - 1);
      EventsUntilStop(script[1..], stop - 1);
      DataOfFirst(script, stop);
    }
  }

  lemma {:induction false} ChunksOfData(events: seq<Event>, chunks: seq<string>)
    ensures Chunks(events + AsEvents(chunks)) == Chunks(events) + chunks
  {
    hide Chunks, AsEvents;
    if chunks == [] {
      NoEvents(events);
    } else {
      var front, last := chunks[..|chunks| - 1], chunks[|chunks| - 1];
      ChunksOfData(events, front);
      EventsAppend(events, front, last);
      ChunksAppend(events + AsEvents(front), Data(last));
      Associate(Chunks(events), front, [last]);
      assert chunks == front + [last];
    }
  }

  lemma NoEvents(events: seq<Event>)
    ensures events + AsEvents([]) == events
  {
  }

  lemma EventsAppend(events: seq<Event>, front: seq<string>, last: string)
    ensures events + AsEvents(front + [last]) == (events + AsEvents(front)) + [Data(last)]
  {
    assert AsEvents(front + [last]) == AsEvents(front) + [Data(last)];
  }

  /**
   Told from the script alone: every chunk received before the loop stops raises one
   DATA event with its bytes, in order; DISCONNECTED follows exactly if the peer's
   close stopped the loop; and the thread exits exactly if something did.
   */
  lemma EventsAreHeard(script: seq<Observation>, stop: nat)
    requires StopsAt(script, stop)
    ensures var events := [Connected] + EventsOf(script);
            && Heard(script, stop, Chunks(events)) && |Chunks(events)| == |DataTurns(script, stop)|
            && events == [Connected] + AsEvents(Chunks(events)) + Farewell(script, stop)
    ensures Exits(script) <==> stop < |script|
  {
    hide EventsOf, Exits, Chunks, DataOf, AsEvents, Farewell, DataTurns;
    var chunks := DataOf(script, stop);
    EventsUntilStop(script, stop);
    DataIsHeard(script, stop);
    ChunksStart();
    ChunksOfData([Connected], chunks);
    assert [] + chunks == chunks;
    ChunksWithFarewell([Connected] + AsEvents(chunks), script, stop);
    Associate([Connected], AsEvents(chunks), Farewell(script, stop));
  }

  lemma ChunksWithFarewell(events: seq<Event>, script: seq<Observation>, stop: nat)
    ensures Chunks(events + Farewell(script, stop)) == Chunks(events)
  {
    hide Chunks;
    if Farewell(script, stop) == [] {
      assert events + [] == events;
    } else {
      ChunksAppend(events, Disconnected);
    }
  }

  lemma ChunksStart()
    ensures Chunks([Connected]) == []
  {
    ChunksAppend([], Connected);
    assert [] + [Connected] == [Connected];
  }

  lemma {:induction false} SomeStop(script: seq<Observation>) returns (stop: nat)
    ensures StopsAt(script, stop)
  {
    stop := 0;
    while stop < |script| && GoesOn(script[stop])
      invariant stop <= |script| && forall i :: 0 <= i < stop ==> GoesOn(script[i])
    {
      stop := stop + 1;
    }
  }

  function Chunks(events: seq<Event>): seq<string> {
    if events == [] then []
    else Chunks(events[..|events| - 1]) +
         match events[|events| - 1] case Data(bytes) => [bytes] case Connected => [] case Disconnected => []
  }

  /**
   How one chunk was answered: while the table grew from `since` to `until` rows, on
   its first `at` rows, with or without a failed SQLite call or a failed send.
   */
  datatype Turn = Turn(ok: bool, reply: string, at: nat, since: nat, until: nat, sqlFault: bool, sendFault: bool)

  function RepliesOf(turns: seq<Turn>): string {
    if turns == [] then "" else RepliesOf(turns[..|turns| - 1]) + turns[|turns| - 1].reply
  }

  function RequestIn(chunk: string, c: Libc): Option<Command> {
    ParseCommand(UpToNul(chunk), c)
  }

  /** The first table version that contains the effect of a turn. */
  function After(request: Option<Command>, turn: Turn): nat {
    if turn.ok && request.Some? && request.value.Sensor? then turn.at + 1 else turn.at
  }

  /** The turn answers its chunk as one atomic step, and failed only with a reason. */
  ghost predicate TurnRight(rows: seq<Row>, c: Libc, limit: nat, chunk: string, turn: Turn)
    requires limit >= 1
  {
    && turn.since <= turn.at <= turn.until <= |rows|
    && Answers(rows, turn.at, RequestIn(chunk, c), turn.ok, turn.reply)
    && Verdict(rows[..turn.since], rows[..turn.until], limit, RequestIn(chunk, c), turn.ok, turn.sqlFault,
               turn.sendFault)
  }

  /**
   Every chunk is answered, in order, as an atomic step; each answer is computed
   on a table that contains everything this client stored before.
   */
  ghost predicate Session(rows: seq<Row>, c: Libc, limit: nat, chunks: seq<string>, turns: seq<Turn>)
    requires limit >= 1
  {
    && |turns| == |chunks|
    && (forall i :: 0 <= i < |turns| ==> TurnRight(rows, c, limit, chunks[i], turns[i]))
    && (forall i, j :: 0 <= i < j < |turns| ==> After(RequestIn(chunks[i], c), turns[i]) <= turns[j].since)
  }

  /** All effects of a session are in the table. */
  ghost predicate EffectsIn(rows: seq<Row>, c: Libc, chunks: seq<string>, turns: seq<Turn>) {
    |turns| == |chunks| &&
    forall i :: 0 <= i < |turns| ==> After(RequestIn(chunks[i], c), turns[i]) <= |rows|
  }

  lemma TurnStays(rows: seq<Row>, rows': seq<Row>, c: Libc, limit: nat, chunk: string, turn: Turn)
    requires limit >= 1 && rows <= rows' && TurnRight(rows, c, limit, chunk, turn)
    ensures TurnRight(rows', c, limit, chunk, turn)
  {
    hide Answers, Verdict, RequestIn;
    AnswersStay(rows, rows', turn.at, RequestIn(chunk, c), turn.ok, turn.reply);
    assert rows'[..turn.since] == rows[..turn.since] && rows'[..turn.until] == rows[..turn.until];
  }

  lemma SessionGrows(before: seq<Row>, rows: seq<Row>, c: Libc, limit: nat, chunks: seq<string>, turns: seq<Turn>,
                     chunk: string, turn: Turn)
    requires limit >= 1 && Session(before, c, limit, chunks, turns) && EffectsIn(before, c, chunks, turns)
    requires before <= rows && |before| <= turn.since && TurnRight(rows, c, limit, chunk, turn)
    ensures Session(rows, c, limit, chunks + [chunk], turns + [turn])
    ensures EffectsIn(rows, c, chunks + [chunk], turns + [turn])
  {
    hide TurnRight, RequestIn, After;
    var turns', chunks' := turns + [turn], chunks + [chunk];
    forall i | 0 <= i < |turns'| ensures TurnRight(rows, c, limit, chunks'[i], turns'[i]) {
      if i < |turns| {
        TurnStays(before, rows, c, limit, chunks[i], turns[i]);
      }
    }
    AnsweredEffect(rows, c, limit, chunk, turn);
  }

  lemma AnsweredEffect(rows: seq<Row>, c: Libc, limit: nat, chunk: string, turn: Turn)
    requires limit >= 1 && TurnRight(rows, c, limit, chunk, turn)
    ensures After(RequestIn(chunk, c), turn) <= |rows|
  {
    hide Verdict, RequestIn;
  }

  lemma ChunksAppend(events: seq<Event>, e: Event)
    ensures Chunks(events + [e]) == if e.Data? then Chunks(events) + [e.bytes] else Chunks(events)
  {
    assert (events + [e])[..|events|] == events;
  }

  /** Within a session every QUERY answered after an acknowledged SENSOR contains the row, if its id is in range. */
  lemma ReadYourWrites(t: Table, c: Libc, limit: nat, chunks: seq<string>, turns: seq<Turn>, i: nat, j: nat)
    requires limit >= 1 && WellFormed(t) && Session(t.rows, c, limit, chunks, turns) && i < j < |turns|
    requires var request := RequestIn(chunks[i], c); request.Some? && request.value.Sensor? && turns[i].ok
    requires var request := RequestIn(chunks[j], c); request.Some? && request.value.Query? && turns[j].ok
    ensures var stored, query := RequestIn(chunks[i], c).value, RequestIn(chunks[j], c).value;
            && turns[i].at < turns[j].at <= |t.rows|
            && var row, answer := t.rows[turns[i].at], Select(t.rows[..turns[j].at], query.startId, query.endId);
               && row.reading == stored.reading
               && turns[j].reply == QueryText(answer)
               && (row in answer <==> query.startId <= row.id <= query.endId)
  {
    hide RequestIn, Answers, QueryText, Select, WellFormed, Verdict;
    var stored, query := RequestIn(chunks[i], c), RequestIn(chunks[j], c);
    assert TurnRight(t.rows, c, limit, chunks[i], turns[i]) && TurnRight(t.rows, c, limit, chunks[j], turns[j]);
    assert After(stored, turns[i]) <= turns[j].since;
    StoredTurn(t.rows, stored, turns[i]);
    QueryTurn(t.rows, query, turns[j]);
    var seen := t.rows[..turns[j].at];
    assert t.rows[turns[i].at] == seen[turns[i].at];
    SelectMembers(seen, query.value.startId, query.value.endId);
  }

  lemma StoredTurn(rows: seq<Row>, request: Option<Command>, turn: Turn)
    requires Answers(rows, turn.at, request, turn.ok, turn.reply)
    requires turn.ok && request.Some? && request.value.Sensor?
    ensures turn.at < |rows| && rows[turn.at].reading == request.value.reading
  {
  }

  lemma QueryTurn(rows: seq<Row>, request: Option<Command>, turn: Turn)
    requires Answers(rows, turn.at, request, turn.ok, turn.reply)
    requires turn.ok && request.Some? && request.value.Query?
    ensures turn.at <= |rows|
    ensures turn.reply == QueryText(Select(rows[..turn.at], request.value.startId, request.value.endId))
  {
  }

  /** What a client is owed: the welcome line and its replies in command order. */
  function Owed(turns: seq<Turn>): string {
    WelcomeText() + RepliesOf(turns)
  }

  /**
   The wire carries what is owed, in order: all of it as long as no send failed,
   and otherwise its first `sound` bytes, those sent before the first failure.
   */
  ghost predicate InStream(before: string, wire: string, owed: string, clean: bool, sound: nat) {
    && sound <= |owed| && before + owed[..sound] <= wire
    && (if clean then wire == before + owed else sound < |owed|)
  }

  lemma StreamServed(before: string, wire: string, wire': string, owed: string, clean: bool, sound: nat,
                     reply: string, sent: nat, sendFault: bool)
    requires InStream(before, wire, owed, clean, sound)
    requires if sendFault then sent < |reply| && wire + reply[..sent] <= wire' else wire' == wire + reply
    ensures InStream(before, wire', owed + reply, clean && !sendFault,
                     if !clean then sound else |owed| + if sendFault then sent else |reply|)
  {
    assert wire <= wire';
    if clean {
      var n := if sendFault then sent else |reply|;
      assert (owed + reply)[..|owed| + n] == owed + reply[..n];
      assert before + (owed + reply[..n]) == wire + reply[..n];
      assert reply[..|reply|] == reply;
    } else {
      assert (owed + reply)[..sound] == owed[..sound];
    }
  }

  lemma StreamGreeted(before: string, wire: string, n: nat, clean: bool)
    requires n <= |WelcomeText()| && wire == before + WelcomeText()[..n]
    requires clean <==> n == |WelcomeText()|
    ensures InStream(before, wire, Owed([]), clean, n)
  {
    hide WelcomeText;
    assert RepliesOf([]) == "";
    assert WelcomeText() + "" == WelcomeText();
    assert WelcomeText()[..|WelcomeText()|] == WelcomeText();
  }

  lemma OwedAppend(turns: seq<Turn>, turn: Turn)
    ensures Owed(turns + [turn]) == Owed(turns) + turn.reply
  {
    hide WelcomeText;
    assert (turns + [turn])[..|turns|] == turns;
    assert WelcomeText() + (RepliesOf(turns) + turn.reply) == WelcomeText() + RepliesOf(turns) + turn.reply;
  }

  ghost predicate SomeSqlFault(turns: seq<Turn>) {
    exists i :: 0 <= i < |turns| && turns[i].sqlFault
  }

  ghost predicate SomeSendFault(turns: seq<Turn>) {
    exists i :: 0 <= i < |turns| && turns[i].sendFault
  }

  lemma FaultsAppend(turns: seq<Turn>, turn: Turn)
    ensures SomeSqlFault(turns + [turn]) <==> SomeSqlFault(turns) || turn.sqlFault
    ensures SomeSendFault(turns + [turn]) <==> SomeSendFault(turns) || turn.sendFault
  {
    var turns' := turns + [turn];
    assert forall i :: 0 <= i < |turns| ==> turns'[i] == turns[i];
    assert turns'[|turns|] == turn;
  }

  /** The DATA callback, within the session it belongs to: one more chunk is answered. */
  method AnswerChunk(db: Database, sock: Socket, c: Libc, data: string, ghost before: string, ghost events: seq<Event>,
                     ghost turns: seq<Turn>, ghost clean: bool, ghost sound: nat)
    returns (ghost turn: Turn, ghost sound': nat)
    requires db.Valid() && Platform(c) && 1 <= |data| < BUFFER_SIZE
    requires SoFar(db.table.rows, c, db.limit, events, turns)
    requires InStream(before, sock.wire, Owed(turns), clean, sound)
    modifies db, sock
    ensures Grows(old(db.table), db.table)
    ensures SoFar(db.table.rows, c, db.limit, events + [Data(data)], turns + [turn])
    ensures InStream(before, sock.wire, Owed(turns + [turn]), clean && !turn.sendFault, sound')
    ensures db.faults >= old(db.faults) && (turn.sqlFault <==> db.faults > old(db.faults))
    ensures sock.failures >= old(sock.failures) && (turn.sendFault <==> sock.failures > old(sock.failures))
    ensures SomeSqlFault(turns + [turn]) <==> SomeSqlFault(turns) || turn.sqlFault
    ensures SomeSendFault(turns + [turn]) <==> SomeSendFault(turns) || turn.sendFault
  {
    hide SoFar, Owed, Served, Answers, ParseCommand, InStream, TurnRight, SomeSqlFault, SomeSendFault, Verdict;
    ghost var rows, wire, faults := db.table.rows, sock.wire, db.faults;
    var rc;
    ghost var ok, reply, at, sent, sendFault;
    rc, ok, reply, at, sent, sendFault := HandleData(db, sock, c, data);
    turn := Turn(ok, reply, at, |rows|, |db.table.rows|, db.faults > faults, sendFault);
    ServedTurn(rows, db.table.rows, wire, sock.wire, c, db.limit, data, rc, turn, sent);
    TurnAdded(rows, db.table.rows, c, db.limit, events, turns, data, turn);
    StreamServed(before, wire, sock.wire, Owed(turns), clean, sound, reply, sent, sendFault);
    sound' := if !clean then sound else |Owed(turns)| + if sendFault then sent else |reply|;
  }

  /**
   Up to the turn that stops the loop every chunk received is one DATA event, in order,
   and gets one answer; then DISCONNECTED if the peer closed, and one close.
   */
  ghost predicate Lived(script: seq<Observation>, stop: nat, events: seq<Event>, answers: nat, closes: nat) {
    && StopsAt(script, stop)
    && Heard(script, stop, Chunks(events)) && answers == |DataTurns(script, stop)|
    && events == [Connected] + AsEvents(Chunks(events)) + Farewell(script, stop)
    && closes == if stop < |script| then 1 else 0
  }

  lemma ThreadLived(script: seq<Observation>, stop: nat, events: seq<Event>, answers: nat, closes: nat)
    requires StopsAt(script, stop) && events == [Connected] + EventsOf(script) && answers == |Chunks(events)|
    requires closes == if Exits(script) then 1 else 0
    ensures Lived(script, stop, events, answers, closes)
  {
    hide StopsAt, Heard, AsEvents, Farewell, DataTurns, EventsOf, Exits, Chunks;
    EventsAreHeard(script, stop);
  }

  /**
   tcp_client_thread(): CONNECTED, then one DATA event per chunk received, then
   DISCONNECTED if the peer closes, then one close. The handler's result is only
   logged, so the loop goes on after a failed command. The client's stream is the
   welcome line and the replies in command order, up to the first failed send. A
   command fails only if it did not parse, its batches do not fit, or a SQLite call
   or a send failed during its own turn.
   */
  method ClientThread(db: Database, sock: Socket, c: Libc, script: seq<Observation>)
    returns (events: seq<Event>, closes: nat, ghost turns: seq<Turn>, ghost greeted: bool, ghost sound: nat,
             ghost stop: nat)
    requires db.Valid() && Platform(c) && RecvContract(script)
    modifies db, sock
    ensures Grows(old(db.table), db.table)
    ensures Lived(script, stop, events, |turns|, closes)
    ensures Session(db.table.rows, c, db.limit, Chunks(events), turns)
    ensures InStream(old(sock.wire), sock.wire, Owed(turns), greeted && !SomeSendFault(turns), sound)
    ensures greeted && !SomeSendFault(turns) <==> sock.failures == old(sock.failures)
    ensures SomeSqlFault(turns) <==> db.faults > old(db.faults)
  {
    hide Session, Chunks, Owed, WelcomeText, RecvContract, InStream, SomeSqlFault, SomeSendFault, EventsOf, Exits,
         SoFar, Lived, StopsAt;
    stop := SomeStop(script);
    ghost var before := sock.wire;
    ghost var n;
    var rc;
    rc, n := TcpServerSend(sock, WelcomeText());
    events, closes, turns, greeted, sound := [Connected], 0, [], rc == 0, n;
    SessionStarts(db.table.rows, c, db.limit);
    WholeScript(script);
    StreamGreeted(before, sock.wire, n, greeted);
    var i := 0;
    while i < |script| && script[i].running
      invariant 0 <= i <= |script| && closes == 0
      invariant Grows(old(db.table), db.table)
      invariant events + EventsOf(script[i..]) == [Connected] + EventsOf(script)
      invariant Exits(script[i..]) == Exits(script)
      invariant SoFar(db.table.rows, c, db.limit, events, turns)
      invariant InStream(before, sock.wire, Owed(turns), greeted && !SomeSendFault(turns), sound)
      invariant db.faults >= old(db.faults) && sock.failures >= old(sock.failures)
      invariant greeted && !SomeSendFault(turns) <==> sock.failures == old(sock.failures)
      invariant SomeSqlFault(turns) <==> db.faults > old(db.faults)
    {
      NextTurn(script, i);
      match script[i].received {
        case Bytes(data) =>
          ReceivedInRange(script, i);
          ghost var turn;
          turn, sound := AnswerChunk(db, sock, c, data, before, events, turns, greeted && !SomeSendFault(turns), sound);
          events := events + [Data(data)];
          turns := turns + [turn];
        case EndOfStream =>
          ChunksAppend(events, Disconnected);
          SoFarByChunks(db.table.rows, c, db.limit, events, events + [Disconnected], turns);
          events := events + [Disconnected];
          closes := 1;
          ThreadEnds(db.table.rows, c, db.limit, script, stop, events, turns, closes);
          return;
        case Interrupted =>
        case RecvError =>
          closes := 1;
          assert events + [] == events;
          ThreadEnds(db.table.rows, c, db.limit, script, stop, events, turns, closes);
          return;
      }
      i := i + 1;
    }
    LastTurn(script, i);
    assert events + [] == events;
    if i < |script| {
      closes := 1;
    }
    ThreadEnds(db.table.rows, c, db.limit, script, stop, events, turns, closes);
  }

  lemma ThreadEnds(rows: seq<Row>, c: Libc, limit: nat, script: seq<Observation>, stop: nat, events: seq<Event>,
                   turns: seq<Turn>, closes: nat)
    requires limit >= 1 && StopsAt(script, stop) && events == [Connected] + EventsOf(script)
    requires closes == if Exits(script) then 1 else 0
    requires SoFar(rows, c, limit, events, turns)
    ensures Lived(script, stop, events, |turns|, closes) && Session(rows, c, limit, Chunks(events), turns)
  {
    hide Session, Chunks, EventsOf, Exits, SoFar, Lived, StopsAt;
    SoFarIsSession(rows, c, limit, events, turns);
    ThreadLived(script, stop, events, |turns|, closes);
  }

  lemma SoFarByChunks(rows: seq<Row>, c: Libc, limit: nat, events: seq<Event>, events': seq<Event>, turns: seq<Turn>)
    requires limit >= 1 && Chunks(events') == Chunks(events)
    ensures SoFar(rows, c, limit, events', turns) == SoFar(rows, c, limit, events, turns)
  {
    hide Session, EffectsIn, Chunks;
  }

  /** The session of the chunks among `events`, all of whose effects are in the table. */
  ghost predicate SoFar(rows: seq<Row>, c: Libc, limit: nat, events: seq<Event>, turns: seq<Turn>)
    requires limit >= 1
  {
    Session(rows, c, limit, Chunks(events), turns) && EffectsIn(rows, c, Chunks(events), turns)
  }

  lemma SoFarIsSession(rows: seq<Row>, c: Libc, limit: nat, events: seq<Event>, turns: seq<Turn>)
    requires limit >= 1 && SoFar(rows, c, limit, events, turns)
    ensures Session(rows, c, limit, Chunks(events), turns) && |turns| == |Chunks(events)|
  {
    hide TurnRight, Chunks, After, RequestIn;
  }

  lemma SessionStarts(rows: seq<Row>, c: Libc, limit: nat)
    requires limit >= 1
    ensures SoFar(rows, c, limit, [Connected], [])
    ensures !SomeSqlFault([]) && !SomeSendFault([])
  {
    ChunksStart();
  }

  /** One more chunk was answered. */
  lemma TurnAdded(before: seq<Row>, rows: seq<Row>, c: Libc, limit: nat, events: seq<Event>, turns: seq<Turn>,
                  chunk: string, turn: Turn)
    requires limit >= 1 && SoFar(before, c, limit, events, turns)
    requires before <= rows && |before| <= turn.since && TurnRight(rows, c, limit, chunk, turn)
    ensures SoFar(rows, c, limit, events + [Data(chunk)], turns + [turn])
    ensures Owed(turns + [turn]) == Owed(turns) + turn.reply
    ensures SomeSqlFault(turns + [turn]) <==> SomeSqlFault(turns) || turn.sqlFault
    ensures SomeSendFault(turns + [turn]) <==> SomeSendFault(turns) || turn.sendFault
  {
    hide Session, EffectsIn, TurnRight, Chunks, Owed, SomeSqlFault, SomeSendFault;
    SessionGrows(before, rows, c, limit, Chunks(events), turns, chunk, turn);
    ChunksAppend(events, Data(chunk));
    OwedAppend(turns, turn);
    FaultsAppend(turns, turn);
  }

  lemma WholeScript(script: seq<Observation>)
    ensures script[0..] == script
  {
  }

  /** What one turn of a running thread adds to its events. */
  lemma NextTurn(script: seq<Observation>, i: nat)
    requires i < |script| && script[i].running
    ensures var rest := script[i + 1..];
            EventsOf(script[i..]) == match script[i].received
                                     case Bytes(data) => [Data(data)] + EventsOf(rest)
                                     case EndOfStream => [Disconnected]
                                     case Interrupted => EventsOf(rest)
                                     case RecvError => []
    ensures Exits(script[i..]) <==> if GoesOn(script[i]) then Exits(script[i + 1..]) else true
  {
    assert script[i..][1..] == script[i + 1..];
  }

  lemma LastTurn(script: seq<Observation>, i: nat)
    requires i <= |script| && (i < |script| ==> !script[i].running)
    ensures EventsOf(script[i..]) == [] && (Exits(script[i..]) <==> i < |script|)
  {
  }

  lemma ReceivedInRange(script: seq<Observation>, i: nat)
    requires RecvContract(script) && i < |script| && script[i].received.Bytes?
    ensures 1 <= |script[i].received.data| < BUFFER_SIZE
  {
  }

  lemma ServedTurn(before: seq<Row>, rows: seq<Row>, wire: string, wire': string, c: Libc, limit: nat, chunk: string,
                   rc: int, turn: Turn, sent: nat)
    requires limit >= 1 && turn.since == |before| && turn.until == |rows|
    requires Served(before, rows, wire, wire', RequestIn(chunk, c), rc, turn.ok, turn.reply, turn.at, sent,
                    turn.sendFault)
    requires Verdict(before, rows, limit, RequestIn(chunk, c), turn.ok, turn.sqlFault, turn.sendFault)
    ensures before <= rows && TurnRight(rows, c, limit, chunk, turn)
    ensures if turn.sendFault then sent < |turn.reply| && wire + turn.reply[..sent] <= wire'
            else wire' == wire + turn.reply
  {
    hide Answers, Verdict, RequestIn;
    assert rows[..turn.since] == before && rows[..turn.until] == rows;
  }
}

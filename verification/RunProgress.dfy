/**
 What can still happen: no client is ever stuck. In every reachable state each step
 its phase calls for is possible, and a command under way can be carried on by its
 own fault-free steps until it is settled and its reply sent.
 */
module RunProgress {
  import opened Wrappers
  import opened SensorTable
  import opened RowText
  import opened CommandText
  import opened Replies
  import opened Paging
  import opened ServerLog
  import opened ServerRuns
  import opened RunTheorems
  import opened RunVerdicts

  // ---- which steps a client has, told from its phase alone ----

  /** Waiting clients can receive any chunk or close; whatever is to be sent can be sent in any pieces, or lost. */
  lemma WaitingSteps(s: Server, c: nat, chunk: string, n: nat)
    requires c < |s.clients|
    ensures Enabled(s, Receive(c, chunk)) <==>
            s.clients[c].phase.Idle? && s.clients[c].pending == "" && 1 <= |chunk| <= 127
    ensures Enabled(s, HangUp(c)) <==> s.clients[c].phase.Idle? && s.clients[c].pending == ""
    ensures Enabled(s, SendSome(c, n)) <==> 1 <= n <= |s.clients[c].pending|
    ensures Enabled(s, SendFails(c)) <==> s.clients[c].pending != ""
  {
  }

  /** A command has the step its phase calls for, and any SQLite call may fail. */
  lemma CommandSteps(s: Server, c: nat, id: int, timestamp: Option<string>)
    requires c < |s.clients|
    ensures Enabled(s, Refuses(c)) <==> s.clients[c].phase.Refusing?
    ensures Enabled(s, InsertRow(c, id, timestamp)) <==>
            s.clients[c].phase.Inserting? && s.table.highest < id <= MAX_ROWID
    ensures Enabled(s, ReadRange(c)) <==> s.clients[c].phase.Ranging?
    ensures Enabled(s, BeginBatch(c)) <==> s.clients[c].phase.Between?
    ensures Enabled(s, SqlFails(c)) <==>
            (s.clients[c].phase.Inserting? || s.clients[c].phase.Ranging? || s.clients[c].phase.Between?
             || s.clients[c].phase.Scanning?)
  {
  }

  /** A running SELECT can be answered from every version since it began, with a row as long as there is one. */
  lemma ScanningSteps(s: Server, c: nat, version: nat)
    requires c < |s.clients|
    ensures Enabled(s, FetchRow(c, version)) || Enabled(s, FetchDone(c, version)) || Enabled(s, Overflows(c, version))
            <==> s.clients[c].phase.Scanning? && s.clients[c].phase.base <= version <= |s.table.rows|
    ensures Enabled(s, FetchRow(c, version)) || Enabled(s, Overflows(c, version)) <==>
            && s.clients[c].phase.Scanning? && s.clients[c].phase.base <= version <= |s.table.rows|
            && |s.clients[c].phase.page| < 20 && Ahead(s, c, version) != []
    ensures !(Enabled(s, FetchRow(c, version)) && Enabled(s, Overflows(c, version)))
  {
    hide Select, BatchText;
  }

  // ---- carrying a command on ----

  /** `steps` take the server from `s` to `s'`. */
  ghost predicate Leads(s: Server, steps: seq<Step>, s': Server, libc: Libc)
    decreases |steps|
  {
    if steps == [] then s' == s
    else Enabled(s, steps[0]) && Leads(Apply(s, steps[0], libc), steps[1..], s', libc)
  }

  lemma {:induction false} LeadsOn(s: Server, steps: seq<Step>, mid: Server, more: seq<Step>, s': Server, libc: Libc)
    requires Leads(s, steps, mid, libc) && Leads(mid, more, s', libc)
    ensures Leads(s, steps + more, s', libc)
    decreases |steps|
  {
    hide Enabled, Apply;
    if steps == [] {
      assert steps + more == more;
    } else {
      LeadsOn(Apply(s, steps[0], libc), steps[1..], mid, more, s', libc);
      assert (steps + more)[1..] == steps[1..] + more;
    }
  }

  lemma LeadsByOne(s: Server, step: Step, libc: Libc)
    requires Enabled(s, step)
    ensures Leads(s, [step], Apply(s, step, libc), libc)
  {
    hide Enabled, Apply;
    assert [step][1..] == [];
    assert Leads(Apply(s, step, libc), [], Apply(s, step, libc), libc);
  }

  lemma {:induction false} LeadsReaches(s: Server, steps: seq<Step>, s': Server, libc: Libc)
    requires Reaches(s, libc) && Leads(s, steps, s', libc)
    ensures Reaches(s', libc)
    decreases |steps|
  {
    hide Enabled, Apply, Reaches;
    if steps != [] {
      ReachesNext(s, steps[0], libc);
      LeadsReaches(Apply(s, steps[0], libc), steps[1..], s', libc);
    }
  }

  /** A step by which client `c` carries its command on, without a fault. */
  predicate CarriesOn(step: Step, c: nat) {
    && step.c == c
    && !step.Receive? && !step.HangUp? && !step.SqlFails? && !step.SendFails?
  }

  ghost predicate AllCarryOn(steps: seq<Step>, c: nat) {
    forall i :: 0 <= i < |steps| ==> CarriesOn(steps[i], c)
  }

  /** What a client's QUERY is decided by: the answer at its receipt, or rows that always fit. */
  ghost predicate WillFit(s: Server, c: nat)
    requires c < |s.clients|
  {
    && Querying(s.clients[c].phase) && s.clients[c].since <= |s.table.rows|
    && var q, before := s.clients[c].phase.pager.Ask(), s.table.rows[..s.clients[c].since];
       (Answer(before, q) == Answer(s.table.rows, q) && AllFit(Wanted(before, q))) || ModestRange(s, c)
  }

  lemma WillNotOverflow(s: Server, c: nat, version: nat)
    requires Inv(s) && FromParser(s) && c < |s.clients| && WillFit(s, c)
    ensures !CanOverflow(s, c, version)
  {
    hide Inv, FromParser, Select, BatchText, ModestRange, AllFit, Wanted, Answer, PageAhead, Ahead, CanStep;
    if CanOverflow(s, c, version) {
      if ModestRange(s, c) {
        ModestStateFits(s, c, version);
      } else {
        OverflowDecides(s, c, version);
      }
    }
  }

  /** The next step of a QUERY, read from the table as it is now. */
  lemma NextStep(s: Server, c: nat) returns (step: Step)
    requires Inv(s) && c < |s.clients| && Querying(s.clients[c].phase)
    ensures Enabled(s, step) && CarriesOn(step, c)
    ensures step.Overflows? ==> CanOverflow(s, c, step.version)
  {
    hide Select, BatchText, LogOk, DoneBefore, OwnDone, StreamOk, RequestsOk, HandedOk, Ascending;
    assert ClientOk(s.origin, s.table.rows, s.log, c, s.clients[c]);
    var now := |s.table.rows|;
    if s.clients[c].phase.Between? {
      step := BeginBatch(c);
    } else if s.clients[c].phase.Handing? {
      step := SendSome(c, |s.clients[c].pending|);
    } else if CanFetch(s, c, now) {
      step := FetchRow(c, now);
    } else if CanOverflow(s, c, now) {
      step := Overflows(c, now);
    } else {
      step := FetchDone(c, now);
    }
  }

  /** What such a step leaves as it was, and what it settles. */
  lemma StepKeeps(s: Server, step: Step, libc: Libc, c: nat)
    requires Enabled(s, step) && c < |s.clients| && Querying(s.clients[c].phase) && CarriesOn(step, c)
    ensures var s' := Apply(s, step, libc);
            && s'.table == s.table && s'.origin == s.origin && |s'.clients| == |s.clients|
            && var cl, cl' := s.clients[c], s'.clients[c];
               && cl'.since == cl.since && cl'.begun == cl.begun && cl'.intact == cl.intact
               && (Querying(cl'.phase) ==> cl'.phase.pager.Ask() == cl.phase.pager.Ask())
               && (Querying(cl'.phase) <==> Settling(s, step).None?) && (!Querying(cl'.phase) ==> cl'.phase.Idle?)
  {
    hide Select, OkText, HelpText, ErrorText, ParseCommand, QueryText, BatchText, Partial, PlaceOf, InsertAt, Ahead,
         PageAhead;
  }

  /** The entry of the command client `c` is at in state `s`. */
  ghost predicate Completes(s: Server, c: nat, e: Entry)
    requires c < |s.clients|
  {
    && Busy(s.clients[c].phase)
    && e.client == c && e.request == RequestOf(s.clients[c].phase)
    && e.since == s.clients[c].since && e.begun == s.clients[c].begun
  }

  lemma SettlingCompletes(s: Server, step: Step, c: nat)
    requires Enabled(s, step) && c < |s.clients| && step.c == c && Settling(s, step).Some?
    ensures Completes(s, c, Settling(s, step).value)
  {
    hide Select, OkText, HelpText, ErrorText, QueryText, BatchText, Partial, Ahead, PageAhead, RequestOf;
  }

  lemma SameRequest(p: Phase, p': Phase)
    requires Querying(p) && Querying(p') && p.pager.Ask() == p'.pager.Ask()
    ensures RequestOf(p) == RequestOf(p')
  {
  }

  lemma WillStillFit(s: Server, s': Server, c: nat)
    requires c < |s.clients| && c < |s'.clients| && s'.table == s.table && s'.origin == s.origin
    requires Querying(s.clients[c].phase) && Querying(s'.clients[c].phase)
    requires s'.clients[c].since == s.clients[c].since
    requires s'.clients[c].phase.pager.Ask() == s.clients[c].phase.pager.Ask()
    ensures WillFit(s', c) == WillFit(s, c)
  {
    hide AllFit, Wanted, Select, ModestRow;
  }

  /**
   A QUERY under way can be carried on by its own fault-free steps until it is settled;
   it then succeeds if the batches of its answer fit.
   */
  lemma {:induction false} QueryCompletes(s: Server, c: nat, libc: Libc)
    returns (steps: seq<Step>, s': Server, e: Entry, p: nat)
    requires Inv(s) && FromParser(s) && c < |s.clients| && Querying(s.clients[c].phase)
    ensures Leads(s, steps, s', libc) && AllCarryOn(steps, c)
    ensures Inv(s') && FromParser(s') && s'.table == s.table && |s'.clients| == |s.clients|
    ensures s'.clients[c].phase.Idle? && s'.clients[c].intact == s.clients[c].intact
    ensures p <= |s.log| && s'.log == InsertAt(s.log, p, e) && Completes(s, c, e)
    ensures WillFit(s, c) ==> e.ok
    decreases Work(s.clients[c].phase), |s.clients[c].pending|
  {
    hide Inv, FromParser, Enabled, Apply, Settling, Logs, InsertAt, Leads, WillFit, Progress, RequestOf, CanOverflow,
         Work;
    var step := NextStep(s, c);
    var s1 := Apply(s, step, libc);
    StepKeeps(s, step, libc, c);
    StepInv(s, step, libc);
    StepFromParser(s, step, libc);
    StepLogs(s, step, libc);
    LeadsByOne(s, step, libc);
    if Settling(s, step).Some? {
      steps, s', e := [step], s1, Settling(s, step).value;
      p := LoggedPlace(s.log, s1.log, e);
      SettlingCompletes(s, step, c);
      StepReason(s, step);
      if step.Overflows? && WillFit(s, c) {
        WillNotOverflow(s, c, step.version);
      }
      QueryRequest(s.clients[c].phase);
      SettledOk(e, step, c);
    } else {
      NothingAdded(s.log, s1.log);
      QueryProgresses(s, step, libc, c, s1);
      LessWork(s.clients[c], s1.clients[c]);
      WillStillFit(s, s1, c);
      SameRequest(s.clients[c].phase, s1.clients[c].phase);
      var more;
      more, s', e, p := QueryCompletes(s1, c, libc);
      steps := [step] + more;
      LeadsOn(s, [step], s1, more, s', libc);
    }
  }

  lemma QueryRequest(phase: Phase)
    requires Querying(phase)
    ensures RequestOf(phase).Some?
  {
  }

  lemma SettledOk(e: Entry, step: Step, c: nat)
    requires Reason(e, step) && CarriesOn(step, c) && e.request.Some?
    ensures !e.ok ==> step.Overflows?
  {
  }

  lemma LoggedPlace(log: seq<Entry>, log': seq<Entry>, e: Entry) returns (p: nat)
    requires Logs(log, log', Some(e))
    ensures p <= |log| && log' == InsertAt(log, p, e)
  {
    hide InsertAt;
    p :| 0 <= p <= |log| && log' == InsertAt(log, p, e);
  }

  lemma NothingAdded(log: seq<Entry>, log': seq<Entry>)
    requires Logs(log, log', None)
    ensures log' == log
  {
  }

  lemma LessWork(before: Client, after: Client)
    requires Progress(before, after) && Querying(after.phase)
    ensures Work(after.phase) < Work(before.phase)
         || (Work(after.phase) == Work(before.phase) && |after.pending| < |before.pending|)
  {
    hide Work;
  }

  /** The one step of a command that is no QUERY. */
  lemma SingleStep(s: Server, c: nat, libc: Libc) returns (step: Step)
    requires Inv(s) && c < |s.clients| && Busy(s.clients[c].phase) && !Querying(s.clients[c].phase)
    requires s.clients[c].phase.Inserting? ==> s.table.highest < MAX_ROWID
    ensures Enabled(s, step) && CarriesOn(step, c) && Settling(s, step).Some?
    ensures Settling(s, step).value.ok <==> RequestOf(s.clients[c].phase).Some?
    ensures var s' := Apply(s, step, libc);
            |s'.clients| == |s.clients| && s'.clients[c].phase.Idle? && s'.clients[c].intact == s.clients[c].intact
  {
    hide Select, OkText, HelpText, ErrorText, ParseCommand, QueryText, BatchText, Partial, PlaceOf, InsertAt, LogOk,
         DoneBefore, OwnDone, StreamOk, RequestsOk, HandedOk, ScanOk, Ascending;
    match s.clients[c].phase
    case Inserting(_) => step := InsertRow(c, s.table.highest + 1, None);
    case Ranging => step := ReadRange(c);
    case Refusing => step := Refuses(c);
  }

  /**
   Any command under way can be carried on by its client's own fault-free steps until it
   is settled: with success if it parsed and, being a QUERY, its batches fit - as long as
   there is an id left for a row to insert.
   */
  lemma CommandCompletes(s: Server, c: nat, libc: Libc) returns (steps: seq<Step>, s': Server, e: Entry, p: nat)
    requires Inv(s) && FromParser(s) && c < |s.clients| && Busy(s.clients[c].phase)
    requires s.clients[c].phase.Inserting? ==> s.table.highest < MAX_ROWID
    ensures Leads(s, steps, s', libc) && AllCarryOn(steps, c) && Inv(s') && FromParser(s')
    ensures |s'.clients| == |s.clients|
    ensures s'.clients[c].phase.Idle? && s'.clients[c].intact == s.clients[c].intact
    ensures p <= |s.log| && s'.log == InsertAt(s.log, p, e) && Completes(s, c, e)
    ensures e.request.Some? && (Querying(s.clients[c].phase) ==> WillFit(s, c)) ==> e.ok
  {
    hide Inv, FromParser, Enabled, Apply, Settling, Logs, InsertAt, Leads, WillFit, RequestOf, Busy, Querying;
    if Querying(s.clients[c].phase) {
      steps, s', e, p := QueryCompletes(s, c, libc);
    } else {
      var step := SingleStep(s, c, libc);
      steps, s', e := [step], Apply(s, step, libc), Settling(s, step).value;
      StepInv(s, step, libc);
      StepFromParser(s, step, libc);
      StepLogs(s, step, libc);
      LeadsByOne(s, step, libc);
      p := LoggedPlace(s.log, s'.log, e);
      SettlingCompletes(s, step, c);
    }
  }

  /** An idle client's last reply can be sent to its end. */
  lemma ReplyCompletes(s: Server, c: nat, libc: Libc) returns (steps: seq<Step>, s': Server)
    requires Inv(s) && FromParser(s) && c < |s.clients| && s.clients[c].phase.Idle?
    ensures Leads(s, steps, s', libc) && AllCarryOn(steps, c) && Inv(s') && FromParser(s')
    ensures |s'.clients| == |s.clients| && s'.log == s.log && s'.clients[c].intact == s.clients[c].intact
    ensures s'.clients[c].phase.Idle? && s'.clients[c].pending == ""
  {
    hide Inv, FromParser;
    if s.clients[c].pending == "" {
      steps, s' := [], s;
    } else {
      var step := SendSome(c, |s.clients[c].pending|);
      steps, s' := [step], Apply(s, step, libc);
      StepInv(s, step, libc);
      StepFromParser(s, step, libc);
      LeadsByOne(s, step, libc);
    }
  }

  /** The client waits for its next command, and has been sent exactly what the sequential run replied. */
  ghost predicate UpToDate(s: Server, c: nat)
    requires c < |s.clients|
  {
    var cl := s.clients[c];
    cl.phase.Idle? && cl.pending == "" && (cl.intact ==> cl.wire == WelcomeText() + RepliesTo(s.log, c))
  }

  lemma IdleIsUpToDate(s: Server, c: nat)
    requires Inv(s) && c < |s.clients| && s.clients[c].phase.Idle? && s.clients[c].pending == ""
    ensures UpToDate(s, c)
  {
    hide Inv, WelcomeText, RepliesTo, RequestsBy, Partial, RowsHanded;
    ClientIsFaithful(s, c);
  }

  lemma ReachedOk(s: Server, libc: Libc)
    requires Reaches(s, libc)
    ensures Inv(s) && FromParser(s)
  {
    hide Inv, FromParser, Enabled, Apply;
    var states, steps :| IsRun(states, steps, libc) && states[|steps|] == s;
    RunInv(states, steps, libc, |steps|);
    RunFromParser(states, steps, libc, |steps|);
  }

  /**
   No client is ever stuck: from every reachable state a connected client can be brought,
   by its own fault-free steps alone, to where it has been sent everything it is owed and
   its next command can be received.
   */
  lemma NeverStuck(s: Server, c: nat, libc: Libc) returns (steps: seq<Step>, s': Server)
    requires Reaches(s, libc) && c < |s.clients| && !s.clients[c].phase.Closed?
    requires s.clients[c].phase.Inserting? ==> s.table.highest < MAX_ROWID
    ensures Leads(s, steps, s', libc) && AllCarryOn(steps, c) && Reaches(s', libc)
    ensures |s'.clients| == |s.clients| && s'.clients[c].intact == s.clients[c].intact && UpToDate(s', c)
    ensures forall chunk :: 1 <= |chunk| <= 127 ==> Enabled(s', Receive(c, chunk))
  {
    hide Inv, FromParser, Reaches, Leads, UpToDate, Apply, WillFit, InsertAt, Completes;
    ReachedOk(s, libc);
    var mid, first, more := s, [], [];
    if Busy(s.clients[c].phase) {
      var e, p;
      first, mid, e, p := CommandCompletes(s, c, libc);
    } else {
      NoSteps(s, libc);
    }
    more, s' := ReplyCompletes(mid, c, libc);
    steps := first + more;
    LeadsOn(s, first, mid, more, s', libc);
    LeadsReaches(s, steps, s', libc);
    IdleIsUpToDate(s', c);
  }

  lemma NoSteps(s: Server, libc: Libc)
    ensures Leads(s, [], s, libc)
  {
  }
}

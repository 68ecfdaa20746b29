# Sensor gateway: a model and its proofs

The gateway accepts TCP clients, parses one command per received chunk
(`SENSOR`, `QUERY`, `HELP`), stores readings in one SQLite table that all client
threads share, and answers. This project models that path and proves what a
client may rely on.

The hard part is `QUERY`. It is not one SELECT but a loop of batch SELECTs over a
table that other clients keep extending, even between two steps of a running
SELECT. The proofs show that the batches together are one atomic SELECT, and
that every interleaving of any number of clients is explained by a server that
executes whole commands one after the other.

## Layout

| file | what it holds |
|---|---|
| `Wrappers.dfy`, `CText.dfy`, `DecimalText.dfy` | options, C strings in memory, `%d` and `%.6f` text |
| `SensorTable.dfy` | the table as a value, the range selection, reading it through a cursor |
| `RowText.dfy`, `RowDecoding.dfy` | the text of an answer, its length, and reading it back |
| `CommandText.dfy` | the command language as pure functions, `strtol`, round trips |
| `ParserBuffer.dfy` | the parser as the C code runs it, in place on one buffer |
| `Storage.dfy` | the database handle: insert, id range, one batch |
| `Paging.dfy` | the QUERY loop on values |
| `Transport.dfy`, `Gateway.dfy`, `App.dfy` | sending, dispatching, the client thread |
| `Replies.dfy` | reply texts, and which reply is right for a command on a given table |
| `ServerLog.dfy`, `ServerRuns.dfy` | the whole server: N clients, all their steps, the invariant and the log |
| `RunTheorems.dfy` | what holds of every run: the sequential server it refines, real time, conservation, freshness, buffers, decoding |
| `RunVerdicts.dfy` | why commands succeed and fail, over every run, and what decides a QUERY |
| `RunProgress.dfy` | which steps a client always has, and that no command is ever stuck |

The imperative modules model one thread. Whatever other threads do is
`Database.OtherClients`, which appends any number of rows; `ServerRuns.StepGrows`
proves that every step of every client does no more than that. Both levels use the
same predicate, `Replies.Answers`, for what a right reply is.

## Assumptions

- An INSERT gives the new row an id larger than any id ever used (AUTOINCREMENT)
  or fails and leaves the table unchanged. Nothing deletes or updates rows.
- Any SQLite call may fail. A cursor step may be answered from any version of
  the table between the start of its statement and now; reading the latest
  version and reading one snapshot are both special cases.
- Parsing one chunk is a single step: `strtok` keeps its position in static
  state that all threads share (protocol/tcp/tcp_parser.c:42-50), so
  interleavings inside one parse are outside the model.
- Data values are fixed-point numbers in millionths. `strtod` is an arbitrary
  parameter; where a result depends on what it reads, the statement says which texts.
  `long` is at least 32 bits wide.
- A kernel interrupts a send only finitely often.
- A failing SQLite call and a failing send are counted where they happen
  (`Database.faults`, `Socket.failures`); contracts that speak of faults refer to
  these counts.
- The LIMIT of a batch SELECT is a field of the database model, so that the QUERY
  loop is proved for every batch size; the program fixes it at 20, and the server
  model uses that.
- A `char` stands for one byte.

## Model

| member | source | states |
|---|---|---|
| RunTheorems.RunRefinesSequential | app/main.c:56-134 | every run of N interleaved clients is explained by a sequential run of whole commands from the initial table to the present one, in an order that agrees with real time: a command settled before another client's was received precedes it; each client's commands are its received chunks, parsed, in order; its stream is the welcome line followed by that run's replies in command order, exactly when nothing is under way, otherwise as a prefix, and up to the first failed send |
| RunTheorems.RunReceives | transport/tcp/tcp_server.c:68-101 | the commands the sequential run executes for a client are the chunks received from it, each parsed by itself, with the step that received it |
| RunTheorems.RunKeepsHistory | core/gateway.c:184-213 | the log only grows: what was settled at any moment stays, in the same order, in every later log |
| RunTheorems.RunFromParser | protocol/tcp/tcp_parser.c:107-181 | in every reachable state each row added since the start has a trimmed 1..63 byte device id without comma or NUL, and each QUERY under way has 0 <= start <= end <= 2^31-1 |
| RunTheorems.ModestRunsFit | storage/sqlite/sqlite_db.c:487-497 | over every run, no batch overflows its buffer while the rows in the QUERY's range have values below 10^14 and 19-byte timestamps: the parser's length check takes care of the device ids |
| RunTheorems.RunAnswersDecode | storage/sqlite/sqlite_db.c:473-484 | over every run, the reply to a successful QUERY decodes to exactly the rows of its range if and only if no device id among them contains a line break; only the timestamps of the rows in that range have to be plain |
| RunVerdicts.AcceptedIsStorable | core/gateway.c:184-193 | any SENSOR command the parser accepts is stored any number of times by some run |
| RunVerdicts.HugeRangeReachable | core/gateway.c:95-103 | four times `SENSOR,D,1e300,1e300,1e300,1e300` leads to a state from which, in every continuation, no QUERY,1,4 of any client succeeds |
| RunVerdicts.RunHugeQueriesFail | core/gateway.c:95-103 | over every run, a QUERY received while its range holds at least four rows with values of 10^300 or more never succeeds |
| RunVerdicts.RunExplains | core/gateway.c:171-214 | over every run, a command answered with the error line was settled by a step of its own client that could not parse it, met a failing SQLite call, met a batch too long, or lost a batch to a failed send; and a command that did not parse always is |
| RunVerdicts.ModestRunsSucceed | core/gateway.c:171-214 | while no SQLite call and no send of a client fails, and values stay below 10^14, its commands succeed exactly if they parse, whatever other clients meet |
| RunVerdicts.RunQueryDecided | core/gateway.c:88-119 | over every run, a QUERY succeeds only if the batches of the answer at its receipt fit; met by no fault, and while nobody adds to its range, exactly then |
| RunVerdicts.RunSettledQuery | core/gateway.c:88-119 | over every run, a QUERY up to an id stored at its receipt, met by no fault, succeeds with the answer of that moment if and only if its batches fit |
| RunVerdicts.RunAnswerLasts | core/gateway.c:97-116 | the answer of a QUERY is the selection of every version from the hand-over of its last batch to the empty batch that settles it, when all its bytes are out |
| RunVerdicts.EntrySince | transport/tcp/tcp_server.c:68-101 | what the log says a command saw at its receipt is the table the run shows at that step |
| ServerRuns.StepInv | core/gateway.c:171-214 | every atomic step of any client (receive, insert, range read, cursor step, partial send, failure, hang-up) keeps the server invariant |
| ServerRuns.QueryEndInv | core/gateway.c:105-107 | an empty batch lets the QUERY take effect at the table version it saw, which may lie before inserts already logged |
| ServerRuns.HandOverInv | core/gateway.c:105-116 | a batch with rows continues the client's stream by exactly its rows' text |
| ServerRuns.InsertInv | storage/sqlite/sqlite_db.c:232-252 | an insert stores the parsed reading as the newest row and is acknowledged as such, without disturbing any QUERY under way |
| ServerRuns.FetchInv | storage/sqlite/sqlite_db.c:439-504 | a row fetched from any version since the SELECT began keeps the QUERY gap-free in the present table |
| ServerRuns.SendInv | transport/tcp/tcp_server.c:430-459 | a partial send moves bytes from the reply to the wire and nothing else |
| ServerRuns.LoseInv | app/main.c:106-131 | after a failed send the client's entry still is a right answer, and the bytes before the failure a prefix of it |
| ServerRuns.FailureAnswers | app/main.c:106-116 | whatever a command handed over before it failed, with the error line behind it, is a right answer |
| ServerRuns.StepGrows | storage/sqlite/sqlite_db.c:20-21 | whatever any client does, the table only gains rows with larger ids at its end |
| RunTheorems.RunConserves | core/gateway.c:186-193 | over every run the rows added are in one-to-one correspondence, in order and with the same values, with the acknowledged SENSOR commands |
| RunTheorems.AnswersAreFresh | service/sensor_service.c:38-68 | a successful QUERY of any client, received after a SENSOR of any client was settled, contains its row if the id is in range; a client's own earlier commands are always settled by then |
| RunTheorems.ReportedRangeAnswers | core/gateway.c:29-70 | a successful QUERY of the range HELP reported, by any client, received after HELP was settled, answers exactly the rows HELP saw, if and only if their ids fit in an int or there were none |
| ServerRuns.SentIsPrefix | core/gateway.c:97-116 | at every moment of a QUERY the rows handed over, a batch being sent included, are a prefix of the range selection of the current table |
| RunTheorems.DeliveredForever | core/gateway.c:97-116 | at every moment of a QUERY those rows are a prefix of the range selection in every later table too |
| ServerRuns.QueryProgresses | core/gateway.c:97-118 | however fast other clients insert, each step of a QUERY ends it, brings it closer to end_id, or sends bytes; other clients' steps leave it alone |
| RunProgress.WaitingSteps | transport/tcp/tcp_server.c:61-111 | exactly a client that waits with nothing to send can receive any chunk of 1 to 127 bytes or close, and whatever is to be sent can be sent in pieces of any size, or lost |
| RunProgress.CommandSteps | core/gateway.c:171-214 | a command always has the step its phase calls for: an insert of any unused id, the range read, the next batch SELECT; and any SQLite call may fail |
| RunProgress.ScanningSteps | storage/sqlite/sqlite_db.c:439-504 | a running SELECT can be answered from every table version since it began: with a row, DONE, or an overlong batch |
| RunProgress.QueryCompletes | core/gateway.c:97-118 | a QUERY under way can be carried on by its own fault-free steps until it is settled, with success if its batches fit |
| RunProgress.CommandCompletes | core/gateway.c:171-214 | so can any command, with success if it parsed and, for a QUERY, its batches fit |
| RunProgress.NeverStuck | app/main.c:56-134 | from every reachable state a connected client can be brought by its own fault-free steps to where it has been sent everything it is owed and its next command can be received |
| ServerLog.LogIsSequential | core/gateway.c:184-213 | the server's history is a run that serves one command at a time, each reply right for the table before it |
| ServerLog.LogInserted | core/gateway.c:88-119 | a reading command may be placed at the version it saw without invalidating any other entry or any client's own order |
| ServerLog.LogStored | storage/sqlite/sqlite_db.c:144-253 | an acknowledged insert extends history and table together |
| ServerLog.PlaceIsAfterSettled | core/gateway.c:97-107 | the place of a QUERY's version lies behind every command, of any client, settled before the QUERY was received |
| ServerLog.SettledFirst | core/gateway.c:184-213 | what was settled when a command was received comes before it in the history, and is in every table version the command may see |
| ServerLog.SettledUnchanged | core/gateway.c:97-107 | placing an entry leaves the history of every earlier moment as it was |
| ServerLog.RowsAreAcceptedReadings | service/sensor_service.c:54-67 | conservation of readings for any valid history |
| SensorTable.SelectIsTheQuery | storage/sqlite/sqlite_db.c:322-335 | the selection is the one ascending, duplicate-free list of exactly the rows in range |
| SensorTable.SelectStable | storage/sqlite/sqlite_db.c:20-21 | once an id at or above the bound is stored, the selection up to it never changes again |
| SensorTable.FetchLeavesNoGap | storage/sqlite/sqlite_db.c:439-442 | a row fetched from any version since the statement began leaves no gap behind in the present table |
| SensorTable.CursorSurvives | core/gateway.c:97-114 | rows appended by others never disturb what a QUERY has read |
| SensorTable.CursorJoins | core/gateway.c:114-115 | continuing after the last id delivered has neither gap nor overlap |
| SensorTable.CursorAtEnd | core/gateway.c:105-107 | when a version has nothing further, everything read is the whole selection of that version |
| SensorTable.PageComplete | storage/sqlite/sqlite_db.c:320-525 | a finished batch continues the page of the table at its start, and equals it when nobody added to the range since |
| SensorTable.PagesFlatten | storage/sqlite/sqlite_db.h:6-7 | cutting an answer into batches of any size loses and reorders nothing |
| SensorTable.PagesCount | storage/sqlite/sqlite_db.h:6-7 | m rows make ceil(m / n) batches of size n |
| SensorTable.ToInt32Lossless | storage/sqlite/sqlite_db.c:304-310 | reading a 64-bit id as an int is lossless exactly for ids in int range |
| SensorTable.IdRangeExact | storage/sqlite/sqlite_db.c:256-316 | both ends of the reported range are stored ids with all others between them if and only if the largest id fits in an int |
| SensorTable.ReportedRangeIsStable | storage/sqlite/sqlite_db.c:256-316 | a reported range selects the same rows in every later table, if and only if their ids fit in an int or there are none |
| RowText.BatchExtendsQueryText | core/gateway.c:97-116 | the header goes out once and each batch continues the one-shot rendering; nothing at all for no rows |
| RowText.RenderNoNul | core/gateway.c:109 | the batch text has no NUL, so strlen of the buffer is the number of bytes written |
| RowText.RowsFollowHeader | storage/sqlite/sqlite_db.c:412-484 | header and rows have the same layout: under each column name stands the value of that name, and a NULL timestamp leaves its column empty |
| RowText.ModestRowLength | storage/sqlite/sqlite_db.c:473-484 | with values below 10^14, a 63-byte device id and a 19-byte timestamp a row takes at most 199 bytes |
| RowText.ModestBatchFits | storage/sqlite/sqlite_db.c:412-500 | header plus 20 such rows take at most 4043 bytes |
| RowText.HugeRowsOverflow | storage/sqlite/sqlite_db.c:487-497 | four rows with values of 10^300 or more exceed 4096 bytes |
| RowDecoding.LineDecodes | storage/sqlite/sqlite_db.c:473-484 | a row is recovered from its line even when the device id contains the separator |
| RowDecoding.AnswerDecodes | storage/sqlite/sqlite_db.c:412-484 | a QUERY answer decodes to exactly the rows selected if and only if no device id contains a line break |
| RowDecoding.LineBreakArrives | protocol/tcp/tcp_parser.c:111-121 | where strtod reads 0.000000 as 0, the parser accepts a device id with a line break inside, and a row that stores it is not recovered from its answer |
| DecimalText.FixedReadsBack | storage/sqlite/sqlite_db.c:473-484 | six decimals lose nothing of a value in millionths |
| DecimalText.FixedTextLength | storage/sqlite/sqlite_db.c:473-484 | a magnitude below 10^k takes at most k + 8 bytes |
| DecimalText.NatTextLength | storage/sqlite/sqlite_db.c:473-484 | a number below 10^k takes at most k digits |
| DecimalText.Odometer | protocol/tcp/tcp_parser.c:91 | raising one digit and setting the nines behind it to zeros adds one, by the characters themselves: this fixes the value of every text of digits |
| DecimalText.DigitOrder | protocol/tcp/tcp_parser.c:91 | digits are ordered as their values are |
| DecimalText.DictionaryOrder | protocol/tcp/tcp_parser.c:91 | texts of equal length have the order of their first different digits |
| DecimalText.LeadingZeros | protocol/tcp/tcp_parser.c:91 | leading zeros change no value |
| DecimalText.NoLeadingZero | storage/sqlite/sqlite_db.c:473-484 | a printed number has no leading zero, except for zero itself |
| DecimalText.PointIsSixFromTheEnd | storage/sqlite/sqlite_db.c:473-484 | a printed value is the plain decimal text of its millionths with a point before the last six digits, and a sign if negative |
| CommandText.ParseIntExact | protocol/tcp/tcp_parser.c:80-104 | parse_int accepts exactly optional whitespace, optional sign and digits with a value in 0..2147483647, and returns that value |
| CommandText.ParseIntSameOnAllPlatforms | protocol/tcp/tcp_parser.c:89-99 | verdict and value do not depend on the width of long |
| CommandText.NegativeRejected | protocol/tcp/tcp_parser.c:97-99 | no negative number is accepted as an id |
| CommandText.TrimStrips | protocol/tcp/tcp_parser.c:13-34 | trim removes exactly the whitespace around a text |
| CommandText.SpaceCodes | protocol/tcp/tcp_parser.c:17 | whitespace is the bytes 9 to 13 and 32 |
| CommandText.DecoratedFields | protocol/tcp/tcp_parser.c:37-54 | runs of commas vanish, whitespace-only segments survive as empty fields, every field arrives trimmed and in order |
| CommandText.DecorationIrrelevant | protocol/tcp/tcp_parser.c:184-227 | whitespace around fields and surplus commas change neither verdict nor command below 256 bytes |
| CommandText.AnyTextDecorated | protocol/tcp/tcp_parser.c:37-54 | every text is exactly the fields found in it with whitespace and commas around them |
| CommandText.ParseExact | protocol/tcp/tcp_parser.c:184-227 | a text is a command if and only if it is below 256 bytes and has one of the three forms with decorations: HELP alone; QUERY with two spelled ids, in any order; SENSOR with a 1..63 byte device id and four numbers strtod accepts; everything else is refused |
| CommandText.TypedLine | protocol/tcp/tcp_parser.c:184-227 | a command may end in a line feed, with or without a carriage return |
| CommandText.ParsedIsSensible | protocol/tcp/tcp_parser.c:107-181 | a parsed QUERY has 0 <= start <= end <= 2^31-1; a parsed SENSOR has a trimmed 1..63 byte device id without comma or NUL |
| CommandText.RoundTrip | protocol/tcp/tcp_parser.c:184-227 | printing any command the parser can return, with any decoration, and parsing it gives it back, if and only if the text stays below 256 bytes and strtod reads back the values in it; HELP and QUERY hold none |
| CommandText.PrintParses | protocol/tcp/tcp_parser.c:184-227 | the documented form fits the parser's limit for values below 10^14 and parses back if and only if strtod reads back its values |
| CommandText.ReversedQuery | protocol/tcp/tcp_parser.c:162-174 | a reversed range means the same QUERY |
| CommandText.NumbersParse | protocol/tcp/tcp_parser.c:107-142 | a SENSOR command with any four number texts that strtod accepts means the values it reads |
| CommandText.HugeReadingArrives | protocol/tcp/tcp_parser.c:57-77 | where strtod reads `1e300` as at least 10^300, a 32-byte command is accepted whose row takes more than 1200 bytes in an answer |
| ParserBuffer.SkipSpaces | protocol/tcp/tcp_parser.c:17-19 | stops at the first byte that is not whitespace, at the latest at the NUL |
| ParserBuffer.SkipSpacesBack | protocol/tcp/tcp_parser.c:25-29 | everything behind the result is whitespace |
| ParserBuffer.TrimInPlace | protocol/tcp/tcp_parser.c:13-34 | leaves the trimmed string at the result and writes strictly inside the string |
| ParserBuffer.Strtok | protocol/tcp/tcp_parser.c:42-50 | yields the next non-empty segment, writes strictly inside the string, and leaves the unread tail as it was |
| ParserBuffer.SplitFields | protocol/tcp/tcp_parser.c:37-54 | the in-place loop finds exactly the pure fields; the NULs written never disturb the tail or an earlier field; -1 exactly for more than the maximum |
| ParserBuffer.StrtolLoop | protocol/tcp/tcp_parser.c:89-91 | strtol as a loop that tests for overflow before every step and never holds a magnitude beyond the range of long computes the number spelled, or the nearest long and ERANGE |
| ParserBuffer.ParseIntAt | protocol/tcp/tcp_parser.c:80-104 | reads an id out of the buffer exactly as the pure parse_int does |
| ParserBuffer.SensorFrom | protocol/tcp/tcp_parser.c:107-142 | agrees with the pure SENSOR command on every list of fields |
| ParserBuffer.QueryFrom | protocol/tcp/tcp_parser.c:145-181 | agrees with the pure QUERY command on every list of fields |
| ParserBuffer.Parse | protocol/tcp/tcp_parser.c:184-227 | the parser on its 256-byte buffer computes the pure command language |
| Storage.Snprintf | storage/sqlite/sqlite_db.c:473-484 | writes inside the buffer only, always terminates, reports the full length |
| Storage.Database.OtherClients | storage/sqlite/sqlite_db.c:144-253 | other threads may append any number of rows with larger ids, and do nothing else |
| Storage.Database.Step | storage/sqlite/sqlite_db.c:439 | a cursor step yields the least matching id of some version since the statement began, DONE, or an error |
| Storage.Database.StepInsert | storage/sqlite/sqlite_db.c:232 | the insert step appends one row with a fresh larger id and the given values, or changes nothing |
| Storage.Database.InsertSensor | storage/sqlite/sqlite_db.c:144-253 | success means exactly one new row of this thread with the given values, and comes exactly if the device id is not empty and no SQLite call failed; failure stores nothing of this thread |
| Storage.Database.GetIdRange | storage/sqlite/sqlite_db.c:256-316 | exactly if no SQLite call failed, the id range of the table at one moment during the call |
| Storage.Database.QueryNextBatch | storage/sqlite/sqlite_db.c:320-525 | on success the next rows in range without a gap, nothing left out that was there at the call, their text in the buffer; unless one of its SQLite calls failed it fails only when that text reaches the buffer size, and while nobody adds to its range, exactly then |
| Storage.Database.ReadRows | storage/sqlite/sqlite_db.c:436-524 | the row loop: the buffer holds header and rendered rows at each iteration |
| Storage.RowIdInRange | storage/sqlite/sqlite_db.c:441-442 | the 32-bit read of a row id in the batch loop is lossless because end_id bounds it |
| Storage.BatchFinishes | storage/sqlite/sqlite_db.c:507-524 | DONE ends a batch whose rows are right for the present table |
| Storage.BatchOverflows | storage/sqlite/sqlite_db.c:487-497 | a batch whose rows outgrow the buffer would outgrow it on a still table as well |
| Paging.PageDelivered | core/gateway.c:109-115 | delivering a batch with rows moves the QUERY strictly towards end_id and keeps its invariant |
| Paging.EmptyBatchEnds | core/gateway.c:105-118 | the first empty batch makes the delivered rows one atomic SELECT on a version that existed during the call |
| Paging.FailedBatchEnds | core/gateway.c:98-103 | a failing batch contributes none of its rows; what was delivered stays a prefix of the selection |
| Paging.FailedSendEnds | core/gateway.c:109-112 | a failing send leaves a prefix of the rendering on the wire |
| Paging.SettledQuery | core/gateway.c:88-119 | a QUERY up to an id already stored is decided when it begins: absent faults it succeeds, with the answer of that moment, if and only if the batches of that answer fit the buffer, whatever is inserted meanwhile |
| Paging.BatchSizeIrrelevant | storage/sqlite/sqlite_db.c:412-433 | while nobody adds to the range, the QUERY loop puts the same bytes, the one-shot rendering, on the wire for every batch size whose batches fit |
| Paging.ModestQueriesSucceed | core/gateway.c:88-119 | with values below 10^14 in its range no QUERY can overflow its batch buffer: without a SQLite fault or a failed send it succeeds, whatever is inserted meanwhile and whatever lies outside the range |
| Paging.HugeQueriesFail | core/gateway.c:95-103 | a QUERY that begins on a range of at least four rows, all with values of 10^300 or more, fails, whatever is inserted meanwhile inside or outside the range |
| Transport.Socket.Send | transport/tcp/tcp_server.c:432-437 | one send call puts any prefix on the wire, or nothing and an error |
| Transport.TcpServerSend | transport/tcp/tcp_server.c:420-462 | whatever the kernel answers, the bytes on the wire are a prefix of the data, and the result is 0 exactly when all went out once, in order, which is exactly when no send failed; interrupted sends are repeated |
| Transport.OutputHandler | app/main.c:19-34 | the same for the gateway's output callback, which refuses empty output |
| Replies.HelpTextShape | core/gateway.c:48-67 | the help text is a non-empty C string that fits the 4096-byte output buffer |
| Replies.HelpTellsRange | core/gateway.c:64-67 | different ranges give different help texts |
| Replies.LargeIdWraps | storage/sqlite/sqlite_db.c:302-312 | with a row of id 2^31 stored HELP reports 1 - -2147483648, a range that leaves the row out and that the parser rejects in a QUERY |
| Replies.LargerIdMisleads | storage/sqlite/sqlite_db.c:302-312 | with ids 1 and 2^32 + 5 stored HELP reports 1 - 5, which the parser takes and which leaves the last row out |
| Replies.ReportedRangeSentBack | core/gateway.c:64-67 | the reported range can be sent back in a QUERY and selects exactly the rows there were, now and later, if and only if the largest id fits in an int or there are none; an empty table reports 0 - 0 |
| Replies.OutcomeTold | app/main.c:106-131 | no reply to a command is right both for its success and for its failure, whatever table versions the two saw |
| Replies.AnswersStay | core/gateway.c:184-213 | a right answer stays right when the table grows |
| Gateway.BuildHelp | core/gateway.c:29-70 | HELP answers with the id range of one moment during the call, exactly if no SQLite call failed |
| Gateway.HandleQuery | core/gateway.c:88-119 | terminates; on success the wire got exactly the rendering of one atomic SELECT; on failure a prefix; it never succeeds unless the batches of the answer at its start fit; while nobody adds to its range, whatever is added elsewhere, and unless a SQLite call or a send failed, it fails exactly when they do not fit, and n rows take ceil(n / limit) deliveries and one SELECT more |
| Gateway.Process | core/gateway.c:171-214 | parse, dispatch and answer as one atomic step; a command fails only if it did not parse, a SQLite call failed, or, for a QUERY, a send failed or its batches do not fit; this thread stores exactly the readings it acknowledges |
| App.HandleData | app/main.c:77-134 | the reply to a chunk is on the wire in full unless a send failed, and then a prefix of it; failures are followed by the error line and have the same reasons as above |
| App.ClientThread | transport/tcp/tcp_server.c:37-118 | CONNECTED, then up to the turn that stops the loop one DATA event and one answer for each chunk received, in order, DISCONNECTED exactly for a peer close, and exactly one close; the stream is the welcome line and the replies in command order, in full exactly if no send failed, and otherwise up to the first failed one; each command fails only for a reason met in its own turn |
| App.EventOrder | transport/tcp/tcp_server.c:61-111 | DATA events carry 1 to 127 bytes, so neither size limit ever rejects a chunk; DISCONNECTED is last, at most once, and exactly when the peer closes while the thread reads |
| App.EventsAreHeard | transport/tcp/tcp_server.c:61-111 | told from the turns alone: each chunk received before the loop stops raises one DATA event with its bytes, in order; the thread exits exactly if some turn stops it |
| App.AnswerChunk | transport/tcp/tcp_server.c:65-82 | the DATA callback adds one answered chunk to the session and to the stream |
| App.ReadYourWrites | app/main.c:106-131 | in a session a QUERY after an acknowledged SENSOR contains its row, if the id is in range |

## Where the code falls short

- A `QUERY` can be impossible to answer: values of any size are stored, but a
  batch must fit 4096 bytes. Four commands `SENSOR,D,1e300,1e300,1e300,1e300` are
  enough (`RunVerdicts.HugeRangeReachable`, `Paging.HugeQueriesFail`). The exact
  condition is `Paging.SettledQuery` and, over whole runs,
  `RunVerdicts.RunSettledQuery`: a QUERY up to an id already stored succeeds,
  absent faults, if and only if the batches of its answer fit. For a range that
  others add to while it is read, the rows of each batch decide
  (`Storage.Database.QueryNextBatch`); it cannot succeed unless the batches of the
  answer at its start fit. `Paging.ModestQueriesSucceed` and
  `RunTheorems.ModestRunsFit` give a bound under which none fails.
- An answer cannot be split into rows line by line when a device id contains a
  line break, which the parser lets through inside a field
  (`RowDecoding.LineBreakArrives`); it can exactly when none does
  (`RowDecoding.AnswerDecodes`, `RunTheorems.RunAnswersDecode`).
- HELP reports ids as 32-bit numbers. With a row of id 2147483648 the range it
  reports ends below its start (`Replies.LargeIdWraps`), and with one of id 2^32 + 5
  it looks right and is not (`Replies.LargerIdMisleads`). It is right exactly when the
  largest id fits in an int (`SensorTable.IdRangeExact`,
  `Replies.ReportedRangeSentBack`).

## Left out

- Socket setup, accept loop, start, stop and thread creation (transport/tcp/tcp_server.c:121-418): operating-system plumbing; send and recv are oracles that return any allowed result.
- SQLite itself, WAL, busy timeout, opening and closing: only the table and the possible outcomes of each call are modelled.
- IEEE floating point: infinities, NaN, hexadecimal floats and rounding; values are exact millionths.
- Interleavings inside one parse, because of the static state of strtok.
- Message framing: one received chunk is one command, as in the code.
- data_service.c, create and destroy functions, NULL-argument checks and logging: pass-through or allocation code.
- The command is returned as a value instead of being filled in field by field; a half-filled command is never read after a failure.
- PrintParses: leaves open which values strtod reads back from %.6f, which is a property of the C library.
- QueryNextBatch: does not model an snprintf that reports an output error; printing into memory cannot fail for these formats.
- TcpServerSend: assumes finitely many interrupted sends; with endless EINTR the call does not return.
- ClientThread: speaks about the part of a connection's life a finite script covers; a thread still waiting in recv has no close yet.
- RunRefinesSequential: the number of connections is fixed for a run, and all of them are accepted at its start; a connection accepted later takes its first step later.

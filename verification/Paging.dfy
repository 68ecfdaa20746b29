/**
 The QUERY loop on values: what has been delivered after any number of batches,
 while other clients keep appending rows, and what the loop's end means.
 */
module Paging {
  import opened CText
  import opened SensorTable
  import opened RowText
  import opened Storage

  /** The size of the batch buffer in the QUERY handler. */
  const BATCH_BUFFER := 4096

  /** One QUERY: its range of ids, and the batch size it is read with. */
  datatype Asked = Asked(startId: int, endId: int, limit: nat)

  /** The one-shot answer to a QUERY on a given table. */
  function Answer(rows: seq<Row>, q: Asked): seq<Row> {
    Select(rows, q.startId, q.endId)
  }

  /** The answer cut into batches. */
  function Wanted(rows: seq<Row>, q: Asked): seq<seq<Row>>
    requires q.limit >= 1
  {
    Pages(Answer(rows, q), q.limit)
  }

  /** What is left of the answer behind `lastId`. */
  function Rest(rows: seq<Row>, q: Asked, lastId: int): seq<Row> {
    Select(rows, lastId + 1, q.endId)
  }

  /** The batch the loop asks for after delivering `pages` up to `lastId`. */
  function NextBatch(q: Asked, lastId: int, pages: seq<seq<Row>>): Batch {
    Batch(lastId, q.endId, q.limit, pages == [])
  }

  /** Every page, the first one with its header, fits the batch buffer. */
  ghost predicate AllFit(pages: seq<seq<Row>>) {
    forall i :: 0 <= i < |pages| ==> |BatchText(i == 0, pages[i])| < BATCH_BUFFER
  }

  ghost predicate PageSizes(pages: seq<seq<Row>>, limit: nat) {
    forall i :: 0 <= i < |pages| ==> 1 <= |pages[i]| <= limit
  }

  /**
   The pages delivered are the first pages of the answer as it was when the QUERY
   began - or that answer is used up, all its pages fit, and rows added to the
   range meanwhile have been delivered on top.
   */
  ghost predicate OnTrack(before: seq<Row>, q: Asked, lastId: int, pages: seq<seq<Row>>)
    requires q.limit >= 1
  {
    || Wanted(before, q) == pages + Pages(Rest(before, q, lastId), q.limit)
    || (Rest(before, q, lastId) == [] && AllFit(Wanted(before, q)) && |Flatten(pages)| > |Answer(before, q)|)
  }

  /** After `pages`, the rows `page` come next in the selection, and their batch reaches the buffer size. */
  ghost predicate DoesNotFit(rows: seq<Row>, q: Asked, pages: seq<seq<Row>>, page: seq<Row>) {
    && |page| <= q.limit && |BatchText(pages == [], page)| >= BATCH_BUFFER
    && Flatten(pages) + page <= Answer(rows, q)
  }

  /** The loop invariant: `pages` delivered, the cursor on `lastId`, over a table that was `before` at the start. */
  ghost predicate Delivered(before: seq<Row>, rows: seq<Row>, q: Asked, lastId: int, pages: seq<seq<Row>>) {
    && before <= rows && q.limit >= 1
    && CursorRead(rows, q.startId - 1, q.endId, Flatten(pages), lastId)
    && PageSizes(pages, q.limit) && AllFit(pages)
    && OnTrack(before, q, lastId, pages)
  }

  /**
   What one QUERY promises, whatever other clients inserted meanwhile. `pages`
   were handed to the output handler, `at` is the table version the last empty
   batch saw, `sent` counts the bytes that went out when a send failed.
   */
  ghost predicate QueryOutcome(before: seq<Row>, rows: seq<Row>, q: Asked,
                               wire: string, wire': string, rc: int, pages: seq<seq<Row>>,
                               at: nat, sent: nat, sqlFault: bool, sendFault: bool)
  {
    var all := Flatten(pages);
    && (rc == 0 || rc == -1) && before <= rows && q.limit >= 1
    // At every moment the rows delivered are a prefix of the range selection, now and later.
    && all <= Answer(rows, q) && PageSizes(pages, q.limit)
    && (!sendFault ==> wire' == wire + QueryText(all))
    && (sendFault ==> rc == -1 && sent < |QueryText(all)| && wire' == wire + QueryText(all)[..sent])
    // Success: one atomic SELECT on one version of the table that existed during the call.
    && (rc == 0 ==> !sqlFault && !sendFault && |before| <= at <= |rows| && all == Answer(rows[..at], q))
    // No QUERY succeeds unless the batches of the answer it started with all fit the buffer.
    && (rc == 0 ==> AllFit(pages) && AllFit(Wanted(before, q)))
    // Without a fault a QUERY fails only because the next rows in range do not fit the buffer.
    && (rc == -1 && !sqlFault && !sendFault ==> exists page :: DoesNotFit(rows, q, pages, page))
    // While nobody adds to the range, whatever is added elsewhere, the answer's batches decide.
    && (Answer(before, q) == Answer(rows, q) && !sqlFault && !sendFault ==>
          && (rc == 0 <==> AllFit(Wanted(before, q)))
          && (rc == 0 ==> pages == Wanted(before, q)))
  }

  lemma FlattenNone()
    ensures QueryText(Flatten<Row>([])) == ""
  {
  }

  lemma DeliveryStarts(rows: seq<Row>, q: Asked)
    requires Ascending(rows) && q.limit >= 1
    ensures Delivered(rows, rows, q, q.startId - 1, [])
  {
    hide Select;
    CursorStarts(rows, q.startId - 1, q.endId);
    assert [] + Wanted(rows, q) == Wanted(rows, q);
  }

  lemma DeliverySurvives(before: seq<Row>, rows: seq<Row>, rows': seq<Row>, q: Asked, lastId: int,
                         pages: seq<seq<Row>>)
    requires Delivered(before, rows, q, lastId, pages)
    requires rows <= rows' && Ascending(rows')
    ensures Delivered(before, rows', q, lastId, pages)
  {
    hide Select, OnTrack, Flatten;
    CursorSurvives(rows, rows', q.startId - 1, q.endId, Flatten(pages), lastId);
  }

  lemma FlattenAppend(pages: seq<seq<Row>>, page: seq<Row>)
    ensures Flatten(pages + [page]) == Flatten(pages) + page
  {
    assert (pages + [page])[..|pages|] == pages;
  }

  lemma {:induction false} FlattenEmpty(pages: seq<seq<Row>>, limit: nat)
    requires PageSizes(pages, limit)
    ensures Flatten(pages) == [] <==> pages == []
  {
  }

  lemma PagesStep(page: seq<Row>, rest: seq<Row>, limit: nat)
    requires 1 <= |page| <= limit && (rest != [] ==> |page| == limit)
    ensures Pages(page + rest, limit) == [page] + Pages(rest, limit)
  {
    if rest == [] {
      assert page + rest == page;
    } else {
      assert (page + rest)[..limit] == page && (page + rest)[limit..] == rest;
    }
  }

  /** While the answer is not used up, the pages delivered and the rest make it up. */
  lemma TrackTotal(before: seq<Row>, q: Asked, lastId: int, pages: seq<seq<Row>>)
    requires q.limit >= 1 && Wanted(before, q) == pages + Pages(Rest(before, q, lastId), q.limit)
    ensures Answer(before, q) == Flatten(pages) + Rest(before, q, lastId)
  {
    hide Select;
    PagesFlatten(Answer(before, q), q.limit);
    FlattenConcat(pages, Pages(Rest(before, q, lastId), q.limit));
    PagesFlatten(Rest(before, q, lastId), q.limit);
  }

  /** What was there at the start and fits one page has been read with it. */
  lemma RestUsedUp(before: seq<Row>, q: Asked, lastId: int, page: seq<Row>, next: int)
    requires lastId <= next && Rest(before, q, lastId) <= page
    requires forall r :: r in page ==> r.id <= next
    ensures Rest(before, q, next) == []
  {
    SelectMembers(before, lastId + 1, q.endId);
    forall i | 0 <= i < |before| ensures before[i].id < next + 1 || q.endId < before[i].id {
      if lastId < before[i].id <= q.endId {
        assert before[i] in Rest(before, q, lastId);
      }
    }
    SelectNothing(before, next + 1, q.endId);
  }

  /** A full page of the answer at the start: the track goes on behind it. */
  lemma FullPageOnTrack(before: seq<Row>, q: Asked, lastId: int, pages: seq<seq<Row>>, page: seq<Row>, next: int)
    requires Ascending(before) && q.limit >= 1 && |page| == q.limit && next == page[|page| - 1].id
    requires page <= Rest(before, q, lastId)
    requires Wanted(before, q) == pages + Pages(Rest(before, q, lastId), q.limit)
    ensures Wanted(before, q) == (pages + [page]) + Pages(Rest(before, q, next), q.limit)
  {
    hide Select, Pages, Ascending;
    var rest := Rest(before, q, lastId);
    SelectBehind(before, lastId + 1, q.endId, q.limit - 1);
    assert rest == page + Rest(before, q, next);
    PagesStep(page, Rest(before, q, next), q.limit);
    assert pages + ([page] + Pages(Rest(before, q, next), q.limit)) ==
           (pages + [page]) + Pages(Rest(before, q, next), q.limit);
  }

  /** The last page of the answer at the start, with or without rows added since. */
  lemma LastPageOnTrack(before: seq<Row>, q: Asked, lastId: int, pages: seq<seq<Row>>, page: seq<Row>, next: int)
    requires q.limit >= 1 && 1 <= |page| <= q.limit && Rest(before, q, next) == []
    requires Rest(before, q, lastId) <= page && AllFit(pages + [page])
    requires Wanted(before, q) == pages + Pages(Rest(before, q, lastId), q.limit)
    ensures OnTrack(before, q, next, pages + [page])
  {
    hide Select, BatchText, Flatten;
    var rest := Rest(before, q, lastId);
    if page == rest {
      assert pages + [page] == (pages + [page]) + Pages([], q.limit);
    } else {
      TrackTotal(before, q, lastId, pages);
      FlattenAppend(pages, page);
      forall i | 0 <= i < |Wanted(before, q)| ensures |BatchText(i == 0, Wanted(before, q)[i])| < BATCH_BUFFER {
        assert |BatchText(i == 0, (pages + [page])[i])| < BATCH_BUFFER;
        if i == |pages| {
          TextGrows(i == 0, rest, page);
        }
      }
    }
  }

  lemma StaysOnTrack(before: seq<Row>, rows: seq<Row>, q: Asked, lastId: int, pages: seq<seq<Row>>,
                     page: seq<Row>, next: int)
    requires before <= rows && Ascending(rows) && q.limit >= 1 && OnTrack(before, q, lastId, pages)
    requires 1 <= |page| <= q.limit && next == page[|page| - 1].id && lastId <= next
    requires forall r :: r in page ==> r.id <= next
    requires StillPage(rows, NextBatch(q, lastId, pages)) <= page && AllFit(pages + [page])
    ensures OnTrack(before, q, next, pages + [page])
  {
    hide Select, BatchText, Flatten, Pages, AllFit;
    SelectGrows(before, rows, lastId + 1, q.endId);
    FlattenAppend(pages, page);
    var rest := Rest(before, q, lastId);
    if |rest| < q.limit {
      RestUsedUp(before, q, lastId, page, next);
      if Wanted(before, q) == pages + Pages(rest, q.limit) {
        LastPageOnTrack(before, q, lastId, pages, page, next);
      }
    } else {
      FullPageOnTrack(before, q, lastId, pages, page, next);
    }
  }

  lemma FitsAppend(pages: seq<seq<Row>>, page: seq<Row>)
    requires AllFit(pages) && |BatchText(pages == [], page)| < BATCH_BUFFER
    ensures AllFit(pages + [page])
  {
    hide BatchText;
  }

  /** One more page that fits and left nothing out joins those delivered. */
  lemma PageJoins(before: seq<Row>, rows: seq<Row>, rows': seq<Row>, q: Asked, lastId: int, pages: seq<seq<Row>>,
                  page: seq<Row>, next: int)
    requires Delivered(before, rows, q, lastId, pages)
    requires rows <= rows' && Ascending(rows') && page != []
    requires PageRead(rows', lastId, q.endId, q.limit, page, next)
    requires StillPage(rows, NextBatch(q, lastId, pages)) <= page && |BatchText(pages == [], page)| < BATCH_BUFFER
    ensures lastId < next <= q.endId && Delivered(before, rows', q, next, pages + [page])
  {
    hide Select, BatchText, OnTrack, Flatten, AllFit, StillPage;
    DeliverySurvives(before, rows, rows', q, lastId, pages);
    CursorJoins(rows', q.startId - 1, q.endId, Flatten(pages), lastId, page, next);
    FlattenAppend(pages, page);
    FitsAppend(pages, page);
    SelectMembers(rows', lastId + 1, next);
    assert Ascending(rows);
    StaysOnTrack(before, rows, q, lastId, pages, page, next);
  }

  /** A batch with rows was delivered: the invariant moves on to its last id. */
  lemma PageDelivered(before: seq<Row>, rows: seq<Row>, rows': seq<Row>, mem: string, q: Asked, lastId: int,
                      pages: seq<seq<Row>>, page: seq<Row>, next: int, seen: nat)
    requires Delivered(before, rows, q, lastId, pages)
    requires rows <= rows' && Ascending(rows') && |mem| == BATCH_BUFFER
    requires BatchOutcome(rows, rows', mem, NextBatch(q, lastId, pages), 0, page, next, seen, false)
    requires page != []
    ensures lastId < next <= q.endId && Delivered(before, rows', q, next, pages + [page])
  {
    hide Select, BatchText, Delivered, StillPage;
    PageJoins(before, rows, rows', q, lastId, pages, page, next);
  }

  /** An answer used up: its pages are the delivered ones, unless the range has grown. */
  lemma TrackEnds(before: seq<Row>, rows: seq<Row>, q: Asked, lastId: int, pages: seq<seq<Row>>)
    requires q.limit >= 1 && OnTrack(before, q, lastId, pages) && Rest(before, q, lastId) == []
    requires AllFit(pages) && Flatten(pages) <= Answer(rows, q)
    ensures AllFit(Wanted(before, q))
    ensures Answer(before, q) == Answer(rows, q) ==> pages == Wanted(before, q)
  {
    hide Select, AllFit, Flatten;
    assert Pages(Rest(before, q, lastId), q.limit) == [];
    assert pages + [] == pages;
  }

  /** The empty batch ends the loop: everything delivered is one atomic SELECT. */
  lemma EmptyBatchEnds(before: seq<Row>, rows: seq<Row>, rows': seq<Row>, mem: string, q: Asked, lastId: int,
                       pages: seq<seq<Row>>, next: int, seen: nat, wire: string)
    requires Delivered(before, rows, q, lastId, pages)
    requires rows <= rows' && Ascending(rows') && |mem| == BATCH_BUFFER
    requires BatchOutcome(rows, rows', mem, NextBatch(q, lastId, pages), 0, [], next, seen, false)
    ensures QueryOutcome(before, rows', q, wire, wire + QueryText(Flatten(pages)), 0, pages, seen, 0, false, false)
  {
    hide Select, BatchText, QueryText, Flatten, BufferHolds, Ascending, AllFit, OnTrack, Wanted;
    assert rows'[..|rows|] == rows;
    CursorAtEnd(rows', |rows|, seen, q.startId - 1, q.endId, Flatten(pages), lastId);
    DeliverySurvives(before, rows, rows', q, lastId, pages);
    CursorIsPrefix(rows', q.startId - 1, q.endId, Flatten(pages), lastId);
    SelectGrows(before, rows, lastId + 1, q.endId);
    TrackEnds(before, rows', q, lastId, pages);
  }

  /** The batch read after the delivered pages was too long, and nobody added to the range. */
  lemma OverlongPage(before: seq<Row>, rows: seq<Row>, q: Asked, lastId: int, pages: seq<seq<Row>>, page: seq<Row>)
    requires q.limit >= 1 && OnTrack(before, q, lastId, pages)
    requires Answer(before, q) == Answer(rows, q) && DoesNotFit(rows, q, pages, page)
    ensures !AllFit(Wanted(before, q))
  {
    hide Select, BatchText, Flatten;
    TrackTotal(before, q, lastId, pages);
    var rest := Rest(before, q, lastId);
    assert page == (Flatten(pages) + page)[|Flatten(pages)|..] <= rest;
    if rest == [] {
      EmptyTextFits(pages == []);
    }
    var first := Pages(rest, q.limit)[0];
    assert page <= first;
    TextGrows(pages == [], page, first);
    assert Wanted(before, q)[|pages|] == first;
  }

  lemma EmptyTextFits(first: bool)
    ensures |BatchText(first, [])| <= 63
  {
    hide Header, RenderRows;
    RenderNone();
  }

  /** A batch call failed: the rows delivered before it stand, the failing batch adds none. */
  lemma FailedBatchEnds(before: seq<Row>, rows: seq<Row>, rows': seq<Row>, mem: string, q: Asked, lastId: int,
                        pages: seq<seq<Row>>, page: seq<Row>, next: int, seen: nat, fault: bool, at: nat,
                        wire: string)
    requires Delivered(before, rows, q, lastId, pages)
    requires rows <= rows' && Ascending(rows') && |mem| == BATCH_BUFFER
    requires BatchOutcome(rows, rows', mem, NextBatch(q, lastId, pages), -1, page, next, seen, fault)
    ensures QueryOutcome(before, rows', q, wire, wire + QueryText(Flatten(pages)), -1, pages, at, 0, fault, false)
  {
    hide Select, BatchText, QueryText, Flatten, Ascending, OnTrack, AllFit, Wanted;
    DeliverySurvives(before, rows, rows', q, lastId, pages);
    CursorIsPrefix(rows', q.startId - 1, q.endId, Flatten(pages), lastId);
    if !fault {
      CursorJoins(rows', q.startId - 1, q.endId, Flatten(pages), lastId, page, next);
      CursorIsPrefix(rows', q.startId - 1, q.endId, Flatten(pages) + page, next);
      assert DoesNotFit(rows', q, pages, page);
      if Answer(before, q) == Answer(rows', q) {
        OverlongPage(before, rows', q, lastId, pages, page);
      }
    }
  }

  /** A batch could not be sent whole: it counts as handed over, and the QUERY fails. */
  lemma FailedSendEnds(before: seq<Row>, rows: seq<Row>, q: Asked, next: int, pages: seq<seq<Row>>,
                       page: seq<Row>, at: nat, wire: string, sent: nat)
    requires Ascending(rows) && Delivered(before, rows, q, next, pages + [page])
    requires PageSizes(pages, q.limit) && page != [] && sent < |BatchText(pages == [], page)|
    ensures QueryOutcome(before, rows, q, wire,
                         wire + QueryText(Flatten(pages)) + BatchText(pages == [], page)[..sent], -1, pages + [page],
                         at, |QueryText(Flatten(pages))| + sent, false, true)
  {
    hide Select, BatchText, QueryText, Flatten, Ascending, OnTrack;
    FlattenAppend(pages, page);
    FlattenEmpty(pages, q.limit);
    CursorIsPrefix(rows, q.startId - 1, q.endId, Flatten(pages + [page]), next);
    BatchExtendsQueryText(Flatten(pages), page);
    CutInside(QueryText(Flatten(pages)), BatchText(pages == [], page), sent);
    Associate(wire, QueryText(Flatten(pages)), BatchText(pages == [], page)[..sent]);
  }

  lemma CutInside(a: string, b: string, n: nat)
    requires n <= |b|
    ensures (a + b)[..|a| + n] == a + b[..n]
  {
  }

  /** A batch with rows has text to send. */
  lemma BatchTextNonEmpty(first: bool, page: seq<Row>)
    requires page != []
    ensures BatchText(first, page) != "" && NoNul(BatchText(first, page))
  {
    hide Header, RenderRows;
    RenderNoNul(page);
    RenderSplit(page);
    assert RenderRow(page[|page| - 1]) != "";
  }

  // ---- consequences ----

  /**
   A QUERY whose end_id is at most an id already stored (or whose range is empty)
   is decided when it begins: absent faults it succeeds if and only if the batches
   of its answer fit the buffer, whatever is inserted meanwhile.
   */
  lemma SettledQuery(before: seq<Row>, rows: seq<Row>, q: Asked, wire: string, wire': string, rc: int,
                     pages: seq<seq<Row>>, at: nat, sent: nat)
    requires Ascending(rows) && QueryOutcome(before, rows, q, wire, wire', rc, pages, at, sent, false, false)
    requires q.endId < q.startId || exists i :: 0 <= i < |before| && q.endId <= before[i].id
    ensures rc == 0 <==> AllFit(Wanted(before, q))
    ensures rc == 0 ==> pages == Wanted(before, q) && wire' == wire + QueryText(Answer(before, q))
  {
    hide Select, BatchText, QueryText, Flatten, Ascending, Pages, AllFit, DoesNotFit;
    SelectStable(before, rows, q.startId, q.endId);
    PagesFlatten(Answer(before, q), q.limit);
  }

  /** On a range nobody adds to, all batch sizes whose batches fit put the same bytes on the wire. */
  lemma BatchSizeIrrelevant(before: seq<Row>, rows: seq<Row>, q: Asked, q': Asked, w: string, w': string,
                            v: string, v': string, rc: int, rc': int, pages: seq<seq<Row>>, pages': seq<seq<Row>>,
                            at: nat, at': nat, sent: nat, sent': nat)
    requires QueryOutcome(before, rows, q, w, w', rc, pages, at, sent, false, false)
    requires QueryOutcome(before, rows, q', v, v', rc', pages', at', sent', false, false)
    requires q'.startId == q.startId && q'.endId == q.endId && Answer(before, q) == Answer(rows, q)
    requires AllFit(Wanted(before, q)) && AllFit(Wanted(before, q'))
    ensures rc == rc' == 0
    ensures w' == w + QueryText(Answer(before, q)) && v' == v + QueryText(Answer(before, q))
  {
    hide Select, BatchText, QueryText, Flatten, Pages, AllFit, DoesNotFit;
    PagesFlatten(Answer(before, q), q.limit);
    PagesFlatten(Answer(before, q), q'.limit);
  }

  /**
   With values below 10^14, parser-sized device ids and schema timestamps in its
   range, no QUERY overflows its buffer: without a SQLite fault or a failed send
   it succeeds, whatever is inserted meanwhile and whatever lies outside the range.
   */
  lemma ModestQueriesSucceed(before: seq<Row>, rows: seq<Row>, q: Asked, wire: string, wire': string,
                             rc: int, pages: seq<seq<Row>>, at: nat, sent: nat)
    requires QueryOutcome(before, rows, q, wire, wire', rc, pages, at, sent, false, false)
    requires q.limit <= BATCH && 0 <= q.startId && q.endId <= INT_MAX
    requires forall r :: r in Answer(rows, q) ==> Modest(r)
    ensures rc == 0
  {
    hide BatchText, QueryText, Flatten, Select, Modest, Pages, AllFit;
    if page: seq<Row> :| DoesNotFit(rows, q, pages, page) {
      SelectMembers(rows, q.startId, q.endId);
      forall j | 0 <= j < |page| ensures Modest(page[j]) && 0 <= page[j].id <= INT_MAX {
        assert page[j] == (Flatten(pages) + page)[|Flatten(pages)| + j];
        assert page[j] in Answer(rows, q);
      }
      ModestBatchFits(pages == [], page);
    }
  }

  /** At least four rows, all with values of 10^300 or more: the first batch of four or more does not fit. */
  lemma HugeAnswerDoesNotFit(before: seq<Row>, q: Asked)
    requires |Answer(before, q)| >= 4 && q.limit >= 4
    requires forall r :: r in Answer(before, q) ==> Huge(r)
    ensures !AllFit(Wanted(before, q))
  {
    hide BatchText, Huge, Select;
    var all := Answer(before, q);
    var first := Wanted(before, q)[0];
    forall i | 0 <= i < |first| ensures Huge(first[i]) {
      assert first[i] == all[i] && all[i] in all;
    }
    HugeRowsOverflow(true, first);
    assert |BatchText(0 == 0, Wanted(before, q)[0])| >= BATCH_BUFFER;
  }

  /**
   Without that bound a QUERY can be impossible to answer: when its range holds at
   least four rows, all with values of 10^300 or more, it fails - with batches of
   four or more, whatever is inserted meanwhile, inside the range or outside.
   */
  lemma HugeQueriesFail(before: seq<Row>, rows: seq<Row>, q: Asked, wire: string, wire': string, rc: int,
                        pages: seq<seq<Row>>, at: nat, sent: nat, sqlFault: bool, sendFault: bool)
    requires QueryOutcome(before, rows, q, wire, wire', rc, pages, at, sent, sqlFault, sendFault)
    requires |Answer(before, q)| >= 4 && q.limit >= 4
    requires forall r :: r in Answer(before, q) ==> Huge(r)
    ensures rc == -1
  {
    hide BatchText, Huge, Select, QueryText, Flatten, DoesNotFit, AllFit, Wanted, Answer;
    HugeAnswerDoesNotFit(before, q);
  }
}

/**
 The sensor_data table as a value: rows in insertion order, which
 AUTOINCREMENT makes ascending-id order, and the largest id ever handed out.
 Nothing in the program deletes or updates a row, so a later table is always
 an extension of an earlier one at the end.
 */
module SensorTable {
  import opened Wrappers

  /** SQLite row ids are 64-bit; C `int` is 32-bit. */
  const MAX_ROWID := 0x7fff_ffff_ffff_ffff
  const INT_MAX := 0x7fff_ffff
  const INT_MIN := -0x8000_0000
  newtype int32 = x: int | -0x8000_0000 <= x <= 0x7fff_ffff

  /** What a client uploads. Data values are fixed-point numbers in millionths. */
  datatype Reading = Reading(device: string, data1: int, data2: int, data3: int, data4: int)

  /** One stored row. The timestamp column is NULL when SQLite's datetime() yields NULL. */
  datatype Row = Row(id: int, reading: Reading, timestamp: Option<string>)

  datatype Table = Table(rows: seq<Row>, highest: int)

  ghost predicate Ascending(rows: seq<Row>) {
    forall i, j :: 0 <= i < j < |rows| ==> rows[i].id < rows[j].id
  }

  ghost predicate WellFormed(t: Table) {
    && Ascending(t.rows)
    && (forall i :: 0 <= i < |t.rows| ==> 1 <= t.rows[i].id <= t.highest)
    && 0 <= t.highest <= MAX_ROWID
  }

  /** Everything other threads can do to the table while one thread is not looking. */
  ghost predicate Grows(before: Table, after: Table) {
    before.rows <= after.rows && before.highest <= after.highest && WellFormed(after)
  }

  /** AUTOINCREMENT: the new id exceeds every id ever used. */
  function Insert(t: Table, r: Row): (t': Table)
    requires t.highest < r.id <= MAX_ROWID
  {
    Table(t.rows + [r], r.id)
  }

  lemma InsertGrows(t: Table, r: Row)
    requires WellFormed(t) && t.highest < r.id <= MAX_ROWID
    ensures Grows(t, Insert(t, r))
  {
  }

  /** SELECT ... WHERE lo <= id AND id <= hi ORDER BY id ASC, in one shot. */
  function Select(rows: seq<Row>, lo: int, hi: int): seq<Row> {
    if rows == [] then []
    else
      var last := rows[|rows| - 1];
      Select(rows[..|rows| - 1], lo, hi) + if lo <= last.id <= hi then [last] else []
  }

  /** A selection holds exactly the rows in range, and nothing else. */
  lemma {:induction false} SelectMembers(rows: seq<Row>, lo: int, hi: int)
    ensures forall r :: r in Select(rows, lo, hi) <==> r in rows && lo <= r.id <= hi
  {
    if rows != [] {
      SelectMembers(rows[..|rows| - 1], lo, hi);
      assert rows == rows[..|rows| - 1] + [rows[|rows| - 1]];
    }
  }

  /** A selection from an ascending table is ascending: no gap order, no duplicate. */
  lemma {:induction false} SelectAscending(rows: seq<Row>, lo: int, hi: int)
    requires Ascending(rows)
    ensures Ascending(Select(rows, lo, hi))
  {
    if rows != [] {
      SelectAscending(rows[..|rows| - 1], lo, hi);
      SelectMembers(rows[..|rows| - 1], lo, hi);
      var s := Select(rows[..|rows| - 1], lo, hi);
      forall i | 0 <= i < |s| ensures s[i].id < rows[|rows| - 1].id {
        assert s[i] in s;
      }
    }
  }

  ghost predicate Within(a: seq<Row>, b: seq<Row>) {
    forall i :: 0 <= i < |a| ==> a[i] in b
  }

  lemma WithinNonEmpty(a: seq<Row>, b: seq<Row>)
    requires Within(a, b)
    ensures a != [] ==> b != []
  {
    if a != [] {
      assert a[0] in b;
    }
  }

  lemma LastIsLargest(a: seq<Row>, r: Row)
    requires Ascending(a) && r in a
    ensures r.id <= a[|a| - 1].id && (r.id == a[|a| - 1].id ==> r == a[|a| - 1])
  {
    var i :| 0 <= i < |a| && a[i] == r;
  }

  /** Ascending order and membership determine a list of rows. */
  lemma {:induction false} AscendingUnique(a: seq<Row>, b: seq<Row>)
    requires Ascending(a) && Ascending(b)
    requires Within(a, b) && Within(b, a)
    ensures a == b
  {
    WithinNonEmpty(a, b);
    WithinNonEmpty(b, a);
    if a != [] {
      var la, lb := a[|a| - 1], b[|b| - 1];
      LastIsLargest(b, la);
      LastIsLargest(a, lb);
      DropLast(a, b);
      DropLast(b, a);
      AscendingUnique(a[..|a| - 1], b[..|b| - 1]);
    }
  }

  lemma DropLast(a: seq<Row>, b: seq<Row>)
    requires Ascending(a) && Within(a, b) && a != [] && b != [] && a[|a| - 1] == b[|b| - 1]
    ensures Within(a[..|a| - 1], b[..|b| - 1])
  {
    forall i | 0 <= i < |a| - 1 ensures a[i] in b[..|b| - 1] {
      assert a[i] in b && a[i].id < a[|a| - 1].id;
    }
  }

  /**
   `Select` is the SQL query: the one ascending list of the rows in range.
   This is the reference the paginated QUERY is measured against.
   */
  lemma SelectIsTheQuery(rows: seq<Row>, lo: int, hi: int, answer: seq<Row>)
    requires Ascending(rows)
    ensures answer == Select(rows, lo, hi) <==>
            Ascending(answer) && forall r :: r in answer <==> r in rows && lo <= r.id <= hi
  {
    SelectMembers(rows, lo, hi);
    SelectAscending(rows, lo, hi);
    var s := Select(rows, lo, hi);
    if Ascending(answer) && forall r :: r in answer <==> r in rows && lo <= r.id <= hi {
      forall i | 0 <= i < |answer| ensures answer[i] in s {
        assert answer[i] in answer;
      }
      forall i | 0 <= i < |s| ensures s[i] in answer {
        assert s[i] in s;
      }
      AscendingUnique(answer, s);
    }
  }

  lemma {:induction false} SelectNothing(rows: seq<Row>, lo: int, hi: int)
    requires forall i :: 0 <= i < |rows| ==> rows[i].id < lo || hi < rows[i].id
    ensures Select(rows, lo, hi) == []
  {
    if rows != [] {
      SelectNothing(rows[..|rows| - 1], lo, hi);
    }
  }

  lemma {:induction false} SelectAll(rows: seq<Row>, lo: int, hi: int)
    requires forall i :: 0 <= i < |rows| ==> lo <= rows[i].id <= hi
    ensures Select(rows, lo, hi) == rows
  {
    if rows != [] {
      SelectAll(rows[..|rows| - 1], lo, hi);
    }
  }

  lemma {:induction false} SelectConcat(a: seq<Row>, b: seq<Row>, lo: int, hi: int)
    ensures Select(a + b, lo, hi) == Select(a, lo, hi) + Select(b, lo, hi)
  {
    if b == [] {
      assert a + b == a;
    } else {
      SelectConcat(a, b[..|b| - 1], lo, hi);
      assert (a + b)[..|a + b| - 1] == a + b[..|b| - 1];
    }
  }

  /** Later tables only add rows at the end of a selection. */
  lemma SelectGrows(rows: seq<Row>, rows': seq<Row>, lo: int, hi: int)
    requires rows <= rows'
    ensures Select(rows, lo, hi) <= Select(rows', lo, hi)
  {
    assert rows' == rows + rows'[|rows|..];
    SelectConcat(rows, rows'[|rows|..], lo, hi);
  }

  /** Once a row with an id of at least `hi` is stored, the selection never changes again. */
  lemma SelectStable(rows: seq<Row>, rows': seq<Row>, lo: int, hi: int)
    requires rows <= rows' && Ascending(rows')
    requires hi < lo || exists i :: 0 <= i < |rows| && hi <= rows[i].id
    ensures Select(rows', lo, hi) == Select(rows, lo, hi)
  {
    var more := rows'[|rows|..];
    assert rows' == rows + more;
    SelectConcat(rows, more, lo, hi);
    forall i | 0 <= i < |more| ensures more[i].id < lo || hi < more[i].id {
      assert more[i] == rows'[|rows| + i];
    }
    SelectNothing(more, lo, hi);
  }

  /** A selection behind one of its own rows is the rest of it. */
  lemma SelectBehind(rows: seq<Row>, lo: int, hi: int, k: nat)
    requires Ascending(rows) && k < |Select(rows, lo, hi)|
    ensures Select(rows, Select(rows, lo, hi)[k].id + 1, hi) == Select(rows, lo, hi)[k + 1..]
  {
    hide Select;
    var s := Select(rows, lo, hi);
    var mid := s[k].id;
    SelectMembers(rows, lo, hi);
    SelectAscending(rows, lo, hi);
    assert s[k] in s;
    SelectCut(rows, lo, mid, hi);
    var upTo, rest := Select(rows, lo, mid), Select(rows, mid + 1, hi);
    SelectMembers(rows, lo, mid);
    SelectMembers(rows, mid + 1, hi);
    forall i | 0 <= i < |s| ensures i < |upTo| <==> s[i].id <= mid {
      assert s[i] == if i < |upTo| then upTo[i] else rest[i - |upTo|];
      assert if i < |upTo| then s[i] in upTo else s[i] in rest;
    }
    assert k < |upTo|;
    assert k + 1 < |s| ==> s[k].id < s[k + 1].id;
    assert |upTo| == k + 1;
  }

  /** A range may be cut at any id. */
  lemma {:induction false} SelectCut(rows: seq<Row>, lo: int, mid: int, hi: int)
    requires Ascending(rows) && lo <= mid + 1 && mid <= hi
    ensures Select(rows, lo, hi) == Select(rows, lo, mid) + Select(rows, mid + 1, hi)
  {
    hide Ascending;
    if rows != [] {
      var front, last := rows[..|rows| - 1], rows[|rows| - 1];
      FrontAscends(rows);
      SelectCut(front, lo, mid, hi);
      if lo <= last.id <= mid {
        SelectNothing(front, mid + 1, hi);
      }
    }
  }

  lemma FrontAscends(rows: seq<Row>)
    requires Ascending(rows) && rows != []
    ensures Ascending(rows[..|rows| - 1])
    ensures var front := rows[..|rows| - 1];
            forall i :: 0 <= i < |front| ==> front[i].id < rows[|rows| - 1].id
  {
  }

  /** The cursor: the least stored id in (after, hi], which is the first row of the remaining selection. */
  lemma SelectFirst(rows: seq<Row>, lo: int, hi: int)
    requires Ascending(rows) && Select(rows, lo, hi) != []
    ensures var r := Select(rows, lo, hi)[0];
            && r in rows && lo <= r.id <= hi
            && Select(rows, lo, r.id) == [r]
            && (forall q :: q in rows && lo <= q.id <= hi ==> r.id <= q.id)
  {
    var s := Select(rows, lo, hi);
    var r := s[0];
    SelectMembers(rows, lo, hi);
    SelectAscending(rows, lo, hi);
    assert r in s;
    forall q | q in rows && lo <= q.id <= hi ensures r.id <= q.id {
      assert q in s;
    }
    assert Ascending([r]);
    forall q ensures q in [r] <==> q in rows && lo <= q.id <= r.id {
      if q in rows && lo <= q.id <= r.id {
        assert q in s;
        var i :| 0 <= i < |s| && s[i] == q;
        assert i == 0;
      }
    }
    SelectIsTheQuery(rows, lo, r.id, [r]);
  }

  /**
   One cursor step may be answered from any version of the table between the
   start of its statement and now; the row it yields leaves no gap behind in
   the table as it stands now.
   */
  lemma FetchLeavesNoGap(rows: seq<Row>, k: nat, after: int, hi: int)
    requires Ascending(rows) && k <= |rows|
    requires Select(rows[..k], after + 1, hi) != []
    ensures var r := Select(rows[..k], after + 1, hi)[0];
            after < r.id <= hi && r in rows && Select(rows, after + 1, r.id) == [r]
  {
    var r := Select(rows[..k], after + 1, hi)[0];
    SelectFirst(rows[..k], after + 1, hi);
    SelectStable(rows[..k], rows, after + 1, r.id);
  }

  /** The rows of `s` cut into pages of `n`, the last one possibly shorter. */
  function Pages<T>(s: seq<T>, n: nat): seq<seq<T>>
    requires n >= 1
  {
    if |s| == 0 then [] else if |s| <= n then [s] else [s[..n]] + Pages(s[n..], n)
  }

  function Flatten<T>(pages: seq<seq<T>>): seq<T> {
    if pages == [] then [] else Flatten(pages[..|pages| - 1]) + pages[|pages| - 1]
  }

  lemma {:induction false} FlattenConcat<T>(a: seq<seq<T>>, b: seq<seq<T>>)
    ensures Flatten(a + b) == Flatten(a) + Flatten(b)
  {
    if b == [] {
      assert a + b == a;
    } else {
      FlattenConcat(a, b[..|b| - 1]);
      assert (a + b)[..|a + b| - 1] == a + b[..|b| - 1];
    }
  }

  /** Cutting into pages of any size loses and reorders nothing. */
  lemma {:induction false} PagesFlatten<T>(s: seq<T>, n: nat)
    requires n >= 1
    ensures Flatten(Pages(s, n)) == s
    decreases |s|
  {
    if |s| > n {
      PagesFlatten(s[n..], n);
      FlattenConcat([s[..n]], Pages(s[n..], n));
      assert Flatten([s[..n]]) == s[..n] by { assert [s[..n]][..0] == []; }
    } else if |s| > 0 {
      assert [s][..0] == [];
    }
  }

  /** SQLITE_DB_QUERY_BATCH_SIZE */
  const BATCH := 20

  /** Pages of n rows number ceil(|s| / n). */
  lemma {:induction false} PagesCount<T>(s: seq<T>, n: nat)
    requires n >= 1
    ensures |Pages(s, n)| == (|s| + n - 1) / n
    decreases |s|
  {
    if |s| > n {
      PagesCount(s[n..], n);
      OneMorePage(|s| - 1, n);
    } else if |s| > 0 {
      QuotientIs(|s| + n - 1, n, 1, |s| - 1);
    } else {
      QuotientIs(n - 1, n, 0, n - 1);
    }
  }

  lemma OneMorePage(m: nat, n: nat)
    requires n >= 1
    ensures (m + n) / n == m / n + 1
  {
    var q := m / n;
    assert m == q * n + m % n;
    QuotientIs(m + n, n, q + 1, m % n);
  }

  lemma QuotientIs(x: nat, n: nat, q: nat, r: nat)
    requires x == q * n + r && r < n
    ensures x / n == q
  {
    var d := x / n;
    assert d * n + x % n == q * n + r;
    SmallMultiple(d - q, n) by {
      assert (d - q) * n == d * n - q * n;
    }
  }

  lemma SmallMultiple(k: int, n: int)
    requires -n < k * n < n
    ensures k == 0
  {
    assert k >= 1 ==> (k - 1) * n >= 0;
    assert k <= -1 ==> (-k - 1) * n >= 0;
  }

  /** sqlite3_column_int keeps the low 32 bits of a 64-bit column, as a signed number. */
  function ToInt32(x: int): (y: int)
    ensures INT_MIN <= y <= INT_MAX && (x - y) % 0x1_0000_0000 == 0
  {
    var low := x % 0x1_0000_0000;
    if low > INT_MAX then low - 0x1_0000_0000 else low
  }

  lemma ToInt32Lossless(x: int)
    ensures ToInt32(x) == x <==> INT_MIN <= x <= INT_MAX
  {
  }

  /** SELECT MIN(id), MAX(id) read as C ints; zeroes when the table is empty. */
  function IdRange(rows: seq<Row>): (int, int) {
    if rows == [] then (0, 0) else (ToInt32(rows[0].id), ToInt32(rows[|rows| - 1].id))
  }

  /** Both ends of the reported range are stored ids, and every stored id lies between them. */
  ghost predicate TrueRange(rows: seq<Row>) {
    var (lo, hi) := IdRange(rows);
    && (exists r :: r in rows && r.id == lo) && (exists r :: r in rows && r.id == hi)
    && (forall r :: r in rows ==> lo <= r.id <= hi)
  }

  /** The reported range is the true one exactly when the largest stored id fits in an int. */
  lemma IdRangeExact(t: Table)
    requires WellFormed(t) && t.rows != []
    ensures TrueRange(t.rows) <==> t.rows[|t.rows| - 1].id <= INT_MAX
  {
    var first, last := t.rows[0], t.rows[|t.rows| - 1];
    assert first in t.rows && last in t.rows;
    if last.id <= INT_MAX {
      ToInt32Lossless(first.id);
      ToInt32Lossless(last.id);
    }
  }

  /**
   Stable ranges: a range reported by HELP selects, now and in every later
   table, exactly the rows that were stored when HELP read it, provided their
   ids fit in an int - and only then. For an empty table the range 0 - 0 stays
   empty forever.
   */
  lemma ReportedRangeIsStable(t: Table, t': Table)
    requires WellFormed(t) && Grows(t, t')
    ensures Select(t'.rows, IdRange(t.rows).0, IdRange(t.rows).1) == t.rows <==>
            t.rows == [] || t.rows[|t.rows| - 1].id <= INT_MAX
  {
    if t.rows == [] {
      SelectNothing(t'.rows, 0, 0);
    } else {
      var lo, last := t.rows[0].id, t.rows[|t.rows| - 1];
      if last.id <= INT_MAX {
        ToInt32Lossless(lo);
        ToInt32Lossless(last.id);
        SelectAll(t.rows, lo, last.id);
        SelectStable(t.rows, t'.rows, lo, last.id);
      } else {
        SelectMembers(t'.rows, IdRange(t.rows).0, IdRange(t.rows).1);
        assert last in t.rows && last !in Select(t'.rows, IdRange(t.rows).0, IdRange(t.rows).1);
      }
    }
  }

  // ---- reading through a cursor ----

  /** `read` is all a cursor over (after, hi] has passed so far, `next` the id it stands on. */
  ghost predicate CursorRead(rows: seq<Row>, after: int, hi: int, read: seq<Row>, next: int) {
    && Select(rows, after + 1, next) == read
    && (read == [] ==> next == after)
    && (read != [] ==> after < next <= hi && next == read[|read| - 1].id)
  }

  ghost predicate PageRead(rows: seq<Row>, after: int, hi: int, limit: nat, page: seq<Row>, next: int) {
    |page| <= limit && CursorRead(rows, after, hi, page, next)
  }

  /** The page one batch SELECT with LIMIT `limit` returns from a table that stands still. */
  function NextPage(rows: seq<Row>, after: int, hi: int, limit: nat): (page: seq<Row>)
    ensures |page| <= limit && page <= Select(rows, after + 1, hi)
  {
    var all := Select(rows, after + 1, hi);
    if |all| <= limit then all else all[..limit]
  }

  lemma CursorStarts(rows: seq<Row>, after: int, hi: int)
    requires Ascending(rows)
    ensures CursorRead(rows, after, hi, [], after)
  {
    SelectStable([], rows, after + 1, after);
  }

  /** Rows that other clients append never disturb what has been read. */
  lemma CursorSurvives(rows: seq<Row>, rows': seq<Row>, after: int, hi: int, read: seq<Row>, next: int)
    requires CursorRead(rows, after, hi, read, next) && rows <= rows' && Ascending(rows')
    ensures CursorRead(rows', after, hi, read, next)
  {
    if read != [] {
      SelectMembers(rows, after + 1, next);
      assert read[|read| - 1] in read;
      var i :| 0 <= i < |rows| && rows[i] == read[|read| - 1];
      assert next <= rows[i].id;
    }
    SelectStable(rows, rows', after + 1, next);
  }

  /** A cursor that starts where another one stopped continues it without gap or overlap. */
  lemma CursorJoins(rows: seq<Row>, after: int, hi: int, read: seq<Row>, mid: int, more: seq<Row>, next: int)
    requires Ascending(rows)
    requires CursorRead(rows, after, hi, read, mid) && CursorRead(rows, mid, hi, more, next)
    ensures CursorRead(rows, after, hi, read + more, next)
  {
    hide Select, Ascending;
    SelectCut(rows, after + 1, mid, next);
  }

  /** One more row, fetched from any version of the table since the statement began. */
  lemma CursorAdvances(rows: seq<Row>, k: nat, after: int, hi: int, read: seq<Row>, next: int)
    requires Ascending(rows) && k <= |rows|
    requires CursorRead(rows, after, hi, read, next)
    requires Select(rows[..k], next + 1, hi) != []
    ensures var r := Select(rows[..k], next + 1, hi)[0];
            next < r.id <= hi && r in rows && CursorRead(rows, after, hi, read + [r], r.id)
  {
    hide Select, Ascending;
    var r := Select(rows[..k], next + 1, hi)[0];
    FetchLeavesNoGap(rows, k, next, hi);
    SelectCut(rows, after + 1, next, r.id);
  }

  /** What a cursor has read is the beginning of what there is to read; the rest lies beyond it. */
  lemma CursorIsPrefix(rows: seq<Row>, after: int, hi: int, read: seq<Row>, next: int)
    requires Ascending(rows) && CursorRead(rows, after, hi, read, next)
    ensures Select(rows, after + 1, hi) == read + Select(rows, next + 1, hi)
    ensures forall limit: nat :: |read| <= limit ==> read <= NextPage(rows, after, hi, limit)
  {
    hide Select, Ascending;
    if after <= hi {
      SelectCut(rows, after + 1, next, hi);
    } else {
      SelectEmptyRange(rows, after + 1, hi);
    }
  }

  /**
   A finished page leaves out nothing that was there when its SELECT began: it
   continues the page of the table at that time, and equals it when the rows
   still to come have not changed since.
   */
  lemma PageComplete(before: seq<Row>, rows: seq<Row>, seen: nat, after: int, hi: int, limit: nat,
                     page: seq<Row>, next: int)
    requires before <= rows && Ascending(rows) && |before| <= seen <= |rows|
    requires PageRead(rows, after, hi, limit, page, next)
    requires |page| == limit || Select(rows[..seen], next + 1, hi) == []
    ensures NextPage(before, after, hi, limit) <= page
    ensures Select(before, after + 1, hi) == Select(rows, after + 1, hi) ==> page == NextPage(before, after, hi, limit)
  {
    hide Ascending;
    CursorIsPrefix(rows, after, hi, page, next);
    SelectGrows(before, rows, after + 1, hi);
    if |page| < limit {
      assert before <= rows[..seen];
      SelectGrows(before, rows[..seen], next + 1, hi);
      NothingBeyond(before, rows, after, hi, page, next);
    }
  }

  /** An old version with nothing beyond the cursor has nothing the cursor has not read. */
  lemma NothingBeyond(before: seq<Row>, rows: seq<Row>, after: int, hi: int, page: seq<Row>, next: int)
    requires before <= rows && Ascending(rows) && CursorRead(rows, after, hi, page, next)
    requires Select(before, next + 1, hi) == []
    ensures Select(before, after + 1, hi) <= page
  {
    hide Select;
    assert Ascending(before);
    if after <= hi {
      SelectCut(before, after + 1, next, hi);
      SelectGrows(before, rows, after + 1, next);
    } else {
      SelectEmptyRange(before, after + 1, hi);
    }
  }

  lemma SelectEmptyRange(rows: seq<Row>, lo: int, hi: int)
    requires hi < lo
    ensures Select(rows, lo, hi) == []
  {
    SelectNothing(rows, lo, hi);
  }

  /**
   The final empty read: if some earlier version of the table, no older than the
   moment the cursor reached `next`, has nothing beyond it, then everything read
   is the whole selection of that version.
   */
  lemma CursorAtEnd(rows: seq<Row>, base: nat, seen: nat, after: int, hi: int, read: seq<Row>, next: int)
    requires Ascending(rows) && base <= seen <= |rows|
    requires CursorRead(rows[..base], after, hi, read, next)
    requires Select(rows[..seen], next + 1, hi) == []
    ensures Select(rows[..seen], after + 1, hi) == read
  {
    assert rows[..seen][..base] == rows[..base];
    CursorSurvives(rows[..base], rows[..seen], after, hi, read, next);
    CursorIsPrefix(rows[..seen], after, hi, read, next);
  }
}

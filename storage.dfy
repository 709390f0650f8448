/** The entry log (backend/utils/storage.py) over an in-memory copy of its one
    SQLite table `entries(id TEXT PRIMARY KEY, entry_type, dominant,
    timestamp DEFAULT CURRENT_TIMESTAMP)`. Rows are kept in rowid order; the
    clock that CURRENT_TIMESTAMP reads is an input, `now`, in whole seconds. */
module EntryStore {
  import opened Base
  import Ranking

  /** A dict handed to `save_entry`; `entry.get(k)` is `Get(entry, k)`. */
  type EntryDict = map<string, string>

  function Get(entry: EntryDict, k: string): Option<string>
  {
    if k in entry then Some(entry[k]) else None
  }

  /** One table row; `None` is SQL `NULL`. */
  datatype Row = Row(id: Option<string>, entryType: Option<string>, dominant: Option<string>, timestamp: int)

  /** One dict of `get_entries`: `{"id", "type", "dominant", "timestamp"}`;
      `kind` holds the value of the key "type". */
  datatype HistoryItem = HistoryItem(id: Option<string>, kind: Option<string>, dominant: Option<string>, timestamp: int)

  function View(r: Row): (h: HistoryItem)
    ensures h.id == r.id && h.kind == r.entryType && h.dominant == r.dominant
    ensures h.timestamp == r.timestamp
  {
    HistoryItem(r.id, r.entryType, r.dominant, r.timestamp)
  }

  function Timestamp(r: Row): real
  {
    r.timestamp as real
  }

  /** The PRIMARY KEY constraint. A TEXT primary key admits NULL, and NULLs
      never conflict with each other, so only non-NULL ids must be unique. */
  ghost predicate UniqueIds(rows: seq<Row>)
  {
    forall i, j :: 0 <= i < j < |rows| && rows[i].id.Some? ==> rows[i].id != rows[j].id
  }

  predicate HasId(rows: seq<Row>, id: string)
  {
    exists i :: 0 <= i < |rows| && rows[i].id == Some(id)
  }

  function CountId(rows: seq<Row>, id: string): nat
  {
    if rows == [] then 0
    else CountId(rows[..|rows| - 1], id) + (if rows[|rows| - 1].id == Some(id) then 1 else 0)
  }

  /** The rows whose id is not `id`, in their order. */
  function WithoutId(rows: seq<Row>, id: string): (r: seq<Row>)
    ensures |r| <= |rows|
    ensures forall x :: x in r ==> x in rows && x.id != Some(id)
    ensures forall x :: x in rows && x.id != Some(id) ==> x in r
    ensures !HasId(rows, id) ==> r == rows
  {
    if rows == [] then []
    else
      var last := rows[|rows| - 1];
      var init := rows[..|rows| - 1];
      assert !HasId(rows, id) ==> !HasId(init, id);
      WithoutId(init, id) + (if last.id == Some(id) then [] else [last])
  }

  /** The row `INSERT OR REPLACE INTO entries (id, entry_type, dominant)`
      writes: missing keys become NULL, the timestamp is the column default. */
  function RowOf(entry: EntryDict, now: int): (r: Row)
    ensures r.timestamp == now
    ensures "id" in entry ==> r.id == Some(entry["id"])
    ensures "type" in entry ==> r.entryType == Some(entry["type"])
    ensures "dominant" in entry ==> r.dominant == Some(entry["dominant"])
    ensures "id" !in entry ==> r.id.None?
    ensures "type" !in entry ==> r.entryType.None?
    ensures "dominant" !in entry ==> r.dominant.None?
  {
    Row(Get(entry, "id"), Get(entry, "type"), Get(entry, "dominant"), now)
  }

  /** `INSERT OR REPLACE`: a row with the same non-NULL id is deleted, then
      the new row is inserted with the next rowid. */
  function Upsert(rows: seq<Row>, row: Row): (r: seq<Row>)
    ensures r != [] && r[|r| - 1] == row
    ensures forall x :: x in r ==> x == row || x in rows
    ensures forall x :: x in rows && (row.id.None? || x.id != row.id) ==> x in r
    ensures row.id.Some? ==> forall i :: 0 <= i < |r| - 1 ==> r[i].id != row.id
  {
    if row.id.None? then rows + [row] else WithoutId(rows, row.id.value) + [row]
  }

  /** `SELECT ... ORDER BY timestamp DESC LIMIT limit`; a negative limit is no
      limit in SQLite. Rows of equal timestamp come in an order that SQLite
      does not promise; the model takes rowid order. */
  function Query(rows: seq<Row>, limit: int): (q: seq<HistoryItem>)
    ensures |q| == (if limit < 0 then |rows| else Min(limit, |rows|))
  {
    var n := if limit < 0 then |rows| else Min(limit, |rows|);
    Views(Ranking.TopK(rows, n, Timestamp))
  }

  /** One dict per fetched row, in the order fetched. */
  function Views(fetched: seq<Row>): (q: seq<HistoryItem>)
    ensures |q| == |fetched|
    ensures forall i :: 0 <= i < |q| ==> q[i] == View(fetched[i])
  {
    seq(|fetched|, i requires 0 <= i < |fetched| => View(fetched[i]))
  }

  lemma {:induction false} WithoutIdSubsequenceUnique(rows: seq<Row>, id: string)
    requires UniqueIds(rows)
    ensures UniqueIds(WithoutId(rows, id))
  {
    if rows != [] {
      var init, last := rows[..|rows| - 1], rows[|rows| - 1];
      assert UniqueIds(init);
      WithoutIdSubsequenceUnique(init, id);
      var w := WithoutId(init, id);
      if last.id != Some(id) {
        forall i | 0 <= i < |w| && w[i].id.Some?
          ensures w[i].id != last.id
        {
          assert w[i] in init;
          var k :| 0 <= k < |init| && init[k] == w[i];
        }
      }
    }
  }

  lemma {:induction false} CountWithout(rows: seq<Row>, id: string)
    ensures CountId(WithoutId(rows, id), id) == 0
  {
    if rows != [] {
      var init, last := rows[..|rows| - 1], rows[|rows| - 1];
      CountWithout(init, id);
      var w := WithoutId(init, id);
      if last.id != Some(id) {
        assert (w + [last])[..|w + [last]| - 1] == w;
      } else {
        assert w + [] == w;
      }
    }
  }

  lemma WithoutIdTwice(rows: seq<Row>, id: string)
    ensures WithoutId(WithoutId(rows, id), id) == WithoutId(rows, id)
  {
    var w := WithoutId(rows, id);
    forall i | 0 <= i < |w|
      ensures w[i].id != Some(id)
    {
      assert w[i] in w;
    }
  }

  /** After a save, the table keeps its key constraint, holds exactly one row
      with the saved id and that row is the new one (so a replacement carries
      the new timestamp), and the rows with other ids are the ones it had, in
      their order. */
  lemma UpsertFacts(rows: seq<Row>, entry: EntryDict, now: int)
    requires UniqueIds(rows)
    ensures var r := Upsert(rows, RowOf(entry, now));
            && UniqueIds(r)
            && r[|r| - 1] == RowOf(entry, now)
            && (Get(entry, "id").Some? ==>
                  var id := Get(entry, "id").value;
                  && CountId(r, id) == 1
                  && WithoutId(r, id) == WithoutId(rows, id))
            && (Get(entry, "id").None? ==> r == rows + [RowOf(entry, now)])
  {
    var row := RowOf(entry, now);
    var r := Upsert(rows, row);
    if row.id.Some? {
      var id := row.id.value;
      var w := WithoutId(rows, id);
      WithoutIdSubsequenceUnique(rows, id);
      forall i | 0 <= i < |w| && w[i].id.Some?
        ensures w[i].id != row.id
      {
        assert w[i] in w;
      }
      assert UniqueIds(r);
      CountWithout(rows, id);
      assert r[..|r| - 1] == w;
      WithoutIdTwice(rows, id);
      assert WithoutId(r, id) == WithoutId(w, id);
    } else {
      forall i | 0 <= i < |rows| && rows[i].id.Some?
        ensures rows[i].id != row.id
      {
      }
    }
  }

  /** With a fresh id the save only appends. */
  lemma UpsertFresh(rows: seq<Row>, entry: EntryDict, now: int)
    requires Get(entry, "id").Some? && !HasId(rows, Get(entry, "id").value)
    ensures Upsert(rows, RowOf(entry, now)) == rows + [RowOf(entry, now)]
  {
  }

  /** The answer of `get_entries(limit)`: at most `limit` rows (all of them
      for a negative limit), newest first, each one a row of the table
      mapped back with `entry_type` under "type", and no row left out is
      newer than a row returned. */
  lemma QueryFacts(rows: seq<Row>, limit: int)
    ensures var q := Query(rows, limit);
            && |q| == (if limit < 0 then |rows| else Min(limit, |rows|))
            && (forall i, j :: 0 <= i < j < |q| ==> q[i].timestamp >= q[j].timestamp)
            && (forall i :: 0 <= i < |q| ==> exists k :: 0 <= k < |rows| && q[i] == View(rows[k]))
    ensures var q := Query(rows, limit);
            exists fetched ::
              && q == Views(fetched)
              && multiset(fetched) <= multiset(rows)
              && forall x :: x in rows && multiset(fetched)[x] < multiset(rows)[x] ==>
                   forall i :: 0 <= i < |q| ==> q[i].timestamp >= x.timestamp
    ensures var q := Query(rows, limit);
            forall k :: 0 <= k < |rows| && View(rows[k]) !in q ==>
              forall i :: 0 <= i < |q| ==> q[i].timestamp >= rows[k].timestamp
  {
    QueryShape(rows, limit);
    QueryNewest(rows, limit);
  }

  lemma QueryShape(rows: seq<Row>, limit: int)
    ensures var q := Query(rows, limit);
            && |q| == (if limit < 0 then |rows| else Min(limit, |rows|))
            && (forall i, j :: 0 <= i < j < |q| ==> q[i].timestamp >= q[j].timestamp)
            && (forall i :: 0 <= i < |q| ==> exists k :: 0 <= k < |rows| && q[i] == View(rows[k]))
  {
    QueryOrdered(rows, limit);
    QueryFromRows(rows, limit);
  }

  lemma QueryOrdered(rows: seq<Row>, limit: int)
    ensures var q := Query(rows, limit);
            forall i, j :: 0 <= i < j < |q| ==> q[i].timestamp >= q[j].timestamp
  {
    var n := if limit < 0 then |rows| else Min(limit, |rows|);
    var top := Ranking.TopK(rows, n, Timestamp);
    var q := Query(rows, limit);
    forall i, j | 0 <= i < j < |q|
      ensures q[i].timestamp >= q[j].timestamp
    {
      assert Timestamp(top[i]) >= Timestamp(top[j]);
    }
  }

  lemma QueryFromRows(rows: seq<Row>, limit: int)
    ensures var q := Query(rows, limit);
            forall i :: 0 <= i < |q| ==> exists k :: 0 <= k < |rows| && q[i] == View(rows[k])
  {
    var n := if limit < 0 then |rows| else Min(limit, |rows|);
    var top := Ranking.TopK(rows, n, Timestamp);
    var q := Query(rows, limit);
    forall i | 0 <= i < |q|
      ensures exists k :: 0 <= k < |rows| && q[i] == View(rows[k])
    {
      assert top[i] in multiset(top);
      assert top[i] in rows;
      var k :| 0 <= k < |rows| && rows[k] == top[i];
    }
  }

  lemma QueryNewest(rows: seq<Row>, limit: int)
    ensures var q := Query(rows, limit);
            exists fetched ::
              && q == Views(fetched)
              && multiset(fetched) <= multiset(rows)
              && forall x :: x in rows && multiset(fetched)[x] < multiset(rows)[x] ==>
                   forall i :: 0 <= i < |q| ==> q[i].timestamp >= x.timestamp
    ensures var q := Query(rows, limit);
            forall k :: 0 <= k < |rows| && View(rows[k]) !in q ==>
              forall i :: 0 <= i < |q| ==> q[i].timestamp >= rows[k].timestamp
  {
    var n := if limit < 0 then |rows| else Min(limit, |rows|);
    var top := Ranking.TopK(rows, n, Timestamp);
    var q := Query(rows, limit);
    LeftOutNotNewer(rows, n);
    assert q == Views(top);
    forall x, i | x in rows && multiset(top)[x] < multiset(rows)[x] && 0 <= i < |q|
      ensures q[i].timestamp >= x.timestamp
    {
      assert q[i].timestamp == top[i].timestamp;
    }
    LeftOutViewsNotNewer(rows, top, q);
  }

  /** A row the top-n selection by timestamp leaves out (or keeps fewer
      copies of) is no newer than any row it keeps. */
  lemma LeftOutNotNewer(rows: seq<Row>, n: nat)
    ensures var top := Ranking.TopK(rows, n, Timestamp);
            forall x :: x in rows && multiset(top)[x] < multiset(rows)[x] ==>
              forall i :: 0 <= i < |top| ==> top[i].timestamp >= x.timestamp
  {
    var top := Ranking.TopK(rows, n, Timestamp);
    forall x, i | x in rows && multiset(top)[x] < multiset(rows)[x] && 0 <= i < |top|
      ensures top[i].timestamp >= x.timestamp
    {
      assert Timestamp(top[i]) >= Timestamp(x);
    }
  }

  /** The same fact read on the dicts: a row whose dict is not in the answer
      is no newer than any answer. */
  lemma LeftOutViewsNotNewer(rows: seq<Row>, top: seq<Row>, q: seq<HistoryItem>)
    requires q == Views(top)
    requires forall x :: x in rows && multiset(top)[x] < multiset(rows)[x] ==>
               forall i :: 0 <= i < |top| ==> top[i].timestamp >= x.timestamp
    ensures forall k :: 0 <= k < |rows| && View(rows[k]) !in q ==>
              forall i :: 0 <= i < |q| ==> q[i].timestamp >= rows[k].timestamp
  {
    forall k, i | 0 <= k < |rows| && View(rows[k]) !in q && 0 <= i < |q|
      ensures q[i].timestamp >= rows[k].timestamp
    {
      forall j | 0 <= j < |top|
        ensures top[j] != rows[k]
      {
        assert q[j] in q;
      }
      assert multiset(top)[rows[k]] == 0;
      assert rows[k] in rows;
      assert q[i].timestamp == top[i].timestamp;
    }
  }

  /** The last row is strictly newer than all the others. */
  ghost predicate NewestLast(rows: seq<Row>)
  {
    rows != [] && forall k :: 0 <= k < |rows| - 1 ==> rows[k].timestamp < rows[|rows| - 1].timestamp
  }

  /** The first of a top-n selection by timestamp is the strictly newest row. */
  lemma TopStartsWithNewest(rows: seq<Row>, n: nat)
    requires NewestLast(rows) && n >= 1
    ensures var top := Ranking.TopK(rows, n, Timestamp);
            top != [] && top[0] == rows[|rows| - 1]
  {
    var newest := rows[|rows| - 1];
    forall y | y in rows && y != newest
      ensures Timestamp(y) < Timestamp(newest)
    {
      var k :| 0 <= k < |rows| && rows[k] == y;
    }
    Ranking.TopKStartsWithStrictMax(rows, n, Timestamp, newest);
  }

  /** A row that is newer than every other becomes the first answer. */
  lemma NewestFirst(rows: seq<Row>, limit: int)
    requires limit != 0 && NewestLast(rows)
    ensures Query(rows, limit) != [] && Query(rows, limit)[0] == View(rows[|rows| - 1])
  {
    var n := if limit < 0 then |rows| else Min(limit, |rows|);
    TopStartsWithNewest(rows, n);
  }

  /** `save_entry` followed by `get_entries(1)` at a later instant gives the
      saved id, type and dominant label back, with the save's timestamp. */
  lemma SaveThenLatest(rows: seq<Row>, entry: EntryDict, now: int)
    requires forall k :: 0 <= k < |rows| ==> rows[k].timestamp < now
    ensures Query(Upsert(rows, RowOf(entry, now)), 1) ==
            [HistoryItem(Get(entry, "id"), Get(entry, "type"), Get(entry, "dominant"), now)]
  {
    var row := RowOf(entry, now);
    var r := Upsert(rows, row);
    assert NewestLast(r) by {
      forall k | 0 <= k < |r| - 1
        ensures r[k].timestamp < r[|r| - 1].timestamp
      {
        assert r[k] != row by {
          if row.id.None? {
            assert r[k] == rows[k];
          }
        }
        assert r[k] in r;
      }
    }
    NewestFirst(r, 1);
  }

  /** The clock has whole seconds, so a second save in the same second ties
      with the first one on the timestamp. `ORDER BY timestamp` leaves the
      order of tied rows to SQLite, so either row may come back; in the
      model's rowid order `get_entries(1)` returns the older row, not the one
      just saved. */
  lemma SameSecondTie(a: Row, b: Row)
    requires a.id.Some? && b.id.Some? && a.id != b.id && a.timestamp == b.timestamp
    ensures Query(Upsert([a], b), 1) == [View(a)]
  {
    assert WithoutId([a], b.id.value) == [a] by {
      assert [a][..0] == [];
    }
    assert Upsert([a], b) == [a, b];
    Ranking.TopOfTwoTied(a, b, Timestamp);
  }

  class Storage {
    var rows: seq<Row>

    ghost predicate Valid()
      reads this
    {
      UniqueIds(rows)
    }

    /** `__init__`: `CREATE TABLE IF NOT EXISTS` keeps whatever the database
        file already holds. */
    constructor (existing: seq<Row>)
      requires UniqueIds(existing)
      ensures Valid() && rows == existing
    {
      rows := existing;
    }

    /** `save_entry(entry)`; `fault` is the error the database raises, if
        any, in which case nothing is written. */
    method SaveEntry(entry: EntryDict, now: int, fault: Option<string>) returns (r: Outcome<()>)
      requires Valid()
      modifies this
      ensures Valid()
      ensures fault.Some? ==> r == Raised(fault.value) && rows == old(rows)
      ensures fault.None? ==> r == Ok(()) && rows == Upsert(old(rows), RowOf(entry, now))
    {
      if fault.Some? {
        return Raised(fault.value);
      }
      UpsertFacts(rows, entry, now);
      rows := Upsert(rows, RowOf(entry, now));
      r := Ok(());
    }

    /** `get_entries(limit)`: fetches the ordered rows and builds one dict per
        row; the table is only read. */
    method GetEntries(limit: int) returns (items: seq<HistoryItem>)
      ensures items == Query(rows, limit)
      ensures |items| == (if limit < 0 then |rows| else Min(limit, |rows|))
      ensures forall i, j :: 0 <= i < j < |items| ==> items[i].timestamp >= items[j].timestamp
    {
      var n := if limit < 0 then |rows| else Min(limit, |rows|);
      var fetched := Ranking.TopK(rows, n, Timestamp);
      items := [];
      var i := 0;
      while i < |fetched|
        invariant 0 <= i <= |fetched|
        invariant items == seq(i, k requires 0 <= k < i => View(fetched[k]))
      {
        items := items + [View(fetched[i])];
        i := i + 1;
      }
      QueryFacts(rows, limit);
    }
  }
}

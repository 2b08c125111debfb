/**
 * In-memory tables for the service layer.  A table is its rows in insertion
 * order; the autoincrement primary key and the `created_at` stamp both grow
 * with every insert, so insertion order is also id order and time order.
 * The queries of the repositories are filters, lookups and "newest first, at
 * most n" over these sequences.
 */
module Tables {
  import opened Wrappers
  import opened Seqs

  /** A row: its primary key, its creation instant, and its other columns. */
  datatype Row<T> = Row(id: nat, createdAt: nat, fields: T)

  /** Row `a` was inserted before row `b`. */
  predicate Before<T>(a: Row<T>, b: Row<T>) {
    a.id < b.id && a.createdAt < b.createdAt
  }

  /**
   * Ids and creation instants strictly increase along the table, every id is
   * below the next one to hand out and every row was created in the past.
   */
  ghost predicate WellFormed<T>(rows: seq<Row<T>>, nextId: nat, clock: nat) {
    && Pairwise(Before, rows)
    && forall r | r in rows :: r.id < nextId && r.createdAt < clock
  }

  ghost predicate HasId<T>(rows: seq<Row<T>>, id: int) {
    exists r | r in rows :: r.id == id
  }

  /** `session.get(Model, id)`. */
  function Find<T>(rows: seq<Row<T>>, id: int): (r: Option<Row<T>>)
    ensures r.None? <==> !HasId(rows, id)
    ensures r.Some? ==> r.value in rows && r.value.id == id
  {
    if rows == [] then None
    else if rows[0].id == id then Some(rows[0])
    else
      assert forall x | x in rows[1..] :: x in rows;
      assert rows == [rows[0]] + rows[1..];
      Find(rows[1..], id)
  }

  /** In a well-formed table a row is found by its own id. */
  lemma FindOwnId<T>(rows: seq<Row<T>>, nextId: nat, clock: nat, r: Row<T>)
    requires WellFormed(rows, nextId, clock) && r in rows
    ensures Find(rows, r.id) == Some(r)
  {
    var x := Find(rows, r.id).value;
    var i :| 0 <= i < |rows| && rows[i] == x;
    var j :| 0 <= j < |rows| && rows[j] == r;
    assert i < j ==> Before(rows[i], rows[j]);
    assert j < i ==> Before(rows[j], rows[i]);
  }

  /** `select(...).where(p).first()`: the earliest inserted row satisfying `p`. */
  function First<T>(rows: seq<Row<T>>, p: Row<T> -> bool): (r: Option<Row<T>>)
    ensures r.None? <==> forall x | x in rows :: !p(x)
    ensures r.Some? ==> r.value in rows && p(r.value)
  {
    if rows == [] then None
    else if p(rows[0]) then Some(rows[0])
    else
      assert forall x | x in rows[1..] :: x in rows;
      assert rows == [rows[0]] + rows[1..];
      First(rows[1..], p)
  }

  /** `session.add(row); session.commit()` for a new row: it gets the next id and the current instant. */
  function Insert<T>(rows: seq<Row<T>>, nextId: nat, now: nat, fields: T): (r: seq<Row<T>>)
    ensures r == rows + [Row(nextId, now, fields)]
  {
    rows + [Row(nextId, now, fields)]
  }

  lemma InsertKeepsWellFormed<T>(rows: seq<Row<T>>, nextId: nat, clock: nat, fields: T, clock': nat)
    requires WellFormed(rows, nextId, clock) && clock < clock'
    ensures WellFormed(Insert(rows, nextId, clock, fields), nextId + 1, clock')
  {
    PairwiseAppend(Before, rows, Row(nextId, clock, fields));
  }

  /** Time moving on keeps a table well formed. */
  lemma LaterKeepsWellFormed<T>(rows: seq<Row<T>>, nextId: nat, clock: nat, clock': nat)
    requires WellFormed(rows, nextId, clock) && clock <= clock'
    ensures WellFormed(rows, nextId, clock')
  {
  }

  /** `session.delete(row)`: every row with that id goes. */
  function Remove<T>(rows: seq<Row<T>>, id: int): (r: seq<Row<T>>)
    ensures !HasId(r, id)
    ensures forall x | x in rows :: x in r <==> x.id != id
    ensures forall x | x in r :: x in rows
    ensures |r| <= |rows|
  {
    Filter((x: Row<T>) => x.id != id, rows)
  }

  lemma RemoveKeepsWellFormed<T>(rows: seq<Row<T>>, nextId: nat, clock: nat, id: int)
    requires WellFormed(rows, nextId, clock)
    ensures WellFormed(Remove(rows, id), nextId, clock)
  {
    FilterKeepsPairwise((x: Row<T>) => x.id != id, Before, rows);
  }

  /** An update flushed for the row with that id: its columns change, its key and creation instant stay. */
  function Replace<T>(rows: seq<Row<T>>, id: int, fields: T): (r: seq<Row<T>>)
    ensures |r| == |rows|
    ensures forall i | 0 <= i < |rows| ::
      r[i] == (if rows[i].id == id then rows[i].(fields := fields) else rows[i])
  {
    seq(|rows|, i requires 0 <= i < |rows| => if rows[i].id == id then rows[i].(fields := fields) else rows[i])
  }

  lemma ReplaceKeepsWellFormed<T>(rows: seq<Row<T>>, nextId: nat, clock: nat, id: int, fields: T)
    requires WellFormed(rows, nextId, clock)
    ensures WellFormed(Replace(rows, id, fields), nextId, clock)
  {
    var r := Replace(rows, id, fields);
    assert forall i | 0 <= i < |rows| :: r[i].id == rows[i].id && r[i].createdAt == rows[i].createdAt;
    forall i, j | 0 <= i < j < |r|
      ensures Before(r[i], r[j])
    {
      assert Before(rows[i], rows[j]);
    }
    forall x | x in r
      ensures x.id < nextId && x.createdAt < clock
    {
      var i :| 0 <= i < |r| && r[i] == x;
      assert rows[i] in rows;
    }
  }

  /** After replacing, the row with that id carries the new columns and keeps its creation instant. */
  lemma FindAfterReplace<T>(rows: seq<Row<T>>, nextId: nat, clock: nat, id: int, fields: T)
    requires WellFormed(rows, nextId, clock) && HasId(rows, id)
    ensures Find(Replace(rows, id, fields), id) == Some(Find(rows, id).value.(fields := fields))
  {
    var old_ := Find(rows, id).value;
    var i :| 0 <= i < |rows| && rows[i] == old_;
    var r := Replace(rows, id, fields);
    ReplaceKeepsWellFormed(rows, nextId, clock, id, fields);
    assert r[i] in r;
    FindOwnId(r, nextId, clock, r[i]);
  }

  /** The rows satisfying `p`, newest first, at most `limit` of them (`order_by(desc(created_at)).limit(n)`). */
  function Newest<T>(rows: seq<Row<T>>, p: Row<T> -> bool, limit: nat): (r: seq<Row<T>>)
    ensures |r| == if |Filter(p, rows)| <= limit then |Filter(p, rows)| else limit
    ensures forall i | 0 <= i < |r| :: r[i] == Filter(p, rows)[|Filter(p, rows)| - 1 - i]
    ensures forall x | x in r :: x in rows && p(x)
  {
    var f := Filter(p, rows);
    var all := Reverse(f);
    var r := Take(all, limit);
    forall i | 0 <= i < |r|
      ensures r[i] == f[|f| - 1 - i]
    {
      assert r[i] == all[i];
    }
    forall x | x in r
      ensures x in rows && p(x)
    {
      var i :| 0 <= i < |r| && r[i] == x;
      assert f[|f| - 1 - i] in f;
    }
    r
  }

  /** Each row was created after the rows that follow it. */
  ghost predicate NewestFirst<T>(r: seq<Row<T>>) {
    forall i, j | 0 <= i < j < |r| :: r[j].createdAt < r[i].createdAt
  }

  /** In a well-formed table `Newest` is ordered newest first. */
  lemma NewestIsOrdered<T>(rows: seq<Row<T>>, nextId: nat, clock: nat, p: Row<T> -> bool, limit: nat)
    requires WellFormed(rows, nextId, clock)
    ensures NewestFirst(Newest(rows, p, limit))
  {
    var f := Filter(p, rows);
    FilterKeepsPairwise(p, Before, rows);
    var r := Newest(rows, p, limit);
    forall i, j | 0 <= i < j < |r|
      ensures r[j].createdAt < r[i].createdAt
    {
      assert Before(f[|f| - 1 - j], f[|f| - 1 - i]);
    }
  }

  /** In a well-formed table every matching row `Newest` leaves out is older than every row it returns. */
  lemma NewestLeavesOutOlder<T>(rows: seq<Row<T>>, nextId: nat, clock: nat, p: Row<T> -> bool, limit: nat)
    requires WellFormed(rows, nextId, clock)
    ensures var r := Newest(rows, p, limit);
      forall x, y | x in rows && p(x) && x !in r && y in r :: x.createdAt < y.createdAt
  {
    var f := Filter(p, rows);
    FilterKeepsPairwise(p, Before, rows);
    var r := Newest(rows, p, limit);
    forall j | |f| - |r| <= j < |f|
      ensures f[j] in r
    {
      assert r[|f| - 1 - j] == f[j];
    }
    forall x, y | x in rows && p(x) && x !in r && y in r
      ensures x.createdAt < y.createdAt
    {
      assert x in f;
      var a :| 0 <= a < |f| && f[a] == x;
      var b :| 0 <= b < |r| && r[b] == y;
      // Had x been among the last |r| matching rows it would have been returned.
      assert a < |f| - |r|;
      assert Before(f[a], f[|f| - 1 - b]);
    }
  }

  /** The row satisfying `p` with the greatest creation instant (`order_by(desc(created_at)).first()`). */
  function Latest<T>(rows: seq<Row<T>>, p: Row<T> -> bool): (r: Option<Row<T>>)
    ensures r.None? <==> forall x | x in rows :: !p(x)
    ensures r.Some? ==> r.value in rows && p(r.value)
  {
    var n := Newest(rows, p, 1);
    if n == [] then
      assert forall x | x in rows && p(x) :: x in Filter(p, rows);
      None
    else
      assert n[0] in n;
      Some(n[0])
  }

  /** In a well-formed table the latest matching row is newer than every other matching row. */
  lemma LatestIsNewest<T>(rows: seq<Row<T>>, nextId: nat, clock: nat, p: Row<T> -> bool)
    requires WellFormed(rows, nextId, clock)
    ensures Latest(rows, p).Some? ==>
      forall x | x in rows && p(x) && x != Latest(rows, p).value :: x.createdAt < Latest(rows, p).value.createdAt
  {
    NewestLeavesOutOlder(rows, nextId, clock, p, 1);
  }
}

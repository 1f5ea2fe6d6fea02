/** The generic repository every store of the service goes through
    (BaseSqlalchemyRepo): one table of rows, each with the primary key the
    database assigned from its autoincrement counter. A filter is the
    conjunction of column equalities the caller passed as keyword arguments,
    given here as a predicate on a row; the named filters of the services
    (ById here, ByEmail, ByUserAndJti, ... next to their tables) are exactly
    such conjunctions. */
module Repo {
  import opened Exceptions

  datatype Entry<R> = Entry(id: nat, data: R)

  /** The abstract value of a table: its rows and the next value of its
      autoincrement counter. */
  datatype TableState<R> = TableState(rows: seq<Entry<R>>, nextId: nat)

  type Filter<!R> = Entry<R> -> bool

  /** filter_by(id=id). */
  function ById<R>(id: int): Filter<R>
  {
    (e: Entry<R>) => e.id == id
  }

  /** filter_by() with no arguments: every row. */
  function Everything<R>(): Filter<R>
  {
    (e: Entry<R>) => true
  }

  /** The rows a filter selects, in table order. */
  function Matching<R>(rows: seq<Entry<R>>, p: Filter<R>): seq<Entry<R>>
  {
    if rows == [] then []
    else Matching(rows[..|rows| - 1], p) + (if p(rows[|rows| - 1]) then [rows[|rows| - 1]] else [])
  }

  /** The rows a filter does not select, in table order. */
  function Kept<R>(rows: seq<Entry<R>>, p: Filter<R>): seq<Entry<R>>
  {
    if rows == [] then []
    else Kept(rows[..|rows| - 1], p) + (if p(rows[|rows| - 1]) then [] else [rows[|rows| - 1]])
  }

  /** The rows after `UPDATE ... SET ... WHERE p`: assign gives the new column
      values of a selected row; its key stays. */
  function UpdatedRows<R>(rows: seq<Entry<R>>, p: Filter<R>, assign: R -> R): seq<Entry<R>>
  {
    seq(|rows|, i requires 0 <= i < |rows| => if p(rows[i]) then Entry(rows[i].id, assign(rows[i].data)) else rows[i])
  }

  /** scalar_one_or_none(): nothing, the one row, or an error for several. */
  function OneOrNone<R>(found: seq<Entry<R>>): Result<Option<Entry<R>>>
  {
    if |found| == 0 then Ok(None)
    else if |found| == 1 then Ok(Some(found[0]))
    else Err(MultipleResultsFound)
  }

  /** No two rows share a key. */
  ghost predicate UniqueBy<R, K>(rows: seq<Entry<R>>, key: Entry<R> -> K)
  {
    forall i, j :: 0 <= i < j < |rows| ==> key(rows[i]) != key(rows[j])
  }

  function IdOf<R>(e: Entry<R>): int
  {
    e.id
  }

  /** The primary key is unique and below the autoincrement counter. */
  ghost predicate WellFormed<R>(t: TableState<R>)
  {
    && UniqueBy(t.rows, IdOf)
    && forall i :: 0 <= i < |t.rows| ==> t.rows[i].id < t.nextId
  }

  /** The table after create(data): one more row, keyed by the counter. */
  function Inserted<R>(t: TableState<R>, data: R): (u: TableState<R>)
  {
    TableState(t.rows + [Entry(t.nextId, data)], t.nextId + 1)
  }

  /** What find_single(**filters) returns. */
  function Find<R>(t: TableState<R>, p: Filter<R>): Result<Option<Entry<R>>>
  {
    OneOrNone(Matching(t.rows, p))
  }

  /** The table after delete(**filters). */
  function Deleted<R>(t: TableState<R>, p: Filter<R>): TableState<R>
  {
    TableState(Kept(t.rows, p), t.nextId)
  }

  /** The table after update(data, **filters). */
  function Updated<R>(t: TableState<R>, p: Filter<R>, assign: R -> R): TableState<R>
  {
    TableState(UpdatedRows(t.rows, p, assign), t.nextId)
  }

  /** What update(data, **filters) returns: None when no row was selected,
      the row re-read by its key when one was, and the error of
      scalar_one_or_none when several were (their update has been issued). */
  function UpdateResult<R>(t: TableState<R>, p: Filter<R>, assign: R -> R): Result<Option<Entry<R>>>
  {
    var selected := Matching(t.rows, p);
    if |selected| == 0 then Ok(None)
    else if |selected| > 1 then Err(MultipleResultsFound)
    else Find(Updated(t, p, assign), ById(selected[0].id))
  }

  // ---------------------------------------------------------------------
  // What the queries mean

  lemma {:induction false} MatchingMembers<R>(rows: seq<Entry<R>>, p: Filter<R>)
    ensures forall e :: e in Matching(rows, p) <==> e in rows && p(e)
  {
    if rows != [] {
      var init := rows[..|rows| - 1];
      MatchingMembers(init, p);
      assert rows == init + [rows[|rows| - 1]];
    }
  }

  lemma {:induction false} KeptMembers<R>(rows: seq<Entry<R>>, p: Filter<R>)
    ensures forall e :: e in Kept(rows, p) <==> e in rows && !p(e)
  {
    if rows != [] {
      var init := rows[..|rows| - 1];
      KeptMembers(init, p);
      assert rows == init + [rows[|rows| - 1]];
    }
  }

  /** The position in the table of a selected row. */
  lemma MatchingSource<R>(rows: seq<Entry<R>>, p: Filter<R>, x: Entry<R>) returns (i: nat)
    requires x in Matching(rows, p)
    ensures i < |rows| && rows[i] == x && p(x)
  {
    MatchingMembers(rows, p);
    assert x in rows;
    i :| 0 <= i < |rows| && rows[i] == x;
  }

  /** The position in the table of a kept row. */
  lemma KeptSource<R>(rows: seq<Entry<R>>, p: Filter<R>, x: Entry<R>) returns (i: nat)
    requires x in Kept(rows, p)
    ensures i < |rows| && rows[i] == x && !p(x)
  {
    KeptMembers(rows, p);
    assert x in rows;
    i :| 0 <= i < |rows| && rows[i] == x;
  }

  /** Every row is either selected or kept. */
  lemma {:induction false} MatchingKeptPartition<R>(rows: seq<Entry<R>>, p: Filter<R>)
    ensures |Matching(rows, p)| + |Kept(rows, p)| == |rows|
  {
    if rows != [] {
      MatchingKeptPartition(rows[..|rows| - 1], p);
    }
  }

  /** A filter that selects nothing deletes nothing. */
  lemma {:induction false} KeptWhenNoneMatch<R>(rows: seq<Entry<R>>, p: Filter<R>)
    requires forall i :: 0 <= i < |rows| ==> !p(rows[i])
    ensures Kept(rows, p) == rows
    ensures Matching(rows, p) == []
  {
    if rows != [] {
      KeptWhenNoneMatch(rows[..|rows| - 1], p);
      assert rows == rows[..|rows| - 1] + [rows[|rows| - 1]];
    }
  }

  /** find_single returns None exactly when no row matches. */
  lemma FindNone<R>(t: TableState<R>, p: Filter<R>)
    ensures Find(t, p) == Ok(None) <==> forall i :: 0 <= i < |t.rows| ==> !p(t.rows[i])
  {
    if forall i :: 0 <= i < |t.rows| ==> !p(t.rows[i]) {
      KeptWhenNoneMatch(t.rows, p);
    } else {
      var i :| 0 <= i < |t.rows| && p(t.rows[i]);
      MatchingMembers(t.rows, p);
      assert t.rows[i] in Matching(t.rows, p);
    }
  }

  /** What find_single returns is a row of the table that the filter selects. */
  lemma FindSome<R>(t: TableState<R>, p: Filter<R>)
    ensures Find(t, p).Ok? && Find(t, p).value.Some? ==>
      Find(t, p).value.value in t.rows && p(Find(t, p).value.value)
  {
    var m := Matching(t.rows, p);
    if |m| == 1 {
      assert m[0] in m;
      var i := MatchingSource(t.rows, p, m[0]);
    }
  }

  /** delete() with no filters empties the table. */
  lemma {:induction false} DeleteEverything<R>(rows: seq<Entry<R>>)
    ensures Kept(rows, Everything()) == []
  {
    if rows != [] {
      DeleteEverything(rows[..|rows| - 1]);
    }
  }

  /** Deleting keeps a unique key unique. */
  lemma {:induction false} KeptUnique<R, K>(rows: seq<Entry<R>>, p: Filter<R>, key: Entry<R> -> K)
    requires UniqueBy(rows, key)
    ensures UniqueBy(Kept(rows, p), key)
  {
    if rows != [] {
      var init := rows[..|rows| - 1];
      var last := rows[|rows| - 1];
      assert UniqueBy(init, key) by {
        forall i, j | 0 <= i < j < |init| ensures key(init[i]) != key(init[j]) {
          assert init[i] == rows[i] && init[j] == rows[j];
        }
      }
      KeptUnique(init, p, key);
      var k := Kept(init, p);
      if !p(last) {
        forall x | x in k ensures key(x) != key(last) {
          var i := KeptSource(init, p, x);
          assert rows[i] == x;
        }
        var r := k + [last];
        forall i, j | 0 <= i < j < |r| ensures key(r[i]) != key(r[j]) {
          if j < |k| {
            assert r[i] == k[i] && r[j] == k[j];
          } else {
            assert r[i] == k[i] && r[i] in k;
          }
        }
      }
    }
  }

  /** Deleting keeps a table well formed. */
  lemma DeletedWellFormed<R>(t: TableState<R>, p: Filter<R>)
    requires WellFormed(t)
    ensures WellFormed(Deleted(t, p))
  {
    KeptUnique(t.rows, p, IdOf);
    var k := Kept(t.rows, p);
    forall i | 0 <= i < |k| ensures k[i].id < t.nextId {
      assert k[i] in k;
      var j := KeptSource(t.rows, p, k[i]);
    }
  }

  /** Inserting a row whose key is fresh keeps a unique key unique. */
  lemma InsertedUnique<R, K>(t: TableState<R>, data: R, key: Entry<R> -> K)
    requires UniqueBy(t.rows, key)
    requires forall i :: 0 <= i < |t.rows| ==> key(t.rows[i]) != key(Entry(t.nextId, data))
    ensures UniqueBy(Inserted(t, data).rows, key)
  {
    var r := Inserted(t, data).rows;
    forall i, j | 0 <= i < j < |r| ensures key(r[i]) != key(r[j]) {
      assert r[i] == t.rows[i];
      if j < |t.rows| { assert r[j] == t.rows[j]; }
    }
  }

  /** create() keeps a table well formed. */
  lemma InsertedWellFormed<R>(t: TableState<R>, data: R)
    requires WellFormed(t)
    ensures WellFormed(Inserted(t, data))
  {
    InsertedUnique(t, data, IdOf);
  }

  /** An update keeps every key, and a unique key stays unique when assign does
      not change it. */
  lemma UpdatedUnique<R, K>(t: TableState<R>, p: Filter<R>, assign: R -> R, key: Entry<R> -> K)
    requires UniqueBy(t.rows, key)
    requires forall i :: 0 <= i < |t.rows| ==> key(Entry(t.rows[i].id, assign(t.rows[i].data))) == key(t.rows[i])
    ensures UniqueBy(Updated(t, p, assign).rows, key)
  {
    var r := Updated(t, p, assign).rows;
    forall i, j | 0 <= i < j < |r| ensures key(r[i]) != key(r[j]) {
      assert key(r[i]) == key(t.rows[i]) && key(r[j]) == key(t.rows[j]);
    }
  }

  /** update() keeps a table well formed. */
  lemma UpdatedWellFormed<R>(t: TableState<R>, p: Filter<R>, assign: R -> R)
    requires WellFormed(t)
    ensures WellFormed(Updated(t, p, assign))
  {
    UpdatedUnique(t, p, assign, IdOf);
  }

  /** With a unique key, a filter on that key selects at most one row, so
      find_single never raises and returns the row holding the key. */
  lemma FindByUniqueKey<R, K>(t: TableState<R>, key: Entry<R> -> K, k: K, p: Filter<R>)
    requires UniqueBy(t.rows, key)
    requires forall e :: p(e) ==> key(e) == k
    ensures Find(t, p).Ok?
    ensures Find(t, p).value.Some? <==> exists i :: 0 <= i < |t.rows| && p(t.rows[i])
    ensures Find(t, p).value.Some? ==> Find(t, p).value.value in t.rows && p(Find(t, p).value.value)
  {
    AtMostOneMatch(t.rows, key, k, p);
    MatchingMembers(t.rows, p);
    var m := Matching(t.rows, p);
    if exists i :: 0 <= i < |t.rows| && p(t.rows[i]) {
      var i :| 0 <= i < |t.rows| && p(t.rows[i]);
      assert t.rows[i] in m;
    } else if m != [] {
      assert m[0] in m;
      var i := MatchingSource(t.rows, p, m[0]);
    }
  }

  lemma {:induction false} AtMostOneMatch<R, K>(rows: seq<Entry<R>>, key: Entry<R> -> K, k: K, p: Filter<R>)
    requires UniqueBy(rows, key)
    requires forall e :: p(e) ==> key(e) == k
    ensures |Matching(rows, p)| <= 1
  {
    if rows != [] {
      var init := rows[..|rows| - 1];
      var last := rows[|rows| - 1];
      assert UniqueBy(init, key) by {
        forall i, j | 0 <= i < j < |init| ensures key(init[i]) != key(init[j]) {
          assert init[i] == rows[i] && init[j] == rows[j];
        }
      }
      AtMostOneMatch(init, key, k, p);
      if p(last) && |Matching(init, p)| == 1 {
        var x := Matching(init, p)[0];
        assert x in Matching(init, p);
        var i := MatchingSource(init, p, x);
        assert false;
      }
    }
  }

  /** In a well-formed table, find_single(id=id) returns the row with that
      key, or None when there is none. */
  lemma FindById<R>(t: TableState<R>, id: int)
    requires WellFormed(t)
    ensures Find(t, ById(id)).Ok?
    ensures forall e :: Find(t, ById(id)).value == Some(e) <==> e in t.rows && e.id == id
  {
    FindByUniqueKey(t, IdOf, id, ById(id));
  }

  /** Two rows of a table holding one unique key value are the same row. */
  lemma UniqueKeyedRow<R, K>(rows: seq<Entry<R>>, key: Entry<R> -> K, x: Entry<R>, y: Entry<R>)
    requires UniqueBy(rows, key) && x in rows && y in rows && key(x) == key(y)
    ensures x == y
  {
    var i :| 0 <= i < |rows| && rows[i] == x;
    var j :| 0 <= j < |rows| && rows[j] == y;
  }

  /** In a well-formed table, delete(id=k) of the key k of a row removes that
      row and keeps every other one, in order. */
  lemma DeleteById<R>(t: TableState<R>, i: nat)
    requires WellFormed(t) && i < |t.rows|
    ensures forall x :: x in Deleted(t, ById(t.rows[i].id)).rows <==> x in t.rows && x != t.rows[i]
    ensures t.rows[i] !in Deleted(t, ById(t.rows[i].id)).rows
  {
    var p: Filter<R> := ById(t.rows[i].id);
    var k := Kept(t.rows, p);
    forall x ensures x in k <==> x in t.rows && x != t.rows[i] {
      if x in k {
        var j := KeptSource(t.rows, p, x);
      }
      if x in t.rows && x != t.rows[i] {
        var j :| 0 <= j < |t.rows| && t.rows[j] == x;
        assert j != i;
        assert x.id != t.rows[i].id by {
          if j < i { assert IdOf(t.rows[j]) != IdOf(t.rows[i]); }
          else { assert IdOf(t.rows[i]) != IdOf(t.rows[j]); }
        }
        KeptMembers(t.rows, p);
      }
    }
  }

  /** With a unique key, no row holding the key of a deleted row is left. */
  lemma KeyGoneAfterDelete<R, K>(t: TableState<R>, key: Entry<R> -> K, i: nat)
    requires WellFormed(t) && UniqueBy(t.rows, key) && i < |t.rows|
    ensures forall x :: x in Deleted(t, ById(t.rows[i].id)).rows ==> key(x) != key(t.rows[i])
  {
    forall x | x in Deleted(t, ById(t.rows[i].id)).rows ensures key(x) != key(t.rows[i]) {
      var j := KeptSource(t.rows, ById(t.rows[i].id), x);
      if key(x) == key(t.rows[i]) {
        UniqueKeyedRow(t.rows, key, x, t.rows[i]);
      }
    }
  }

  /** In a well-formed table, update(id=id) sets the columns of that one row,
      and returns it as updated, or None when there is no such row. */
  lemma UpdateById<R>(t: TableState<R>, id: int, assign: R -> R)
    requires WellFormed(t)
    ensures forall i :: 0 <= i < |t.rows| && t.rows[i].id == id ==>
      UpdateResult(t, ById(id), assign) == Ok(Some(Entry(t.rows[i].id, assign(t.rows[i].data))))
    ensures (forall i :: 0 <= i < |t.rows| ==> t.rows[i].id != id) ==> UpdateResult(t, ById(id), assign) == Ok(None)
  {
    FindByUniqueKey(t, IdOf, id, ById(id));
    MatchingMembers(t.rows, ById(id));
    AtMostOneMatch(t.rows, IdOf, id, ById(id));
    UpdatedWellFormed(t, ById(id), assign);
    var u := Updated(t, ById(id), assign);
    forall i | 0 <= i < |t.rows| && t.rows[i].id == id
      ensures UpdateResult(t, ById(id), assign) == Ok(Some(Entry(t.rows[i].id, assign(t.rows[i].data))))
    {
      var m := Matching(t.rows, ById(id));
      assert t.rows[i] in m;
      assert m[0] in m;
      var j := MatchingSource(t.rows, ById(id), m[0]);
      assert j == i;
      FindById(u, id);
      assert u.rows[i] == Entry(t.rows[i].id, assign(t.rows[i].data));
      assert u.rows[i] in u.rows;
      assert Find(u, ById(id)) == Ok(Some(Entry(t.rows[i].id, assign(t.rows[i].data))));
      assert |m| == 1 && m[0].id == id;
      assert UpdateResult(t, ById(id), assign) == Find(u, ById(m[0].id));
    }
    if forall i :: 0 <= i < |t.rows| ==> t.rows[i].id != id {
      KeptWhenNoneMatch(t.rows, ById(id));
    }
  }

  // ---------------------------------------------------------------------
  // The repository object

  class Table<R> {
    var rows: seq<Entry<R>>
    var nextId: nat

    function State(): TableState<R>
      reads this
    {
      TableState(rows, nextId)
    }

    ghost predicate Valid()
      reads this
    {
      WellFormed(State())
    }

    /** An empty table whose counter starts at 1, as a SQL autoincrement does. */
    constructor ()
      ensures Valid() && State() == TableState([], 1)
    {
      rows := [];
      nextId := 1;
    }

    /** create(data): adds the row built from data and returns it. */
    method Create(data: R) returns (row: Entry<R>)
      requires Valid()
      modifies this
      ensures Valid()
      ensures row == Entry(old(nextId), data)
      ensures State() == Inserted(old(State()), data)
    {
      InsertedWellFormed(State(), data);
      row := Entry(nextId, data);
      rows := rows + [row];
      nextId := nextId + 1;
    }

    /** find_single(**filters). */
    method FindSingle(p: Filter<R>) returns (r: Result<Option<Entry<R>>>)
      ensures r == Find(State(), p)
    {
      var found: seq<Entry<R>> := [];
      var i := 0;
      while i < |rows|
        invariant 0 <= i <= |rows|
        invariant found == Matching(rows[..i], p)
      {
        assert rows[..i + 1][..i] == rows[..i];
        if p(rows[i]) {
          found := found + [rows[i]];
        }
        i := i + 1;
      }
      assert rows[..i] == rows;
      r := OneOrNone(found);
    }

    /** delete(**filters): removes every selected row. */
    method Delete(p: Filter<R>)
      requires Valid()
      modifies this
      ensures Valid()
      ensures State() == Deleted(old(State()), p)
    {
      DeletedWellFormed(State(), p);
      var kept: seq<Entry<R>> := [];
      var i := 0;
      while i < |rows|
        invariant 0 <= i <= |rows|
        invariant kept == Kept(rows[..i], p)
      {
        assert rows[..i + 1][..i] == rows[..i];
        if !p(rows[i]) {
          kept := kept + [rows[i]];
        }
        i := i + 1;
      }
      assert rows[..i] == rows;
      rows := kept;
    }

    /** update(data, **filters): sets the columns of every selected row,
        then answers as UpdateResult says. */
    method Update(assign: R -> R, p: Filter<R>) returns (r: Result<Option<Entry<R>>>)
      requires Valid()
      modifies this
      ensures Valid()
      ensures State() == Updated(old(State()), p, assign)
      ensures r == UpdateResult(old(State()), p, assign)
    {
      ghost var before := State();
      UpdatedWellFormed(State(), p, assign);
      var updated: seq<Entry<R>> := [];
      var selected: seq<Entry<R>> := [];
      var i := 0;
      while i < |rows|
        invariant 0 <= i <= |rows|
        invariant |updated| == i
        invariant forall k :: 0 <= k < i ==> updated[k] == UpdatedRows(rows, p, assign)[k]
        invariant selected == Matching(rows[..i], p)
      {
        assert rows[..i + 1][..i] == rows[..i];
        if p(rows[i]) {
          updated := updated + [Entry(rows[i].id, assign(rows[i].data))];
          selected := selected + [rows[i]];
        } else {
          updated := updated + [rows[i]];
        }
        i := i + 1;
      }
      assert rows[..i] == rows;
      assert updated == UpdatedRows(rows, p, assign);
      rows := updated;
      if |selected| == 0 {
        r := Ok(None);
      } else if |selected| > 1 {
        r := Err(MultipleResultsFound);
      } else {
        r := FindSingle(ById(selected[0].id));
      }
    }
  }
}

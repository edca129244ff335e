/**
 * The todo RPC router (packages/api/src/routers/todo.ts) over an in-memory
 * `todo` table. Every handler runs for a signed-in user and filters the rows
 * it reads or changes by that user's id.
 */
module TodoRouter {

  type UserId = string

  /** A row of the `todo` table. */
  datatype Row = Row(id: int, userId: UserId, text: string, completed: bool)

  /** What a handler returns to the RPC caller: done, or the input failed validation. */
  datatype Outcome = Ok | BadRequest

  /** The row primary key: no two rows share an id. */
  ghost predicate IdsDistinct(rows: seq<Row>) {
    forall i, j :: 0 <= i < j < |rows| ==> rows[i].id != rows[j].id
  }

  /** `where(eq(todo.userId, user))`: the user's rows, in table order. */
  function Owned(rows: seq<Row>, user: UserId): (r: seq<Row>)
    ensures forall x :: x in r <==> x in rows && x.userId == user
    ensures |r| <= |rows|
  {
    if rows == [] then []
    else (if rows[0].userId == user then [rows[0]] else []) + Owned(rows[1..], user)
  }

  /** `and(eq(todo.id, id), eq(todo.userId, user))`. */
  predicate Matches(x: Row, id: int, user: UserId) {
    x.id == id && x.userId == user
  }

  /** The filter needs both columns: another user's row with the same id, or the user's row with another id, does not match. */
  lemma MatchesNeedsBothColumns(x: Row, id: int, user: UserId)
    ensures x.userId != user ==> !Matches(x, id, user)
    ensures x.id != id ==> !Matches(x, id, user)
  {
  }

  /** `update(todo).set({ completed }).where(...)`: every matching row gets the flag. */
  function SetCompleted(rows: seq<Row>, id: int, user: UserId, completed: bool): (r: seq<Row>)
    ensures |r| == |rows|
    ensures forall i :: 0 <= i < |rows| ==>
      r[i] == if Matches(rows[i], id, user) then rows[i].(completed := completed) else rows[i]
  {
    if rows == [] then []
    else
      [if Matches(rows[0], id, user) then rows[0].(completed := completed) else rows[0]]
      + SetCompleted(rows[1..], id, user, completed)
  }

  /** `delete(todo).where(...)`: the matching rows go, the others stay in order. */
  function Remove(rows: seq<Row>, id: int, user: UserId): (r: seq<Row>)
    ensures forall x :: x in r <==> x in rows && !Matches(x, id, user)
    ensures |r| <= |rows|
  {
    if rows == [] then []
    else (if Matches(rows[0], id, user) then [] else [rows[0]]) + Remove(rows[1..], id, user)
  }

  /** Each of the user's rows comes back as often as it is in the table, and no other row. */
  lemma {:induction false} OwnedCounts(rows: seq<Row>, user: UserId)
    ensures forall x :: multiset(Owned(rows, user))[x] == if x.userId == user then multiset(rows)[x] else 0
  {
    if rows != [] {
      OwnedCounts(rows[1..], user);
      assert rows == [rows[0]] + rows[1..];
    }
  }

  /** Each row that does not match the delete survives as often as it is in the table; matching rows do not. */
  lemma {:induction false} RemoveCounts(rows: seq<Row>, id: int, user: UserId)
    ensures forall x :: multiset(Remove(rows, id, user))[x] == if Matches(x, id, user) then 0 else multiset(rows)[x]
  {
    if rows != [] {
      RemoveCounts(rows[1..], id, user);
      assert rows == [rows[0]] + rows[1..];
    }
  }

  /** Filtering by owner distributes over concatenation. */
  lemma {:induction false} OwnedAppend(a: seq<Row>, b: seq<Row>, user: UserId)
    ensures Owned(a + b, user) == Owned(a, user) + Owned(b, user)
  {
    if a == [] {
      assert a + b == b;
    } else {
      assert (a + b)[0] == a[0];
      assert (a + b)[1..] == a[1..] + b;
      OwnedAppend(a[1..], b, user);
    }
  }

  /** Inserting a row for one user leaves every other user's rows as they were. */
  lemma OwnedAfterInsert(rows: seq<Row>, row: Row, other: UserId)
    requires row.userId != other
    ensures Owned(rows + [row], other) == Owned(rows, other)
  {
    OwnedAppend(rows, [row], other);
  }

  /** A toggle by `user` leaves the rows of every other user exactly as they were. */
  lemma {:induction false} OwnedAfterSetCompleted(rows: seq<Row>, id: int, user: UserId, completed: bool, other: UserId)
    requires other != user
    ensures Owned(SetCompleted(rows, id, user, completed), other) == Owned(rows, other)
  {
    if rows != [] {
      var r := SetCompleted(rows, id, user, completed);
      assert r[1..] == SetCompleted(rows[1..], id, user, completed);
      OwnedAfterSetCompleted(rows[1..], id, user, completed, other);
    }
  }

  /** A delete by `user` leaves the rows of every other user exactly as they were, in order. */
  lemma {:induction false} OwnedAfterRemove(rows: seq<Row>, id: int, user: UserId, other: UserId)
    requires other != user
    ensures Owned(Remove(rows, id, user), other) == Owned(rows, other)
  {
    if rows != [] {
      var r := Remove(rows, id, user);
      if Matches(rows[0], id, user) {
        assert r == Remove(rows[1..], id, user);
      } else {
        assert r[1..] == Remove(rows[1..], id, user);
      }
      OwnedAfterRemove(rows[1..], id, user, other);
    }
  }

  /** The update sets the flag rather than flipping it: applying it twice is applying it once. */
  lemma SetCompletedIdempotent(rows: seq<Row>, id: int, user: UserId, completed: bool)
    ensures SetCompleted(SetCompleted(rows, id, user, completed), id, user, completed)
         == SetCompleted(rows, id, user, completed)
  {
  }

  /** A toggle for an id the user has no row with changes nothing. */
  lemma SetCompletedNoMatch(rows: seq<Row>, id: int, user: UserId, completed: bool)
    requires forall x :: x in rows ==> !Matches(x, id, user)
    ensures SetCompleted(rows, id, user, completed) == rows
  {
  }

  /** A delete for an id the user has no row with changes nothing. */
  lemma {:induction false} RemoveNoMatch(rows: seq<Row>, id: int, user: UserId)
    requires forall x :: x in rows ==> !Matches(x, id, user)
    ensures Remove(rows, id, user) == rows
  {
    if rows != [] {
      assert rows[0] in rows;
      assert forall x :: x in rows[1..] ==> x in rows;
      RemoveNoMatch(rows[1..], id, user);
    }
  }

  /** `a` is `b` with some elements left out, the rest in their order. */
  predicate IsSubsequence(a: seq<Row>, b: seq<Row>)
    decreases |b|
  {
    if a == [] then true
    else if b == [] then false
    else (a[0] == b[0] && IsSubsequence(a[1..], b[1..])) || IsSubsequence(a, b[1..])
  }

  /** The rows that survive a delete keep their table order. */
  lemma {:induction false} RemoveKeepsOrder(rows: seq<Row>, id: int, user: UserId)
    ensures IsSubsequence(Remove(rows, id, user), rows)
  {
    if rows != [] {
      RemoveKeepsOrder(rows[1..], id, user);
      var r := Remove(rows, id, user);
      if Matches(rows[0], id, user) {
        assert r == Remove(rows[1..], id, user);
      } else {
        assert r[0] == rows[0] && r[1..] == Remove(rows[1..], id, user);
      }
    }
  }

  /** The user's rows come back in table order. */
  lemma {:induction false} OwnedKeepsOrder(rows: seq<Row>, user: UserId)
    ensures IsSubsequence(Owned(rows, user), rows)
  {
    if rows != [] {
      OwnedKeepsOrder(rows[1..], user);
      var r := Owned(rows, user);
      if rows[0].userId == user {
        assert r[0] == rows[0] && r[1..] == Owned(rows[1..], user);
      } else {
        assert r == Owned(rows[1..], user);
      }
    }
  }

  /** A table whose tail has distinct ids, and whose head's id is not among them, has distinct ids. */
  lemma IdsDistinctCons(head: Row, tail: seq<Row>)
    requires IdsDistinct(tail)
    requires forall x :: x in tail ==> x.id != head.id
    ensures IdsDistinct([head] + tail)
  {
    var r := [head] + tail;
    forall i, j | 0 <= i < j < |r| ensures r[i].id != r[j].id {
      assert r[j] == tail[j - 1];
      if i > 0 {
        assert r[i] == tail[i - 1];
      }
    }
  }

  /** Removing rows keeps the primary key intact. */
  lemma {:induction false} RemoveKeepsIdsDistinct(rows: seq<Row>, id: int, user: UserId)
    requires IdsDistinct(rows)
    ensures IdsDistinct(Remove(rows, id, user))
  {
    if rows != [] {
      var tail := rows[1..];
      assert IdsDistinct(tail) by {
        forall i, j | 0 <= i < j < |tail| ensures tail[i].id != tail[j].id {
          assert tail[i] == rows[i + 1] && tail[j] == rows[j + 1];
        }
      }
      RemoveKeepsIdsDistinct(tail, id, user);
      var rest := Remove(tail, id, user);
      if Matches(rows[0], id, user) {
        assert Remove(rows, id, user) == rest;
      } else {
        assert Remove(rows, id, user) == [rows[0]] + rest;
        forall x | x in rest ensures x.id != rows[0].id {
          var k :| 0 <= k < |tail| && tail[k] == x;
          assert x == rows[k + 1];
        }
        IdsDistinctCons(rows[0], rest);
      }
    }
  }

  /** With distinct ids the update touches at most one row: no other index changes. */
  lemma SetCompletedAtMostOneRow(rows: seq<Row>, id: int, user: UserId, completed: bool, i: int, j: int)
    requires IdsDistinct(rows)
    requires 0 <= i < |rows| && 0 <= j < |rows| && i != j
    ensures SetCompleted(rows, id, user, completed)[i] == rows[i]
         || SetCompleted(rows, id, user, completed)[j] == rows[j]
  {
  }

  /**
   * The `todo` table, shared by all users. Each method is one handler of the
   * router, called on behalf of the signed-in user `user`.
   */
  class TodoTable {
    var rows: seq<Row>

    ghost predicate Valid()
      reads this
    {
      IdsDistinct(rows)
    }

    constructor ()
      ensures Valid() && rows == []
    {
      rows := [];
    }

    /** `getAll`: exactly the user's rows, each as often as in the table, in table order; reading changes nothing. */
    function GetAll(user: UserId): (r: seq<Row>)
      reads this
      ensures forall x :: x in r <==> x in rows && x.userId == user
      ensures forall x :: multiset(r)[x] == if x.userId == user then multiset(rows)[x] else 0
      ensures IsSubsequence(r, rows)
    {
      OwnedCounts(rows, user);
      OwnedKeepsOrder(rows, user);
      Owned(rows, user)
    }

    /**
     * `create`: input validation requires non-empty text; the row gets the
     * database-assigned `id` and the column default `initialCompleted`.
     */
    method Create(user: UserId, text: string, id: int, initialCompleted: bool) returns (outcome: Outcome)
      requires Valid()
      requires forall x :: x in rows ==> x.id != id
      modifies this
      ensures Valid()
      ensures outcome == Ok <==> |text| >= 1
      ensures outcome == Ok ==> rows == old(rows) + [Row(id, user, text, initialCompleted)]
      ensures outcome == BadRequest ==> rows == old(rows)
    {
      if |text| < 1 {
        return BadRequest;
      }
      rows := rows + [Row(id, user, text, initialCompleted)];
      outcome := Ok;
    }

    /** `toggle`: sets (does not flip) `completed` on the user's row with this id. */
    method Toggle(user: UserId, id: int, completed: bool)
      requires Valid()
      modifies this
      ensures Valid()
      ensures rows == SetCompleted(old(rows), id, user, completed)
    {
      rows := SetCompleted(rows, id, user, completed);
    }

    /** `delete`: removes the user's row with this id. */
    method Delete(user: UserId, id: int)
      requires Valid()
      modifies this
      ensures Valid()
      ensures rows == Remove(old(rows), id, user)
    {
      RemoveKeepsIdsDistinct(rows, id, user);
      rows := Remove(rows, id, user);
    }
  }
}

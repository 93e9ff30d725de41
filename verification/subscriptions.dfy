/** The `subscriptions` table that both stores keep (the SQLite one of
    bot.py and the Postgres one of database.py): rows
    (user_id, show_id, show_name, last_episode_id) under UNIQUE(user_id,
    show_id). The functions here say what each SQL statement does to the
    rows; the store classes apply them. */
module Subscriptions {

  datatype Row = Row(userId: int, showId: int, showName: string, lastEpisodeId: int)
  {
    /** The columns of the UNIQUE constraint. */
    function Key(): (int, int)
    {
      (userId, showId)
    }
  }

  /** No two rows share a (user_id, show_id) pair. */
  ghost predicate Unique(rows: seq<Row>)
  {
    forall i, j :: 0 <= i < j < |rows| ==> rows[i].Key() != rows[j].Key()
  }

  /** Some row belongs to the pair (userId, showId). */
  function HasPair(rows: seq<Row>, userId: int, showId: int): (b: bool)
    ensures b <==> exists i :: 0 <= i < |rows| && rows[i].Key() == (userId, showId)
  {
    if rows == [] then false
    else rows[|rows| - 1].Key() == (userId, showId) || HasPair(rows[..|rows| - 1], userId, showId)
  }

  /** `INSERT ... VALUES (user, show, name, 0)`: the constraint rejects the
      row when the pair is already present, and the table is left as it was. */
  function AddRow(rows: seq<Row>, userId: int, showId: int, showName: string): (r: seq<Row>)
    ensures HasPair(r, userId, showId)
    ensures |r| == if HasPair(rows, userId, showId) then |rows| else |rows| + 1
    ensures r[..|rows|] == rows
    ensures !HasPair(rows, userId, showId) ==> r[|rows|] == Row(userId, showId, showName, 0)
    ensures Unique(rows) ==> Unique(r)
  {
    if HasPair(rows, userId, showId) then rows else rows + [Row(userId, showId, showName, 0)]
  }

  /** `UPDATE subscriptions SET last_episode_id = e WHERE user_id = u AND
      show_id = s`: only the cursor of the rows of that pair changes. */
  function SetCursor(rows: seq<Row>, userId: int, showId: int, episodeId: int): (r: seq<Row>)
    ensures |r| == |rows|
    ensures forall i :: 0 <= i < |rows| ==>
              r[i].Key() == rows[i].Key() && r[i].showName == rows[i].showName
    ensures forall i :: 0 <= i < |rows| ==>
              r[i].lastEpisodeId == if rows[i].Key() == (userId, showId) then episodeId else rows[i].lastEpisodeId
    ensures !HasPair(rows, userId, showId) ==> r == rows
    ensures Unique(rows) ==> Unique(r)
  {
    if rows == [] then []
    else
      var last := rows[|rows| - 1];
      SetCursor(rows[..|rows| - 1], userId, showId, episodeId)
      + [if last.Key() == (userId, showId) then last.(lastEpisodeId := episodeId) else last]
  }

  /** On a table without duplicate pairs, the UPDATE for the pair of row i
      changes that one row and nothing else. */
  lemma SetCursorAt(rows: seq<Row>, i: nat, episodeId: int)
    requires Unique(rows) && i < |rows|
    ensures SetCursor(rows, rows[i].userId, rows[i].showId, episodeId)
            == rows[i := rows[i].(lastEpisodeId := episodeId)]
  {
  }

  /** `DELETE FROM subscriptions WHERE user_id = u AND show_name = n`. */
  function RemoveShow(rows: seq<Row>, userId: int, showName: string): (r: seq<Row>)
    ensures forall x :: x in r <==> x in rows && !(x.userId == userId && x.showName == showName)
    ensures |r| <= |rows|
    ensures |r| < |rows| <==>
              exists i :: 0 <= i < |rows| && rows[i].userId == userId && rows[i].showName == showName
    ensures Unique(rows) ==> Unique(r)
  {
    if rows == [] then []
    else
      var last := rows[|rows| - 1];
      var kept := RemoveShow(rows[..|rows| - 1], userId, showName);
      assert rows == rows[..|rows| - 1] + [last];
      if last.userId == userId && last.showName == showName then kept else kept + [last]
  }

  /** The positions of the user's rows, in table order. */
  function UserRows(rows: seq<Row>, userId: int): (idx: seq<nat>)
    ensures forall k :: 0 <= k < |idx| ==> idx[k] < |rows| && rows[idx[k]].userId == userId
    ensures forall k, l :: 0 <= k < l < |idx| ==> idx[k] < idx[l]
    ensures forall i :: 0 <= i < |rows| && rows[i].userId == userId ==> i in idx
    ensures |idx| <= |rows|
  {
    if rows == [] then []
    else
      var n := |rows| - 1;
      UserRows(rows[..n], userId) + (if rows[n].userId == userId then [n] else [])
  }

  /** `SELECT show_name, show_id FROM subscriptions WHERE user_id = u`: one
      (show_name, show_id) tuple per row of the user, in table order. */
  function UserShows(rows: seq<Row>, userId: int): (r: seq<(string, int)>)
    ensures |r| == |UserRows(rows, userId)| <= |rows|
    ensures forall k :: 0 <= k < |r| ==>
              var i := UserRows(rows, userId)[k];
              r[k] == (rows[i].showName, rows[i].showId)
    ensures forall p :: p in r <==>
              exists i :: 0 <= i < |rows| && rows[i].userId == userId && (rows[i].showName, rows[i].showId) == p
  {
    var idx := UserRows(rows, userId);
    var r := seq(|idx|, k requires 0 <= k < |idx| => (rows[idx[k]].showName, rows[idx[k]].showId));
    assert forall i :: 0 <= i < |rows| && rows[i].userId == userId ==> (rows[i].showName, rows[i].showId) in r by {
      forall i | 0 <= i < |rows| && rows[i].userId == userId
        ensures (rows[i].showName, rows[i].showId) in r
      {
        var k :| 0 <= k < |idx| && idx[k] == i;
        assert r[k] == (rows[i].showName, rows[i].showId);
      }
    }
    r
  }

  /** The statements the front end and the checker issue against the table. */
  datatype Statement =
    | Insert(userId: int, showId: int, showName: string)
    | Delete(userId: int, showName: string)
    | Update(userId: int, showId: int, episodeId: int)

  function Execute(rows: seq<Row>, st: Statement): seq<Row>
  {
    match st
    case Insert(u, s, n) => AddRow(rows, u, s, n)
    case Delete(u, n) => RemoveShow(rows, u, n)
    case Update(u, s, e) => SetCursor(rows, u, s, e)
  }

  function ExecuteAll(rows: seq<Row>, sts: seq<Statement>): seq<Row>
    decreases |sts|
  {
    if sts == [] then rows else ExecuteAll(Execute(rows, sts[0]), sts[1..])
  }

  /** Whatever statements run, in whatever order, no pair is ever stored
      twice. */
  lemma {:induction false} UniqueUnderAnyStatements(rows: seq<Row>, sts: seq<Statement>)
    requires Unique(rows)
    ensures Unique(ExecuteAll(rows, sts))
    decreases |sts|
  {
    if sts != [] {
      var next := Execute(rows, sts[0]);
      assert Unique(next);
      UniqueUnderAnyStatements(next, sts[1..]);
    }
  }
}

/** The Postgres store of database.py: the `subscriptions` table (the same
    rows and UNIQUE(user_id, show_id) as the SQLite store) and a `users`
    table keyed by user_id. The connection pool is gone; each method is one
    SQL statement applied to the tables. */
module Postgres {
  import opened Common
  import opened Formatting
  import opened Subscriptions

  /** A row of `users` without its key. `joined_at` is filled by
      `DEFAULT NOW()` when the row is first inserted. */
  datatype User = User(username: Option<string>, firstName: Option<string>,
                       lastName: Option<string>, joinedAt: int)

  /** `INSERT INTO users ... ON CONFLICT (user_id) DO UPDATE SET username,
      first_name, last_name`: the user's row carries the new names, keeps its
      joined_at when it already existed, and no other user changes. */
  function Upserted(users: map<int, User>, userId: int, username: Option<string>,
                    firstName: Option<string>, lastName: Option<string>, now: int): (r: map<int, User>)
    ensures r.Keys == users.Keys + {userId}
    ensures r[userId].username == username && r[userId].firstName == firstName
            && r[userId].lastName == lastName
    ensures r[userId].joinedAt == if userId in users then users[userId].joinedAt else now
    ensures forall v :: v in users && v != userId ==> r[v] == users[v]
    ensures |r| == if userId in users then |users| else |users| + 1
  {
    var joined := if userId in users then users[userId].joinedAt else now;
    users[userId := User(username, firstName, lastName, joined)]
  }

  /** The status string asyncpg returns for a DELETE: "DELETE <rows removed>". */
  function DeleteStatus(count: nat): (s: string)
    ensures |s| >= 8 && s[..7] == "DELETE "
    ensures AllDigits(s[7..]) && DecimalValue(s[7..]) == count
    // no leading zero: the first digit is '0' only for a count of zero
    ensures s[7] == '0' <==> count == 0
    ensures count == 0 ==> s == "DELETE 0"
  {
    DecimalRoundTrip(count);
    assert ("DELETE " + NatToDecimal(count))[7..] == NatToDecimal(count);
    "DELETE " + NatToDecimal(count)
  }

  /** needle occurs in haystack starting at index k. */
  predicate OccursAt(haystack: string, needle: string, k: int)
  {
    0 <= k && k + |needle| <= |haystack| && haystack[k..k + |needle|] == needle
  }

  /** Python's `needle in haystack` for strings. */
  predicate Contains(haystack: string, needle: string)
    ensures Contains(haystack, needle) ==> |needle| <= |haystack|
    ensures |needle| <= |haystack| && haystack[..|needle|] == needle ==> Contains(haystack, needle)
  {
    assert |needle| <= |haystack| && haystack[..|needle|] == needle ==> OccursAt(haystack, needle, 0);
    exists k :: 0 <= k <= |haystack| - |needle| && OccursAt(haystack, needle, k)
  }

  /** `"DELETE 0" not in result` holds exactly when some row was removed:
      a count other than zero is never written with a leading zero, and no
      later position of the status can start "DELETE". */
  lemma DeleteStatusReportsRemoval(count: nat)
    ensures !Contains(DeleteStatus(count), "DELETE 0") <==> count != 0
  {
    var s := DeleteStatus(count);
    var d := NatToDecimal(count);
    if count == 0 {
      assert d == "0";
      assert OccursAt(s, "DELETE 0", 0);
    } else {
      forall k | 0 <= k <= |s| - 8
        ensures !OccursAt(s, "DELETE 0", k)
      {
        if k == 0 {
          assert s[k..k + 8][7] == s[7] == d[0];
        } else {
          assert s[k..k + 8][0] == s[k];
          if k < 7 {
            assert s[k] == "DELETE "[k];
          } else {
            assert s[k] == d[k - 7];
          }
        }
      }
    }
  }

  class Database {
    var subscriptions: seq<Row>
    var users: map<int, User>

    /** The UNIQUE(user_id, show_id) constraint. */
    ghost predicate Valid()
      reads this
    {
      Unique(subscriptions)
    }

    /** `connect`, on a database where `_init_db` has just created both tables. */
    constructor ()
      ensures Valid() && subscriptions == [] && users == map[]
    {
      subscriptions := [];
      users := map[];
    }

    /** `upsert_user`; `now` is the clock reading that `DEFAULT NOW()` takes. */
    method UpsertUser(userId: int, username: Option<string>, firstName: Option<string>,
                      lastName: Option<string>, now: int)
      modifies this
      ensures users == Upserted(old(users), userId, username, firstName, lastName, now)
      ensures subscriptions == old(subscriptions)
    {
      var joined := if userId in users then users[userId].joinedAt else now;
      users := users[userId := User(username, firstName, lastName, joined)];
    }

    /** `add_subscription`: the user is upserted first, whatever happens to
        the subscription; the insert is then refused by the constraint
        (UniqueViolationError, False) when the pair is already subscribed. */
    method AddSubscription(userId: int, showId: int, showName: string, username: Option<string>,
                           firstName: Option<string>, lastName: Option<string>, now: int)
      returns (added: bool)
      requires Valid()
      modifies this
      ensures Valid()
      ensures users == Upserted(old(users), userId, username, firstName, lastName, now)
      ensures added <==> !HasPair(old(subscriptions), userId, showId)
      ensures subscriptions == AddRow(old(subscriptions), userId, showId, showName)
      ensures |subscriptions| == |old(subscriptions)| + (if added then 1 else 0)
    {
      UpsertUser(userId, username, firstName, lastName, now);
      if HasPair(subscriptions, userId, showId) {
        added := false;
      } else {
        subscriptions := subscriptions + [Row(userId, showId, showName, 0)];
        added := true;
      }
    }

    /** `get_user_subscriptions`: (show_name, show_id) of the user's rows. */
    method GetUserSubscriptions(userId: int) returns (shows: seq<(string, int)>)
      ensures shows == UserShows(subscriptions, userId)
    {
      shows := UserShows(subscriptions, userId);
    }

    /** `get_all_subscriptions`: the whole table. */
    method GetAllSubscriptions() returns (snapshot: seq<Row>)
      ensures snapshot == subscriptions
    {
      snapshot := subscriptions;
    }

    /** `delete_subscription`: removes every row of the user with that show
        name and reads the outcome off the status string. */
    method DeleteSubscription(userId: int, showName: string) returns (deleted: bool)
      requires Valid()
      modifies this
      ensures Valid() && users == old(users)
      ensures subscriptions == RemoveShow(old(subscriptions), userId, showName)
      ensures deleted <==> exists i :: 0 <= i < |old(subscriptions)|
                                     && old(subscriptions)[i].userId == userId
                                     && old(subscriptions)[i].showName == showName
    {
      var before := |subscriptions|;
      subscriptions := RemoveShow(subscriptions, userId, showName);
      var status := DeleteStatus(before - |subscriptions|);
      DeleteStatusReportsRemoval(before - |subscriptions|);
      deleted := !Contains(status, "DELETE 0");
    }

    /** `update_last_episode`: overwrites the cursor of the pair's row. */
    method UpdateLastEpisode(userId: int, showId: int, episodeId: int)
      requires Valid()
      modifies this
      ensures Valid() && users == old(users)
      ensures subscriptions == SetCursor(old(subscriptions), userId, showId, episodeId)
    {
      subscriptions := SetCursor(subscriptions, userId, showId, episodeId);
    }

    /** `get_stats`: how many users and how many subscriptions are stored. */
    method GetStats() returns (usersCount: nat, subscriptionsCount: nat)
      ensures usersCount == |users| && subscriptionsCount == |subscriptions|
    {
      usersCount, subscriptionsCount := |users|, |subscriptions|;
    }
  }
}

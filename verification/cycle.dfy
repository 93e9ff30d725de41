/** One pass of the update checker, as a specification over a snapshot of
    the subscriptions table and the map `show_id -> episode` built from the
    catalog: which rows are stale, which messages go out, and what the
    cursors are afterwards. Both copies of the checker (scheduler.py and
    bot.py) are proved against these functions. */
module Cycle {
  import opened Common
  import opened Subscriptions
  import opened Api

  /** The first line of every new-episode notification, in both checkers. */
  const NewEpisodeHeadline: string := "\U{1F525} <b>Вышла новая серия!</b>\n"

  /** `set(sub[1] for sub in subs)`: the distinct shows of the snapshot. */
  function ShowIds(subs: seq<Row>): (ids: set<int>)
    ensures forall s :: s in ids <==> exists i :: 0 <= i < |subs| && subs[i].showId == s
    ensures |ids| <= |subs|
  {
    if subs == [] then {}
    else ShowIds(subs[..|subs| - 1]) + {subs[|subs| - 1].showId}
  }

  /** The row's show was fetched and the fetched episode id differs from the
      row's cursor: any difference, not only a larger id. */
  predicate Stale(r: Row, latest: map<int, Episode>)
    // a show that was not fetched never makes its rows stale
    ensures r.showId !in latest ==> !Stale(r, latest)
    // the test is inequality: an older id than the cursor counts as well
    ensures r.showId in latest ==> (Stale(r, latest) <==> latest[r.showId].id != r.lastEpisodeId)
  {
    r.showId in latest && latest[r.showId].id != r.lastEpisodeId
  }

  /** The row once the checker has dealt with it: a stale row's cursor moves
      to the fetched id. */
  function Advance(r: Row, latest: map<int, Episode>): (a: Row)
    ensures a.Key() == r.Key() && a.showName == r.showName
    ensures a != r <==> Stale(r, latest)
    ensures Stale(r, latest) ==> a.lastEpisodeId == latest[r.showId].id
    ensures !Stale(a, latest)
  {
    if Stale(r, latest) then r.(lastEpisodeId := latest[r.showId].id) else r
  }

  /** The snapshot with every stale row advanced. */
  function Advanced(subs: seq<Row>, latest: map<int, Episode>): (r: seq<Row>)
    ensures |r| == |subs|
    ensures forall i :: 0 <= i < |subs| ==> r[i].Key() == subs[i].Key() && r[i].showName == subs[i].showName
    ensures forall i :: 0 <= i < |subs| ==> !Stale(r[i], latest)
    ensures Unique(subs) ==> Unique(r)
  {
    seq(|subs|, i requires 0 <= i < |subs| => Advance(subs[i], latest))
  }

  /** The positions of the stale rows of the snapshot, in snapshot order. */
  function StaleRows(subs: seq<Row>, latest: map<int, Episode>): (idx: seq<nat>)
    ensures forall k :: 0 <= k < |idx| ==> idx[k] < |subs| && Stale(subs[idx[k]], latest)
    ensures forall k, l :: 0 <= k < l < |idx| ==> idx[k] < idx[l]
    ensures forall i :: 0 <= i < |subs| && Stale(subs[i], latest) ==> i in idx
    ensures |idx| <= |subs|
  {
    if subs == [] then []
    else
      var n := |subs| - 1;
      StaleRows(subs[..n], latest) + (if Stale(subs[n], latest) then [n] else [])
  }

  /** The messages a pass sends: one per stale row, in snapshot order, to
      that row's user, with the text `text` makes of the row's show name and
      the fetched episode. */
  function Outbox(subs: seq<Row>, latest: map<int, Episode>, text: (string, Episode) -> string): (out: seq<Message>)
    ensures |out| == |StaleRows(subs, latest)|
    ensures forall k :: 0 <= k < |out| ==>
              var i := StaleRows(subs, latest)[k];
              out[k] == Message(subs[i].userId, text(subs[i].showName, latest[subs[i].showId]))
  {
    if subs == [] then []
    else
      var n := |subs| - 1;
      var last := subs[n];
      Outbox(subs[..n], latest, text)
      + (if Stale(last, latest) then [Message(last.userId, text(last.showName, latest[last.showId]))] else [])
  }

  /** Dealing with row i after rows 0..i-1 appends that row's message, if
      it is stale, to the messages already sent. */
  lemma OutboxExtend(subs: seq<Row>, latest: map<int, Episode>, text: (string, Episode) -> string, i: nat)
    requires i < |subs|
    ensures Outbox(subs[..i + 1], latest, text)
            == Outbox(subs[..i], latest, text)
               + (if Stale(subs[i], latest)
                  then [Message(subs[i].userId, text(subs[i].showName, latest[subs[i].showId]))]
                  else [])
  {
    assert subs[..i + 1][..i] == subs[..i];
  }

  /** After a pass every row of a fetched show points at the fetched
      episode: a second pass with the same fetch results changes no cursor and
      sends nothing. */
  lemma {:induction false} SecondPassIsQuiet(subs: seq<Row>, latest: map<int, Episode>,
                                             text: (string, Episode) -> string)
    ensures Advanced(Advanced(subs, latest), latest) == Advanced(subs, latest)
    ensures Outbox(Advanced(subs, latest), latest, text) == []
  {
    var once := Advanced(subs, latest);
    forall i | 0 <= i < |once|
      ensures !Stale(once[i], latest)
    {
      assert once[i] == Advance(subs[i], latest);
    }
    assert Advanced(once, latest) == once;
    NoneStaleSendsNothing(once, latest);
  }

  /** Two tables whose rows have the same shows, position by position,
      reference the same shows. */
  lemma ShowIdsPointwise(a: seq<Row>, b: seq<Row>)
    requires |a| == |b|
    requires forall i :: 0 <= i < |a| ==> a[i].showId == b[i].showId
    ensures ShowIds(a) == ShowIds(b)
  {
    forall s | s in ShowIds(a)
      ensures s in ShowIds(b)
    {
      var i :| 0 <= i < |a| && a[i].showId == s;
      assert b[i].showId == s;
    }
    forall s | s in ShowIds(b)
      ensures s in ShowIds(a)
    {
      var i :| 0 <= i < |b| && b[i].showId == s;
      assert a[i].showId == s;
    }
  }

  /** A pass moves cursors only, so the next pass fetches the same shows. */
  lemma ShowIdsAdvanced(subs: seq<Row>, latest: map<int, Episode>)
    ensures ShowIds(Advanced(subs, latest)) == ShowIds(subs)
  {
    ShowIdsPointwise(Advanced(subs, latest), subs);
  }

  /** A snapshot in which no row is stale yields no stale positions. */
  lemma {:induction false} NoneStaleSendsNothing(subs: seq<Row>, latest: map<int, Episode>)
    requires forall i :: 0 <= i < |subs| ==> !Stale(subs[i], latest)
    ensures StaleRows(subs, latest) == []
  {
    if subs != [] {
      NoneStaleSendsNothing(subs[..|subs| - 1], latest);
    }
  }

  /** A show whose fetch failed leaves its subscribers' rows as they were and
      sends them nothing, and makes no difference to the rows of any other
      show. */
  lemma FetchFailureIsolated(subs: seq<Row>, latest: map<int, Episode>, showId: int)
    ensures |Advanced(subs, latest - {showId})| == |subs|
    ensures forall i :: 0 <= i < |subs| && subs[i].showId == showId ==>
              Advanced(subs, latest - {showId})[i] == subs[i]
    ensures forall i :: 0 <= i < |subs| && subs[i].showId != showId ==>
              Advanced(subs, latest - {showId})[i] == Advanced(subs, latest)[i]
    ensures forall k :: 0 <= k < |StaleRows(subs, latest - {showId})| ==>
              subs[StaleRows(subs, latest - {showId})[k]].showId != showId
  {
  }

  /** A row gets a message exactly when its show was fetched and the
      fetched id differs from its cursor, in either direction. */
  lemma NotifiedIffChanged(subs: seq<Row>, latest: map<int, Episode>, i: int)
    requires 0 <= i < |subs|
    ensures i in StaleRows(subs, latest) <==>
              subs[i].showId in latest && latest[subs[i].showId].id != subs[i].lastEpisodeId
  {
  }

  /** A pass changes nothing but the cursor of a stale row, and that cursor
      becomes the fetched id; every other row keeps all its fields. */
  lemma AdvancedChangesOnlyStaleCursors(subs: seq<Row>, latest: map<int, Episode>)
    ensures |Advanced(subs, latest)| == |subs|
    ensures forall i :: 0 <= i < |subs| && !Stale(subs[i], latest) ==> Advanced(subs, latest)[i] == subs[i]
    ensures forall i :: 0 <= i < |subs| && Stale(subs[i], latest) ==>
              && Advanced(subs, latest)[i].Key() == subs[i].Key()
              && Advanced(subs, latest)[i].showName == subs[i].showName
              && Advanced(subs, latest)[i].lastEpisodeId == latest[subs[i].showId].id
  {
  }

  /** No row is notified twice in one pass: the stale positions are
      distinct, so there are at most as many messages as rows. */
  lemma AtMostOneMessagePerRow(subs: seq<Row>, latest: map<int, Episode>, text: (string, Episode) -> string)
    ensures |Outbox(subs, latest, text)| <= |subs|
    ensures forall k, l :: 0 <= k < l < |StaleRows(subs, latest)| ==>
              StaleRows(subs, latest)[k] != StaleRows(subs, latest)[l]
  {
  }

  /** A subscription starts with cursor 0, so the first pass that fetches
      its show with an episode id other than 0 notifies it; the scheduler's
      pass also records the episode. */
  lemma NewSubscriptionNotifiedOnFirstPass(subs: seq<Row>, latest: map<int, Episode>, i: int)
    requires 0 <= i < |subs| && subs[i].lastEpisodeId == 0
    requires subs[i].showId in latest && latest[subs[i].showId].id != 0
    ensures i in StaleRows(subs, latest)
    ensures Advanced(subs, latest)[i].lastEpisodeId == latest[subs[i].showId].id
  {
  }
}

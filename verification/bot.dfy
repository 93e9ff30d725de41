/** The single-file bot of bot.py: its SQLite `subscriptions` table, and its
    own copy of the update checker, `check_updates`, which differs from the
    scheduler's in two ways: a `previousepisode` that is the empty object `{}`
    is kept and then fails on `ep_data['id']`, ending the pass (and the task
    that runs it); and a cursor moves only after its message went out. The
    `search_tvmaze` of bot.py is the same code as `search_show` and is
    modelled by Api.SearchShow. */
module Bot {
  import opened Common
  import opened Formatting
  import opened Subscriptions
  import opened Api
  import opened Cycle

  /** The `series_bot.db` file, which every function of bot.py opens, uses
      and closes. */
  class Store {
    var rows: seq<Row>

    /** The UNIQUE(user_id, show_id) constraint. */
    ghost predicate Valid()
      reads this
    {
      Unique(rows)
    }

    /** `init_db` on a fresh file. */
    constructor ()
      ensures Valid() && rows == []
    {
      rows := [];
    }

    /** `add_subscription`: True when the row went in, False when the
        constraint refused it. */
    method AddSubscription(userId: int, showId: int, showName: string) returns (added: bool)
      requires Valid()
      modifies this
      ensures Valid()
      ensures added <==> !HasPair(old(rows), userId, showId)
      ensures rows == AddRow(old(rows), userId, showId, showName)
    {
      if HasPair(rows, userId, showId) {
        added := false;
      } else {
        rows := rows + [Row(userId, showId, showName, 0)];
        added := true;
      }
    }

    /** `get_all_subscriptions`. */
    method GetAllSubscriptions() returns (snapshot: seq<Row>)
      ensures snapshot == rows
    {
      snapshot := rows;
    }

    /** `update_last_episode`. */
    method UpdateLastEpisode(userId: int, showId: int, episodeId: int)
      requires Valid()
      modifies this
      ensures Valid()
      ensures rows == SetCursor(old(rows), userId, showId, episodeId)
    {
      rows := SetCursor(rows, userId, showId, episodeId);
    }

    /** `get_subscriptions`: (show_name, show_id) of the user's rows. */
    method GetSubscriptions(userId: int) returns (shows: seq<(string, int)>)
      ensures shows == UserShows(rows, userId)
    {
      shows := UserShows(rows, userId);
    }

    /** `delete_subscription`: `cursor.rowcount > 0` after the DELETE. */
    method DeleteSubscription(userId: int, showName: string) returns (deleted: bool)
      requires Valid()
      modifies this
      ensures Valid()
      ensures rows == RemoveShow(old(rows), userId, showName)
      ensures deleted <==> exists i :: 0 <= i < |old(rows)|
                                     && old(rows)[i].userId == userId && old(rows)[i].showName == showName
    {
      var before := |rows|;
      rows := RemoveShow(rows, userId, showName);
      var rowCount := before - |rows|;
      deleted := rowCount > 0;
    }
  }

  /** The fixed pieces of the notification text of `check_updates`, after
      the headline. */
  const ShowLead: string := "\U{1F3AC} Сериал: <b>"
  const SeasonLead: string := "\n\U{1F522} Сезон "
  const NumberLead: string := ", Серия "
  const TitleLead: string := "\n\U{1F4DD} Название: "

  /** The lines of the notification text of `check_updates` after the
      show's name: season and number, then the title. */
  function EpisodeLines(ep: Episode): (s: string)
    ensures var season, number := OptionalIntText(ep.season), OptionalIntText(ep.number);
            var i, j := |SeasonLead| + |season|, |SeasonLead| + |season| + |NumberLead|;
            |s| == j + |number| + |TitleLead| + |OptionalText(ep.name)|
            && s[..|SeasonLead|] == SeasonLead
            && s[|SeasonLead|..i] == season
            && s[i..j] == NumberLead
            && s[j..j + |number|] == number
    ensures var tail := TitleLead + OptionalText(ep.name);
            s[|s| - |tail|..] == tail
  {
    var tail := TitleLead + OptionalText(ep.name);
    Framed(SeasonLead, OptionalIntText(ep.season), NumberLead, OptionalIntText(ep.number), tail, tail);
    SeasonLead + (OptionalIntText(ep.season) + (NumberLead + (OptionalIntText(ep.number) + tail)))
  }

  /** The notification text of `check_updates`. */
  function UpdateText(showName: string, ep: Episode): (s: string)
    ensures var k := |NewEpisodeHeadline| + |ShowLead|;
            |s| == k + |showName| + 4 + |EpisodeLines(ep)|
            && s[..|NewEpisodeHeadline|] == NewEpisodeHeadline
            && s[|NewEpisodeHeadline|..k] == ShowLead
            && s[k..k + |showName|] == showName
            && s[k + |showName|..k + |showName| + 4] == "</b>"
            && s[k + |showName| + 4..] == EpisodeLines(ep)
    ensures var tail := TitleLead + OptionalText(ep.name);
            |s| >= |tail| && s[|s| - |tail|..] == tail
  {
    var tail := TitleLead + OptionalText(ep.name);
    var rest := SeasonLead + (OptionalIntText(ep.season) + (NumberLead + (OptionalIntText(ep.number) + tail)));
    assert rest == EpisodeLines(ep);
    Framed(NewEpisodeHeadline, ShowLead, showName, "</b>", rest, tail);
    NewEpisodeHeadline + (ShowLead + (showName + ("</b>" + rest)))
  }

  /** The text names the show, the season, the number and the printed
      title unambiguously, as long as show names hold no line break. */
  lemma UpdateTextInjective(name1: string, e1: Episode, name2: string, e2: Episode)
    requires '\n' !in name1 && '\n' !in name2
    requires UpdateText(name1, e1) == UpdateText(name2, e2)
    ensures name1 == name2
    ensures e1.season == e2.season && e1.number == e2.number
    ensures OptionalText(e1.name) == OptionalText(e2.name)
  {
    var s1, s2 := OptionalIntText(e1.season), OptionalIntText(e2.season);
    var n1, n2 := OptionalIntText(e1.number), OptionalIntText(e2.number);
    var t1, t2 := OptionalText(e1.name), OptionalText(e2.name);
    var tail1 := SeasonLead + (s1 + (NumberLead + (n1 + (TitleLead + t1))));
    var tail2 := SeasonLead + (s2 + (NumberLead + (n2 + (TitleLead + t2))));
    PrefixCancel(NewEpisodeHeadline, ShowLead + (name1 + ("</b>" + tail1)),
                 ShowLead + (name2 + ("</b>" + tail2)));
    PrefixCancel(ShowLead, name1 + ("</b>" + tail1), name2 + ("</b>" + tail2));
    assert name1 + ("</b>" + tail1) == (name1 + "</b>") + tail1;
    assert name2 + ("</b>" + tail2) == (name2 + "</b>") + tail2;
    SplitAtSeparator('\n', name1 + "</b>", tail1, name2 + "</b>", tail2);
    SuffixCancel(name1, name2, "</b>");
    PrefixCancel(SeasonLead, s1 + (NumberLead + (n1 + (TitleLead + t1))),
                 s2 + (NumberLead + (n2 + (TitleLead + t2))));
    SplitAtSeparator(',', s1, NumberLead + (n1 + (TitleLead + t1)),
                     s2, NumberLead + (n2 + (TitleLead + t2)));
    OptionalIntTextInjective(e1.season, e2.season);
    PrefixCancel(NumberLead, n1 + (TitleLead + t1), n2 + (TitleLead + t2));
    SplitAtSeparator('\n', n1, TitleLead + t1, n2, TitleLead + t2);
    OptionalIntTextInjective(e1.number, e2.number);
    PrefixCancel(TitleLead, t1, t2);
  }

  /** `latest_episodes` of `check_updates`: every show among ids whose
      answer had status 200 and both keys, with whatever object sat under
      `previousepisode`, `{}` included. */
  function FetchedObjects(ids: set<int>, fetch: int -> Outcome<ShowDetails>): (objs: map<int, EpisodeObject>)
    ensures forall s :: s in objs <==> s in ids && GetLatestEpisode(fetch(s)).Some?
    ensures forall s :: s in objs ==> objs[s] == GetLatestEpisode(fetch(s)).value
  {
    map s | s in ids && GetLatestEpisode(fetch(s)).Some? :: GetLatestEpisode(fetch(s)).value
  }

  lemma FetchedObjectsStep(done: set<int>, s: int, fetch: int -> Outcome<ShowDetails>)
    requires s !in done
    ensures FetchedObjects(done + {s}, fetch)
            == if GetLatestEpisode(fetch(s)).Some?
               then FetchedObjects(done, fetch)[s := GetLatestEpisode(fetch(s)).value]
               else FetchedObjects(done, fetch)
  {
  }

  /** The fetch loop of `check_updates` over `unique_show_ids`: each show
      once, in whatever order the set yields, and the `previousepisode`
      object of each answer that has one. */
  method FetchEpisodeObjects(ids: set<int>, fetch: int -> Outcome<ShowDetails>)
    returns (objs: map<int, EpisodeObject>, fetched: seq<int>)
    ensures Distinct(fetched)
    ensures forall s :: s in fetched <==> s in ids
    ensures |fetched| == |ids|
    ensures objs == FetchedObjects(ids, fetch)
  {
    var pending := ids;
    objs, fetched := map[], [];
    while pending != {}
      invariant pending <= ids
      invariant forall s :: s in fetched <==> s in ids && s !in pending
      invariant Distinct(fetched)
      invariant |fetched| + |pending| == |ids|
      invariant objs == FetchedObjects(ids - pending, fetch)
      decreases |pending|
    {
      NonEmptyHasElement(pending);
      var showId :| showId in pending;
      var epData := GetLatestEpisode(fetch(showId));
      if epData.Some? {
        objs := objs[showId := epData.value];
      }
      FetchedObjectsStep(ids - pending, showId, fetch);
      assert ids - (pending - {showId}) == (ids - pending) + {showId};
      fetched := fetched + [showId];
      pending := pending - {showId};
    }
  }

  /** The episodes among the fetched objects: `{}` has none. */
  function Episodes(objs: map<int, EpisodeObject>): (latest: map<int, Episode>)
    ensures forall s :: s in latest <==> s in objs && objs[s].Filled?
    ensures forall s :: s in latest ==> objs[s] == Filled(latest[s])
  {
    map s | s in objs && objs[s].Filled? :: objs[s].episode
  }

  /** Reading `ep_data['id']` for this row raises KeyError: its show was
      fetched and its object is `{}`. */
  predicate Crashes(r: Row, objs: map<int, EpisodeObject>)
    // a row that crashes has no episode to compare its cursor with
    ensures Crashes(r, objs) ==> r.showId !in Episodes(objs)
    // a row of a show that was not fetched never crashes
    ensures r.showId !in objs ==> !Crashes(r, objs)
  {
    r.showId in objs && objs[r.showId].EmptyObject?
  }

  /** The row at which the sending loop dies: the first that crashes, or
      |subs| when none does. */
  function CrashIndex(subs: seq<Row>, objs: map<int, EpisodeObject>): (c: nat)
    ensures c <= |subs|
    ensures forall j :: 0 <= j < c ==> !Crashes(subs[j], objs)
    ensures c < |subs| ==> Crashes(subs[c], objs)
  {
    if subs == [] || Crashes(subs[0], objs) then 0 else 1 + CrashIndex(subs[1..], objs)
  }

  /** The table after the sending loop has dealt with rows 0..upTo-1: a
      stale row among them is advanced only when its send went through. */
  function Delivered(subs: seq<Row>, latest: map<int, Episode>, upTo: int, delivered: int -> bool): (r: seq<Row>)
    ensures |r| == |subs|
    ensures forall j :: 0 <= j < |subs| ==> r[j].Key() == subs[j].Key() && r[j].showName == subs[j].showName
    ensures forall j :: 0 <= j < |subs| && (upTo <= j || !delivered(j)) ==> r[j] == subs[j]
    ensures forall j :: 0 <= j < |subs| && j < upTo && delivered(j) ==> !Stale(r[j], latest)
    // only a stale row moves, and then to the fetched id
    ensures forall j :: 0 <= j < |subs| && !Stale(subs[j], latest) ==> r[j] == subs[j]
    ensures forall j :: 0 <= j < |subs| && j < upTo && delivered(j) && Stale(subs[j], latest) ==>
              r[j].lastEpisodeId == latest[subs[j].showId].id
    ensures Unique(subs) ==> Unique(r)
  {
    var r := seq(|subs|, j requires 0 <= j < |subs| =>
                   if j < upTo && delivered(j) then Advance(subs[j], latest) else subs[j]);
    assert forall j :: 0 <= j < |subs| ==> r[j].Key() == subs[j].Key() && r[j].showName == subs[j].showName by {
      forall j | 0 <= j < |subs|
        ensures r[j].Key() == subs[j].Key() && r[j].showName == subs[j].showName
      {
        if j < upTo && delivered(j) {
          assert r[j] == Advance(subs[j], latest);
        }
      }
    }
    r
  }

  /** Dealing with one more row changes at most that row: it is advanced
      when its send went through. */
  lemma DeliveredStep(subs: seq<Row>, latest: map<int, Episode>, i: nat, delivered: int -> bool)
    requires i < |subs|
    ensures Delivered(subs, latest, i, delivered)[i] == subs[i]
    ensures Delivered(subs, latest, i + 1, delivered)
            == if delivered(i) then Delivered(subs, latest, i, delivered)[i := Advance(subs[i], latest)]
               else Delivered(subs, latest, i, delivered)
  {
  }

  /** One pass of the `while True` loop of `check_updates`, without the
      sleeps. `delivered(i)` says whether `bot.send_message` for snapshot
      row i went through; `attempts` are the messages handed to it, and
      `crashed` says that the KeyError ended the pass. */
  method CheckUpdates(store: Store, fetch: int -> Outcome<ShowDetails>, delivered: int -> bool)
    returns (fetched: seq<int>, attempts: seq<Message>, crashed: bool)
    requires store.Valid()
    modifies store
    ensures store.Valid()
    ensures Distinct(fetched)
    ensures forall s :: s in fetched <==> s in ShowIds(old(store.rows))
    ensures |fetched| <= |old(store.rows)|
    ensures var objs := FetchedObjects(ShowIds(old(store.rows)), fetch);
            var c := CrashIndex(old(store.rows), objs);
            && (crashed <==> c < |old(store.rows)|)
            && store.rows == Delivered(old(store.rows), Episodes(objs), c, delivered)
            && attempts == Outbox(old(store.rows)[..c], Episodes(objs), UpdateText)
  {
    var subs := store.GetAllSubscriptions();
    var objs;
    objs, fetched := FetchEpisodeObjects(ShowIds(subs), fetch);
    attempts, crashed := NotifyAll(store, subs, objs, delivered);
  }

  /** The sending loop of `check_updates` over the snapshot `subs` and the
      fetched objects `objs`. */
  method NotifyAll(store: Store, subs: seq<Row>, objs: map<int, EpisodeObject>, delivered: int -> bool)
    returns (attempts: seq<Message>, crashed: bool)
    requires store.Valid() && store.rows == subs
    modifies store
    ensures store.Valid()
    ensures crashed <==> CrashIndex(subs, objs) < |subs|
    ensures store.rows == Delivered(subs, Episodes(objs), CrashIndex(subs, objs), delivered)
    ensures attempts == Outbox(subs[..CrashIndex(subs, objs)], Episodes(objs), UpdateText)
  {
    var latest := Episodes(objs);
    var c := CrashIndex(subs, objs);
    attempts, crashed := [], false;
    var i := 0;
    assert store.rows == Delivered(subs, latest, 0, delivered);
    while i < |subs| && !crashed
      invariant 0 <= i <= c
      invariant crashed ==> i == c < |subs|
      invariant store.Valid() && store.rows == Delivered(subs, latest, i, delivered)
      invariant attempts == Outbox(subs[..i], latest, UpdateText)
      decreases |subs| - i, !crashed
    {
      if Crashes(subs[i], objs) {
        // `ep_data['id']` on `{}`: the KeyError ends the pass
        crashed := true;
      } else {
        OutboxExtend(subs, latest, UpdateText, i);
        var sent := NotifyRow(store, subs, objs, i, delivered);
        attempts := attempts + sent;
        i := i + 1;
      }
    }
  }

  /** The body of the sending loop for snapshot row i, whose show's object
      is not `{}`: compare, build the text, send, and record the id when
      the send went through. `sent` is the message handed to the bot. */
  method NotifyRow(store: Store, subs: seq<Row>, objs: map<int, EpisodeObject>, i: nat, delivered: int -> bool)
    returns (sent: seq<Message>)
    requires i < |subs| && !Crashes(subs[i], objs)
    requires store.Valid() && store.rows == Delivered(subs, Episodes(objs), i, delivered)
    modifies store
    ensures store.Valid() && store.rows == Delivered(subs, Episodes(objs), i + 1, delivered)
    ensures var latest := Episodes(objs);
            sent == if Stale(subs[i], latest)
                    then [Message(subs[i].userId, UpdateText(subs[i].showName, latest[subs[i].showId]))]
                    else []
  {
    var r := subs[i];
    DeliveredStep(subs, Episodes(objs), i, delivered);
    sent := [];
    if r.showId in objs {
      var ep := objs[r.showId].episode;
      if ep.id != r.lastEpisodeId {
        sent := [Message(r.userId, UpdateText(r.showName, ep))];
        if delivered(i) {
          SetCursorAt(store.rows, i, ep.id);
          store.UpdateLastEpisode(r.userId, r.showId, ep.id);
        }
      }
    }
  }
}

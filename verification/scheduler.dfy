/** The update checker of scheduler.py, run against the Postgres store of
    database.py: one pass of `UpdateChecker.start` reads every subscription,
    fetches the previous episode of each distinct show once, and notifies
    every subscriber whose cursor differs from the fetched episode. */
module Scheduler {
  import opened Common
  import opened Formatting
  import opened Subscriptions
  import opened Api
  import opened Cycle
  import opened Postgres

  /** `S{season} E{number} — {name}`, with None printed as "None". */
  function EpisodeLine(ep: Episode): (s: string)
    ensures var season, number := OptionalIntText(ep.season), OptionalIntText(ep.number);
            |s| == |season| + |number| + |OptionalText(ep.name)| + 6
            && s[0] == 'S'
            && s[1..|season| + 1] == season
            && s[|season| + 1..|season| + 3] == " E"
            && s[|season| + 3..|season| + |number| + 3] == number
    ensures s[|s| - |OptionalText(ep.name)| - 3..] == " — " + OptionalText(ep.name)
  {
    var season, number, tail := OptionalIntText(ep.season), OptionalIntText(ep.number), " — " + OptionalText(ep.name);
    Framed("S", season, " E", number, tail, tail);
    "S" + (season + (" E" + (number + tail)))
  }

  /** The HTML text `_send_notification` sends. */
  function NotificationText(showName: string, ep: Episode): (s: string)
    ensures var k := |NewEpisodeHeadline| + 2;
            |s| == k + |showName| + 1 + |EpisodeLine(ep)|
            && s[..|NewEpisodeHeadline|] == NewEpisodeHeadline
            && s[|NewEpisodeHeadline|..k] == "\U{1F3AC} "
            && s[k..k + |showName|] == showName
            && s[k + |showName|] == '\n'
            && s[k + |showName| + 1..] == EpisodeLine(ep)
  {
    Framed(NewEpisodeHeadline, "\U{1F3AC} ", showName, "\n", EpisodeLine(ep), EpisodeLine(ep));
    NewEpisodeHeadline + ("\U{1F3AC} " + (showName + ("\n" + EpisodeLine(ep))))
  }

  /** The episode line gives back the season, the number and the printed
      title: no two episodes that differ in one of them read the same. */
  lemma EpisodeLineInjective(e1: Episode, e2: Episode)
    requires EpisodeLine(e1) == EpisodeLine(e2)
    ensures e1.season == e2.season && e1.number == e2.number
    ensures OptionalText(e1.name) == OptionalText(e2.name)
  {
    var s1, s2 := OptionalIntText(e1.season), OptionalIntText(e2.season);
    var n1, n2 := OptionalIntText(e1.number), OptionalIntText(e2.number);
    var t1, t2 := OptionalText(e1.name), OptionalText(e2.name);
    PrefixCancel("S", s1 + (" E" + (n1 + (" — " + t1))), s2 + (" E" + (n2 + (" — " + t2))));
    SplitAtSeparator(' ', s1, " E" + (n1 + (" — " + t1)), s2, " E" + (n2 + (" — " + t2)));
    OptionalIntTextInjective(e1.season, e2.season);
    PrefixCancel(" E", n1 + (" — " + t1), n2 + (" — " + t2));
    SplitAtSeparator(' ', n1, " — " + t1, n2, " — " + t2);
    OptionalIntTextInjective(e1.number, e2.number);
    PrefixCancel(" — ", t1, t2);
  }

  /** A subscriber can tell from the notification which show it is about
      and which season, number and title came out, as long as show names
      hold no line break. */
  lemma NotificationTextInjective(name1: string, e1: Episode, name2: string, e2: Episode)
    requires '\n' !in name1 && '\n' !in name2
    requires NotificationText(name1, e1) == NotificationText(name2, e2)
    ensures name1 == name2
    ensures e1.season == e2.season && e1.number == e2.number
    ensures OptionalText(e1.name) == OptionalText(e2.name)
  {
    PrefixCancel(NewEpisodeHeadline, "\U{1F3AC} " + (name1 + ("\n" + EpisodeLine(e1))),
                 "\U{1F3AC} " + (name2 + ("\n" + EpisodeLine(e2))));
    PrefixCancel("\U{1F3AC} ", name1 + ("\n" + EpisodeLine(e1)), name2 + ("\n" + EpisodeLine(e2)));
    SplitAtSeparator('\n', name1, "\n" + EpisodeLine(e1), name2, "\n" + EpisodeLine(e2));
    PrefixCancel("\n", EpisodeLine(e1), EpisodeLine(e2));
    EpisodeLineInjective(e1, e2);
  }

  /** `latest_episodes` after the fetch loop: the shows among ids whose
      `get_latest_episode` answer is truthy, with that episode. */
  function LatestEpisodes(ids: set<int>, fetch: int -> Outcome<ShowDetails>): (latest: map<int, Episode>)
    ensures forall s :: s in latest <==> s in ids && Truthy(GetLatestEpisode(fetch(s)))
    ensures forall s :: s in latest ==> GetLatestEpisode(fetch(s)) == Some(Filled(latest[s]))
  {
    map s | s in ids && Truthy(GetLatestEpisode(fetch(s))) :: GetLatestEpisode(fetch(s)).value.episode
  }

  /** A show is in `latest_episodes` exactly when its details came back with
      status 200, an `_embedded` key and a non-empty `previousepisode`; the
      map then holds that episode. */
  lemma LatestEpisodesFromResponses(ids: set<int>, fetch: int -> Outcome<ShowDetails>, s: int)
    ensures s in LatestEpisodes(ids, fetch) <==>
              && s in ids && fetch(s).Response? && fetch(s).status == 200
              && fetch(s).body.embedded.Some?
              && fetch(s).body.embedded.value.previousEpisode.Some?
              && fetch(s).body.embedded.value.previousEpisode.value.Filled?
    ensures s in LatestEpisodes(ids, fetch) ==>
              fetch(s).body.embedded.value.previousEpisode == Some(Filled(LatestEpisodes(ids, fetch)[s]))
  {
  }

  /** Fetching one more show adds it to the map exactly when its answer is
      truthy. */
  lemma LatestEpisodesStep(done: set<int>, s: int, fetch: int -> Outcome<ShowDetails>)
    requires s !in done
    ensures LatestEpisodes(done + {s}, fetch)
            == if Truthy(GetLatestEpisode(fetch(s)))
               then LatestEpisodes(done, fetch)[s := GetLatestEpisode(fetch(s)).value.episode]
               else LatestEpisodes(done, fetch)
  {
  }

  /** Two passes in a row with the same answers from the catalog: the
      second fetches the same shows, builds the same map, changes no cursor
      and sends nothing. */
  lemma SecondCheckIsQuiet(subs: seq<Row>, fetch: int -> Outcome<ShowDetails>)
    ensures var latest := LatestEpisodes(ShowIds(subs), fetch);
            var once := Advanced(subs, latest);
            && ShowIds(once) == ShowIds(subs)
            && LatestEpisodes(ShowIds(once), fetch) == latest
            && Advanced(once, LatestEpisodes(ShowIds(once), fetch)) == once
            && Outbox(once, LatestEpisodes(ShowIds(once), fetch), NotificationText) == []
  {
    var latest := LatestEpisodes(ShowIds(subs), fetch);
    ShowIdsAdvanced(subs, latest);
    SecondPassIsQuiet(subs, latest, NotificationText);
  }

  /** The fetch loop of `start` over `unique_show_ids`: each show is
      fetched once, in whatever order the set yields, and the truthy answers
      are kept. `fetched` is the order of the requests. */
  method FetchLatest(ids: set<int>, fetch: int -> Outcome<ShowDetails>)
    returns (latest: map<int, Episode>, fetched: seq<int>)
    ensures Distinct(fetched)
    ensures forall s :: s in fetched <==> s in ids
    ensures |fetched| == |ids|
    ensures latest == LatestEpisodes(ids, fetch)
  {
    var pending := ids;
    latest, fetched := map[], [];
    while pending != {}
      invariant pending <= ids
      invariant forall s :: s in fetched <==> s in ids && s !in pending
      invariant Distinct(fetched)
      invariant |fetched| + |pending| == |ids|
      invariant latest == LatestEpisodes(ids - pending, fetch)
      decreases |pending|
    {
      NonEmptyHasElement(pending);
      var showId :| showId in pending;
      var epData := GetLatestEpisode(fetch(showId));
      if Truthy(epData) {
        latest := latest[showId := epData.value.episode];
      }
      LatestEpisodesStep(ids - pending, showId, fetch);
      assert ids - (pending - {showId}) == (ids - pending) + {showId};
      fetched := fetched + [showId];
      pending := pending - {showId};
    }
  }

  class UpdateChecker {
    const db: Database

    constructor (db: Database)
      ensures this.db == db
    {
      this.db := db;
    }

    /** `_send_notification`: the message is handed to Telegram; a failed
        send raises inside the `try` and is only logged (`logged`), so the
        caller cannot see it. */
    method SendNotification(userId: int, showName: string, ep: Episode, delivered: bool)
      returns (m: Message, logged: bool)
      ensures m.chatId == userId && m.text == NotificationText(showName, ep)
      ensures logged <==> !delivered
    {
      m := Message(userId, NotificationText(showName, ep));
      logged := !delivered;
    }

    /** The sending loop of `start` over the snapshot `subs`, with the
        fetched episodes `latest`: every stale row gets its notification and
        then its cursor moves to the fetched episode. `delivered(i)` says
        whether the send for row i went through; nothing the loop leaves
        behind depends on it, because the cursor moves even when the send
        failed. */
    method Notify(subs: seq<Row>, latest: map<int, Episode>, delivered: int -> bool)
      returns (sent: seq<Message>)
      requires db.Valid() && db.subscriptions == subs
      modifies db
      ensures db.Valid() && db.users == old(db.users)
      ensures db.subscriptions == Advanced(subs, latest)
      ensures sent == Outbox(subs, latest, NotificationText)
    {
      sent := [];
      for i := 0 to |subs|
        invariant db.Valid() && db.users == old(db.users)
        invariant |db.subscriptions| == |subs|
        invariant forall j :: 0 <= j < |subs| ==>
                    db.subscriptions[j] == if j < i then Advance(subs[j], latest) else subs[j]
        invariant sent == Outbox(subs[..i], latest, NotificationText)
      {
        var r := subs[i];
        OutboxExtend(subs, latest, NotificationText, i);
        if r.showId in latest {
          var ep := latest[r.showId];
          if ep.id != r.lastEpisodeId {
            var m, _ := SendNotification(r.userId, r.showName, ep, delivered(i));
            sent := sent + [m];
            SetCursorAt(db.subscriptions, i, ep.id);
            db.UpdateLastEpisode(r.userId, r.showId, ep.id);
          }
        }
      }
      assert subs[..|subs|] == subs;
    }

    /** One pass of the `while True` loop of `start`, without the sleeps. */
    method CheckOnce(fetch: int -> Outcome<ShowDetails>, delivered: int -> bool)
      returns (fetched: seq<int>, sent: seq<Message>)
      requires db.Valid()
      modifies db
      ensures db.Valid() && db.users == old(db.users)
      ensures Distinct(fetched)
      ensures forall s :: s in fetched <==> s in ShowIds(old(db.subscriptions))
      ensures |fetched| <= |old(db.subscriptions)|
      ensures db.subscriptions
              == Advanced(old(db.subscriptions), LatestEpisodes(ShowIds(old(db.subscriptions)), fetch))
      ensures sent
              == Outbox(old(db.subscriptions), LatestEpisodes(ShowIds(old(db.subscriptions)), fetch),
                        NotificationText)
    {
      var subs := db.GetAllSubscriptions();
      var latest;
      latest, fetched := FetchLatest(ShowIds(subs), fetch);
      sent := Notify(subs, latest, delivered);
    }
  }
}

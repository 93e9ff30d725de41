/** How the two copies of the update checker relate: the scheduler of
    scheduler.py (over the Postgres store) and `check_updates` of bot.py
    (over the SQLite store). */
module Comparison {
  import opened Common
  import opened Subscriptions
  import opened Api
  import opened Cycle
  import opened Scheduler
  import opened Bot

  /** From the same answers both checkers end up with the same episodes:
      the scheduler drops `{}` while fetching, bot.py keeps it but has no
      episode for it. */
  lemma SameEpisodes(ids: set<int>, fetch: int -> Outcome<ShowDetails>)
    ensures Episodes(FetchedObjects(ids, fetch)) == LatestEpisodes(ids, fetch)
  {
  }

  /** bot.py dies only on a show whose `previousepisode` is `{}`: without
      one, its sending loop gets through the whole snapshot. */
  lemma NoEmptyObjectNoCrash(subs: seq<Row>, objs: map<int, EpisodeObject>)
    requires forall s :: s in objs ==> objs[s].Filled?
    ensures CrashIndex(subs, objs) == |subs|
  {
  }

  /** Where every send goes through, advancing a row only after its send
      is the same as advancing every stale row. */
  lemma AllDeliveredIsAdvanced(subs: seq<Row>, latest: map<int, Episode>, delivered: int -> bool)
    requires forall j :: 0 <= j < |subs| ==> delivered(j)
    ensures Delivered(subs, latest, |subs|, delivered) == Advanced(subs, latest)
  {
  }

  /** With no `{}` among the answers and every send going through, a pass
      of bot.py leaves the table as a pass of the scheduler does, and
      writes to the same chats in the same order. */
  lemma CheckersAgree(subs: seq<Row>, fetch: int -> Outcome<ShowDetails>, delivered: int -> bool)
    requires forall s :: s in ShowIds(subs) ==> GetLatestEpisode(fetch(s)) != Some(EmptyObject)
    requires forall j :: 0 <= j < |subs| ==> delivered(j)
    ensures var objs := FetchedObjects(ShowIds(subs), fetch);
            && CrashIndex(subs, objs) == |subs|
            && Delivered(subs, Episodes(objs), CrashIndex(subs, objs), delivered)
               == Advanced(subs, LatestEpisodes(ShowIds(subs), fetch))
            && |Outbox(subs[..CrashIndex(subs, objs)], Episodes(objs), UpdateText)|
               == |Outbox(subs, LatestEpisodes(ShowIds(subs), fetch), NotificationText)|
    ensures var objs := FetchedObjects(ShowIds(subs), fetch);
            forall k :: 0 <= k < |Outbox(subs, LatestEpisodes(ShowIds(subs), fetch), NotificationText)| ==>
              Outbox(subs[..CrashIndex(subs, objs)], Episodes(objs), UpdateText)[k].chatId
              == Outbox(subs, LatestEpisodes(ShowIds(subs), fetch), NotificationText)[k].chatId
  {
    var objs := FetchedObjects(ShowIds(subs), fetch);
    var latest := LatestEpisodes(ShowIds(subs), fetch);
    forall s | s in objs
      ensures objs[s].Filled?
    {
      assert GetLatestEpisode(fetch(s)) != Some(EmptyObject);
    }
    NoEmptyObjectNoCrash(subs, objs);
    SameEpisodes(ShowIds(subs), fetch);
    AllDeliveredIsAdvanced(subs, latest, delivered);
    assert subs[..|subs|] == subs;
  }

  /** bot.py retries a failed send: a stale row whose message did not go
      through keeps its cursor, so it is still stale on the next pass. */
  lemma FailedSendStaysStale(subs: seq<Row>, latest: map<int, Episode>, upTo: int,
                             delivered: int -> bool, j: int)
    requires 0 <= j < |subs| && j < upTo && Stale(subs[j], latest) && !delivered(j)
    ensures Stale(Delivered(subs, latest, upTo, delivered)[j], latest)
  {
  }

  /** The scheduler does not: once a pass has dealt with a stale row, the
      row is not stale any more, whether or not its message arrived. */
  lemma SchedulerForgetsFailedSend(subs: seq<Row>, latest: map<int, Episode>, j: int)
    requires 0 <= j < |subs| && Stale(subs[j], latest)
    ensures !Stale(Advanced(subs, latest)[j], latest)
  {
  }

  /** The rows bot.py never reached because of the KeyError keep their
      cursors. (That they get no message either is `NotifyAll`'s: its
      attempts are the outbox of the rows before the crash row.) */
  lemma CrashLeavesRestUntouched(subs: seq<Row>, objs: map<int, EpisodeObject>, delivered: int -> bool, j: int)
    requires CrashIndex(subs, objs) <= j < |subs|
    ensures Delivered(subs, Episodes(objs), CrashIndex(subs, objs), delivered)[j] == subs[j]
  {
  }
}

# PekSeries Telegram bot — a verified model of its core

The bot lets Telegram users subscribe to TV shows from the TVMaze catalog
and tells them when a new episode of a subscribed show has aired. The model
covers the three pieces of sequential logic behind that:

- **The subscription table** (`user_id, show_id, show_name,
  last_episode_id` under UNIQUE(user_id, show_id)), kept twice in the
  repository: as SQLite functions in `bot.py` (class `Bot.Store`) and as the
  Postgres `Database` class of `database.py` (class `Postgres.Database`,
  which also keeps the `users` table). The table is a `seq<Row>` field that
  the methods reassign. What each SQL statement does to the rows is stated
  once, as functions in module `Subscriptions`, and both classes are proved
  against them. Uniqueness of the pair is each class's `Valid()` invariant.
- **One update-check pass**, also kept twice: `UpdateChecker.start` in
  `scheduler.py` (class `Scheduler.UpdateChecker`, over the Postgres store)
  and `check_updates` in `bot.py` (method `Bot.CheckUpdates`, over the
  SQLite store). A pass takes a snapshot of the table and fetches each
  distinct show once. It builds a `show_id -> episode` map and notifies
  every row whose cursor differs from the fetched episode id. Module
  `Cycle` states what a pass should do: the stale rows, the outbox and the
  advanced table. Both loops are proved against it. Module `Comparison`
  states where the two copies agree and where they differ.
- **The TVMaze client** of `api.py` (module `Api`): finding a
  `tvmaze.com/shows/<digits>` link with `re.search` semantics, the id
  lookup versus the name search, and reading `_embedded.previousepisode`
  out of a show response. `search_tvmaze` in `bot.py` is the same code as
  `search_show` and is modelled by `Api.SearchShow`.

HTTP and Telegram are parameters. An HTTP call is a function from what is
asked to an `Outcome`: an exception, or a status and a decoded body. A send
is a `delivered` function saying, per snapshot row, whether
`send_message` went through. Module `Formatting` renders values the way
Python's f-strings do (integers, `None`). It is needed to prove that
`database.py`'s `"DELETE 0" not in result` test means "some row was
removed", and that the notification texts tell episodes apart.

Four behaviours of the code that the model follows as written:

- A failed or unreachable catalog request in `search_show` / `search_tvmaze`
  is not caught there, so it reaches the caller (`Api.Failed`). It does not
  come back as "not found".
- A query made only of digits ("123") contains no link, so it is searched
  for as a name (`Api.DigitsOnlyQuerySearchesByName`).
- Neither checker loop catches exceptions at the pass boundary. In
  `bot.py` a fetched `previousepisode` that is the empty object `{}` is
  kept (`'previousepisode' in ...` holds). The following `ep_data['id']`
  then raises KeyError, which ends the pass and the task running it
  (`Bot.CrashIndex`, `Bot.NotifyAll`). The scheduler drops `{}` because it
  is falsy.
- The cursor comparison is `!=` in both checkers: any change of episode id
  notifies. The comment in `bot.py` that speaks of "greater" does not match
  the code.

## Model

| member | source | states |
|---|---|---|
| Formatting.NatToDecimal | database.py:105-109 | the decimal numeral of a count: at least one digit, all digits, a leading '0' exactly for zero, and exactly "0" for zero |
| Formatting.DecimalRoundTrip | database.py:105-109 | reading back the numeral of n gives n, so the status string determines the count |
| Formatting.IntToDecimal | scheduler.py:41 | `str(n)`: a leading '-' exactly for negative n, followed by the digits whose value is the absolute value of n, with no leading zero; exactly "0" for zero |
| Formatting.IntToDecimalInjective | scheduler.py:41 | distinct integers render as distinct texts |
| Formatting.OptionalIntText | scheduler.py:41 | an interpolated season or number (or None) contains no space, comma or line break, so it can be cut out of the message |
| Formatting.OptionalText | bot.py:188 | f"{title}": the title itself when present; the text reads `None` exactly for a missing title or the title "None" |
| Formatting.OptionalIntTextInjective | scheduler.py:41 | distinct optional integers render as distinct texts (no numeral reads "None") |
| Subscriptions.HasPair | bot.py:44-48 | true exactly when some row carries the (user_id, show_id) pair |
| Subscriptions.AddRow | bot.py:63-75 | an absent pair gets one new row (user, show, name, 0) at the end; an existing pair leaves the table as it was; uniqueness is kept |
| Subscriptions.SetCursor | bot.py:88-95 | only the cursor of the rows of the pair becomes the new id; keys, names and all other rows are unchanged; no-op when no row matches; uniqueness is kept |
| Subscriptions.SetCursorAt | bot.py:92-93 | on a unique table the UPDATE for row i's pair rewrites exactly row i's cursor |
| Subscriptions.RemoveShow | bot.py:111 | a row survives exactly when it is not the user's row with that name; the table shrinks exactly when such a row existed; uniqueness is kept |
| Subscriptions.UserRows | bot.py:102 | the positions of exactly the user's rows, increasing, each once |
| Subscriptions.UserShows | bot.py:99-105 | one (show_name, show_id) pair per row of the user, in table order; a pair is listed exactly when some row of the user carries it |
| Subscriptions.UniqueUnderAnyStatements | bot.py:44-48 | any sequence of inserts, deletes and cursor updates keeps every pair unique |
| Api.LinkAt | api.py:11 | a match position: the marker sits there and a digit follows it, so the captured run is non-empty |
| Api.DigitRun | api.py:11 | the greedy `\d+`: a prefix made of digits, followed by the end or by a non-digit |
| Api.FindLinkFrom | api.py:11 | the match starting at the first position at or after k where the marker is followed by a digit; none exactly when there is no such position |
| Api.FindLink | api.py:11-14 | `re.search(...).group(1)`: none exactly when no marker is followed by a digit; otherwise the whole digit run after the leftmost such marker |
| Api.LinkDigitsAreMaximalRun | api.py:11-14 | wherever the pattern matches, the captured group is the maximal digit run after the marker |
| Api.DigitsOnlyQuerySearchesByName | api.py:11-13 | a query made only of digits holds no link and goes to the name search |
| Api.SearchShow | api.py:8-30 | a link is looked up by id alone; otherwise the name search alone decides and only its first hit counts; non-200 or an empty hit list give the None triple; an exception from either request reaches the caller |
| Api.LinkQueryIgnoresNameSearch | bot.py:122-129 | with a link in the query, what the name search would answer makes no difference |
| Api.NameQueryIgnoresIdLookup | bot.py:130-139 | without a link, what the id lookup would answer makes no difference |
| Api.Truthy | scheduler.py:22 | `if ep_data:` fails for None and for the empty object `{}` and holds for a filled episode object |
| Api.GetLatestEpisode | api.py:32-44 | the `previousepisode` object exactly when the status is 200 and both keys are present; None for an exception, another status or a missing key |
| Cycle.ShowIds | scheduler.py:16 | the set of show ids occurring in the snapshot, no larger than the snapshot |
| Cycle.Stale | scheduler.py:28-30 | a row is due exactly when its show was fetched and the fetched id differs from its cursor; a show missing from the map never makes a row due |
| Cycle.Advance | scheduler.py:30-32 | the row keeps its user, show and name; it changes exactly when it was due, then to the fetched id, and it is not due afterwards |
| Cycle.Advanced | scheduler.py:27-32 | row by row advance: same length, keys and names kept, no row due afterwards, (user_id, show_id) uniqueness kept |
| Cycle.StaleRows | scheduler.py:27-30 | the positions of exactly the rows whose show was fetched with a different episode id, in snapshot order, each once |
| Cycle.Outbox | scheduler.py:27-31 | one message per stale row, in snapshot order, to that row's user, with the text made from its show name and the fetched episode |
| Cycle.NotifiedIffChanged | scheduler.py:28-30 | a row is notified if and only if its show is in the map and the fetched id differs from its cursor |
| Cycle.AdvancedChangesOnlyStaleCursors | scheduler.py:28-32 | a pass rewrites only the cursor of a stale row, to the fetched id; every other row keeps all its fields |
| Cycle.AtMostOneMessagePerRow | scheduler.py:27-31 | no row is notified twice in a pass; there are at most as many messages as rows |
| Cycle.SecondPassIsQuiet | scheduler.py:28-32 | a second pass with the same fetched episodes changes no cursor and sends nothing |
| Cycle.ShowIdsAdvanced | scheduler.py:15-16 | a pass leaves the set of subscribed show ids as it was |
| Cycle.FetchFailureIsolated | scheduler.py:19-32 | a show missing from the map leaves its rows as they were and unnotified, and changes nothing for any other show |
| Cycle.NewSubscriptionNotifiedOnFirstPass | scheduler.py:28-32 | a new row (cursor 0, as the INSERTs of database.py:89 and bot.py:68 write it) is due on the first pass that fetches an episode with a non-zero id, and the scheduler's pass records that id |
| Postgres.Upserted | database.py:71-79 | the user's row carries the given names and keeps its joined_at when it existed; no other user changes; at most one row is added |
| Postgres.DeleteStatus | database.py:105-109 | the status text of a DELETE is `DELETE ` followed by the decimal digits of the count, whose first digit is '0' only for a count of zero; exactly `DELETE 0` when no row was removed |
| Postgres.Contains | database.py:109 | Python's `in` on strings: a match needs a needle no longer than the text, and a prefix is always a match |
| Postgres.DeleteStatusReportsRemoval | database.py:104-109 | `"DELETE 0" not in "DELETE <n>"` holds exactly when n is not zero |
| Postgres.Database.constructor | database.py:27-69 | both tables start empty |
| Postgres.Database.UpsertUser | database.py:71-81 | the users table becomes the upsert of the old one; subscriptions are unchanged |
| Postgres.Database.AddSubscription | database.py:84-94 | the user is upserted even for a duplicate; True and one new row with cursor 0 exactly when the pair was absent; uniqueness is kept |
| Postgres.Database.GetUserSubscriptions | database.py:96-98 | the user's (show_name, show_id) pairs |
| Postgres.Database.GetAllSubscriptions | database.py:100-102 | the whole table |
| Postgres.Database.DeleteSubscription | database.py:104-109 | removes the user's rows with that name and reports True exactly when one existed; users are unchanged |
| Postgres.Database.UpdateLastEpisode | database.py:111-115 | only the pair's cursor changes; users are unchanged; uniqueness is kept |
| Postgres.Database.GetStats | database.py:117-120 | the number of users and the number of subscriptions |
| Scheduler.EpisodeLine | scheduler.py:41 | `S`, the season, ` E`, the number, then ` — ` and the printed title at the end, each at the offset the lengths before it give |
| Scheduler.NotificationText | scheduler.py:38-42 | the headline first, then the clapper sign and a space, the show name, a line break, then the episode line to the end |
| Scheduler.EpisodeLineInjective | scheduler.py:41 | `S{season} E{number} — {name}` determines the season, the number and the printed title |
| Scheduler.NotificationTextInjective | scheduler.py:38-42 | the message determines the show name (names without line breaks) and the episode's season, number and printed title |
| Scheduler.LatestEpisodes | scheduler.py:19-23 | exactly the shows whose answer is truthy, each mapped to the episode its answer holds |
| Scheduler.LatestEpisodesFromResponses | scheduler.py:21-23 | a show enters the map exactly when its response had status 200, both keys and a non-empty episode object, which the map then holds |
| Scheduler.SecondCheckIsQuiet | scheduler.py:15-32 | after one pass, a pass over the new snapshot with the same catalog answers fetches the same episodes, changes no row and sends nothing |
| Scheduler.FetchLatest | scheduler.py:19-24 | every distinct show is requested exactly once, in any order, and the map holds exactly the truthy answers |
| Scheduler.UpdateChecker.constructor | scheduler.py:8-10 | the checker works on the given store |
| Scheduler.UpdateChecker.SendNotification | scheduler.py:37-46 | the message goes to the user with the notification text; a failed send is only logged |
| Scheduler.UpdateChecker.Notify | scheduler.py:27-32 | the table becomes the advanced snapshot and the messages are the outbox, whichever sends failed |
| Scheduler.UpdateChecker.CheckOnce | scheduler.py:15-32 | each distinct show fetched once; table advanced and outbox sent per the fetched map; users unchanged; uniqueness kept |
| Bot.Store.constructor | bot.py:27-50 | the table starts empty |
| Bot.Store.AddSubscription | bot.py:63-75 | True and one new row with cursor 0 exactly when the pair was absent; otherwise the table is unchanged; uniqueness is kept |
| Bot.Store.GetAllSubscriptions | bot.py:78-85 | the whole table |
| Bot.Store.UpdateLastEpisode | bot.py:88-95 | only the pair's cursor changes; uniqueness is kept |
| Bot.Store.GetSubscriptions | bot.py:99-105 | the user's (show_name, show_id) pairs |
| Bot.Store.DeleteSubscription | bot.py:108-115 | removes the user's rows with that name; True exactly when one existed |
| Bot.EpisodeLines | bot.py:187-188 | the season lead, the season, `, Серия `, the number, each at its offset, then the title lead and the printed title at the end |
| Bot.UpdateText | bot.py:184-189 | the headline first, then the `Сериал: <b>` lead, the show name, `</b>`, then the season, number and title lines to the end |
| Bot.UpdateTextInjective | bot.py:184-189 | the message determines the show name (names without line breaks) and the episode's season, number and printed title |
| Bot.FetchedObjects | bot.py:159-167 | exactly the shows whose 200 answer has `_embedded.previousepisode`, with that object, `{}` included |
| Bot.FetchEpisodeObjects | bot.py:150-170 | every distinct show is requested exactly once, in any order, and the map holds exactly the objects found |
| Bot.Episodes | bot.py:173-176 | the fetched objects that are episodes, i.e. all but `{}` |
| Bot.Crashes | bot.py:174-176 | a row raises only when its show was fetched and its object is not an episode (`{}`); a show not fetched never raises |
| Bot.CrashIndex | bot.py:173-176 | the first row whose show's object is `{}`, where `ep_data['id']` raises; no row before it raises |
| Bot.Delivered | bot.py:191-196 | the table after the loop up to a row: keys and names kept; a row past it, whose send failed, or that was not due is unchanged; a reached due row whose send went through gets the fetched id and is no longer due; uniqueness kept |
| Bot.DeliveredStep | bot.py:173-196 | dealing with one more row changes only that row, advancing it exactly when its send went through |
| Bot.NotifyRow | bot.py:174-196 | one row of the loop: the table moves from Delivered up to the row to Delivered past it, and the bot is handed one message exactly when the row is due |
| Bot.NotifyAll | bot.py:173-196 | rows before the crash row are dealt with; a stale row's cursor moves only when its send went through; the messages are the outbox of those rows; crashed exactly when some row raises |
| Bot.CheckUpdates | bot.py:146-196 | each distinct show fetched once; table and attempted messages as NotifyAll states for the fetched objects |
| Comparison.SameEpisodes | bot.py:160-165 | from the same answers both checkers end up with the same episodes |
| Comparison.NoEmptyObjectNoCrash | bot.py:175-176 | without a `{}` object, bot.py's loop reaches the end of the snapshot |
| Comparison.AllDeliveredIsAdvanced | bot.py:191-196 | when every send succeeds, advancing after a successful send is advancing every stale row |
| Comparison.CheckersAgree | bot.py:146-196 | with no `{}` answer and every send succeeding, a bot.py pass leaves the same table as a scheduler pass and writes to the same chats in the same order |
| Comparison.FailedSendStaysStale | bot.py:191-196 | in bot.py a stale row whose send failed keeps its cursor and is retried on the next pass |
| Comparison.SchedulerForgetsFailedSend | scheduler.py:43-46 | in the scheduler a stale row is not stale after the pass, whether or not its message arrived |
| Comparison.CrashLeavesRestUntouched | bot.py:176 | rows from the crash row on keep their cursors (that they get no message is NotifyAll's: its attempts are the outbox of the rows before the crash row) |

## Left out

- HTTP (aiohttp sessions, URLs, query parameters, JSON decoding) is a parameter function from the request to an exception or a status and a decoded body. Bodies that lack the `id`, `name`, `url` or `show` keys, or are not objects, are not modelled. Every episode object other than `{}` is assumed to carry an `id`.
- Telegram (`bot.send_message`, HTML parse mode) is a per-row `delivered` flag. The message is modelled as its chat id and text.
- The asyncio loop: the `while True` repetition, `asyncio.sleep(0.5)` between fetches, the `CHECK_INTERVAL` sleep and `create_task`. One pass is modelled; repeating it is left to the caller.
- Interleaving with the command handlers: the model assumes no other statement runs against the table during a pass (`Scheduler.UpdateChecker.Notify` and `Bot.NotifyAll` require the table to equal the snapshot). In the program every `await` of a pass (the 0.5 s sleeps at scheduler.py:24 and bot.py:170, and each send) lets an `/add` or `/del` run between the snapshot (scheduler.py:15, bot.py:146) and the UPDATEs. A user who unsubscribes during the fetch loop still gets the message, the UPDATE then matches no row, and a row added meanwhile waits for the next pass.
- Database plumbing: the connection pool, `connect`, `_init_db`, SQLite connections and the `ALTER TABLE` migration. Only the tables and their constraint are modelled. SQL returns rows in no fixed order; the model returns them in insertion order.
- Postgres.Database.UpsertUser: `upsert_user` catches every database exception and only logs it (database.py:78-81); the model assumes the statement succeeds. Other database failures are not modelled either.
- Logging everywhere, including the log line a failed send produces (it only shows as the `logged` result of `SendNotification`).
- `handlers.py`, `main.py`, `config.py` and the `cmd_*` handlers of `bot.py` (chat replies, command menus, bootstrap, environment variables) are not part of this model. Neither are the call sites in them and in `scheduler.py` that call async `Database` methods without `await` or with another arity. The scheduler is modelled with the table semantics those calls intend.
- Api.FindLink: Python's `\d` also matches non-ASCII decimal digits; the model accepts only '0'..'9'.
- Bot.UpdateTextInjective: bot.py reads the season, number and title with `.get` (bot.py:180-182), so a missing key and a JSON null both print `None`; the title is recovered only as printed text. The episode id is not part of the message, nor of the scheduler's.
- Scheduler.UpdateChecker.CheckOnce: scheduler.py reads `ep['id']`, `ep['season']`, `ep['number']` and `ep['name']` by subscript (scheduler.py:30, 38-41). An episode object lacking one of these keys raises KeyError, which nothing in `start` catches and which ends the task. The model's episodes always carry the four fields (a JSON null is `None`), so this crash is not modelled for the scheduler.
- Api.SearchShow: the `Failed` result stands for the exception that leaves `search_show`; what the caller does with it is outside this model.

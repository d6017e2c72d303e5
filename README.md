# Check game — a Dafny model

The repository is a small two-person "check" game: one user sends a *check* to a
connected user, and the receiver answers it (snoozes or confirms it) before a deadline.
Answering earns points. A check that runs out earns the sender a point, or simply
expires. The repository holds several generations of the game, and this project models
the core of each:

- **check-manager.js** (`CheckManager`): the sql.js check database. It holds a `users`
  table with score, daily count and date, and a `checks` table. Its operations are
  `sendCheck` (with a daily limit and one pending check per direction),
  `getIncomingChecks` / `getOutgoingChecks`, `snoozeCheck` (+1 to the sender, +2 to the
  receiver) and `expireOldChecks` (30 minutes; +1 to the sender of each due check).
- **timer.js** (`Timer`): the countdown arithmetic.
- **server.js** (`GameServer`): the socket server. It has the two fixed players `fab` and
  `dome`, one global active check, and a two-minute expiry callback. Handlers: login,
  logout, disconnect, sendCheck and snoozeCheck.
- **app.js** (`CheckInApp`): the browser client. It covers the account list, the invite
  connection made at login, creating and confirming checks within five minutes, the
  sender's copy of a confirmed check, the pending/history split of `renderChecks`, the
  countdown interval, and `generatePairId`. The interval's expiry is modelled twice: as
  written (`TimerExpireAsWritten`), and corrected to leave non-pending checks alone
  (`TimerExpire`), which is what `App.TimerTick` follows; see Findings. As in the source, the user's own side of an
  invite connection is kept only in the session: `updateUserChecks` writes back checks
  and score, never connections.
- **js/connectionManager.js** (`ConnectionStore`) and **utils/sessionManager.js**
  (`SessionConnections`): the two managers of the `user_connections` list and per-connection
  messages. `Connections` holds the record and list transforms they share.
- **components/connections/ConnectionsList.js** and **js/views/connections.js**
  (`ConnectionFilters`): the search and activity filters.
- **js/views/dashboard.js** (`Dashboard`): the five most recent connections.
- **js/router.js** (`Routing`): the client-side router.

Modelling conventions:

- Code that mutates state becomes a class whose methods are specified by pure functions.
  This covers the database tables, the server state, the client's globals, localStorage
  items, the view state and the router.
- Reads and list transforms are functions.
- The clock, fresh ids (uuid, `Date.now()` ids, invite tokens) and the socket that raised
  an event are parameters.
- Timestamps and ISO date strings are the millisecond instants they denote. The calendar
  day of check-manager.js stays the `YYYY-MM-DD` string it compares.
- `Seqs` holds a generic filter with subsequence and partition lemmas, and `findIndex`.
- `Text` holds ASCII lower-casing, substring search and lexicographic order.

## Model

| member | source | states |
|---|---|---|
| CheckManager.Bump | check-manager.js:77-78 | the score update touches only the named user, by exactly k; a missing id changes nothing |
| CheckManager.FindCheck | check-manager.js:66-69 | the first row with the id; None exactly when no row has it; with unique ids it is the only such row |
| CheckManager.SnoozeRows | check-manager.js:71-75 | every row with the id gets snoozed_at = now, every other row is unchanged |
| CheckManager.ExpireRows | check-manager.js:92 | rows whose id is in the set get expired = 1, the rest are unchanged |
| CheckManager.IncomingChecks | check-manager.js:47-53 | exactly the open checks addressed to the user, each with all its copies, in table order |
| CheckManager.OutgoingChecks | check-manager.js:55-61 | exactly the open checks sent by the user, each with all its copies, in table order |
| CheckManager.OpenChecks | check-manager.js:85-88 | exactly the rows neither snoozed nor expired, each with all its copies, in table order |
| CheckManager.DueIds | check-manager.js:90-92 | an id is marked iff some visited row with that id is due |
| CheckManager.AwardExpired | check-manager.js:90-94 | the points of the sweep touch no user's daily count or date, and add no user |
| CheckManager.SweepChecks | check-manager.js:81-95 | the checks table after the sweep: the due open rows expired |
| CheckManager.SweepUsers | check-manager.js:81-95 | the users table after the sweep: a point per due open row to its sender |
| CheckManager.DueIsTimerExpired | check-manager.js:5 | the sweep's test is `isExpired` of timer.js with its default 30-minute limit, whose countdown then shows `Expired` |
| CheckManager.SweepExpiresExactlyTheDue | check-manager.js:85-95 | after the sweep, a row is expired iff it was expired before or it was open and older than 30 minutes; nothing else changes |
| CheckManager.AwardCountsDueChecks | check-manager.js:90-94 | each user's score rises by exactly the number of their due open checks |
| CheckManager.NothingDueAwardsNothing | check-manager.js:90-94 | with nothing due, no score changes and no row expires |
| CheckManager.SweepLeavesOnlyUndue | check-manager.js:81-95 | after the sweep every open check is younger than the limit |
| CheckManager.SweepIsIdempotent | check-manager.js:81-95 | a second sweep at the same instant changes neither table |
| CheckManager.ExpireRowsTwice | check-manager.js:90-95 | expiring one id set and then another is expiring their union |
| CheckManager.SweepStep | check-manager.js:90-94 | one iteration of the forEach extends the expired set and the awards by that row alone |
| CheckManager.SweepKeepsInvariants | check-manager.js:81-95 | the sweep keeps check ids unique and at most one open check per sender/receiver pair |
| CheckManager.ClosingKeepsInvariants | check-manager.js:71-75 | closing rows (snoozing or expiring them) keeps both table invariants |
| CheckManager.InitSchemaNeverLimits | check-manager.js:11-15 | on the four-column users table the positional read never sees today's date, so the limit never applies |
| CheckManager.PositionalReadMissesLimit | check-manager.js:12-15 | a user with three checks sent today is refused by the named-field test but let through as written |
| CheckManager.ResetSchemaMatchesNamedFields | check-manager.js:12-15 | on the five-column table the positional read agrees with the named-field limit test |
| CheckManager.LimitReachedAsWritten | check-manager.js:12-15 | the daily limit test reading the row by position, as written |
| CheckManager.VisitSelected | check-manager.js:90-95 | the loop over the selected rows ends with the rows of the due ids expired and each due row's sender given a point |
| CheckManager.Sweep | check-manager.js:84-95 | selecting the open rows and visiting them gives the tables SweepChecks and SweepUsers describe |
| CheckManager.CheckStore.constructor | db-init.js:37-59 | two users fab and dome with score 0, and no checks |
| CheckManager.CheckStore.SendCheck | check-manager.js:7-45 | unknown sender, daily limit, pending check: refused iff each condition holds, and nothing changes; otherwise one new open row and the daily count is incremented or reset to 1; the table invariants are kept |
| CheckManager.CheckStore.SnoozeCheck | check-manager.js:63-79 | an unknown id changes nothing; otherwise the row is snoozed, the sender gets +1 and the receiver +2 |
| CheckManager.CheckStore.ExpireOldChecks | check-manager.js:81-96 | the tables become the sweep of the old tables; the invariants are kept |
| Timer.FormatRemainingTime | timer.js:1-8 | `Expired` iff no time is left; otherwise minutes and seconds with 0 <= seconds <= 59 that bound the time to the second |
| Timer.CountdownUnique | timer.js:4-5 | the displayed split is the only one meeting those bounds |
| Timer.GetRemainingTime | timer.js:10-13 | never negative, zero iff the limit has elapsed, otherwise the time to the deadline |
| Timer.IsExpired | timer.js:15-17 | strictly more than the limit has elapsed |
| Timer.ExpiredHasNoTimeLeft | timer.js:10-17 | an expired check shows no time left and the text `Expired` |
| Timer.BoundaryIsNotExpired | timer.js:10-17 | at exactly the limit no time is left yet `isExpired` is false |
| Timer.RemainingNeverGrows | timer.js:10-13 | a later clock never shows more time left |
| GameServer.Other | server.js:92 | fab's counterpart is dome and dome's is fab |
| GameServer.Server.constructor | server.js:15-20 | both players offline with 0 points, no active check |
| GameServer.Server.Login | server.js:40-58 | refused with an error iff the name is not a player, and nothing changes; otherwise the socket is bound to the player, who is online on that socket |
| GameServer.Server.Logout | server.js:61-71 | a logged-in socket's player goes offline and the socket forgets the name; otherwise nothing changes |
| GameServer.Server.Disconnect | server.js:176-189 | as logout, for a socket that goes away |
| GameServer.Server.SendCheck | server.js:74-139 | not logged in, a check already active, other player offline: each error iff its condition, and nothing changes; otherwise the active check goes to the other player, expiring in two minutes, and one expiry callback is scheduled |
| GameServer.Server.SnoozeCheck | server.js:142-173 | not logged in, no such active check, not the receiver: each error iff its condition; otherwise the receiver gets +2 and the check is cleared, resolved once |
| GameServer.Server.FireExpiry | server.js:119-132 | the callback is consumed; only if its check is still active does the sender get +1 and the check clear, resolved once |
| GameServer.SnoozeThenExpiry | server.js:119-170 | after a snooze, the expiry callback of that check awards nothing and the check is resolved once |
| CheckInApp.PairIdSortsNames | app.js:478-482 | the pair id starts with whichever name sorts first by the default sort order |
| CheckInApp.PairIdSymmetric | app.js:478-482 | both members of a pair compute the same id |
| CheckInApp.PairId | app.js:478-482 | the two names in default sort order joined with `_` |
| CheckInApp.Connect | app.js:113-121 | the name is in the list afterwards, nothing else is added, the old list is a prefix, no duplicates are introduced |
| CheckInApp.Registered | app.js:84-98 | the account exists afterwards; existing accounts are untouched; a new one has score 0, no checks and the fresh token |
| CheckInApp.RelevantChecks | app.js:353-362 | exactly the checks that involve the user with a connected counterpart, each with all its copies, in order |
| CheckInApp.RenderChecks | app.js:341-387 | pending and history partition the relevant checks by status, each in order |
| CheckInApp.SaveChecks | app.js:324-339 | only the first account with the user's name changes, and only its checks and score |
| CheckInApp.MarkSenderConfirmed | app.js:304-322 | nothing changes when the sender is empty or the current user; otherwise only the first check with the id in the first account named as the sender can change, and only to confirmed; it does change when both exist |
| CheckInApp.DeadlineInstant | app.js:286-288 | the interval's test and the confirm test disagree exactly at the deadline instant |
| CheckInApp.TimerExpireAsWritten | app.js:449-458 | the first check with the id becomes expired whatever its status, its other fields kept; no other entry changes |
| CheckInApp.ConfirmedCheckExpiredByTimer | app.js:449-458 | as written, a confirmed check is turned into an expired one |
| CheckInApp.TimerExpire | app.js:449-458 | only a pending check can expire; confirmed and expired checks are kept |
| CheckInApp.App.constructor | app.js:18-23 | no one logged in, no checks, the stored accounts |
| CheckInApp.App.UpdateUserChecks | app.js:324-339 | the stored accounts become SaveChecks of the session's checks and score |
| CheckInApp.App.Login | app.js:81-139 | the account is found or created, the session is the account, and a non-empty invite token held by an account is then handled as JoinInviter: when the user does not list the inviter yet, each is added to the other's connections unless already there |
| CheckInApp.App.Register | app.js:84-98 | the stored accounts become Registered, and the returned account is the one with the name |
| CheckInApp.App.JoinInviter | app.js:109-128 | an unknown token changes nothing; a user who already lists the inviter changes nothing; otherwise the user's list gains the inviter and the inviter's list gains the user, each unless already there |
| CheckInApp.App.Logout | app.js:143-148 | the session ends; checks and accounts stay |
| CheckInApp.App.CreateCheck | app.js:238-271 | without a session or connections nothing changes; otherwise one pending check to the only connection (or the selected one when there are several), expiring in five minutes, is put at the front and saved |
| CheckInApp.App.UpdateSenderCheckStatus | app.js:304-322 | the stored accounts become MarkSenderConfirmed |
| CheckInApp.App.ConfirmCheck | app.js:273-301 | unknown check, no session, not the receiver, too late: each outcome iff its condition, with nothing changed or (too late) the check expired; otherwise the check is confirmed, +10 points, saved for both users |
| CheckInApp.App.TimerTick | app.js:446-469 | before the deadline nothing changes; at it the checks become TimerExpire, and the change is saved |
| CheckInApp.ConfirmThenDeadline | app.js:273-301 | with the corrected tick, a check confirmed before its deadline stays confirmed at the deadline |
| ConnectionStore.MessageCountAfterSend | js/connectionManager.js:103-104 | appending one message adds one to the count for each entry with that id |
| ConnectionStore.MessageCountIgnoresOthers | js/connectionManager.js:144-147 | removing messages of an id no listed entry has leaves the count alone |
| ConnectionStore.DeleteKeepsOtherCounts | js/connectionManager.js:48-62 | after a delete, the remaining entries count the same messages |
| ConnectionStore.MessageCountStatusBlind | js/connectionManager.js:144-147 | a status update, to active or inactive, leaves the count unchanged: the count ignores isActive and lastActivity |
| ConnectionStore.MessageCount | js/connectionManager.js:144-147 | the sum over the listed entries of their stored message counts |
| ConnectionStore.ListedIdOccurs | js/connectionManager.js:87-91 | an id some entry carries occurs at least once |
| ConnectionStore.SendRaisesMessageCount | js/connectionManager.js:83-114 | a sent message raises the stats' message count by the number of entries with that id, at least one |
| ConnectionStore.ConnectionStats | js/connectionManager.js:139-154 | total is the length, active the number of active entries, messages the per-entry sum |
| ConnectionStore.ConnectionManager.GetActiveConnections | js/connectionManager.js:8-16 | the stored list, or empty when nothing is stored |
| ConnectionStore.ConnectionManager.constructor | js/connectionManager.js:2-5 | empty storage |
| ConnectionStore.ConnectionManager.GetConnectionMessages | js/connectionManager.js:117-125 | the stored messages of the id, or empty when the item is absent |
| ConnectionStore.ConnectionManager.SaveConnection | js/connectionManager.js:19-45 | refused iff the email is stored, and nothing changes; otherwise one active entry is appended; emails stay unique |
| ConnectionStore.ConnectionManager.DeleteConnectionMessages | js/connectionManager.js:128-136 | the connection's messages are removed and nothing else |
| ConnectionStore.ConnectionManager.DeleteConnection | js/connectionManager.js:48-62 | every entry with the id and its messages go; emails stay unique |
| ConnectionStore.ConnectionManager.UpdateConnectionStatus | js/connectionManager.js:65-80 | the list becomes SetStatus; the result is None iff no entry has the id, else the first entry with the id, as updated: no earlier entry has the id |
| ConnectionStore.ConnectionManager.SendMessage | js/connectionManager.js:83-114 | refused iff no entry has the id, and nothing changes; otherwise one unread user message is appended and the connection is marked active |
| ConnectionStore.ConnectionManager.GetConnectionStats | js/connectionManager.js:139-154 | the stats of the stored list and messages |
| Connections.WithoutId | js/connectionManager.js:51 | exactly the entries without the id, each with all its copies, in order |
| Connections.WithoutAbsentId | utils/sessionManager.js:114 | removing an id no entry has changes nothing |
| Connections.SetStatus | js/connectionManager.js:68-72 | entries with the id get isActive and lastActivity now; all other entries and fields are unchanged |
| Connections.SetActive | utils/sessionManager.js:126-128 | entries with the id get isActive, and nothing else changes |
| Connections.SetStatusIdempotent | js/connectionManager.js:68-72 | setting the status twice is setting it once |
| Connections.FilterKeepsUniqueEmails | js/connectionManager.js:24-27 | filtering keeps the emails unique |
| Connections.ActiveCount | js/views/dashboard.js:36 | the number of active entries as ActiveIn counts them; so at most the length, zero iff none is active, the length iff all are |
| Connections.ActiveIn | js/views/dashboard.js:36 | the active entries counted one at a time |
| Connections.FilterActiveCounts | js/connectionManager.js:142 | filtering the active entries keeps as many as ActiveIn counts |
| SessionConnections.ConnectionSession.GetActiveConnections | utils/sessionManager.js:84-92 | the stored list, or empty when nothing is stored |
| SessionConnections.ConnectionSession.constructor | utils/sessionManager.js:83 | empty storage |
| SessionConnections.ConnectionSession.SaveConnection | utils/sessionManager.js:94-109 | always appends one active entry, duplicates included, and returns the stored list |
| SessionConnections.ConnectionSession.DeleteConnection | utils/sessionManager.js:111-121 | the stored list becomes WithoutId |
| SessionConnections.ConnectionSession.UpdateConnectionStatus | utils/sessionManager.js:123-135 | the stored list becomes SetActive |
| SessionConnections.SaveTwiceDuplicates | utils/sessionManager.js:94-109 | saving the same email twice stores it twice |
| ConnectionFilters.FilteredConnections | components/connections/ConnectionsList.js:8-17 | exactly the entries matching the search and passing the activity filter, each with all its copies, in order |
| ConnectionFilters.PassesActivity | components/connections/ConnectionsList.js:12-16 | `active` keeps active entries, `inactive` the others, anything else keeps all |
| ConnectionFilters.MatchesSearch | components/connections/ConnectionsList.js:9-10 | the lower-cased term occurs in the lower-cased name or email |
| ConnectionFilters.EmptySearchKeepsAll | components/connections/ConnectionsList.js:8-12 | an empty search under `all` keeps every entry |
| ConnectionFilters.ActiveInactiveSplitAll | components/connections/ConnectionsList.js:12-14 | `active` and `inactive` partition the `all` result |
| ConnectionFilters.UnknownFilterIsAll | components/connections/ConnectionsList.js:12-16 | any other filter value behaves like `all` |
| ConnectionFilters.ViewFilter | js/views/connections.js:241-253 | exactly the entries whose name (if any) or email contains the term and that pass the activity filter, each with all its copies, in order |
| ConnectionFilters.NamelessMatchesByEmail | js/views/connections.js:245-246 | an entry without a name is found through its email only |
| ConnectionFilters.ViewAgreesWithComponent | js/views/connections.js:148 | on named entries the view shows what the component shows for the typed term |
| ConnectionFilters.ConnectionsView.constructor | js/views/connections.js:2-6 | an empty search and the `all` filter |
| ConnectionFilters.ConnectionsView.OnSearchInput | js/views/connections.js:147-153 | the stored term is the typed value lower-cased, which lower-casing leaves unchanged |
| ConnectionFilters.ConnectionsView.OnFilterAll | js/views/connections.js:160-167 | the filter becomes `all` and the term is unchanged |
| ConnectionFilters.ConnectionsView.OnFilterActive | js/views/connections.js:169-176 | the filter becomes `active` and the term is unchanged |
| ConnectionFilters.ConnectionsView.OnFilterInactive | js/views/connections.js:178-185 | the filter becomes `inactive` and the term is unchanged |
| ConnectionFilters.ConnectionsView.RenderConnectionList | js/views/connections.js:241-258 | the shown list is ViewFilter; the empty state iff no entry passes |
| Dashboard.InsertByDate | js/views/dashboard.js:78-79 | inserting keeps the list newest first and adds exactly the one entry |
| Dashboard.SortByDate | js/views/dashboard.js:78-79 | a newest-first permutation of the list |
| Dashboard.RecentConnections | js/views/dashboard.js:78-80 | min(5, length) entries of the list, newest first, none older than any entry left out |
| Dashboard.PrefixOfNewestFirst | js/views/dashboard.js:80 | a prefix of a newest-first list is newest first and no older than the rest |
| Dashboard.FewConnectionsAllListed | js/views/dashboard.js:78-80 | with five entries or fewer every connection is listed |
| Routing.Resolve | js/router.js:41-46 | the registered handler, or the not-found handler when none is registered |
| Routing.AddRouteResolves | js/router.js:24-26 | an added route answers its path and no other |
| Routing.PathOf | js/router.js:36 | the pathname of a url: its longest prefix without `?` or `#` |
| Routing.PathOfPlainPath | js/router.js:36-38 | a url is its own pathname iff it has no `?` or `#`, so a url with a query is pushed on every navigation |
| Routing.InterceptsLink | js/router.js:16 | the href starts with `/` |
| Routing.Router.constructor | js/router.js:2-7 | no routes and the logging not-found handler |
| Routing.Router.AddRoute | js/router.js:24-26 | the route table gains or replaces one entry |
| Routing.Router.SetNotFoundHandler | js/router.js:29-31 | the not-found handler is replaced |
| Routing.Router.Navigate | js/router.js:34-47 | a history entry is pushed iff the path differs from the location's pathname, which then becomes the path's pathname; the resolved handler runs |
| Routing.Router.OnPopState | js/router.js:9-11 | navigates to the new location's pathname without pushing |
| Routing.Router.OnLinkClick | js/router.js:14-20 | a link starting with `/` is navigated to, pushing iff it differs from the pathname; any other is left to the browser |
| Routing.NavigateTwice | js/router.js:34-47 | navigating twice to a plain path pushes at most once; a path with a query pushes twice |

## Left out

- ConnectionFilters.FilteredConnections: the component throws on an entry without a name; the model requires every entry to be named instead of modelling the exception.
- Fields other than name and email that the caller's object carries are dropped; both `saveConnection`s spread the whole object into the stored entry.
- Routing.PathOf: percent-encoding and relative urls are not modelled; a url is taken to be an absolute path.
- DOM rendering, notifications, `initApp`, the event wiring and the settings, login and register views: these are presentation.
- Sockets, `emit` and broadcasts in server.js: the model records state changes and the reply to the caller only.
- The `setTimeout` delay in server.js: a callback may be fired at any time by `FireExpiry`. The two-minute delay appears only in `expiryTime`.
- The `setInterval` period in app.js: a tick is one `TimerTick` call at any instant.
- The connection rate percentage of the dashboard: floating point and `Math.round`.
- `toLowerCase` is modelled for ASCII letters only. Sort order compares code points, not UTF-16 code units.
- Both connection managers use the same localStorage key. They are modelled as separate stores. So `ConnectionManager.Valid`'s unique emails holds only for a store written by `ConnectionManager` alone: `ConnectionSession.SaveConnection` can write a duplicate email under the shared key, which the real manager would then read.
- JSON parse errors and storage exceptions in the connection managers are not modelled. The try/catch paths that log and return `[]` or `false` are unreachable in the model.
- `Date.now()` and `new Date().toISOString()` called twice within one handler are modelled as one instant `now`.
- Route keys that collide with `Object.prototype` names, and what a route handler does.
- `users[username]` lookups on prototype keys in server.js.
- Dashboard.SortByDate: stability of the comparator sort is built into the insertion but not stated as a lemma.
- check-manager.js `getDb` and the sql.js engine: the tables are modelled as a map and a row sequence in rowid order.
- db-init.js and reset-db.js are modelled only as far as their users-table column order.
- verify-db.js, storage.js, utils.js, auth.js, header.js, the React components other than ConnectionsList.js, and vite.config.js are not part of this model.

## Findings

| source | as written | input that shows it | evidently intended | confidence | as-written member | corrected member |
|---|---|---|---|---|---|---|
| check-manager.js:12-15 | reads the daily count at `values[0][3]` and the date at `values[0][4]` | the four-column users table of db-init.js: a user who sent 3 checks today, row `[id, score, 3, today]`; column 4 is `undefined`, so the limit never applies and the count is always reset to 1 | compare the row's daily count and last date by name, refusing the fourth check of the day | not executed | CheckManager.PositionalReadMissesLimit | CheckManager.CheckStore.SendCheck |
| app.js:449-458 | the interval marks the check `expired` at its deadline whatever its status, and intervals are not cleared when the list is re-rendered | a check the user sent to themselves (their own name among their connections) and confirmed before its deadline, whose interval is still running; at the deadline it becomes `expired` | only a still-pending check expires | not executed | CheckInApp.ConfirmedCheckExpiredByTimer | CheckInApp.TimerExpire |

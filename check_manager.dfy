/** The SQL-backed check lifecycle of check-manager.js. The sql.js database becomes the
    `users` and `checks` tables of a `CheckStore`; the clock, the calendar day and the uuid
    of a new check are parameters. */
module CheckManager {
  import opened Options
  import opened Seqs
  import Timer

  /** A sender may send at most three checks on one calendar day. */
  const DAILY_LIMIT := 3
  /** An open check expires once more than 30 minutes have passed since it was sent. */
  const CHECK_EXPIRY_MS := 30 * 60 * 1000

  type UserId = string
  type CheckId = string
  /** A calendar day in the `YYYY-MM-DD` form the source compares. */
  type Day = string

  /** A row of `users` by its named columns (score, daily_sent, last_sent_date); the id is the key. */
  datatype User = User(score: int, dailySent: int, lastSentDate: Day)

  /** A row of `checks`; `snoozedAt` is the nullable `snoozed_at`, `expired` the 0/1 column. */
  datatype Check = Check(id: CheckId, sender: UserId, receiver: UserId, message: string,
                         sentAt: int, snoozedAt: Option<int>, expired: bool)

  /** The errors `sendCheck` throws. `UnknownSender` is the TypeError of reading a missing row. */
  datatype SendError = UnknownSender | DailyLimitReached | PendingCheckExists

  datatype SendResult = Sent(id: CheckId) | Refused(error: SendError)

  /** Neither snoozed nor expired: the condition every query of the source filters on. */
  predicate IsOpen(c: Check) {
    c.snoozedAt.None? && !c.expired
  }

  /** The sweep's test: strictly more than the expiry time has passed. */
  predicate IsDue(c: Check, now: int) {
    now - c.sentAt > CHECK_EXPIRY_MS
  }

  /** The sweep's test is `isExpired` of timer.js with its default limit, so a check the
      sweep expires is one whose countdown already shows `Expired`. */
  lemma DueIsTimerExpired(c: Check, now: int)
    ensures IsDue(c, now) <==> Timer.IsExpired(now, c.sentAt, Timer.DEFAULT_LIMIT_MS)
    ensures IsDue(c, now) ==>
      Timer.FormatRemainingTime(Timer.GetRemainingTime(now, c.sentAt, Timer.DEFAULT_LIMIT_MS)) == Timer.Expired
  {
    if IsDue(c, now) {
      Timer.ExpiredHasNoTimeLeft(now, c.sentAt, Timer.DEFAULT_LIMIT_MS);
    }
  }

  /** The daily limit test on the user's named fields. */
  predicate LimitReached(u: User, today: Day) {
    u.lastSentDate == today && u.dailySent >= DAILY_LIMIT
  }

  /** An open check from `sender` to `receiver` exists; the opposite direction is not looked at. */
  predicate HasOpen(checks: seq<Check>, sender: UserId, receiver: UserId) {
    exists i | 0 <= i < |checks| :: checks[i].sender == sender && checks[i].receiver == receiver && IsOpen(checks[i])
  }

  /** `id` is the primary key of `checks`. */
  ghost predicate UniqueIds(checks: seq<Check>) {
    forall i, j :: 0 <= i < j < |checks| ==> checks[i].id != checks[j].id
  }

  /** At most one open check per sender-to-receiver direction. */
  ghost predicate OneOpenPerDirection(checks: seq<Check>) {
    forall i, j :: 0 <= i < j < |checks| && IsOpen(checks[i]) && IsOpen(checks[j]) ==>
      checks[i].sender != checks[j].sender || checks[i].receiver != checks[j].receiver
  }

  /** No user is recorded as having sent more than the daily limit. */
  ghost predicate WithinQuota(users: map<UserId, User>) {
    forall u :: u in users ==> users[u].dailySent <= DAILY_LIMIT
  }

  /** `UPDATE users SET score = score + k WHERE id = ?`: a missing id updates nothing. */
  function Bump(users: map<UserId, User>, id: UserId, k: int): (r: map<UserId, User>)
    ensures r.Keys == users.Keys
    ensures forall u :: u in users && u != id ==> r[u] == users[u]
    ensures id in users ==> r[id] == users[id].(score := users[id].score + k)
  {
    if id in users then users[id := users[id].(score := users[id].score + k)] else users
  }

  /** `SELECT * FROM checks WHERE id = ?`, first row. */
  function FindCheck(checks: seq<Check>, id: CheckId): (r: Option<Check>)
    ensures r.None? <==> forall i :: 0 <= i < |checks| ==> checks[i].id != id
    ensures r.Some? ==> r.value in checks && r.value.id == id
    ensures r.Some? && UniqueIds(checks) ==> forall i :: 0 <= i < |checks| && checks[i].id == id ==> checks[i] == r.value
  {
    if checks == [] then None
    else if checks[0].id == id then Some(checks[0])
    else FindCheck(checks[1..], id)
  }

  /** `UPDATE checks SET snoozed_at = now WHERE id = ?`. */
  function SnoozeRows(checks: seq<Check>, id: CheckId, now: int): (r: seq<Check>)
    ensures |r| == |checks|
    ensures forall k :: 0 <= k < |checks| ==>
      r[k] == if checks[k].id == id then checks[k].(snoozedAt := Some(now)) else checks[k]
  {
    seq(|checks|, k requires 0 <= k < |checks| =>
      if checks[k].id == id then checks[k].(snoozedAt := Some(now)) else checks[k])
  }

  /** `UPDATE checks SET expired = 1 WHERE id = ?`, once for each id in `ids`. */
  function ExpireRows(checks: seq<Check>, ids: set<CheckId>): (r: seq<Check>)
    ensures |r| == |checks|
    ensures forall k :: 0 <= k < |checks| ==>
      r[k] == if checks[k].id in ids then checks[k].(expired := true) else checks[k]
  {
    seq(|checks|, k requires 0 <= k < |checks| =>
      if checks[k].id in ids then checks[k].(expired := true) else checks[k])
  }

  /** `getIncomingChecks(user)`: the open checks sent to `user`, in table order. */
  function IncomingChecks(checks: seq<Check>, user: UserId): (r: seq<Check>)
    ensures forall c :: c in r <==> c in checks && c.receiver == user && IsOpen(c)
    ensures forall c :: multiset(r)[c] == if c.receiver == user && IsOpen(c) then multiset(checks)[c] else 0
    ensures IsSubsequence(r, checks)
  {
    var p := (c: Check) => c.receiver == user && IsOpen(c);
    FilterIsSubsequence(checks, p);
    FilterMultiplicity(checks, p);
    Filter(checks, p)
  }

  /** `getOutgoingChecks(user)`: the open checks sent by `user`, in table order. */
  function OutgoingChecks(checks: seq<Check>, user: UserId): (r: seq<Check>)
    ensures forall c :: c in r <==> c in checks && c.sender == user && IsOpen(c)
    ensures forall c :: multiset(r)[c] == if c.sender == user && IsOpen(c) then multiset(checks)[c] else 0
    ensures IsSubsequence(r, checks)
  {
    var p := (c: Check) => c.sender == user && IsOpen(c);
    FilterIsSubsequence(checks, p);
    FilterMultiplicity(checks, p);
    Filter(checks, p)
  }

  /** The rows `expireOldChecks` selects: the open checks, in table order. */
  function OpenChecks(checks: seq<Check>): (r: seq<Check>)
    ensures forall c :: c in r <==> c in checks && IsOpen(c)
    ensures forall c :: multiset(r)[c] == if IsOpen(c) then multiset(checks)[c] else 0
    ensures IsSubsequence(r, checks)
  {
    FilterIsSubsequence(checks, IsOpen);
    FilterMultiplicity(checks, IsOpen);
    Filter(checks, IsOpen)
  }

  /** The ids the sweep marks expired when it visits `visited` at time `now`. */
  function DueIds(visited: seq<Check>, now: int): (r: set<CheckId>)
    ensures forall id :: id in r <==> exists i :: 0 <= i < |visited| && visited[i].id == id && IsDue(visited[i], now)
  {
    if visited == [] then {}
    else
      var last := visited[|visited| - 1];
      DueIds(visited[..|visited| - 1], now) + (if IsDue(last, now) then {last.id} else {})
  }

  /** The points the sweep awards when it visits `visited`: +1 to the sender of each due check. */
  function AwardExpired(users: map<UserId, User>, visited: seq<Check>, now: int): (r: map<UserId, User>)
    ensures r.Keys == users.Keys
    ensures forall u :: u in users ==> r[u].dailySent == users[u].dailySent && r[u].lastSentDate == users[u].lastSentDate
  {
    if visited == [] then users
    else
      var last := visited[|visited| - 1];
      var before := AwardExpired(users, visited[..|visited| - 1], now);
      if IsDue(last, now) then Bump(before, last.sender, 1) else before
  }

  /** How many of the visited checks are due and were sent by `u`. */
  function DueFrom(visited: seq<Check>, u: UserId, now: int): nat
  {
    if visited == [] then 0
    else
      var last := visited[|visited| - 1];
      DueFrom(visited[..|visited| - 1], u, now) + (if IsDue(last, now) && last.sender == u then 1 else 0)
  }

  /** The `checks` table after `expireOldChecks(now)`. */
  function SweepChecks(checks: seq<Check>, now: int): seq<Check>
  {
    ExpireRows(checks, DueIds(OpenChecks(checks), now))
  }

  /** The `users` table after `expireOldChecks(now)`. */
  function SweepUsers(users: map<UserId, User>, checks: seq<Check>, now: int): map<UserId, User>
  {
    AwardExpired(users, OpenChecks(checks), now)
  }

  /** The sweep marks expired exactly the open checks that are due, and changes nothing else. */
  lemma SweepExpiresExactlyTheDue(checks: seq<Check>, now: int)
    requires UniqueIds(checks)
    ensures |SweepChecks(checks, now)| == |checks|
    ensures forall k :: 0 <= k < |checks| ==>
      SweepChecks(checks, now)[k] ==
        if IsOpen(checks[k]) && IsDue(checks[k], now) then checks[k].(expired := true) else checks[k]
  {
    var open := OpenChecks(checks);
    forall k | 0 <= k < |checks|
      ensures checks[k].id in DueIds(open, now) <==> IsOpen(checks[k]) && IsDue(checks[k], now)
    {
      if IsOpen(checks[k]) && IsDue(checks[k], now) {
        assert checks[k] in open;
        var i :| 0 <= i < |open| && open[i] == checks[k];
        assert open[i].id == checks[k].id;
      }
      if checks[k].id in DueIds(open, now) {
        var i :| 0 <= i < |open| && open[i].id == checks[k].id && IsDue(open[i], now);
        assert open[i] in checks;
        var j :| 0 <= j < |checks| && checks[j] == open[i];
        assert j == k;
      }
    }
  }

  /** Each user's score grows by the number of their open checks found due. */
  lemma {:induction false} AwardCountsDueChecks(users: map<UserId, User>, visited: seq<Check>, now: int, u: UserId)
    requires u in users
    ensures AwardExpired(users, visited, now)[u].score == users[u].score + DueFrom(visited, u, now)
  {
    if visited != [] {
      AwardCountsDueChecks(users, visited[..|visited| - 1], now, u);
    }
  }

  /** With nothing due among the visited checks, no points are awarded. */
  lemma {:induction false} NothingDueAwardsNothing(users: map<UserId, User>, visited: seq<Check>, now: int)
    requires forall i :: 0 <= i < |visited| ==> !IsDue(visited[i], now)
    ensures AwardExpired(users, visited, now) == users
    ensures DueIds(visited, now) == {}
  {
    if visited != [] {
      NothingDueAwardsNothing(users, visited[..|visited| - 1], now);
    }
  }

  /** A check the sweep left open was open and not due before it. */
  lemma SweepLeavesOnlyUndue(checks: seq<Check>, now: int)
    ensures forall c :: c in OpenChecks(SweepChecks(checks, now)) ==> c in checks && IsOpen(c) && !IsDue(c, now)
  {
    var open := OpenChecks(checks);
    var ids := DueIds(open, now);
    forall c | c in OpenChecks(SweepChecks(checks, now))
      ensures c in checks && IsOpen(c) && !IsDue(c, now)
    {
      var k :| 0 <= k < |checks| && SweepChecks(checks, now)[k] == c;
      assert c == checks[k] && c.id !in ids;
      assert c in open;
      var i :| 0 <= i < |open| && open[i] == c;
    }
  }

  /** Running the sweep again at the same time changes nothing and awards no more points:
      the checks it expired are excluded by the `expired = 0` condition. */
  lemma SweepIsIdempotent(users: map<UserId, User>, checks: seq<Check>, now: int)
    ensures SweepChecks(SweepChecks(checks, now), now) == SweepChecks(checks, now)
    ensures SweepUsers(users, SweepChecks(checks, now), now) == users
  {
    var after := SweepChecks(checks, now);
    SweepLeavesOnlyUndue(checks, now);
    var open := OpenChecks(after);
    forall i | 0 <= i < |open| ensures !IsDue(open[i], now) {
      assert open[i] in open;
    }
    NothingDueAwardsNothing(users, open, now);
    assert ExpireRows(after, {}) == after;
  }

  /** Two rounds of `UPDATE ... SET expired = 1` are one round over both sets of ids. */
  lemma ExpireRowsTwice(checks: seq<Check>, first: set<CheckId>, second: set<CheckId>)
    ensures ExpireRows(ExpireRows(checks, first), second) == ExpireRows(checks, first + second)
  {
  }

  /** One visit of the sweep: the rows and the scores after visiting `visited[i]`. */
  lemma SweepStep(checks: seq<Check>, users: map<UserId, User>, visited: seq<Check>, i: nat, now: int)
    requires i < |visited|
    ensures DueIds(visited[..i + 1], now) ==
      DueIds(visited[..i], now) + (if IsDue(visited[i], now) then {visited[i].id} else {})
    ensures ExpireRows(checks, DueIds(visited[..i + 1], now)) ==
      if IsDue(visited[i], now) then ExpireRows(ExpireRows(checks, DueIds(visited[..i], now)), {visited[i].id})
      else ExpireRows(checks, DueIds(visited[..i], now))
    ensures AwardExpired(users, visited[..i + 1], now) ==
      if IsDue(visited[i], now) then Bump(AwardExpired(users, visited[..i], now), visited[i].sender, 1)
      else AwardExpired(users, visited[..i], now)
  {
    assert visited[..i + 1][..i] == visited[..i];
    ExpireRowsTwice(checks, DueIds(visited[..i], now), {visited[i].id});
  }

  /** The sweep keeps the primary key and the one-open-check-per-direction rule. */
  lemma SweepKeepsInvariants(checks: seq<Check>, now: int)
    requires UniqueIds(checks) && OneOpenPerDirection(checks)
    ensures UniqueIds(SweepChecks(checks, now)) && OneOpenPerDirection(SweepChecks(checks, now))
  {
    ClosingKeepsInvariants(checks, SweepChecks(checks, now));
  }

  /** Expiring or snoozing rows keeps the ids and never opens a row. */
  lemma ClosingKeepsInvariants(checks: seq<Check>, closed: seq<Check>)
    requires |closed| == |checks|
    requires forall k :: 0 <= k < |checks| ==>
      closed[k].id == checks[k].id && closed[k].sender == checks[k].sender &&
      closed[k].receiver == checks[k].receiver && (IsOpen(closed[k]) ==> IsOpen(checks[k]))
    requires UniqueIds(checks) && OneOpenPerDirection(checks)
    ensures UniqueIds(closed) && OneOpenPerDirection(closed)
  {
  }

  /** A value in a result row of sql.js. */
  datatype SqlValue = Text(text: string) | Integer(n: int) | Null

  /** `row[i]` in JavaScript: an index past the end reads as `undefined`. */
  datatype Cell = Value(value: SqlValue) | Undefined

  function CellAt(row: seq<SqlValue>, i: nat): Cell {
    if i < |row| then Value(row[i]) else Undefined
  }

  /** `SELECT * FROM users` on the table db-init.js creates: id, score, daily_sent, last_sent_date. */
  function InitSchemaRow(id: UserId, u: User): seq<SqlValue> {
    [Text(id), Integer(u.score), Integer(u.dailySent), Text(u.lastSentDate)]
  }

  /** The same user on the table reset-db.js creates: id, name, score, checks_sent, last_reset_date. */
  function ResetSchemaRow(id: UserId, name: string, u: User): seq<SqlValue> {
    [Text(id), Text(name), Integer(u.score), Integer(u.dailySent), Text(u.lastSentDate)]
  }

  /** JavaScript's `cell >= DAILY_LIMIT`: NULL reads as 0; a date string and `undefined` are NaN.
      Every `Text` cell is taken as NaN: the cells read here hold a number or a date string. A numeric
      string, which JavaScript would coerce to its number, is outside the model. */
  predicate AtLeastLimit(cell: Cell) {
    match cell
    case Value(Integer(n)) => n >= DAILY_LIMIT
    case Value(Null) => 0 >= DAILY_LIMIT
    case _ => false
  }

  /** The test `lastDate === today` with `lastDate = values[0][4]`, as written. */
  predicate SameDayAsWritten(row: seq<SqlValue>, today: Day) {
    CellAt(row, 4) == Value(Text(today))
  }

  /** The daily limit test of `sendCheck` as written, reading the row by position. */
  predicate LimitReachedAsWritten(row: seq<SqlValue>, today: Day) {
    SameDayAsWritten(row, today) && AtLeastLimit(CellAt(row, 3))
  }

  /** On the four-column table the positional read sees `undefined` for the date, so the
      limit never applies and `updatedCount` is always 1. */
  lemma InitSchemaNeverLimits(id: UserId, u: User, today: Day)
    ensures !SameDayAsWritten(InitSchemaRow(id, u), today)
    ensures !LimitReachedAsWritten(InitSchemaRow(id, u), today)
  {
  }

  /** A user who has sent three checks today is refused by the named-field test and let
      through by the positional one. */
  lemma PositionalReadMissesLimit()
    ensures LimitReached(User(0, 3, "2024-05-01"), "2024-05-01")
    ensures !LimitReachedAsWritten(InitSchemaRow("fab", User(0, 3, "2024-05-01")), "2024-05-01")
  {
  }

  /** On the five-column table the positional read does find daily count and date. */
  lemma ResetSchemaMatchesNamedFields(id: UserId, name: string, u: User, today: Day)
    ensures LimitReachedAsWritten(ResetSchemaRow(id, name, u), today) == LimitReached(u, today)
  {
  }

  /** The `forEach` of `expireOldChecks` over the rows `selected`: each due row is marked
      expired and its sender gets a point. Returns both tables as they are afterwards. */
  method VisitSelected(checks: seq<Check>, users: map<UserId, User>, selected: seq<Check>, now: int)
    returns (cs: seq<Check>, us: map<UserId, User>)
    ensures cs == ExpireRows(checks, DueIds(selected, now))
    ensures us == AwardExpired(users, selected, now)
  {
    cs, us := checks, users;
    var i := 0;
    while i < |selected|
      invariant 0 <= i <= |selected|
      invariant cs == ExpireRows(checks, DueIds(selected[..i], now))
      invariant us == AwardExpired(users, selected[..i], now)
    {
      var c := selected[i];
      SweepStep(checks, users, selected, i, now);
      if now - c.sentAt > CHECK_EXPIRY_MS {
        cs := ExpireRows(cs, {c.id});
        us := Bump(us, c.sender, 1);
      }
      i := i + 1;
    }
    assert selected[..i] == selected;
  }

  /** `expireOldChecks`: select the open rows, then visit them. */
  method Sweep(checks: seq<Check>, users: map<UserId, User>, now: int) returns (cs: seq<Check>, us: map<UserId, User>)
    ensures cs == SweepChecks(checks, now)
    ensures us == SweepUsers(users, checks, now)
  {
    var selected := OpenChecks(checks);
    cs, us := VisitSelected(checks, users, selected, now);
  }

  /** The two tables of the check database. */
  class CheckStore {
    var users: map<UserId, User>
    var checks: seq<Check>

    ghost predicate Valid()
      reads this
    {
      UniqueIds(checks) && OneOpenPerDirection(checks) && WithinQuota(users)
    }

    /** A fresh database: the two users of db-init.js, no checks. */
    constructor (today: Day)
      ensures Valid()
      ensures users == map["fab" := User(0, 0, today), "dome" := User(0, 0, today)]
      ensures checks == []
    {
      users := map["fab" := User(0, 0, today), "dome" := User(0, 0, today)];
      checks := [];
    }

    /** `sendCheck(senderId, receiverId, message)` on day `today` at time `now`, with `checkId`
        the fresh uuid. */
    method SendCheck(senderId: UserId, receiverId: UserId, message: string, today: Day, now: int, checkId: CheckId)
      returns (r: SendResult)
      requires Valid()
      requires forall c :: c in checks ==> c.id != checkId
      modifies this
      ensures Valid()
      ensures r == Refused(UnknownSender) <==> senderId !in old(users)
      ensures r == Refused(DailyLimitReached) <==>
        senderId in old(users) && LimitReached(old(users)[senderId], today)
      ensures r == Refused(PendingCheckExists) <==>
        senderId in old(users) && !LimitReached(old(users)[senderId], today) &&
        HasOpen(old(checks), senderId, receiverId)
      ensures r.Refused? ==> users == old(users) && checks == old(checks)
      ensures r.Sent? ==> (
        r.id == checkId && senderId in old(users) &&
        checks == old(checks) + [Check(checkId, senderId, receiverId, message, now, None, false)] &&
        users == old(users)[senderId := User(old(users)[senderId].score,
          if old(users)[senderId].lastSentDate == today then old(users)[senderId].dailySent + 1 else 1,
          today)])
    {
      if senderId !in users {
        return Refused(UnknownSender);
      }
      var sender := users[senderId];
      if sender.lastSentDate == today && sender.dailySent >= DAILY_LIMIT {
        return Refused(DailyLimitReached);
      }
      var pending := exists i | 0 <= i < |checks| ::
        checks[i].sender == senderId && checks[i].receiver == receiverId && IsOpen(checks[i]);
      if pending {
        return Refused(PendingCheckExists);
      }
      checks := checks + [Check(checkId, senderId, receiverId, message, now, None, false)];
      var updatedCount := if sender.lastSentDate == today then sender.dailySent + 1 else 1;
      users := users[senderId := User(sender.score, updatedCount, today)];
      r := Sent(checkId);
    }

    /** `snoozeCheck(checkId)` at time `now`: no guard against a check already snoozed or expired. */
    method SnoozeCheck(checkId: CheckId, now: int)
      requires Valid()
      modifies this
      ensures Valid()
      ensures FindCheck(old(checks), checkId).None? ==> users == old(users) && checks == old(checks)
      ensures FindCheck(old(checks), checkId).Some? ==>
        var c := FindCheck(old(checks), checkId).value;
        checks == SnoozeRows(old(checks), checkId, now) &&
        users == Bump(Bump(old(users), c.sender, 1), c.receiver, 2)
    {
      var found := FindCheck(checks, checkId);
      if found.None? {
        return;
      }
      var c := found.value;
      ClosingKeepsInvariants(checks, SnoozeRows(checks, checkId, now));
      checks := SnoozeRows(checks, checkId, now);
      users := Bump(users, c.sender, 1);
      users := Bump(users, c.receiver, 2);
    }

    /** `expireOldChecks()` at time `now`. */
    method ExpireOldChecks(now: int)
      requires Valid()
      modifies this
      ensures Valid()
      ensures checks == SweepChecks(old(checks), now)
      ensures users == SweepUsers(old(users), old(checks), now)
    {
      SweepKeepsInvariants(checks, now);
      checks, users := Sweep(checks, users, now);
    }
  }
}

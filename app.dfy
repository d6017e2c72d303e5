/** The browser client of app.js. Its state is the logged-in `currentUser`, the `checks`
    array shown on screen and the `users` array kept in localStorage (here `stored`). The
    clock, the id `Date.now().toString()` gives a new check, a freshly generated invite token
    and the receiver chosen in the drop-down are parameters. */
module CheckInApp {
  import opened Options
  import opened Seqs
  import opened Text

  /** A check may be confirmed up to five minutes after it is created. */
  const CONFIRM_WINDOW_MS := 5 * 60 * 1000
  /** Points for confirming a check in time. */
  const CONFIRM_POINTS := 10

  datatype Status = Pending | Confirmed | Expired

  datatype Check = Check(id: string, timestamp: int, status: Status, expiresAt: int,
                         sender: string, receiver: string, pairId: string)

  /** An entry of the `users` array in localStorage. */
  datatype Account = Account(username: string, score: int, checks: seq<Check>,
                             connections: seq<string>, inviteToken: string)

  /** `currentUser`. Its `checks` array is the very array held in `checks`, so the model
      keeps that array once, in the `checks` field of `App`. */
  datatype Session = Session(username: string, score: int, connections: seq<string>,
                             inviteToken: string)

  /** What `confirmCheck` ends with. `NoSession` is the `TypeError` thrown when no user is
      logged in, which aborts the handler before it changes anything. */
  datatype ConfirmOutcome = UnknownCheck | NoSession | NotForYou | TooLate | ConfirmedNow

  /** What `renderChecks` lays out: the pending list and the history list. */
  datatype CheckView = CheckView(pending: seq<Check>, history: seq<Check>)

  function ByName(name: string): Account -> bool {
    (u: Account) => u.username == name
  }

  function ByToken(token: string): Account -> bool {
    (u: Account) => u.inviteToken == token
  }

  function ById(id: string): Check -> bool {
    (c: Check) => c.id == id
  }

  predicate NoDup(names: seq<string>) {
    forall i, j :: 0 <= i < j < |names| ==> names[i] != names[j]
  }

  // ---------------------------------------------------------------------------------------
  // generatePairId

  /** `generatePairId(user1, user2)`: the two names sorted by the default `sort` order,
      joined with `_`. */
  function PairId(user1: string, user2: string): string {
    if LexLessEq(user1, user2) then user1 + "_" + user2 else user2 + "_" + user1
  }

  /** The pair id starts with whichever name sorts first. */
  lemma PairIdSortsNames(user1: string, user2: string)
    ensures LexLessEq(user1, user2) ==> PairId(user1, user2) == user1 + "_" + user2
    ensures LexLessEq(user2, user1) ==> PairId(user1, user2) == user2 + "_" + user1
  {
    if LexLessEq(user1, user2) && LexLessEq(user2, user1) {
      LexAntisymmetric(user1, user2);
    }
  }

  /** Both members of a pair compute the same id. */
  lemma PairIdSymmetric(user1: string, user2: string)
    ensures PairId(user1, user2) == PairId(user2, user1)
  {
    LexTotal(user1, user2);
    PairIdSortsNames(user1, user2);
    PairIdSortsNames(user2, user1);
  }

  // ---------------------------------------------------------------------------------------
  // The invite connection of login

  /** `if (!list.includes(name)) list.push(name)`. */
  function Connect(list: seq<string>, name: string): (r: seq<string>)
    ensures name in r
    ensures forall x :: x in r <==> x in list || x == name
    ensures |list| <= |r| <= |list| + 1 && r[..|list|] == list
    ensures NoDup(list) ==> NoDup(r)
  {
    if name in list then list else list + [name]
  }

  /** The `users` array after `login` looked the user up, with a new account (score 0, no
      checks, no connections, the fresh invite token) appended when none had the name. */
  function Registered(stored: seq<Account>, username: string, token: string): (r: seq<Account>)
    ensures FirstIndex(r, ByName(username)) != -1
    ensures |stored| <= |r| && r[..|stored|] == stored
    ensures FirstIndex(stored, ByName(username)) != -1 ==> r == stored
    ensures FirstIndex(stored, ByName(username)) == -1 ==>
      r == stored + [Account(username, 0, [], [], token)]
  {
    if FirstIndex(stored, ByName(username)) != -1 then stored
    else
      var r := stored + [Account(username, 0, [], [], token)];
      assert ByName(username)(r[|stored|]);
      r
  }

  // ---------------------------------------------------------------------------------------
  // renderChecks

  /** The other party of a check, seen from `user`. */
  function Counterpart(c: Check, user: string): string {
    if c.sender == user then c.receiver else c.sender
  }

  /** The `relevantChecks` test: the check involves `user`, and the other party is one of
      their connections. */
  predicate IsRelevant(c: Check, user: string, connections: seq<string>) {
    (c.sender == user || c.receiver == user) && Counterpart(c, user) in connections
  }

  /** `relevantChecks`: the checks that involve the logged-in user with a connected
      counterpart, in array order. */
  function RelevantChecks(checks: seq<Check>, s: Session): (r: seq<Check>)
    ensures forall c :: c in r <==> c in checks && IsRelevant(c, s.username, s.connections)
    ensures forall c :: (multiset(r)[c] ==
      if IsRelevant(c, s.username, s.connections) then multiset(checks)[c] else 0)
    ensures IsSubsequence(r, checks)
  {
    var p := (c: Check) => IsRelevant(c, s.username, s.connections);
    FilterIsSubsequence(checks, p);
    FilterMultiplicity(checks, p);
    Filter(checks, p)
  }

  /** The two lists `renderChecks` fills: pending and history together are exactly the
      relevant checks, split by `status == 'pending'`. An empty list is shown as
      "No pending checks" or "No check history". */
  function RenderChecks(checks: seq<Check>, s: Session): (v: CheckView)
    ensures forall c :: c in v.pending <==>
      c in checks && IsRelevant(c, s.username, s.connections) && c.status == Pending
    ensures forall c :: c in v.history <==>
      c in checks && IsRelevant(c, s.username, s.connections) && c.status != Pending
    ensures multiset(v.pending) + multiset(v.history) == multiset(RelevantChecks(checks, s))
    ensures |v.pending| + |v.history| == |RelevantChecks(checks, s)|
    ensures IsSubsequence(v.pending, RelevantChecks(checks, s))
    ensures IsSubsequence(v.history, RelevantChecks(checks, s))
  {
    var relevant := RelevantChecks(checks, s);
    var isPending := (c: Check) => c.status == Pending;
    var isHistory := (c: Check) => c.status != Pending;
    FilterPartition(relevant, isPending, isHistory);
    FilterIsSubsequence(relevant, isPending);
    FilterIsSubsequence(relevant, isHistory);
    CheckView(Filter(relevant, isPending), Filter(relevant, isHistory))
  }

  // ---------------------------------------------------------------------------------------
  // Storing checks and confirmations in `users`

  /** What `updateUserChecks` writes for the logged-in user: the first account with their
      name gets the current checks and score; every other account is untouched. */
  function SaveChecks(stored: seq<Account>, username: string, checks: seq<Check>, score: int)
    : (r: seq<Account>)
    ensures |r| == |stored|
    ensures forall j :: 0 <= j < |r| && r[j] != stored[j] ==> j == FirstIndex(stored, ByName(username))
    ensures FirstIndex(stored, ByName(username)) != -1 ==>
      var i := FirstIndex(stored, ByName(username));
      r[i].checks == checks && r[i].score == score && r[i].username == username &&
      r[i].connections == stored[i].connections && r[i].inviteToken == stored[i].inviteToken
  {
    var i := FirstIndex(stored, ByName(username));
    if i == -1 then stored else stored[i := stored[i].(checks := checks, score := score)]
  }

  /** What `updateSenderCheckStatus(check)` writes: unless the check has no sender or was
      sent by `currentName`, the first account named as the sender gets the first of its
      checks with the same id set to confirmed. */
  function MarkSenderConfirmed(stored: seq<Account>, check: Check, currentName: string)
    : (r: seq<Account>)
    ensures |r| == |stored|
    ensures forall j :: 0 <= j < |r| ==>
      r[j].username == stored[j].username && r[j].score == stored[j].score &&
      r[j].connections == stored[j].connections && r[j].inviteToken == stored[j].inviteToken &&
      |r[j].checks| == |stored[j].checks|
    ensures forall j, k :: 0 <= j < |r| && 0 <= k < |r[j].checks| && r[j].checks[k] != stored[j].checks[k] ==>
      r[j].username == check.sender && stored[j].checks[k].id == check.id &&
      r[j].checks[k] == stored[j].checks[k].(status := Confirmed)
    ensures forall j, k :: 0 <= j < |r| && 0 <= k < |r[j].checks| && r[j].checks[k] != stored[j].checks[k] ==>
      j == FirstIndex(stored, ByName(check.sender)) && k == FirstIndex(stored[j].checks, ById(check.id))
    ensures check.sender == "" || check.sender == currentName ==> r == stored
    ensures check.sender != "" && check.sender != currentName ==>
      var si := FirstIndex(stored, ByName(check.sender));
      si != -1 ==>
        var ci := FirstIndex(stored[si].checks, ById(check.id));
        ci != -1 ==> r[si].checks[ci].status == Confirmed
  {
    if check.sender == "" || check.sender == currentName then stored
    else
      var si := FirstIndex(stored, ByName(check.sender));
      if si == -1 then stored
      else
        var senderChecks := stored[si].checks;
        var ci := FirstIndex(senderChecks, ById(check.id));
        if ci == -1 then stored
        else
          stored[si := stored[si].(checks := senderChecks[ci := senderChecks[ci].(status := Confirmed)])]
  }

  // ---------------------------------------------------------------------------------------
  // The interval started by renderCheckItem

  /** The interval's test: nothing is left of the deadline. */
  predicate TimerSaysExpired(expiresAt: int, now: int) {
    expiresAt - now <= 0
  }

  /** `confirmCheck`'s test: the deadline has passed. */
  predicate ConfirmTooLate(expiresAt: int, now: int) {
    now > expiresAt
  }

  /** The two tests disagree at one instant only: at exactly the deadline the interval
      expires a check that `confirmCheck` would still confirm. */
  lemma DeadlineInstant(expiresAt: int, now: int)
    ensures ConfirmTooLate(expiresAt, now) ==> TimerSaysExpired(expiresAt, now)
    ensures TimerSaysExpired(expiresAt, now) && !ConfirmTooLate(expiresAt, now) <==> now == expiresAt
  {
  }

  /** The expiry branch of `updateTimer` as written: the first check with the id is set to
      expired whatever its status. */
  function TimerExpireAsWritten(checks: seq<Check>, checkId: string): (r: seq<Check>)
    ensures |r| == |checks|
    ensures forall j :: 0 <= j < |r| && r[j] != checks[j] ==> j == FirstIndex(checks, ById(checkId))
    ensures FirstIndex(checks, ById(checkId)) != -1 ==>
      r[FirstIndex(checks, ById(checkId))] == checks[FirstIndex(checks, ById(checkId))].(status := Expired)
  {
    var i := FirstIndex(checks, ById(checkId));
    if i == -1 then checks else checks[i := checks[i].(status := Expired)]
  }

  /** As written, an interval still running for a check that has since been confirmed turns
      it into an expired one at the deadline. */
  lemma ConfirmedCheckExpiredByTimer(checks: seq<Check>, i: nat)
    requires i < |checks| && checks[i].status == Confirmed
    requires forall j :: 0 <= j < i ==> checks[j].id != checks[i].id
    ensures TimerExpireAsWritten(checks, checks[i].id)[i].status == Expired
    ensures TimerExpireAsWritten(checks, checks[i].id)[i] != checks[i]
  {
    assert FirstIndex(checks, ById(checks[i].id)) == i;
  }

  /** The expiry branch as intended: only a check that is still pending expires. */
  function TimerExpire(checks: seq<Check>, checkId: string): (r: seq<Check>)
    ensures |r| == |checks|
    ensures forall j :: 0 <= j < |r| && checks[j].status != Pending ==> r[j] == checks[j]
    ensures forall j :: 0 <= j < |r| && r[j] != checks[j] ==>
      j == FirstIndex(checks, ById(checkId)) && r[j] == checks[j].(status := Expired)
    ensures FirstIndex(checks, ById(checkId)) != -1 &&
            checks[FirstIndex(checks, ById(checkId))].status == Pending ==>
      r[FirstIndex(checks, ById(checkId))].status == Expired
  {
    var i := FirstIndex(checks, ById(checkId));
    if i == -1 || checks[i].status != Pending then checks
    else checks[i := checks[i].(status := Expired)]
  }

  // ---------------------------------------------------------------------------------------
  // The client

  class App {
    var currentUser: Option<Session>
    var checks: seq<Check>
    var stored: seq<Account>

    /** Account names are unique, and no connection list names anyone twice. */
    ghost predicate Valid()
      reads this
    {
      (forall i, j :: 0 <= i < j < |stored| ==> stored[i].username != stored[j].username) &&
      (forall i :: 0 <= i < |stored| ==> NoDup(stored[i].connections)) &&
      (currentUser.Some? ==> NoDup(currentUser.value.connections))
    }

    /** The page before anyone logs in, over the accounts already in localStorage. */
    constructor (accounts: seq<Account>)
      requires forall i, j :: 0 <= i < j < |accounts| ==> accounts[i].username != accounts[j].username
      requires forall i :: 0 <= i < |accounts| ==> NoDup(accounts[i].connections)
      ensures Valid()
      ensures currentUser == None && checks == [] && stored == accounts
    {
      currentUser := None;
      checks := [];
      stored := accounts;
    }

    /** `updateUserChecks`. */
    method UpdateUserChecks()
      requires Valid()
      modifies this
      ensures Valid()
      ensures currentUser.None? ==> stored == old(stored)
      ensures currentUser.Some? ==>
        stored == SaveChecks(old(stored), currentUser.value.username, checks, currentUser.value.score)
      ensures checks == old(checks) && currentUser == old(currentUser)
    {
      if currentUser.Some? {
        stored := SaveChecks(stored, currentUser.value.username, checks, currentUser.value.score);
      }
    }

    /** `login(username)` with the `invite` token of the page's URL, if any (an empty token
        is falsy and counts as none); `freshToken` is
        the token `generateInviteToken` would make. Ends with `loadUserData` taking the
        account's checks. */
    method Login(username: string, invite: Option<string>, freshToken: string)
      requires Valid()
      modifies this
      ensures Valid()
      ensures var base := Registered(old(stored), username, freshToken);
        var user := base[FirstIndex(base, ByName(username))];
        currentUser.Some? && currentUser.value.username == username &&
        currentUser.value.score == user.score && checks == user.checks &&
        currentUser.value.inviteToken == (if user.inviteToken != "" then user.inviteToken else freshToken)
      ensures var base := Registered(old(stored), username, freshToken);
        var user := base[FirstIndex(base, ByName(username))];
        invite.None? || invite.value == "" || FirstIndex(base, ByToken(invite.value)) == -1 ==>
          stored == base && currentUser.value.connections == user.connections
      ensures var base := Registered(old(stored), username, freshToken);
        var user := base[FirstIndex(base, ByName(username))];
        invite.Some? && invite.value != "" && FirstIndex(base, ByToken(invite.value)) != -1 ==>
          var inviter := base[FirstIndex(base, ByToken(invite.value))].username;
          var j := FirstIndex(base, ByName(inviter));
          0 <= j < |base| &&
          currentUser.value.connections == Connect(user.connections, inviter) &&
          (inviter in user.connections ==> stored == base) &&
          (inviter !in user.connections ==>
            stored == base[j := base[j].(connections := Connect(base[j].connections, username))])
    {
      var user := Register(username, freshToken);
      var session := Session(user.username, user.score, user.connections,
                             if user.inviteToken != "" then user.inviteToken else freshToken);
      currentUser := Some(session);
      checks := user.checks;
      if invite.Some? && invite.value != "" {
        JoinInviter(invite.value);
      }
    }

    /** The look-up at the start of `login`: the account named `username`, created with
        score 0, no checks, no connections and `freshToken` when there is none. */
    method Register(username: string, freshToken: string) returns (user: Account)
      requires Valid()
      modifies this
      ensures Valid()
      ensures stored == Registered(old(stored), username, freshToken)
      ensures user == stored[FirstIndex(stored, ByName(username))]
      ensures checks == old(checks) && currentUser == old(currentUser)
    {
      ghost var before := stored;
      var i := FirstIndex(stored, ByName(username));
      if i == -1 {
        stored := stored + [Account(username, 0, [], [], freshToken)];
        i := |stored| - 1;
        assert forall j :: 0 <= j < |before| ==> stored[j] == before[j];
      }
      assert stored == Registered(before, username, freshToken);
      user := stored[FirstIndex(stored, ByName(username))];
    }

    /** The invite part of `login`: when an account holds the invite token and the
        logged-in user does not list its owner yet, each of the two is added to the other's
        connections (the inviter's side in the stored account, the user's side in
        `currentUser`) unless already there. */
    method JoinInviter(token: string)
      requires Valid() && currentUser.Some?
      modifies this
      ensures Valid()
      ensures checks == old(checks) && currentUser.Some?
      ensures FirstIndex(old(stored), ByToken(token)) == -1 ==>
        stored == old(stored) && currentUser == old(currentUser)
      ensures FirstIndex(old(stored), ByToken(token)) != -1 ==>
        var s := old(currentUser).value;
        var inviter := old(stored)[FirstIndex(old(stored), ByToken(token))].username;
        var j := FirstIndex(old(stored), ByName(inviter));
        0 <= j < |old(stored)| &&
        currentUser == Some(s.(connections := Connect(s.connections, inviter))) &&
        (inviter in s.connections ==> stored == old(stored)) &&
        (inviter !in s.connections ==>
          stored == old(stored)[j := old(stored)[j].(connections := Connect(old(stored)[j].connections, s.username))])
    {
      var session := currentUser.value;
      var k := FirstIndex(stored, ByToken(token));
      if k != -1 && stored[k].username !in session.connections {
        var inviter := stored[k].username;
        currentUser := Some(session.(connections := session.connections + [inviter]));
        var j := FirstIndex(stored, ByName(inviter));
        assert ByName(inviter)(stored[k]);
        if j != -1 && session.username !in stored[j].connections {
          stored := stored[j := stored[j].(connections := stored[j].connections + [session.username])];
        }
      }
    }

    /** `logout`. */
    method Logout()
      requires Valid()
      modifies this
      ensures Valid()
      ensures currentUser == None && checks == old(checks) && stored == old(stored)
    {
      currentUser := None;
    }

    /** `createCheck` at time `now`: with a logged-in user who has a connection, a pending
        check to the sole connection (or to `selected`, the drop-down's value, when there
        are several) is put at the front and stored. */
    method CreateCheck(selected: string, now: int, id: string)
      requires Valid()
      modifies this
      ensures Valid()
      ensures currentUser == old(currentUser)
      ensures old(currentUser).None? || old(currentUser).value.connections == [] ==>
        checks == old(checks) && stored == old(stored)
      ensures old(currentUser).Some? && old(currentUser).value.connections != [] ==>
        var s := old(currentUser).value;
        var receiver := if |s.connections| > 1 then selected else s.connections[0];
        checks == [Check(id, now, Pending, now + CONFIRM_WINDOW_MS, s.username, receiver,
                         PairId(s.username, receiver))] + old(checks) &&
        stored == SaveChecks(old(stored), s.username, checks, s.score)
    {
      if currentUser.None? {
        return;
      }
      var s := currentUser.value;
      if s.connections == [] {
        return;
      }
      var receiver;
      if |s.connections| > 1 {
        receiver := selected;
      } else {
        receiver := s.connections[0];
      }
      var newCheck := Check(id, now, Pending, now + CONFIRM_WINDOW_MS, s.username, receiver,
                            PairId(s.username, receiver));
      checks := [newCheck] + checks;
      UpdateUserChecks();
    }

    /** `updateSenderCheckStatus(check)`. */
    method UpdateSenderCheckStatus(check: Check)
      requires Valid() && currentUser.Some?
      modifies this
      ensures Valid()
      ensures checks == old(checks) && currentUser == old(currentUser)
      ensures stored == MarkSenderConfirmed(old(stored), check, currentUser.value.username)
    {
      stored := MarkSenderConfirmed(stored, check, currentUser.value.username);
    }

    /** `confirmCheck(checkId)` at time `now`. Only the receiver may confirm; past the
        deadline the check becomes expired, otherwise it is confirmed, the receiver gets ten
        points and the sender's stored copy is confirmed too. */
    method ConfirmCheck(checkId: string, now: int) returns (outcome: ConfirmOutcome)
      requires Valid()
      modifies this
      ensures Valid()
      ensures outcome == UnknownCheck <==> FirstIndex(old(checks), ById(checkId)) == -1
      ensures outcome == NoSession <==>
        FirstIndex(old(checks), ById(checkId)) != -1 && old(currentUser).None?
      ensures outcome == NotForYou <==>
        var i := FirstIndex(old(checks), ById(checkId));
        i != -1 && old(currentUser).Some? && old(checks)[i].receiver != old(currentUser).value.username
      ensures outcome == TooLate <==>
        var i := FirstIndex(old(checks), ById(checkId));
        i != -1 && old(currentUser).Some? && old(checks)[i].receiver == old(currentUser).value.username &&
        ConfirmTooLate(old(checks)[i].expiresAt, now)
      ensures outcome in {UnknownCheck, NoSession, NotForYou} ==>
        checks == old(checks) && currentUser == old(currentUser) && stored == old(stored)
      ensures outcome == TooLate ==>
        var i := FirstIndex(old(checks), ById(checkId));
        var s := old(currentUser).value;
        checks == old(checks)[i := old(checks)[i].(status := Expired)] &&
        currentUser == old(currentUser) &&
        stored == SaveChecks(old(stored), s.username, checks, s.score)
      ensures outcome == ConfirmedNow ==>
        var i := FirstIndex(old(checks), ById(checkId));
        var s := old(currentUser).value;
        checks == old(checks)[i := old(checks)[i].(status := Confirmed)] &&
        currentUser == Some(s.(score := s.score + CONFIRM_POINTS)) &&
        stored == SaveChecks(MarkSenderConfirmed(old(stored), old(checks)[i], s.username),
                             s.username, checks, s.score + CONFIRM_POINTS)
    {
      var i := FirstIndex(checks, ById(checkId));
      if i == -1 {
        return UnknownCheck;
      }
      if currentUser.None? {
        return NoSession;
      }
      var check := checks[i];
      if check.receiver != currentUser.value.username {
        return NotForYou;
      }
      if ConfirmTooLate(check.expiresAt, now) {
        checks := checks[i := check.(status := Expired)];
        outcome := TooLate;
      } else {
        checks := checks[i := check.(status := Confirmed)];
        currentUser := Some(currentUser.value.(score := currentUser.value.score + CONFIRM_POINTS));
        UpdateSenderCheckStatus(check);
        outcome := ConfirmedNow;
      }
      UpdateUserChecks();
    }

    /** One tick at time `now` of the interval `renderCheckItem` started for the check
        `checkId` with deadline `expiresAt`. At the deadline the check, if still pending,
        becomes expired and is stored; before it only the display changes. */
    method TimerTick(checkId: string, expiresAt: int, now: int)
      requires Valid()
      modifies this
      ensures Valid()
      ensures currentUser == old(currentUser)
      ensures !TimerSaysExpired(expiresAt, now) ==> checks == old(checks) && stored == old(stored)
      ensures TimerSaysExpired(expiresAt, now) ==> checks == TimerExpire(old(checks), checkId)
      ensures TimerSaysExpired(expiresAt, now) && checks != old(checks) ==>
        currentUser.None? ==> stored == old(stored)
      ensures TimerSaysExpired(expiresAt, now) && checks != old(checks) && currentUser.Some? ==>
        stored == SaveChecks(old(stored), currentUser.value.username, checks, currentUser.value.score)
      ensures checks == old(checks) ==> stored == old(stored)
    {
      if TimerSaysExpired(expiresAt, now) {
        var i := FirstIndex(checks, ById(checkId));
        if i != -1 && checks[i].status == Pending {
          checks := checks[i := checks[i].(status := Expired)];
          UpdateUserChecks();
        }
      }
    }
  }

  /** A confirmation is final: the interval of a check confirmed before its deadline leaves
      it confirmed and takes no points away. */
  method ConfirmThenDeadline(app: App, checkId: string, expiresAt: int, confirmedAt: int, later: int)
    requires app.Valid()
    requires later >= expiresAt
    modifies app
  {
    var i := FirstIndex(app.checks, ById(checkId));
    var outcome := app.ConfirmCheck(checkId, confirmedAt);
    if outcome == ConfirmedNow {
      assert app.checks[i].status == Confirmed;
      var score := app.currentUser.value.score;
      app.TimerTick(checkId, expiresAt, later);
      assert app.checks[i].status == Confirmed;
      assert app.currentUser.value.score == score;
    }
  }
}

/** The socket server of server.js: two fixed players, a points table, one global active
    check and the expiry callbacks it schedules. Each socket handler runs to completion, so
    every handler is one method. The socket a handler runs for is a parameter; the uuid of a
    new check and the clock are parameters too. */
module GameServer {
  import opened Options

  /** A check expires two minutes after it is sent. */
  const EXPIRY_DELAY_MS := 2 * 60 * 1000
  /** Points the sender gets when a check expires, and the receiver when they snooze it. */
  const EXPIRE_AWARD := 1
  const SNOOZE_AWARD := 2

  type Username = string
  type SocketId = string
  type CheckId = string

  /** An entry of `users`. */
  datatype Player = Player(points: nat, online: bool, socketId: Option<SocketId>)

  /** The value of `activeCheck`. */
  datatype ActiveCheck = ActiveCheck(id: CheckId, sender: Username, receiver: Username,
                                     expiryTime: int, createdAt: int)

  /** A `setTimeout` expiry callback and the check id and sender it captured. */
  datatype Timer = Timer(checkId: CheckId, sender: Username)

  /** The `error` or `loginError` event a handler sends back to its own socket. */
  datatype Failure = InvalidUsername | NotLoggedIn | CheckAlreadyActive | OtherUserOffline
                   | CheckNotFound | NotForYou

  datatype Reply = Ok | Error(failure: Failure)

  /** How a check ended. */
  datatype Resolution = SnoozedBy(id: CheckId) | ExpiredAfterDelay(id: CheckId)

  /** The other of the two players. */
  function Other(u: Username): (r: Username)
    ensures u == "fab" ==> r == "dome"
    ensures u == "dome" ==> r == "fab"
  {
    if u == "fab" then "dome" else "fab"
  }

  function ResolvedId(r: Resolution): CheckId {
    match r
    case SnoozedBy(id) => id
    case ExpiredAfterDelay(id) => id
  }

  class Server {
    var users: map<Username, Player>
    var activeCheck: Option<ActiveCheck>
    /** `socket.username` of each connected socket that has logged in. */
    var sessions: map<SocketId, Username>
    /** Expiry callbacks scheduled and not yet fired. */
    var timers: seq<Timer>
    /** Every check id handed out so far. */
    ghost var issued: set<CheckId>
    /** How each resolved check ended, in order. */
    ghost var resolutions: seq<Resolution>

    ghost predicate Valid()
      reads this
    {
      users.Keys == {"fab", "dome"} &&
      (forall s :: s in sessions ==> sessions[s] in users) &&
      (forall t :: t in timers ==> t.checkId in issued && t.sender in users) &&
      (forall i :: 0 <= i < |resolutions| ==> ResolvedId(resolutions[i]) in issued) &&
      // every check is resolved at most once
      (forall i, j :: 0 <= i < j < |resolutions| ==> ResolvedId(resolutions[i]) != ResolvedId(resolutions[j])) &&
      (activeCheck.Some? ==>
        var a := activeCheck.value;
        a.id in issued && a.sender in users && a.receiver == Other(a.sender) &&
        Timer(a.id, a.sender) in timers &&
        (forall t :: t in timers && t.checkId == a.id ==> t.sender == a.sender) &&
        (forall i :: 0 <= i < |resolutions| ==> ResolvedId(resolutions[i]) != a.id))
    }

    /** The server at start-up: both players offline with no points, no check. */
    constructor ()
      ensures Valid()
      ensures users == map["fab" := Player(0, false, None), "dome" := Player(0, false, None)]
      ensures activeCheck == None && sessions == map[] && timers == []
      ensures issued == {} && resolutions == []
    {
      users := map["fab" := Player(0, false, None), "dome" := Player(0, false, None)];
      activeCheck := None;
      sessions := map[];
      timers := [];
      issued := {};
      resolutions := [];
    }

    /** The `login` handler of socket `socket`. */
    method Login(socket: SocketId, username: Username) returns (reply: Reply)
      requires Valid()
      modifies this
      ensures Valid()
      ensures reply.Error? <==> username !in old(users)
      ensures reply.Error? ==> reply.failure == InvalidUsername
      ensures reply.Error? ==> users == old(users) && sessions == old(sessions)
      ensures reply == Ok ==>
        users == old(users)[username := old(users)[username].(online := true, socketId := Some(socket))] &&
        sessions == old(sessions)[socket := username]
      ensures activeCheck == old(activeCheck) && timers == old(timers)
      ensures issued == old(issued) && resolutions == old(resolutions)
    {
      if username in users {
        users := users[username := users[username].(online := true, socketId := Some(socket))];
        sessions := sessions[socket := username];
        reply := Ok;
      } else {
        reply := Error(InvalidUsername);
      }
    }

    /** The `logout` handler: the player goes offline and the socket forgets its user. */
    method Logout(socket: SocketId)
      requires Valid()
      modifies this
      ensures Valid()
      ensures socket !in old(sessions) ==> users == old(users) && sessions == old(sessions)
      ensures socket in old(sessions) ==>
        var u := old(sessions)[socket];
        users == old(users)[u := old(users)[u].(online := false)] &&
        sessions == old(sessions) - {socket}
      ensures activeCheck == old(activeCheck) && timers == old(timers)
      ensures issued == old(issued) && resolutions == old(resolutions)
    {
      if socket in sessions {
        var username := sessions[socket];
        users := users[username := users[username].(online := false)];
        sessions := sessions - {socket};
      }
    }

    /** The `disconnect` handler: the player goes offline and loses the socket id. The socket
        is gone, so it is dropped from `sessions`. */
    method Disconnect(socket: SocketId)
      requires Valid()
      modifies this
      ensures Valid()
      ensures socket !in old(sessions) ==> users == old(users) && sessions == old(sessions)
      ensures socket in old(sessions) ==>
        var u := old(sessions)[socket];
        users == old(users)[u := old(users)[u].(online := false, socketId := None)] &&
        sessions == old(sessions) - {socket}
      ensures activeCheck == old(activeCheck) && timers == old(timers)
      ensures issued == old(issued) && resolutions == old(resolutions)
    {
      if socket in sessions {
        var username := sessions[socket];
        users := users[username := users[username].(online := false, socketId := None)];
        sessions := sessions - {socket};
      }
    }

    /** The `sendCheck` handler at time `now`, with `checkId` the fresh uuid; on success it
        also schedules the expiry callback. */
    method SendCheck(socket: SocketId, now: int, checkId: CheckId) returns (reply: Reply)
      requires Valid()
      requires checkId !in issued
      modifies this
      ensures Valid()
      ensures reply == Error(NotLoggedIn) <==> socket !in old(sessions)
      ensures reply == Error(CheckAlreadyActive) <==> socket in old(sessions) && old(activeCheck).Some?
      ensures reply == Error(OtherUserOffline) <==>
        socket in old(sessions) && old(activeCheck).None? &&
        !old(users)[Other(old(sessions)[socket])].online
      ensures reply.Error? ==> reply.failure in {NotLoggedIn, CheckAlreadyActive, OtherUserOffline}
      ensures reply.Error? ==>
        activeCheck == old(activeCheck) && timers == old(timers) && issued == old(issued)
      ensures reply == Ok ==>
        var sender := old(sessions)[socket];
        activeCheck == Some(ActiveCheck(checkId, sender, Other(sender), now + EXPIRY_DELAY_MS, now)) &&
        timers == old(timers) + [Timer(checkId, sender)] &&
        issued == old(issued) + {checkId}
      ensures users == old(users) && sessions == old(sessions) && resolutions == old(resolutions)
    {
      if socket !in sessions {
        return Error(NotLoggedIn);
      }
      var sender := sessions[socket];
      if activeCheck.Some? {
        return Error(CheckAlreadyActive);
      }
      var receiver := Other(sender);
      if !users[receiver].online {
        return Error(OtherUserOffline);
      }
      activeCheck := Some(ActiveCheck(checkId, sender, receiver, now + EXPIRY_DELAY_MS, now));
      timers := timers + [Timer(checkId, sender)];
      issued := issued + {checkId};
      reply := Ok;
    }

    /** The `snoozeCheck` handler: only the receiver of the active check may snooze it; they
        get two points and the check is cleared. */
    method SnoozeCheck(socket: SocketId, checkId: CheckId) returns (reply: Reply)
      requires Valid()
      modifies this
      ensures Valid()
      ensures reply == Error(NotLoggedIn) <==> socket !in old(sessions)
      ensures reply == Error(CheckNotFound) <==>
        socket in old(sessions) && (old(activeCheck).None? || old(activeCheck).value.id != checkId)
      ensures reply == Error(NotForYou) <==>
        socket in old(sessions) && old(activeCheck).Some? && old(activeCheck).value.id == checkId &&
        old(sessions)[socket] != old(activeCheck).value.receiver
      ensures reply.Error? ==> reply.failure in {NotLoggedIn, CheckNotFound, NotForYou}
      ensures reply.Error? ==>
        users == old(users) && activeCheck == old(activeCheck) && resolutions == old(resolutions)
      ensures reply == Ok ==>
        var u := old(sessions)[socket];
        users == old(users)[u := old(users)[u].(points := old(users)[u].points + SNOOZE_AWARD)] &&
        activeCheck == None &&
        resolutions == old(resolutions) + [SnoozedBy(checkId)]
      ensures sessions == old(sessions) && timers == old(timers) && issued == old(issued)
    {
      if socket !in sessions {
        return Error(NotLoggedIn);
      }
      var username := sessions[socket];
      if activeCheck.None? || activeCheck.value.id != checkId {
        return Error(CheckNotFound);
      }
      if username != activeCheck.value.receiver {
        return Error(NotForYou);
      }
      users := users[username := users[username].(points := users[username].points + SNOOZE_AWARD)];
      resolutions := resolutions + [SnoozedBy(checkId)];
      activeCheck := None;
      reply := Ok;
    }

    /** The scheduled callback `timers[k]` fires: it acts only if the check it was scheduled
        for is still the active one, giving the sender a point and clearing the check. */
    method FireExpiry(k: nat)
      requires Valid()
      requires k < |timers|
      modifies this
      ensures Valid()
      ensures timers == old(timers[..k] + timers[k + 1..])
      ensures old(activeCheck).None? || old(activeCheck).value.id != old(timers[k]).checkId ==>
        users == old(users) && activeCheck == old(activeCheck) && resolutions == old(resolutions)
      ensures old(activeCheck).Some? && old(activeCheck).value.id == old(timers[k]).checkId ==>
        var s := old(timers[k]).sender;
        s == old(activeCheck).value.sender &&
        users == old(users)[s := old(users)[s].(points := old(users)[s].points + EXPIRE_AWARD)] &&
        activeCheck == None &&
        resolutions == old(resolutions) + [ExpiredAfterDelay(old(timers[k]).checkId)]
      ensures sessions == old(sessions) && issued == old(issued)
    {
      var t := timers[k];
      timers := timers[..k] + timers[k + 1..];
      if activeCheck.Some? && activeCheck.value.id == t.checkId {
        users := users[t.sender := users[t.sender].(points := users[t.sender].points + EXPIRE_AWARD)];
        resolutions := resolutions + [ExpiredAfterDelay(t.checkId)];
        activeCheck := None;
      }
    }
  }

  /** A snooze and the expiry callback of the same check: the callback that fires after the
      snooze changes no points, so the check is resolved once. */
  method SnoozeThenExpiry(fabSocket: SocketId, domeSocket: SocketId, now: int, id: CheckId)
    requires fabSocket != domeSocket
  {
    var server := new Server();
    var r := server.Login(fabSocket, "fab");
    assert server.sessions == map[fabSocket := "fab"];
    r := server.Login(domeSocket, "dome");
    assert server.sessions[fabSocket] == "fab" && server.sessions[domeSocket] == "dome";
    assert server.users["dome"].online && server.users["dome"].points == 0;
    r := server.SendCheck(fabSocket, now, id);
    assert r == Ok;
    assert server.activeCheck == Some(ActiveCheck(id, "fab", "dome", now + EXPIRY_DELAY_MS, now));
    r := server.SnoozeCheck(domeSocket, id);
    assert r == Ok;
    assert server.users["dome"].points == SNOOZE_AWARD;
    assert server.timers == [Timer(id, "fab")];
    server.FireExpiry(0);
    assert server.users["fab"].points == 0 && server.users["dome"].points == SNOOZE_AWARD;
    assert server.resolutions == [SnoozedBy(id)];
  }
}

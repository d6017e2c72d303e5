/** The `ConnectionManager` class of js/connectionManager.js. Its storage is localStorage: the
    item `user_connections` (here `stored`, `None` while the item is absent) and one item
    `user_messages_<id>` per connection (here the map `messages`). The clock and the ids that
    `Date.now()` would produce are parameters. */
module ConnectionStore {
  import opened Options
  import opened Seqs
  import opened Connections

  /** A message sent to a connection. */
  datatype Message = Message(id: string, connectionId: string, text: string, timestamp: int,
                             sender: string, isRead: bool)

  /** What `getConnectionStats` returns. */
  datatype Stats = Stats(totalConnections: nat, activeConnections: nat, messageCount: nat)

  /** The errors `saveConnection` and `sendMessage` throw. */
  datatype StoreError = ConnectionAlreadyExists | ConnectionNotFound

  datatype Result<T> = Ok(value: T) | Failure(error: StoreError)

  function ByEmail(email: string): Connection -> bool {
    (c: Connection) => c.email == email
  }

  function WithId(connectionId: string): Connection -> bool {
    (c: Connection) => c.id == connectionId
  }

  /** `getConnectionMessages(id)`: the stored messages, or none when the item is absent. */
  function MessagesOf(messages: map<string, seq<Message>>, connectionId: string): seq<Message> {
    if connectionId in messages then messages[connectionId] else []
  }

  /** The `reduce` of `getConnectionStats`: the number of messages stored for the listed
      connections, a connection listed twice counting twice. */
  function MessageCount(connections: seq<Connection>, messages: map<string, seq<Message>>): nat {
    if connections == [] then 0
    else MessageCount(connections[..|connections| - 1], messages)
         + |MessagesOf(messages, connections[|connections| - 1].id)|
  }

  /** The entries of the list that carry the id. */
  function Occurrences(connections: seq<Connection>, connectionId: string): nat {
    |Filter(connections, WithId(connectionId))|
  }

  /** The count of a list with one more entry at the back. */
  lemma MessageCountSnoc(init: seq<Connection>, last: Connection, messages: map<string, seq<Message>>)
    ensures MessageCount(init + [last], messages) == MessageCount(init, messages) + |MessagesOf(messages, last.id)|
  {
    assert (init + [last])[..|init|] == init;
  }

  /** Appending one message to the list of `connectionId` adds one to the message count
      for every entry with that id, and nothing for the others. */
  lemma {:induction false} MessageCountAfterSend(connections: seq<Connection>,
                                                 messages: map<string, seq<Message>>,
                                                 connectionId: string, m: Message)
    ensures MessageCount(connections, messages[connectionId := MessagesOf(messages, connectionId) + [m]])
         == MessageCount(connections, messages) + Occurrences(connections, connectionId)
  {
    if connections != [] {
      var sent := messages[connectionId := MessagesOf(messages, connectionId) + [m]];
      var init := connections[..|connections| - 1];
      var last := connections[|connections| - 1];
      assert connections == init + [last];
      MessageCountAfterSend(init, messages, connectionId, m);
      MessageCountSnoc(init, last, messages);
      MessageCountSnoc(init, last, sent);
      FilterAppend(init, last, WithId(connectionId));
      assert |MessagesOf(sent, last.id)|
          == |MessagesOf(messages, last.id)| + (if last.id == connectionId then 1 else 0);
    }
  }

  /** Forgetting the messages of an id no listed connection has leaves the count alone. */
  lemma {:induction false} MessageCountIgnoresOthers(connections: seq<Connection>,
                                                     messages: map<string, seq<Message>>,
                                                     connectionId: string)
    requires forall j :: 0 <= j < |connections| ==> connections[j].id != connectionId
    ensures MessageCount(connections, messages - {connectionId}) == MessageCount(connections, messages)
  {
    if connections != [] {
      MessageCountIgnoresOthers(connections[..|connections| - 1], messages, connectionId);
    }
  }

  /** After `deleteConnection`, the remaining connections count the same messages as
      before: only the deleted connection's messages were removed. */
  lemma DeleteKeepsOtherCounts(connections: seq<Connection>, messages: map<string, seq<Message>>,
                               connectionId: string)
    ensures MessageCount(WithoutId(connections, connectionId), messages - {connectionId})
         == MessageCount(WithoutId(connections, connectionId), messages)
  {
    var rest := WithoutId(connections, connectionId);
    assert forall j :: 0 <= j < |rest| ==> rest[j] in rest;
    MessageCountIgnoresOthers(rest, messages, connectionId);
  }

  /** `getConnectionStats` over the stored list and messages. */
  function ConnectionStats(connections: seq<Connection>, messages: map<string, seq<Message>>): (s: Stats)
    ensures s.totalConnections == |connections|
    ensures s.activeConnections == ActiveIn(connections) && s.activeConnections <= s.totalConnections
    ensures s.messageCount == MessageCount(connections, messages)
  {
    Stats(|connections|, ActiveCount(connections), MessageCount(connections, messages))
  }

  class ConnectionManager {
    var stored: Option<seq<Connection>>
    var messages: map<string, seq<Message>>

    /** `getActiveConnections`: the stored list, or the empty list while nothing is stored. */
    function GetActiveConnections(): (r: seq<Connection>)
      reads this
      ensures stored.None? ==> r == []
      ensures stored.Some? ==> r == stored.value
    {
      stored.GetOr([])
    }

    /** No two stored connections share an email. */
    ghost predicate Valid()
      reads this
    {
      UniqueEmails(GetActiveConnections())
    }

    /** A manager over empty storage. */
    constructor ()
      ensures Valid()
      ensures stored == None && messages == map[]
    {
      stored := None;
      messages := map[];
    }

    /** `getConnectionMessages(connectionId)`. */
    function GetConnectionMessages(connectionId: string): (r: seq<Message>)
      reads this
      ensures connectionId !in messages ==> r == []
      ensures connectionId in messages ==> r == messages[connectionId]
    {
      MessagesOf(messages, connectionId)
    }

    /** `saveConnection(connection)` at time `now`, with `connectionId` the id
        `connection_<Date.now()>`: refused when the email is already stored, otherwise the
        connection is appended as active. */
    method SaveConnection(connection: NewConnection, connectionId: string, now: int)
      returns (r: Result<Connection>)
      requires Valid()
      modifies this
      ensures Valid()
      ensures r.Failure? <==>
        exists j :: 0 <= j < |old(GetActiveConnections())| && old(GetActiveConnections())[j].email == connection.email
      ensures r.Failure? ==> r.error == ConnectionAlreadyExists && stored == old(stored)
      ensures r.Ok? ==>
        r.value == Connection(connectionId, connection.name, connection.email, now, true, Some(now)) &&
        stored == Some(old(GetActiveConnections()) + [r.value])
      ensures messages == old(messages)
    {
      var connections := GetActiveConnections();
      var existing := FirstIndex(connections, ByEmail(connection.email));
      if existing != -1 {
        return Failure(ConnectionAlreadyExists);
      }
      var newConnection := Connection(connectionId, connection.name, connection.email, now, true, Some(now));
      stored := Some(connections + [newConnection]);
      r := Ok(newConnection);
    }

    /** `deleteConnectionMessages(connectionId)`. */
    method DeleteConnectionMessages(connectionId: string) returns (ok: bool)
      requires Valid()
      modifies this
      ensures Valid()
      ensures ok
      ensures messages == old(messages) - {connectionId} && stored == old(stored)
    {
      messages := messages - {connectionId};
      ok := true;
    }

    /** `deleteConnection(connectionId)`: every entry with the id goes, the rest keep their
        order, and the connection's messages go too. */
    method DeleteConnection(connectionId: string) returns (ok: bool)
      requires Valid()
      modifies this
      ensures Valid()
      ensures ok
      ensures stored == Some(WithoutId(old(GetActiveConnections()), connectionId))
      ensures messages == old(messages) - {connectionId}
    {
      var connections := GetActiveConnections();
      var keep := (c: Connection) => c.id != connectionId;
      FilterKeepsUniqueEmails(connections, keep);
      stored := Some(WithoutId(connections, connectionId));
      ok := DeleteConnectionMessages(connectionId);
    }

    /** `updateConnectionStatus(connectionId, isActive)` at time `now`; returns the first
        updated entry with the id, if any. */
    method UpdateConnectionStatus(connectionId: string, isActive: bool, now: int)
      returns (r: Option<Connection>)
      requires Valid()
      modifies this
      ensures Valid()
      ensures stored == Some(SetStatus(old(GetActiveConnections()), connectionId, isActive, now))
      ensures messages == old(messages)
      ensures r.None? <==> forall j :: 0 <= j < |old(GetActiveConnections())| ==>
        old(GetActiveConnections())[j].id != connectionId
      ensures r.Some? ==>
        r.value in GetActiveConnections() && r.value.id == connectionId &&
        r.value.isActive == isActive && r.value.lastActivity == Some(now)
      ensures r.Some? ==>
        var k := FirstIndex(GetActiveConnections(), WithId(connectionId));
        0 <= k < |GetActiveConnections()| && r.value == GetActiveConnections()[k] &&
        r.value == old(GetActiveConnections())[k].(isActive := isActive, lastActivity := Some(now)) &&
        forall j :: 0 <= j < k ==> GetActiveConnections()[j].id != connectionId
    {
      var updated := SetStatus(GetActiveConnections(), connectionId, isActive, now);
      assert forall i, j :: 0 <= i < j < |updated| ==>
        updated[i].email == GetActiveConnections()[i].email && updated[j].email == GetActiveConnections()[j].email;
      stored := Some(updated);
      var k := FirstIndex(updated, WithId(connectionId));
      r := if k == -1 then None else Some(updated[k]);
    }

    /** `sendMessage(connectionId, messageText)` at time `now`, with `messageId` the id
        `msg_<Date.now()>`: refused for an unknown connection; otherwise an unread message
        from the user is appended to the connection's messages and the connection is marked
        active. */
    method SendMessage(connectionId: string, messageText: string, messageId: string, now: int)
      returns (r: Result<Message>)
      requires Valid()
      modifies this
      ensures Valid()
      ensures r.Failure? <==> forall j :: 0 <= j < |old(GetActiveConnections())| ==>
        old(GetActiveConnections())[j].id != connectionId
      ensures r.Failure? ==>
        r.error == ConnectionNotFound && stored == old(stored) && messages == old(messages)
      ensures r.Ok? ==>
        r.value == Message(messageId, connectionId, messageText, now, "user", false) &&
        messages == old(messages)[connectionId := MessagesOf(old(messages), connectionId) + [r.value]] &&
        stored == Some(SetStatus(old(GetActiveConnections()), connectionId, true, now))
    {
      var connections := GetActiveConnections();
      var found := FirstIndex(connections, WithId(connectionId));
      if found == -1 {
        return Failure(ConnectionNotFound);
      }
      var newMessage := Message(messageId, connectionId, messageText, now, "user", false);
      messages := messages[connectionId := GetConnectionMessages(connectionId) + [newMessage]];
      var _ := UpdateConnectionStatus(connectionId, true, now);
      r := Ok(newMessage);
    }

    /** `getConnectionStats()`. */
    function GetConnectionStats(): (s: Stats)
      reads this
      ensures s == ConnectionStats(GetActiveConnections(), messages)
    {
      ConnectionStats(GetActiveConnections(), messages)
    }
  }

  /** Sending a message to a stored connection raises the message count of the stats by
      the number of entries with that id, at least one. */
  method SendRaisesMessageCount(store: ConnectionManager, connectionId: string, text: string,
                                messageId: string, now: int)
    requires store.Valid()
    modifies store
  {
    var before := store.GetConnectionStats();
    ghost var connections := store.GetActiveConnections();
    ghost var messages := store.messages;
    var r := store.SendMessage(connectionId, text, messageId, now);
    if r.Ok? {
      MessageCountAfterSend(connections, messages, connectionId, r.value);
      MessageCountStatusBlind(connections, store.messages, connectionId, true, now);
      var after := store.GetConnectionStats();
      assert after.messageCount == before.messageCount + Occurrences(connections, connectionId);
      ListedIdOccurs(connections, connectionId);
      assert after.messageCount >= before.messageCount + 1;
      assert after.totalConnections == before.totalConnections;
    }
  }

  /** An id some entry carries occurs at least once. */
  lemma ListedIdOccurs(connections: seq<Connection>, connectionId: string)
    requires !(forall j :: 0 <= j < |connections| ==> connections[j].id != connectionId)
    ensures Occurrences(connections, connectionId) >= 1
  {
    var j :| 0 <= j < |connections| && connections[j].id == connectionId;
    assert connections[j] in Filter(connections, WithId(connectionId));
  }

  /** The message count does not look at `isActive` or `lastActivity`, whichever way the status is set. */
  lemma {:induction false} MessageCountStatusBlind(connections: seq<Connection>,
                                                   messages: map<string, seq<Message>>,
                                                   connectionId: string, isActive: bool, now: int)
    ensures MessageCount(SetStatus(connections, connectionId, isActive, now), messages)
         == MessageCount(connections, messages)
  {
    if connections != [] {
      var n := |connections|;
      MessageCountStatusBlind(connections[..n - 1], messages, connectionId, isActive, now);
      assert SetStatus(connections, connectionId, isActive, now)[..n - 1]
          == SetStatus(connections[..n - 1], connectionId, isActive, now);
    }
  }
}

/** The static `ConnectionManager` of utils/sessionManager.js. It keeps the same
    `user_connections` item as js/connectionManager.js but enforces no unique email: each
    method computes the new list from the stored one, writes it back and returns it. The
    stored item is `stored`, `None` while it is absent; the clock and `Date.now().toString()`
    ids are parameters. */
module SessionConnections {
  import opened Options
  import opened Seqs
  import opened Connections

  class ConnectionSession {
    var stored: Option<seq<Connection>>

    /** `getActiveConnections()`: the stored list, or the empty list while nothing is stored. */
    function GetActiveConnections(): (r: seq<Connection>)
      reads this
      ensures stored.None? ==> r == []
      ensures stored.Some? ==> r == stored.value
    {
      stored.GetOr([])
    }

    /** Storage with nothing saved yet. */
    constructor ()
      ensures stored == None && GetActiveConnections() == []
    {
      stored := None;
    }

    /** `saveConnection(connection)` at time `now` with the id `connectionId`: always appends
        one active entry, even when the email is already stored. */
    method SaveConnection(connection: NewConnection, connectionId: string, now: int)
      returns (updated: seq<Connection>)
      modifies this
      ensures updated == old(GetActiveConnections()) + [Connection(connectionId, connection.name, connection.email, now, true, None)]
      ensures stored == Some(updated)
    {
      var connections := GetActiveConnections();
      updated := connections + [Connection(connectionId, connection.name, connection.email, now, true, None)];
      stored := Some(updated);
    }

    /** `deleteConnection(connectionId)`. */
    method DeleteConnection(connectionId: string) returns (updated: seq<Connection>)
      modifies this
      ensures updated == WithoutId(old(GetActiveConnections()), connectionId)
      ensures stored == Some(updated)
    {
      updated := WithoutId(GetActiveConnections(), connectionId);
      stored := Some(updated);
    }

    /** `updateConnectionStatus(connectionId, isActive)`. */
    method UpdateConnectionStatus(connectionId: string, isActive: bool) returns (updated: seq<Connection>)
      modifies this
      ensures updated == SetActive(old(GetActiveConnections()), connectionId, isActive)
      ensures stored == Some(updated)
    {
      updated := SetActive(GetActiveConnections(), connectionId, isActive);
      stored := Some(updated);
    }
  }

  /** Unlike js/connectionManager.js, saving the same email twice stores it twice. */
  method SaveTwiceDuplicates(store: ConnectionSession, connection: NewConnection, now: int)
    modifies store
  {
    var first := store.SaveConnection(connection, "1", now);
    var second := store.SaveConnection(connection, "2", now);
    assert second[|second| - 2].email == second[|second| - 1].email;
    assert !UniqueEmails(store.GetActiveConnections());
  }
}

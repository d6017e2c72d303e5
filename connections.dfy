/** The connection record kept under the localStorage key `user_connections`, shared by the
    two connection managers, the connection list views and the dashboard, and the list
    transforms both managers apply to it. ISO date strings are modelled as the millisecond
    instants they denote. */
module Connections {
  import opened Options
  import opened Seqs

  /** A stored connection. `name` is `None` when the record has no name. */
  datatype Connection = Connection(id: string, name: Option<string>, email: string,
                                   connectedSince: int, isActive: bool,
                                   lastActivity: Option<int>)

  /** The `connection` object handed to `saveConnection`: what the add-connection form
      collects. */
  datatype NewConnection = NewConnection(name: Option<string>, email: string)

  /** `connections.filter(conn => conn.id !== connectionId)`. */
  function WithoutId(connections: seq<Connection>, connectionId: string): (r: seq<Connection>)
    ensures forall c :: c in r <==> c in connections && c.id != connectionId
    ensures forall c :: multiset(r)[c] == if c.id != connectionId then multiset(connections)[c] else 0
    ensures IsSubsequence(r, connections)
    ensures |r| <= |connections|
  {
    var keep := (c: Connection) => c.id != connectionId;
    FilterIsSubsequence(connections, keep);
    FilterMultiplicity(connections, keep);
    Filter(connections, keep)
  }

  /** Removing an id that no entry has changes nothing. */
  lemma WithoutAbsentId(connections: seq<Connection>, connectionId: string)
    requires forall i :: 0 <= i < |connections| ==> connections[i].id != connectionId
    ensures WithoutId(connections, connectionId) == connections
  {
    FilterKeepsAll(connections, (c: Connection) => c.id != connectionId);
  }

  /** The `map` of `updateConnectionStatus` in js/connectionManager.js: every entry with the
      id gets `isActive` and a new `lastActivity`; every other entry, and every other field,
      stays as it was. */
  function SetStatus(connections: seq<Connection>, connectionId: string, isActive: bool, now: int)
    : (r: seq<Connection>)
    ensures |r| == |connections|
    ensures forall j :: 0 <= j < |r| ==>
      r[j].id == connections[j].id && r[j].name == connections[j].name &&
      r[j].email == connections[j].email && r[j].connectedSince == connections[j].connectedSince
    ensures forall j :: 0 <= j < |r| && connections[j].id != connectionId ==> r[j] == connections[j]
    ensures forall j :: 0 <= j < |r| && connections[j].id == connectionId ==>
      r[j].isActive == isActive && r[j].lastActivity == Some(now)
  {
    seq(|connections|, j requires 0 <= j < |connections| =>
      if connections[j].id == connectionId
      then connections[j].(isActive := isActive, lastActivity := Some(now))
      else connections[j])
  }

  /** The `map` of `updateConnectionStatus` in utils/sessionManager.js: like `SetStatus`, but
      only `isActive` changes. */
  function SetActive(connections: seq<Connection>, connectionId: string, isActive: bool)
    : (r: seq<Connection>)
    ensures |r| == |connections|
    ensures forall j :: 0 <= j < |r| && connections[j].id != connectionId ==> r[j] == connections[j]
    ensures forall j :: 0 <= j < |r| && connections[j].id == connectionId ==>
      r[j] == connections[j].(isActive := isActive)
  {
    seq(|connections|, j requires 0 <= j < |connections| =>
      if connections[j].id == connectionId then connections[j].(isActive := isActive)
      else connections[j])
  }

  /** Setting the status twice is setting it once. */
  lemma SetStatusIdempotent(connections: seq<Connection>, connectionId: string, isActive: bool, now: int)
    ensures SetStatus(SetStatus(connections, connectionId, isActive, now), connectionId, isActive, now)
         == SetStatus(connections, connectionId, isActive, now)
  {
  }

  /** The emails of the list are pairwise different. */
  predicate UniqueEmails(connections: seq<Connection>) {
    forall i, j :: 0 <= i < j < |connections| ==> connections[i].email != connections[j].email
  }

  /** Filtering a list whose emails are unique leaves them unique. */
  lemma {:induction false} FilterKeepsUniqueEmails(connections: seq<Connection>, p: Connection -> bool)
    requires UniqueEmails(connections)
    ensures UniqueEmails(Filter(connections, p))
  {
    if connections != [] {
      var rest := connections[1..];
      assert UniqueEmails(rest) by {
        forall i, j | 0 <= i < j < |rest| ensures rest[i].email != rest[j].email {
          assert rest[i] == connections[i + 1] && rest[j] == connections[j + 1];
        }
      }
      FilterKeepsUniqueEmails(rest, p);
      var tail := Filter(rest, p);
      forall k | 0 <= k < |tail| ensures tail[k].email != connections[0].email {
        var m :| 0 <= m < |rest| && rest[m] == tail[k];
        assert rest[m] == connections[m + 1];
      }
    }
  }

  predicate IsActive(c: Connection) {
    c.isActive
  }

  /** The number of active entries, counted one entry at a time. */
  function ActiveIn(connections: seq<Connection>): nat {
    if connections == [] then 0
    else (if connections[0].isActive then 1 else 0) + ActiveIn(connections[1..])
  }

  /** Filtering the active entries keeps as many as `ActiveIn` counts. */
  lemma {:induction false} FilterActiveCounts(connections: seq<Connection>)
    ensures |Filter(connections, IsActive)| == ActiveIn(connections)
  {
    if connections != [] {
      FilterActiveCounts(connections[1..]);
    }
  }

  /** `connections.filter(c => c.isActive).length`: the number of active entries; so at most
      the length of the list, zero exactly when no entry is active, and the full length
      exactly when every entry is. */
  function ActiveCount(connections: seq<Connection>): (n: nat)
    ensures n == ActiveIn(connections)
    ensures n <= |connections|
    ensures n == 0 <==> forall j :: 0 <= j < |connections| ==> !connections[j].isActive
    ensures n == |connections| <==> forall j :: 0 <= j < |connections| ==> connections[j].isActive
  {
    var active := IsActive;
    FilterActiveCounts(connections);
    var inactive := (c: Connection) => !c.isActive;
    FilterPartition(connections, active, inactive);
    var a := Filter(connections, active);
    var b := Filter(connections, inactive);
    forall j | 0 <= j < |connections|
      ensures connections[j].isActive ==> a != []
      ensures !connections[j].isActive ==> b != []
    {
      assert connections[j].isActive ==> connections[j] in a;
      assert !connections[j].isActive ==> connections[j] in b;
    }
    assert a != [] ==> exists j :: 0 <= j < |connections| && connections[j].isActive by {
      if a != [] {
        var j :| 0 <= j < |connections| && connections[j] == a[0];
      }
    }
    assert b != [] ==> exists j :: 0 <= j < |connections| && !connections[j].isActive by {
      if b != [] {
        var j :| 0 <= j < |connections| && connections[j] == b[0];
      }
    }
    |a|
  }
}

/** The five most recent connections that js/views/dashboard.js lists. Its count of active
    connections is `Connections.ActiveCount`. */
module Dashboard {
  import opened Connections

  /** How many recent connections the dashboard lists. */
  const RECENT_LIMIT := 5

  /** Newer connections come first. */
  predicate NewestFirst(s: seq<Connection>) {
    forall i, j :: 0 <= i < j < |s| ==> s[i].connectedSince >= s[j].connectedSince
  }

  /** One step of the sort: `x` goes in front of the first entry that is not newer than it,
      so among entries of equal date the earlier one in the input stays in front. */
  function InsertByDate(x: Connection, sorted: seq<Connection>): (r: seq<Connection>)
    requires NewestFirst(sorted)
    ensures NewestFirst(r)
    ensures multiset(r) == multiset(sorted) + multiset{x}
    ensures |r| == |sorted| + 1
  {
    if sorted == [] then [x]
    else if sorted[0].connectedSince <= x.connectedSince then [x] + sorted
    else
      var rest := InsertByDate(x, sorted[1..]);
      assert sorted == [sorted[0]] + sorted[1..];
      forall k | 0 <= k < |rest| ensures rest[k].connectedSince <= sorted[0].connectedSince {
        assert rest[k] in multiset(sorted[1..]) + multiset{x};
      }
      [sorted[0]] + rest
  }

  /** `[...connections].sort((a, b) => new Date(b.connectedSince) - new Date(a.connectedSince))`:
      a copy of the list, newest first, holding the same entries. The list itself is a value
      and is not reordered. */
  function SortByDate(connections: seq<Connection>): (r: seq<Connection>)
    ensures NewestFirst(r)
    ensures multiset(r) == multiset(connections)
    ensures |r| == |connections|
  {
    if connections == [] then []
    else
      assert connections == [connections[0]] + connections[1..];
      InsertByDate(connections[0], SortByDate(connections[1..]))
  }

  /** `recentConnections`: the first five of the sorted copy. */
  function RecentConnections(connections: seq<Connection>): (r: seq<Connection>)
    ensures |r| == if |connections| < RECENT_LIMIT then |connections| else RECENT_LIMIT
    ensures multiset(r) <= multiset(connections)
    ensures NewestFirst(r)
    ensures forall c :: c in multiset(connections) - multiset(r) ==>
      forall k :: 0 <= k < |r| ==> c.connectedSince <= r[k].connectedSince
  {
    var sorted := SortByDate(connections);
    var n := if |sorted| < RECENT_LIMIT then |sorted| else RECENT_LIMIT;
    PrefixOfNewestFirst(sorted, n);
    sorted[..n]
  }

  /** A prefix of a newest-first list is newest first, and nothing left out of it is newer
      than anything in it. */
  lemma PrefixOfNewestFirst(sorted: seq<Connection>, n: nat)
    requires NewestFirst(sorted) && n <= |sorted|
    ensures NewestFirst(sorted[..n])
    ensures multiset(sorted[..n]) <= multiset(sorted)
    ensures forall c :: c in multiset(sorted) - multiset(sorted[..n]) ==>
      forall k :: 0 <= k < n ==> c.connectedSince <= sorted[k].connectedSince
  {
    var kept := sorted[..n];
    var dropped := sorted[n..];
    assert sorted == kept + dropped;
    assert multiset(sorted) == multiset(kept) + multiset(dropped);
    forall c | c in multiset(sorted) - multiset(kept)
      ensures forall k :: 0 <= k < n ==> c.connectedSince <= sorted[k].connectedSince
    {
      assert c in dropped;
      var j :| 0 <= j < |dropped| && dropped[j] == c;
      assert c == sorted[n + j];
    }
  }

  /** With five entries or fewer, every connection is listed. */
  lemma FewConnectionsAllListed(connections: seq<Connection>)
    requires |connections| <= RECENT_LIMIT
    ensures multiset(RecentConnections(connections)) == multiset(connections)
  {
    var sorted := SortByDate(connections);
    assert RecentConnections(connections) == sorted;
  }
}

/** The search and activity filters over the connection list: the `filteredConnections`
    predicate of the React `ConnectionsList` component and the `ConnectionsView` of
    js/views/connections.js, whose `searchTerm` and `filterActive` fields are set by its
    input and button handlers. */
module ConnectionFilters {
  import opened Options
  import opened Seqs
  import opened Text
  import opened Connections

  /** The activity part of both filters: `'active'` keeps active entries, `'inactive'` the
      others, and `'all'` or any other value keeps everything. */
  predicate PassesActivity(c: Connection, filterActive: string) {
    if filterActive == "all" then true
    else if filterActive == "active" then c.isActive
    else if filterActive == "inactive" then !c.isActive
    else true
  }

  // ---------------------------------------------------------------------------------------
  // components/connections/ConnectionsList.js

  /** The search part of `ConnectionsList`: the lower-cased term occurs in the lower-cased
      name or the lower-cased email. The name is read unconditionally, so it must exist. */
  predicate MatchesSearch(c: Connection, searchTerm: string)
    requires c.name.Some?
  {
    Contains(Lower(c.name.value), Lower(searchTerm)) || Contains(Lower(c.email), Lower(searchTerm))
  }

  predicate AllNamed(connections: seq<Connection>) {
    forall i :: 0 <= i < |connections| ==> connections[i].name.Some?
  }

  /** `filteredConnections`: the entries that match the search and pass the activity
      filter, in list order. A connection without a name makes the component throw. */
  function FilteredConnections(connections: seq<Connection>, searchTerm: string, filterActive: string)
    : (r: seq<Connection>)
    requires AllNamed(connections)
    ensures forall i :: 0 <= i < |r| ==>
      (r[i] in connections && r[i].name.Some? &&
       MatchesSearch(r[i], searchTerm) && PassesActivity(r[i], filterActive))
    ensures forall i :: 0 <= i < |connections| ==>
      (MatchesSearch(connections[i], searchTerm) && PassesActivity(connections[i], filterActive) ==>
       connections[i] in r)
    ensures forall c :: (multiset(r)[c] ==
      if c.name.Some? && MatchesSearch(c, searchTerm) && PassesActivity(c, filterActive)
      then multiset(connections)[c] else 0)
    ensures IsSubsequence(r, connections)
  {
    var keep := (c: Connection) => c.name.Some? && MatchesSearch(c, searchTerm) && PassesActivity(c, filterActive);
    FilterIsSubsequence(connections, keep);
    FilterMultiplicity(connections, keep);
    Filter(connections, keep)
  }

  /** An empty search term matches every connection, so under `'all'` nothing is dropped. */
  lemma EmptySearchKeepsAll(connections: seq<Connection>)
    requires AllNamed(connections)
    ensures FilteredConnections(connections, "", "all") == connections
  {
    assert Lower("") == "";
    forall i | 0 <= i < |connections| ensures MatchesSearch(connections[i], "") {
      ContainsEmpty(Lower(connections[i].email));
    }
    FilterKeepsAll(connections,
      (c: Connection) => c.name.Some? && MatchesSearch(c, "") && PassesActivity(c, "all"));
  }

  /** `'active'` and `'inactive'` split the `'all'` result between them. */
  lemma ActiveInactiveSplitAll(connections: seq<Connection>, searchTerm: string)
    requires AllNamed(connections)
    ensures multiset(FilteredConnections(connections, searchTerm, "active"))
          + multiset(FilteredConnections(connections, searchTerm, "inactive"))
         == multiset(FilteredConnections(connections, searchTerm, "all"))
    ensures |FilteredConnections(connections, searchTerm, "active")|
          + |FilteredConnections(connections, searchTerm, "inactive")|
         == |FilteredConnections(connections, searchTerm, "all")|
  {
    FilterSplit(connections,
      (c: Connection) => c.name.Some? && MatchesSearch(c, searchTerm) && PassesActivity(c, "all"),
      (c: Connection) => c.name.Some? && MatchesSearch(c, searchTerm) && PassesActivity(c, "active"),
      (c: Connection) => c.name.Some? && MatchesSearch(c, searchTerm) && PassesActivity(c, "inactive"));
  }

  /** A filter value other than the three the buttons set behaves like `'all'`. */
  lemma UnknownFilterIsAll(connections: seq<Connection>, searchTerm: string, filterActive: string)
    requires AllNamed(connections)
    requires filterActive != "all" && filterActive != "active" && filterActive != "inactive"
    ensures FilteredConnections(connections, searchTerm, filterActive)
         == FilteredConnections(connections, searchTerm, "all")
  {
    FilterExtensional(connections,
      (c: Connection) => c.name.Some? && MatchesSearch(c, searchTerm) && PassesActivity(c, filterActive),
      (c: Connection) => c.name.Some? && MatchesSearch(c, searchTerm) && PassesActivity(c, "all"));
  }

  // ---------------------------------------------------------------------------------------
  // js/views/connections.js

  /** The search part of `renderConnectionList`: the stored term, already lower-cased by
      the input handler, occurs in the lower-cased name, if there is one, or in the
      lower-cased email. */
  predicate ViewMatchesSearch(c: Connection, searchTerm: string) {
    (c.name.Some? && Contains(Lower(c.name.value), searchTerm)) || Contains(Lower(c.email), searchTerm)
  }

  /** The list `renderConnectionList` shows. */
  function ViewFilter(connections: seq<Connection>, searchTerm: string, filterActive: string)
    : (r: seq<Connection>)
    ensures forall c :: c in r <==>
      c in connections && ViewMatchesSearch(c, searchTerm) && PassesActivity(c, filterActive)
    ensures forall c :: (multiset(r)[c] ==
      if ViewMatchesSearch(c, searchTerm) && PassesActivity(c, filterActive) then multiset(connections)[c] else 0)
    ensures IsSubsequence(r, connections)
  {
    var keep := (c: Connection) => ViewMatchesSearch(c, searchTerm) && PassesActivity(c, filterActive);
    FilterIsSubsequence(connections, keep);
    FilterMultiplicity(connections, keep);
    Filter(connections, keep)
  }

  /** A connection without a name is found through its email only. */
  lemma NamelessMatchesByEmail(c: Connection, searchTerm: string)
    requires c.name.None?
    ensures ViewMatchesSearch(c, searchTerm) <==> Contains(Lower(c.email), searchTerm)
  {
  }

  /** On named connections the view shows what the component shows for the term the user
      typed, since the view stores that term lower-cased. */
  lemma ViewAgreesWithComponent(connections: seq<Connection>, typed: string, filterActive: string)
    requires AllNamed(connections)
    ensures ViewFilter(connections, Lower(typed), filterActive)
         == FilteredConnections(connections, typed, filterActive)
  {
    var viewKeep := (c: Connection) => ViewMatchesSearch(c, Lower(typed)) && PassesActivity(c, filterActive);
    var listKeep := (c: Connection) => c.name.Some? && MatchesSearch(c, typed) && PassesActivity(c, filterActive);
    forall i | 0 <= i < |connections| ensures viewKeep(connections[i]) == listKeep(connections[i]) {
    }
    FilterAgreesOn(connections, viewKeep, listKeep);
  }

  /** The view's state: the search term and the activity filter. */
  class ConnectionsView {
    var searchTerm: string
    var filterActive: string

    /** A new view shows every connection. */
    constructor ()
      ensures searchTerm == "" && filterActive == "all"
    {
      searchTerm := "";
      filterActive := "all";
    }

    /** The search input's handler: the typed value is stored lower-cased. */
    method OnSearchInput(value: string)
      modifies this
      ensures searchTerm == Lower(value) && Lower(searchTerm) == searchTerm
      ensures filterActive == old(filterActive)
    {
      searchTerm := Lower(value);
      LowerIdempotent(value);
    }

    /** The "All" button's handler. */
    method OnFilterAll()
      modifies this
      ensures filterActive == "all" && searchTerm == old(searchTerm)
    {
      filterActive := "all";
    }

    /** The "Active" button's handler. */
    method OnFilterActive()
      modifies this
      ensures filterActive == "active" && searchTerm == old(searchTerm)
    {
      filterActive := "active";
    }

    /** The "Inactive" button's handler. */
    method OnFilterInactive()
      modifies this
      ensures filterActive == "inactive" && searchTerm == old(searchTerm)
    {
      filterActive := "inactive";
    }

    /** `renderConnectionList(container, connections)`: the list it shows, and whether it
        shows the "No connections found" state instead. */
    method RenderConnectionList(connections: seq<Connection>) returns (shown: seq<Connection>, emptyState: bool)
      ensures shown == ViewFilter(connections, searchTerm, filterActive)
      ensures emptyState <==> shown == []
      ensures emptyState <==> forall i :: 0 <= i < |connections| ==>
        !(ViewMatchesSearch(connections[i], searchTerm) && PassesActivity(connections[i], filterActive))
    {
      shown := ViewFilter(connections, searchTerm, filterActive);
      emptyState := |shown| == 0;
      if !emptyState {
        assert shown[0] in shown;
      } else {
        forall i | 0 <= i < |connections|
          ensures !(ViewMatchesSearch(connections[i], searchTerm) && PassesActivity(connections[i], filterActive))
        {
          assert connections[i] !in shown;
        }
      }
    }
  }
}

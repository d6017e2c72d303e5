/** The client-side `Router` of js/router.js: a table from paths to handlers, a not-found
    handler, and the browser location and history it drives. A handler is identified by
    name; what a handler does when invoked is not part of this model. */
module Routing {
  import opened Options

  /** A route handler; `LogNotFound` is the default not-found handler, which only logs. */
  datatype Handler = Handler(name: string) | LogNotFound

  /** The handler `navigate(path)` invokes: the registered one, or the not-found handler. */
  function Resolve(routes: map<string, Handler>, notFound: Handler, path: string): (h: Handler)
    ensures path in routes ==> h == routes[path]
    ensures path !in routes ==> h == notFound
  {
    if path in routes then routes[path] else notFound
  }

  /** A route added for `path` answers for `path` from then on, and for no other path. */
  lemma AddRouteResolves(routes: map<string, Handler>, notFound: Handler, path: string,
                         handler: Handler, other: string)
    ensures Resolve(routes[path := handler], notFound, path) == handler
    ensures other != path ==>
      Resolve(routes[path := handler], notFound, other) == Resolve(routes, notFound, other)
  {
  }

  /** `location.pathname` after moving to `url`: the part before the first `?` or `#`. */
  function PathOf(url: string): (r: string)
    ensures |r| <= |url| && r == url[..|r|]
    ensures forall i :: 0 <= i < |r| ==> r[i] != '?' && r[i] != '#'
    ensures |r| < |url| ==> url[|r|] == '?' || url[|r|] == '#'
  {
    if url == [] then []
    else if url[0] == '?' || url[0] == '#' then []
    else [url[0]] + PathOf(url[1..])
  }

  /** A path without query or fragment is its own pathname, and a url with a query or a
      fragment never is. */
  lemma PathOfPlainPath(url: string)
    ensures PathOf(url) == url <==> forall i :: 0 <= i < |url| ==> url[i] != '?' && url[i] != '#'
  {
  }

  /** The click listener intercepts a link only when its `href` starts with `/`. */
  predicate InterceptsLink(href: string) {
    |href| > 0 && href[0] == '/'
  }

  class Router {
    var routes: map<string, Handler>
    var notFoundHandler: Handler
    /** `window.location.pathname`. */
    var pathname: string
    /** The entries `pushState` added, oldest first. */
    var history: seq<string>

    /** A router with no routes on the page at `pathname`. */
    constructor (pathname: string)
      ensures routes == map[] && notFoundHandler == LogNotFound
      ensures this.pathname == pathname && history == []
    {
      routes := map[];
      notFoundHandler := LogNotFound;
      this.pathname := pathname;
      history := [];
    }

    /** `addRoute(path, handler)`: registers or replaces the handler of `path`. */
    method AddRoute(path: string, handler: Handler)
      modifies this
      ensures routes == old(routes)[path := handler]
      ensures notFoundHandler == old(notFoundHandler)
      ensures pathname == old(pathname) && history == old(history)
    {
      routes := routes[path := handler];
    }

    /** `setNotFoundHandler(handler)`. */
    method SetNotFoundHandler(handler: Handler)
      modifies this
      ensures notFoundHandler == handler
      ensures routes == old(routes) && pathname == old(pathname) && history == old(history)
    {
      notFoundHandler := handler;
    }

    /** `navigate(path)`: pushes a history entry only when `path` is not the current
        pathname, which moves the location to it, then invokes the path's handler or the
        not-found handler. */
    method Navigate(path: string) returns (invoked: Handler)
      modifies this
      ensures invoked == Resolve(routes, notFoundHandler, path)
      ensures old(pathname) != path ==> history == old(history) + [path] && pathname == PathOf(path)
      ensures old(pathname) == path ==> history == old(history) && pathname == old(pathname)
      ensures routes == old(routes) && notFoundHandler == old(notFoundHandler)
    {
      if pathname != path {
        history := history + [path];
        pathname := PathOf(path);
      }
      if path in routes {
        invoked := routes[path];
      } else {
        invoked := notFoundHandler;
      }
    }

    /** The `popstate` listener: the browser has already moved to `url`, and navigating to
        its pathname pushes nothing. */
    method OnPopState(url: string) returns (invoked: Handler)
      modifies this
      ensures invoked == Resolve(routes, notFoundHandler, PathOf(url))
      ensures pathname == PathOf(url) && history == old(history)
      ensures routes == old(routes) && notFoundHandler == old(notFoundHandler)
    {
      pathname := PathOf(url);
      invoked := Navigate(pathname);
    }

    /** The click listener for a link with `href`: an intercepted link is navigated to, any
        other is left to the browser. */
    method OnLinkClick(href: string) returns (invoked: Option<Handler>)
      modifies this
      ensures !InterceptsLink(href) ==>
        invoked == None && pathname == old(pathname) && history == old(history)
      ensures InterceptsLink(href) ==>
        invoked == Some(Resolve(routes, notFoundHandler, href)) &&
        (old(pathname) != href ==> history == old(history) + [href] && pathname == PathOf(href)) &&
        (old(pathname) == href ==> history == old(history) && pathname == old(pathname))
      ensures routes == old(routes) && notFoundHandler == old(notFoundHandler)
    {
      if InterceptsLink(href) {
        var h := Navigate(href);
        invoked := Some(h);
      } else {
        invoked := None;
      }
    }
  }

  /** Navigating to the same plain path twice pushes at most one history entry and invokes
      the same handler both times; a path with a query string pushes one entry each time. */
  method NavigateTwice(router: Router, path: string)
    modifies router
  {
    var before := router.history;
    var wasThere := router.pathname == path;
    var first := router.Navigate(path);
    var second := router.Navigate(path);
    assert first == second;
    PathOfPlainPath(path);
    if forall i :: 0 <= i < |path| ==> path[i] != '?' && path[i] != '#' {
      assert |router.history| <= |before| + 1;
    } else if !wasThere {
      assert router.history == before + [path, path];
    }
  }
}

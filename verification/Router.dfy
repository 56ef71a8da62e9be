/** The routing table, its lookup, and the gate in front of every handler. */
module Routers {
  import opened Basics
  import opened Http
  import Assoc
  import Cookies
  import PrefixMatch
  import TokenStores

  datatype Key = Key(verb: Verb, path: string)

  /** A handler and the role it needs; None makes it public. */
  datatype Route = Route(handler: Handler, minRole: Option<Role>)

  type PrefixRoute = Assoc.Entry<Key, Route>

  /** The table as two finite maps: exact routes and prefix routes. */
  datatype Table = Table(exact: map<Key, Route>, prefixes: map<Key, Route>)

  ghost function PrefixesFor(table: Table, verb: Verb): set<string> {
    set k | k in table.prefixes && k.verb == verb :: k.path
  }

  /** The exact route wins, else the longest prefix registered for the verb. */
  ghost function Answer(table: Table, verb: Verb, path: string): Option<Route> {
    if Key(verb, path) in table.exact then Some(table.exact[Key(verb, path)])
    else
      match PrefixMatch.Longest(PrefixesFor(table, verb), path)
      case None => None
      case Some(p) => Some(table.prefixes[Key(verb, p)])
  }

  /** What the router decides about a request. */
  datatype Verdict =
    | NotFound
    | Unauthorized
    | Forbidden
    | Invoke(handler: Handler, user: Option<UserInfo>)

  /** The gate: a public route passes nobody's name on; any other needs a good
      token with a sufficient role, and passes on exactly that token's user. */
  function Gate(route: Route, credentials: Option<TokenStores.TokenEntry>): Verdict {
    match route.minRole
    case None => Invoke(route.handler, None)
    case Some(need) =>
      match credentials
      case None => Unauthorized
      case Some(entry) =>
        if Satisfies(entry.role, need)
        then Invoke(route.handler, Some(UserInfo(entry.username, entry.role)))
        else Forbidden
  }

  /** Raises or lowers every exact route at a path, and nothing else. */
  function Reroled(exact: map<Key, Route>, path: string, minRole: Option<Role>): map<Key, Route> {
    map k | k in exact :: if k.path == path then exact[k].(minRole := minRole) else exact[k]
  }

  /** The table part-way through: keys still to do have their old route. */
  function PartlyReroled(exact: map<Key, Route>, path: string, minRole: Option<Role>, todo: set<Key>)
    : map<Key, Route>
  {
    map k | k in exact :: if k.path == path && k !in todo then exact[k].(minRole := minRole) else exact[k]
  }

  lemma RerolOne(exact: map<Key, Route>, path: string, minRole: Option<Role>, todo: set<Key>, key: Key)
    requires key in todo && todo <= exact.Keys
    ensures var before := PartlyReroled(exact, path, minRole, todo);
            PartlyReroled(exact, path, minRole, todo - {key})
            == if key.path == path then before[key := before[key].(minRole := minRole)] else before
  {
  }

  class Router {
    var routes: map<Key, Route>
    var prefixRoutes: seq<PrefixRoute>

    ghost predicate Valid()
      reads this
    {
      Assoc.UniqueKeys(prefixRoutes)
    }

    ghost function View(): Table
      requires Valid()
      reads this
    {
      Table(routes, Assoc.ToMap(prefixRoutes))
    }

    constructor ()
      ensures Valid() && View() == Table(map[], map[])
    {
      routes, prefixRoutes := map[], [];
    }

    method AddRoute(verb: Verb, path: string, handler: Handler, minRole: Option<Role>)
      requires Valid()
      modifies this
      ensures Valid()
      ensures View() == old(View()).(exact := old(routes)[Key(verb, path) := Route(handler, minRole)])
    {
      routes := routes[Key(verb, path) := Route(handler, minRole)];
    }

    /** Replaces the route of an existing (verb, prefix) in place, else appends. */
    method AddPrefixRoute(verb: Verb, prefix: string, handler: Handler, minRole: Option<Role>)
      requires Valid()
      modifies this
      ensures Valid()
      ensures View() == old(View()).(
                          prefixes := old(View()).prefixes[Key(verb, prefix) := Route(handler, minRole)])
    {
      var added: PrefixRoute := Assoc.Entry(Key(verb, prefix), Route(handler, minRole));
      var i := 0;
      while i < |prefixRoutes|
        invariant 0 <= i <= |prefixRoutes|
        invariant prefixRoutes == old(prefixRoutes) && routes == old(routes)
        invariant forall j | 0 <= j < i :: prefixRoutes[j].key != added.key
      {
        if prefixRoutes[i].key == added.key {
          Assoc.Overwrite(prefixRoutes, i, added.value);
          prefixRoutes := prefixRoutes[i := added];
          return;
        }
        i := i + 1;
      }
      Assoc.AppendOne(prefixRoutes, added);
      prefixRoutes := prefixRoutes + [added];
    }

    /** Visits every exact route, in any order. */
    method SetRouteRole(path: string, minRole: Option<Role>) returns (found: bool)
      requires Valid()
      modifies this
      ensures Valid()
      ensures View() == old(View()).(exact := Reroled(old(routes), path, minRole))
      ensures found <==> exists k :: k in old(routes) && k.path == path
    {
      found := false;
      var todo := routes.Keys;
      while todo != {}
        invariant todo <= old(routes).Keys && prefixRoutes == old(prefixRoutes)
        invariant routes == PartlyReroled(old(routes), path, minRole, todo)
        invariant found <==> exists k :: k in old(routes) && k !in todo && k.path == path
        decreases |todo|
      {
        var key :| key in todo;
        RerolOne(old(routes), path, minRole, todo, key);
        if key.path == path {
          routes := routes[key := routes[key].(minRole := minRole)];
          found := true;
        }
        todo := todo - {key};
      }
    }

    /** The table lookup done under the lock. */
    method Find(verb: Verb, path: string) returns (route: Option<Route>)
      requires Valid()
      ensures route == Answer(View(), verb, path)
    {
      if Key(verb, path) in routes {
        return Some(routes[Key(verb, path)]);
      }
      var best: Option<PrefixRoute> := None;
      var i := 0;
      while i < |prefixRoutes|
        invariant 0 <= i <= |prefixRoutes|
        invariant best.None? ==> forall j | 0 <= j < i ::
                    !(prefixRoutes[j].key.verb == verb && prefixRoutes[j].key.path <= path)
        invariant best.Some? ==> best.value in prefixRoutes
        invariant best.Some? ==> best.value.key.verb == verb && best.value.key.path <= path
        invariant best.Some? ==> forall j | 0 <= j < i ::
                    prefixRoutes[j].key.verb == verb && prefixRoutes[j].key.path <= path
                    ==> |prefixRoutes[j].key.path| <= |best.value.key.path|
      {
        var pr := prefixRoutes[i];
        if pr.key.verb == verb && pr.key.path <= path {
          if best.None? || |pr.key.path| > |best.value.key.path| {
            best := Some(pr);
          }
        }
        i := i + 1;
      }
      ghost var prefixes := View().prefixes;
      ghost var keys := PrefixesFor(View(), verb);
      Assoc.Exact(prefixRoutes);
      forall p | p in keys && p <= path ensures best.Some? && |p| <= |best.value.key.path| {
        assert Assoc.Entry(Key(verb, p), prefixes[Key(verb, p)]) in prefixRoutes;
      }
      if best.Some? {
        assert Assoc.Entry(best.value.key, best.value.value) in prefixRoutes;
        assert best.value.key == Key(verb, best.value.key.path);
        PrefixMatch.LongestIs(keys, path, best.value.key.path);
        return Some(best.value.value);
      }
      PrefixMatch.LongestIsNone(keys, path);
      return None;
    }

    /** Match, authenticate, authorise. Running the handler is up to the engine. */
    method Dispatch(req: Request, tokens: TokenStores.TokenStore, now: int) returns (verdict: Verdict)
      requires Valid() && tokens.Valid()
      ensures verdict == match Answer(View(), req.verb, PathOf(req))
                         case None => NotFound
                         case Some(route) => Gate(route, Cookies.Credentials(req, tokens.store, now))
    {
      var route := Find(req.verb, PathOf(req));
      if route.None? {
        return NotFound;
      }
      if route.value.minRole.None? {
        return Invoke(route.value.handler, None);
      }
      var entry := Cookies.ValidatedToken(req, tokens, now);
      if entry.None? {
        return Unauthorized;
      }
      if !Satisfies(entry.value.role, route.value.minRole.value) {
        return Forbidden;
      }
      return Invoke(route.value.handler, Some(UserInfo(entry.value.username, entry.value.role)));
    }
  }

  /** Lookup meets its specification: an exact route always answers; otherwise a
      route answers exactly when it is registered for the verb at a prefix of the
      path that no other matching prefix exceeds, and that prefix is unique. */
  lemma AnswerIsBestMatch(table: Table, verb: Verb, path: string, route: Route)
    ensures Key(verb, path) in table.exact ==> Answer(table, verb, path) == Some(table.exact[Key(verb, path)])
    ensures Key(verb, path) !in table.exact ==>
              (Answer(table, verb, path) == Some(route)
               <==> exists p :: Best(table, verb, path, p) && table.prefixes[Key(verb, p)] == route)
    ensures forall p, q :: Best(table, verb, path, p) && Best(table, verb, path, q) ==> p == q
  {
    var keys := PrefixesFor(table, verb);
    forall p | Best(table, verb, path, p) ensures PrefixMatch.Longest(keys, path) == Some(p) {
      assert p in keys;
      forall q | q in keys && q <= path ensures |q| <= |p| {
        assert Key(verb, q) in table.prefixes;
      }
      PrefixMatch.LongestIs(keys, path, p);
    }
    var found := PrefixMatch.Longest(keys, path);
    if found.Some? {
      forall k | k in table.prefixes && k.verb == verb && k.path <= path
        ensures |k.path| <= |found.value|
      {
        assert k.path in keys;
      }
      assert Best(table, verb, path, found.value);
    }
  }

  ghost predicate Best(table: Table, verb: Verb, path: string, p: string) {
    && Key(verb, p) in table.prefixes && p <= path
    && forall k | k in table.prefixes && k.verb == verb && k.path <= path :: |k.path| <= |p|
  }

  /** Prefix routes may be registered in any order. */
  lemma RegistrationOrderIrrelevant(exact: map<Key, Route>, a: seq<PrefixRoute>, b: seq<PrefixRoute>,
                                    verb: Verb, path: string)
    requires Assoc.UniqueKeys(a) && Assoc.UniqueKeys(b) && forall e :: e in a <==> e in b
    ensures Answer(Table(exact, Assoc.ToMap(a)), verb, path) == Answer(Table(exact, Assoc.ToMap(b)), verb, path)
  {
    Assoc.SameEntries(a, b);
  }

  /** Changing the role at a path changes the answers there in their role only,
      and no answer reached through a prefix route or at another path. */
  lemma RerolingIsLocal(table: Table, path: string, minRole: Option<Role>, verb: Verb, asked: string)
    ensures var after := table.(exact := Reroled(table.exact, path, minRole));
            Answer(after, verb, asked)
            == if Key(verb, asked) in table.exact && asked == path
               then Some(table.exact[Key(verb, asked)].(minRole := minRole))
               else Answer(table, verb, asked)
  {
    var after := table.(exact := Reroled(table.exact, path, minRole));
    assert PrefixesFor(after, verb) == PrefixesFor(table, verb);
  }

  /** Every protected-file prefix route is registered under its own prefix. */
  ghost predicate FilesMounted(table: Table) {
    && (forall k | k in table.exact :: !table.exact[k].handler.ProtectedFile?)
    && (forall k | k in table.prefixes && table.prefixes[k].handler.ProtectedFile? ::
          table.prefixes[k].handler.urlPrefix == k.path)
  }

  /** Whenever the protected-file handler is the answer, the path starts with its
      prefix, so prefix and remainder rebuild the path. */
  lemma FileHandlerSeesItsPrefix(table: Table, req: Request, route: Route)
    requires FilesMounted(table) && Answer(table, req.verb, PathOf(req)) == Some(route)
    requires route.handler.ProtectedFile?
    ensures route.handler.urlPrefix <= PathOf(req)
    ensures var prefix := route.handler.urlPrefix; prefix + PathOf(req)[|prefix|..] == PathOf(req)
  {
  }
}

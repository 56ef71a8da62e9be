/** The engine object: registration, built-in endpoints, and serving one request. */
module WebEngines {
  import opened Basics
  import opened Http
  import Acls
  import AuthHandlers
  import AuthProviders
  import Codec
  import Cookies
  import Engines
  import FileMapping
  import Management
  import PrefixMatch
  import Provenance
  import Routers
  import TokenStores

  /** The three authentication endpoints. */
  function AuthRoutes(exact: map<Routers.Key, Routers.Route>): map<Routers.Key, Routers.Route> {
    exact[Routers.Key(Post, "/api/login") := Routers.Route(Login, None)]
         [Routers.Key(Post, "/api/logout") := Routers.Route(Logout, None)]
         [Routers.Key(Get, "/auth-check") := Routers.Route(AuthCheck, None)]
  }

  const ACL_PATH := "/api/admin/acl"
  const USERS_PATH := "/api/admin/users"

  /** The management endpoints, all for Admin. */
  function AdminRoutes(exact: map<Routers.Key, Routers.Route>): map<Routers.Key, Routers.Route> {
    exact[Routers.Key(Get, ACL_PATH) := Routers.Route(AclList, Some(Admin))]
         [Routers.Key(Post, ACL_PATH) := Routers.Route(AclSet, Some(Admin))]
         [Routers.Key(Delete, ACL_PATH) := Routers.Route(AclRemove, Some(Admin))]
         [Routers.Key(Get, USERS_PATH) := Routers.Route(UserList, Some(Admin))]
         [Routers.Key(Post, USERS_PATH) := Routers.Route(UserAdd, Some(Admin))]
         [Routers.Key(Delete, USERS_PATH) := Routers.Route(UserRemove, Some(Admin))]
         [Routers.Key(Patch, USERS_PATH) := Routers.Route(UserSetRole, Some(Admin))]
  }

  class WebEngine {
    const auth: AuthProviders.TestAuthProvider
    const tokens: TokenStores.TokenStore
    const acl: Acls.Acl
    const router: Routers.Router
    const authHandler: AuthHandlers.AuthHandler

    ghost predicate Valid()
      reads this, tokens, acl, router
    {
      && tokens.Valid() && acl.Valid() && router.Valid()
      && authHandler.auth == auth && authHandler.tokens == tokens && authHandler.acl == acl
    }

    /** The shared state the engine's objects stand for. */
    ghost function Abs(): Engines.Engine
      requires Valid()
      reads this, tokens, acl, router, auth
    {
      Engines.Engine(router.View(), tokens.store, acl.View(), auth.users)
    }

    constructor (auth: AuthProviders.TestAuthProvider)
      ensures Valid() && this.auth == auth
      ensures fresh(tokens) && fresh(acl) && fresh(router) && fresh(authHandler)
      ensures Abs() == Engines.Engine(Routers.Table(map[], map[]), map[], map[], auth.users)
    {
      var store := new TokenStores.TokenStore();
      var rules := new Acls.Acl();
      this.auth, tokens, acl := auth, store, rules;
      router := new Routers.Router();
      authHandler := new AuthHandlers.AuthHandler(auth, store, rules);
    }

    method AddApi(verb: Verb, path: string, handler: Handler, minRole: Option<Role>)
      requires Valid()
      modifies router
      ensures Valid()
      ensures Abs() == Engines.HostApply(old(Abs()), Engines.AddApi(verb, path, handler, minRole))
      ensures var exact := old(Abs()).table.exact[Routers.Key(verb, path) := Routers.Route(handler, minRole)];
              Abs() == old(Abs()).(table := Routers.Table(exact, old(Abs()).table.prefixes))
    {
      router.AddRoute(verb, path, handler, minRole);
    }

    method SetApiRole(path: string, minRole: Option<Role>)
      requires Valid()
      modifies router
      ensures Valid()
      ensures Abs() == Engines.HostApply(old(Abs()), Engines.SetApiRole(path, minRole))
      ensures Abs() == old(Abs()).(table := old(Abs()).table.(exact := Abs().table.exact))
      ensures forall verb, asked ::
                Routers.Answer(Abs().table, verb, asked)
                == (if Routers.Key(verb, asked) in old(Abs()).table.exact && asked == path
                    then Some(old(Abs()).table.exact[Routers.Key(verb, asked)].(minRole := minRole))
                    else Routers.Answer(old(Abs()).table, verb, asked))
    {
      ghost var before := Abs().table;
      ghost var after := before.(exact := Routers.Reroled(before.exact, path, minRole));
      forall verb, asked
        ensures Routers.Answer(after, verb, asked)
                == (if Routers.Key(verb, asked) in before.exact && asked == path
                    then Some(before.exact[Routers.Key(verb, asked)].(minRole := minRole))
                    else Routers.Answer(before, verb, asked))
      {
        Routers.RerolingIsLocal(before, path, minRole, verb, asked);
      }
      var _ := router.SetRouteRole(path, minRole);
    }

    method ProtectPath(prefix: string, minRole: Role)
      requires Valid()
      modifies acl
      ensures Valid()
      ensures Abs() == Engines.HostApply(old(Abs()), Engines.ProtectPath(prefix, minRole))
      ensures Abs() == old(Abs()).(acl := old(Abs()).acl[prefix := minRole])
    {
      acl.Set(prefix, minRole);
    }

    method UnprotectPath(prefix: string)
      requires Valid()
      modifies acl
      ensures Valid()
      ensures Abs() == Engines.HostApply(old(Abs()), Engines.UnprotectPath(prefix))
      ensures Abs() == old(Abs()).(acl := old(Abs()).acl - {prefix})
    {
      acl.Remove(prefix);
    }

    method ServeProtectedFiles(urlPrefix: string, fsRoot: string)
      requires Valid()
      modifies router
      ensures Valid()
      ensures Abs() == Engines.HostApply(old(Abs()), Engines.ServeFiles(urlPrefix, fsRoot))
      ensures var route := Routers.Route(ProtectedFile(fsRoot, urlPrefix), None);
              var prefixes := old(Abs()).table.prefixes[Routers.Key(Get, urlPrefix) := route];
              Abs() == old(Abs()).(table := Routers.Table(old(Abs()).table.exact, prefixes))
    {
      router.AddPrefixRoute(Get, urlPrefix, ProtectedFile(fsRoot, urlPrefix), None);
    }

    method EnableAuthEndpoints()
      requires Valid()
      modifies router
      ensures Valid()
      ensures Abs() == old(Abs()).(table := old(Abs()).table.(exact := AuthRoutes(old(Abs()).table.exact)))
    {
      AddApi(Post, "/api/login", Login, None);
      AddApi(Post, "/api/logout", Logout, None);
      AddApi(Get, "/auth-check", AuthCheck, None);
    }

    method EnableAdminEndpoints()
      requires Valid()
      modifies router
      ensures Valid()
      ensures Abs() == old(Abs()).(table := old(Abs()).table.(exact := AdminRoutes(old(Abs()).table.exact)))
    {
      AddApi(Get, ACL_PATH, AclList, Some(Admin));
      AddApi(Post, ACL_PATH, AclSet, Some(Admin));
      AddApi(Delete, ACL_PATH, AclRemove, Some(Admin));
      AddApi(Get, USERS_PATH, UserList, Some(Admin));
      AddApi(Post, USERS_PATH, UserAdd, Some(Admin));
      AddApi(Delete, USERS_PATH, UserRemove, Some(Admin));
      AddApi(Patch, USERS_PATH, UserSetRole, Some(Admin));
    }

    /** The management handlers; None models a throw. */
    method Manage(req: Request, handler: Handler, now: int, o: Engines.Oracle) returns (res: Option<Response>)
      requires Valid()
      requires handler.AclList? || handler.UserList? || Provenance.Mutating(handler)
      modifies acl, auth
      ensures Valid()
      ensures (Abs(), Engines.Done(req, if res.Some? then res.value else Status(500)))
              == Engines.Solo(auth.kdf, old(Abs()), now, Engines.Running(req, handler, None), o)
      ensures Management.Managed(auth.kdf, req.body, handler, o.salt, old(Abs()), Abs(),
                                 if res.Some? then res.value else Response(500, None, None, None, ""))
    {
      hide Engines.Local, Engines.Solo, Management.Managed;
      Management.ManagedAlone(auth.kdf, Abs(), now, req, handler, o);
      Engines.SoloManage(auth.kdf, Abs(), now, req, handler, o);
      var body := req.body;
      match handler {
      case AclSet =>
        if !body.wellFormed || !Engines.Given(body.prefix) || Engines.RoleIn(body).None? {
          return Some(Status(400));
        }
        acl.Set(body.prefix.value, Engines.RoleIn(body).value);
      case AclRemove =>
        if !body.wellFormed || !Engines.Given(body.prefix) {
          return Some(Status(400));
        }
        acl.Remove(body.prefix.value);
      case UserAdd =>
        if !body.wellFormed || !Engines.Given(body.username) || !Engines.Given(body.password)
           || Engines.RoleIn(body).None? {
          return Some(Status(400));
        }
        var added := auth.SeedUser(body.username.value, body.password.value, Engines.RoleIn(body).value, o.salt);
        if !added {
          return None;
        }
      case UserRemove =>
        if !body.wellFormed || !Engines.Given(body.username) {
          return Some(Status(400));
        }
        var removed := auth.RemoveUser(body.username.value);
        if !removed {
          assert auth.users == old(auth.users);
          return Some(Status(404));
        }
      case UserSetRole =>
        if !body.wellFormed || !Engines.Given(body.username) || Engines.RoleIn(body).None? {
          return Some(Status(400));
        }
        var found := auth.SetUserRole(body.username.value, Engines.RoleIn(body).value);
        if !found {
          return Some(Status(404));
        }
      case _ =>
      }
      return Some(Status(200));
    }

    /** Runs a handler; None models a throw, which the router turns into a 500. */
    method Invoke(req: Request, handler: Handler, user: Option<UserInfo>, now: int, o: Engines.Oracle)
      returns (res: Option<Response>)
      requires Valid()
      modifies tokens, acl, auth
      ensures Valid()
      ensures (Abs(), Engines.Done(req, if res.Some? then res.value else Status(500)))
              == Engines.Solo(auth.kdf, old(Abs()), now, Engines.Running(req, handler, user), o)
    {
      hide Engines.Local, Engines.Solo, Engines.Start, Cookies.Credentials, Acls.Authorized, FileMapping.MapFile,
        FileMapping.HasDots, AuthProviders.Verifies, Codec.ToHex, Cookies.CookieValue, Cookies.Echoes;
      TokenStores.EightHours(now);
      match handler
      case Login =>
        Engines.SoloLogin(auth.kdf, Abs(), now, req, user, o);
        res := authHandler.HandleLogin(req, now, o.token);
      case Logout =>
        Engines.SoloLogout(auth.kdf, Abs(), now, req, user, o);
        var r := authHandler.HandleLogout(req);
        res := Some(r);
      case AuthCheck =>
        Engines.SoloCheck(auth.kdf, Abs(), now, req, user, o);
        var r := authHandler.HandleCheck(req, now);
        res := Some(r);
      case ProtectedFile(fsRoot, urlPrefix) =>
        Engines.SoloFile(auth.kdf, Abs(), now, req, user, fsRoot, urlPrefix, o);
        var r := authHandler.HandleProtectedFile(req, now, fsRoot, urlPrefix, o.files);
        res := Some(r);
      case Custom(id) =>
        Engines.SoloCustom(auth.kdf, Abs(), now, req, user, id, o);
        res := o.custom;
      case _ =>
        Engines.SoloIgnoresUser(auth.kdf, Abs(), now, req, handler, user, o);
        res := Manage(req, handler, now, o);
    }

    /** Serving one request is exactly the state machine left to one thread. */
    method Serve(req: Request, now: int, o: Engines.Oracle) returns (res: Response)
      requires Valid()
      modifies tokens, acl, auth
      ensures Valid()
      ensures (Abs(), Engines.Done(req, res))
              == Engines.Solo(auth.kdf, old(Abs()), now, Engines.Arrived(req), o)
    {
      hide Engines.Local, Engines.Solo, Engines.Start;
      Engines.SoloDispatch(auth.kdf, Abs(), now, req, o);
      var verdict := router.Dispatch(req, tokens, now);
      match verdict
      case NotFound =>
        res := Status(404);
      case Unauthorized =>
        res := Status(401);
      case Forbidden =>
        res := Status(403);
      case Invoke(handler, user) =>
        var answer := Invoke(req, handler, user, now, o);
        res := if answer.Some? then answer.value else Status(500);
    }
  }

  /** Enabling the built-in endpoints keeps a table guarded by Admin that is, and
      mounts no file handler outside its prefix. */
  lemma BuiltinsAreGuarded(table: Routers.Table)
    requires Provenance.AdminGuarded(table)
    ensures Provenance.AdminGuarded(table.(exact := AdminRoutes(AuthRoutes(table.exact))))
    ensures Routers.FilesMounted(table) ==> Routers.FilesMounted(table.(exact := AdminRoutes(AuthRoutes(table.exact))))
  {
  }

  /** The table of an engine with just the built-in endpoints and one mount. */
  function BuiltinTable(urlPrefix: string, fsRoot: string): Routers.Table {
    var key := Routers.Key(Get, urlPrefix);
    Routers.Table(AdminRoutes(AuthRoutes(map[])), map[key := Routers.Route(ProtectedFile(fsRoot, urlPrefix), None)])
  }

  /** What that table answers, for every verb and path: the three authentication
      endpoints for everybody, the seven management endpoints for an Admin, GET below
      the mount by the file handler, and nothing else. */
  lemma BuiltinAnswers(urlPrefix: string, fsRoot: string, verb: Verb, path: string)
    ensures Routers.Answer(BuiltinTable(urlPrefix, fsRoot), verb, path)
            == if verb == Post && path == "/api/login" then Some(Routers.Route(Login, None))
               else if verb == Post && path == "/api/logout" then Some(Routers.Route(Logout, None))
               else if verb == Get && path == "/auth-check" then Some(Routers.Route(AuthCheck, None))
               else if verb == Get && path == "/api/admin/acl" then Some(Routers.Route(AclList, Some(Admin)))
               else if verb == Post && path == "/api/admin/acl" then Some(Routers.Route(AclSet, Some(Admin)))
               else if verb == Delete && path == "/api/admin/acl" then Some(Routers.Route(AclRemove, Some(Admin)))
               else if verb == Get && path == "/api/admin/users" then Some(Routers.Route(UserList, Some(Admin)))
               else if verb == Post && path == "/api/admin/users" then Some(Routers.Route(UserAdd, Some(Admin)))
               else if verb == Delete && path == "/api/admin/users" then Some(Routers.Route(UserRemove, Some(Admin)))
               else if verb == Patch && path == "/api/admin/users" then Some(Routers.Route(UserSetRole, Some(Admin)))
               else if verb == Get && urlPrefix <= path then Some(Routers.Route(ProtectedFile(fsRoot, urlPrefix), None))
               else None
  {
    var table := BuiltinTable(urlPrefix, fsRoot);
    if Routers.Key(verb, path) !in table.exact {
      var keys := Routers.PrefixesFor(table, verb);
      assert Routers.Key(Get, urlPrefix) in table.prefixes;
      assert keys == if verb == Get then {urlPrefix} else {};
      if verb == Get && urlPrefix <= path {
        PrefixMatch.LongestIs(keys, path, urlPrefix);
      } else {
        PrefixMatch.LongestIsNone(keys, path);
      }
    }
  }

  /** An engine as the host sets it up: built-in endpoints and a mount. */
  method SetUp(auth: AuthProviders.TestAuthProvider, urlPrefix: string, fsRoot: string) returns (engine: WebEngine)
    ensures fresh(engine) && engine.Valid() && engine.auth == auth
    ensures engine.Abs() == Engines.Engine(BuiltinTable(urlPrefix, fsRoot), map[], map[], auth.users)
  {
    engine := new WebEngine(auth);
    engine.EnableAuthEndpoints();
    engine.EnableAdminEndpoints();
    engine.ServeProtectedFiles(urlPrefix, fsRoot);
  }

  /** From there, as long as the host makes no further calls, every change to the
      access list or the user table serves a request whose token was minted by a login
      that read an Admin record; and if no user is Admin, there is none. */
  lemma BuiltinEngineIsAdminOnly(r: Engines.Run, urlPrefix: string, fsRoot: string, n: nat)
    requires n <= |r.events| && forall i | 0 <= i < |r.events| :: !r.events[i].Host?
    requires r.init.threads == map[] && r.init.engine.tokens == map[]
    requires r.init.engine.table == BuiltinTable(urlPrefix, fsRoot)
    ensures Routers.FilesMounted(r.At(n).engine.table)
    ensures Provenance.ChangesAt(r, n) ==>
              && r.events[n].Advance? && !Engines.Free(r.ThreadAt(n, r.events[n].thread))
              && exists k: nat, m: nat, name ::
                   k < n && Provenance.AdminLogin(r, k, m, Cookies.TokenOf(r.ThreadAt(n, r.events[n].thread).req), name)
    ensures (forall name | name in r.init.engine.users :: r.init.engine.users[name].role != Admin) ==>
              r.At(n).engine.acl == r.init.engine.acl && r.At(n).engine.users == r.init.engine.users
  {
    hide Engines.Apply, Engines.Local, Engines.Start, AdminRoutes, AuthRoutes, Provenance.AdminLogin;
    BuiltinsAreGuarded(r.init.engine.table.(exact := map[]));
    forall j: nat | j <= n ensures r.At(j).engine.table == r.init.engine.table {
      Provenance.TableIsFixed(r, j);
    }
    if Provenance.ChangesAt(r, n) {
      var a, l, v, k, m, user := Provenance.AdminProvenance(r, n);
      assert !Engines.Free(r.ThreadAt(n, r.events[n].thread));
    }
    if forall name | name in r.init.engine.users :: r.init.engine.users[name].role != Admin {
      Provenance.WithoutAdminsNothingChanges(r, n);
    }
  }
}

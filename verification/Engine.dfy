/** The engine as a state machine: worker threads serve requests in atomic steps,
    one per lock the source takes, interleaved with host calls and clock ticks. */
module Engines {
  import opened Basics
  import opened Http
  import Acls
  import AuthHandlers
  import AuthProviders
  import Codec
  import Cookies
  import Routers
  import TokenStores

  /** The shared state, as the maps the engine's objects stand for. */
  datatype Engine = Engine(
    table: Routers.Table,
    tokens: map<string, TokenStores.TokenEntry>,
    acl: map<string, Role>,
    users: map<string, AuthProviders.UserRecord>)

  /** What a step may draw from outside: random bytes (None when the source is
      out of them), the files on disk, and what host code answers (None: it throws). */
  datatype Oracle = Oracle(
    token: Option<TokenStores.TokenBytes>,
    salt: Option<AuthProviders.Salt>,
    files: map<string, string>,
    custom: Option<Response>)

  /** Where a thread is between two of its atomic steps. */
  datatype Phase =
    | Idle
    | Arrived(req: Request)
    | Routed(req: Request, route: Routers.Route)
    | Running(req: Request, handler: Handler, user: Option<UserInfo>)
    | LoginFetched(req: Request, name: string, record: AuthProviders.UserRecord)
    | LoginVerified(req: Request, name: string, role: Role)
    | AddHashed(req: Request, name: string, record: AuthProviders.UserRecord)
    | CheckValidated(req: Request, entry: TokenStores.TokenEntry)
    | FileValidated(req: Request, fsRoot: string, urlPrefix: string, entry: TokenStores.TokenEntry)
    | FileAllowed(req: Request, fsRoot: string, urlPrefix: string, entry: TokenStores.TokenEntry)
    | Done(req: Request, res: Response)

  predicate Free(ph: Phase) {
    ph.Idle? || ph.Done?
  }

  predicate Given(field: Option<string>) {
    field.Some? && field.value != ""
  }

  function RoleIn(body: Body): Option<Role> {
    if body.role.Some? then RoleFromString(body.role.value) else None
  }

  /** The first atomic step of a handler. */
  function Start(kdf: AuthProviders.Kdf, e: Engine, now: int, req: Request, handler: Handler, o: Oracle)
    : (r: (Engine, Phase))
    ensures !r.1.Idle? && r.1.req == req && Rank(r.1) < 3
  {
    var body := req.body;
    match handler
    case Login =>
      var name := OrEmpty(body.username);
      if name == "" || name !in e.users then (e, Done(req, Status(401)))
      else (e, LoginFetched(req, name, e.users[name]))
    case Logout =>
      var token := Cookies.SessionValue(req);
      (if token == "" then e else e.(tokens := e.tokens - {token}), Done(req, AuthHandlers.LogoutResponse()))
    case AuthCheck =>
      var credentials := Cookies.Credentials(req, e.tokens, now);
      if credentials.None? then (e, Done(req, Status(401)))
      else if AuthHandlers.NamesUri(req) then (e, CheckValidated(req, credentials.value))
      else (e, Done(req, AuthHandlers.CheckPassed(credentials.value)))
    case AclList => (e, Done(req, Status(200)))
    case AclSet =>
      if !body.wellFormed || !Given(body.prefix) || RoleIn(body).None? then (e, Done(req, Status(400)))
      else (e.(acl := e.acl[body.prefix.value := RoleIn(body).value]), Done(req, Status(200)))
    case AclRemove =>
      if !body.wellFormed || !Given(body.prefix) then (e, Done(req, Status(400)))
      else (e.(acl := e.acl - {body.prefix.value}), Done(req, Status(200)))
    case UserList => (e, Done(req, Status(200)))
    case UserAdd =>
      if !body.wellFormed || !Given(body.username) || !Given(body.password) || RoleIn(body).None?
      then (e, Done(req, Status(400)))
      else if o.salt.None? then (e, Done(req, Status(500)))
      else
        var hash := AuthProviders.HashOf(kdf, body.password.value, o.salt.value);
        (e, AddHashed(req, body.username.value, AuthProviders.UserRecord(hash, RoleIn(body).value)))
    case UserRemove =>
      if !body.wellFormed || !Given(body.username) then (e, Done(req, Status(400)))
      else if body.username.value !in e.users then (e, Done(req, Status(404)))
      else (e.(users := e.users - {body.username.value}), Done(req, Status(200)))
    case UserSetRole =>
      if !body.wellFormed || !Given(body.username) || RoleIn(body).None? then (e, Done(req, Status(400)))
      else if body.username.value !in e.users then (e, Done(req, Status(404)))
      else
        var name := body.username.value;
        (e.(users := e.users[name := e.users[name].(role := RoleIn(body).value)]), Done(req, Status(200)))
    case ProtectedFile(fsRoot, urlPrefix) =>
      var credentials := Cookies.Credentials(req, e.tokens, now);
      if credentials.None? then (e, Done(req, AuthHandlers.RedirectToLogin()))
      else (e, FileValidated(req, fsRoot, urlPrefix, credentials.value))
    case Custom(_) =>
      (e, Done(req, if o.custom.Some? then o.custom.value else Status(500)))
  }

  /** One atomic step of a thread, with its effect on the shared state. */
  ghost function Local(kdf: AuthProviders.Kdf, e: Engine, now: int, ph: Phase, o: Oracle): (Engine, Phase) {
    match ph
    case Idle => (e, ph)
    case Done(_, _) => (e, ph)
    case Arrived(req) =>
      (match Routers.Answer(e.table, req.verb, PathOf(req))
       case None => (e, Done(req, Status(404)))
       case Some(route) => (e, Routed(req, route)))
    case Routed(req, route) =>
      (match Routers.Gate(route, Cookies.Credentials(req, e.tokens, now))
       case NotFound => (e, Done(req, Status(404)))
       case Unauthorized => (e, Done(req, Status(401)))
       case Forbidden => (e, Done(req, Status(403)))
       case Invoke(handler, user) => (e, Running(req, handler, user)))
    case Running(req, handler, _) => Start(kdf, e, now, req, handler, o)
    case LoginFetched(req, name, record) =>
      if AuthProviders.Verifies(kdf, OrEmpty(req.body.password), record.passwordHash)
      then (e, LoginVerified(req, name, record.role))
      else (e, Done(req, Status(401)))
    case LoginVerified(req, name, role) =>
      if o.token.None? then (e, Done(req, Status(500)))
      else
        var token := Codec.ToHex(o.token.value);
        (e.(tokens := e.tokens[token := TokenStores.TokenEntry(
                                 name, role, TokenStores.Expiry(now, TokenStores.DEFAULT_TTL))]),
         Done(req, AuthHandlers.LoginResponse(token)))
    case AddHashed(req, name, record) =>
      (e.(users := e.users[name := record]), Done(req, Status(200)))
    case CheckValidated(req, entry) =>
      (e, Done(req, AuthHandlers.CheckResponse(req, Some(entry), e.acl)))
    case FileValidated(req, fsRoot, urlPrefix, entry) =>
      if Acls.Authorized(e.acl, entry.role, PathOf(req)) then (e, FileAllowed(req, fsRoot, urlPrefix, entry))
      else (e, Done(req, Status(403)))
    case FileAllowed(req, fsRoot, urlPrefix, _) =>
      (e, Done(req, AuthHandlers.ReadResponse(PathOf(req), fsRoot, urlPrefix, o.files)))
  }

  /** Calls the host may make at any time, also from inside its own handlers. */
  datatype HostCall =
    | AddApi(verb: Verb, path: string, handler: Handler, minRole: Option<Role>)
    | ServeFiles(urlPrefix: string, fsRoot: string)
    | SetApiRole(path: string, minRole: Option<Role>)
    | ProtectPath(prefix: string, role: Role)
    | UnprotectPath(prefix: string)
    | PutUser(name: string, record: AuthProviders.UserRecord)
    | DropUser(name: string)
    | ChangeRole(name: string, role: Role)

  function HostApply(e: Engine, call: HostCall): Engine {
    match call
    case AddApi(verb, path, handler, minRole) =>
      e.(table := e.table.(exact := e.table.exact[Routers.Key(verb, path) := Routers.Route(handler, minRole)]))
    case ServeFiles(urlPrefix, fsRoot) =>
      e.(table := e.table.(prefixes := e.table.prefixes[
                             Routers.Key(Get, urlPrefix) := Routers.Route(ProtectedFile(fsRoot, urlPrefix), None)]))
    case SetApiRole(path, minRole) =>
      e.(table := e.table.(exact := Routers.Reroled(e.table.exact, path, minRole)))
    case ProtectPath(prefix, role) => e.(acl := e.acl[prefix := role])
    case UnprotectPath(prefix) => e.(acl := e.acl - {prefix})
    case PutUser(name, record) => e.(users := e.users[name := record])
    case DropUser(name) => e.(users := e.users - {name})
    case ChangeRole(name, role) =>
      if name in e.users then e.(users := e.users[name := e.users[name].(role := role)]) else e
  }

  datatype State = State(engine: Engine, now: int, threads: map<nat, Phase>)

  datatype Event =
    | Arrive(thread: nat, req: Request)
    | Advance(thread: nat, oracle: Oracle)
    | Host(call: HostCall)
    | Tick(elapsed: nat)

  function PhaseOf(s: State, t: nat): Phase {
    if t in s.threads then s.threads[t] else Idle
  }

  /** Every event has an effect or none; so every sequence of events is a run. */
  ghost function Apply(kdf: AuthProviders.Kdf, s: State, e: Event): State {
    match e
    case Arrive(t, req) =>
      if Free(PhaseOf(s, t)) then s.(threads := s.threads[t := Arrived(req)]) else s
    case Advance(t, o) =>
      var (engine, ph) := Local(kdf, s.engine, s.now, PhaseOf(s, t), o);
      s.(engine := engine, threads := s.threads[t := ph])
    case Host(call) => s.(engine := HostApply(s.engine, call))
    case Tick(elapsed) => s.(now := s.now + elapsed)
  }

  /** A run; At(n) is the state after its first n events. */
  datatype Run = Run(kdf: AuthProviders.Kdf, init: State, events: seq<Event>) {
    ghost function At(n: nat): State
      requires n <= |events|
    {
      if n == 0 then init else Apply(kdf, At(n - 1), events[n - 1])
    }

    ghost function ThreadAt(n: nat, t: nat): Phase
      requires n <= |events|
    {
      PhaseOf(At(n), t)
    }

    predicate Advances(n: nat, t: nat) {
      n < |events| && events[n].Advance? && events[n].thread == t
    }
  }

  /** How many steps a request still takes at most. */
  function Rank(ph: Phase): nat {
    match ph
    case Idle => 0
    case Done(_, _) => 0
    case Arrived(_) => 5
    case Routed(_, _) => 4
    case Running(_, _, _) => 3
    case LoginFetched(_, _, _) => 2
    case LoginVerified(_, _, _) => 1
    case AddHashed(_, _, _) => 1
    case CheckValidated(_, _) => 1
    case FileValidated(_, _, _, _) => 2
    case FileAllowed(_, _, _, _) => 1
  }

  lemma LocalDescends(kdf: AuthProviders.Kdf, e: Engine, now: int, ph: Phase, o: Oracle)
    requires !Free(ph)
    ensures Rank(Local(kdf, e, now, ph, o).1) < Rank(ph)
    ensures !Local(kdf, e, now, ph, o).1.Idle? && Local(kdf, e, now, ph, o).1.req == ph.req
  {
    hide Start, Routers.Answer, Routers.Gate, Cookies.Credentials, AuthProviders.Verifies, Codec.ToHex,
      AuthHandlers.CheckResponse, AuthHandlers.ReadResponse, AuthHandlers.LoginResponse, Acls.Authorized;
  }

  /** A thread with nothing to do does nothing. */
  lemma FreeStays(kdf: AuthProviders.Kdf, e: Engine, now: int, ph: Phase, o: Oracle)
    requires Free(ph)
    ensures Local(kdf, e, now, ph, o) == (e, ph)
  {
  }

  /** A request served without interference: all its steps in a row. */
  ghost function Solo(kdf: AuthProviders.Kdf, e: Engine, now: int, ph: Phase, o: Oracle): (r: (Engine, Phase))
    ensures Free(r.1)
    decreases Rank(ph)
  {
    if Free(ph) then (e, ph)
    else
      LocalDescends(kdf, e, now, ph, o);
      var (next, to) := Local(kdf, e, now, ph, o);
      Solo(kdf, next, now, to, o)
  }

  ghost function ApplyTimes(kdf: AuthProviders.Kdf, s: State, e: Event, times: nat): State
    decreases times
  {
    if times == 0 then s else ApplyTimes(kdf, Apply(kdf, s, e), e, times - 1)
  }

  /** The state machine, left to one thread, does what Solo says: every request
      is answered within five steps. */
  lemma {:induction false} SoloIsARun(kdf: AuthProviders.Kdf, s: State, t: nat, o: Oracle, times: nat)
    requires t in s.threads && Rank(PhaseOf(s, t)) <= times
    ensures var (engine, ph) := Solo(kdf, s.engine, s.now, PhaseOf(s, t), o);
            ApplyTimes(kdf, s, Advance(t, o), times) == s.(engine := engine, threads := s.threads[t := ph])
    decreases times
  {
    hide Start, Local;
    var ph := PhaseOf(s, t);
    if times == 0 {
    } else {
      var next := Apply(kdf, s, Advance(t, o));
      if !Free(ph) {
        LocalDescends(kdf, s.engine, s.now, ph, o);
      } else {
        FreeStays(kdf, s.engine, s.now, ph, o);
        assert next == s;
      }
      SoloIsARun(kdf, next, t, o, times - 1);
    }
  }

  // ---- What Solo comes to, handler by handler ---------------------------------------

  lemma SoloStep(kdf: AuthProviders.Kdf, e: Engine, now: int, ph: Phase, o: Oracle)
    requires !Free(ph)
    ensures var (next, to) := Local(kdf, e, now, ph, o);
            Solo(kdf, e, now, ph, o) == Solo(kdf, next, now, to, o)
    ensures var (next, to) := Local(kdf, e, now, ph, o);
            Free(to) ==> Solo(kdf, e, now, ph, o) == (next, to)
  {
    hide Local;
  }

  /** Lookup and gate, then the handler. */
  lemma SoloDispatch(kdf: AuthProviders.Kdf, e: Engine, now: int, req: Request, o: Oracle)
    ensures Solo(kdf, e, now, Arrived(req), o)
            == match Routers.Answer(e.table, req.verb, PathOf(req))
               case None => (e, Done(req, Status(404)))
               case Some(route) =>
                 match Routers.Gate(route, Cookies.Credentials(req, e.tokens, now))
                 case NotFound => (e, Done(req, Status(404)))
                 case Unauthorized => (e, Done(req, Status(401)))
                 case Forbidden => (e, Done(req, Status(403)))
                 case Invoke(handler, user) => Solo(kdf, e, now, Running(req, handler, user), o)
  {
    hide Start, Solo, Routers.Answer, Routers.Gate;
    SoloStep(kdf, e, now, Arrived(req), o);
    var answer := Routers.Answer(e.table, req.verb, PathOf(req));
    if answer.Some? {
      SoloStep(kdf, e, now, Routed(req, answer.value), o);
    }
  }

  /** No built-in handler looks at the user the router passes on, and what a
      custom one answers is the oracle's choice. */
  lemma SoloIgnoresUser(kdf: AuthProviders.Kdf, e: Engine, now: int, req: Request, handler: Handler,
                        user: Option<UserInfo>, o: Oracle)
    ensures Solo(kdf, e, now, Running(req, handler, user), o) == Solo(kdf, e, now, Running(req, handler, None), o)
  {
    hide Start, Solo;
    SoloStep(kdf, e, now, Running(req, handler, user), o);
    SoloStep(kdf, e, now, Running(req, handler, None), o);
  }

  lemma SoloLogin(kdf: AuthProviders.Kdf, e: Engine, now: int, req: Request, user: Option<UserInfo>, o: Oracle)
    ensures var name := OrEmpty(req.body.username);
            Solo(kdf, e, now, Running(req, Login, user), o)
            == if name == "" || name !in e.users
                  || !AuthProviders.Verifies(kdf, OrEmpty(req.body.password), e.users[name].passwordHash)
               then (e, Done(req, Status(401)))
               else if o.token.None? then (e, Done(req, Status(500)))
               else
                 var token := Codec.ToHex(o.token.value);
                 var entry := TokenStores.TokenEntry(name, e.users[name].role,
                                                     TokenStores.Expiry(now, TokenStores.DEFAULT_TTL));
                 (e.(tokens := e.tokens[token := entry]), Done(req, AuthHandlers.LoginResponse(token)))
  {
    hide Solo, AuthProviders.Verifies, Codec.ToHex, AuthHandlers.LoginResponse;
    var name := OrEmpty(req.body.username);
    SoloStep(kdf, e, now, Running(req, Login, user), o);
    if name != "" && name in e.users {
      SoloStep(kdf, e, now, LoginFetched(req, name, e.users[name]), o);
      SoloStep(kdf, e, now, LoginVerified(req, name, e.users[name].role), o);
    }
  }

  lemma SoloLogout(kdf: AuthProviders.Kdf, e: Engine, now: int, req: Request, user: Option<UserInfo>, o: Oracle)
    ensures var token := Cookies.SessionValue(req);
            Solo(kdf, e, now, Running(req, Logout, user), o)
            == (if token == "" then e else e.(tokens := e.tokens - {token}), Done(req, AuthHandlers.LogoutResponse()))
  {
    hide Solo;
    SoloStep(kdf, e, now, Running(req, Logout, user), o);
  }

  lemma SoloCheck(kdf: AuthProviders.Kdf, e: Engine, now: int, req: Request, user: Option<UserInfo>, o: Oracle)
    ensures Solo(kdf, e, now, Running(req, AuthCheck, user), o)
            == (e, Done(req, AuthHandlers.CheckResponse(req, Cookies.Credentials(req, e.tokens, now), e.acl)))
  {
    hide Solo, Cookies.Credentials, Acls.Authorized;
    SoloStep(kdf, e, now, Running(req, AuthCheck, user), o);
    var credentials := Cookies.Credentials(req, e.tokens, now);
    if credentials.Some? {
      SoloStep(kdf, e, now, CheckValidated(req, credentials.value), o);
    }
  }

  /** The three steps of file serving. */
  lemma FileStarts(kdf: AuthProviders.Kdf, e: Engine, now: int, req: Request, user: Option<UserInfo>,
                   fsRoot: string, urlPrefix: string, o: Oracle)
    ensures Local(kdf, e, now, Running(req, ProtectedFile(fsRoot, urlPrefix), user), o)
            == match Cookies.Credentials(req, e.tokens, now)
               case None => (e, Done(req, AuthHandlers.RedirectToLogin()))
               case Some(entry) => (e, FileValidated(req, fsRoot, urlPrefix, entry))
  {
    hide Cookies.Credentials, AuthHandlers.RedirectToLogin;
  }

  lemma FileChecks(kdf: AuthProviders.Kdf, e: Engine, now: int, req: Request, fsRoot: string, urlPrefix: string,
                   entry: TokenStores.TokenEntry, o: Oracle)
    ensures Local(kdf, e, now, FileValidated(req, fsRoot, urlPrefix, entry), o)
            == if Acls.Authorized(e.acl, entry.role, PathOf(req)) then (e, FileAllowed(req, fsRoot, urlPrefix, entry))
               else (e, Done(req, Status(403)))
  {
    hide Start, Acls.Authorized, PathOf;
  }

  lemma FileReads(kdf: AuthProviders.Kdf, e: Engine, now: int, req: Request, fsRoot: string, urlPrefix: string,
                  entry: TokenStores.TokenEntry, o: Oracle)
    ensures Local(kdf, e, now, FileAllowed(req, fsRoot, urlPrefix, entry), o)
            == (e, Done(req, AuthHandlers.ReadResponse(PathOf(req), fsRoot, urlPrefix, o.files)))
  {
    hide Start, AuthHandlers.ReadResponse, PathOf;
  }

  lemma SoloFile(kdf: AuthProviders.Kdf, e: Engine, now: int, req: Request, user: Option<UserInfo>,
                 fsRoot: string, urlPrefix: string, o: Oracle)
    ensures Solo(kdf, e, now, Running(req, ProtectedFile(fsRoot, urlPrefix), user), o)
            == (e, Done(req, AuthHandlers.FileResponse(req, Cookies.Credentials(req, e.tokens, now), e.acl,
                                                       fsRoot, urlPrefix, o.files)))
  {
    hide Solo, Start, Local, Cookies.Credentials, Acls.Authorized, AuthHandlers.ReadResponse,
      AuthHandlers.RedirectToLogin, PathOf;
    FileStarts(kdf, e, now, req, user, fsRoot, urlPrefix, o);
    SoloStep(kdf, e, now, Running(req, ProtectedFile(fsRoot, urlPrefix), user), o);
    var credentials := Cookies.Credentials(req, e.tokens, now);
    if credentials.Some? {
      FileChecks(kdf, e, now, req, fsRoot, urlPrefix, credentials.value, o);
      FileReads(kdf, e, now, req, fsRoot, urlPrefix, credentials.value, o);
      SoloStep(kdf, e, now, FileValidated(req, fsRoot, urlPrefix, credentials.value), o);
      SoloStep(kdf, e, now, FileAllowed(req, fsRoot, urlPrefix, credentials.value), o);
    }
  }

  lemma SoloCustom(kdf: AuthProviders.Kdf, e: Engine, now: int, req: Request, user: Option<UserInfo>, id: nat, o: Oracle)
    ensures Solo(kdf, e, now, Running(req, Custom(id), user), o)
            == (e, Done(req, if o.custom.Some? then o.custom.value else Status(500)))
  {
    hide Solo;
    SoloStep(kdf, e, now, Running(req, Custom(id), user), o);
  }

  lemma ManageStarts(kdf: AuthProviders.Kdf, e: Engine, now: int, req: Request, handler: Handler, o: Oracle)
    requires handler.AclList? || handler.AclSet? || handler.AclRemove?
             || handler.UserList? || handler.UserAdd? || handler.UserRemove? || handler.UserSetRole?
    ensures Start(kdf, e, now, req, handler, o).1.AddHashed? || Start(kdf, e, now, req, handler, o).1.Done?
  {
  }

  /** The management handlers are one step, except that adding a user inserts later. */
  lemma SoloManage(kdf: AuthProviders.Kdf, e: Engine, now: int, req: Request, handler: Handler, o: Oracle)
    requires handler.AclList? || handler.AclSet? || handler.AclRemove?
             || handler.UserList? || handler.UserAdd? || handler.UserRemove? || handler.UserSetRole?
    ensures var (next, ph) := Start(kdf, e, now, req, handler, o);
            Solo(kdf, e, now, Running(req, handler, None), o)
            == if ph.AddHashed? then (next.(users := next.users[ph.name := ph.record]), Done(req, Status(200)))
               else (next, ph)
    ensures Start(kdf, e, now, req, handler, o).1.AddHashed? || Start(kdf, e, now, req, handler, o).1.Done?
  {
    ManageStarts(kdf, e, now, req, handler, o);
    hide Solo, Start, Local;
    var (next, ph) := Start(kdf, e, now, req, handler, o);
    RunningStarts(kdf, e, now, req, handler, o);
    SoloStep(kdf, e, now, Running(req, handler, None), o);
    if ph.AddHashed? {
      AddInserts(kdf, next, now, ph, o);
    }
  }

  lemma RunningStarts(kdf: AuthProviders.Kdf, e: Engine, now: int, req: Request, handler: Handler, o: Oracle)
    ensures Local(kdf, e, now, Running(req, handler, None), o) == Start(kdf, e, now, req, handler, o)
  {
    hide Start;
  }

  lemma AddInserts(kdf: AuthProviders.Kdf, e: Engine, now: int, ph: Phase, o: Oracle)
    requires ph.AddHashed?
    ensures Solo(kdf, e, now, ph, o)
            == (e.(users := e.users[ph.name := ph.record]), Done(ph.req, Status(200)))
  {
    hide Solo, Start;
    SoloStep(kdf, e, now, ph, o);
  }
}

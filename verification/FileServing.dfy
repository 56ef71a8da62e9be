/** Gated file serving in every run: what is read, for whom, and from where. */
module FileServing {
  import opened Basics
  import opened Http
  import Acls
  import AuthHandlers
  import AuthProviders
  import Cookies
  import opened Dispatching
  import opened Engines
  import FileMapping
  import PrefixMatch
  import Provenance
  import Routers
  import opened RuleEdits
  import Text
  import TokenStores

  /** Host calls keep file handlers under their own prefix, as long as the host
      does not register one as an exact route itself. */
  lemma HostKeepsMounts(e: Engine, call: HostCall)
    requires Routers.FilesMounted(e.table) && (call.AddApi? ==> !call.handler.ProtectedFile?)
    ensures Routers.FilesMounted(HostApply(e, call).table)
  {
  }

  ghost predicate MountsOnly(r: Run) {
    && Routers.FilesMounted(r.init.engine.table)
    && forall i | 0 <= i < |r.events| ::
         r.events[i].Host? && r.events[i].call.AddApi? ==> !r.events[i].call.handler.ProtectedFile?
  }

  lemma {:induction false} MountsStay(r: Run, n: nat)
    requires n <= |r.events| && MountsOnly(r)
    ensures Routers.FilesMounted(r.At(n).engine.table)
  {
    hide Start, HostApply, Routers.Answer, Routers.Gate;
    if n == 0 {
    } else {
      MountsStay(r, n - 1);
      var s := r.At(n - 1);
      match r.events[n - 1]
      case Host(call) => HostKeepsMounts(s.engine, call);
      case Advance(t, o) =>
        var ph := PhaseOf(s, t);
        if ph.Running? {
          Provenance.StartChanges(r.kdf, s.engine, s.now, ph.req, ph.handler, o);
        }
      case _ =>
    }
  }

  /** At moment v thread t, running a file handler for req, finds its token good. */
  ghost predicate AuthenticatesAt(r: Run, v: nat, t: nat, req: Request, fsRoot: string, urlPrefix: string,
                                  entry: TokenStores.TokenEntry)
  {
    && r.Advances(v, t)
    && r.ThreadAt(v, t).Running? && r.ThreadAt(v, t).req == req
    && r.ThreadAt(v, t).handler == ProtectedFile(fsRoot, urlPrefix)
    && Cookies.Credentials(req, r.At(v).engine.tokens, r.At(v).now) == Some(entry)
  }

  /** At moment w thread t, which holds the entry for req, finds that the rules
      accept its role for the path. */
  ghost predicate AuthorizesAt(r: Run, w: nat, t: nat, req: Request, fsRoot: string, urlPrefix: string,
                               entry: TokenStores.TokenEntry)
  {
    && r.Advances(w, t)
    && r.ThreadAt(w, t) == FileValidated(req, fsRoot, urlPrefix, entry)
    && Acls.Authorized(r.At(w).engine.acl, entry.role, PathOf(req))
  }

  lemma StartsFile(kdf: AuthProviders.Kdf, e: Engine, now: int, req: Request, handler: Handler, o: Oracle)
    ensures var ph := Start(kdf, e, now, req, handler, o).1;
            && !ph.FileAllowed?
            && (ph.FileValidated? ==>
                  && ph.req == req && handler == ProtectedFile(ph.fsRoot, ph.urlPrefix)
                  && Cookies.Credentials(req, e.tokens, now) == Some(ph.entry))
            && (handler.ProtectedFile? && ph.Done? ==> ph.res.status != 200)
  {
    hide Cookies.Credentials, AuthProviders.HashOf;
  }

  /** The steps between a file handler's phases. */
  lemma FileSteps(kdf: AuthProviders.Kdf, e: Engine, now: int, before: Phase, o: Oracle)
    requires !Free(before)
    ensures var ph := Local(kdf, e, now, before, o).1;
            && (ph.FileValidated? ==>
                  && before.Running? && before.req == ph.req
                  && before.handler == ProtectedFile(ph.fsRoot, ph.urlPrefix)
                  && Cookies.Credentials(ph.req, e.tokens, now) == Some(ph.entry))
            && (ph.FileAllowed? ==>
                  && before == FileValidated(ph.req, ph.fsRoot, ph.urlPrefix, ph.entry)
                  && Acls.Authorized(e.acl, ph.entry.role, PathOf(ph.req)))
            && (HandlerOf(before).Some? && HandlerOf(before).value.ProtectedFile? && ph.Done? && ph.res.status == 200 ==>
                  && before.FileAllowed?
                  && ph.res == AuthHandlers.ReadResponse(PathOf(ph.req), before.fsRoot, before.urlPrefix, o.files))
  {
    hide Start, Cookies.Credentials, Acls.Authorized, AuthHandlers.ReadResponse, AuthHandlers.CheckResponse,
      AuthProviders.Verifies, Routers.Answer, Routers.Gate;
    if before.Running? {
      StartsFile(kdf, e, now, before.req, before.handler, o);
    }
  }

  lemma StepToFile(r: Run, n: nat, t: nat)
    requires 0 < n <= |r.events| && r.Advances(n - 1, t) && !Free(r.ThreadAt(n - 1, t))
    ensures var ph := r.ThreadAt(n, t);
            && (ph.FileValidated? ==> AuthenticatesAt(r, n - 1, t, ph.req, ph.fsRoot, ph.urlPrefix, ph.entry))
            && (ph.FileAllowed? ==> AuthorizesAt(r, n - 1, t, ph.req, ph.fsRoot, ph.urlPrefix, ph.entry)
                                    && r.ThreadAt(n - 1, t) == FileValidated(ph.req, ph.fsRoot, ph.urlPrefix, ph.entry))
  {
    hide Start, Local, Cookies.Credentials, Acls.Authorized;
    var s := r.At(n - 1);
    FileSteps(r.kdf, s.engine, s.now, PhaseOf(s, t), r.events[n - 1].oracle);
  }

  /** A file handler always runs for a path below its own prefix, so prefix and
      remainder rebuild the path it maps. */
  lemma HandlerSeesItsPrefix(r: Run, n: nat, t: nat)
    requires n <= |r.events| && r.init.threads == map[] && MountsOnly(r)
    requires HandlerOf(r.ThreadAt(n, t)).Some? && HandlerOf(r.ThreadAt(n, t)).value.ProtectedFile?
    ensures var path, prefix := PathOf(r.ThreadAt(n, t).req), HandlerOf(r.ThreadAt(n, t)).value.urlPrefix;
            prefix <= path && prefix + path[|prefix|..] == path
  {
    hide Apply, Local, Start;
    var a, l, v, need, user := HandlerLinearises(r, n, t);
    MountsStay(r, l);
    var ph := r.ThreadAt(n, t);
    Routers.FileHandlerSeesItsPrefix(r.At(l).engine.table, ph.req, Routers.Route(HandlerOf(ph).value, need));
  }

  /** Where an authenticated file request was authenticated: after it arrived. */
  lemma {:induction false} AuthenticationOf(r: Run, n: nat, t: nat) returns (a: nat, v: nat)
    requires n <= |r.events| && r.init.threads == map[] && r.ThreadAt(n, t).FileValidated?
    ensures var ph := r.ThreadAt(n, t);
            && a < v < n && ArrivesAt(r, a, t, ph.req) && Serves(r, a, n, t, ph.req)
            && AuthenticatesAt(r, v, t, ph.req, ph.fsRoot, ph.urlPrefix, ph.entry)
  {
    hide Apply, Local, Start, Serves, AuthenticatesAt, LooksUpAt, AdmitsAt, Vouches, Run.At, Run.ThreadAt, Run.Advances;
    BusyLater(r, n, t);
    LastStep(r, n, t);
    if r.Advances(n - 1, t) {
      StepToFile(r, n, t);
      StepPhases(r, n, t);
      var l, admitted, need, user;
      a, l, admitted, need, user := HandlerLinearises(r, n - 1, t);
      v := n - 1;
    } else {
      a, v := AuthenticationOf(r, n - 1, t);
    }
    ExtendServes(r, a, n - 1, t, r.ThreadAt(n, t).req);
  }

  /** And where an authorised one was authorised: after that. */
  lemma {:induction false} AuthorizationOf(r: Run, n: nat, t: nat) returns (a: nat, v: nat, w: nat)
    requires n <= |r.events| && r.init.threads == map[] && r.ThreadAt(n, t).FileAllowed?
    ensures var ph := r.ThreadAt(n, t);
            && a < v < w < n && ArrivesAt(r, a, t, ph.req) && Serves(r, a, n, t, ph.req)
            && AuthenticatesAt(r, v, t, ph.req, ph.fsRoot, ph.urlPrefix, ph.entry)
            && AuthorizesAt(r, w, t, ph.req, ph.fsRoot, ph.urlPrefix, ph.entry)
  {
    hide Apply, Local, Start, Serves, AuthenticatesAt, AuthorizesAt, Run.At, Run.ThreadAt, Run.Advances;
    BusyLater(r, n, t);
    LastStep(r, n, t);
    if r.Advances(n - 1, t) {
      StepToFile(r, n, t);
      a, v := AuthenticationOf(r, n - 1, t);
      w := n - 1;
    } else {
      a, v, w := AuthorizationOf(r, n - 1, t);
    }
    ExtendServes(r, a, n - 1, t, r.ThreadAt(n, t).req);
  }

  /** A 200 answer of a file handler is the content of the mapped file, as it is
      at the moment of the answer. */
  lemma AnsweredWith(r: Run, n: nat, t: nat)
    requires n < |r.events| && r.Advances(n, t)
    requires HandlerOf(r.ThreadAt(n, t)).Some? && HandlerOf(r.ThreadAt(n, t)).value.ProtectedFile?
    requires r.ThreadAt(n + 1, t).Done? && r.ThreadAt(n + 1, t).res.status == 200
    ensures r.ThreadAt(n, t).FileAllowed?
    ensures var ph, files := r.ThreadAt(n, t), r.events[n].oracle.files;
            var mapped := FileMapping.MapFile(PathOf(ph.req), ph.fsRoot, ph.urlPrefix);
            mapped.File? && mapped.file in files && r.ThreadAt(n + 1, t).res.content == files[mapped.file]
  {
    hide Start, Local, FileMapping.MapFile;
    var s := r.At(n);
    LocalDescends(r.kdf, s.engine, s.now, PhaseOf(s, t), r.events[n].oracle);
    FileSteps(r.kdf, s.engine, s.now, PhaseOf(s, t), r.events[n].oracle);
  }

  /** When the rules that accepted a file request at w still do at n. */
  lemma AuthorizedStill(r: Run, w: nat, n: nat, t: nat, req: Request, fsRoot: string, urlPrefix: string,
                        entry: TokenStores.TokenEntry)
    requires AuthorizesAt(r, w, t, req, fsRoot, urlPrefix, entry) && w <= n <= |r.events|
    ensures Acls.Authorized(r.At(n).engine.acl, entry.role, PathOf(req))
            <==> !ClosedBetween(r, w, n, PathOf(req), entry.role)
  {
    hide Run.At, Run.ThreadAt, Run.Advances, Acls.Authorized, ClosedBetween, PathOf;
    RefusedExactly(r, w, n, PathOf(req), entry.role);
  }

  /** Whatever a file handler answers 200 with, in any run, there are three moments
      since the request arrived: at v its token was good for an entry, at a later w
      the rules accepted that entry's role for the path, and at the still later
      moment of the answer its content was that of a file below the served root, at
      the place the path behind the mount prefix names. The rules of that last moment
      accept it too exactly when no edit since w has closed the path. */
  lemma ServedFile(r: Run, n: nat, t: nat) returns (a: nat, v: nat, w: nat, file: string)
    requires n < |r.events| && r.init.threads == map[] && MountsOnly(r) && r.Advances(n, t)
    requires HandlerOf(r.ThreadAt(n, t)).Some? && HandlerOf(r.ThreadAt(n, t)).value.ProtectedFile?
    requires r.ThreadAt(n + 1, t).Done? && r.ThreadAt(n + 1, t).res.status == 200
    ensures r.ThreadAt(n, t).FileAllowed?
    ensures var ph, files := r.ThreadAt(n, t), r.events[n].oracle.files;
            && a < v < w < n && ArrivesAt(r, a, t, ph.req) && Serves(r, a, n, t, ph.req)
            && AuthenticatesAt(r, v, t, ph.req, ph.fsRoot, ph.urlPrefix, ph.entry)
            && AuthorizesAt(r, w, t, ph.req, ph.fsRoot, ph.urlPrefix, ph.entry)
            && ph.urlPrefix <= PathOf(ph.req)
            && file in files && r.ThreadAt(n + 1, t).res.content == files[file]
            && (Acls.Authorized(r.At(n).engine.acl, ph.entry.role, PathOf(ph.req))
                <==> !ClosedBetween(r, w, n, PathOf(ph.req), ph.entry.role))
            && (FileMapping.Inside(ph.fsRoot, file) <==> ph.fsRoot != "")
            && (FileMapping.Clean(PathOf(ph.req)[|ph.urlPrefix|..]) && ph.fsRoot != "" ==>
                  FileMapping.Resolve(file).names
                  == FileMapping.Resolve(ph.fsRoot).names + Text.Split(PathOf(ph.req)[|ph.urlPrefix|..]))
  {
    hide Apply, Local, Start, Serves, AuthenticatesAt, AuthorizesAt, ClosedBetween, Run.At, Run.ThreadAt, Run.Advances,
      Acls.Authorized, PathOf, FileMapping.MapFile, FileMapping.Inside, FileMapping.Clean, FileMapping.Resolve,
      Text.Split;
    AnsweredWith(r, n, t);
    a, v, w := AuthorizationOf(r, n, t);
    HandlerSeesItsPrefix(r, n, t);
    var ph := r.ThreadAt(n, t);
    AuthorizedStill(r, w, n, t, ph.req, ph.fsRoot, ph.urlPrefix, ph.entry);
    var path := PathOf(ph.req);
    file := FileMapping.MapFile(path, ph.fsRoot, ph.urlPrefix).file;
    FileMapping.InsideExactly(path, ph.fsRoot, ph.urlPrefix);
    if FileMapping.Clean(path[|ph.urlPrefix|..]) && ph.fsRoot != "" {
      FileMapping.CleanIsKept(path, ph.fsRoot, ph.urlPrefix);
    }
  }

  // ---- When a file handler answers what ---------------------------------------------------

  /** A bad token is redirected to the login page, and refused roles get a 403. */
  lemma FileGatesExactly(r: Run, n: nat, t: nat)
    requires r.Advances(n, t)
    requires HandlerOf(r.ThreadAt(n, t)).Some? && HandlerOf(r.ThreadAt(n, t)).value.ProtectedFile?
    ensures var ph, to, s := r.ThreadAt(n, t), r.ThreadAt(n + 1, t), r.At(n);
            match ph
            case Running(req, handler, _) =>
              (match Cookies.Credentials(req, s.engine.tokens, s.now)
               case None => to == Done(req, Response(302, None, Some("/?reason=unauthenticated"), None, ""))
               case Some(entry) => to == FileValidated(req, handler.fsRoot, handler.urlPrefix, entry))
            case FileValidated(req, fsRoot, urlPrefix, entry) =>
              if Acls.Authorized(s.engine.acl, entry.role, PathOf(req))
              then to == FileAllowed(req, fsRoot, urlPrefix, entry)
              else to == Done(req, Response(403, None, None, None, ""))
            case _ => true
  {
    hide Start, Local, Cookies.Credentials, Acls.Authorized, PathOf;
    var s, ph, o := r.At(n), r.ThreadAt(n, t), r.events[n].oracle;
    if ph.Running? {
      FileStarts(r.kdf, s.engine, s.now, ph.req, ph.user, ph.handler.fsRoot, ph.handler.urlPrefix, o);
    } else if ph.FileValidated? {
      FileChecks(r.kdf, s.engine, s.now, ph.req, ph.fsRoot, ph.urlPrefix, ph.entry, o);
    }
  }

  /** Past the rules: behind the mount the path has any slashes and a name. With ".."
      in the name the answer is 403. Otherwise it is 200 with the file of that name in
      the directory served, or with the index file of the directory named, as it is at
      this moment, and 404 when there is none. */
  lemma ReadAnswersExactly(r: Run, n: nat, t: nat, dir: string, slashes: string, name: string)
    requires r.Advances(n, t) && r.ThreadAt(n, t).FileAllowed?
    requires dir == "" || dir[|dir| - 1] != '/'
    requires r.ThreadAt(n, t).fsRoot == dir || r.ThreadAt(n, t).fsRoot == dir + "/"
    requires PathOf(r.ThreadAt(n, t).req) == r.ThreadAt(n, t).urlPrefix + slashes + name
    requires (forall i | 0 <= i < |slashes| :: slashes[i] == '/') && (name == "" || name[0] != '/')
    ensures var req, files := r.ThreadAt(n, t).req, r.events[n].oracle.files;
            var file := dir + "/" + if name == "" || name[|name| - 1] == '/' then name + "index.html" else name;
            r.ThreadAt(n + 1, t)
            == Done(req, if FileMapping.HasDots(name) then Response(403, None, None, None, "")
                         else if file in files then Response(200, None, None, None, files[file])
                         else Response(404, None, None, None, ""))
  {
    hide Run.At, Run.ThreadAt, AuthHandlers.ReadResponse, FileMapping.HasDots, FileMapping.FileNamed, PathOf;
    ReadStep(r, n, t);
    var ph := r.ThreadAt(n, t);
    ReadsNamed(dir, ph.fsRoot, ph.urlPrefix, slashes, name, r.events[n].oracle.files);
    NamedLiterally(name);
  }

  lemma NamedLiterally(name: string)
    ensures FileMapping.FileNamed(name)
            == if name == "" || name[|name| - 1] == '/' then name + "index.html" else name
  {
  }

  lemma ReadsNamed(dir: string, fsRoot: string, urlPrefix: string, slashes: string, name: string,
                   files: map<string, string>)
    requires (dir == "" || dir[|dir| - 1] != '/') && (fsRoot == dir || fsRoot == dir + "/")
    requires (forall i | 0 <= i < |slashes| :: slashes[i] == '/') && (name == "" || name[0] != '/')
    ensures var file := dir + "/" + FileMapping.FileNamed(name);
            AuthHandlers.ReadResponse(urlPrefix + slashes + name, fsRoot, urlPrefix, files)
            == if FileMapping.HasDots(name) then Response(403, None, None, None, "")
               else if file in files then Response(200, None, None, None, files[file])
               else Response(404, None, None, None, "")
  {
    hide FileMapping.MapFile, FileMapping.HasDots, FileMapping.FileNamed;
    var path := urlPrefix + slashes + name;
    if FileMapping.HasDots(name) {
      FileMapping.SlashesAddNoDots(slashes, name);
      assert path == urlPrefix + (slashes + name);
      assert path[|urlPrefix|..] == slashes + name;
      FileMapping.RefusesDotsOnly(path, fsRoot, urlPrefix);
    } else {
      FileMapping.MapsTo(dir, fsRoot, urlPrefix, slashes, name);
    }
  }

  lemma ReadStep(r: Run, n: nat, t: nat)
    requires r.Advances(n, t) && r.ThreadAt(n, t).FileAllowed?
    ensures var ph := r.ThreadAt(n, t);
            r.ThreadAt(n + 1, t)
            == Done(ph.req, AuthHandlers.ReadResponse(PathOf(ph.req), ph.fsRoot, ph.urlPrefix, r.events[n].oracle.files))
  {
    hide Start, AuthHandlers.ReadResponse, PathOf;
  }

  // ---- The rules at the moment of the answer -----------------------------------------

  /** Once past the rules, a file request is answered whatever becomes of them, over
      any span of events in which its own thread does not move: the answer is 200,
      and against the rules of its moment exactly when some edit in that span closed
      the path and none has decided it since. */
  lemma ReadIgnoresTheRules(r: Run, m: nat, n: nat, t: nat)
    requires m <= n < |r.events| && r.ThreadAt(m, t).FileAllowed? && r.Advances(n, t)
    requires forall x | m <= x < n :: !r.Advances(x, t)
    requires var ph := r.ThreadAt(m, t);
             Acls.Authorized(r.At(m).engine.acl, ph.entry.role, PathOf(ph.req))
    requires var ph := r.ThreadAt(m, t);
             var mapped := FileMapping.MapFile(PathOf(ph.req), ph.fsRoot, ph.urlPrefix);
             mapped.File? && mapped.file in r.events[n].oracle.files
    ensures r.ThreadAt(n, t) == r.ThreadAt(m, t)
    ensures r.ThreadAt(n + 1, t).Done? && r.ThreadAt(n + 1, t).res.status == 200
    ensures var ph := r.ThreadAt(n, t);
            !Acls.Authorized(r.At(n).engine.acl, ph.entry.role, PathOf(ph.req))
            <==> ClosedBetween(r, m, n, PathOf(ph.req), ph.entry.role)
  {
    hide Run.At, Run.ThreadAt, Run.Advances, Acls.Authorized, ClosedBetween, FileMapping.MapFile, PathOf;
    StaysPut(r, m, n, t);
    ReadAnswers(r, n, t);
    RefusedExactly(r, m, n, PathOf(r.ThreadAt(m, t).req), r.ThreadAt(m, t).entry.role);
  }

  lemma ReadAnswers(r: Run, n: nat, t: nat)
    requires n < |r.events| && r.ThreadAt(n, t).FileAllowed? && r.Advances(n, t)
    requires var ph := r.ThreadAt(n, t);
             var mapped := FileMapping.MapFile(PathOf(ph.req), ph.fsRoot, ph.urlPrefix);
             mapped.File? && mapped.file in r.events[n].oracle.files
    ensures r.ThreadAt(n + 1, t).Done? && r.ThreadAt(n + 1, t).res.status == 200
  {
    hide Start, FileMapping.MapFile, PathOf;
  }

  /** A request that engine e would let through to a file. */
  ghost predicate WouldServe(e: Engine, now: int, req: Request, fsRoot: string, urlPrefix: string,
                             entry: TokenStores.TokenEntry)
  {
    && Routers.Answer(e.table, req.verb, PathOf(req)) == Some(Routers.Route(ProtectedFile(fsRoot, urlPrefix), None))
    && Cookies.Credentials(req, e.tokens, now) == Some(entry)
    && Acls.Authorized(e.acl, entry.role, PathOf(req))
  }

  lemma FirstStep(r: Run, req: Request)
    requires |r.events| > 0 && r.events[0] == Arrive(0, req) && r.init.threads == map[]
    ensures r.At(1) == r.init.(threads := map[0 := Arrived(req)])
  {
  }

  lemma OneStep(r: Run, n: nat, e: Engine, now: int, ph: Phase, to: Phase)
    requires r.Advances(n, 0) && r.At(n) == State(e, now, map[0 := ph])
    requires Local(r.kdf, e, now, ph, r.events[n].oracle) == (e, to)
    ensures r.At(n + 1) == State(e, now, map[0 := to])
  {
    hide Local;
  }

  lemma FileStart(kdf: AuthProviders.Kdf, e: Engine, now: int, req: Request, fsRoot: string, urlPrefix: string,
                  entry: TokenStores.TokenEntry, o: Oracle)
    requires Cookies.Credentials(req, e.tokens, now) == Some(entry)
    ensures Start(kdf, e, now, req, ProtectedFile(fsRoot, urlPrefix), o)
            == (e, FileValidated(req, fsRoot, urlPrefix, entry))
  {
    hide Cookies.Credentials;
  }

  lemma FileLocals(kdf: AuthProviders.Kdf, e: Engine, now: int, req: Request, fsRoot: string, urlPrefix: string,
                   entry: TokenStores.TokenEntry, o: Oracle)
    requires WouldServe(e, now, req, fsRoot, urlPrefix, entry)
    ensures var handler := ProtectedFile(fsRoot, urlPrefix);
            && Local(kdf, e, now, Arrived(req), o) == (e, Routed(req, Routers.Route(handler, None)))
            && Local(kdf, e, now, Routed(req, Routers.Route(handler, None)), o) == (e, Running(req, handler, None))
            && Local(kdf, e, now, Running(req, handler, None), o) == (e, FileValidated(req, fsRoot, urlPrefix, entry))
            && Local(kdf, e, now, FileValidated(req, fsRoot, urlPrefix, entry), o)
               == (e, FileAllowed(req, fsRoot, urlPrefix, entry))
  {
    hide Start, Routers.Answer, Cookies.Credentials, Acls.Authorized, PathOf;
    FileStart(kdf, e, now, req, fsRoot, urlPrefix, entry, o);
  }

  /** Four steps take such a request past the rules. */
  lemma ReachesAllowed(r: Run, req: Request, fsRoot: string, urlPrefix: string, entry: TokenStores.TokenEntry, o: Oracle)
    requires |r.events| > 4 && r.init.threads == map[] && r.events[0] == Arrive(0, req)
    requires forall i | 1 <= i <= 4 :: r.events[i] == Advance(0, o)
    requires WouldServe(r.init.engine, r.init.now, req, fsRoot, urlPrefix, entry)
    ensures r.ThreadAt(5, 0) == FileAllowed(req, fsRoot, urlPrefix, entry)
    ensures r.At(5).engine == r.init.engine
  {
    hide Local, Start, Apply, Run.At, WouldServe;
    var e, now := r.init.engine, r.init.now;
    FileLocals(r.kdf, e, now, req, fsRoot, urlPrefix, entry, o);
    FirstStep(r, req);
    var handler := ProtectedFile(fsRoot, urlPrefix);
    OneStep(r, 1, e, now, Arrived(req), Routed(req, Routers.Route(handler, None)));
    OneStep(r, 2, e, now, Routed(req, Routers.Route(handler, None)), Running(req, handler, None));
    OneStep(r, 3, e, now, Running(req, handler, None), FileValidated(req, fsRoot, urlPrefix, entry));
    OneStep(r, 4, e, now, FileValidated(req, fsRoot, urlPrefix, entry), FileAllowed(req, fsRoot, urlPrefix, entry));
  }

  /** An engine with one rule, for User over everything, one token, of a User, and
      files mounted at "", would serve this request. */
  lemma ExampleWouldServe() returns (e: Engine, req: Request, entry: TokenStores.TokenEntry)
    ensures Routers.FilesMounted(e.table) && entry.role == User
    ensures WouldServe(e, 0, req, "/srv", "", entry)
    ensures FileMapping.MapFile(PathOf(req), "/srv", "").File?
  {
    entry := TokenStores.TokenEntry("user", User, 0);
    var route := Routers.Route(ProtectedFile("/srv", ""), None);
    e := Engine(Routers.Table(map[], map[Routers.Key(Get, "") := route]), map["t" := entry], map["" := User], map[]);
    req := Request(Get, "/x", None, Some("Bearer t"), None, Body(false, None, None, None, None));
    Text.UntilUnique("/x", '?', "/x");
    assert Routers.Key(Get, "") in e.table.prefixes;
    assert Routers.PrefixesFor(e.table, Get) == {""};
    PrefixMatch.LongestIs(Routers.PrefixesFor(e.table, Get), "/x", "");
    PrefixMatch.LongestIs(e.acl.Keys, "/x", "");
    assert "/x"[0..] == "/x";
    assert Text.Find("/x", "..").None?;
    assert "Bearer t"[|Cookies.BEARER|..] == "t";
  }

  /** What happens when the rule is raised right after the check, and then the file
      is read. */
  lemma RaisedBeforeTheRead(r: Run, req: Request, fsRoot: string, urlPrefix: string, entry: TokenStores.TokenEntry,
                            need: Role, o: Oracle)
    requires |r.events| == 7 && r.init.threads == map[] && r.events[0] == Arrive(0, req)
    requires forall i | 1 <= i <= 4 :: r.events[i] == Advance(0, o)
    requires r.events[5] == Host(ProtectPath(PathOf(req), need)) && r.events[6] == Advance(0, o)
    requires WouldServe(r.init.engine, r.init.now, req, fsRoot, urlPrefix, entry) && !Satisfies(entry.role, need)
    requires var mapped := FileMapping.MapFile(PathOf(req), fsRoot, urlPrefix);
             mapped.File? && mapped.file in o.files
    ensures r.ThreadAt(6, 0) == FileAllowed(req, fsRoot, urlPrefix, entry)
    ensures r.ThreadAt(7, 0).Done? && r.ThreadAt(7, 0).res.status == 200
    ensures !Acls.Authorized(r.At(6).engine.acl, entry.role, PathOf(req))
  {
    hide Local, Start, FileMapping.MapFile, PathOf, Apply, Run.At, Run.ThreadAt, ClosedBetween, Acls.Authorized;
    ReachesAllowed(r, req, fsRoot, urlPrefix, entry, o);
    RaisedRuleCloses(r, 5, PathOf(req), need, entry.role);
    ReadIgnoresTheRules(r, 5, 6, 0);
  }

  /** So a 200 answer does not say that the rules accept it at its own moment. */
  lemma RulesMayChangeBeforeTheAnswer(kdf: AuthProviders.Kdf) returns (r: Run, n: nat)
    ensures n < |r.events| && r.init.threads == map[] && MountsOnly(r) && r.Advances(n, 0)
    ensures r.ThreadAt(n, 0).FileAllowed? && r.ThreadAt(n + 1, 0).Done? && r.ThreadAt(n + 1, 0).res.status == 200
    ensures var ph := r.ThreadAt(n, 0);
            !Acls.Authorized(r.At(n).engine.acl, ph.entry.role, PathOf(ph.req))
  {
    hide FileMapping.MapFile, PathOf, Run.At, Run.ThreadAt, Acls.Authorized, WouldServe;
    var e, req, entry := ExampleWouldServe();
    var file := FileMapping.MapFile(PathOf(req), "/srv", "").file;
    var o := Oracle(None, None, map[file := "content"], None);
    var step := Advance(0, o);
    r := Run(kdf, State(e, 0, map[]),
             [Arrive(0, req), step, step, step, step, Host(ProtectPath(PathOf(req), Admin)), step]);
    n := 6;
    RaisedBeforeTheRead(r, req, "/srv", "", entry, Admin, o);
  }
}

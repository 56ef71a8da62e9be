/** Sessions over whole runs: where every token comes from, how long it lives,
    and when it ends, under any interleaving. */
module Sessions {
  import opened Basics
  import opened Http
  import Acls
  import AuthHandlers
  import AuthProviders
  import Codec
  import Cookies
  import opened Dispatching
  import opened Engines
  import Routers
  import Text
  import TokenStores

  /** At moment m thread t, logging in for req, copies out the record of the name
      the request gives. */
  ghost predicate FetchesAt(r: Run, m: nat, t: nat, req: Request, record: AuthProviders.UserRecord) {
    && r.Advances(m, t)
    && r.ThreadAt(m, t).Running? && r.ThreadAt(m, t).handler == Login && r.ThreadAt(m, t).req == req
    && OrEmpty(req.body.username) != ""
    && OrEmpty(req.body.username) in r.At(m).engine.users
    && r.At(m).engine.users[OrEmpty(req.body.username)] == record
  }

  /** At moment k some thread mints this very token at the end of a login. */
  ghost predicate MintsAt(r: Run, k: nat, token: string) {
    && k < |r.events| && r.events[k].Advance?
    && r.ThreadAt(k, r.events[k].thread).LoginVerified?
    && r.events[k].oracle.token.Some? && token == Codec.ToHex(r.events[k].oracle.token.value)
  }

  /** The entry a minting records. */
  ghost function MintedEntry(r: Run, k: nat): TokenStores.TokenEntry
    requires k < |r.events| && r.events[k].Advance? && r.ThreadAt(k, r.events[k].thread).LoginVerified?
  {
    var ph := r.ThreadAt(k, r.events[k].thread);
    TokenStores.TokenEntry(ph.name, ph.role, TokenStores.Expiry(r.At(k).now, TokenStores.DEFAULT_TTL))
  }

  /** At moment x some thread logs this token out. */
  ghost predicate RevokesAt(r: Run, x: nat, token: string) {
    && x < |r.events| && r.events[x].Advance?
    && var ph := r.ThreadAt(x, r.events[x].thread);
       ph.Running? && ph.handler == Logout && token != "" && Cookies.SessionValue(ph.req) == token
  }

  /** The moments k < x < n neither mint nor revoke the token. */
  ghost predicate Undisturbed(r: Run, k: nat, n: nat, token: string) {
    n <= |r.events| && forall x: nat | k < x < n :: !MintsAt(r, x, token) && !RevokesAt(r, x, token)
  }

  /** The random source never repeats a token. */
  ghost predicate FreshTokens(r: Run) {
    forall i: nat, j: nat, token | MintsAt(r, i, token) && MintsAt(r, j, token) :: i == j
  }

  /** What one step of one handler does to one token. */
  lemma StartOnToken(kdf: AuthProviders.Kdf, e: Engine, now: int, req: Request, handler: Handler, o: Oracle)
    ensures var after := Start(kdf, e, now, req, handler, o).0.tokens;
            after == if handler == Logout && Cookies.SessionValue(req) != ""
                     then e.tokens - {Cookies.SessionValue(req)} else e.tokens
  {
    hide Cookies.Credentials, AuthProviders.HashOf, Cookies.SessionValue, Given, RoleIn;
  }

  /** Event n changes the store at a token only by minting or revoking it. */
  lemma TokenStep(r: Run, n: nat, token: string)
    requires n < |r.events|
    ensures var before, after := r.At(n).engine.tokens, r.At(n + 1).engine.tokens;
            if MintsAt(r, n, token) then token in after && after[token] == MintedEntry(r, n)
            else if RevokesAt(r, n, token) then token !in after
            else (token in after <==> token in before) && (token in after ==> after[token] == before[token])
  {
    hide Start, Routers.Answer, Routers.Gate;
    var s := r.At(n);
    if r.events[n].Advance? {
      var ph := PhaseOf(s, r.events[n].thread);
      if ph.Running? {
        StartOnToken(r.kdf, s.engine, s.now, ph.req, ph.handler, r.events[n].oracle);
      }
    }
  }

  /** A minted token stays in the store, as minted, until it is minted or revoked again. */
  lemma {:induction false} TokenStays(r: Run, k: nat, n: nat, token: string)
    requires MintsAt(r, k, token) && k < n && Undisturbed(r, k, n, token)
    ensures token in r.At(n).engine.tokens && r.At(n).engine.tokens[token] == MintedEntry(r, k)
  {
    hide Apply, Local, Start;
    TokenStep(r, n - 1, token);
    if k == n - 1 {
    } else {
      assert Undisturbed(r, k, n - 1, token);
      TokenStays(r, k, n - 1, token);
    }
  }

  /** A revoked token stays away until it is minted again. */
  lemma {:induction false} TokenStaysAway(r: Run, x: nat, n: nat, token: string)
    requires RevokesAt(r, x, token) && x < n <= |r.events|
    requires forall y: nat | x < y < n :: !MintsAt(r, y, token)
    ensures token !in r.At(n).engine.tokens
  {
    hide Apply, Local, Start;
    TokenStep(r, n - 1, token);
    if x < n - 1 {
      TokenStaysAway(r, x, n - 1, token);
    } else {
      MintsOrRevokes(r, x, token);
    }
  }

  lemma MintsOrRevokes(r: Run, x: nat, token: string)
    requires RevokesAt(r, x, token)
    ensures !MintsAt(r, x, token)
  {
  }

  // ---- Where tokens come from -----------------------------------------------------

  /** A login that began with request req at moment a and read record at moment m
      has come, on thread t and with nothing in between, to moment n. */
  ghost predicate LoginFrom(r: Run, n: nat, t: nat, req: Request, a: nat, m: nat,
                            record: AuthProviders.UserRecord)
  {
    && a < m < n && ArrivesAt(r, a, t, req) && Serves(r, a, n, t, req) && FetchesAt(r, m, t, req, record)
  }

  lemma LoginLocals(kdf: AuthProviders.Kdf, e: Engine, now: int, before: Phase, o: Oracle)
    requires !Free(before)
    ensures var ph := Local(kdf, e, now, before, o).1;
            && (ph.LoginFetched? ==>
                  && before.Running? && before.handler == Login && before.req == ph.req
                  && ph.name == OrEmpty(ph.req.body.username) && ph.name != ""
                  && ph.name in e.users && ph.record == e.users[ph.name])
            && (ph.LoginVerified? ==>
                  && before.LoginFetched? && before.req == ph.req && before.name == ph.name
                  && before.record.role == ph.role
                  && AuthProviders.Verifies(kdf, OrEmpty(ph.req.body.password), before.record.passwordHash))
  {
    hide Start, Routers.Answer, Routers.Gate, Cookies.Credentials, AuthProviders.Verifies,
      AuthHandlers.CheckResponse, AuthHandlers.ReadResponse, Acls.Authorized;
    if before.Running? {
      StartLogin(kdf, e, now, before.req, before.handler, o);
    }
  }

  lemma LoginSteps(r: Run, n: nat, t: nat)
    requires 0 < n <= |r.events| && r.Advances(n - 1, t) && !Free(r.ThreadAt(n - 1, t))
    ensures var ph, before := r.ThreadAt(n, t), r.ThreadAt(n - 1, t);
            && (ph.LoginFetched? ==> FetchesAt(r, n - 1, t, ph.req, ph.record)
                                     && ph.name == OrEmpty(ph.req.body.username))
            && (ph.LoginVerified? ==>
                  before.LoginFetched? && before.req == ph.req && before.name == ph.name
                  && before.record.role == ph.role
                  && AuthProviders.Verifies(r.kdf, OrEmpty(ph.req.body.password), before.record.passwordHash))
  {
    hide Start, Local, AuthProviders.Verifies;
    var s := r.At(n - 1);
    LoginLocals(r.kdf, s.engine, s.now, PhaseOf(s, t), r.events[n - 1].oracle);
  }

  lemma StartLogin(kdf: AuthProviders.Kdf, e: Engine, now: int, req: Request, handler: Handler, o: Oracle)
    ensures var ph := Start(kdf, e, now, req, handler, o).1;
            && !ph.LoginVerified?
            && (ph.LoginFetched? ==>
                  && handler == Login && ph.name == OrEmpty(req.body.username) && ph.name != ""
                  && ph.name in e.users && ph.record == e.users[ph.name])
  {
  }

  lemma {:induction false} FetchOf(r: Run, n: nat, t: nat) returns (a: nat, m: nat)
    requires n <= |r.events| && r.init.threads == map[] && r.ThreadAt(n, t).LoginFetched?
    ensures var ph := r.ThreadAt(n, t);
            ph.name == OrEmpty(ph.req.body.username) && LoginFrom(r, n, t, ph.req, a, m, ph.record)
  {
    hide Start, Local, Apply, Run.At, Run.ThreadAt, Run.Advances, FetchesAt, ArrivesAt, LooksUpAt, AdmitsAt, Vouches;
    BusyLater(r, n, t);
    LastStep(r, n, t);
    if r.Advances(n - 1, t) {
      LoginSteps(r, n, t);
      StepPhases(r, n, t);
      m := n - 1;
      var l, v, need;
      a, l, v, need := DispatchLinearises(r, n - 1, t);
    } else {
      a, m := FetchOf(r, n - 1, t);
    }
    ExtendServes(r, a, n - 1, t, r.ThreadAt(n, t).req);
  }

  /** Login is coherent under any concurrent user management: a verified login
      carries the role of one record, which was in the user table at one moment of
      this very call, and the password was checked against that record's own hash. */
  lemma {:induction false} LoginIsCoherent(r: Run, n: nat, t: nat)
    returns (a: nat, m: nat, record: AuthProviders.UserRecord)
    requires n <= |r.events| && r.init.threads == map[] && r.ThreadAt(n, t).LoginVerified?
    ensures var ph := r.ThreadAt(n, t);
            && LoginFrom(r, n, t, ph.req, a, m, record)
            && ph.name == OrEmpty(ph.req.body.username) && ph.role == record.role
            && AuthProviders.Verifies(r.kdf, OrEmpty(ph.req.body.password), record.passwordHash)
  {
    hide Start, Local, Apply, Run.At, Run.ThreadAt, Run.Advances, FetchesAt, ArrivesAt, AuthProviders.Verifies;
    BusyLater(r, n, t);
    LastStep(r, n, t);
    if r.Advances(n - 1, t) {
      LoginSteps(r, n, t);
      a, m := FetchOf(r, n - 1, t);
      record := r.ThreadAt(n - 1, t).record;
    } else {
      a, m, record := LoginIsCoherent(r, n - 1, t);
    }
    ExtendServes(r, a, n - 1, t, r.ThreadAt(n, t).req);
  }

  /** Starting from an empty store, a token in the store is there exactly as its
      latest minting recorded it, with no logout since, and that minting ended a
      coherent login. Together with TokenStays and TokenStaysAway: the store is a
      function of the history of mintings and logouts. */
  lemma {:induction false} TokenOrigin(r: Run, n: nat, token: string)
    returns (k: nat, a: nat, m: nat, record: AuthProviders.UserRecord)
    requires n <= |r.events| && r.init.threads == map[] && r.init.engine.tokens == map[]
    requires token in r.At(n).engine.tokens
    ensures k < n && MintsAt(r, k, token) && Undisturbed(r, k, n, token)
    ensures r.At(n).engine.tokens[token] == MintedEntry(r, k)
    ensures var t := r.events[k].thread; var ph := r.ThreadAt(k, t);
            && LoginFrom(r, k, t, ph.req, a, m, record)
            && MintedEntry(r, k).username == OrEmpty(ph.req.body.username)
            && MintedEntry(r, k).role == record.role
            && AuthProviders.Verifies(r.kdf, OrEmpty(ph.req.body.password), record.passwordHash)
  {
    hide Apply, Local, Start, AuthProviders.Verifies, LoginFrom, RevokesAt;
    TokenStep(r, n - 1, token);
    if MintsAt(r, n - 1, token) {
      k := n - 1;
      a, m, record := LoginIsCoherent(r, n - 1, r.events[n - 1].thread);
    } else {
      k, a, m, record := TokenOrigin(r, n - 1, token);
    }
  }

  // ---- End to end ------------------------------------------------------------------

  /** At moment k some thread's login is answered with the cookie of this token. */
  ghost predicate LoginAnswersAt(r: Run, k: nat, token: string) {
    && k < |r.events| && r.events[k].Advance?
    && var t := r.events[k].thread;
       && HandlerOf(r.ThreadAt(k, t)) == Some(Login)
       && r.ThreadAt(k + 1, t) == Done(r.ThreadAt(k, t).req, AuthHandlers.LoginResponse(token))
  }

  /** The step out of a login that answers 200 is the one that minted the token. */
  lemma LoginLocalAnswer(kdf: AuthProviders.Kdf, e: Engine, now: int, before: Phase, o: Oracle)
    requires HandlerOf(before) == Some(Login)
    ensures var ph := Local(kdf, e, now, before, o).1;
            ph.Done? && ph.res.status == 200 ==>
              && before.LoginVerified? && o.token.Some?
              && ph == Done(before.req, AuthHandlers.LoginResponse(Codec.ToHex(o.token.value)))
  {
    hide Codec.ToHex, AuthProviders.Verifies;
  }

  /** Every 200 of a login carries the cookie of a token it has just minted. */
  lemma LoginMints(r: Run, k: nat) returns (token: string)
    requires k < |r.events| && r.events[k].Advance?
    requires HandlerOf(r.ThreadAt(k, r.events[k].thread)) == Some(Login)
    requires r.ThreadAt(k + 1, r.events[k].thread).Done? && r.ThreadAt(k + 1, r.events[k].thread).res.status == 200
    ensures MintsAt(r, k, token) && LoginAnswersAt(r, k, token)
  {
    hide Local, Start, Codec.ToHex;
    var s, e := r.At(k), r.events[k];
    LoginLocalAnswer(r.kdf, s.engine, s.now, PhaseOf(s, e.thread), e.oracle);
    token := Codec.ToHex(e.oracle.token.value);
  }

  lemma SameCookieSameToken(a: string, b: string)
    requires AuthHandlers.LoginResponse(a) == AuthHandlers.LoginResponse(b)
    ensures a == b
  {
    var tail := AuthHandlers.COOKIE_ATTRIBUTES;
    assert AuthHandlers.COOKIE_PREFIX + a + tail == AuthHandlers.COOKIE_PREFIX + b + tail;
    Text.SameHead(AuthHandlers.COOKIE_PREFIX + a, AuthHandlers.COOKIE_PREFIX + b, tail);
    Text.SameTail(AuthHandlers.COOKIE_PREFIX, a, b);
  }

  /** Answering a login with a token's cookie and minting the token are one event. */
  lemma LoginAnswersExactly(r: Run, k: nat, token: string)
    ensures LoginAnswersAt(r, k, token) <==> MintsAt(r, k, token)
  {
    hide Run.At, Run.ThreadAt, Codec.ToHex;
    if LoginAnswersAt(r, k, token) {
      var minted := LoginMints(r, k);
      SameCookieSameToken(token, minted);
    }
    if MintsAt(r, k, token) {
      MintAnswers(r, k, token);
    }
  }

  /** After a login is answered 200 with the cookie of a token, and until that token
      is logged out, every request carrying the token is recognised, up to and
      including the expiry tick, as the same user with the role read at login;
      whatever else happens, including removal or re-roling of that user. */
  lemma SessionSurvives(r: Run, k: nat, n: nat, token: string, req: Request)
    requires FreshTokens(r) && LoginAnswersAt(r, k, token) && k < n <= |r.events|
    requires forall x: nat | k < x < n :: !RevokesAt(r, x, token)
    requires Cookies.TokenOf(req) == token
    ensures MintsAt(r, k, token)
    ensures var ph := r.ThreadAt(k, r.events[k].thread);
            var credentials := Cookies.Credentials(req, r.At(n).engine.tokens, r.At(n).now);
            if r.At(n).now <= r.At(k).now + 28_800_000_000_000 then
              && credentials.Some? && credentials.value.username == ph.name && credentials.value.role == ph.role
              && forall handler, need | Satisfies(ph.role, need) ::
                   Routers.Gate(Routers.Route(handler, Some(need)), credentials)
                   == Routers.Invoke(handler, Some(UserInfo(ph.name, ph.role)))
            else
              credentials == None
  {
    TokenStores.EightHours(r.At(k).now);
    hide Apply, Local, Run.At, Run.ThreadAt, LoginAnswersAt, RevokesAt, Codec.ToHex, AuthHandlers.LoginResponse;
    LoginAnswersExactly(r, k, token);
    MintAnswers(r, k, token);
    hide MintsAt;
    assert Undisturbed(r, k, n, token);
    TokenStays(r, k, n, token);
  }

  lemma MintAnswers(r: Run, k: nat, token: string)
    requires MintsAt(r, k, token)
    ensures r.ThreadAt(k + 1, r.events[k].thread)
            == Done(r.ThreadAt(k, r.events[k].thread).req, AuthHandlers.LoginResponse(token))
    ensures token != ""
  {
    hide Start;
    Cookies.TokenIsText(r.events[k].oracle.token.value);
  }

  /** Once logged out, a token is never accepted again, at any later time. */
  lemma SessionEnds(r: Run, k: nat, x: nat, n: nat, token: string, req: Request)
    requires FreshTokens(r) && LoginAnswersAt(r, k, token) && k < x < n <= |r.events|
    requires RevokesAt(r, x, token) && Cookies.TokenOf(req) == token
    ensures Cookies.Credentials(req, r.At(n).engine.tokens, r.At(n).now) == None
  {
    hide Run.At, Run.ThreadAt, LoginAnswersAt, MintsAt, RevokesAt;
    LoginAnswersExactly(r, k, token);
    assert forall y: nat | MintsAt(r, y, token) :: y == k;
    TokenStaysAway(r, x, n, token);
  }

  /** A logout takes exactly the token in its cookie "session" out of the store, and
      nothing when it has none; it answers 200 and clears the cookie. */
  lemma LogoutStep(r: Run, x: nat, t: nat)
    requires r.Advances(x, t) && r.ThreadAt(x, t).Running? && r.ThreadAt(x, t).handler == Logout
    ensures var req, tokens, after := r.ThreadAt(x, t).req, r.At(x).engine.tokens, r.At(x + 1).engine;
            && r.ThreadAt(x + 1, t)
               == Done(req, Response(200, Some("session=; HttpOnly; SameSite=Strict; Path=/; Max-Age=0"), None, None,
                                     ""))
            && (req.cookie.None? ==> after == r.At(x).engine)
            && (req.cookie.Some? ==>
                  var token := Cookies.CookieValue(req.cookie.value, "session");
                  after == r.At(x).engine.(tokens := if token == "" then tokens else tokens - {token}))
  {
    hide Start, Cookies.CookieValue, Cookies.SessionValue;
    var s := r.At(x);
    LogoutStart(r.kdf, s.engine, s.now, r.ThreadAt(x, t).req, r.events[x].oracle);
  }

  lemma LogoutStart(kdf: AuthProviders.Kdf, e: Engine, now: int, req: Request, o: Oracle)
    ensures var token := if req.cookie.Some? then Cookies.CookieValue(req.cookie.value, "session") else "";
            Start(kdf, e, now, req, Logout, o)
            == (if token == "" then e else e.(tokens := e.tokens - {token}),
                Done(req, Response(200, Some("session=; HttpOnly; SameSite=Strict; Path=/; Max-Age=0"), None, None,
                                   "")))
  {
    hide Cookies.CookieValue;
  }

  /** So a logout that sends the login's cookie back, among any others that do not
      stop the search before it, ends the session: no later request that sends the
      cookie back, or the token in any other way, is accepted. */
  lemma LogoutEndsTheSession(r: Run, k: nat, x: nat, n: nat, t: nat, bytes: TokenStores.TokenBytes,
                             before: seq<Cookies.Pair>, after: seq<Cookies.Pair>, req: Request)
    requires FreshTokens(r) && LoginAnswersAt(r, k, Codec.ToHex(bytes)) && k < x < n <= |r.events|
    requires r.Advances(x, t) && r.ThreadAt(x, t).Running? && r.ThreadAt(x, t).handler == Logout
    requires Cookies.Echoes(r.ThreadAt(x, t).req, bytes, before, after)
    ensures Cookies.TokenOf(req) == Codec.ToHex(bytes) ==>
              Cookies.Credentials(req, r.At(n).engine.tokens, r.At(n).now) == None
    ensures forall front, back | Cookies.Echoes(req, bytes, front, back) ::
              Cookies.Credentials(req, r.At(n).engine.tokens, r.At(n).now) == None
  {
    hide Run.At, Run.ThreadAt, LoginAnswersAt, Cookies.Echoes, Cookies.TokenOf, Cookies.SessionValue,
      Cookies.Credentials, Codec.ToHex;
    Cookies.EchoIsRead(r.ThreadAt(x, t).req, bytes, before, after);
    if Cookies.TokenOf(req) == Codec.ToHex(bytes) {
      SessionEnds(r, k, x, n, Codec.ToHex(bytes), req);
    }
    forall front, back | Cookies.Echoes(req, bytes, front, back)
      ensures Cookies.TokenOf(req) == Codec.ToHex(bytes)
    {
      Cookies.EchoIsRead(req, bytes, front, back);
    }
  }

  /** How a login goes on, step by step, and when it answers what. */
  lemma LoginStepsExactly(r: Run, n: nat, t: nat)
    requires r.Advances(n, t) && HandlerOf(r.ThreadAt(n, t)) == Some(Login)
    ensures var ph, to, users := r.ThreadAt(n, t), r.ThreadAt(n + 1, t), r.At(n).engine.users;
            match ph
            case Running(req, _, _) =>
              var name := OrEmpty(req.body.username);
              if name == "" || name !in users then to == Done(req, Response(401, None, None, None, ""))
              else to == LoginFetched(req, name, users[name])
            case LoginFetched(req, name, record) =>
              if AuthProviders.Verifies(r.kdf, OrEmpty(req.body.password), record.passwordHash)
              then to == LoginVerified(req, name, record.role)
              else to == Done(req, Response(401, None, None, None, ""))
            case LoginVerified(req, name, role) =>
              var random := r.events[n].oracle.token;
              if random.None? then to == Done(req, Response(500, None, None, None, ""))
              else
                var token := Codec.ToHex(random.value);
                && to == Done(req, Response(200, Some("session=" + token + "; HttpOnly; SameSite=Strict; Path=/"),
                                            None, None, ""))
                && r.At(n + 1).engine.tokens == r.At(n).engine.tokens[token := TokenStores.TokenEntry(
                     name, role, r.At(n).now + 28_800_000_000_000)]
            case _ => true
  {
    hide AuthProviders.Verifies, Codec.ToHex;
  }

  /** The cookie a client sends back: the Set-Cookie text up to its first ';'. */
  function Echo(setCookie: string): string {
    Text.Until(setCookie, ';')
  }

  lemma EchoIsPair(bytes: TokenStores.TokenBytes)
    ensures var token := Codec.ToHex(bytes);
            Echo(AuthHandlers.LoginResponse(token).setCookie.value)
            == Cookies.PrintPair(Cookies.Pair(Cookies.SESSION, token))
  {
    var token := Codec.ToHex(bytes);
    Cookies.TokenIsText(bytes);
    var pair := AuthHandlers.COOKIE_PREFIX + token;
    var whole := pair + AuthHandlers.COOKIE_ATTRIBUTES;
    assert ';' !in AuthHandlers.COOKIE_PREFIX;
    assert whole[|pair|] == ';';
    Text.UntilUnique(whole, ';', pair);
    assert Cookies.SESSION + "=" == AuthHandlers.COOKIE_PREFIX;
  }

  /** Echoed among other cookies, none of which stops the search, the login
      cookie is read back as the very token that was minted. */
  lemma EchoIsRecognised(bytes: TokenStores.TokenBytes, before: seq<Cookies.Pair>, after: seq<Cookies.Pair>,
                         req: Request)
    requires Cookies.AllWellFormed(before) && Cookies.AllWellFormed(after)
    requires forall i | 0 <= i < |before| :: !Cookies.Stops(before[i], "session")
    requires var mine := Cookies.Pair("session", Codec.ToHex(bytes));
             req.cookie == Some(Cookies.Print(before + [mine] + after))
    ensures Cookies.TokenOf(req) == Codec.ToHex(bytes)
  {
    hide Codec.ToHex, Cookies.Print, Cookies.CookieValue, Cookies.Stops;
    Cookies.EchoIsRead(req, bytes, before, after);
  }
}

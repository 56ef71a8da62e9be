/** The built-in authentication endpoints and the gated file handler. */
module AuthHandlers {
  import opened Basics
  import opened Http
  import Acls
  import AuthProviders
  import Codec
  import Cookies
  import FileMapping
  import PrefixMatch
  import Text
  import TokenStores

  const COOKIE_PREFIX := "session="
  const COOKIE_ATTRIBUTES := "; HttpOnly; SameSite=Strict; Path=/"

  function LoginResponse(token: string): Response {
    Status(200).(setCookie := Some(COOKIE_PREFIX + token + COOKIE_ATTRIBUTES))
  }

  function LogoutResponse(): Response {
    Status(200).(setCookie := Some("session=; HttpOnly; SameSite=Strict; Path=/; Max-Age=0"))
  }

  predicate NamesUri(req: Request) {
    req.originalUri.Some? && req.originalUri.value != ""
  }

  function CheckPassed(entry: TokenStores.TokenEntry): Response {
    Status(200).(user := Some(UserInfo(entry.username, entry.role)))
  }

  /** The proxy's sub-request: 401, 403 or 200 with the user's name and role. */
  function CheckResponse(req: Request, credentials: Option<TokenStores.TokenEntry>, rules: map<string, Role>)
    : Response
  {
    if credentials.None? then Status(401)
    else if NamesUri(req) && !Acls.Authorized(rules, credentials.value.role, req.originalUri.value)
    then Status(403)
    else CheckPassed(credentials.value)
  }

  function RedirectToLogin(): Response {
    Status(302).(location := Some("/?reason=unauthenticated"))
  }

  /** Authorised access to a file: refused on "..", missing, or its content. */
  function ReadResponse(path: string, fsRoot: string, urlPrefix: string, files: map<string, string>): Response {
    match FileMapping.MapFile(path, fsRoot, urlPrefix)
    case Refused => Status(403)
    case File(_, file) => if file in files then Status(200).(content := files[file]) else Status(404)
  }

  function FileResponse(req: Request, credentials: Option<TokenStores.TokenEntry>, rules: map<string, Role>,
                        fsRoot: string, urlPrefix: string, files: map<string, string>): Response
  {
    if credentials.None? then RedirectToLogin()
    else if !Acls.Authorized(rules, credentials.value.role, PathOf(req)) then Status(403)
    else ReadResponse(PathOf(req), fsRoot, urlPrefix, files)
  }

  class AuthHandler {
    const auth: AuthProviders.TestAuthProvider
    const tokens: TokenStores.TokenStore
    const acl: Acls.Acl

    constructor (auth: AuthProviders.TestAuthProvider, tokens: TokenStores.TokenStore, acl: Acls.Acl)
      ensures this.auth == auth && this.tokens == tokens && this.acl == acl
    {
      this.auth, this.tokens, this.acl := auth, tokens, acl;
    }

    /** None models the throw when no random token is to be had. */
    method HandleLogin(req: Request, now: int, random: Option<TokenStores.TokenBytes>)
      returns (res: Option<Response>)
      requires tokens.Valid()
      modifies tokens
      ensures tokens.Valid()
      ensures var name, password := OrEmpty(req.body.username), OrEmpty(req.body.password);
              var known := name != "" && name in auth.users
                           && AuthProviders.Verifies(auth.kdf, password, auth.users[name].passwordHash);
              if !known then
                res == Some(Response(401, None, None, None, "")) && tokens.store == old(tokens.store)
              else if random.None? then
                res == None && tokens.store == old(tokens.store)
              else
                var token := Codec.ToHex(random.value);
                && res == Some(Response(200, Some("session=" + token + "; HttpOnly; SameSite=Strict; Path=/"),
                                        None, None, ""))
                && tokens.store == old(tokens.store)[token := TokenStores.TokenEntry(
                       name, auth.users[name].role, now + 28_800_000_000_000)]
    {
      TokenStores.EightHours(now);
      var username := OrEmpty(req.body.username);
      var password := OrEmpty(req.body.password);
      if username == "" {
        return Some(Status(401));
      }
      var role := auth.Authenticate(username, password);
      if role.None? {
        return Some(Status(401));
      }
      var token := tokens.Issue(username, role.value, TokenStores.DEFAULT_TTL, now, random);
      if token.None? {
        return None;
      }
      return Some(LoginResponse(token.value));
    }

    /** Revokes exactly the token in the cookie "session"; sent back as a login gave
        it, among other cookies, that is the very token of the login. */
    method HandleLogout(req: Request) returns (res: Response)
      requires tokens.Valid()
      modifies tokens
      ensures tokens.Valid()
      ensures res == Response(200, Some("session=; HttpOnly; SameSite=Strict; Path=/; Max-Age=0"), None, None, "")
      ensures req.cookie.None? ==> tokens.store == old(tokens.store)
      ensures req.cookie.Some? ==>
                var token := Cookies.CookieValue(req.cookie.value, "session");
                tokens.store == if token == "" then old(tokens.store) else old(tokens.store) - {token}
      ensures forall bytes: TokenStores.TokenBytes, before, after | Cookies.Echoes(req, bytes, before, after) ::
                tokens.store == old(tokens.store) - {Codec.ToHex(bytes)}
    {
      hide Cookies.CookieValue, Codec.ToHex, Cookies.Print, Cookies.Stops;
      forall bytes: TokenStores.TokenBytes, before, after | Cookies.Echoes(req, bytes, before, after)
        ensures Cookies.SessionValue(req) == Codec.ToHex(bytes) && Codec.ToHex(bytes) != ""
      {
        Cookies.EchoIsRead(req, bytes, before, after);
      }
      if req.cookie.Some? {
        var token := Cookies.ExtractCookie(req.cookie.value, Cookies.SESSION);
        if token != "" {
          tokens.Revoke(token);
        }
      }
      return LogoutResponse();
    }

    method HandleCheck(req: Request, now: int) returns (res: Response)
      requires tokens.Valid() && acl.Valid()
      ensures var credentials := Cookies.Credentials(req, tokens.store, now);
              var uri := OrEmpty(req.originalUri);
              && (res.status == 401 <==> credentials.None?)
              && (res.status == 403 <==> credentials.Some? && uri != ""
                                         && !Acls.Authorized(acl.View(), credentials.value.role, uri))
              && (res.status == 401 || res.status == 403 ==> res == Response(res.status, None, None, None, ""))
              && (res.status != 401 && res.status != 403 ==>
                    && res == Response(200, None, None, res.user, "")
                    && res.user == Some(UserInfo(credentials.value.username, credentials.value.role)))
    {
      var entry := Cookies.ValidatedToken(req, tokens, now);
      if entry.None? {
        return Status(401);
      }
      if NamesUri(req) {
        var allowed := acl.Authorize(entry.value.role, req.originalUri.value);
        if !allowed {
          return Status(403);
        }
      }
      return CheckPassed(entry.value);
    }

    method HandleProtectedFile(req: Request, now: int, fsRoot: string, urlPrefix: string,
                               files: map<string, string>) returns (res: Response)
      requires tokens.Valid() && acl.Valid()
      ensures var credentials := Cookies.Credentials(req, tokens.store, now);
              var path, mapped := PathOf(req), FileMapping.MapFile(PathOf(req), fsRoot, urlPrefix);
              if credentials.None? then
                res == Response(302, None, Some("/?reason=unauthenticated"), None, "")
              else if !Acls.Authorized(acl.View(), credentials.value.role, path) then
                res == Response(403, None, None, None, "")
              else if mapped.Refused? then res == Response(403, None, None, None, "")
              else if mapped.file !in files then res == Response(404, None, None, None, "")
              else res == Response(200, None, None, None, files[mapped.file])
      ensures urlPrefix <= PathOf(req) && FileMapping.HasDots(PathOf(req)[|urlPrefix|..]) ==>
                res.status == 302 || res.status == 403
    {
      hide FileMapping.MapFile, FileMapping.HasDots, Acls.Authorized;
      var path := PathOf(req);
      var entry := Cookies.ValidatedToken(req, tokens, now);
      if entry.None? {
        return RedirectToLogin();
      }
      var allowed := acl.Authorize(entry.value.role, path);
      if !allowed {
        return Status(403);
      }
      var mapped := FileMapping.ToFile(path, fsRoot, urlPrefix);
      if mapped.Refused? {
        return Status(403);
      }
      if mapped.file !in files {
        return Status(404);
      }
      return Status(200).(content := files[mapped.file]);
    }
  }

  /** The outcome of the authentication and authorisation steps. */
  datatype GateOutcome = NotAuthenticated | Denied | Allowed | Unexpected

  function CheckOutcome(req: Request, credentials: Option<TokenStores.TokenEntry>, rules: map<string, Role>)
    : GateOutcome
  {
    match CheckResponse(req, credentials, rules).status
    case 401 => NotAuthenticated
    case 403 => Denied
    case 200 => Allowed
    case _ => Unexpected
  }

  function FileOutcome(req: Request, credentials: Option<TokenStores.TokenEntry>, rules: map<string, Role>)
    : GateOutcome
  {
    if credentials.None? then NotAuthenticated
    else if !Acls.Authorized(rules, credentials.value.role, PathOf(req)) then Denied
    else Allowed
  }

  /** FileOutcome is what the file handler does: it redirects, denies, or goes on to the file. */
  lemma FileOutcomeIsHandlers(req: Request, credentials: Option<TokenStores.TokenEntry>, rules: map<string, Role>,
                              fsRoot: string, urlPrefix: string, files: map<string, string>)
    ensures var res := FileResponse(req, credentials, rules, fsRoot, urlPrefix, files);
            match FileOutcome(req, credentials, rules)
            case NotAuthenticated => res == RedirectToLogin()
            case Denied => res == Status(403)
            case Allowed => res == ReadResponse(PathOf(req), fsRoot, urlPrefix, files)
  {
  }

  /** Both gates give one outcome whenever they are asked about one non-empty
      target with the same token. */
  ghost predicate GatesAgree(rules: map<string, Role>) {
    forall req: Request, credentials: Option<TokenStores.TokenEntry> |
      req.originalUri == Some(req.target) && req.target != "" ::
      CheckOutcome(req, credentials, rules) == FileOutcome(req, credentials, rules)
  }

  lemma AgreeingGatesAreBlind(rules: map<string, Role>, uri: string)
    requires GatesAgree(rules)
    ensures Acls.Required(rules, uri) == Acls.Required(rules, Text.Until(uri, '?'))
  {
    if uri != "" {
      var req := Request(Get, uri, None, None, Some(uri), Body(false, None, None, None, None));
      var whole, cut := Acls.Required(rules, uri), Acls.Required(rules, PathOf(req));
      forall role ensures Satisfies(role, whole) == Satisfies(role, cut) {
        var credentials := Some(TokenStores.TokenEntry("", role, 0));
        assert CheckOutcome(req, credentials, rules) == FileOutcome(req, credentials, rules);
      }
      SameDecisionsSameRole(whole, cut);
    }
  }

  lemma BlindGatesAgree(rules: map<string, Role>)
    requires Acls.QueryBlind(rules)
    ensures GatesAgree(rules)
  {
    forall req: Request, credentials: Option<TokenStores.TokenEntry> |
      req.originalUri == Some(req.target) && req.target != ""
      ensures CheckOutcome(req, credentials, rules) == FileOutcome(req, credentials, rules)
    {
      assert Acls.Required(rules, req.target) == Acls.Required(rules, PathOf(req));
    }
  }

  /** The gates agree for every token store, time, request and role exactly when
      each rule whose prefix has a '?' asks for what its query-free part needs
      anyway; rules without a '?' never spoil the agreement. */
  lemma GatesAgreeExactly(rules: map<string, Role>)
    ensures GatesAgree(rules)
            <==> forall q | q in rules && '?' in q :: rules[q] == Acls.Required(rules, Text.Until(q, '?'))
  {
    Acls.QueryBlindExactly(rules);
    if GatesAgree(rules) {
      forall uri ensures Acls.Required(rules, uri) == Acls.Required(rules, Text.Until(uri, '?')) {
        AgreeingGatesAreBlind(rules, uri);
      }
    }
    if Acls.QueryBlind(rules) {
      BlindGatesAgree(rules);
    }
  }

  /** Rules on which they do not: nothing but a rule opening "/a?b" to a Guest. The
      check lets a Guest ask for "/a?b", and the file handler, which looks at "/a",
      wants an Admin. */
  lemma GatesDisagree()
    ensures !GatesAgree(map["/a?b" := Guest])
  {
    hide GatesAgree;
    var rules := map["/a?b" := Guest];
    GatesAgreeExactly(rules);
    Text.UntilUnique("/a?b", '?', "/a");
    PrefixMatch.LongestIsNone(rules.Keys, "/a");
    assert "/a?b" in rules && "/a?b"[2] == '?';
  }

  /** Two requirements met by the same roles are the same. */
  lemma SameDecisionsSameRole(a: Role, b: Role)
    requires forall role :: Satisfies(role, a) == Satisfies(role, b)
    ensures a == b
  {
    assert Satisfies(a, a) && Satisfies(b, b);
  }
}

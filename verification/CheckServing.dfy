/** The proxy's sub-request in every run: which moments stand behind a 200. */
module CheckServing {
  import opened Basics
  import opened Http
  import Acls
  import AuthHandlers
  import AuthProviders
  import Cookies
  import opened Dispatching
  import opened Engines
  import Routers
  import opened RuleEdits
  import TokenStores

  /** At moment v thread t, checking req, finds its token good. */
  ghost predicate ChecksTokenAt(r: Run, v: nat, t: nat, req: Request, entry: TokenStores.TokenEntry) {
    && r.Advances(v, t)
    && r.ThreadAt(v, t).Running? && r.ThreadAt(v, t).req == req && r.ThreadAt(v, t).handler == AuthCheck
    && Cookies.Credentials(req, r.At(v).engine.tokens, r.At(v).now) == Some(entry)
  }

  lemma StartsCheck(kdf: AuthProviders.Kdf, e: Engine, now: int, req: Request, handler: Handler, o: Oracle)
    ensures var ph := Start(kdf, e, now, req, handler, o).1;
            && (ph.CheckValidated? ==>
                  && handler == AuthCheck && ph.req == req && AuthHandlers.NamesUri(req)
                  && Cookies.Credentials(req, e.tokens, now) == Some(ph.entry))
            && (handler == AuthCheck && ph.Done? && ph.res.status == 200 ==>
                  && !AuthHandlers.NamesUri(req) && Cookies.Credentials(req, e.tokens, now).Some?
                  && ph.res == AuthHandlers.CheckPassed(Cookies.Credentials(req, e.tokens, now).value))
  {
    hide Cookies.Credentials, AuthProviders.HashOf;
  }

  /** The steps of the check. */
  lemma CheckSteps(kdf: AuthProviders.Kdf, e: Engine, now: int, before: Phase, o: Oracle)
    requires !Free(before)
    ensures var ph := Local(kdf, e, now, before, o).1;
            && (ph.CheckValidated? ==>
                  && before.Running? && before.handler == AuthCheck && before.req == ph.req
                  && AuthHandlers.NamesUri(ph.req)
                  && Cookies.Credentials(ph.req, e.tokens, now) == Some(ph.entry))
            && (before.CheckValidated? ==>
                  ph == Done(before.req, AuthHandlers.CheckResponse(before.req, Some(before.entry), e.acl)))
            && (before.Running? && before.handler == AuthCheck && ph.Done? && ph.res.status == 200 ==>
                  && !AuthHandlers.NamesUri(before.req) && Cookies.Credentials(before.req, e.tokens, now).Some?
                  && ph.res == AuthHandlers.CheckPassed(Cookies.Credentials(before.req, e.tokens, now).value))
  {
    hide Start, Cookies.Credentials, Acls.Authorized, AuthHandlers.ReadResponse, AuthHandlers.CheckResponse,
      AuthHandlers.CheckPassed, AuthHandlers.NamesUri, AuthProviders.Verifies, Routers.Answer, Routers.Gate;
    if before.Running? {
      StartsCheck(kdf, e, now, before.req, before.handler, o);
    }
  }

  lemma StepToCheck(r: Run, n: nat, t: nat)
    requires 0 < n <= |r.events| && r.Advances(n - 1, t) && !Free(r.ThreadAt(n - 1, t))
    requires r.ThreadAt(n, t).CheckValidated?
    ensures var ph := r.ThreadAt(n, t);
            ChecksTokenAt(r, n - 1, t, ph.req, ph.entry) && AuthHandlers.NamesUri(ph.req)
    ensures HandlerOf(r.ThreadAt(n - 1, t)) == Some(AuthCheck)
  {
    hide Start, Local, Cookies.Credentials;
    var s := r.At(n - 1);
    CheckSteps(r.kdf, s.engine, s.now, PhaseOf(s, t), r.events[n - 1].oracle);
  }

  /** Where a token that is past its check was checked. */
  lemma {:induction false} TokenCheckOf(r: Run, n: nat, t: nat) returns (a: nat, v: nat)
    requires n <= |r.events| && r.init.threads == map[] && r.ThreadAt(n, t).CheckValidated?
    ensures var ph := r.ThreadAt(n, t);
            && a < v < n && ArrivesAt(r, a, t, ph.req) && Serves(r, a, n, t, ph.req)
            && ChecksTokenAt(r, v, t, ph.req, ph.entry) && AuthHandlers.NamesUri(ph.req)
  {
    hide Apply, Local, Start, Serves, ChecksTokenAt, LooksUpAt, AdmitsAt, Vouches, Run.At, Run.ThreadAt, Run.Advances;
    BusyLater(r, n, t);
    LastStep(r, n, t);
    if r.Advances(n - 1, t) {
      StepToCheck(r, n, t);
      var l, admitted, need, user;
      a, l, admitted, need, user := HandlerLinearises(r, n - 1, t);
      v := n - 1;
    } else {
      a, v := TokenCheckOf(r, n - 1, t);
    }
    ExtendServes(r, a, n - 1, t, r.ThreadAt(n, t).req);
  }

  lemma CheckAnswer(r: Run, n: nat, t: nat)
    requires n < |r.events| && r.Advances(n, t) && HandlerOf(r.ThreadAt(n, t)) == Some(AuthCheck)
    requires r.ThreadAt(n + 1, t).Done? && r.ThreadAt(n + 1, t).res.status == 200
    ensures var ph, res := r.ThreadAt(n, t), r.ThreadAt(n + 1, t).res;
            if ph.CheckValidated? then
              res == AuthHandlers.CheckResponse(ph.req, Some(ph.entry), r.At(n).engine.acl)
            else
              && !AuthHandlers.NamesUri(ph.req)
              && exists entry :: ChecksTokenAt(r, n, t, ph.req, entry) && res == AuthHandlers.CheckPassed(entry)
  {
    hide Start, Local, Cookies.Credentials, AuthHandlers.CheckResponse, AuthHandlers.CheckPassed, AuthHandlers.NamesUri;
    var s := r.At(n);
    var ph := PhaseOf(s, t);
    CheckSteps(r.kdf, s.engine, s.now, ph, r.events[n].oracle);
    if !ph.CheckValidated? {
      var entry := Cookies.Credentials(ph.req, s.engine.tokens, s.now).value;
      assert ChecksTokenAt(r, n, t, ph.req, entry);
    }
  }

  /** Whatever the check answers 200 to, in any run: at a moment v since the request
      arrived its token was good for exactly the user and role in the answer; and if
      the request names a URI, the rules of the later moment of the answer accept
      that role for it. */
  lemma PassedCheck(r: Run, n: nat, t: nat) returns (a: nat, v: nat, entry: TokenStores.TokenEntry)
    requires n < |r.events| && r.init.threads == map[] && r.Advances(n, t)
    requires HandlerOf(r.ThreadAt(n, t)) == Some(AuthCheck)
    requires r.ThreadAt(n + 1, t).Done? && r.ThreadAt(n + 1, t).res.status == 200
    ensures var req := r.ThreadAt(n, t).req;
            && a < v <= n && ArrivesAt(r, a, t, req) && Serves(r, a, n, t, req)
            && ChecksTokenAt(r, v, t, req, entry)
            && r.ThreadAt(n + 1, t).res.user == Some(UserInfo(entry.username, entry.role))
            && (if AuthHandlers.NamesUri(req)
                then v < n && Acls.Authorized(r.At(n).engine.acl, entry.role, req.originalUri.value)
                else v == n)
  {
    CheckAnswer(r, n, t);
    hide Apply, Local, Start, Serves, ChecksTokenAt, Acls.Authorized, Run.At, Run.ThreadAt, Run.Advances, LooksUpAt,
      AdmitsAt, Vouches;
    var ph := r.ThreadAt(n, t);
    if ph.CheckValidated? {
      a, v := TokenCheckOf(r, n, t);
      entry := ph.entry;
    } else {
      var l, admitted, need, user;
      a, l, admitted, need, user := HandlerLinearises(r, n, t);
      v := n;
      entry :| ChecksTokenAt(r, n, t, ph.req, entry)
               && r.ThreadAt(n + 1, t).res == AuthHandlers.CheckPassed(entry);
    }
  }

  /** Once its token has been found good, a request is answered by the rules alone,
      over any span of events in which its own thread does not move: no logout, expiry
      or user management in that span changes the answer. If the rules accepted the
      URI at the start of the span, the answer is 200 unless they close it meanwhile. */
  lemma CheckIgnoresTheToken(r: Run, m: nat, n: nat, t: nat)
    requires m <= n < |r.events| && r.ThreadAt(m, t).CheckValidated? && r.Advances(n, t)
    requires forall x | m <= x < n :: !r.Advances(x, t)
    requires AuthHandlers.NamesUri(r.ThreadAt(m, t).req)
    ensures var ph := r.ThreadAt(m, t);
            var uri := ph.req.originalUri.value;
            && r.ThreadAt(n + 1, t)
               == Done(ph.req, AuthHandlers.CheckResponse(ph.req, Some(ph.entry), r.At(n).engine.acl))
            && (Acls.Authorized(r.At(m).engine.acl, ph.entry.role, uri) ==>
                  r.ThreadAt(n + 1, t).res
                  == if ClosedBetween(r, m, n, uri, ph.entry.role) then Status(403)
                     else AuthHandlers.CheckPassed(ph.entry))
  {
    hide Run.At, Run.ThreadAt, Run.Advances, Acls.Authorized, ClosedBetween;
    StaysPut(r, m, n, t);
    CheckedAnswer(r, n, t);
    var ph := r.ThreadAt(m, t);
    var uri := ph.req.originalUri.value;
    if Acls.Authorized(r.At(m).engine.acl, ph.entry.role, uri) {
      RefusedExactly(r, m, n, uri, ph.entry.role);
    }
  }

  lemma CheckedAnswer(r: Run, n: nat, t: nat)
    requires n < |r.events| && r.ThreadAt(n, t).CheckValidated? && r.Advances(n, t)
    ensures var ph := r.ThreadAt(n, t);
            r.ThreadAt(n + 1, t) == Done(ph.req, AuthHandlers.CheckResponse(ph.req, Some(ph.entry), r.At(n).engine.acl))
  {
    hide Start, AuthHandlers.CheckResponse;
  }

  /** When the check answers what: 401 exactly for a bad token; then, without a URI,
      200; with one, at a later moment, 403 or 200 as the rules of that moment say.
      A 200 carries exactly the token's user and role. */
  lemma CheckAnswersExactly(r: Run, n: nat, t: nat)
    requires r.Advances(n, t) && HandlerOf(r.ThreadAt(n, t)) == Some(AuthCheck)
    ensures var ph, to, s := r.ThreadAt(n, t), r.ThreadAt(n + 1, t), r.At(n);
            match ph
            case Running(req, _, _) =>
              (match Cookies.Credentials(req, s.engine.tokens, s.now)
               case None => to == Done(req, Response(401, None, None, None, ""))
               case Some(entry) =>
                 if req.originalUri.None? || req.originalUri.value == ""
                 then to == Done(req, Response(200, None, None, Some(UserInfo(entry.username, entry.role)), ""))
                 else to == CheckValidated(req, entry))
            case CheckValidated(req, entry) =>
              req.originalUri.Some? && req.originalUri.value != "" ==>
                (if Acls.Authorized(s.engine.acl, entry.role, req.originalUri.value)
                 then to == Done(req, Response(200, None, None, Some(UserInfo(entry.username, entry.role)), ""))
                 else to == Done(req, Response(403, None, None, None, "")))
            case _ => true
  {
    hide Cookies.Credentials, Acls.Authorized;
  }
}

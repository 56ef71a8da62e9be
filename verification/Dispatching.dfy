/** Interleaved dispatch: every handler invocation, in every run, goes back to
    one moment of the routing table and one later moment of the token store. */
module Dispatching {
  import opened Basics
  import opened Http
  import Acls
  import AuthHandlers
  import AuthProviders
  import Cookies
  import opened Engines
  import Routers
  import TokenStores

  /** Thread t takes request req on at moment a. */
  ghost predicate ArrivesAt(r: Run, a: nat, t: nat, req: Request) {
    a < |r.events| && r.events[a] == Arrive(t, req) && Free(r.ThreadAt(a, t))
  }

  /** At moment l thread t looks req up, and the table answers with route. */
  ghost predicate LooksUpAt(r: Run, l: nat, t: nat, req: Request, route: Routers.Route) {
    && r.Advances(l, t) && r.ThreadAt(l, t) == Arrived(req)
    && Routers.Answer(r.At(l).engine.table, req.verb, PathOf(req)) == Some(route)
  }

  /** At moment v the gate lets req through to the route's handler as user. */
  ghost predicate AdmitsAt(r: Run, v: nat, t: nat, req: Request, route: Routers.Route, user: Option<UserInfo>) {
    && r.Advances(v, t) && r.ThreadAt(v, t) == Routed(req, route)
    && Routers.Gate(route, Cookies.Credentials(req, r.At(v).engine.tokens, r.At(v).now))
       == Routers.Invoke(route.handler, user)
  }

  /** Thread t serves req, and nothing else, from just after moment a up to n. */
  ghost predicate Serves(r: Run, a: nat, n: nat, t: nat, req: Request) {
    && a < n <= |r.events|
    && forall x | a < x <= n :: !Free(r.ThreadAt(x, t)) && r.ThreadAt(x, t).req == req
  }

  /** The three moments behind an invocation that is under way at n. */
  ghost predicate Invocation(r: Run, n: nat, t: nat, req: Request, route: Routers.Route, user: Option<UserInfo>,
                             a: nat, l: nat, v: nat)
  {
    && a < l < v < n && Serves(r, a, n, t, req)
    && ArrivesAt(r, a, t, req) && LooksUpAt(r, l, t, req, route) && AdmitsAt(r, v, t, req, route, user)
  }

  /** What a gate that let user through says about the request's token at moment v. */
  ghost predicate Vouches(r: Run, v: nat, req: Request, need: Option<Role>, user: Option<UserInfo>)
    requires v <= |r.events|
  {
    match need
    case None => user == None
    case Some(role) =>
      var entry := TokenStores.Validate(r.At(v).engine.tokens, Cookies.TokenOf(req), r.At(v).now);
      && entry.Some? && Satisfies(entry.value.role, role)
      && user == Some(UserInfo(entry.value.username, entry.value.role))
  }

  /** The handler a thread in this phase is running. */
  function HandlerOf(ph: Phase): Option<Handler> {
    match ph
    case Running(_, handler, _) => Some(handler)
    case LoginFetched(_, _, _) => Some(Login)
    case LoginVerified(_, _, _) => Some(Login)
    case AddHashed(_, _, _) => Some(UserAdd)
    case CheckValidated(_, _) => Some(AuthCheck)
    case FileValidated(_, fsRoot, urlPrefix, _) => Some(ProtectedFile(fsRoot, urlPrefix))
    case FileAllowed(_, fsRoot, urlPrefix, _) => Some(ProtectedFile(fsRoot, urlPrefix))
    case _ => None
  }

  /** No thread is busy from the start. */
  lemma BusyLater(r: Run, n: nat, t: nat)
    requires n <= |r.events| && r.init.threads == map[] && !Free(r.ThreadAt(n, t))
    ensures n > 0
  {
  }

  /** What event n-1 did to a thread that is busy at n. */
  lemma LastStep(r: Run, n: nat, t: nat)
    requires 0 < n <= |r.events| && !Free(r.ThreadAt(n, t))
    ensures var ph, before, e := r.ThreadAt(n, t), r.ThreadAt(n - 1, t), r.events[n - 1];
            || (ArrivesAt(r, n - 1, t, ph.req) && ph == Arrived(ph.req))
            || (r.Advances(n - 1, t) && !Free(before) && before.req == ph.req
                && ph == Local(r.kdf, r.At(n - 1).engine, r.At(n - 1).now, before, e.oracle).1)
            || (ph == before && !r.Advances(n - 1, t))
  {
    var s := r.At(n - 1);
    if r.Advances(n - 1, t) {
      var before := PhaseOf(s, t);
      if !Free(before) {
        LocalDescends(r.kdf, s.engine, s.now, before, r.events[n - 1].oracle);
      }
    }
  }

  lemma ExtendServes(r: Run, a: nat, n: nat, t: nat, req: Request)
    requires n < |r.events| && Serves(r, a, n, t, req)
    requires !Free(r.ThreadAt(n + 1, t)) && r.ThreadAt(n + 1, t).req == req
    ensures Serves(r, a, n + 1, t, req)
  {
  }

  lemma {:induction false} ArrivalOf(r: Run, n: nat, t: nat) returns (a: nat)
    requires n <= |r.events| && r.init.threads == map[] && r.ThreadAt(n, t).Arrived?
    ensures a < n && ArrivesAt(r, a, t, r.ThreadAt(n, t).req) && Serves(r, a, n, t, r.ThreadAt(n, t).req)
  {
    hide Start, Local, Apply, Run.At, Run.ThreadAt;
    BusyLater(r, n, t);
    LastStep(r, n, t);
    if r.ThreadAt(n - 1, t) == r.ThreadAt(n, t) && !r.Advances(n - 1, t) {
      a := ArrivalOf(r, n - 1, t);
      ExtendServes(r, a, n - 1, t, r.ThreadAt(n, t).req);
    } else {
      if r.Advances(n - 1, t) {
        StepPhases(r, n, t);
      }
      a := n - 1;
    }
  }

  /** Which phases a step can lead to, and from where. */
  lemma LocalPhases(kdf: AuthProviders.Kdf, e: Engine, now: int, before: Phase, o: Oracle)
    requires !Free(before)
    ensures var ph := Local(kdf, e, now, before, o).1;
            && !ph.Arrived?
            && (ph.Routed? ==> before == Arrived(ph.req)
                               && Routers.Answer(e.table, ph.req.verb, PathOf(ph.req)) == Some(ph.route))
            && (ph.Running? ==> before.Routed? && before.route.handler == ph.handler
                                && Routers.Gate(before.route, Cookies.Credentials(ph.req, e.tokens, now))
                                   == Routers.Invoke(ph.handler, ph.user))
            && (ph.LoginFetched? ==> before.Running? && before.handler == Login)
            && (ph.LoginVerified? ==> before.LoginFetched?)
            && (ph.AddHashed? ==> before.Running? && before.handler == UserAdd)
            && (HandlerOf(ph).Some? && !ph.Running? ==> HandlerOf(before) == HandlerOf(ph))
  {
    hide Start, Routers.Answer, Cookies.Credentials, AuthHandlers.CheckResponse, AuthHandlers.ReadResponse,
      AuthProviders.Verifies, Acls.Authorized;
    if before.Running? {
      StartPhases(kdf, e, now, before.req, before.handler, o);
    }
  }

  /** The same for a step within a run. */
  lemma StepPhases(r: Run, n: nat, t: nat)
    requires 0 < n <= |r.events| && r.Advances(n - 1, t) && !Free(r.ThreadAt(n - 1, t))
    ensures var ph, before := r.ThreadAt(n, t), r.ThreadAt(n - 1, t);
            && !ph.Arrived?
            && (ph.Routed? ==> before.Arrived? && LooksUpAt(r, n - 1, t, ph.req, ph.route))
            && (ph.Running? ==> before.Routed? && before.route.handler == ph.handler
                                && AdmitsAt(r, n - 1, t, ph.req, before.route, ph.user))
            && (ph.LoginFetched? ==> before.Running? && before.handler == Login && before.req == ph.req)
            && (ph.LoginVerified? ==> before.LoginFetched?)
            && (ph.AddHashed? ==> before.Running? && before.handler == UserAdd)
            && (HandlerOf(ph).Some? && !ph.Running? ==> HandlerOf(before) == HandlerOf(ph))
  {
    hide Start, Local, Routers.Answer, Routers.Gate, Cookies.Credentials;
    var s, o := r.At(n - 1), r.events[n - 1].oracle;
    var before := PhaseOf(s, t);
    LocalPhases(r.kdf, s.engine, s.now, before, o);
    LocalDescends(r.kdf, s.engine, s.now, before, o);
  }

  lemma StartPhases(kdf: AuthProviders.Kdf, e: Engine, now: int, req: Request, handler: Handler, o: Oracle)
    ensures var ph := Start(kdf, e, now, req, handler, o).1;
            && !ph.Arrived? && !ph.Routed? && !ph.Running? && !ph.LoginVerified?
            && (ph.LoginFetched? ==> handler == Login) && (HandlerOf(ph).Some? ==> HandlerOf(ph) == Some(handler))
  {
  }

  lemma {:induction false} LookupOf(r: Run, n: nat, t: nat) returns (a: nat, l: nat)
    requires n <= |r.events| && r.init.threads == map[] && r.ThreadAt(n, t).Routed?
    ensures var ph := r.ThreadAt(n, t);
            && a < l < n && Serves(r, a, n, t, ph.req)
            && ArrivesAt(r, a, t, ph.req) && LooksUpAt(r, l, t, ph.req, ph.route)
  {
    hide Start, Local, Apply, Run.At, Run.ThreadAt, Run.Advances, ArrivesAt, LooksUpAt;
    BusyLater(r, n, t);
    LastStep(r, n, t);
    if r.Advances(n - 1, t) {
      StepPhases(r, n, t);
      a := ArrivalOf(r, n - 1, t);
      l := n - 1;
    } else {
      a, l := LookupOf(r, n - 1, t);
    }
    ExtendServes(r, a, n - 1, t, r.ThreadAt(n, t).req);
  }

  /** Dispatch linearises: for any number of threads, and whatever other threads
      and the host do meanwhile, a running handler was the table's answer for its
      request, with that role, at one moment after the request arrived; and, if a
      role is asked for, at a later moment the request's token validated to exactly
      the user the handler sees, whose role satisfies it. */
  lemma {:induction false} DispatchLinearises(r: Run, n: nat, t: nat)
    returns (a: nat, l: nat, v: nat, need: Option<Role>)
    requires n <= |r.events| && r.init.threads == map[] && r.ThreadAt(n, t).Running?
    ensures var ph := r.ThreadAt(n, t);
            && Invocation(r, n, t, ph.req, Routers.Route(ph.handler, need), ph.user, a, l, v)
            && Vouches(r, v, ph.req, need, ph.user)
  {
    hide Start, Local, Apply, Run.At, Run.ThreadAt, Run.Advances, ArrivesAt, LooksUpAt;
    BusyLater(r, n, t);
    LastStep(r, n, t);
    if r.Advances(n - 1, t) {
      StepPhases(r, n, t);
      a, l := LookupOf(r, n - 1, t);
      v, need := n - 1, r.ThreadAt(n - 1, t).route.minRole;
    } else {
      a, l, v, need := DispatchLinearises(r, n - 1, t);
    }
    ExtendServes(r, a, n - 1, t, r.ThreadAt(n, t).req);
  }

  /** In the middle of a handler it is still the same invocation. */
  lemma {:induction false} HandlerLinearises(r: Run, n: nat, t: nat)
    returns (a: nat, l: nat, v: nat, need: Option<Role>, user: Option<UserInfo>)
    requires n <= |r.events| && r.init.threads == map[] && HandlerOf(r.ThreadAt(n, t)).Some?
    ensures var ph := r.ThreadAt(n, t);
            && Invocation(r, n, t, ph.req, Routers.Route(HandlerOf(ph).value, need), user, a, l, v)
            && Vouches(r, v, ph.req, need, user)
  {
    hide Start, Local, Apply, ArrivesAt, LooksUpAt, AdmitsAt, Vouches, Run.At, Run.ThreadAt, Run.Advances;
    var ph := r.ThreadAt(n, t);
    if ph.Running? {
      a, l, v, need := DispatchLinearises(r, n, t);
      user := ph.user;
    } else {
      BusyLater(r, n, t);
      LastStep(r, n, t);
      if r.Advances(n - 1, t) {
        StepPhases(r, n, t);
      }
      a, l, v, need, user := HandlerLinearises(r, n - 1, t);
      ExtendServes(r, a, n - 1, t, ph.req);
    }
  }

  // ---- Answers ---------------------------------------------------------------------

  /** Why a request got its answer: no route, turned away at the gate, or a handler. */
  datatype Cause =
    | NoRoute
    | TurnedAway(looked: nat, route: Routers.Route)
    | Handled(looked: nat, admitted: nat, route: Routers.Route, user: Option<UserInfo>)

  /** The step at moment x answers req with res, for this cause. */
  ghost predicate AnswersAt(r: Run, a: nat, x: nat, t: nat, req: Request, res: Response, cause: Cause) {
    && ArrivesAt(r, a, t, req) && Serves(r, a, x, t, req)
    && r.Advances(x, t) && r.ThreadAt(x + 1, t) == Done(req, res)
    && match cause
       case NoRoute =>
         && r.ThreadAt(x, t) == Arrived(req)
         && Routers.Answer(r.At(x).engine.table, req.verb, PathOf(req)) == None && res == Status(404)
       case TurnedAway(l, route) =>
         && a < l < x && LooksUpAt(r, l, t, req, route) && r.ThreadAt(x, t) == Routed(req, route)
         && route.minRole.Some?
         && (match Cookies.Credentials(req, r.At(x).engine.tokens, r.At(x).now)
             case None => res == Status(401)
             case Some(entry) => !Satisfies(entry.role, route.minRole.value) && res == Status(403))
       case Handled(l, v, route, user) =>
         && HandlerOf(r.ThreadAt(x, t)) == Some(route.handler)
         && Invocation(r, x, t, req, route, user, a, l, v) && Vouches(r, v, req, route.minRole, user)
  }

  /** What event n-1 did to a thread that has answered by n. */
  lemma LastAnswer(r: Run, n: nat, t: nat)
    requires 0 < n <= |r.events| && r.ThreadAt(n, t).Done?
    ensures var ph, before := r.ThreadAt(n, t), r.ThreadAt(n - 1, t);
            ph == before || (r.Advances(n - 1, t) && !Free(before) && before.req == ph.req)
  {
    var s := r.At(n - 1);
    if r.Advances(n - 1, t) {
      var before := PhaseOf(s, t);
      if Free(before) {
        FreeStays(r.kdf, s.engine, s.now, before, r.events[n - 1].oracle);
      } else {
        LocalDescends(r.kdf, s.engine, s.now, before, r.events[n - 1].oracle);
      }
    }
  }

  /** A step out of the dispatch itself that answers, answers with a refusal. */
  lemma DispatchRefuses(r: Run, x: nat, t: nat)
    requires r.Advances(x, t) && r.ThreadAt(x + 1, t).Done?
    ensures var ph, res := r.ThreadAt(x, t), r.ThreadAt(x + 1, t).res;
            && (ph.Arrived? ==> Routers.Answer(r.At(x).engine.table, ph.req.verb, PathOf(ph.req)) == None
                                && res == Status(404))
            && (ph.Routed? ==>
                  && ph.route.minRole.Some?
                  && match Cookies.Credentials(ph.req, r.At(x).engine.tokens, r.At(x).now)
                     case None => res == Status(401)
                     case Some(entry) => !Satisfies(entry.role, ph.route.minRole.value) && res == Status(403))
  {
    hide Start, Routers.Answer, Cookies.Credentials;
  }

  lemma AnswerOf(r: Run, x: nat, t: nat) returns (a: nat, cause: Cause)
    requires x < |r.events| && r.init.threads == map[] && r.Advances(x, t)
    requires !Free(r.ThreadAt(x, t)) && r.ThreadAt(x + 1, t).Done?
    requires r.ThreadAt(x + 1, t).req == r.ThreadAt(x, t).req
    ensures AnswersAt(r, a, x, t, r.ThreadAt(x + 1, t).req, r.ThreadAt(x + 1, t).res, cause)
  {
    hide Start, Local, Apply, Routers.Answer, Cookies.Credentials, Serves, Vouches, LooksUpAt, ArrivesAt, Run.At,
      Run.ThreadAt, Run.Advances;
    DispatchRefuses(r, x, t);
    var ph := r.ThreadAt(x, t);
    if ph.Arrived? {
      a := ArrivalOf(r, x, t);
      cause := NoRoute;
    } else if ph.Routed? {
      var l;
      a, l := LookupOf(r, x, t);
      cause := TurnedAway(l, ph.route);
    } else {
      var l, v, need, user;
      a, l, v, need, user := HandlerLinearises(r, x, t);
      cause := Handled(l, v, Routers.Route(HandlerOf(ph).value, need), user);
    }
  }

  /** Every answer, in every interleaving, goes back to one moment since its request
      arrived: a lookup that found nothing; a lookup and a later token validation
      that failed what the route asks for; or the invocation of a handler. */
  lemma {:induction false} EveryAnswerLinearises(r: Run, n: nat, t: nat) returns (a: nat, x: nat, cause: Cause)
    requires n <= |r.events| && r.init.threads == map[] && r.ThreadAt(n, t).Done?
    ensures x < n && AnswersAt(r, a, x, t, r.ThreadAt(n, t).req, r.ThreadAt(n, t).res, cause)
  {
    LastAnswer(r, n, t);
    hide Start, Local, Apply, AnswersAt;
    if r.ThreadAt(n, t) == r.ThreadAt(n - 1, t) {
      a, x, cause := EveryAnswerLinearises(r, n - 1, t);
    } else {
      x := n - 1;
      a, cause := AnswerOf(r, x, t);
    }
  }

  /** How many of the events from a up to n are steps of thread t. */
  function OwnSteps(r: Run, a: nat, n: nat, t: nat): nat
    requires a <= n <= |r.events|
  {
    if a == n then 0 else OwnSteps(r, a, n - 1, t) + if r.Advances(n - 1, t) then 1 else 0
  }

  /** What event n-1 does to a busy thread: its own step brings it nearer to the
      answer, and nothing else touches it. */
  lemma BusyStep(r: Run, n: nat, t: nat)
    requires 0 < n <= |r.events| && !Free(r.ThreadAt(n - 1, t))
    ensures var ph, before := r.ThreadAt(n, t), r.ThreadAt(n - 1, t);
            if r.Advances(n - 1, t) then !ph.Idle? && ph.req == before.req && Rank(ph) < Rank(before) else ph == before
  {
    hide Start, Local;
    var s := r.At(n - 1);
    if r.Advances(n - 1, t) {
      LocalDescends(r.kdf, s.engine, s.now, PhaseOf(s, t), r.events[n - 1].oracle);
    }
  }

  /** While a busy thread takes no step, it stays where it is. */
  lemma {:induction false} StaysPut(r: Run, m: nat, n: nat, t: nat)
    requires m <= n <= |r.events| && !Free(r.ThreadAt(m, t))
    requires forall x | m <= x < n :: !r.Advances(x, t)
    ensures r.ThreadAt(n, t) == r.ThreadAt(m, t)
    decreases n
  {
    hide Run.At, Run.ThreadAt;
    if n == m {
    } else {
      StaysPut(r, m, n - 1, t);
      BusyStep(r, n, t);
    }
  }

  /** Whatever the other threads do, a request is answered by the fifth step its own
      thread takes: at n it is answered, or its thread has some of five steps left. */
  lemma {:induction false} AnsweredWithinFiveSteps(r: Run, a: nat, n: nat, t: nat, req: Request) returns (x: nat)
    requires ArrivesAt(r, a, t, req) && a < n <= |r.events|
    ensures a < x <= n && OwnSteps(r, a + 1, x, t) <= 5
    ensures (r.ThreadAt(x, t).Done? && r.ThreadAt(x, t).req == req && (a < x - 1 ==> Serves(r, a, x - 1, t, req)))
            || (x == n && Serves(r, a, n, t, req) && OwnSteps(r, a + 1, n, t) + Rank(r.ThreadAt(n, t)) <= 5)
    ensures OwnSteps(r, a + 1, n, t) >= 5 ==> r.ThreadAt(x, t).Done?
    decreases n
  {
    hide Start, Local;
    if n - 1 == a {
      x := n;
    } else {
      x := AnsweredWithinFiveSteps(r, a, n - 1, t, req);
      if !r.ThreadAt(x, t).Done? {
        BusyStep(r, n, t);
        x := n;
        if !Free(r.ThreadAt(n, t)) {
          ExtendServes(r, a, n - 1, t, req);
        }
      }
    }
  }
}

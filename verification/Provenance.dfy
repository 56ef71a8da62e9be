/** Where privilege comes from: in every run, a change to the access list or the
    user table goes back to a login that read an Admin record. */
module Provenance {
  import opened Basics
  import opened Http
  import AuthProviders
  import Cookies
  import opened Dispatching
  import opened Engines
  import Routers
  import opened Sessions

  predicate Mutating(h: Handler) {
    h.AclSet? || h.AclRemove? || h.UserAdd? || h.UserRemove? || h.UserSetRole?
  }

  /** Every route to a mutating handler asks for Admin. */
  ghost predicate AdminGuarded(table: Routers.Table) {
    && (forall k | k in table.exact :: Mutating(table.exact[k].handler) ==> table.exact[k].minRole == Some(Admin))
    && (forall k | k in table.prefixes ::
          Mutating(table.prefixes[k].handler) ==> table.prefixes[k].minRole == Some(Admin))
  }

  lemma GuardedAnswer(table: Routers.Table, verb: Verb, path: string, route: Routers.Route)
    requires AdminGuarded(table) && Routers.Answer(table, verb, path) == Some(route) && Mutating(route.handler)
    ensures route.minRole == Some(Admin)
  {
  }

  /** Event i changes the access list or the user table. */
  ghost predicate ChangesAt(r: Run, i: nat) {
    && i < |r.events|
    && (r.At(i + 1).engine.acl != r.At(i).engine.acl || r.At(i + 1).engine.users != r.At(i).engine.users)
  }

  lemma StartChanges(kdf: AuthProviders.Kdf, e: Engine, now: int, req: Request, handler: Handler, o: Oracle)
    ensures var after := Start(kdf, e, now, req, handler, o).0;
            (after.acl != e.acl || after.users != e.users ==> Mutating(handler)) && after.table == e.table
  {
  }

  /** Only a mutating handler, or the second half of adding a user, changes them. */
  lemma WhoChanges(r: Run, i: nat)
    requires ChangesAt(r, i) && !r.events[i].Host?
    ensures r.events[i].Advance?
    ensures var ph := r.ThreadAt(i, r.events[i].thread);
            ph.AddHashed? || (ph.Running? && Mutating(ph.handler))
  {
    hide Start, Routers.Answer, Routers.Gate;
    var s := r.At(i);
    if r.events[i].Advance? {
      var ph := PhaseOf(s, r.events[i].thread);
      if ph.Running? {
        StartChanges(r.kdf, s.engine, s.now, ph.req, ph.handler, r.events[i].oracle);
      }
    }
  }

  /** The invocation behind a change. */
  lemma InvocationBehind(r: Run, i: nat)
    returns (a: nat, l: nat, v: nat, handler: Handler, need: Option<Role>, user: Option<UserInfo>)
    requires ChangesAt(r, i) && !r.events[i].Host? && r.init.threads == map[]
    ensures r.events[i].Advance? && Mutating(handler)
    ensures var t := r.events[i].thread;
            !Free(r.ThreadAt(i, t))
            && Invocation(r, i, t, r.ThreadAt(i, t).req, Routers.Route(handler, need), user, a, l, v)
  {
    WhoChanges(r, i);
    hide Start, Local, Apply;
    var t := r.events[i].thread;
    var ph := r.ThreadAt(i, t);
    if ph.Running? {
      a, l, v, need := DispatchLinearises(r, i, t);
      handler, user := ph.handler, ph.user;
    } else {
      a, l, v, need, user := HandlerLinearises(r, i, t);
      handler := UserAdd;
    }
  }

  /** A login on thread t that minted token at k read, at moment m, a record of
      `name` with role Admin whose hash its own password satisfied. */
  ghost predicate AdminLogin(r: Run, k: nat, m: nat, token: string, name: string) {
    && MintsAt(r, k, token)
    && MintedEntry(r, k).username == name && MintedEntry(r, k).role == Admin
    && m < k
    && var t := r.events[k].thread;
       var req := r.ThreadAt(k, t).req;
       && OrEmpty(req.body.username) == name
       && name in r.At(m).engine.users
       && FetchesAt(r, m, t, req, r.At(m).engine.users[name])
       && r.At(m).engine.users[name].role == Admin
       && AuthProviders.Verifies(r.kdf, OrEmpty(req.body.password), r.At(m).engine.users[name].passwordHash)
  }

  /** Who passes a gate that asks for Admin holds an Admin's token. */
  lemma AdmittedAdmin(r: Run, v: nat, t: nat, req: Request, handler: Handler, who: Option<UserInfo>)
    returns (user: UserInfo)
    requires AdmitsAt(r, v, t, req, Routers.Route(handler, Some(Admin)), who)
    ensures who == Some(user) && user.role == Admin
    ensures var token := Cookies.TokenOf(req);
            && token in r.At(v).engine.tokens
            && r.At(v).engine.tokens[token].username == user.username && r.At(v).engine.tokens[token].role == Admin
  {
    hide Apply;
    user := who.value;
  }

  lemma AdminTokenOrigin(r: Run, v: nat, token: string) returns (k: nat, m: nat)
    requires v <= |r.events| && r.init.threads == map[] && r.init.engine.tokens == map[]
    requires token in r.At(v).engine.tokens && r.At(v).engine.tokens[token].role == Admin
    ensures m < k < v && AdminLogin(r, k, m, token, r.At(v).engine.tokens[token].username)
  {
    hide Apply, Local, Start;
    var a, record;
    k, a, m, record := TokenOrigin(r, v, token);
  }

  /** Admin provenance: from an empty token store, as long as the mutating routes
      ask for Admin, every change that is not the host's own is made while serving
      a request whose token, at one moment v of that service, was good for an Admin,
      and had been minted by a login that read that user's Admin record. */
  lemma AdminProvenance(r: Run, i: nat)
    returns (a: nat, l: nat, v: nat, k: nat, m: nat, user: UserInfo)
    requires r.init.threads == map[] && r.init.engine.tokens == map[]
    requires ChangesAt(r, i) && !r.events[i].Host?
    requires forall j: nat | j <= i :: AdminGuarded(r.At(j).engine.table)
    ensures r.events[i].Advance? && m < k < v < i
    ensures var t := r.events[i].thread;
            var req := r.ThreadAt(i, t).req;
            && (exists handler :: Mutating(handler)
                  && Invocation(r, i, t, req, Routers.Route(handler, Some(Admin)), Some(user), a, l, v))
            && user.role == Admin
            && AdminLogin(r, k, m, Cookies.TokenOf(req), user.username)
  {
    var handler, need, who;
    a, l, v, handler, need, who := InvocationBehind(r, i);
    hide Apply, Local, Start;
    var t := r.events[i].thread;
    var req := r.ThreadAt(i, t).req;
    assert AdminGuarded(r.At(l).engine.table);
    GuardedAnswer(r.At(l).engine.table, req.verb, PathOf(req), Routers.Route(handler, need));
    user := AdmittedAdmin(r, v, t, req, handler, who);
    k, m := AdminTokenOrigin(r, v, Cookies.TokenOf(req));
  }

  /** Without host calls the routing table never changes. */
  lemma {:induction false} TableIsFixed(r: Run, n: nat)
    requires n <= |r.events| && forall i | 0 <= i < n :: !r.events[i].Host?
    ensures r.At(n).engine.table == r.init.engine.table
  {
    hide Start, Routers.Answer, Routers.Gate;
    if n == 0 {
    } else {
      TableIsFixed(r, n - 1);
      var s := r.At(n - 1);
      if r.events[n - 1].Advance? {
        var ph := PhaseOf(s, r.events[n - 1].thread);
        if ph.Running? {
          StartChanges(r.kdf, s.engine, s.now, ph.req, ph.handler, r.events[n - 1].oracle);
        }
      }
    }
  }

  /** If nobody is Admin to begin with, nothing the network sends ever changes the
      access list or the user table. */
  lemma {:induction false} WithoutAdminsNothingChanges(r: Run, n: nat)
    requires n <= |r.events| && r.init.threads == map[] && r.init.engine.tokens == map[]
    requires AdminGuarded(r.init.engine.table)
    requires forall i | 0 <= i < |r.events| :: !r.events[i].Host?
    requires forall name | name in r.init.engine.users :: r.init.engine.users[name].role != Admin
    ensures r.At(n).engine.acl == r.init.engine.acl && r.At(n).engine.users == r.init.engine.users
    decreases n
  {
    hide Apply, Local, Start;
    if n == 0 {
    } else {
      WithoutAdminsNothingChanges(r, n - 1);
      if ChangesAt(r, n - 1) {
        forall j: nat | j <= n - 1 ensures AdminGuarded(r.At(j).engine.table) {
          TableIsFixed(r, j);
        }
        var a, l, v, k, m, user := AdminProvenance(r, n - 1);
        WithoutAdminsNothingChanges(r, m);
      }
    }
  }
}

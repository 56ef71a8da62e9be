/** What the management endpoints do, in terms of the request body: to the rules,
    to the user table, and in their answers. */
module Management {
  import opened Basics
  import opened Http
  import AuthProviders
  import Cookies
  import opened Dispatching
  import opened Engines
  import Routers

  type Users = map<string, AuthProviders.UserRecord>

  /** A stored hash that accepts exactly the passwords deriving the same key. */
  ghost predicate StoresPassword(kdf: AuthProviders.Kdf, hash: AuthProviders.StoredHash, password: string,
                                 salt: AuthProviders.Salt)
  {
    forall asked :: AuthProviders.Verifies(kdf, asked, hash)
                    <==> kdf(asked, salt, 200_000) == kdf(password, salt, 200_000)
  }

  /** Adding a user stores the requested role and a hash of the given password, for
      this name and no other. */
  ghost predicate Added(kdf: AuthProviders.Kdf, body: Body, salt: Option<AuthProviders.Salt>, before: Users,
                        after: Users, res: Response)
  {
    var name, password, role := OrEmpty(body.username), OrEmpty(body.password), RoleFromString(OrEmpty(body.role));
    if !body.wellFormed || name == "" || password == "" || role.None? then
      res == Response(400, None, None, None, "") && after == before
    else if salt.None? then
      res == Response(500, None, None, None, "") && after == before
    else
      && res == Response(200, None, None, None, "")
      && name in after && after - {name} == before - {name}
      && after[name].role == role.value && StoresPassword(kdf, after[name].passwordHash, password, salt.value)
  }

  /** Removing takes exactly this user out. */
  predicate Removed(body: Body, before: Users, after: Users, res: Response) {
    var name := OrEmpty(body.username);
    if !body.wellFormed || name == "" then res == Response(400, None, None, None, "") && after == before
    else if name !in before then res == Response(404, None, None, None, "") && after == before
    else res == Response(200, None, None, None, "") && after == before - {name}
  }

  /** Re-roling changes exactly this user's role, and keeps the hash. */
  predicate Rerolled(body: Body, before: Users, after: Users, res: Response) {
    var name, role := OrEmpty(body.username), RoleFromString(OrEmpty(body.role));
    if !body.wellFormed || name == "" || role.None? then res == Response(400, None, None, None, "") && after == before
    else if name !in before then res == Response(404, None, None, None, "") && after == before
    else
      && res == Response(200, None, None, None, "")
      && after == before[name := AuthProviders.UserRecord(before[name].passwordHash, role.value)]
  }

  predicate RuleSet(body: Body, before: map<string, Role>, after: map<string, Role>, res: Response) {
    var prefix, role := OrEmpty(body.prefix), RoleFromString(OrEmpty(body.role));
    if !body.wellFormed || prefix == "" || role.None? then res == Response(400, None, None, None, "") && after == before
    else res == Response(200, None, None, None, "") && after == before[prefix := role.value]
  }

  predicate RuleDropped(body: Body, before: map<string, Role>, after: map<string, Role>, res: Response) {
    var prefix := OrEmpty(body.prefix);
    if !body.wellFormed || prefix == "" then res == Response(400, None, None, None, "") && after == before
    else res == Response(200, None, None, None, "") && after == before - {prefix}
  }

  predicate Manages(handler: Handler) {
    handler.AclList? || handler.AclSet? || handler.AclRemove?
    || handler.UserList? || handler.UserAdd? || handler.UserRemove? || handler.UserSetRole?
  }

  /** The whole effect of a management request on the engine, and its answer. */
  ghost predicate Managed(kdf: AuthProviders.Kdf, body: Body, handler: Handler, salt: Option<AuthProviders.Salt>,
                          before: Engine, after: Engine, res: Response)
    requires Manages(handler)
  {
    && after.table == before.table && after.tokens == before.tokens
    && (handler.UserAdd? || handler.UserRemove? || handler.UserSetRole? ==> after.acl == before.acl)
    && (handler.AclSet? || handler.AclRemove? ==> after.users == before.users)
    && match handler
       case AclSet => RuleSet(body, before.acl, after.acl, res)
       case AclRemove => RuleDropped(body, before.acl, after.acl, res)
       case UserAdd => Added(kdf, body, salt, before.users, after.users, res)
       case UserRemove => Removed(body, before.users, after.users, res)
       case UserSetRole => Rerolled(body, before.users, after.users, res)
       case _ => after == before && res == Response(200, None, None, None, "")
  }

  lemma HashStores(kdf: AuthProviders.Kdf, password: string, salt: AuthProviders.Salt)
    ensures StoresPassword(kdf, AuthProviders.HashOf(kdf, password, salt), password, salt)
  {
    hide AuthProviders.HashOf, AuthProviders.Verifies;
    forall asked
      ensures AuthProviders.Verifies(kdf, asked, AuthProviders.HashOf(kdf, password, salt))
              <==> kdf(asked, salt, 200_000) == kdf(password, salt, 200_000)
    {
      AuthProviders.VerifyHash(kdf, asked, password, salt);
    }
  }

  /** What is inserted for an addition, whatever the table holds by then. */
  ghost predicate AddedRecord(kdf: AuthProviders.Kdf, body: Body, salt: AuthProviders.Salt, name: string,
                              record: AuthProviders.UserRecord)
  {
    && body.wellFormed && OrEmpty(body.username) == name && name != "" && OrEmpty(body.password) != ""
    && RoleFromString(OrEmpty(body.role)) == Some(record.role)
    && StoresPassword(kdf, record.passwordHash, OrEmpty(body.password), salt)
  }

  /** Inserting such a record is a good addition. */
  lemma InsertionAdds(kdf: AuthProviders.Kdf, body: Body, salt: AuthProviders.Salt, name: string,
                      record: AuthProviders.UserRecord, before: Users)
    requires AddedRecord(kdf, body, salt, name, record)
    ensures Added(kdf, body, Some(salt), before, before[name := record], Response(200, None, None, None, ""))
  {
    hide RoleFromString, StoresPassword;
    assert before[name := record] - {name} == before - {name};
  }

  /** The first step of an addition: refused, out of random bytes, or hashed. */
  lemma StartAdds(kdf: AuthProviders.Kdf, e: Engine, now: int, req: Request, o: Oracle)
    ensures var (after, ph) := Start(kdf, e, now, req, UserAdd, o);
            && after == e
            && if ph.AddHashed? then o.salt.Some? && AddedRecord(kdf, req.body, o.salt.value, ph.name, ph.record)
               else ph.Done? && Added(kdf, req.body, o.salt, e.users, e.users, ph.res) && ph.res.status != 200
  {
    hide StoresPassword, AuthProviders.HashOf;
    if o.salt.Some? {
      HashStores(kdf, OrEmpty(req.body.password), o.salt.value);
    }
  }

  /** Every other management handler is one step. */
  lemma StartManages(kdf: AuthProviders.Kdf, e: Engine, now: int, req: Request, handler: Handler, o: Oracle)
    requires Manages(handler) && handler != UserAdd
    ensures var (after, ph) := Start(kdf, e, now, req, handler, o);
            ph.Done? && Managed(kdf, req.body, handler, o.salt, e, after, ph.res)
  {
    hide Added;
  }

  /** Left to one thread, a management request does all of it, and answers. */
  lemma ManagedAlone(kdf: AuthProviders.Kdf, e: Engine, now: int, req: Request, handler: Handler, o: Oracle)
    requires Manages(handler)
    ensures var (after, ph) := Solo(kdf, e, now, Running(req, handler, None), o);
            ph.Done? && ph.req == req && Managed(kdf, req.body, handler, o.salt, e, after, ph.res)
  {
    hide Start, Solo, Local, Added, AddedRecord, Removed, Rerolled, RuleSet, RuleDropped;
    SoloManage(kdf, e, now, req, handler, o);
    var (after, ph) := Start(kdf, e, now, req, handler, o);
    if handler == UserAdd {
      StartAdds(kdf, e, now, req, o);
      if ph.AddHashed? {
        InsertionAdds(kdf, req.body, o.salt.value, ph.name, ph.record, e.users);
      }
    } else {
      StartManages(kdf, e, now, req, handler, o);
    }
  }

  // ---- In every run ----------------------------------------------------------------------

  /** In every interleaving a management handler that is not an addition does all of
      it, and answers, in one step. */
  lemma ManagesInOneStep(r: Run, n: nat, t: nat)
    requires r.Advances(n, t) && r.ThreadAt(n, t).Running?
    requires Manages(r.ThreadAt(n, t).handler) && r.ThreadAt(n, t).handler != UserAdd
    ensures var ph, to := r.ThreadAt(n, t), r.ThreadAt(n + 1, t);
            && to.Done? && to.req == ph.req
            && Managed(r.kdf, ph.req.body, ph.handler, r.events[n].oracle.salt, r.At(n).engine, r.At(n + 1).engine,
                       to.res)
  {
    hide Start, Managed;
    var s, ph, o := r.At(n), r.ThreadAt(n, t), r.events[n].oracle;
    StartManages(r.kdf, s.engine, s.now, ph.req, ph.handler, o);
  }

  /** An addition is refused at once, or hashed first. */
  lemma AddsInTwoSteps(r: Run, n: nat, t: nat)
    requires r.Advances(n, t) && r.ThreadAt(n, t).Running? && r.ThreadAt(n, t).handler == UserAdd
    ensures var req, to, salt := r.ThreadAt(n, t).req, r.ThreadAt(n + 1, t), r.events[n].oracle.salt;
            && r.At(n + 1).engine == r.At(n).engine && !to.Idle? && to.req == req
            && if to.AddHashed? then salt.Some? && AddedRecord(r.kdf, req.body, salt.value, to.name, to.record)
               else to.Done? && to.res.status != 200
                    && Added(r.kdf, req.body, salt, r.At(n).engine.users, r.At(n).engine.users, to.res)
  {
    hide Start, Added, AddedRecord;
    var s, ph, o := r.At(n), r.ThreadAt(n, t), r.events[n].oracle;
    StartAdds(r.kdf, s.engine, s.now, ph.req, o);
  }

  /** What a thread is about to insert comes from its own request. */
  lemma {:induction false} PendingRecord(r: Run, n: nat, t: nat) returns (salt: AuthProviders.Salt)
    requires n <= |r.events| && r.init.threads == map[] && r.ThreadAt(n, t).AddHashed?
    ensures var ph := r.ThreadAt(n, t);
            AddedRecord(r.kdf, ph.req.body, salt, ph.name, ph.record)
  {
    hide Apply, Local, Start, AddedRecord, LooksUpAt, AdmitsAt, Run.At, Run.ThreadAt;
    BusyLater(r, n, t);
    LastStep(r, n, t);
    if r.Advances(n - 1, t) {
      StepPhases(r, n, t);
      AddsInTwoSteps(r, n - 1, t);
      salt := r.events[n - 1].oracle.salt.value;
    } else {
      salt := PendingRecord(r, n - 1, t);
    }
  }

  lemma InsertionStep(r: Run, n: nat, t: nat)
    requires r.Advances(n, t) && r.ThreadAt(n, t).AddHashed?
    ensures n < |r.events|
    ensures var ph, before := r.ThreadAt(n, t), r.At(n).engine;
            && r.ThreadAt(n + 1, t) == Done(ph.req, Response(200, None, None, None, ""))
            && r.At(n + 1).engine == before.(users := before.users[ph.name := ph.record])
  {
    hide Start;
  }

  /** And its insertion, whenever it comes and whatever was done to the table since,
      adds the user as requested. */
  lemma InsertsAsRequested(r: Run, n: nat, t: nat) returns (salt: AuthProviders.Salt)
    requires r.Advances(n, t) && r.init.threads == map[] && r.ThreadAt(n, t).AddHashed?
    ensures var req, before, after := r.ThreadAt(n, t).req, r.At(n).engine, r.At(n + 1).engine;
            && r.ThreadAt(n + 1, t) == Done(req, Response(200, None, None, None, ""))
            && Managed(r.kdf, req.body, UserAdd, Some(salt), before, after, Response(200, None, None, None, ""))
  {
    hide Added, AddedRecord, Apply, Local, Start, Run.At, Run.ThreadAt, Run.Advances;
    InsertionStep(r, n, t);
    salt := PendingRecord(r, n, t);
    var ph := r.ThreadAt(n, t);
    InsertionAdds(r.kdf, ph.req.body, salt, ph.name, ph.record, r.At(n).engine.users);
  }

  /** Nothing else touches the user table, but the host's own calls. */
  lemma NobodyElseEditsUsers(r: Run, x: nat)
    requires x < |r.events|
    requires r.events[x].Host? ==>
               var call := r.events[x].call;
               !call.PutUser? && !call.DropUser? && !call.ChangeRole?
    requires r.events[x].Advance? ==>
               var ph := r.ThreadAt(x, r.events[x].thread);
               !ph.AddHashed? && (ph.Running? ==> ph.handler != UserRemove && ph.handler != UserSetRole)
    ensures r.At(x + 1).engine.users == r.At(x).engine.users
  {
    hide Start, Routers.Answer, Routers.Gate;
    var s := r.At(x);
    if r.events[x].Advance? {
      var ph := PhaseOf(s, r.events[x].thread);
      if ph.Running? {
        StartKeepsUsers(r.kdf, s.engine, s.now, ph.req, ph.handler, r.events[x].oracle);
      }
    }
  }

  lemma StartKeepsUsers(kdf: AuthProviders.Kdf, e: Engine, now: int, req: Request, handler: Handler, o: Oracle)
    requires handler != UserRemove && handler != UserSetRole
    ensures Start(kdf, e, now, req, handler, o).0.users == e.users
  {
    hide Cookies.Credentials, AuthProviders.HashOf, Cookies.SessionValue, Given, RoleIn;
  }

  /** And those change one user each, keeping the hash when only the role changes. */
  lemma HostEditsOneUser(e: Engine, name: string, record: AuthProviders.UserRecord, role: Role)
    ensures HostApply(e, PutUser(name, record)) == e.(users := e.users[name := record])
    ensures HostApply(e, DropUser(name)) == e.(users := e.users - {name})
    ensures name !in e.users ==> HostApply(e, ChangeRole(name, role)) == e
    ensures name in e.users ==>
              HostApply(e, ChangeRole(name, role))
              == e.(users := e.users[name := AuthProviders.UserRecord(e.users[name].passwordHash, role)])
  {
  }
}

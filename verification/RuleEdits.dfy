/** The access list over a run: which events edit it, which edits decide a path,
    and when a path that was open is closed. */
module RuleEdits {
  import opened Basics
  import opened Http
  import Acls
  import AuthHandlers
  import AuthProviders
  import Cookies
  import opened Engines
  import PrefixMatch
  import Routers

  datatype Edit = NoEdit | Put(prefix: string, role: Role) | Drop(prefix: string)

  function Edited(rules: map<string, Role>, edit: Edit): map<string, Role> {
    match edit
    case NoEdit => rules
    case Put(p, role) => rules[p := role]
    case Drop(p) => rules - {p}
  }

  /** The edit sets or drops the rule that decides the path. */
  predicate Decides(rules: map<string, Role>, edit: Edit, path: string) {
    match edit
    case NoEdit => false
    case Put(p, _) => PrefixMatch.Longest(rules.Keys + {p}, path) == Some(p)
    case Drop(p) => PrefixMatch.Longest(rules.Keys, path) == Some(p)
  }

  /** What a deciding edit leaves the path to ask for: the role it sets, or what the
      next shorter rule asks for, or Admin. */
  function Leaves(rules: map<string, Role>, edit: Edit, path: string): Role
    requires Decides(rules, edit, path)
  {
    match edit
    case Put(_, role) => role
    case Drop(p) =>
      if p == "" then Admin
      else
        match PrefixMatch.LongestWithin(rules.Keys, path, |p| - 1)
        case Some(q) => rules[q]
        case None => Admin
  }

  lemma EditDecides(rules: map<string, Role>, edit: Edit, path: string)
    ensures Acls.Required(Edited(rules, edit), path)
            == if Decides(rules, edit, path) then Leaves(rules, edit, path) else Acls.Required(rules, path)
  {
    match edit
    case NoEdit =>
    case Put(p, role) =>
      assert rules[p := role].Keys == rules.Keys + {p};
      Acls.SetIsLocal(rules, p, role, path);
    case Drop(p) =>
      Acls.RemoveFallsBack(rules, p, path);
  }

  /** The edit a management request asks for, if it is a good one. */
  function RequestEdit(req: Request, handler: Handler): Edit {
    var body := req.body;
    if handler == AclSet && body.wellFormed && Given(body.prefix) && RoleIn(body).Some?
    then Put(body.prefix.value, RoleIn(body).value)
    else if handler == AclRemove && body.wellFormed && Given(body.prefix) then Drop(body.prefix.value)
    else NoEdit
  }

  /** The edit event x makes. */
  ghost function EditOf(r: Run, x: nat): Edit
    requires x < |r.events|
  {
    match r.events[x]
    case Host(ProtectPath(p, role)) => Put(p, role)
    case Host(UnprotectPath(p)) => Drop(p)
    case Advance(t, _) =>
      var ph := r.ThreadAt(x, t);
      if ph.Running? then RequestEdit(ph.req, ph.handler) else NoEdit
    case _ => NoEdit
  }

  lemma StartEdits(kdf: AuthProviders.Kdf, e: Engine, now: int, req: Request, handler: Handler, o: Oracle)
    ensures Start(kdf, e, now, req, handler, o).0.acl == Edited(e.acl, RequestEdit(req, handler))
  {
    hide Cookies.Credentials, AuthProviders.HashOf, AuthHandlers.CheckPassed, AuthHandlers.LogoutResponse,
      AuthHandlers.RedirectToLogin;
  }

  /** These are all the changes there are. */
  lemma EditStep(r: Run, x: nat)
    requires x < |r.events|
    ensures r.At(x + 1).engine.acl == Edited(r.At(x).engine.acl, EditOf(r, x))
  {
    hide Start, Routers.Answer, Routers.Gate, RequestEdit;
    var s := r.At(x);
    if r.events[x].Advance? {
      var ph := PhaseOf(s, r.events[x].thread);
      if ph.Running? {
        StartEdits(r.kdf, s.engine, s.now, ph.req, ph.handler, r.events[x].oracle);
      }
    }
  }

  ghost predicate DecidesAt(r: Run, x: nat, path: string) {
    x < |r.events| && Decides(r.At(x).engine.acl, EditOf(r, x), path)
  }

  /** Event x decides the path, and leaves it asking for more than role. */
  ghost predicate ClosesAt(r: Run, x: nat, path: string, role: Role) {
    DecidesAt(r, x, path) && !Satisfies(role, Leaves(r.At(x).engine.acl, EditOf(r, x), path))
  }

  /** The last event from w up to n that decides the path closes it to the role. */
  ghost predicate ClosedBetween(r: Run, w: nat, n: nat, path: string, role: Role) {
    exists x: nat | w <= x < n :: ClosesAt(r, x, path, role) && forall y: nat | x < y < n :: !DecidesAt(r, y, path)
  }

  /** How event x bears on what the path asks for. */
  lemma RequirementStep(r: Run, x: nat, path: string)
    requires x < |r.events|
    ensures Acls.Required(r.At(x + 1).engine.acl, path)
            == if DecidesAt(r, x, path) then Leaves(r.At(x).engine.acl, EditOf(r, x), path)
               else Acls.Required(r.At(x).engine.acl, path)
  {
    hide Run.At, Acls.Required, Decides, Leaves, EditOf;
    EditStep(r, x);
    EditDecides(r.At(x).engine.acl, EditOf(r, x), path);
  }

  lemma ClosedOneMore(r: Run, w: nat, n: nat, path: string, role: Role)
    requires w <= n < |r.events|
    ensures ClosedBetween(r, w, n + 1, path, role)
            <==> if DecidesAt(r, n, path) then ClosesAt(r, n, path, role) else ClosedBetween(r, w, n, path, role)
  {
    hide DecidesAt, Leaves, EditOf;
    if ClosedBetween(r, w, n + 1, path, role) {
      var x: nat :| w <= x < n + 1 && ClosesAt(r, x, path, role)
                    && forall y: nat | x < y < n + 1 :: !DecidesAt(r, y, path);
    }
  }

  /** When a path that was open to a role at moment w is closed to it at n, in any
      run: exactly when some event in between decides it and leaves it asking for
      more, and no later one decides it. The rest of the edits do not matter. */
  lemma {:induction false} RefusedExactly(r: Run, w: nat, n: nat, path: string, role: Role)
    requires w <= n <= |r.events| && Acls.Authorized(r.At(w).engine.acl, role, path)
    ensures Acls.Authorized(r.At(n).engine.acl, role, path) <==> !ClosedBetween(r, w, n, path, role)
    decreases n
  {
    hide Run.At, Acls.Required, DecidesAt, Leaves, EditOf;
    if n == w {
    } else {
      RefusedExactly(r, w, n - 1, path, role);
      RequirementStep(r, n - 1, path);
      ClosedOneMore(r, w, n - 1, path, role);
      hide ClosedBetween;
    }
  }

  /** In particular a path stays as it is while nobody decides it. */
  lemma OpenUnlessDecided(r: Run, w: nat, n: nat, path: string, role: Role)
    requires w <= n <= |r.events| && Acls.Authorized(r.At(w).engine.acl, role, path)
    requires forall x: nat | w <= x < n :: !DecidesAt(r, x, path)
    ensures Acls.Authorized(r.At(n).engine.acl, role, path)
  {
    hide Run.At, Acls.Authorized, DecidesAt;
    RefusedExactly(r, w, n, path, role);
  }

  /** One of the ways: the host raises the rule for the very path. */
  lemma RaisedRuleCloses(r: Run, x: nat, path: string, need: Role, role: Role)
    requires x < |r.events| && r.events[x] == Host(ProtectPath(path, need)) && !Satisfies(role, need)
    ensures ClosedBetween(r, x, x + 1, path, role)
  {
    PrefixMatch.LongestIs(r.At(x).engine.acl.Keys + {path}, path, path);
    assert ClosesAt(r, x, path, role);
  }
}

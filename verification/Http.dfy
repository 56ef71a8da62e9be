/** Requests, responses and handler names, as far as the engine looks at them. */
module Http {
  import opened Basics
  import Text

  datatype Verb = Get | Post | Delete | Patch | OtherVerb(name: string)

  /** A request body after JSON parsing: whether parsing succeeded, and the
      fields it left behind. */
  datatype Body = Body(
    wellFormed: bool,
    username: Option<string>,
    password: Option<string>,
    prefix: Option<string>,
    role: Option<string>)

  datatype Request = Request(
    verb: Verb,
    target: string,
    cookie: Option<string>,
    authorization: Option<string>,
    originalUri: Option<string>,
    body: Body)

  datatype UserInfo = UserInfo(username: string, role: Role)

  datatype Response = Response(
    status: nat,
    setCookie: Option<string>,
    location: Option<string>,
    user: Option<UserInfo>,
    content: string)

  function Status(code: nat): Response {
    Response(code, None, None, None, "")
  }

  /** The handlers the engine can register; Custom stands for host code. */
  datatype Handler =
    | Login
    | Logout
    | AuthCheck
    | AclList
    | AclSet
    | AclRemove
    | UserList
    | UserAdd
    | UserRemove
    | UserSetRole
    | ProtectedFile(fsRoot: string, urlPrefix: string)
    | Custom(id: nat)

  /** The request path: the target without its query string. */
  function PathOf(req: Request): string {
    Text.Until(req.target, '?')
  }

  /** A target is its path, or its path, a '?' and a query. */
  lemma PathIsTheTarget(req: Request, path: string, query: string)
    requires '?' !in path
    ensures req.target == path ==> PathOf(req) == path
    ensures req.target == path + "?" + query ==> PathOf(req) == path
  {
    hide Text.IndexOf, Text.Until;
    if req.target == path {
      Text.UntilUnique(path, '?', path);
    } else if req.target == path + "?" + query {
      assert req.target[|path|] == '?' && path <= req.target;
      Text.UntilUnique(req.target, '?', path);
    }
  }
}

/** Stock datatypes and the access levels every other module uses. */
module Basics {

  datatype Option<+T> = None | Some(value: T)

  /** The text, or "" when there is none. */
  function OrEmpty(v: Option<string>): string {
    if v.Some? then v.value else ""
  }

  type byte = x: int | 0 <= x < 256

  /** Access levels, from least to most privileged. */
  datatype Role = Guest | Viewer | User | Admin

  function Level(r: Role): nat {
    match r
    case Guest => 0
    case Viewer => 1
    case User => 2
    case Admin => 3
  }

  predicate Satisfies(have: Role, need: Role) {
    Level(have) >= Level(need)
  }

  function RoleFromString(s: string): Option<Role> {
    if s == "admin" then Some(Admin)
    else if s == "user" then Some(User)
    else if s == "viewer" then Some(Viewer)
    else if s == "guest" then Some(Guest)
    else None
  }

  /** Guest < Viewer < User < Admin, strictly. */
  lemma RolesAreOrdered(have: Role, need: Role)
    ensures Satisfies(have, need)
            <==> match need
                 case Guest => true
                 case Viewer => have != Guest
                 case User => have == User || have == Admin
                 case Admin => have == Admin
    ensures Satisfies(have, need) && Satisfies(need, have) <==> have == need
  {
  }

  /** The names roles have in requests; no other text is a role. */
  lemma RoleNames(s: string)
    ensures RoleFromString(s) == Some(Admin) <==> s == "admin"
    ensures RoleFromString(s) == Some(User) <==> s == "user"
    ensures RoleFromString(s) == Some(Viewer) <==> s == "viewer"
    ensures RoleFromString(s) == Some(Guest) <==> s == "guest"
  {
  }
}

/**
 * The closed role enumeration `RoleEnum`. Its members are ADMIN, OP_COLIS and
 * OP_STOCK; every member's value is taken to be its name.
 */
module Roles {
  import opened Wrappers
  import Text

  datatype Role = Admin | OpColis | OpStock

  /** `role.name` (and `role.value`). */
  function Name(r: Role): (n: string)
    ensures Text.NoLower(n) && n != []
  {
    match r
    case Admin => "ADMIN"
    case OpColis => "OP_COLIS"
    case OpStock => "OP_STOCK"
  }

  /** `name in RoleEnum.__members__` followed by `RoleEnum[name]`. */
  function Parse(name: string): (r: Option<Role>)
    ensures r.Some? ==> Name(r.value) == name
    ensures r.None? ==> forall x :: Name(x) != name
  {
    if name == "ADMIN" then Some(Admin)
    else if name == "OP_COLIS" then Some(OpColis)
    else if name == "OP_STOCK" then Some(OpStock)
    else None
  }

  lemma ParseName(r: Role)
    ensures Parse(Name(r)) == Some(r)
  {
  }

  lemma NameInjective(r: Role, s: Role)
    requires Name(r) == Name(s)
    ensures r == s
  {
    ParseName(r);
    ParseName(s);
  }

  lemma UpperName(r: Role)
    ensures Text.Upper(Name(r)) == Name(r)
  {
    Text.UpperFixesNoLower(Name(r));
  }

  /** The names of a sequence of roles, in order (`[r.name for r in roles]`). */
  function Names(roles: seq<Role>): (names: seq<string>)
    ensures |names| == |roles|
    ensures forall i :: 0 <= i < |roles| ==> names[i] == Name(roles[i])
  {
    seq(|roles|, i requires 0 <= i < |roles| => Name(roles[i]))
  }
}

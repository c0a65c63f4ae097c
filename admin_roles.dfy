/**
 * The role-administration endpoints of src/routers/admin_roles_router.py. The
 * database part they touch is the link from users to their roles and the set
 * of roles present in the `role` table; both live in a `RoleStore`. Every
 * endpoint is wrapped by `is_granted(RoleEnum.ADMIN)`, so each method first
 * asks the guard about the caller.
 */
module AdminRoles {
  import opened Wrappers
  import opened Http
  import opened Roles
  import Text
  import opened CurrentUser
  import Guard

  const USER_NOT_FOUND := "Utilisateur introuvable"
  const ROLE_NOT_FOUND := "Rôle introuvable en base"
  const INVALID_ROLE_PREFIX := "Rôle invalide: "
  const MISSING_ROLES := "Un ou plusieurs rôles n'existent pas en base"

  /** The refusal of `is_granted(RoleEnum.ADMIN)` for this caller, if it refuses. */
  function AdminRefusal(caller: Result<Identity, Failure>): (f: Option<Failure>)
    ensures f.None? <==> caller.Success? && Admin in caller.value.roles
    ensures caller.Failure? ==> f == Some(caller.error)
  {
    match Guard.IsGranted([Admin], caller, (u: ()) => u, ())
    case Refused(failure) => Some(failure)
    case Invoked(_) => None
  }

  /** `user.roles.append(role)` unless the role is already there. */
  function WithRole(roles: seq<Role>, r: Role): (out: seq<Role>)
    ensures r in out
    ensures forall x :: x in out <==> x in roles || x == r
    ensures r in roles ==> out == roles
    ensures r !in roles ==> |out| == |roles| + 1 && out[..|roles|] == roles
  {
    if r in roles then roles else roles + [r]
  }

  /** The position of the first occurrence of `r`. */
  function FirstIndex(roles: seq<Role>, r: Role): (i: nat)
    requires r in roles
    ensures i < |roles| && roles[i] == r && r !in roles[..i]
  {
    if roles[0] == r then 0
    else
      var i := 1 + FirstIndex(roles[1..], r);
      assert roles[..i] == [roles[0]] + roles[1..][..i - 1];
      i
  }

  /** `user.roles.remove(role)` when the role is there: its first occurrence goes, the rest keeps its order. */
  function WithoutRole(roles: seq<Role>, r: Role): (out: seq<Role>)
    ensures r !in roles ==> out == roles
    ensures r in roles ==> out == roles[..FirstIndex(roles, r)] + roles[FirstIndex(roles, r) + 1..]
  {
    if roles == [] then []
    else if roles[0] == r then roles[1..]
    else
      var rest := WithoutRole(roles[1..], r);
      assert r in roles ==> [roles[0]] + rest == roles[..FirstIndex(roles, r)] + roles[FirstIndex(roles, r) + 1..] by {
        if r in roles {
          var i := FirstIndex(roles, r);
          assert i == 1 + FirstIndex(roles[1..], r);
          assert roles[..i] == [roles[0]] + roles[1..][..i - 1];
          assert roles[i + 1..] == roles[1..][i..];
        }
      }
      [roles[0]] + rest
  }

  predicate NoDuplicates(roles: seq<Role>) {
    forall i, j :: 0 <= i < j < |roles| ==> roles[i] != roles[j]
  }

  /** Adding keeps a role list free of duplicates. */
  lemma AddKeepsDistinct(roles: seq<Role>, r: Role)
    requires NoDuplicates(roles)
    ensures NoDuplicates(WithRole(roles, r))
  {
  }

  /** From a list free of duplicates, removing a role takes it out entirely and leaves the rest. */
  lemma {:induction false} RemoveFromDistinct(roles: seq<Role>, r: Role)
    requires NoDuplicates(roles)
    ensures forall x :: x in WithoutRole(roles, r) <==> x in roles && x != r
    decreases |roles|
  {
    if roles != [] {
      var rest := roles[1..];
      assert NoDuplicates(rest) by {
        forall i, j | 0 <= i < j < |rest| ensures rest[i] != rest[j] {
          assert rest[i] == roles[i + 1] && rest[j] == roles[j + 1];
        }
      }
      assert roles[0] !in rest by {
        forall j | 0 <= j < |rest| ensures rest[j] != roles[0] {
          assert rest[j] == roles[j + 1];
        }
      }
      assert forall x :: x in roles <==> x == roles[0] || x in rest by {
        assert roles == [roles[0]] + rest;
      }
      if roles[0] != r {
        RemoveFromDistinct(rest, r);
      }
    }
  }

  /** Adding a missing role and then removing it gives back the original list. */
  lemma {:induction false} RemoveUndoesAdd(roles: seq<Role>, r: Role)
    requires r !in roles
    ensures WithoutRole(WithRole(roles, r), r) == roles
  {
    var added := roles + [r];
    assert forall j :: 0 <= j < |roles| ==> added[j] == roles[j];
    var i := FirstIndex(added, r);
    assert i == |roles|;
    assert added[..i] == roles;
  }

  /** `part.strip().upper()`. */
  function Normal(part: string): string {
    Text.Upper(Text.Strip(part))
  }

  /** Every part of a list, stripped and upper-cased. */
  function Normals(parts: seq<string>): (names: seq<string>)
    ensures |names| == |parts|
    ensures forall i :: 0 <= i < |parts| ==> names[i] == Normal(parts[i])
  {
    seq(|parts|, i requires 0 <= i < |parts| => Normal(parts[i]))
  }

  /** The names a `roles` CSV asks for: its comma-separated parts, normalised. */
  function Requested(csv: string): seq<string> {
    Normals(Text.Split(csv, ','))
  }

  /** The roles a list of normalised names asks for, left to right: empty names skipped, the first unknown name is the error. */
  function Wanted(names: seq<string>): Result<seq<Role>, string>
    decreases |names|
  {
    if names == [] then Success([])
    else
      match Wanted(names[..|names| - 1])
      case Failure(name) => Failure(name)
      case Success(w) =>
        var name := names[|names| - 1];
        if name == "" then Success(w)
        else match Parse(name)
          case None => Failure(name)
          case Some(r) => Success(w + [r])
  }

  /** The last name adds at most its own role to what the earlier names want. */
  lemma {:induction false} WantedLast(names: seq<string>)
    requires names != [] && Wanted(names).Success?
    ensures Wanted(names[..|names| - 1]).Success?
    ensures forall r :: r in Wanted(names).value ==>
              r in Wanted(names[..|names| - 1]).value || names[|names| - 1] == Name(r)
    ensures forall r :: r in Wanted(names[..|names| - 1]).value ==> r in Wanted(names).value
    ensures names[|names| - 1] != "" ==>
              Parse(names[|names| - 1]).Some? && Parse(names[|names| - 1]).value in Wanted(names).value
  {
  }

  /** Every wanted role was named. */
  lemma {:induction false} WantedOnlyNamed(names: seq<string>)
    requires Wanted(names).Success?
    ensures forall r :: r in Wanted(names).value ==> Name(r) in names
    decreases |names|
  {
    if names != [] {
      var init := names[..|names| - 1];
      WantedLast(names);
      WantedOnlyNamed(init);
      forall r | r in Wanted(names).value ensures Name(r) in names {
        if Name(r) in init {
          var i :| 0 <= i < |init| && init[i] == Name(r);
          assert names[i] == Name(r);
        } else {
          assert names[|names| - 1] == Name(r);
        }
      }
    }
  }

  /** Every non-empty name is a role, and that role is wanted. */
  lemma {:induction false} WantedAllNamed(names: seq<string>)
    requires Wanted(names).Success?
    ensures forall i :: 0 <= i < |names| && names[i] != "" ==>
              Parse(names[i]).Some? && Parse(names[i]).value in Wanted(names).value
    decreases |names|
  {
    if names != [] {
      var init := names[..|names| - 1];
      WantedLast(names);
      WantedAllNamed(init);
      forall i | 0 <= i < |init| && names[i] != ""
        ensures Parse(names[i]).Some? && Parse(names[i]).value in Wanted(names).value
      {
        assert init[i] == names[i];
      }
    }
  }

  /** Once a prefix of the names has failed, the whole list fails the same way. */
  lemma {:induction false} FailureSticks(names: seq<string>, n: nat)
    requires n <= |names| && Wanted(names[..n]).Failure?
    ensures Wanted(names) == Wanted(names[..n])
    decreases |names| - n
  {
    if n < |names| {
      assert names[..n + 1][..n] == names[..n];
      FailureSticks(names, n + 1);
    } else {
      assert names[..n] == names;
    }
  }

  /** A failure is the first non-empty name that is not a role. */
  lemma {:induction false} WantedFailureNamesPart(names: seq<string>)
    requires Wanted(names).Failure?
    ensures var name := Wanted(names).error;
            name != "" && Parse(name).None? && name in names
    decreases |names|
  {
    var init := names[..|names| - 1];
    if Wanted(init).Failure? {
      WantedFailureNamesPart(init);
      var i :| 0 <= i < |init| && init[i] == Wanted(names).error;
      assert names[i] == init[i];
    } else {
      assert names[|names| - 1] == Wanted(names).error;
    }
  }

  /** The loop of `set_roles_for_user` that turns the CSV into `wanted`. */
  method ParseWanted(csv: string) returns (w: Result<seq<Role>, string>)
    ensures w == Wanted(Requested(csv))
  {
    var parts := Text.Split(csv, ',');
    ghost var names := Requested(csv);
    var wanted: seq<Role> := [];
    var i := 0;
    while i < |parts|
      invariant 0 <= i <= |parts|
      invariant Wanted(names[..i]) == Success(wanted)
    {
      assert names[..i + 1][..i] == names[..i];
      var name := Normal(parts[i]);
      if name == "" {
        i := i + 1;
        continue;
      }
      var role := Parse(name);
      if role.None? {
        FailureSticks(names, i + 1);
        return Failure(name);
      }
      wanted := wanted + [role.value];
      i := i + 1;
    }
    assert names[..|names|] == names;
    w := Success(wanted);
  }

  /** Role names are already normal. */
  lemma {:induction false} NormalNames(rs: seq<Role>)
    ensures Normals(Names(rs)) == Names(rs)
  {
    forall i | 0 <= i < |rs| ensures Normal(Names(rs)[i]) == Names(rs)[i] {
      Text.StripFixed(Name(rs[i]));
      UpperName(rs[i]);
    }
  }

  /** The names of a list of roles ask for exactly that list. */
  lemma {:induction false} WantedOfNames(rs: seq<Role>)
    ensures Wanted(Names(rs)) == Success(rs)
    decreases |rs|
  {
    if rs != [] {
      var init := rs[..|rs| - 1];
      assert Names(rs)[..|rs| - 1] == Names(init);
      WantedOfNames(init);
      ParseName(rs[|rs| - 1]);
      assert init + [rs[|rs| - 1]] == rs;
    }
  }

  /** A list of roles written as CSV (`ADMIN,OP_STOCK`) parses back to the same list. */
  lemma {:induction false} CsvRoundTrip(rs: seq<Role>)
    requires rs != []
    ensures Wanted(Requested(Text.Join(Names(rs), ','))) == Success(rs)
  {
    forall i | 0 <= i < |rs| ensures ',' !in Names(rs)[i] {
      match rs[i]
      case Admin =>
      case OpColis =>
      case OpStock =>
    }
    Text.JoinSplit(Names(rs), ',');
    NormalNames(rs);
    WantedOfNames(rs);
  }

  /** `select(Role).where(Role.name.in_(wanted))`: the wanted roles present in the table, one per role, in declaration order. */
  function RowsFor(table: set<Role>, wanted: seq<Role>): (rows: seq<Role>)
    ensures forall x :: x in rows <==> x in table && x in wanted
    ensures NoDuplicates(rows)
  {
    var a := if Admin in table && Admin in wanted then [Admin] else [];
    var c := if OpColis in table && OpColis in wanted then [OpColis] else [];
    var o := if OpStock in table && OpStock in wanted then [OpStock] else [];
    forall x ensures x in a + c + o <==> x in table && x in wanted {
      assert x == Admin || x == OpColis || x == OpStock;
    }
    a + c + o
  }

  lemma {:induction false} DistinctCount(rows: seq<Role>)
    requires NoDuplicates(rows)
    ensures |set x | x in rows| == |rows|
    decreases |rows|
  {
    if rows != [] {
      var rest := rows[1..];
      assert NoDuplicates(rest) by {
        forall i, j | 0 <= i < j < |rest| ensures rest[i] != rest[j] {
          assert rest[i] == rows[i + 1] && rest[j] == rows[j + 1];
        }
      }
      DistinctCount(rest);
      assert rows[0] !in rest by {
        forall j | 0 <= j < |rest| ensures rest[j] != rows[0] {
          assert rest[j] == rows[j + 1];
        }
      }
      assert (set x | x in rows) == (set x | x in rest) + {rows[0]} by {
        assert rows == [rows[0]] + rest;
      }
    }
  }

  /** The length test of line 107 fails exactly when a wanted role is missing from the table. */
  lemma {:induction false} CountTest(table: set<Role>, wanted: seq<Role>)
    ensures |RowsFor(table, wanted)| == |set x | x in wanted| <==> forall x :: x in wanted ==> x in table
  {
    var rows := RowsFor(table, wanted);
    DistinctCount(rows);
    var rowSet := set x | x in rows;
    var wantSet := set x | x in wanted;
    assert rowSet <= wantSet;
    if forall x :: x in wanted ==> x in table {
      assert rowSet == wantSet;
    } else {
      var x :| x in wanted && x !in table;
      assert x in wantSet - rowSet;
      assert wantSet == rowSet + (wantSet - rowSet);
      assert |wantSet| == |rowSet| + |wantSet - rowSet|;
    }
  }

  /** The users' role lists and the roles present in the `role` table. */
  class RoleStore {
    var userRoles: map<int, seq<Role>>
    var table: set<Role>

    constructor (userRoles: map<int, seq<Role>>, table: set<Role>)
      ensures this.userRoles == userRoles && this.table == table
    {
      this.userRoles := userRoles;
      this.table := table;
    }

    /** `add_role_to_user`; the answer is the user id and the added role's value. */
    method AddRoleToUser(caller: Result<Identity, Failure>, userId: int, role: Role) returns (r: Result<(int, string), Failure>)
      modifies this
      ensures table == old(table)
      ensures AdminRefusal(caller).Some? ==> r == Failure(AdminRefusal(caller).value) && userRoles == old(userRoles)
      ensures AdminRefusal(caller).None? && userId !in old(userRoles) ==>
                r == Failure(Http(NOT_FOUND, USER_NOT_FOUND)) && userRoles == old(userRoles)
      ensures AdminRefusal(caller).None? && userId in old(userRoles) && role !in table ==>
                r == Failure(Http(NOT_FOUND, ROLE_NOT_FOUND)) && userRoles == old(userRoles)
      ensures r.Success? <==> AdminRefusal(caller).None? && userId in old(userRoles) && role in table
      ensures r.Success? ==> r.value == (userId, Name(role))
                             && userRoles == old(userRoles)[userId := WithRole(old(userRoles)[userId], role)]
    {
      var refusal := AdminRefusal(caller);
      if refusal.Some? {
        return Failure(refusal.value);
      }
      if userId !in userRoles {
        return Failure(Http(NOT_FOUND, USER_NOT_FOUND));
      }
      if role !in table {
        return Failure(Http(NOT_FOUND, ROLE_NOT_FOUND));
      }
      if role !in userRoles[userId] {
        userRoles := userRoles[userId := userRoles[userId] + [role]];
      }
      r := Success((userId, Name(role)));
    }

    /** `remove_role_from_user`; the answer is the user id and the removed role's name. */
    method RemoveRoleFromUser(caller: Result<Identity, Failure>, userId: int, role: Role) returns (r: Result<(int, string), Failure>)
      modifies this
      ensures table == old(table)
      ensures AdminRefusal(caller).Some? ==> r == Failure(AdminRefusal(caller).value) && userRoles == old(userRoles)
      ensures AdminRefusal(caller).None? && userId !in old(userRoles) ==>
                r == Failure(Http(NOT_FOUND, USER_NOT_FOUND)) && userRoles == old(userRoles)
      ensures AdminRefusal(caller).None? && userId in old(userRoles) && role !in table ==>
                r == Failure(Http(NOT_FOUND, ROLE_NOT_FOUND)) && userRoles == old(userRoles)
      ensures r.Success? <==> AdminRefusal(caller).None? && userId in old(userRoles) && role in table
      ensures r.Success? ==> r.value == (userId, Name(role))
                             && userRoles == old(userRoles)[userId := WithoutRole(old(userRoles)[userId], role)]
    {
      var refusal := AdminRefusal(caller);
      if refusal.Some? {
        return Failure(refusal.value);
      }
      if userId !in userRoles {
        return Failure(Http(NOT_FOUND, USER_NOT_FOUND));
      }
      if role !in table {
        return Failure(Http(NOT_FOUND, ROLE_NOT_FOUND));
      }
      if role in userRoles[userId] {
        userRoles := userRoles[userId := WithoutRole(userRoles[userId], role)];
      }
      r := Success((userId, Name(role)));
    }

    /**
     * `set_roles_for_user`: the user's roles become exactly the wanted ones, which
     * must all exist; the answer lists the wanted names as given, duplicates kept.
     */
    method SetRolesForUser(caller: Result<Identity, Failure>, userId: int, csv: string) returns (r: Result<(int, seq<string>), Failure>)
      modifies this
      ensures table == old(table)
      ensures r.Failure? ==> userRoles == old(userRoles)
      ensures AdminRefusal(caller).Some? ==> r == Failure(AdminRefusal(caller).value)
      ensures AdminRefusal(caller).None? && userId !in old(userRoles) ==> r == Failure(Http(NOT_FOUND, USER_NOT_FOUND))
      ensures AdminRefusal(caller).None? && userId in old(userRoles) && Wanted(Requested(csv)).Failure? ==>
                r == Failure(Http(BAD_REQUEST, INVALID_ROLE_PREFIX + Wanted(Requested(csv)).error))
      ensures r.Success? <==> && AdminRefusal(caller).None? && userId in old(userRoles)
                              && Wanted(Requested(csv)).Success?
                              && forall x :: x in Wanted(Requested(csv)).value ==> x in table
      ensures (AdminRefusal(caller).None? && userId in old(userRoles) && Wanted(Requested(csv)).Success? && r.Failure?)
                ==> r == Failure(Http(BAD_REQUEST, MISSING_ROLES))
      ensures r.Success? ==>
                var wanted := Wanted(Requested(csv)).value;
                && r.value == (userId, Names(wanted))
                && userRoles.Keys == old(userRoles).Keys
                && (forall u :: u in userRoles && u != userId ==> userRoles[u] == old(userRoles)[u])
                && NoDuplicates(userRoles[userId])
                && forall x :: x in userRoles[userId] <==> x in wanted
    {
      var refusal := AdminRefusal(caller);
      if refusal.Some? {
        return Failure(refusal.value);
      }
      if userId !in userRoles {
        return Failure(Http(NOT_FOUND, USER_NOT_FOUND));
      }
      var parsed := ParseWanted(csv);
      if parsed.Failure? {
        return Failure(Http(BAD_REQUEST, INVALID_ROLE_PREFIX + parsed.error));
      }
      var wanted := parsed.value;
      var dbRoles := RowsFor(table, wanted);
      CountTest(table, wanted);
      if |dbRoles| != |set x | x in wanted| {
        return Failure(Http(BAD_REQUEST, MISSING_ROLES));
      }
      userRoles := userRoles[userId := dbRoles];
      r := Success((userId, Names(wanted)));
    }

    /** `get_user_roles`: the names of the user's roles, in their stored order. */
    function GetUserRoles(caller: Result<Identity, Failure>, userId: int): (r: Result<(int, seq<string>), Failure>)
      reads this
      ensures AdminRefusal(caller).Some? ==> r == Failure(AdminRefusal(caller).value)
      ensures AdminRefusal(caller).None? ==> (r.Success? <==> userId in userRoles)
      ensures AdminRefusal(caller).None? && userId !in userRoles ==> r == Failure(Http(NOT_FOUND, USER_NOT_FOUND))
      ensures r.Success? ==> r.value.0 == userId && |r.value.1| == |userRoles[userId]|
                             && forall i :: 0 <= i < |userRoles[userId]| ==> Parse(r.value.1[i]) == Some(userRoles[userId][i])
    {
      if AdminRefusal(caller).Some? then Failure(AdminRefusal(caller).value)
      else if userId !in userRoles then Failure(Http(NOT_FOUND, USER_NOT_FOUND))
      else
        var names := Names(userRoles[userId]);
        assert forall i :: 0 <= i < |names| ==> Parse(names[i]) == Some(userRoles[userId][i]) by {
          forall i | 0 <= i < |names| ensures Parse(names[i]) == Some(userRoles[userId][i]) {
            ParseName(userRoles[userId][i]);
          }
        }
        Success((userId, names))
    }
  }
}

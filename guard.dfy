/**
 * The role guard `is_granted(*allowed_roles)` of
 * src/security/guard/role_gard_decorator.py: it wraps an endpoint so that it
 * runs only for a user holding at least one of the allowed roles.
 */
module Guard {
  import opened Wrappers
  import opened Http
  import opened Roles
  import Text
  import opened CurrentUser

  const ACCESS_DENIED := "Accès refusé"

  /** What a guarded endpoint produces: a refusal, or the endpoint's own result. */
  datatype Guarded<R> = Refused(failure: Failure) | Invoked(result: R)

  /** `allowed_set`: the upper-cased names of the allowed roles. */
  function AllowedSet(allowed: seq<Role>): set<string> {
    set i | 0 <= i < |allowed| :: Text.Upper(Name(allowed[i]))
  }

  /** `user_roles`: the names of the identity's roles. */
  function UserRoleNames(user: Identity): set<string> {
    set r | r in user.roles :: Name(r)
  }

  /** The two name sets meet exactly when the user holds an allowed role. */
  lemma {:induction false} NamesMeet(allowed: seq<Role>, user: Identity)
    ensures UserRoleNames(user) !! AllowedSet(allowed) <==> forall r :: r in user.roles ==> r !in allowed
  {
    if !(UserRoleNames(user) !! AllowedSet(allowed)) {
      var n :| n in UserRoleNames(user) && n in AllowedSet(allowed);
      var r :| r in user.roles && Name(r) == n;
      var i :| 0 <= i < |allowed| && Text.Upper(Name(allowed[i])) == n;
      UpperName(allowed[i]);
      NameInjective(r, allowed[i]);
      assert r in allowed;
    }
    if exists r :: r in user.roles && r in allowed {
      var r :| r in user.roles && r in allowed;
      var i :| 0 <= i < |allowed| && allowed[i] == r;
      UpperName(r);
      assert Name(r) in UserRoleNames(user);
      assert Text.Upper(Name(allowed[i])) in AllowedSet(allowed);
    }
  }

  /**
   * The wrapper `is_granted(*allowed)(endpoint)` applied to `args`, given what
   * the `get_current_user` dependency produced: its failure is the answer; a
   * user with no allowed role is refused with a 403; otherwise the endpoint runs.
   */
  function IsGranted<A, R>(allowed: seq<Role>, user: Result<Identity, Failure>, endpoint: A -> R, args: A): (g: Guarded<R>)
    ensures user.Failure? ==> g == Refused(user.error)
    ensures user.Success? ==> (g.Invoked? <==> exists r :: r in user.value.roles && r in allowed)
    ensures user.Success? && g.Refused? ==> g.failure == Http(FORBIDDEN, ACCESS_DENIED)
    ensures g.Invoked? ==> g.result == endpoint(args)
  {
    if user.Failure? then Refused(user.error)
    else
      NamesMeet(allowed, user.value);
      if UserRoleNames(user.value) !! AllowedSet(allowed) then Refused(Http(FORBIDDEN, ACCESS_DENIED))
      else Invoked(endpoint(args))
  }

  /** Granting is monotone: more allowed roles, or more roles held, never turn access into a refusal. */
  lemma {:induction false} GrantMonotone<A, R>(allowed: seq<Role>, wider: seq<Role>, user: Identity, more: Identity, endpoint: A -> R, args: A)
    requires forall r :: r in allowed ==> r in wider
    requires user.roles <= more.roles
    requires IsGranted(allowed, Success(user), endpoint, args).Invoked?
    ensures IsGranted(wider, Success(more), endpoint, args).Invoked?
  {
    var r :| r in user.roles && r in allowed;
    assert r in more.roles && r in wider;
  }

  /** A user without roles is refused by every guard, and no user passes a guard that allows nothing. */
  lemma NothingGranted<A, R>(allowed: seq<Role>, user: Identity, endpoint: A -> R, args: A)
    requires user.roles == {} || allowed == []
    ensures IsGranted(allowed, Success(user), endpoint, args) == Refused(Http(FORBIDDEN, ACCESS_DENIED))
  {
  }

  /** `is_granted(RoleEnum.ADMIN)` lets a user through exactly when they hold ADMIN. */
  lemma AdminGuard<A, R>(user: Identity, endpoint: A -> R, args: A)
    ensures IsGranted([Admin], Success(user), endpoint, args).Invoked? <==> Admin in user.roles
  {
  }
}

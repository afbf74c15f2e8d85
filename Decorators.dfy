/** The access gate of app/decorators.py. `_check_perm` receives either one
    permission or a list/tuple of them; a list is checked element by element
    and the first permission the current user lacks aborts with 403. */
module Decorators {
  import opened Bits
  import opened Permissions
  import opened Models
  import opened Http

  /** The argument of `_check_perm`: a bare permission, or a list or tuple. */
  datatype PermissionSpec = Single(perm: nat) | AllOf(perms: seq<nat>)

  /** Whether the wrapped view runs, or the request aborts with a status. */
  datatype Gate = Proceed | Deny(status: nat)

  /** `@permission_required_eq(perm)`. */
  function PermissionRequiredEq(perm: nat): PermissionSpec
  {
    Single(perm)
  }

  /** `@permission_required_in(*perms)`: the tuple of all its arguments. */
  function PermissionRequiredIn(perms: seq<nat>): PermissionSpec
  {
    AllOf(perms)
  }

  /** `@admin_required`. */
  function AdminRequired(): PermissionSpec
  {
    Single(ADMIN)
  }

  /** The loop over a list: abort at the first permission not held. */
  function CheckEach(c: Principal, perms: seq<nat>): (g: Gate)
    reads if c.Authenticated? then {c.user, c.user.role} else {}
    ensures g == Proceed || g == Deny(403)
    ensures g == Proceed <==> forall i | 0 <= i < |perms| :: PrincipalCan(c, perms[i])
  {
    if perms == [] then Proceed
    else if !PrincipalCan(c, perms[0]) then Deny(403)
    else CheckEach(c, perms[1..])
  }

  /** `_check_perm`. */
  function CheckPerm(c: Principal, spec: PermissionSpec): (g: Gate)
    reads if c.Authenticated? then {c.user, c.user.role} else {}
    ensures g == Proceed || g == Deny(403)
    ensures spec.Single? ==> (g == Proceed <==> PrincipalCan(c, spec.perm))
    ensures spec.AllOf? ==> (g == Proceed <==> forall i | 0 <= i < |spec.perms| :: PrincipalCan(c, spec.perms[i]))
  {
    match spec
    case Single(p) => if PrincipalCan(c, p) then Proceed else Deny(403)
    case AllOf(ps) => CheckEach(c, ps)
  }

  /** A decorated view: the view's response when the check passes, the
      abort otherwise. */
  function Decorated(c: Principal, spec: PermissionSpec, view: Response): (r: Response)
    reads if c.Authenticated? then {c.user, c.user.role} else {}
  {
    match CheckPerm(c, spec)
    case Proceed => view
    case Deny(status) => Abort(status)
  }

  /** The view's response is returned exactly when the check does not abort;
      otherwise the request ends with 403. */
  lemma ViewRunsOnlyIfPermitted(c: Principal, spec: PermissionSpec, view: Response)
    ensures CheckPerm(c, spec) == Proceed ==> Decorated(c, spec, view) == view
    ensures CheckPerm(c, spec) != Proceed ==> Decorated(c, spec, view) == Abort(403)
  {
  }

  /** An empty list passes vacuously, even for the anonymous user. */
  lemma EmptyListPasses(c: Principal)
    ensures CheckPerm(c, PermissionRequiredIn([])) == Proceed
  {
  }

  /** A one-element list is the same check as the bare permission. */
  lemma SingletonListIsSingle(c: Principal, perm: nat)
    ensures CheckPerm(c, PermissionRequiredIn([perm])) == CheckPerm(c, PermissionRequiredEq(perm))
  {
  }

  /** `admin_required` is `permission_required_eq(Permission.ADMIN)`. */
  lemma AdminRequiredIsEqAdmin(c: Principal)
    ensures CheckPerm(c, AdminRequired()) == CheckPerm(c, PermissionRequiredEq(ADMIN))
    ensures CheckPerm(c, AdminRequired()) == Proceed <==> PrincipalIsAdministrator(c)
  {
  }

  /** `permission_required_in(a, b)` is a conjunction: both are needed. */
  lemma {:induction false} InIsConjunction(c: Principal, a: nat, b: nat)
    ensures CheckPerm(c, PermissionRequiredIn([a, b])) == Proceed <==> PrincipalCan(c, a) && PrincipalCan(c, b)
  {
    var ps := [a, b];
    if PrincipalCan(c, a) && PrincipalCan(c, b) {
      forall i | 0 <= i < |ps| ensures PrincipalCan(c, ps[i]) {
      }
    } else if !PrincipalCan(c, a) {
      assert !PrincipalCan(c, ps[0]);
    } else {
      assert !PrincipalCan(c, ps[1]);
    }
  }

  /** The check on a list is the conjunction of the checks on its parts. */
  lemma {:induction false} CheckEachAppend(c: Principal, xs: seq<nat>, ys: seq<nat>)
    ensures CheckEach(c, xs + ys) == Proceed <==> CheckEach(c, xs) == Proceed && CheckEach(c, ys) == Proceed
  {
    if CheckEach(c, xs + ys) == Proceed {
      forall i | 0 <= i < |xs| ensures PrincipalCan(c, xs[i]) {
        assert (xs + ys)[i] == xs[i];
      }
      forall i | 0 <= i < |ys| ensures PrincipalCan(c, ys[i]) {
        assert (xs + ys)[|xs| + i] == ys[i];
      }
    }
    if CheckEach(c, xs) == Proceed && CheckEach(c, ys) == Proceed {
      forall i | 0 <= i < |xs + ys| ensures PrincipalCan(c, (xs + ys)[i]) {
        if i < |xs| {
          assert (xs + ys)[i] == xs[i];
        } else {
          assert (xs + ys)[i] == ys[i - |xs|];
        }
      }
    }
  }

  /** With the seeded masks, the comment-moderation gate
      `permission_required_in(ADMIN, MODERATE)` admits the Administrator mask
      (31) and refuses the Moderator mask (15): it needs ADMIN as well. */
  lemma {:induction false} ModerationNeedsAdmin(u: User)
    requires u.role != null
    ensures u.role.permissions == 15 ==> CheckPerm(Authenticated(u), PermissionRequiredIn([ADMIN, MODERATE])) == Deny(403)
    ensures u.role.permissions == 31 ==> CheckPerm(Authenticated(u), PermissionRequiredIn([ADMIN, MODERATE])) == Proceed
  {
    InIsConjunction(Authenticated(u), ADMIN, MODERATE);
    CanFlag(u, 4);
    CanFlag(u, 3);
    assert ADMIN == Pow2(4) && MODERATE == Pow2(3);
    if u.role.permissions == 15 {
      assert !Bit(15, 4) by { assert Bit(15, 4) == Bit(0, 0); }
    }
    if u.role.permissions == 31 {
      assert Bit(31, 4) && Bit(31, 3);
    }
  }
}

/** The backend's role permissions (backend/users/permissions.py): each grants a request whose
    user is authenticated and holds one particular role. */
module Permissions {
  import opened Domain

  /** `request.user`: the anonymous user, or an authenticated user with its `role` field. */
  datatype RequestUser = Anonymous | Authenticated(role: string)

  datatype Permission = IsAdmin | IsHROfficer | IsEmployee

  /** The role each permission asks for. */
  function RequiredRole(p: Permission): string {
    match p
    case IsAdmin => ADMIN
    case IsHROfficer => HR
    case IsEmployee => EMPLOYEE
  }

  /** `has_permission`: `request.user.is_authenticated and request.user.role == <role>`. The
      `and` stops before reading `role`, which the anonymous user does not have. */
  predicate HasPermission(p: Permission, u: RequestUser) {
    u.Authenticated? && u.role == RequiredRole(p)
  }

  /** Each permission grants exactly the authenticated users with its role. */
  lemma {:induction false} GrantsExactlyItsRole(u: RequestUser)
    ensures HasPermission(IsAdmin, u) <==> u.Authenticated? && u.role == "ADMIN"
    ensures HasPermission(IsHROfficer, u) <==> u.Authenticated? && u.role == "HR"
    ensures HasPermission(IsEmployee, u) <==> u.Authenticated? && u.role == "EMPLOYEE"
  {
  }

  /** No permission grants an anonymous request. */
  lemma {:induction false} AnonymousDenied(p: Permission)
    ensures !HasPermission(p, Anonymous)
  {
  }

  /** An authenticated user whose role is one of `ROLE_CHOICES` is granted by exactly one
      permission; a role outside the choices is granted by none. */
  lemma {:induction false} ExactlyOneGrants(role: string)
    ensures IsRoleChoice(role) ==>
              exists p :: HasPermission(p, Authenticated(role))
                && forall q :: HasPermission(q, Authenticated(role)) ==> q == p
    ensures !IsRoleChoice(role) ==> forall p :: !HasPermission(p, Authenticated(role))
  {
    if role == ADMIN {
      assert HasPermission(IsAdmin, Authenticated(role));
    } else if role == HR {
      assert HasPermission(IsHROfficer, Authenticated(role));
    } else if role == EMPLOYEE {
      assert HasPermission(IsEmployee, Authenticated(role));
    }
  }
}

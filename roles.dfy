/**
 * The role guard: a handler (or its controller) may require roles; a request
 * passes when its user's role covers one of them, where `admin` covers both
 * roles and `user` only itself. Roles are the strings the request carries.
 */
module Roles {
  import opened Wrappers

  const AdminRole := "admin"
  const UserRole := "user"

  /** The authenticated user a request carries; `None` is an absent role property. */
  datatype User = User(role: Option<string>)

  /** The roles a role covers in the hierarchy; `None` for a role the table does not list. */
  function Covered(role: string): (r: Option<seq<string>>)
    ensures r.Some? <==> role == AdminRole || role == UserRole
  {
    if role == AdminRole then Some([AdminRole, UserRole])
    else if role == UserRole then Some([UserRole])
    else None
  }

  /**
   * The guard's verdict. `Fails` is the type error of calling `some` on the
   * missing hierarchy entry of a role outside the table.
   */
  datatype Verdict = Allow | Deny | Fails

  /** Whether some role of `covered` is among the required ones. */
  predicate AnyRequired(covered: seq<string>, required: seq<string>) {
    exists i :: 0 <= i < |covered| && covered[i] in required
  }

  /**
   * The guard: no required-roles metadata allows; a request without a user, or
   * whose user has no role or the empty role, is denied; otherwise the request
   * passes exactly when a role its role covers is required.
   */
  function CanActivate(required: Option<seq<string>>, user: Option<User>): (r: Verdict)
    ensures required.None? ==> r == Allow
    ensures required.Some? && (user.None? || user.value.role.None? || user.value.role.value == "") ==> r == Deny
    ensures required.Some? && user == Some(User(Some(AdminRole))) ==>
      (r == Allow <==> AdminRole in required.value || UserRole in required.value)
    ensures required.Some? && user == Some(User(Some(UserRole))) ==>
      (r == Allow <==> UserRole in required.value)
    ensures r == Fails <==> required.Some? && user.Some? && user.value.role.Some? && user.value.role.value != ""
                            && Covered(user.value.role.value).None?
  {
    match required
    case None => Allow
    case Some(roles) =>
      if user.None? || user.value.role.None? || user.value.role.value == "" then Deny
      else
        match Covered(user.value.role.value)
        case None => Fails
        case Some(covered) =>
          assert covered[0] in roles ==> AnyRequired(covered, roles);
          assert |covered| == 2 && covered[1] in roles ==> AnyRequired(covered, roles);
          if AnyRequired(covered, roles) then Allow else Deny
  }

  /** An empty requirement list denies every user that has a role in the table. */
  lemma EmptyRequirementDenies(role: string)
    requires Covered(role).Some?
    ensures CanActivate(Some([]), Some(User(Some(role)))) == Deny
  {
  }

  /** Whatever a plain user may reach, an admin may reach too. */
  lemma AdminDominatesUser(required: Option<seq<string>>)
    requires CanActivate(required, Some(User(Some(UserRole)))) == Allow
    ensures CanActivate(required, Some(User(Some(AdminRole)))) == Allow
  {
  }
}

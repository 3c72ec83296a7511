/** The three role permissions used by the API views: a request is allowed
    when its user is authenticated, carries a role, and that role is the one
    the permission names. */
module Permissions {
  import opened Common

  const ParentRole: string := "parent"
  const TeacherRole: string := "teacher"
  const OfficeStaffRole: string := "office_staff"

  /** `is_authenticated and hasattr(user, "role") and user.role == role`. */
  predicate HasRole(u: User, role: string) {
    u.isAuthenticated && u.role.Some? && u.role.value == role
  }

  predicate IsParent(u: User) { HasRole(u, ParentRole) }

  predicate IsTeacher(u: User) { HasRole(u, TeacherRole) }

  predicate IsOfficeStaff(u: User) { HasRole(u, OfficeStaffRole) }

  /** An anonymous user, or one without a role, passes none of the checks. */
  lemma NoRoleNoPermission(u: User)
    requires !u.isAuthenticated || u.role.None?
    ensures !IsParent(u) && !IsTeacher(u) && !IsOfficeStaff(u)
  {
  }

  /** The role literals are distinct, so no user passes two of the checks. */
  lemma PermissionsExclusive(u: User)
    ensures !(IsParent(u) && IsTeacher(u))
    ensures !(IsParent(u) && IsOfficeStaff(u))
    ensures !(IsTeacher(u) && IsOfficeStaff(u))
  {
  }
}

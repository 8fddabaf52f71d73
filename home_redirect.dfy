/**
 * `HomeRedirect`: once the session has loaded, send the visitor to the
 * login page, the admin home, the employee home or the welcome page,
 * according to the role.
 */
module HomeRedirect {
  import opened Wrappers
  import opened AuthUser

  const LoginPath: string := "/login"
  const AdminHome: string := "/admin/home"
  const EmployeeHome: string := "/employee/home"
  const Welcome: string := "/"

  /** Where the effect navigates, or None while the session is loading. */
  function Target(s: Session): (target: Option<string>)
    ensures target.None? <==> s.loading
    ensures target.Some? ==> target.value in {LoginPath, AdminHome, EmployeeHome, Welcome}
    ensures target == Some(LoginPath) <==> !s.loading && s.user.None?
    ensures target == Some(AdminHome) <==> !s.loading && s.user.Some? && s.user.value.role in {"OW", "AD"}
    ensures target == Some(EmployeeHome) <==> !s.loading && s.user.Some? && s.user.value.role == "EM"
    ensures target == Some(Welcome) <==> !s.loading && s.user.Some? && s.user.value.role !in {"OW", "AD", "EM"}
  {
    if s.loading then None
    else if s.user.None? then Some(LoginPath)
    else if IsManager(s.user.value) then Some(AdminHome)
    else if s.user.value.role == "EM" then Some(EmployeeHome)
    else Some(Welcome)
  }
}

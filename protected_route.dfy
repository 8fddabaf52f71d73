/**
 * The three route guards. Each shows a loading placeholder while the
 * session loads, then either renders the protected page or redirects to
 * the welcome page `/`.
 */
module ProtectedRoute {
  import opened Wrappers
  import opened AuthUser
  import HomeRedirect

  datatype Guard = Placeholder | Admit | RedirectHome

  /** `ProtectedRoute`: any signed-in user. */
  function Base(s: Session): (g: Guard)
    ensures s.loading <==> g.Placeholder?
    ensures g.Admit? <==> !s.loading && s.user.Some?
  {
    if s.loading then Placeholder
    else if s.user.Some? then Admit
    else RedirectHome
  }

  /** `ProtectedRouteAdmin`: owners and admins. */
  function Admin(s: Session): (g: Guard)
    ensures s.loading <==> g.Placeholder?
    ensures g.Admit? <==> !s.loading && s.user.Some? && s.user.value.role in {"OW", "AD"}
  {
    if s.loading then Placeholder
    else if s.user.Some? && IsManager(s.user.value) then Admit
    else RedirectHome
  }

  /** `ProtectedRouteEmployee`: employees. */
  function Employee(s: Session): (g: Guard)
    ensures s.loading <==> g.Placeholder?
    ensures g.Admit? <==> !s.loading && s.user.Some? && s.user.value.role == "EM"
  {
    if s.loading then Placeholder
    else if s.user.Some? && s.user.value.role == "EM" then Admit
    else RedirectHome
  }

  /** No session is admitted by both the admin and the employee guard. */
  lemma AdminAndEmployeeExclusive(s: Session)
    ensures !(Admin(s).Admit? && Employee(s).Admit?)
  {
  }

  /** Whoever the admin or employee guard admits, the base guard admits too. */
  lemma RoleGuardsImplyBase(s: Session)
    ensures Admin(s).Admit? ==> Base(s).Admit?
    ensures Employee(s).Admit? ==> Base(s).Admit?
  {
  }

  /** The guard the application puts in front of each home page. */
  function GuardFor(path: string, s: Session): Option<Guard> {
    if path == HomeRedirect.AdminHome then Some(Admin(s))
    else if path == HomeRedirect.EmployeeHome then Some(Employee(s))
    else None
  }

  /**
   * The home page `HomeRedirect` picks is one whose guard admits the same
   * session, so the redirect never bounces back to `/` from a home page.
   */
  lemma RedirectTargetIsAdmitted(s: Session)
    requires HomeRedirect.Target(s).Some?
    ensures var path := HomeRedirect.Target(s).value;
      GuardFor(path, s).Some? ==> GuardFor(path, s).value.Admit?
    ensures HomeRedirect.Target(s).value in {HomeRedirect.AdminHome, HomeRedirect.EmployeeHome} <==>
      Admin(s).Admit? || Employee(s).Admit?
  {
  }
}

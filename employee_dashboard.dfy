/**
 * The employee dashboard of the admin pages: the invitation form with its
 * e-mail shape check, the role-change buttons of the member action form and
 * the page's access check.
 */
module EmployeeDashboard {
  import opened Wrappers
  import opened AuthUser
  import ProtectedRoute

  /** The characters of the JavaScript regular-expression class `\s`. */
  predicate IsJsSpace(c: char) {
    ('\t' <= c <= '\r') || c == ' ' || c == '\U{a0}' || c == '\U{1680}' || ('\U{2000}' <= c <= '\U{200a}')
    || c == '\U{2028}' || c == '\U{2029}' || c == '\U{202f}' || c == '\U{205f}' || c == '\U{3000}'
    || c == '\U{feff}'
  }

  /** `[^\s@]+`. */
  predicate Run(s: string) {
    |s| > 0 && forall i :: 0 <= i < |s| ==> !IsJsSpace(s[i]) && s[i] != '@'
  }

  /** `/^[^\s@]+@[^\s@]+\.[^\s@]+$/` read as the language it denotes. */
  ghost predicate MatchesEmailRegex(s: string) {
    exists local, host, top :: Run(local) && Run(host) && Run(top) && s == local + "@" + host + "." + top
  }

  /**
   * `emailRegex.test(s)` as a check on the string: no whitespace, exactly
   * one `@` with at least one character before it, and after it a `.` with
   * at least one character on each side.
   */
  predicate IsEmailShape(s: string) {
    && (forall j :: 0 <= j < |s| ==> !IsJsSpace(s[j]))
    && exists i :: 0 < i < |s| && s[i] == '@'
         && (forall j :: 0 <= j < |s| && j != i ==> s[j] != '@')
         && (exists k :: i + 1 < k < |s| - 1 && s[k] == '.')
  }

  /** The check accepts exactly the strings the regular expression matches. */
  lemma EmailShapeIsRegex(s: string)
    ensures IsEmailShape(s) <==> MatchesEmailRegex(s)
  {
    if IsEmailShape(s) {
      ShapeMatchesRegex(s);
    }
    if MatchesEmailRegex(s) {
      var local, host, top :| Run(local) && Run(host) && Run(top) && s == local + "@" + host + "." + top;
      RegexMatchHasShape(s, local, host, top);
    }
  }

  lemma ShapeMatchesRegex(s: string)
    requires IsEmailShape(s)
    ensures MatchesEmailRegex(s)
  {
    var i :| 0 < i < |s| && s[i] == '@'
       && (forall j :: 0 <= j < |s| && j != i ==> s[j] != '@')
       && (exists k :: i + 1 < k < |s| - 1 && s[k] == '.');
    var k :| i + 1 < k < |s| - 1 && s[k] == '.';
    var local, host, top := s[..i], s[i + 1..k], s[k + 1..];
    assert Run(local) by {
      forall j | 0 <= j < |local| ensures !IsJsSpace(local[j]) && local[j] != '@' {
        assert local[j] == s[j];
      }
    }
    assert Run(host) by {
      forall j | 0 <= j < |host| ensures !IsJsSpace(host[j]) && host[j] != '@' {
        assert host[j] == s[i + 1 + j];
      }
    }
    assert Run(top) by {
      forall j | 0 <= j < |top| ensures !IsJsSpace(top[j]) && top[j] != '@' {
        assert top[j] == s[k + 1 + j];
      }
    }
    assert s == local + "@" + host + "." + top;
  }

  lemma RegexMatchHasShape(s: string, local: string, host: string, top: string)
    requires Run(local) && Run(host) && Run(top) && s == local + "@" + host + "." + top
    ensures IsEmailShape(s)
  {
    var i := |local|;
    var k := |local| + 1 + |host|;
    forall j | 0 <= j < |s| ensures !IsJsSpace(s[j]) && (j != i ==> s[j] != '@') {
      if j < i {
        assert s[j] == local[j];
      } else if i < j < k {
        assert s[j] == host[j - i - 1];
      } else if k < j {
        assert s[j] == top[j - k - 1];
      }
    }
    assert s[i] == '@' && s[k] == '.';
  }

  /** Every regex match has exactly one `@`, so it splits into one mailbox and one domain. */
  lemma {:induction false} EmailSplitIsUnique(s: string, l1: string, h1: string, t1: string, l2: string, h2: string, t2: string)
    requires Run(l1) && Run(h1 + "." + t1) && s == l1 + "@" + h1 + "." + t1
    requires Run(l2) && Run(h2 + "." + t2) && s == l2 + "@" + h2 + "." + t2
    ensures l1 == l2 && h1 + "." + t1 == h2 + "." + t2
  {
    var d1, d2 := h1 + "." + t1, h2 + "." + t2;
    assert s == l1 + "@" + d1 && s == l2 + "@" + d2;
    forall j | 0 <= j < |s| && j != |l1| ensures s[j] != '@' {
      if j < |l1| {
        assert s[j] == l1[j];
      } else {
        assert s[j] == d1[j - |l1| - 1];
      }
    }
    assert s[|l2|] == '@';
    assert l1 == s[..|l1|] && l2 == s[..|l2|];
    assert d1 == s[|l1| + 1..] && d2 == s[|l2| + 1..];
  }

  const InvalidEmail: string := "Please enter a valid email address."

  /** `CreateInviteForm`'s state and the invitations it has posted. */
  class InviteForm {
    var email: string
    var isValid: bool
    var errorMessage: string
    var posted: seq<string>

    /**
     * The flag agrees with the shape check once the field has been edited;
     * before any edit the field is empty and the flag is its initial true.
     */
    ghost predicate Valid()
      reads this
    {
      && (isValid ==> IsEmailShape(email) || email == "")
      && (!isValid ==> !IsEmailShape(email))
      && (errorMessage == "" || errorMessage == InvalidEmail)
      && forall e :: e in posted ==> IsEmailShape(e) || e == ""
    }

    constructor ()
      ensures email == "" && isValid && errorMessage == "" && posted == []
      ensures Valid()
    {
      email := "";
      isValid := true;
      errorMessage := "";
      posted := [];
    }

    /** `handleEmailChange`. */
    method HandleEmailChange(newEmail: string)
      requires Valid()
      modifies this
      ensures Valid()
      ensures email == newEmail && isValid == IsEmailShape(newEmail)
      ensures errorMessage == (if IsEmailShape(newEmail) then "" else InvalidEmail)
      ensures posted == old(posted)
    {
      email := newEmail;
      if IsEmailShape(newEmail) {
        isValid := true;
        errorMessage := "";
      } else {
        isValid := false;
        errorMessage := InvalidEmail;
      }
    }

    /**
     * The form's submit event. The input is `required`, has `type="email"`
     * and the regex as its `pattern`, so the browser blocks the event, and
     * `handleSubmit` never runs, unless the field is non-empty, matches the
     * regex and passes the browser's own e-mail check `browserEmail`.
     */
    method Submit(browserEmail: string -> bool)
      requires Valid()
      modifies this
      ensures Valid()
      ensures email != "" && IsEmailShape(email) && browserEmail(email) ==>
        posted == old(posted) + [email] && errorMessage == ""
      ensures !(email != "" && IsEmailShape(email) && browserEmail(email)) ==>
        posted == old(posted) && errorMessage == old(errorMessage)
      ensures email == old(email) && isValid == old(isValid)
    {
      if email != "" && IsEmailShape(email) && browserEmail(email) {
        HandleSubmit();
      }
    }

    /** `handleSubmit`: post the invitation only when the flag says the address is valid. */
    method HandleSubmit()
      requires Valid()
      modifies this
      ensures Valid()
      ensures old(isValid) ==> posted == old(posted) + [email] && errorMessage == ""
      ensures !old(isValid) ==> posted == old(posted) && errorMessage == InvalidEmail
      ensures email == old(email) && isValid == old(isValid)
    {
      if !isValid {
        errorMessage := InvalidEmail;
      } else {
        errorMessage := "";
        posted := posted + [email];
      }
    }
  }

  /**
   * An edit followed by a submit posts the edited address exactly when it
   * has the regex's shape and the browser accepts it as an e-mail address;
   * otherwise nothing is posted.
   */
  method EditThenSubmit(form: InviteForm, newEmail: string, browserEmail: string -> bool)
    requires form.Valid()
    modifies form
    ensures IsEmailShape(newEmail) && browserEmail(newEmail) <==> form.posted == old(form.posted) + [newEmail]
    ensures !(IsEmailShape(newEmail) && browserEmail(newEmail)) ==> form.posted == old(form.posted)
    ensures !IsEmailShape(newEmail) ==> form.errorMessage == InvalidEmail
  {
    form.HandleEmailChange(newEmail);
    form.Submit(browserEmail);
  }

  /** "TO ADMIN": the member is neither admin nor owner and the viewer is the owner. */
  predicate OffersToAdmin(memberRole: string, viewer: Option<User>) {
    memberRole != "AD" && memberRole != "OW" && viewer.Some? && viewer.value.role == "OW"
  }

  /** "TO EMPLOYEE": the member is neither employee nor owner and the viewer is the owner. */
  predicate OffersToEmployee(memberRole: string, viewer: Option<User>) {
    memberRole != "EM" && memberRole != "OW" && viewer.Some? && viewer.value.role == "OW"
  }

  /** "No Actions Available." */
  predicate ShowsNoActions(memberRole: string) {
    memberRole == "OW"
  }

  /**
   * An owner is never offered a role button and is shown "No Actions
   * Available."; only an owner viewer sees any button; each button changes
   * the role to one the member does not already have.
   */
  lemma RoleButtons(memberRole: string, viewer: Option<User>)
    ensures memberRole == "OW" ==>
      !OffersToAdmin(memberRole, viewer) && !OffersToEmployee(memberRole, viewer) && ShowsNoActions(memberRole)
    ensures viewer.None? || viewer.value.role != "OW" ==>
      !OffersToAdmin(memberRole, viewer) && !OffersToEmployee(memberRole, viewer)
    ensures OffersToAdmin(memberRole, viewer) && OffersToEmployee(memberRole, viewer) <==>
      memberRole !in {"AD", "EM", "OW"} && viewer.Some? && viewer.value.role == "OW"
  {
  }

  /** A role-change request: the member's user name and the new role. */
  datatype RoleRequest = RoleRequest(memberUsername: string, role: string)

  /** `MemberActionForm` for one member, with the role requests it has sent. */
  class MemberActionForm {
    const memberUsername: string
    const memberRole: string
    var selectedRole: string
    var sent: seq<RoleRequest>

    constructor (username: string, role: string)
      ensures memberUsername == username && memberRole == role
      ensures selectedRole == "EM" && sent == []
    {
      memberUsername := username;
      memberRole := role;
      selectedRole := "EM";
      sent := [];
    }

    /** `handleRoleChange`: send a request only when the role actually changes. */
    method HandleRoleChange(newRole: string)
      modifies this
      ensures newRole != memberRole ==>
        selectedRole == newRole && sent == old(sent) + [RoleRequest(memberUsername, newRole)]
      ensures newRole == memberRole ==> selectedRole == old(selectedRole) && sent == old(sent)
    {
      if newRole != memberRole {
        selectedRole := newRole;
        sent := sent + [RoleRequest(memberUsername, newRole)];
      }
    }
  }

  /** Pressing a button the form offers always sends a request. */
  method PressOfferedButton(form: MemberActionForm, viewer: Option<User>, toAdmin: bool)
    requires if toAdmin then OffersToAdmin(form.memberRole, viewer) else OffersToEmployee(form.memberRole, viewer)
    modifies form
    ensures |form.sent| == |old(form.sent)| + 1
    ensures form.sent[|form.sent| - 1].role == (if toAdmin then "AD" else "EM")
  {
    form.HandleRoleChange(if toAdmin then "AD" else "EM");
  }

  datatype DashboardView = Loading | PleaseLogIn | PermissionDenied | Dashboard

  /** `EmployeeDashboard`'s access check. */
  function View(s: Session): (v: DashboardView)
    ensures v == Dashboard <==> !s.loading && s.user.Some? && s.user.value.role in {"OW", "AD"}
    ensures v == PleaseLogIn <==> !s.loading && s.user.None?
    ensures v == Loading <==> s.loading
  {
    if s.loading then Loading
    else if s.user.None? then PleaseLogIn
    else if s.user.value.role != "OW" && s.user.value.role != "AD" then PermissionDenied
    else Dashboard
  }

  /** The dashboard's own check admits exactly whom the admin route guard in front of it admits. */
  lemma ViewAgreesWithAdminGuard(s: Session)
    ensures View(s) == Dashboard <==> ProtectedRoute.Admin(s).Admit?
  {
  }
}

/**
 * The role permissions of the organisation API. Each permission looks up
 * the first member row of the requesting user's authentication profile and
 * tests its role code: `OW` owner, `AD` admin, `EM` employee (the database
 * also knows `SU`, suspended, which no permission admits).
 */
module Permissions {
  import opened Wrappers

  datatype MemberRow = MemberRow(profile: string, role: string)

  /** The first member row is the one at index `i`. */
  predicate FirstRowAt(members: seq<MemberRow>, profile: string, i: int) {
    0 <= i < |members| && members[i].profile == profile &&
    forall j :: 0 <= j < i ==> members[j].profile != profile
  }

  /** `Member.objects(auth_profile=...).first()`. */
  function FirstMember(members: seq<MemberRow>, profile: string): (r: Option<MemberRow>)
    ensures r.None? <==> forall i :: 0 <= i < |members| ==> members[i].profile != profile
    ensures r.Some? ==> exists i :: FirstRowAt(members, profile, i) && members[i] == r.value
  {
    if members == [] then None
    else if members[0].profile == profile then
      assert FirstRowAt(members, profile, 0);
      Some(members[0])
    else
      var r := FirstMember(members[1..], profile);
      if r.Some? then
        var i :| FirstRowAt(members[1..], profile, i) && members[1..][i] == r.value;
        assert FirstRowAt(members, profile, i + 1);
        r
      else r
  }

  /** The first row is unique: two indices that are both the first row are equal. */
  lemma FirstRowIsUnique(members: seq<MemberRow>, profile: string, i: int, k: int)
    requires FirstRowAt(members, profile, i) && FirstRowAt(members, profile, k)
    ensures i == k
  {
  }

  /** `member and member.role == code`. */
  predicate HasRole(members: seq<MemberRow>, profile: string, code: string) {
    var m := FirstMember(members, profile);
    m.Some? && m.value.role == code
  }

  /** `IsOwner.has_permission`. */
  predicate IsOwner(members: seq<MemberRow>, profile: string) {
    HasRole(members, profile, "OW")
  }

  /** `IsAdmin.has_permission`. */
  predicate IsAdmin(members: seq<MemberRow>, profile: string) {
    HasRole(members, profile, "AD")
  }

  /** `IsEmployee.has_permission`. */
  predicate IsEmployee(members: seq<MemberRow>, profile: string) {
    HasRole(members, profile, "EM")
  }

  /** `IsOwnerOrAdmin.has_permission`. */
  predicate IsOwnerOrAdmin(members: seq<MemberRow>, profile: string) {
    var m := FirstMember(members, profile);
    m.Some? && (m.value.role == "OW" || m.value.role == "AD")
  }

  /**
   * A permission holds exactly when the user's first member row carries
   * its role code; later rows of the same user are never consulted.
   */
  lemma {:induction false} HasRoleIffFirstRow(members: seq<MemberRow>, profile: string, code: string)
    ensures HasRole(members, profile, code) <==>
      exists i :: FirstRowAt(members, profile, i) && members[i].role == code
  {
    if HasRole(members, profile, code) {
      var i :| FirstRowAt(members, profile, i) && members[i] == FirstMember(members, profile).value;
    }
    if exists i :: FirstRowAt(members, profile, i) && members[i].role == code {
      var i :| FirstRowAt(members, profile, i) && members[i].role == code;
      var k :| FirstRowAt(members, profile, k) && members[k] == FirstMember(members, profile).value;
      FirstRowIsUnique(members, profile, i, k);
    }
  }

  /** Rows appended after the user's first row change no permission. */
  lemma {:induction false} OnlyFirstRowMatters(members: seq<MemberRow>, later: seq<MemberRow>, profile: string)
    requires exists i :: 0 <= i < |members| && members[i].profile == profile
    ensures FirstMember(members + later, profile) == FirstMember(members, profile)
  {
    if members[0].profile != profile {
      assert (members + later)[1..] == members[1..] + later;
      var i :| 0 <= i < |members| && members[i].profile == profile;
      assert members[1..][i - 1].profile == profile;
      OnlyFirstRowMatters(members[1..], later, profile);
    }
  }

  /** `IsOwnerOrAdmin` is `IsOwner or IsAdmin`. */
  lemma OwnerOrAdminIsEither(members: seq<MemberRow>, profile: string)
    ensures IsOwnerOrAdmin(members, profile) <==> IsOwner(members, profile) || IsAdmin(members, profile)
  {
  }

  /** A user with no member row has no permission at all. */
  lemma NoRowNoPermission(members: seq<MemberRow>, profile: string)
    requires forall i :: 0 <= i < |members| ==> members[i].profile != profile
    ensures !IsOwner(members, profile) && !IsAdmin(members, profile)
    ensures !IsEmployee(members, profile) && !IsOwnerOrAdmin(members, profile)
  {
  }

  /** At most one of owner, admin and employee holds for any user. */
  lemma RolesExclusive(members: seq<MemberRow>, profile: string)
    ensures !(IsOwner(members, profile) && IsAdmin(members, profile))
    ensures !(IsOwner(members, profile) && IsEmployee(members, profile))
    ensures !(IsAdmin(members, profile) && IsEmployee(members, profile))
  {
  }

  /** A suspended (`SU`) first row is admitted by no permission. */
  lemma SuspendedHasNoPermission(members: seq<MemberRow>, profile: string)
    requires FirstMember(members, profile).Some? && FirstMember(members, profile).value.role == "SU"
    ensures !IsOwner(members, profile) && !IsAdmin(members, profile)
    ensures !IsEmployee(members, profile) && !IsOwnerOrAdmin(members, profile)
  {
  }
}

/**
 * The organisation views: create an organisation with its owner, delete an
 * organisation, create a member, accept an invitation token and invite a
 * member. Each view
 * saves, creates or deletes records one after another with no transaction,
 * so a later failure leaves the earlier writes in place. An exception the
 * view does not catch becomes a 500 response.
 *
 * Organisation ids are the database's auto-increment integers; the caller
 * supplies a fresh one, and a fresh invitation token.
 */
module OrgViews {
  import opened Wrappers
  import opened OrgSerializers
  import opened Decimal
  import opened Sequences
  import Routing

  datatype Organization = Organization(id: nat, name: string)
  datatype Member = Member(firstName: string, lastName: string, email: string, role: Option<string>, orgId: nat)
  datatype Invitation = Invitation(email: Option<string>, token: string, orgId: nat)

  datatype Body =
    | Message(text: string)
    | SerializerErrors             // the serializer's `errors` dictionary
    | MemberOut(member: Member)    // the serializer's `data` for a saved member
    | Raised(exception: string)    // an uncaught exception, answered with 500

  datatype Reply = Reply(status: int, body: Body)

  function Uncaught(exception: string): Reply {
    Reply(500, Raised(exception))
  }

  /** The first organisation with the given id. */
  function FindOrg(orgs: seq<Organization>, id: nat): (r: Option<Organization>)
    ensures r.None? <==> forall i :: 0 <= i < |orgs| ==> orgs[i].id != id
    ensures r.Some? ==> r.value in orgs && r.value.id == id
  {
    if orgs == [] then None
    else if orgs[0].id == id then Some(orgs[0])
    else FindOrg(orgs[1..], id)
  }

  /** The first organisation whose id, written in decimal, is `text`. */
  function FindOrgByText(orgs: seq<Organization>, text: string): (r: Option<Organization>)
    ensures r.None? <==> forall i :: 0 <= i < |orgs| ==> DecimalText(orgs[i].id) != text
    ensures r.Some? ==> r.value in orgs && DecimalText(r.value.id) == text
  {
    if orgs == [] then None
    else if DecimalText(orgs[0].id) == text then Some(orgs[0])
    else FindOrgByText(orgs[1..], text)
  }

  /** The data `create_organization` gives `MemberSerializer` for the owner. */
  function OwnerPayload(firstName: Option<string>, lastName: Option<string>, email: Option<string>, orgId: nat): MemberInput {
    MemberInput(FromRequest(firstName), FromRequest(lastName), FromRequest(email),
                Int(orgId), Text("OW"), Absent)
  }

  /** `request.data.get(key)`: a missing key reads as None. */
  function FromRequest(value: Option<string>): Field {
    if value.Some? then Text(value.value) else Null
  }

  /**
   * The owner payload has no `password`, which `MemberSerializer` requires,
   * so it never validates: whatever the request holds, the owner is never
   * created.
   */
  lemma OwnerPayloadNeverValid(firstName: Option<string>, lastName: Option<string>, email: Option<string>,
                               orgId: nat, isEmail: string -> bool)
    ensures ValidateMember(OwnerPayload(firstName, lastName, email, orgId), isEmail).None?
  {
  }

  /**
   * Tokens are unique within a store whose every member and invitation
   * refers to an existing organisation and whose organisation ids are
   * unique.
   */
  ghost predicate Consistent(orgs: seq<Organization>, members: seq<Member>, invitations: seq<Invitation>) {
    && (forall i, j :: 0 <= i < j < |orgs| ==> orgs[i].id != orgs[j].id)
    && (forall m :: m in members ==> FindOrg(orgs, m.orgId).Some?)
    && (forall v :: v in invitations ==> FindOrg(orgs, v.orgId).Some?)
    && (forall i, j :: 0 <= i < j < |invitations| ==> invitations[i].token != invitations[j].token)
  }

  /** An id value a request carries: missing, a boolean, an integer or text. */
  datatype RequestId = NoId | BoolId(b: bool) | IntId(i: int) | TextId(s: string)

  /** What the id lookup makes of the value: no id, a number, or text it cannot read. */
  datatype IdLookup = IdNone | IdIs(n: int) | IdUnreadable

  /**
   * `get(id=request_id)`: None matches no row; a boolean is the integer
   * 1 or 0; text goes through `asInt`.
   */
  function LookupId(request: RequestId, asInt: string -> Option<int>): IdLookup {
    match request
    case NoId => IdNone
    case BoolId(b) => IdIs(if b then 1 else 0)
    case IntId(i) => IdIs(i)
    case TextId(s) => if asInt(s).Some? then IdIs(asInt(s).value) else IdUnreadable
  }

  /** `f"{request_id}"`: Python's text for the value. */
  function Echo(request: RequestId): string {
    match request
    case NoId => "None"
    case BoolId(b) => if b then "True" else "False"
    case IntId(i) => DecimalText(i)
    case TextId(s) => s
  }

  /** Some stored member already has the address. */
  predicate EmailTaken(members: seq<Member>, email: string) {
    exists m :: m in members && m.email == email
  }

  /** No two stored members share an address, as the unique `email` column demands. */
  predicate UniqueEmails(members: seq<Member>) {
    forall i, j :: 0 <= i < j < |members| ==> members[i].email != members[j].email
  }

  function WithToken(invitations: seq<Invitation>, token: string): (r: seq<Invitation>)
    ensures forall v :: v in r <==> v in invitations && v.token == token
  {
    Filter(invitations, (v: Invitation) => v.token == token)
  }

  /** The store without organisation `id`: `Organization.delete()` with its cascades. */
  function DropOrg(orgs: seq<Organization>, id: nat): seq<Organization> {
    Filter(orgs, (o: Organization) => o.id != id)
  }

  function DropMembers(members: seq<Member>, id: nat): seq<Member> {
    Filter(members, (m: Member) => m.orgId != id)
  }

  function DropInvitations(invitations: seq<Invitation>, id: nat): seq<Invitation> {
    Filter(invitations, (v: Invitation) => v.orgId != id)
  }

  /** With unique tokens, at most one invitation carries a given token. */
  lemma {:induction false} UniqueTokenMatchesOnce(invitations: seq<Invitation>, k: nat)
    requires forall i, j :: 0 <= i < j < |invitations| ==> invitations[i].token != invitations[j].token
    requires k < |invitations|
    ensures WithToken(invitations, invitations[k].token) == [invitations[k]]
  {
    var token := invitations[k].token;
    if k == 0 {
      assert forall v :: v in invitations[1..] ==> v.token != token;
      FilterDropsAll(invitations[1..], token);
    } else {
      UniqueTokenMatchesOnce(invitations[1..], k - 1);
      assert invitations[1..][k - 1] == invitations[k];
    }
  }

  lemma {:induction false} FilterDropsAll(invitations: seq<Invitation>, token: string)
    requires forall v :: v in invitations ==> v.token != token
    ensures WithToken(invitations, token) == []
  {
    var r := WithToken(invitations, token);
    assert forall i :: 0 <= i < |r| ==> r[i] in r;
  }

  class OrgStore {
    var organizations: seq<Organization>
    var members: seq<Member>
    var invitations: seq<Invitation>

    ghost predicate Valid()
      reads this
    {
      Consistent(organizations, members, invitations)
    }

    function OrgIds(): set<nat>
      reads this
    {
      set o | o in organizations :: o.id
    }

    function Tokens(): set<string>
      reads this
    {
      set v | v in invitations :: v.token
    }

    constructor ()
      ensures organizations == [] && members == [] && invitations == []
      ensures Valid()
    {
      organizations := [];
      members := [];
      invitations := [];
    }

    /**
     * `MemberSerializer.create`: look the organisation up (it raises when
     * there is none), then save the member with the role `data.get('role')`.
     * The member table's `email` column is unique, so saving a second
     * member with a stored address raises IntegrityError.
     */
    method SaveMember(data: MemberData) returns (r: Result)
      requires !data.role.Rejected?
      modifies this
      ensures FindOrgByText(organizations, data.organization).None? ==>
        r == Failed("DoesNotExist") && members == old(members)
      ensures FindOrgByText(organizations, data.organization).Some? && EmailTaken(old(members), data.email) ==>
        r == Failed("IntegrityError") && members == old(members)
      ensures FindOrgByText(organizations, data.organization).Some? && !EmailTaken(old(members), data.email) ==>
        var m := Member(data.firstName, data.lastName, data.email, StoredRole(data),
                        FindOrgByText(organizations, data.organization).value.id);
        r == Saved(m) && members == old(members) + [m]
      ensures organizations == old(organizations) && invitations == old(invitations)
      ensures old(Valid()) ==> Valid()
      ensures UniqueEmails(old(members)) ==> UniqueEmails(members)
    {
      var org := FindOrgByText(organizations, data.organization);
      if org.None? {
        return Failed("DoesNotExist");
      }
      if EmailTaken(members, data.email) {
        return Failed("IntegrityError");
      }
      var m := Member(data.firstName, data.lastName, data.email, StoredRole(data), org.value.id);
      FoundByTextExists(organizations, data.organization);
      members := members + [m];
      r := Saved(m);
    }

    /**
     * `InviteMemberSerializer.create`: look the organisation up (it raises
     * when there is none), then save an invitation with a fresh token.
     */
    method SaveInvitation(data: InviteData, token: string) returns (r: Option<Invitation>)
      requires token !in Tokens() && Valid()
      modifies this
      ensures Valid()
      ensures FindOrgByText(organizations, data.organizationId).None? ==> r.None? && unchanged(this)
      ensures FindOrgByText(organizations, data.organizationId).Some? ==>
        var v := Invitation(Some(data.email), token, FindOrgByText(organizations, data.organizationId).value.id);
        r == Some(v) && invitations == old(invitations) + [v]
      ensures organizations == old(organizations) && members == old(members)
    {
      var org := FindOrgByText(organizations, data.organizationId);
      if org.None? {
        return None;
      }
      FoundByTextExists(organizations, data.organizationId);
      var v := Invitation(Some(data.email), token, org.value.id);
      invitations := invitations + [v];
      assert Valid() by {
        forall i, j | 0 <= i < j < |invitations| ensures invitations[i].token != invitations[j].token {
          if j == |invitations| - 1 {
            assert invitations[i] in old(invitations);
          }
        }
      }
      r := Some(v);
    }

    /**
     * `create_organization`. `validateMember` is `MemberSerializer.is_valid`
     * (see `ValidateMember`); `freshId` is the new organisation's id.
     */
    method CreateOrganization(name: Option<string>, firstName: Option<string>, lastName: Option<string>,
                              email: Option<string>, freshId: nat,
                              validateMember: MemberInput -> Option<MemberData>) returns (r: Reply)
      requires freshId !in OrgIds()
      requires forall input :: validateMember(input).Some? ==> !validateMember(input).value.role.Rejected?
      requires Valid()
      modifies this
      ensures Valid()
      ensures ValidateOrganization(FromRequest(name)).None? ==>
        r == Reply(400, SerializerErrors) && unchanged(this)
      ensures ValidateOrganization(FromRequest(name)).Some? ==>
        && organizations == old(organizations) + [Organization(freshId, ValidateOrganization(FromRequest(name)).value)]
        && invitations == old(invitations)
      ensures ValidateOrganization(FromRequest(name)).Some? &&
              validateMember(OwnerPayload(firstName, lastName, email, freshId)).None? ==>
        r == Reply(400, SerializerErrors) && members == old(members)
      ensures ValidateOrganization(FromRequest(name)).Some? &&
              validateMember(OwnerPayload(firstName, lastName, email, freshId)).Some? ==>
        var data := validateMember(OwnerPayload(firstName, lastName, email, freshId)).value;
        if FindOrgByText(organizations, data.organization).None? then
          r == Uncaught("DoesNotExist") && members == old(members)
        else if EmailTaken(old(members), data.email) then
          r == Uncaught("IntegrityError") && members == old(members)
        else
          var m := Member(data.firstName, data.lastName, data.email, StoredRole(data),
                          FindOrgByText(organizations, data.organization).value.id);
          r == Reply(201, MemberOut(m)) && members == old(members) + [m]
    {
      var orgName := ValidateOrganization(FromRequest(name));
      if orgName.None? {
        return Reply(400, SerializerErrors);
      }
      AddOrgPreservesConsistency(organizations, members, invitations, Organization(freshId, orgName.value));
      organizations := organizations + [Organization(freshId, orgName.value)];
      var data := validateMember(OwnerPayload(firstName, lastName, email, freshId));
      if data.None? {
        return Reply(400, SerializerErrors);
      }
      var saved := SaveMember(data.value);
      if saved.Failed? {
        return Uncaught(saved.exception);
      }
      FoundByTextExists(organizations, data.value.organization);
      r := Reply(201, MemberOut(saved.member));
    }

    /**
     * `create_member`: the posted member is validated with `MemberSerializer`
     * and saved. An invalid member gives 400; a member of an organisation
     * that does not exist raises DoesNotExist in `create`.
     */
    method CreateMember(input: MemberInput, isEmail: string -> bool) returns (r: Reply)
      requires Valid()
      modifies this
      ensures Valid()
      ensures organizations == old(organizations) && invitations == old(invitations)
      ensures ValidateMember(input, isEmail).None? ==> r == Reply(400, SerializerErrors) && members == old(members)
      ensures ValidateMember(input, isEmail).Some? ==>
        var data := ValidateMember(input, isEmail).value;
        if FindOrgByText(organizations, data.organization).None? then
          r == Uncaught("DoesNotExist") && members == old(members)
        else if EmailTaken(old(members), data.email) then
          r == Uncaught("IntegrityError") && members == old(members)
        else
          var m := Member(data.firstName, data.lastName, data.email, StoredRole(data),
                          FindOrgByText(organizations, data.organization).value.id);
          r == Reply(201, MemberOut(m)) && members == old(members) + [m]
      ensures UniqueEmails(old(members)) ==> UniqueEmails(members)
      ensures r.status == 201 ==> r.body.MemberOut? && (r.body.member.role.None? || r.body.member.role.value in RoleCodes)
    {
      var data := ValidateMember(input, isEmail);
      if data.None? {
        return Reply(400, SerializerErrors);
      }
      ValidatedRoleIsACode(input, isEmail);
      var saved := SaveMember(data.value);
      if saved.Failed? {
        return Uncaught(saved.exception);
      }
      r := Reply(201, MemberOut(saved.member));
    }

    /**
     * `delete_organization`. `request` is the request's `id` value, which the
     * reply echoes as `f"{request_id}"`. `asInt` is how the id lookup turns
     * text into an integer (Python's `int`), None where it raises
     * ValueError. `Organization.objects.get` raises DoesNotExist unless an
     * organisation has the id, and deleting it cascades to its members and
     * invitations.
     */
    method DeleteOrganization(request: RequestId, asInt: string -> Option<int>) returns (r: Reply)
      requires Valid()
      modifies this
      ensures Valid()
      ensures LookupId(request, asInt) == IdUnreadable ==> r == Uncaught("ValueError") && unchanged(this)
      ensures LookupId(request, asInt) == IdNone || (LookupId(request, asInt).IdIs? && !old(Stored(LookupId(request, asInt).n))) ==>
        r == Uncaught("DoesNotExist") && unchanged(this)
      ensures LookupId(request, asInt).IdIs? && old(Stored(LookupId(request, asInt).n)) ==>
        var id := LookupId(request, asInt).n as nat;
        && r == Reply(201, Message(Echo(request) + " deleted successfully!"))
        && organizations == DropOrg(old(organizations), id)
        && members == DropMembers(old(members), id)
        && invitations == DropInvitations(old(invitations), id)
        && id !in OrgIds()
    {
      var lookup := LookupId(request, asInt);
      if lookup.IdUnreadable? {
        return Uncaught("ValueError");
      }
      if lookup.IdNone? || lookup.n < 0 || FindOrg(organizations, lookup.n as nat).None? {
        return Uncaught("DoesNotExist");
      }
      var id := lookup.n as nat;
      assert FindOrg(organizations, id).value in organizations;
      var before := organizations;
      organizations := DropOrg(organizations, id);
      members := DropMembers(members, id);
      invitations := DropInvitations(invitations, id);
      DeletePreservesConsistency(before, old(members), old(invitations), id);
      r := Reply(201, Message(Echo(request) + " deleted successfully!"));
    }

    /** Some organisation has the id. */
    predicate Stored(n: int)
      reads this
    {
      0 <= n && n as nat in OrgIds()
    }

    /**
     * `create_member_by_token`: 400 when no invitation has the token, 202
     * with a welcome naming the invitation's e-mail and organisation when
     * exactly one has it; more than one raises. It creates no member.
     */
    function CreateMemberByToken(token: string): (r: Reply)
      reads this
      ensures r.status == 400 <==> token !in Tokens()
      ensures r.status == 202 ==> |WithToken(invitations, token)| == 1
      ensures Valid() && token in Tokens() ==> r.status == 202
    {
      var found := WithToken(invitations, token);
      assert Valid() && token in Tokens() ==> |found| == 1 && FindOrg(organizations, found[0].orgId).Some? by {
        if Valid() && token in Tokens() {
          var k :| 0 <= k < |invitations| && invitations[k].token == token;
          UniqueTokenMatchesOnce(invitations, k);
          assert invitations[k] in invitations;
        }
      }
      if |found| == 0 then
        assert forall v :: v in invitations ==> v.token != token;
        Reply(400, Message("Invalid invitation token."))
      else if |found| > 1 then
        assert found[0] in found;
        Uncaught("MultipleObjectsReturned")
      else
        assert found[0] in found;
        var org := FindOrg(organizations, found[0].orgId);
        if org.None? then Uncaught("DoesNotExist")
        else
          var email := if found[0].email.Some? then found[0].email.value else "None";
          Reply(202, Message("Success! Welcome " + email + " to " + org.value.name))
    }

    /**
     * `invite_member`. `token` is `generate_invite_token()`'s fresh uuid;
     * `orgId` is the request's `organization_id` value, which
     * `Organization.objects.get` reads as `delete_organization` reads its
     * id: text through `asInt` (ValueError where it cannot), and
     * DoesNotExist unless an organisation has the number. No mail is sent:
     * the token is returned in the response.
     */
    method InviteMember(email: Option<string>, orgId: RequestId, asInt: string -> Option<int>, token: string)
      returns (r: Reply)
      requires token !in Tokens()
      requires Valid()
      modifies this
      ensures Valid()
      ensures LookupId(orgId, asInt) == IdUnreadable ==> r == Uncaught("ValueError") && unchanged(this)
      ensures LookupId(orgId, asInt) == IdNone || (LookupId(orgId, asInt).IdIs? && !old(Stored(LookupId(orgId, asInt).n))) ==>
        r == Uncaught("DoesNotExist") && unchanged(this)
      ensures LookupId(orgId, asInt).IdIs? && old(Stored(LookupId(orgId, asInt).n)) ==>
        && r == Reply(200, Message(token))
        && invitations == old(invitations) + [Invitation(email, token, LookupId(orgId, asInt).n as nat)]
        && organizations == old(organizations) && members == old(members)
        && CreateMemberByToken(token).status == 202
    {
      var lookup := LookupId(orgId, asInt);
      if lookup.IdUnreadable? {
        return Uncaught("ValueError");
      }
      if lookup.IdNone? || lookup.n < 0 || FindOrg(organizations, lookup.n as nat).None? {
        return Uncaught("DoesNotExist");
      }
      var org := FindOrg(organizations, lookup.n as nat).value;
      var v := Invitation(email, token, org.id);
      invitations := invitations + [v];
      assert invitations[|invitations| - 1] == v;
      assert Valid() by {
        forall i, j | 0 <= i < j < |invitations| ensures invitations[i].token != invitations[j].token {
          if j == |invitations| - 1 {
            assert invitations[i] in old(invitations);
          }
        }
      }
      UniqueTokenMatchesOnce(invitations, |invitations| - 1);
      r := Reply(200, Message(token));
    }
  }

  datatype Result = Saved(member: Member) | Failed(exception: string)

  /**
   * `create_organization` with the real `MemberSerializer`: a valid name
   * saves the organisation, the owner then fails validation, and the view
   * answers 400 with the organisation left in the store without any member.
   */
  method CreateOrganizationLeavesOrphan(store: OrgStore, name: string, firstName: Option<string>,
                                        lastName: Option<string>, email: Option<string>, freshId: nat,
                                        isEmail: string -> bool) returns (r: Reply)
    requires freshId !in store.OrgIds() && store.Valid()
    requires ValidateOrganization(Text(name)).Some?
    modifies store
    ensures r == Reply(400, SerializerErrors)
    ensures store.organizations == old(store.organizations) + [Organization(freshId, ValidateOrganization(Text(name)).value)]
    ensures store.members == old(store.members) && store.Valid()
    ensures forall m :: m in store.members ==> m.orgId != freshId
  {
    OwnerPayloadNeverValid(firstName, lastName, email, freshId, isEmail);
    ghost var before := store.members;
    assert forall m :: m in before ==> FindOrg(old(store.organizations), m.orgId).Some?;
    r := store.CreateOrganization(Some(name), firstName, lastName, email, freshId,
                                  (input: MemberInput) => ValidateMember(input, isEmail));
  }

  /** Appending an organisation keeps every earlier one findable. */
  lemma {:induction false} FindOrgAppend(orgs: seq<Organization>, o: Organization, id: nat)
    requires FindOrg(orgs, id).Some?
    ensures FindOrg(orgs + [o], id).Some?
  {
    if orgs[0].id != id {
      assert (orgs + [o])[1..] == orgs[1..] + [o];
      FindOrgAppend(orgs[1..], o, id);
    }
  }

  /** Saving an organisation with a fresh id keeps the store consistent. */
  lemma AddOrgPreservesConsistency(orgs: seq<Organization>, members: seq<Member>, invitations: seq<Invitation>,
                                   o: Organization)
    requires Consistent(orgs, members, invitations)
    requires forall i :: 0 <= i < |orgs| ==> orgs[i].id != o.id
    ensures Consistent(orgs + [o], members, invitations)
  {
    forall id | FindOrg(orgs, id).Some? ensures FindOrg(orgs + [o], id).Some? {
      FindOrgAppend(orgs, o, id);
    }
  }

  /** An organisation found by its decimal id exists. */
  lemma FoundByTextExists(orgs: seq<Organization>, text: string)
    ensures FindOrgByText(orgs, text).Some? ==> FindOrg(orgs, FindOrgByText(orgs, text).value.id).Some?
  {
    if FindOrgByText(orgs, text).Some? {
      var o := FindOrgByText(orgs, text).value;
      var i :| 0 <= i < |orgs| && orgs[i] == o;
    }
  }

  /** Deleting an organisation with its members and invitations keeps the store consistent. */
  lemma DeletePreservesConsistency(orgs: seq<Organization>, members: seq<Member>, invitations: seq<Invitation>, id: nat)
    requires Consistent(orgs, members, invitations)
    ensures Consistent(DropOrg(orgs, id), DropMembers(members, id), DropInvitations(invitations, id))
  {
    var orgs' := DropOrg(orgs, id);
    var invitations' := DropInvitations(invitations, id);
    forall other | other != id && FindOrg(orgs, other).Some? ensures FindOrg(orgs', other).Some? {
      var o := FindOrg(orgs, other).value;
      assert o in orgs';
    }
    SubsequenceKeepsDistinct(orgs', orgs);
    SubsequenceKeepsDistinctTokens(invitations', invitations);
  }

  lemma {:induction false} SubsequenceKeepsDistinct(sub: seq<Organization>, s: seq<Organization>)
    requires IsSubsequence(sub, s)
    requires forall i, j :: 0 <= i < j < |s| ==> s[i].id != s[j].id
    ensures forall i, j :: 0 <= i < j < |sub| ==> sub[i].id != sub[j].id
    decreases |s|
  {
    if sub != [] {
      if sub[0] == s[0] {
        SubsequenceKeepsDistinct(sub[1..], s[1..]);
        SubsequenceMembers(sub[1..], s[1..]);
        forall j | 0 < j < |sub| ensures sub[0].id != sub[j].id {
          assert sub[j] == sub[1..][j - 1] && sub[j] in s[1..];
          var k :| 0 <= k < |s[1..]| && s[1..][k] == sub[j];
          assert s[k + 1] == sub[j];
        }
      } else {
        SubsequenceKeepsDistinct(sub, s[1..]);
      }
    }
  }

  lemma {:induction false} SubsequenceKeepsDistinctTokens(sub: seq<Invitation>, s: seq<Invitation>)
    requires IsSubsequence(sub, s)
    requires forall i, j :: 0 <= i < j < |s| ==> s[i].token != s[j].token
    ensures forall i, j :: 0 <= i < j < |sub| ==> sub[i].token != sub[j].token
    decreases |s|
  {
    if sub != [] {
      if sub[0] == s[0] {
        SubsequenceKeepsDistinctTokens(sub[1..], s[1..]);
        SubsequenceMembers(sub[1..], s[1..]);
        forall j | 0 < j < |sub| ensures sub[0].token != sub[j].token {
          assert sub[j] == sub[1..][j - 1] && sub[j] in s[1..];
          var k :| 0 <= k < |s[1..]| && s[1..][k] == sub[j];
          assert s[k + 1] == sub[j];
        }
      } else {
        SubsequenceKeepsDistinctTokens(sub, s[1..]);
      }
    }
  }

  lemma {:induction false} SubsequenceMembers<T>(sub: seq<T>, s: seq<T>)
    requires IsSubsequence(sub, s)
    ensures forall x :: x in sub ==> x in s
    decreases |s|
  {
    if sub != [] {
      if sub[0] == s[0] {
        SubsequenceMembers(sub[1..], s[1..]);
        assert forall x :: x in sub ==> x == sub[0] || x in sub[1..];
      } else {
        SubsequenceMembers(sub, s[1..]);
      }
    }
  }

  /**
   * `generate_invite_token`: `str(uuid.uuid4())` built from 16 random bytes.
   * Byte 6 gets the version 4 in its high nibble and byte 8 the variant bits
   * `10`; the bytes are written as lower-case hexadecimal in the 8-4-4-4-12
   * layout.
   */
  function GenerateInviteToken(bytes: seq<nat>): (token: string)
    requires |bytes| == 16 && forall i :: 0 <= i < 16 ==> bytes[i] < 256
    ensures Routing.IsUuidText(token)
    ensures token[14] == '4' && token[19] in "89ab"
    ensures forall i :: 0 <= i < |token| ==> token[i] in "0123456789abcdef-"
  {
    seq(36, i requires 0 <= i < 36 =>
      if Routing.IsHyphenPosition(i) then '-' else HexChar(Nibble(bytes, DigitIndex(i))))
  }

  /** The hexadecimal digit a text position holds, skipping the hyphens. */
  function DigitIndex(i: nat): (k: nat)
    requires i < 36 && !Routing.IsHyphenPosition(i)
    ensures k < 32
    ensures i == 14 ==> k == 12
    ensures i == 19 ==> k == 16
  {
    if i < 8 then i else if i < 13 then i - 1 else if i < 18 then i - 2 else if i < 23 then i - 3 else i - 4
  }

  /** Hexadecimal digit `k` of the uuid: the high or low nibble of byte `k / 2`, with version and variant set. */
  function Nibble(bytes: seq<nat>, k: nat): (d: nat)
    requires |bytes| == 16 && k < 32
    ensures d < 16
    ensures k == 12 ==> d == 4
    ensures k == 16 ==> 8 <= d <= 11
  {
    var b := bytes[k / 2];
    var byte := if k / 2 == 6 then b % 16 + 0x40 else if k / 2 == 8 then b % 64 + 0x80 else b % 256;
    if k % 2 == 0 then byte / 16 % 16 else byte % 16
  }

  function HexChar(d: nat): (c: char)
    requires d < 16
    ensures Routing.IsHexDigit(c) && c in "0123456789abcdef"
    ensures d == 4 ==> c == '4'
    ensures 8 <= d <= 11 ==> c in "89ab"
  {
    "0123456789abcdef"[d]
  }
}

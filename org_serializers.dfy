/**
 * The organisation serializers' validation rules: Django REST framework's
 * `CharField` and `EmailField` checks applied field by field, and
 * `MemberSerializer.validate_role`. A serializer is valid when every field
 * is; the e-mail format check is a caller-supplied predicate.
 */
module OrgSerializers {
  import opened Wrappers
  import opened Decimal

  /** A value submitted for one serializer field. */
  datatype Field =
    | Absent              // the key is not in the data
    | Null                // the key maps to None
    | Text(s: string)
    | Int(n: int)         // an integer, which `CharField` turns into its decimal text
    | Other               // a boolean, list or dict, which `CharField` rejects

  /** What a field's validation produces. */
  datatype Clean =
    | Skip                // optional and absent: the field is left out of the validated data
    | Value(v: Option<string>)
    | Rejected

  /** The options a `CharField` is declared with. */
  datatype CharRules = CharRules(required: bool, allowNull: bool, allowBlank: bool, maxLength: Option<nat>)

  function Plain(maxLength: nat): CharRules {
    CharRules(true, false, false, Some(maxLength))
  }

  /** The characters Python's `str.strip()` removes (`str.isspace`). */
  predicate IsPySpace(c: char) {
    c == ' ' || ('\t' <= c <= '\r') || ('\U{1c}' <= c <= '\U{1f}') || c == '\U{85}' || c == '\U{a0}'
    || c == '\U{1680}' || ('\U{2000}' <= c <= '\U{200a}') || c == '\U{2028}' || c == '\U{2029}'
    || c == '\U{202f}' || c == '\U{205f}' || c == '\U{3000}'
  }

  /** The number of leading whitespace characters. */
  function LeadingSpace(s: string): (n: nat)
    ensures n <= |s|
    ensures forall i :: 0 <= i < n ==> IsPySpace(s[i])
    ensures n < |s| ==> !IsPySpace(s[n])
  {
    if s == [] || !IsPySpace(s[0]) then 0 else 1 + LeadingSpace(s[1..])
  }

  /** The number of trailing whitespace characters. */
  function TrailingSpace(s: string): (n: nat)
    ensures n <= |s|
    ensures forall i :: |s| - n <= i < |s| ==> IsPySpace(s[i])
    ensures n < |s| ==> !IsPySpace(s[|s| - n - 1])
  {
    if s == [] || !IsPySpace(s[|s| - 1]) then 0 else 1 + TrailingSpace(s[..|s| - 1])
  }

  /** `s.strip()`. */
  function Strip(s: string): string {
    var a := LeadingSpace(s);
    var t := s[a..];
    t[..|t| - TrailingSpace(t)]
  }

  /**
   * `strip()` returns a slice of its input that neither begins nor ends
   * with whitespace, and removes only whitespace around it.
   */
  lemma StripIsTrimmedSlice(s: string)
    ensures var r := Strip(s);
      && r != [] ==> !IsPySpace(r[0]) && !IsPySpace(r[|r| - 1])
    ensures exists a, b :: (0 <= a <= b <= |s| && Strip(s) == s[a..b]
      && (forall i :: 0 <= i < a ==> IsPySpace(s[i]))
      && (forall i :: b <= i < |s| ==> IsPySpace(s[i])))
  {
    var a := LeadingSpace(s);
    var t := s[a..];
    var k := TrailingSpace(t);
    var b := |s| - k;
    assert Strip(s) == s[a..b];
    forall i | b <= i < |s| ensures IsPySpace(s[i]) {
      assert s[i] == t[i - a];
    }
    if Strip(s) != [] {
      assert Strip(s)[0] == t[0];
      assert Strip(s)[|Strip(s)| - 1] == t[|t| - k - 1];
    }
  }

  /** `strip()` is idempotent. */
  lemma StripIdempotent(s: string)
    ensures Strip(Strip(s)) == Strip(s)
  {
    var r := Strip(s);
    StripIsTrimmedSlice(s);
    if r == [] {
    } else {
      assert LeadingSpace(r) == 0;
      assert r[0..] == r;
      assert TrailingSpace(r) == 0;
      assert r[..|r|] == r;
    }
  }

  /**
   * `CharField.run_validation` with its validators: an absent value is
   * skipped or required; null is allowed or not; text whose stripped form is
   * empty is blank; otherwise the stripped text must fit `max_length` and
   * must not contain NUL.
   */
  function CleanChar(f: Field, rules: CharRules): (r: Clean)
    ensures r.Skip? <==> f.Absent? && !rules.required
    ensures r == Value(None) <==> f.Null? && rules.allowNull
    ensures f.Text? ==> (r.Value? <==>
      var t := Strip(f.s);
      (t == "" ==> rules.allowBlank) &&
      (rules.maxLength.Some? ==> |t| <= rules.maxLength.value) &&
      '\0' !in t)
    ensures f.Int? ==> (r.Value? <==>
      rules.maxLength.None? || |DecimalText(f.n)| <= rules.maxLength.value)
    ensures r.Value? && r.v.Some? ==>
      (f.Text? && r.v.value == Strip(f.s)) || (f.Int? && r.v.value == DecimalText(f.n))
    ensures f.Other? ==> r.Rejected?
  {
    match f
    case Absent => if rules.required then Rejected else Skip
    case Null => if rules.allowNull then Value(None) else Rejected
    case Text(s) =>
      if Strip(s) == "" then
        if rules.allowBlank then Value(Some("")) else Rejected
      else CheckText(Strip(s), rules)
    case Int(n) => CheckText(DecimalText(n), rules)
    case Other => Rejected
  }

  /** The `max_length` and NUL-character validators. */
  function CheckText(t: string, rules: CharRules): (r: Clean)
    ensures r.Value? <==> (rules.maxLength.Some? ==> |t| <= rules.maxLength.value) && '\0' !in t
    ensures r.Value? ==> r.v == Some(t)
    ensures r.Value? || r.Rejected?
  {
    if rules.maxLength.Some? && |t| > rules.maxLength.value then Rejected
    else if '\0' in t then Rejected
    else Value(Some(t))
  }

  /** `EmailField(max_length=m)`: a `CharField` plus the e-mail validator. */
  function CleanEmail(f: Field, maxLength: nat, isEmail: string -> bool): (r: Clean)
    ensures r.Value? ==> exists t :: CleanChar(f, Plain(maxLength)) == Value(Some(t)) && isEmail(t)
    ensures r.Rejected? <==> !CleanChar(f, Plain(maxLength)).Value? || !isEmail(CleanChar(f, Plain(maxLength)).v.value)
  {
    var c := CleanChar(f, Plain(maxLength));
    if c.Value? && isEmail(c.v.value) then c else Rejected
  }

  /** `OrganizationSerializer`: `name = CharField(max_length=255)`. */
  function ValidateOrganization(name: Field): (r: Option<string>)
    ensures r.Some? <==> CleanChar(name, Plain(255)).Value?
    ensures r.Some? ==> 1 <= |r.value| <= 255 && r.value == CleanChar(name, Plain(255)).v.value
  {
    var c := CleanChar(name, Plain(255));
    if c.Value? then Some(c.v.value) else None
  }

  /** A value as Python sees it in a membership test against `Roles.choices`. */
  datatype PyValue = PyStr(s: string) | PyPair(first: string, second: string)

  /** `Roles.choices`: the (code, label) pairs of the roles. */
  const RoleChoices: seq<PyValue> := [PyPair("EM", "Employee"), PyPair("AD", "Admin"), PyPair("OW", "Owner")]

  /** `Roles.values`: the role codes. */
  const RoleCodes: seq<string> := ["EM", "AD", "OW"]

  /** `validate_role` as written: `value is not None and value not in Roles.choices` rejects. */
  function ValidateRoleAsWritten(value: Option<string>): (accepted: bool)
    ensures accepted <==> value.None?
  {
    value.None? || PyStr(value.value) in RoleChoices
  }

  /** A string never equals a (code, label) pair, so every role code is rejected. */
  lemma AsWrittenRejectsEveryRole(code: string)
    ensures !ValidateRoleAsWritten(Some(code))
    ensures !ValidateRoleAsWritten(Some("OW")) && !ValidateRoleAsWritten(Some("AD")) && !ValidateRoleAsWritten(Some("EM"))
  {
  }

  /** `validate_role` as evidently intended: None or one of the role codes. */
  function ValidateRole(value: Option<string>): (accepted: bool)
    ensures accepted <==> value.None? || value.value in {"EM", "AD", "OW"}
  {
    value.None? || value.value in RoleCodes
  }

  /** The data `MemberSerializer` receives. */
  datatype MemberInput = MemberInput(firstName: Field, lastName: Field, email: Field,
                                     organization: Field, role: Field, password: Field)

  /** The validated data: the role is left out when absent. */
  datatype MemberData = MemberData(firstName: string, lastName: string, email: string,
                                   organization: string, role: Clean, password: string)

  /**
   * `MemberSerializer.is_valid()`: every declared field validates and the
   * role, when present, passes `validate_role` (as intended).
   */
  function ValidateMember(input: MemberInput, isEmail: string -> bool): (r: Option<MemberData>)
    ensures r.Some? ==>
      && CleanChar(input.firstName, Plain(255)) == Value(Some(r.value.firstName))
      && CleanChar(input.lastName, Plain(255)) == Value(Some(r.value.lastName))
      && CleanEmail(input.email, 255, isEmail) == Value(Some(r.value.email))
      && CleanChar(input.organization, Plain(255)) == Value(Some(r.value.organization))
      && CleanChar(input.password, CharRules(true, false, false, None)) == Value(Some(r.value.password))
      && r.value.role == CleanChar(input.role, RoleRules)
      && !r.value.role.Rejected?
      && (r.value.role.Value? ==> ValidateRole(r.value.role.v))
    ensures r.Some? <==>
      && CleanChar(input.firstName, Plain(255)).Value?
      && CleanChar(input.lastName, Plain(255)).Value?
      && CleanEmail(input.email, 255, isEmail).Value?
      && CleanChar(input.organization, Plain(255)).Value?
      && CleanChar(input.password, CharRules(true, false, false, None)).Value?
      && !CleanChar(input.role, RoleRules).Rejected?
      && (CleanChar(input.role, RoleRules).Value? ==> ValidateRole(CleanChar(input.role, RoleRules).v))
    ensures input.password.Absent? || input.firstName.Null? || input.lastName.Null? ==> r.None?
  {
    var first := CleanChar(input.firstName, Plain(255));
    var last := CleanChar(input.lastName, Plain(255));
    var email := CleanEmail(input.email, 255, isEmail);
    var org := CleanChar(input.organization, Plain(255));
    var role := CleanChar(input.role, RoleRules);
    var password := CleanChar(input.password, CharRules(true, false, false, None));
    if first.Value? && last.Value? && email.Value? && org.Value? && password.Value?
       && !role.Rejected? && (role.Value? ==> ValidateRole(role.v))
    then
      Some(MemberData(first.v.value, last.v.value, email.v.value, org.v.value, role, password.v.value))
    else None
  }

  /** `role = CharField(max_length=2, allow_blank=True, allow_null=True, required=False)`. */
  const RoleRules: CharRules := CharRules(false, true, true, Some(2))

  /** `data.get('role', None)`: an absent or null role is stored as None. */
  function StoredRole(data: MemberData): (role: Option<string>)
    requires !data.role.Rejected?
    ensures role.None? <==> data.role.Skip? || data.role == Value(None)
    ensures role.Some? ==> data.role == Value(role)
  {
    match data.role
    case Value(v) => v
    case _ => None
  }

  /** With the intended `validate_role`, a member is stored with no role, or with a real role code. */
  lemma {:induction false} ValidatedRoleIsACode(input: MemberInput, isEmail: string -> bool)
    requires ValidateMember(input, isEmail).Some?
    ensures var role := StoredRole(ValidateMember(input, isEmail).value);
      role.None? || role.value in RoleCodes
    ensures input.role.Absent? || input.role.Null? ==> StoredRole(ValidateMember(input, isEmail).value).None?
  {
    var data := ValidateMember(input, isEmail).value;
    assert data.role == CleanChar(input.role, RoleRules);
  }

  /** The data `InviteMemberSerializer` validates. */
  datatype InviteData = InviteData(email: string, organizationId: string)

  /** `InviteMemberSerializer`: `email = EmailField(max_length=255)`, `organization_id = CharField(max_length=24)`. */
  function ValidateInvite(email: Field, organizationId: Field, isEmail: string -> bool): (r: Option<InviteData>)
    ensures r.Some? ==> |r.value.organizationId| <= 24 && |r.value.email| <= 255 && isEmail(r.value.email)
    ensures r.Some? <==> CleanEmail(email, 255, isEmail).Value? && CleanChar(organizationId, Plain(24)).Value?
  {
    var e := CleanEmail(email, 255, isEmail);
    var o := CleanChar(organizationId, Plain(24));
    if e.Value? && o.Value? then Some(InviteData(e.v.value, o.v.value)) else None
  }
}

/** The field rules of each organization endpoint. */
module OrganizationValidator {
  import opened JsValues
  import opened FieldRules

  /** The roles `isIn` accepts; there is no MEMBER role. */
  const Roles: seq<string> := ["ADMIN", "AGENT"]

  /** `trim().isLength({ min: 3, max: 20 }).notEmpty().escape()`: the checks
      run before escaping. */
  predicate Name(san: Sanitizers, v: Value)
  {
    var s := san.trim(ToText(v));
    3 <= |s| <= 20 && NotEmpty(s)
  }

  predicate Role(v: Value)
  {
    NotEmpty(ToText(v)) && ToText(v) in Roles
  }

  predicate CreateOrganization(san: Sanitizers, body: Body)
  {
    Name(san, Field(body, "name"))
  }

  predicate AddMember(body: Body)
  {
    && IntField(Field(body, "org_id"))
    && IntField(Field(body, "user_id"))
    && Role(Field(body, "role"))
  }

  predicate GetUserOrganizations(body: Body)
  {
    IntField(Field(body, "user_id"))
  }

  predicate ChangeUserRole(body: Body)
  {
    && IntField(Field(body, "user_id"))
    && IntField(Field(body, "org_id"))
    && Role(Field(body, "role"))
  }

  /** A name is accepted exactly when its trimmed length is between 3 and 20,
      and the escape sanitizer plays no part in the decision. */
  lemma NameBounds(san: Sanitizers, other: Sanitizers, v: Value)
    requires other.trim == san.trim
    ensures Name(san, v) <==> 3 <= |san.trim(ToText(v))| <= 20
    ensures Name(san, v) == Name(other, v)
  {
  }

  /** The role check accepts exactly ADMIN and AGENT, given as strings. */
  lemma RoleAcceptsExactlyTwo(v: Value)
    ensures Role(v) <==> v == Str("ADMIN") || v == Str("AGENT")
  {
    if Role(v) {
      OnlyStringsSpellWords(v, ToText(v));
    }
  }

  /** The code has no MEMBER role: MEMBER is refused on both endpoints
      that take a role. */
  lemma MemberRoleRefused(body: Body)
    requires Field(body, "role") == Str("MEMBER")
    ensures !AddMember(body) && !ChangeUserRole(body)
  {
  }

  /** Integer ids given as numbers that print in plain decimal always pass. */
  lemma NumericIdsAccepted(body: Body, user: int, org: int)
    requires PrintsPlain(user) && PrintsPlain(org)
    requires Field(body, "user_id") == Num(user) && Field(body, "org_id") == Num(org)
    requires Field(body, "role") == Str("AGENT")
    ensures AddMember(body) && ChangeUserRole(body) && GetUserOrganizations(body)
  {
    NumberIsIntField(user);
    NumberIsIntField(org);
  }
}

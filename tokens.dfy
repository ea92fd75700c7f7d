/**
 * The profile token (utils/tokenUtils.js): a payload whose fields depend on whether the
 * holder is a vendor, signed for one day. Signing itself is a parameter.
 */
module Tokens {
  import opened Basics

  /** A vendor's contact block. */
  datatype Contact = Contact(email: Option<string>, phone: Option<string>)

  /**
   * The fields `generateJWT` reads from the record it is handed, which is a user or a
   * vendor; a field the record lacks is `None`.
   */
  datatype Subject = Subject(
    id: Id,
    name: Option<string>,
    dpUrl: Option<string>,
    email: Option<string>,
    phone: Option<string>,
    isAppliedForVendor: Option<bool>,
    logoUrl: Option<string>,
    contact: Option<Contact>)

  /**
   * The token payload. `isAppliedForVendor` is `None` when the key is left out and
   * `Some(v)` when the key is there with the (possibly absent) value `v`.
   */
  datatype Payload = Payload(
    userId: Id,
    name: Option<string>,
    role: string,
    dpUrl: Option<string>,
    email: Option<string>,
    phone: Option<string>,
    isAppliedForVendor: Option<Option<bool>>)

  /** What a token carries: a profile payload, or the three login claims of routes/auth.js. */
  datatype Claims = ProfileClaims(payload: Payload) | LoginClaims(userId: Id, email: string, role: string)

  /** A signer with its secret: the token for the claims and lifetime, or nothing when signing fails. */
  type Signer = (Claims, string) -> Option<string>

  datatype TokenError =
    | MissingContact          // a vendor record without `contact`: reading its email fails
    | CouldNotGenerateToken   // 'Could not generate token'

  const ProfileLifetime: string := "1d"

  predicate IsVendor(role: Option<string>) {
    role == Some("vendor")
  }

  /** The role written into the payload: the given one, or 'user' when it is absent or empty. */
  function RoleClaim(role: Option<string>): (r: string)
    ensures r != ""
    ensures role.Some? && role.value != "" ==> r == role.value
    ensures role.None? || role == Some("") ==> r == "user"
  {
    if role.None? || role.value == "" then "user" else role.value
  }

  /** The payload `generateJWT` builds for `subject` under `role`. */
  function BuildPayload(subject: Subject, role: Option<string>): (r: Result<Payload, TokenError>)
    ensures r.Err? <==> IsVendor(role) && subject.contact.None?
    ensures r.Ok? ==> r.value.userId == subject.id && r.value.name == subject.name
    ensures r.Ok? ==> r.value.role == RoleClaim(role)
    ensures r.Ok? && IsVendor(role) ==>
      && r.value.dpUrl == subject.logoUrl
      && r.value.email == subject.contact.value.email
      && r.value.phone == subject.contact.value.phone
      && r.value.isAppliedForVendor.None?
    ensures r.Ok? && !IsVendor(role) ==>
      && r.value.dpUrl == subject.dpUrl
      && r.value.email == subject.email
      && r.value.phone == subject.phone
      && r.value.isAppliedForVendor == Some(subject.isAppliedForVendor)
  {
    if IsVendor(role) then
      match subject.contact
      case None => Err(MissingContact)
      case Some(c) => Ok(Payload(subject.id, subject.name, "vendor", subject.logoUrl, c.email, c.phone, None))
    else
      Ok(Payload(subject.id, subject.name, RoleClaim(role), subject.dpUrl, subject.email, subject.phone,
                 Some(subject.isAppliedForVendor)))
  }

  /** A payload leaves out `isAppliedForVendor` exactly when it names the holder a vendor. */
  lemma PayloadVendorShape(subject: Subject, role: Option<string>)
    requires BuildPayload(subject, role).Ok?
    ensures var p := BuildPayload(subject, role).value;
      p.isAppliedForVendor.None? <==> p.role == "vendor"
  {
  }

  /** Only a vendor token can fail before signing; any other role always yields a payload. */
  lemma NonVendorAlwaysBuilds(subject: Subject, role: Option<string>)
    requires !IsVendor(role)
    ensures BuildPayload(subject, role).Ok?
  {
  }

  /** `generateJWT`: the signed one-day token for the payload. */
  function GenerateJwt(subject: Subject, role: Option<string>, sign: Signer): (r: Result<string, TokenError>)
    ensures BuildPayload(subject, role).Err? ==> r == Err(MissingContact)
    ensures BuildPayload(subject, role).Ok? ==>
      var signed := sign(ProfileClaims(BuildPayload(subject, role).value), ProfileLifetime);
      && (signed.None? <==> r == Err(CouldNotGenerateToken))
      && (signed.Some? ==> r == Ok(signed.value))
  {
    match BuildPayload(subject, role)
    case Err(e) => Err(e)
    case Ok(payload) =>
      match sign(ProfileClaims(payload), ProfileLifetime)
      case None => Err(CouldNotGenerateToken)
      case Some(token) => Ok(token)
  }
}

/** The backend's `token_required` guard: reading the bearer token and finding its user. */
module Auth {
  import opened Common
  import opened Text
  import opened Users

  /** Why a request is turned away; every denial is answered with status 401. */
  datatype Denial = Denial(status: int, message: string)

  const Prefix := "Bearer "

  /** The token in an Authorization header: exactly the seven characters of "Bearer "
      are removed when the header starts with them; any other header is the token as is. */
  function BearerToken(header: string): (token: string)
    ensures StartsWith(header, Prefix) ==> Prefix + token == header
    ensures !StartsWith(header, Prefix) ==> token == header
  {
    if StartsWith(header, Prefix) then header[7..] else header
  }

  /** The header the client builds, `Bearer ${token}`, yields its token back. */
  lemma BearerRoundTrip(token: string)
    ensures BearerToken(Prefix + token) == token
  {
  }

  /** token_required: the current user, or the 401 denial. `emailClaim` stands for
      `jwt.decode(...)['email']`: None when decoding raises or the claim is absent. */
  function Authenticate(header: Option<string>, emailClaim: string -> Option<string>, users: map<string, User>)
    : (r: Result<User, Denial>)
    ensures r.Failure? ==> r.error.status == 401
    ensures header.None? || header == Some("") ==> r == Failure(Denial(401, "Token is missing"))
    ensures r.Success? <==>
      header.Some? && header.value != "" && emailClaim(BearerToken(header.value)).Some?
      && emailClaim(BearerToken(header.value)).value in users
    ensures r.Success? ==> r.value == users[emailClaim(BearerToken(header.value)).value]
  {
    if header.None? || header.value == "" then Failure(Denial(401, "Token is missing"))
    else
      match emailClaim(BearerToken(header.value))
      case None => Failure(Denial(401, "Token is invalid"))
      case Some(email) =>
        if email in users then Success(users[email]) else Failure(Denial(401, "User not found"))
  }

  /** A client that sends `Bearer ${token}` for a token naming a registered e-mail is
      let through as that user. */
  lemma ClientHeaderAuthenticates(token: string, emailClaim: string -> Option<string>, users: map<string, User>)
    requires emailClaim(token).Some? && emailClaim(token).value in users
    ensures Authenticate(Some(Prefix + token), emailClaim, users) == Success(users[emailClaim(token).value])
  {
    BearerRoundTrip(token);
  }

  /** On a table whose rows sit under their own e-mails, the user let through is the one
      whose e-mail the token carries, as `filter_by(email=data['email'])` selects. */
  lemma AuthenticatedCarriesClaim(header: Option<string>, emailClaim: string -> Option<string>, users: map<string, User>)
    requires KeyedByEmail(users)
    ensures Authenticate(header, emailClaim, users).Success? ==>
      Authenticate(header, emailClaim, users).value.email == emailClaim(BearerToken(header.value)).value
  {
  }
}

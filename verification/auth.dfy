/** Access tokens: the claim set `create_access_token` signs and the way
    `get_current_user` turns a bearer token back into a caller. HS256 and
    the JWT wire format are abstract: a token carries its header algorithm,
    its claims and a symbolic MAC that only the signing key reproduces. */
module Auth {
  import opened Http
  import opened Wrappers
  import PyInt

  /** The module-level configuration of the source; the signing key is a
      parameter throughout. */
  const Algorithm: string := "HS256"
  const AccessTokenExpireMinutes: nat := 30
  const AccessTokenExpireSeconds: nat := AccessTokenExpireMinutes * 60

  /** A JSON claim value, as PyJWT hands it back. */
  datatype Value = Str(s: string) | Num(n: int) | Null

  type Claims = map<string, Value>

  /** The caller `get_current_user` produces; `role` is any string. */
  datatype User = User(id: int, role: string)

  /** An HMAC over the header algorithm and claims under a key; two MACs are
      equal only for the same algorithm, claims and key. */
  datatype Mac = Hmac(alg: string, claims: Claims, key: string)

  datatype Token =
    | Jwt(alg: string, claims: Claims, signature: Mac)
    | Garbage(text: string)  // anything that does not parse as a JWT

  /** `jwt.encode(claims, key, algorithm=ALGORITHM)`: only the same key
      decodes the token, and then to the claims it was made from. */
  function Encode(claims: Claims, key: string): (t: Token)
    ensures forall other, now :: other != key ==> Decode(t, other, now) == Failed(InvalidSignature)
    ensures forall now :: Decode(t, key, now).Payload? ==> Decode(t, key, now).claims == claims
    ensures "exp" !in claims ==> forall now :: Decode(t, key, now) == Payload(claims)
  {
    Jwt(Algorithm, claims, Hmac(Algorithm, claims, key))
  }

  /** The PyJWTError subclasses `jwt.decode` can raise. */
  datatype DecodeError = DecodeFailed | InvalidAlgorithm | InvalidSignature | ExpiredSignature

  datatype Decoded = Payload(claims: Claims) | Failed(reason: DecodeError)

  /** `jwt.decode(token, key, algorithms=[ALGORITHM])` at unix time `now`:
      the header algorithm must be HS256, the MAC must be the key's, and an
      `exp` claim must be an integer later than `now`. */
  function Decode(token: Token, key: string, now: int): (d: Decoded)
    ensures d.Payload? ==> token.Jwt? && d.claims == token.claims
    ensures d.Payload? <==>
      && token.Jwt?
      && token.alg == Algorithm
      && token.signature == Hmac(token.alg, token.claims, key)
      && ("exp" in token.claims ==> token.claims["exp"].Num? && now < token.claims["exp"].n)
  {
    match token
    case Garbage(_) => Failed(DecodeFailed)
    case Jwt(alg, claims, signature) =>
      if alg != Algorithm then Failed(InvalidAlgorithm)
      else if signature != Hmac(alg, claims, key) then Failed(InvalidSignature)
      else if "exp" in claims && !claims["exp"].Num? then Failed(DecodeFailed)
      else if "exp" in claims && claims["exp"].n <= now then Failed(ExpiredSignature)
      else Payload(claims)
  }

  /** The claims `create_access_token(data)` signs at time `now`: a copy of
      `data` whose `exp` is set, overwriting any given, to 30 minutes on. */
  function IssueClaims(data: Claims, now: int): (c: Claims)
    ensures c.Keys == data.Keys + {"exp"}
    ensures c["exp"] == Num(now + AccessTokenExpireSeconds)
    ensures forall k :: k in data && k != "exp" ==> c[k] == data[k]
  {
    data["exp" := Num(now + AccessTokenExpireSeconds)]
  }

  /** `create_access_token(data)`, with the clock and the key as parameters:
      the token decodes under the key to the issued claims strictly before
      its `exp`, and is expired from then on. */
  function CreateAccessToken(data: Claims, now: int, key: string): (t: Token)
    ensures forall later :: later < now + AccessTokenExpireSeconds ==>
              Decode(t, key, later) == Payload(IssueClaims(data, now))
    ensures forall later :: later >= now + AccessTokenExpireSeconds ==>
              Decode(t, key, later) == Failed(ExpiredSignature)
  {
    Encode(IssueClaims(data, now), key)
  }

  /** `payload.get(name)`. */
  function Get(payload: Claims, name: string): Value {
    if name in payload then payload[name] else Null
  }

  /** `int(v)` for a claim value already known not to be None. */
  function IntOf(v: Value): Option<int> {
    match v
    case Num(n) => Some(n)
    case Str(s) => PyInt.Parse(s)
    case Null => None
  }

  /** `get_current_user(token)`. Every decode failure and every payload
      without `sub` or `role` is a 401. A `sub` that `int()` rejects raises
      ValueError, which the `except jwt.PyJWTError` does not catch; a `role`
      that is not a string fails the `User` model's validation. */
  function GetCurrentUser(token: Token, key: string, now: int): (r: Result<User>)
    ensures Decode(token, key, now).Failed? ==> r == Err(InvalidToken)
    ensures r.Ok? ==>
      && Decode(token, key, now).Payload?
      && Get(token.claims, "role") == Str(r.value.role)
      && IntOf(Get(token.claims, "sub")) == Some(r.value.id)
    ensures r == Err(InvalidToken) <==>
      || Decode(token, key, now).Failed?
      || Get(token.claims, "sub") == Null
      || Get(token.claims, "role") == Null
    ensures Decode(token, key, now).Payload? ==>
      var sub, role := Get(token.claims, "sub"), Get(token.claims, "role");
      sub != Null && role != Null ==>
        && (IntOf(sub).None? ==> r == Err(Uncaught("ValueError")))
        && (IntOf(sub).Some? && role.Str? ==> r == Ok(User(IntOf(sub).value, role.s)))
        && (IntOf(sub).Some? && !role.Str? ==> r == Err(Uncaught("ValidationError")))
  {
    match Decode(token, key, now)
    case Failed(_) => Err(InvalidToken)
    case Payload(payload) =>
      var sub := Get(payload, "sub");
      var role := Get(payload, "role");
      if sub == Null || role == Null then Err(InvalidToken)
      else match IntOf(sub)
        case None => Err(Uncaught("ValueError"))
        case Some(id) =>
          if role.Str? then Ok(User(id, role.s)) else Err(Uncaught("ValidationError"))
  }

  /** The claims a caller is minted for. */
  function SubjectClaims(id: int, role: string): Claims {
    map["sub" := Str(PyInt.Str(id)), "role" := Str(role)]
  }

  /** A token minted for `(id, role)` at `issued` authenticates as exactly
      that caller at any time before it expires, whatever the role string. */
  lemma TokenRoundTrip(id: int, role: string, issued: int, key: string, now: int)
    requires |PyInt.Digits(if id < 0 then -id else id)| <= PyInt.MaxStrDigits
    requires now < issued + AccessTokenExpireSeconds
    ensures GetCurrentUser(CreateAccessToken(SubjectClaims(id, role), issued, key), key, now)
            == Ok(User(id, role))
  {
    PyInt.ParseStr(id);
  }

  /** Once 30 minutes have passed the same token is a 401. */
  lemma TokenExpires(data: Claims, issued: int, key: string, now: int)
    requires issued + AccessTokenExpireSeconds <= now
    ensures GetCurrentUser(CreateAccessToken(data, issued, key), key, now) == Err(InvalidToken)
  {
  }

  /** A token signed under another key is a 401. */
  lemma ForeignKeyRejected(data: Claims, issued: int, key: string, other: string, now: int)
    requires other != key
    ensures GetCurrentUser(CreateAccessToken(data, issued, other), key, now) == Err(InvalidToken)
  {
  }

  /** Changing the claims or the header algorithm of a signed token without
      re-signing it makes it a 401. */
  lemma TamperedRejected(token: Token, claims: Claims, alg: string, key: string, now: int)
    requires token.Jwt? && token.signature == Hmac(token.alg, token.claims, key)
    requires claims != token.claims || alg != token.alg
    ensures GetCurrentUser(Jwt(alg, claims, token.signature), key, now) == Err(InvalidToken)
  {
  }

  /** A validly signed, unexpired token whose `sub` is not a base-10 integer
      is not a 401: the ValueError escapes the handler. */
  lemma NonIntegerSubjectEscapes(sub: string, role: string, issued: int, key: string, now: int)
    requires PyInt.Parse(sub) == None
    requires now < issued + AccessTokenExpireSeconds
    ensures GetCurrentUser(CreateAccessToken(map["sub" := Str(sub), "role" := Str(role)], issued, key), key, now)
            == Err(Uncaught("ValueError"))
  {
  }

  /** The empty `sub` is one such: it is present, so it passes the None
      check, and `int("")` raises. */
  lemma EmptySubjectEscapes(role: string, issued: int, key: string, now: int)
    requires now < issued + AccessTokenExpireSeconds
    ensures GetCurrentUser(CreateAccessToken(map["sub" := Str(""), "role" := Str(role)], issued, key), key, now)
            == Err(Uncaught("ValueError"))
  {
    PyInt.BlankRejected("");
    NonIntegerSubjectEscapes("", role, issued, key, now);
  }
}

/** `AuthService.processSignUp` (src/service/auth.service.ts) as a
    transition over the user store and the refresh-token store. The bcrypt
    hash, the JWT signer and the random bytes are inputs; which awaited
    call throws, if any, is the `Fault` input, and every throw is caught
    into "Internal server error" without undoing earlier writes. */
module AuthService {
  import opened Wrappers
  import opened Hex
  import opened Constants
  import opened UserRepository
  import opened RefreshRepository

  datatype AuthState = AuthState(users: UserStore, refresh: RefreshStore)

  /** The user table is well formed and every refresh row names an
      existing user. */
  predicate Consistent(s: AuthState) {
    Valid(s.users) && forall row :: row in s.refresh ==> HasUserId(s.users, row.userId)
  }

  /** The access token's payload, `{id: userId}`. */
  datatype Claims = Claims(id: nat)

  /** What `jwt.sign` is given besides the secret: payload and `expiresIn`. */
  datatype SignRequest = SignRequest(payload: Claims, expiresIn: string)

  /** The library primitives: `bcrypt.hash(·, 10)`, `jwt.sign(·, secret, ·)`
      and the bytes `randomBytes(40)` produced. */
  datatype Primitives = Primitives(hash: string -> string, sign: SignRequest -> string, randomBytes: seq<byte>)

  /** The first call of the sign-up that throws, in execution order. */
  datatype Fault =
    | NoFault
    | FindUserFails
    | HashFails
    | CreateUserFails
    | RandomBytesFails
    | SaveTokenFails
    | SignFails

  datatype SignUpResult = SignUpResult(message: string, accessToken: Option<string>, refreshToken: Option<string>)

  const RefreshTokenBytes: nat := 40

  const UserExists: string := "User already exist"
  const UserCreated: string := "User has been created"
  const InternalError: string := "Internal server error"

  /** `randomBytes(40).toString('hex')`. */
  function GenerateRefreshToken(random: seq<byte>): (token: string)
    requires |random| == RefreshTokenBytes
    ensures |token| == 2 * RefreshTokenBytes
  {
    HexEncode(random)
  }

  /** A refresh token is 80 lower-case hex digits that decode back to the
      40 random bytes, so distinct bytes give distinct tokens. */
  lemma RefreshTokenFormat(random: seq<byte>, other: seq<byte>)
    requires |random| == RefreshTokenBytes && |other| == RefreshTokenBytes
    ensures |GenerateRefreshToken(random)| == 80
    ensures forall i :: 0 <= i < 80 ==> IsHexDigit(GenerateRefreshToken(random)[i])
    ensures HexDecode(GenerateRefreshToken(random)) == Some(random)
    ensures GenerateRefreshToken(random) == GenerateRefreshToken(other) ==> random == other
  {
    HexRoundTrip(random);
    if GenerateRefreshToken(random) == GenerateRefreshToken(other) {
      HexEncodeInjective(random, other);
    }
  }

  /** The arguments of `generateJWT(userId)`: claims `{id: userId}` only,
      and a lifetime equal to the access cookie's ten minutes. */
  function AccessTokenRequest(userId: nat): (r: SignRequest)
    ensures r.payload == Claims(userId)
    ensures DurationMs(r.expiresIn) == Some(AccessMaxAgeMs)
  {
    AccessLifetimeAgrees();
    SignRequest(Claims(userId), AccessExpiresIn)
  }

  function GenerateJwt(p: Primitives, userId: nat): string {
    p.sign(AccessTokenRequest(userId))
  }

  /** The `exp` claim jwt.sign writes: issue time in seconds plus the
      lifetime, rounded down to whole seconds. */
  function ExpiresAt(issuedAt: nat, expiresIn: string): Option<nat> {
    match DurationMs(expiresIn)
    case None => None
    case Some(ms) => Some(issuedAt + ms / 1000)
  }

  /** Every access token expires 600 seconds after it is issued. */
  lemma AccessTokenExpiry(issuedAt: nat, userId: nat)
    ensures ExpiresAt(issuedAt, AccessTokenRequest(userId).expiresIn) == Some(issuedAt + 600)
  {
  }

  const Internal: SignUpResult := SignUpResult(InternalError, None, None)

  lemma MessagesDistinct()
    ensures UserExists != UserCreated && UserExists != InternalError && UserCreated != InternalError
  {
    assert |UserExists| != |UserCreated|;
    assert UserCreated[0] == 'U' && InternalError[0] == 'I';
    assert |UserExists| != |InternalError|;
  }

  /** The steps after the refresh token is generated: saving its row,
      then signing the access token. A throw in signing keeps the row. */
  function SaveAndSign(s: AuthState, user: User, token: string, p: Primitives, fault: Fault): (r: (SignUpResult, AuthState))
    requires fault == NoFault || fault == SaveTokenFails || fault == SignFails
    ensures fault == NoFault ==> r.0 == SignUpResult(UserCreated, Some(GenerateJwt(p, user.id)), Some(token))
    ensures fault != NoFault ==> r.0 == Internal
    ensures r.1.users == s.users
    ensures fault != SaveTokenFails ==> r.1.refresh == s.refresh + [RefreshRow(token, user.id)]
  {
    if fault == SaveTokenFails then (Internal, s)
    else
      var s2 := AuthState(s.users, SaveRefreshToken(s.refresh, token, user.id).1);
      if fault == SignFails then (Internal, s2)
      else (SignUpResult(UserCreated, Some(GenerateJwt(p, user.id)), Some(token)), s2)
  }

  /** The steps after the user row is written: generating the refresh
      token, saving its row and signing the access token. A throw in any of
      them keeps what was written before it. */
  function IssueTokens(s: AuthState, user: User, p: Primitives, fault: Fault): (r: (SignUpResult, AuthState))
    requires |p.randomBytes| == RefreshTokenBytes
    requires fault != FindUserFails && fault != HashFails && fault != CreateUserFails
    ensures fault == NoFault ==> r.0.message == UserCreated && r.0.accessToken.Some? && r.0.refreshToken.Some?
    ensures fault != NoFault ==> r.0 == Internal
    ensures r.1.users == s.users
  {
    if fault == RandomBytesFails then (Internal, s)
    else SaveAndSign(s, user, GenerateRefreshToken(p.randomBytes), p, fault)
  }

  /** The steps after the lookup found no user: hashing the password,
      creating the user, then issuing the tokens. */
  function CreateAccount(s: AuthState, id: string, password: string, p: Primitives, fault: Fault): (r: (SignUpResult, AuthState))
    requires |p.randomBytes| == RefreshTokenBytes
    requires id !in s.users.byLoginId && fault != FindUserFails
    ensures fault == NoFault ==> r.0.message == UserCreated && r.0.accessToken.Some? && r.0.refreshToken.Some?
    ensures fault != NoFault ==> r.0 == Internal
  {
    if fault == HashFails then (Internal, s)
    else
      var hashed := p.hash(password);
      if fault == CreateUserFails then (Internal, s)
      else
        var (user, users') := CreateUser(s.users, id, hashed).value;
        IssueTokens(AuthState(users', s.refresh), user, p, fault)
  }

  /** `processSignUp(id, password)`. */
  function ProcessSignUp(s: AuthState, id: string, password: string, p: Primitives, fault: Fault): (r: (SignUpResult, AuthState))
    requires |p.randomBytes| == RefreshTokenBytes
    ensures r.0.message == UserExists || r.0.message == UserCreated || r.0.message == InternalError
    ensures r.0.message == UserCreated <==> fault == NoFault && id !in s.users.byLoginId
    ensures r.0.accessToken.Some? <==> r.0.message == UserCreated
    ensures r.0.refreshToken.Some? <==> r.0.message == UserCreated
    ensures fault != FindUserFails && id in s.users.byLoginId ==> r == (SignUpResult(UserExists, None, None), s)
    ensures fault == FindUserFails ==> r == (Internal, s)
  {
    MessagesDistinct();
    if fault == FindUserFails then (Internal, s)
    else
      match FindUserByLoginId(s.users, id)
      case Some(_) => (SignUpResult(UserExists, None, None), s)
      case None => CreateAccount(s, id, password, p, fault)
  }

  /** Sign-up keeps the stores consistent whatever happens: a new refresh
      row is only ever written for the user just created. */
  lemma SignUpPreservesConsistency(s: AuthState, id: string, password: string, p: Primitives, fault: Fault)
    requires |p.randomBytes| == RefreshTokenBytes
    requires Consistent(s)
    ensures Consistent(ProcessSignUp(s, id, password, p, fault).1)
  {
    var s' := ProcessSignUp(s, id, password, p, fault).1;
    if s' != s {
      assert id !in s.users.byLoginId;
      var user := CreateUser(s.users, id, p.hash(password)).value.0;
      var users' := CreateUser(s.users, id, p.hash(password)).value.1;
      assert s'.users == users';
      forall row | row in s'.refresh ensures HasUserId(users', row.userId) {
        if row in s.refresh {
          var l :| l in s.users.byLoginId && s.users.byLoginId[l].id == row.userId;
          assert l in users'.byLoginId && users'.byLoginId[l].id == row.userId;
        } else {
          assert row.userId == user.id;
          assert id in users'.byLoginId && users'.byLoginId[id] == user;
        }
      }
    }
  }

  /** `after` is `before` with one new user filed under `id`, holding
      `stored` as password and an id no user of `before` had. */
  predicate AddsUser(before: UserStore, after: UserStore, id: string, stored: string) {
    && id !in before.byLoginId
    && id in after.byLoginId
    && after.byLoginId == before.byLoginId[id := after.byLoginId[id]]
    && after.byLoginId[id].loginId == id
    && after.byLoginId[id].password == stored
    && (Valid(before) ==> !HasUserId(before, after.byLoginId[id].id))
  }

  /** A successful sign-up adds one user with the hashed password and one
      refresh row for that user carrying the returned refresh token; the
      access token is signed over `{id: userId}` for the same user. */
  lemma SignUpSucceeds(s: AuthState, id: string, password: string, p: Primitives)
    requires |p.randomBytes| == RefreshTokenBytes
    requires id !in s.users.byLoginId
    ensures var (res, s') := ProcessSignUp(s, id, password, p, NoFault);
            && res.message == UserCreated
            && AddsUser(s.users, s'.users, id, p.hash(password))
            && res.refreshToken == Some(GenerateRefreshToken(p.randomBytes))
            && s'.refresh == s.refresh + [RefreshRow(res.refreshToken.value, s'.users.byLoginId[id].id)]
            && res.accessToken == Some(p.sign(SignRequest(Claims(s'.users.byLoginId[id].id), AccessExpiresIn)))
  {
  }

  /** A thrown error after the user was created leaves the user in place:
      the refresh row is kept too when only the signing failed. No tokens
      are returned in either case. */
  lemma SignUpPartialFailure(s: AuthState, id: string, password: string, p: Primitives, fault: Fault)
    requires |p.randomBytes| == RefreshTokenBytes
    requires id !in s.users.byLoginId
    requires fault == RandomBytesFails || fault == SaveTokenFails || fault == SignFails
    ensures var (res, s') := ProcessSignUp(s, id, password, p, fault);
            && res == Internal
            && AddsUser(s.users, s'.users, id, p.hash(password))
            && (fault != SignFails ==> s'.refresh == s.refresh)
            && (fault == SignFails ==>
                  s'.refresh == s.refresh + [RefreshRow(GenerateRefreshToken(p.randomBytes), s'.users.byLoginId[id].id)])
  {
  }

  /** A failure before the user is written changes neither store. */
  lemma SignUpEarlyFailure(s: AuthState, id: string, password: string, p: Primitives, fault: Fault)
    requires |p.randomBytes| == RefreshTokenBytes
    requires fault == FindUserFails || fault == HashFails || fault == CreateUserFails
    ensures var (res, s') := ProcessSignUp(s, id, password, p, fault);
            s' == s && res.accessToken.None? && res.refreshToken.None?
  {
  }

  /** Signing up a login id a second time, after the first attempt wrote
      its user (whatever happened next), is answered "User already exist"
      and changes nothing. */
  lemma SignUpTwice(s: AuthState, id: string, password: string, password': string,
                    p: Primitives, p': Primitives, fault: Fault, fault': Fault)
    requires |p.randomBytes| == RefreshTokenBytes && |p'.randomBytes| == RefreshTokenBytes
    requires fault == NoFault || fault == RandomBytesFails || fault == SaveTokenFails || fault == SignFails
    requires fault' != FindUserFails
    ensures var (first, s1) := ProcessSignUp(s, id, password, p, fault);
            var (second, s2) := ProcessSignUp(s1, id, password', p', fault');
            second.message == UserExists && second.accessToken.None? && s2 == s1
  {
    var (first, s1) := ProcessSignUp(s, id, password, p, fault);
    if id !in s.users.byLoginId {
      if fault == NoFault {
        SignUpSucceeds(s, id, password, p);
      } else {
        SignUpPartialFailure(s, id, password, p, fault);
      }
    }
    assert id in s1.users.byLoginId;
  }
}

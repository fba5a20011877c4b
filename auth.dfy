/** Registration and login. Password hashing (bcrypt) and token signing (JWT)
    are foreign code; the service receives them as functions it knows nothing
    about, except that a password always verifies against its own digest. */
module Auth {
  import opened Common
  import opened Store
  import opened Users

  /** The bcrypt work factor passed on every hash. */
  const SaltRounds: nat := 10

  datatype RegisterDto = RegisterDto(name: string, email: string, password: string, role: Role)
  datatype LoginDto = LoginDto(email: string, password: string)

  /** The claims of an access token. */
  datatype JwtPayload = JwtPayload(sub: Id, role: Role, email: string)

  /** What register and login return: the stripped user and a signed token. */
  datatype AuthResponse = AuthResponse(user: SafeUser, accessToken: string)

  const EmailTaken: Error := Http(Conflict, "Email is already registered")
  /** The one error of a failed login, whatever the reason. */
  const InvalidCredentials: Error := Http(Unauthorized, "Invalid email or password")

  class AuthService {
    const users: UsersService
    /** bcrypt.hash(password, rounds) */
    const hash: (string, nat) -> string
    /** bcrypt.compare(password, digest) */
    const compare: (string, string) -> bool
    /** jwtService.signAsync(payload) */
    const sign: JwtPayload -> string

    ghost predicate Valid()
      reads users.db
    {
      && users.db.Valid()
      && (forall p, n :: compare(p, hash(p, n)))
    }

    constructor (users: UsersService, hash: (string, nat) -> string,
                 compare: (string, string) -> bool, sign: JwtPayload -> string)
      requires forall p, n :: compare(p, hash(p, n))
      ensures this.users == users && this.hash == hash && this.compare == compare && this.sign == sign
    {
      this.users, this.hash, this.compare, this.sign := users, hash, compare, sign;
    }

    /** The token for `u`: its id, role and email, signed. */
    function SignToken(u: SafeUser): (token: string)
      ensures token == sign(JwtPayload(u.id, u.role, u.email))
    {
      sign(JwtPayload(u.id, u.role, u.email))
    }

    method Register(dto: RegisterDto, newId: Id, now: nat) returns (r: Result<AuthResponse, Error>)
      requires Valid()
      modifies users.db
      ensures Valid()
      ensures users.db.customers == old(users.db.customers) && users.db.tasks == old(users.db.tasks)
      ensures old(users.FindByEmail(dto.email)).Some? ==> r == Err(EmailTaken) && users.db.users == old(users.db.users)
      ensures old(users.FindByEmail(dto.email)).None? && newId in old(users.db.users) ==>
        r == Err(Unhandled(StoreError(UniqueViolation, ["id"]))) && users.db.users == old(users.db.users)
      ensures old(users.FindByEmail(dto.email)).None? && newId !in old(users.db.users) ==>
        var u := User(newId, dto.name, dto.email, hash(dto.password, SaltRounds), dto.role, now, now);
        && users.db.users == old(users.db.users)[newId := u]
        && r == Ok(AuthResponse(StripPassword(u), sign(JwtPayload(newId, dto.role, dto.email))))
      // Logging in right after registering succeeds with the same answer.
      ensures r.Ok? ==> Login(LoginDto(dto.email, dto.password)) == Ok(r.value)
    {
      var existing := users.FindByEmail(dto.email);
      if existing.Some? {
        r := Err(EmailTaken);
        return;
      }
      var hashed := hash(dto.password, SaltRounds);
      var created := users.CreateUser(UserData(dto.name, dto.email, hashed, dto.role), newId, now);
      match created
      case Err(e) =>
        r := Err(Unhandled(e));
      case Ok(u) =>
        r := Ok(AuthResponse(u, SignToken(u)));
        assert users.db.users[newId].email == dto.email;
    }

    function Login(dto: LoginDto): (r: Result<AuthResponse, Error>)
      reads users.db
      requires users.db.Valid()
      ensures r.Err? ==> r.error == InvalidCredentials
      ensures users.FindByEmail(dto.email).None? ==> r == Err(InvalidCredentials)
      ensures r.Ok? <==>
        exists k :: k in users.db.users && users.db.users[k].email == dto.email
                    && compare(dto.password, users.db.users[k].password)
      ensures r.Ok? ==> r.value.user.id in users.db.users
      ensures r.Ok? ==>
        var u := users.db.users[r.value.user.id];
        && r.value.user == StripPassword(u)
        && u.email == dto.email
        && compare(dto.password, u.password)
        && r.value.accessToken == sign(JwtPayload(u.id, u.role, u.email))
    {
      match users.FindByEmail(dto.email)
      case None => Err(InvalidCredentials)
      case Some(u) =>
        if !compare(dto.password, u.password) then Err(InvalidCredentials)
        else
          var safe := StripPassword(u);
          Ok(AuthResponse(safe, SignToken(safe)))
    }
  }

  /** Registering the same email twice: the second attempt is refused with the
      conflict and leaves the user table as the first attempt left it. */
  method RegisterTwice(auth: AuthService, first: RegisterDto, second: RegisterDto,
                       id1: Id, id2: Id, now: nat) returns (r1: Result<AuthResponse, Error>, r2: Result<AuthResponse, Error>)
    requires auth.Valid() && first.email == second.email
    modifies auth.users.db
    ensures auth.Valid()
    ensures r1.Ok? ==> r2 == Err(EmailTaken) && |auth.users.db.users| == |old(auth.users.db.users)| + 1
  {
    r1 := auth.Register(first, id1, now);
    ghost var afterFirst := auth.users.db.users;
    r2 := auth.Register(second, id2, now);
    if r1.Ok? {
      assert afterFirst[id1].email == second.email;
    }
  }

  /** A login that fails for an unknown email and one that fails for a wrong
      password cannot be told apart by their error. */
  lemma LoginFailuresIndistinguishable(auth: AuthService, unknown: LoginDto, wrong: LoginDto)
    requires auth.users.db.Valid()
    requires auth.users.FindByEmail(unknown.email).None?
    requires auth.users.FindByEmail(wrong.email).Some?
    requires !auth.compare(wrong.password, auth.users.FindByEmail(wrong.email).value.password)
    ensures auth.Login(unknown).Err? && auth.Login(wrong).Err?
    ensures auth.Login(unknown) == auth.Login(wrong)
  {
  }
}

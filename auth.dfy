/** The authentication routes: the bearer-token middleware, the admin gate, login and
    registration. Each decision is a function of the request and the store; the class
    `Exchange` applies it to one request/response pair. */
module Auth {
  import opened Wrappers
  import opened Strings
  import opened Records
  import opened Entities
  import opened Queries
  import opened AirtableService

  /** What the middleware attaches to the request: the user without its password. */
  datatype AuthUser = AuthUser(userID: RecordId, username: string, role: string)

  /** A refusal: the HTTP status and the `error` text of the JSON body. */
  datatype Rejection = Rejection(status: nat, error: string)

  /** The body of a successful login. */
  datatype Session = Session(token: string, username: string, role: string)

  /** The JSON body sent on the response, if any. */
  datatype Reply =
    | NoReply
    | ErrorReply(error: string)
    | SessionReply(session: Session)
    | RegisteredReply(userID: RecordId, username: string, role: string, message: string)

  const MissingToken := "Token manquant"
  const InvalidToken := "Token invalide"
  const UnknownUser := "Utilisateur non trouvé"
  const Forbidden := "Accès non autorisé"
  const BadCredentials := "Identifiants invalides"
  const LoginFailed := "Erreur lors de la connexion"
  const MissingCredentials := "Nom d'utilisateur et mot de passe requis"
  const ShortPassword := "Le mot de passe doit contenir au moins 6 caractères"
  const UsersUnavailable := "Erreur lors de la vérification des utilisateurs"
  const CreationFailed := "Erreur lors de la création de l'utilisateur"
  const TokenLifetime := "24h"
  const MinPasswordLength := 6

  /** `authHeader && authHeader.split(' ')[1]`, kept only when it is a usable (truthy) token. */
  function TokenOf(header: Option<string>): (token: Option<string>)
    ensures token.Some? ==> token.value != "" && ' ' !in token.value
  {
    if header.None? then None
    else
      var pieces := Split(header.value, ' ');
      if |pieces| >= 2 && pieces[1] != "" then Some(pieces[1]) else None
  }

  /** `header` reads `scheme`, one space, `word`, then nothing or more space-separated text. */
  predicate SecondWord(header: string, scheme: string, word: string, rest: string)
  {
    ' ' !in scheme && header == scheme + " " + word + rest && (rest == "" || rest[0] == ' ')
  }

  /** A header whose second space-separated word is a non-empty `token` yields it:
      `Bearer <token>`, or `Bearer <token> <anything>`. */
  lemma BearerToken(header: string, scheme: string, token: string, rest: string)
    requires SecondWord(header, scheme, token, rest) && ' ' !in token && token != ""
    ensures TokenOf(Some(header)) == Some(token)
  {
    assert header == scheme + [' '] + (token + rest);
    SplitAfterPrefix(scheme, ' ', token + rest);
    if rest == "" {
      assert token + rest == token;
      SplitWithoutSeparator(token, ' ');
    } else {
      assert token + rest == token + [' '] + rest[1..];
      SplitAfterPrefix(token, ' ', rest[1..]);
    }
  }

  /** A header without a space, such as a bare token, yields no token. */
  lemma TokenNeedsSpace(header: string)
    requires ' ' !in header
    ensures TokenOf(Some(header)) == None
  {
    SplitWithoutSeparator(header, ' ');
  }

  /** Conversely, a token is always the second space-separated word of the header. */
  lemma TokenIsSecondWord(header: string)
    requires TokenOf(Some(header)).Some?
    ensures exists scheme, rest :: SecondWord(header, scheme, TokenOf(Some(header)).value, rest)
  {
    var pieces := Split(header, ' ');
    JoinSplit(header, ' ');
    var rest := if |pieces| == 2 then "" else " " + Join(pieces[2..], " ");
    JoinFirstTwo(pieces, " ");
    assert SecondWord(header, pieces[0], pieces[1], rest);
  }

  /** The first two pieces of a join, and what follows them. */
  lemma JoinFirstTwo(pieces: seq<string>, sep: string)
    requires |pieces| >= 2
    ensures Join(pieces, sep) ==
      pieces[0] + sep + pieces[1] + (if |pieces| == 2 then "" else sep + Join(pieces[2..], sep))
  {
    var tail := pieces[1..];
    assert tail[0] == pieces[1];
    if |pieces| > 2 {
      assert tail[1..] == pieces[2..];
      assert Join(tail, sep) == pieces[1] + sep + Join(pieces[2..], sep);
    } else {
      assert Join(tail, sep) == pieces[1];
    }
  }

  /** What `authenticateToken` decides for a request: the user to attach, or the refusal.
      `verify` stands for the signature and expiry check of the token. */
  function Authenticate(header: Option<string>, verify: string -> Option<RecordId>,
                        online: bool, users: Table<UserFields>): Result<AuthUser, Rejection>
  {
    match TokenOf(header)
    case None => Err(Rejection(401, MissingToken))
    case Some(token) =>
      match verify(token)
      case None => Err(Rejection(403, InvalidToken))
      case Some(id) =>
        if !online || Lookup(users, id).None? then Err(Rejection(401, UnknownUser))
        else
          var u := DecodeUser(Lookup(users, id).value);
          Ok(AuthUser(u.userID, u.username, u.role))
  }

  /** A request is let through exactly when its token verifies to the id of a stored
      user, and the attached user is that record's id, username and role. */
  lemma AuthenticateAdmitsExactly(header: Option<string>, verify: string -> Option<RecordId>,
                                  online: bool, users: Table<UserFields>)
    ensures Authenticate(header, verify, online, users).Ok? <==>
      && TokenOf(header).Some?
      && verify(TokenOf(header).value).Some?
      && online
      && HasId(users, verify(TokenOf(header).value).value)
    ensures Authenticate(header, verify, online, users).Ok? ==>
      var a := Authenticate(header, verify, online, users).value;
      && a.userID == verify(TokenOf(header).value).value
      && exists i :: 0 <= i < |users| && users[i].id == a.userID
                     && users[i].fields.username == a.username && users[i].fields.role == a.role
  {
  }

  /** Every refusal of the middleware is one of its three, each tied to its cause: no
      token, a token that does not verify, or a verified id the store does not yield. */
  lemma AuthenticateRejections(header: Option<string>, verify: string -> Option<RecordId>,
                               online: bool, users: Table<UserFields>)
    requires Authenticate(header, verify, online, users).Err?
    ensures Authenticate(header, verify, online, users).error in
      {Rejection(401, MissingToken), Rejection(403, InvalidToken), Rejection(401, UnknownUser)}
    ensures Authenticate(header, verify, online, users).error == Rejection(401, MissingToken) <==> TokenOf(header).None?
    ensures Authenticate(header, verify, online, users).error == Rejection(403, InvalidToken) <==>
      TokenOf(header).Some? && verify(TokenOf(header).value).None?
    ensures Authenticate(header, verify, online, users).error == Rejection(401, UnknownUser) <==>
      && TokenOf(header).Some?
      && verify(TokenOf(header).value).Some?
      && (!online || !HasId(users, verify(TokenOf(header).value).value))
  {
  }

  /** `isAdmin`: there is an attached user and its role is 'admin'. */
  predicate AdminUser(user: Option<AuthUser>)
  {
    user.Some? && user.value.role == AdminRole
  }

  /** Behind `authenticateToken` then `isAdmin`, a request goes through exactly when its
      token names a stored user whose role cell is 'admin'. */
  lemma AdminRouteAdmits(header: Option<string>, verify: string -> Option<RecordId>,
                         online: bool, users: Table<UserFields>)
    ensures (Authenticate(header, verify, online, users).Ok? &&
             AdminUser(Some(Authenticate(header, verify, online, users).value))) <==>
      && TokenOf(header).Some?
      && verify(TokenOf(header).value).Some?
      && online
      && Lookup(users, verify(TokenOf(header).value).value).Some?
      && Lookup(users, verify(TokenOf(header).value).value).value.fields.role == AdminRole
  {
  }

  /** The name the login looks up: a missing `username` enters the filter formula as the
      text "undefined". */
  function LookupName(username: Option<string>): string
  {
    username.GetOr("undefined")
  }

  /** What the login route answers. `compare` stands for bcrypt's comparison of a password
      with a stored hash, `sign` for signing a token for a user id with a lifetime. */
  function LoginOutcome(online: bool, users: Table<UserFields>, username: Option<string>, password: Option<string>,
                 compare: (string, string) -> bool, sign: (RecordId, string) -> string): Result<Session, Rejection>
  {
    if !online then Err(Rejection(500, LoginFailed))
    else
      match UserByName(users, LookupName(username))
      case None => Err(Rejection(401, BadCredentials))
      case Some(row) =>
        if password.None? then Err(Rejection(500, LoginFailed))
        else if !compare(password.value, row.fields.password) then Err(Rejection(401, BadCredentials))
        else Ok(Session(sign(row.id, TokenLifetime), row.fields.username, row.fields.role))
  }

  /** A login succeeds exactly when the first user with that name has a stored hash the
      password matches; the token is signed for that user's id with a 24h lifetime. */
  lemma LoginSucceedsExactly(online: bool, users: Table<UserFields>, username: Option<string>, password: Option<string>,
                             compare: (string, string) -> bool, sign: (RecordId, string) -> string)
    ensures LoginOutcome(online, users, username, password, compare, sign).Ok? <==>
      && online
      && UserByName(users, LookupName(username)).Some?
      && password.Some?
      && compare(password.value, UserByName(users, LookupName(username)).value.fields.password)
    ensures LoginOutcome(online, users, username, password, compare, sign).Ok? ==>
      var row := UserByName(users, LookupName(username)).value;
      LoginOutcome(online, users, username, password, compare, sign).value
        == Session(sign(row.id, TokenLifetime), LookupName(username), row.fields.role)
  {
  }

  /** An unknown username and a wrong password get the same answer, so a client cannot
      tell which usernames exist. */
  lemma LoginHidesUnknownUsers(users: Table<UserFields>, username: Option<string>, password: string,
                               compare: (string, string) -> bool, sign: (RecordId, string) -> string)
    requires LoginOutcome(true, users, username, Some(password), compare, sign).Err?
    ensures LoginOutcome(true, users, username, Some(password), compare, sign).error == Rejection(401, BadCredentials)
  {
  }

  /** The validation of the registration body, in its order: both credentials truthy,
      then a password of at least 6 characters. */
  function RegistrationError(username: Option<string>, password: Option<string>): Option<string>
  {
    if username.None? || username.value == "" || password.None? || password.value == "" then Some(MissingCredentials)
    else if |password.value| < MinPasswordLength then Some(ShortPassword)
    else None
  }

  /** The body passes validation exactly when both credentials are given and non-empty
      and the password has at least 6 characters. The missing-credentials check comes
      first: any missing or empty credential is reported as missing, whatever the password
      length, and only a body with both credentials is told its password is too short. */
  lemma RegistrationValidation(username: Option<string>, password: Option<string>)
    ensures RegistrationError(username, password).None? <==>
      username.Some? && username.value != "" && password.Some? && |password.value| >= MinPasswordLength
    ensures RegistrationError(username, password) == Some(MissingCredentials) <==>
      username.None? || username.value == "" || password.None? || password.value == ""
    ensures RegistrationError(username, password) == Some(ShortPassword) <==>
      && username.Some? && username.value != ""
      && password.Some? && password.value != ""
      && |password.value| < MinPasswordLength
    ensures password == Some("") ==> RegistrationError(username, password) == Some(MissingCredentials)
  {
  }

  /** The role of a new user: the first user of the table is the administrator. */
  function RoleFor(existing: Table<UserFields>): string
  {
    if |existing| == 0 then AdminRole else UserRole
  }

  /** What registration does: the cells of the user to create, or the refusal. `hash`
      stands for bcrypt's salted hash with cost 10. */
  function Registration(online: bool, users: Table<UserFields>, username: Option<string>, password: Option<string>,
                        hash: string -> string): Result<UserFields, Rejection>
  {
    match RegistrationError(username, password)
    case Some(message) => Err(Rejection(400, message))
    case None =>
      if !online then Err(Rejection(500, UsersUnavailable))
      else if UserByName(users, username.value).Some? then Err(Rejection(500, CreationFailed))
      else Ok(UserFields(username.value, hash(password.value), RoleFor(users)))
  }

  /** A valid registration for a free username creates a user whose password cell is the
      hash, never the password itself; it is the admin exactly when the table was empty. */
  lemma RegistrationCreates(online: bool, users: Table<UserFields>, username: string, password: string,
                            hash: string -> string)
    requires RegistrationError(Some(username), Some(password)).None?
    ensures Registration(online, users, Some(username), Some(password), hash).Ok? <==>
      online && forall i :: 0 <= i < |users| ==> users[i].fields.username != username
    ensures Registration(online, users, Some(username), Some(password), hash).Ok? ==>
      var cells := Registration(online, users, Some(username), Some(password), hash).value;
      && cells.username == username
      && cells.password == hash(password)
      && (cells.role == AdminRole <==> |users| == 0)
  {
  }

  /** The first user of the table, and only that one, is an administrator. */
  ghost predicate AdminFirst(users: Table<UserFields>)
  {
    forall i :: 0 <= i < |users| ==> (users[i].fields.role == AdminRole <==> i == 0)
  }

  /** Registering keeps the administrator the first user and nobody else. */
  lemma RegistrationKeepsAdminFirst(online: bool, users: Table<UserFields>, username: Option<string>,
                                    password: Option<string>, hash: string -> string, id: RecordId)
    requires AdminFirst(users)
    requires Registration(online, users, username, password, hash).Ok?
    ensures AdminFirst(users + [Row(id, Registration(online, users, username, password, hash).value)])
  {
  }

  /** One request/response pair as the routes see it: the Authorization header, the user
      the middleware attaches, the status and body sent, and how often `next()` was called. */
  class Exchange {
    const authorization: Option<string>
    var user: Option<AuthUser>
    var status: nat
    var reply: Reply
    var nextCalls: nat

    constructor (authorization: Option<string>)
      ensures this.authorization == authorization
      ensures user == None && status == 200 && reply == NoReply && nextCalls == 0
    {
      this.authorization := authorization;
      user := None;
      status := 200;
      reply := NoReply;
      nextCalls := 0;
    }

    /** Send a refusal. */
    method Refuse(rejection: Rejection)
      modifies this`status, this`reply
      ensures status == rejection.status && reply == ErrorReply(rejection.error)
    {
      status := rejection.status;
      reply := ErrorReply(rejection.error);
    }

    /** `authenticateToken`: attach the user and call `next()`, or refuse. */
    method AuthenticateToken(base: Base, verify: string -> Option<RecordId>)
      modifies this
      ensures match Authenticate(authorization, verify, base.online, base.users)
              case Ok(a) => && user == Some(a) && nextCalls == old(nextCalls) + 1
                             && status == old(status) && reply == old(reply)
              case Err(rejection) => && status == rejection.status && reply == ErrorReply(rejection.error)
                                     && user == old(user) && nextCalls == old(nextCalls)
    {
      var token := TokenOf(authorization);
      if token.None? {
        Refuse(Rejection(401, MissingToken));
        return;
      }
      var decoded := verify(token.value);
      if decoded.None? {
        Refuse(Rejection(403, InvalidToken));
        return;
      }
      var found := base.GetUserById(decoded.value);
      if found.None? {
        Refuse(Rejection(401, UnknownUser));
        return;
      }
      user := Some(AuthUser(found.value.userID, found.value.username, found.value.role));
      nextCalls := nextCalls + 1;
    }

    /** `isAdmin`: call `next()` for an administrator, refuse everyone else with 403. */
    method IsAdmin()
      modifies this
      ensures user == old(user)
      ensures AdminUser(user) ==> nextCalls == old(nextCalls) + 1 && status == old(status) && reply == old(reply)
      ensures !AdminUser(user) ==> nextCalls == old(nextCalls) && status == 403 && reply == ErrorReply(Forbidden)
    {
      if user.Some? && user.value.role == AdminRole {
        nextCalls := nextCalls + 1;
      } else {
        Refuse(Rejection(403, Forbidden));
      }
    }

    /** `POST /login`. */
    method Login(base: Base, username: Option<string>, password: Option<string>,
                 compare: (string, string) -> bool, sign: (RecordId, string) -> string)
      modifies this
      ensures user == old(user) && nextCalls == old(nextCalls)
      ensures match LoginOutcome(base.online, base.users, username, password, compare, sign)
              case Ok(session) => status == old(status) && reply == SessionReply(session)
              case Err(rejection) => status == rejection.status && reply == ErrorReply(rejection.error)
    {
      var found := base.GetUserByUsername(LookupName(username));
      if found.Err? {
        Refuse(Rejection(500, LoginFailed));
        return;
      }
      if found.value.None? {
        Refuse(Rejection(401, BadCredentials));
        return;
      }
      var u := found.value.value;
      if password.None? {
        Refuse(Rejection(500, LoginFailed));
        return;
      }
      if !compare(password.value, u.password) {
        Refuse(Rejection(401, BadCredentials));
        return;
      }
      reply := SessionReply(Session(sign(u.userID, TokenLifetime), u.username, u.role));
    }

    /** `POST /register`: validate, choose the role from the current number of users,
        and create the user with the hashed password. */
    method Register(base: Base, username: Option<string>, password: Option<string>, hash: string -> string)
      requires base.Valid()
      modifies this, base
      ensures base.Valid()
      ensures user == old(user) && nextCalls == old(nextCalls)
      ensures base.projects == old(base.projects) && base.comments == old(base.comments)
      ensures match Registration(base.online, old(base.users), username, password, hash)
              case Err(rejection) =>
                && status == rejection.status && reply == ErrorReply(rejection.error)
                && base.users == old(base.users)
              case Ok(cells) =>
                exists id :: && !HasId(old(base.users), id)
                             && base.users == old(base.users) + [Row(id, cells)]
                             && status == 201
                             && reply == RegisteredReply(id, cells.username, cells.role,
                                                         "Utilisateur créé avec succès (" + cells.role + ")")
      ensures AdminFirst(old(base.users)) ==> AdminFirst(base.users)
      ensures UniqueUsernames(old(base.users)) ==> UniqueUsernames(base.users)
    {
      var invalid := RegistrationError(username, password);
      if invalid.Some? {
        Refuse(Rejection(400, invalid.value));
        return;
      }
      var existing := base.GetAllUsers();
      if existing.Err? {
        Refuse(Rejection(500, UsersUnavailable));
        return;
      }
      var role := if |existing.value| == 0 then AdminRole else UserRole;
      var created := base.CreateUser(UserFields(username.value, hash(password.value), role));
      if created.Err? {
        Refuse(Rejection(500, CreationFailed));
        return;
      }
      status := 201;
      reply := RegisteredReply(created.value.userID, created.value.username, created.value.role,
                               "Utilisateur créé avec succès (" + role + ")");
      if AdminFirst(old(base.users)) {
        RegistrationKeepsAdminFirst(base.online, old(base.users), username, password, hash, created.value.userID);
      }
    }
  }
}

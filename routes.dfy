/** The HTTP side of `server/routes.ts`: the token middleware, the one-time
    codes, and the guard chains of the account, profile, message and gallery
    routes, each handler a method over the `Database`. Signing and checking
    tokens, hashing and comparing passwords, the random draw, the clock and the
    upload service's URLs are parameters. */
module Routes {
  import opened Common
  import opened Schema
  import opened Storage

  // ---------------------------------------------------------------------------
  // authenticateToken
  // ---------------------------------------------------------------------------

  /** What a token carries (`jwt.sign({ userId, email })`). */
  datatype Claims = Claims(userId: string, email: string)

  /** `authHeader && authHeader.split(' ')[1]`, when it is a non-empty string. */
  function HeaderToken(header: Option<string>): (t: Option<string>)
    ensures t.Some? ==> t.value != "" && ' ' !in t.value
  {
    if header.None? || header.value == "" then None
    else
      var parts := Split(header.value, ' ');
      if |parts| < 2 || parts[1] == "" then None else Some(parts[1])
  }

  datatype Auth = MissingToken | InvalidToken | Authenticated(claims: Claims)

  /** The middleware's verdict; `valid` maps each token `jwt.verify` accepts
      (signed with the secret and not expired) to its claims. */
  function AuthenticateToken(header: Option<string>, valid: map<string, Claims>): (r: Auth)
    ensures r == MissingToken <==> HeaderToken(header).None?
    ensures r == InvalidToken <==> HeaderToken(header).Some? && HeaderToken(header).value !in valid
    ensures r.Authenticated? ==>
      HeaderToken(header).Some? && HeaderToken(header).value in valid && r.claims == valid[HeaderToken(header).value]
  {
    var t := HeaderToken(header);
    if t.None? then MissingToken
    else if t.value !in valid then InvalidToken
    else Authenticated(valid[t.value])
  }

  /** The status and message of a refused request: 401 without a token, 403 with
      a bad one. */
  function AuthFailure(a: Auth): (r: (int, string))
    requires !a.Authenticated?
    ensures r.0 == 401 <==> a == MissingToken
    ensures r.0 == 403 <==> a == InvalidToken
  {
    if a == MissingToken then (401, "Access token required") else (403, "Invalid or expired token")
  }

  /** The header the client sends, `Bearer <token>`, hands the middleware that
      token. */
  lemma BearerHeader(t: string, valid: map<string, Claims>)
    requires t != "" && ' ' !in t
    ensures AuthenticateToken(Some("Bearer " + t), valid) ==
      if t in valid then Authenticated(valid[t]) else InvalidToken
  {
    var parts := ["Bearer", t];
    assert Join(parts, ' ') == "Bearer " + t by {
      assert Join(parts[1..], ' ') == t;
    }
    SplitJoin(parts, ' ');
  }

  /** A header of one word (a bare token, or `Bearer` alone) carries no token. */
  lemma OneWordHeader(h: string, valid: map<string, Claims>)
    requires ' ' !in h
    ensures AuthenticateToken(Some(h), valid) == MissingToken
  {
  }

  // ---------------------------------------------------------------------------
  // generateCode
  // ---------------------------------------------------------------------------

  /** `Math.floor(100000 + Math.random() * 900000).toString()`, where `draw` is
      `Math.floor(Math.random() * 900000)`. */
  function GenerateCode(draw: nat): (code: string)
    requires draw < 900000
    ensures |code| == CodeLength && AllDigits(code)
    ensures ParseDecimal(code) == 100000 + draw
    ensures 100000 <= ParseDecimal(code) <= 999999
  {
    var n := 100000 + draw;
    assert Pow10(5) == 100000 && Pow10(6) == 1000000;
    DecimalLength(n, 6);
    DecimalRoundTrip(n);
    NatToString(n)
  }

  /** Every generated code passes the verification and reset schemas and fits
      the code columns; distinct draws give distinct codes. */
  lemma GeneratedCodeAccepted(draw: nat, other: nat, newPassword: string)
    requires draw < 900000 && other < 900000
    requires |newPassword| >= 8
    ensures VerificationIssues(Some(GenerateCode(draw))) == []
    ensures ResetPasswordIssues(Some(GenerateCode(draw)), Some(newPassword)) == []
    ensures FitsOptional(Some(GenerateCode(draw)), CodeLength)
    ensures GenerateCode(draw) == GenerateCode(other) <==> draw == other
  {
    if GenerateCode(draw) == GenerateCode(other) {
      assert ParseDecimal(GenerateCode(draw)) == ParseDecimal(GenerateCode(other));
    }
  }

  // ---------------------------------------------------------------------------
  // Replies
  // ---------------------------------------------------------------------------

  /** A zod error (400 with the issues), a refusal, or a success. */
  datatype Reply = Invalid(issues: seq<Issue>) | Error(status: int, message: string) | Ok(status: int, message: string)

  const UserExists := "User already exists with this email"
  const UsernameTaken := "Username already taken"
  const Registered := "User registered successfully. Please check your email for verification code."
  const InvalidCredentials := "Invalid credentials"
  const VerifyFirst := "Please verify your email first"
  const EmailRequired := "Email is required"
  const InvalidCode := "Invalid verification code"
  const UserNotFound := "User not found"
  const EmailVerified := "Email verified successfully"
  const AlreadyVerified := "Email is already verified"
  const CodeSent := "Verification code sent successfully"
  const NoEmailUser := "User not found with this email"
  const ResetSent := "Password reset code sent to your email"
  const InvalidResetCode := "Invalid or expired reset code"
  const PasswordReset := "Password reset successfully"
  const NoChangesToUpdate := "No changes to update"
  const ProfileUpdated := "Profile updated successfully"

  /** One hour, the life the reset email announces for a reset code. */
  const ResetCodeLifetime := 60 * 60 * 1000

  // ---------------------------------------------------------------------------
  // Accounts
  // ---------------------------------------------------------------------------

  /** No two users share an email or a username (the `unique` columns). */
  ghost predicate UniqueAccounts(users: seq<User>)
  {
    forall i, j | 0 <= i < j < |users| :: users[i].email != users[j].email && users[i].username != users[j].username
  }

  /** The duplicate checks of `/api/auth/register`, the email first. */
  function RegisterGuard(users: seq<User>, email: string, username: string): (r: Option<Reply>)
    ensures r == Some(Error(400, UserExists)) <==> UserByEmail(users, email).Some?
    ensures r == Some(Error(400, UsernameTaken)) <==>
      UserByEmail(users, email).None? && UserByUsername(users, username).Some?
    ensures r.None? <==> UserByEmail(users, email).None? && UserByUsername(users, username).None?
  {
    if UserByEmail(users, email).Some? then Some(Error(400, UserExists))
    else if UserByUsername(users, username).Some? then Some(Error(400, UsernameTaken))
    else None
  }

  /** The row registration inserts for a body that passed the schema. */
  function Registrant(id: string, name: string, username: string, email: string, hashed: string,
                      classOf: string, clan: string, extras: ProfileExtras, code: string, now: int): User
  {
    User(id, name, username, email, hashed, classOf, clan,
         extras.profilePicture, extras.coverPhoto, extras.bio, extras.favoriteTeacher, extras.hobby,
         false, Some(code), None, None, now)
  }

  /** `/api/auth/register`: validate, refuse a taken email or username, then
      create the unverified user with a fresh code and the optional profile
      fields of the body. `hashed` is `bcrypt.hash(password, 12)`. */
  method Register(db: Database, name: Option<string>, username: Option<string>, email: Option<string>,
                  password: Option<string>, classOf: Option<string>, clan: Option<string>, extras: ProfileExtras,
                  hashed: string, draw: nat, now: int) returns (reply: Reply, userId: Option<string>)
    requires draw < 900000
    modifies db
    ensures old(db.KeysHold()) ==> db.KeysHold()
    ensures db.OtherTables() == old(db.OtherTables())
    ensures RegisterIssues(name, username, email, password, classOf, clan) != [] ==>
      && reply == Invalid(RegisterIssues(name, username, email, password, classOf, clan))
      && userId.None? && db.users == old(db.users)
    ensures RegisterIssues(name, username, email, password, classOf, clan) == [] ==>
      var guard := RegisterGuard(old(db.users), email.value, username.value);
      && (guard.Some? ==> reply == guard.value && userId.None? && db.users == old(db.users))
      && (guard.None? ==>
            && reply == Ok(201, Registered)
            && userId == Some(NatToString(old(db.nextId)))
            && db.users == old(db.users) + [Registrant(NatToString(old(db.nextId)), name.value, username.value,
                                                      email.value, hashed, classOf.value, clan.value,
                                                      extras, GenerateCode(draw), now)])
    ensures UniqueAccounts(old(db.users)) ==> UniqueAccounts(db.users)
  {
    var issues := RegisterIssues(name, username, email, password, classOf, clan);
    if issues != [] {
      return Invalid(issues), None;
    }
    var guard := RegisterGuard(db.users, email.value, username.value);
    if guard.Some? {
      return guard.value, None;
    }
    ghost var before := db.users;
    var code := GenerateCode(draw);
    var user := db.CreateUser(name.value, username.value, email.value, hashed, classOf.value, clan.value, extras, code, now);
    reply, userId := Ok(201, Registered), Some(user.id);
    if UniqueAccounts(before) {
      NewAccountKeepsUnique(before, user);
    }
  }

  /** Appending an account whose email and username nobody has keeps them unique. */
  lemma NewAccountKeepsUnique(users: seq<User>, u: User)
    requires UniqueAccounts(users)
    requires UserByEmail(users, u.email).None? && UserByUsername(users, u.username).None?
    ensures UniqueAccounts(users + [u])
  {
    assert forall i | 0 <= i < |users| :: users[i].email != u.email && users[i].username != u.username;
  }

  datatype LoginResult = LoginInvalid(issues: seq<Issue>) | LoginDenied(message: string) | LoggedIn(claims: Claims, user: User)

  /** `/api/auth/login`; `compare(password, hash)` is `bcrypt.compare`. */
  function Login(users: seq<User>, identifier: Option<string>, password: Option<string>,
                 compare: (string, string) -> bool): (r: LoginResult)
    ensures r.LoginInvalid? <==> LoginIssues(identifier, password) != []
    ensures LoginIssues(identifier, password) == [] ==>
      var found := UserByIdentifier(users, identifier.value);
      && (found.None? ==> r == LoginDenied(InvalidCredentials))
      && (found.Some? && !found.value.isVerified ==> r == LoginDenied(VerifyFirst))
      && (found.Some? && found.value.isVerified ==>
            if compare(password.value, found.value.password)
            then r == LoggedIn(Claims(found.value.id, found.value.email), found.value)
            else r == LoginDenied(InvalidCredentials))
  {
    var issues := LoginIssues(identifier, password);
    if issues != [] then LoginInvalid(issues)
    else
      var found := UserByIdentifier(users, identifier.value);
      if found.None? then LoginDenied(InvalidCredentials)
      else if !found.value.isVerified then LoginDenied(VerifyFirst)
      else if !compare(password.value, found.value.password) then LoginDenied(InvalidCredentials)
      else LoggedIn(Claims(found.value.id, found.value.email), found.value)
  }

  /** A login succeeds only for a verified user whose password matches, and the
      password is consulted only after the user was found verified: unknown and
      unverified users get the same answer whatever `bcrypt.compare` would say. */
  lemma LoginComparesLast(users: seq<User>, identifier: Option<string>, password: Option<string>,
                          compare: (string, string) -> bool, other: (string, string) -> bool)
    requires LoginIssues(identifier, password) == []
    requires UserByIdentifier(users, identifier.value).None? || !UserByIdentifier(users, identifier.value).value.isVerified
    ensures Login(users, identifier, password, compare) == Login(users, identifier, password, other)
    ensures !Login(users, identifier, password, compare).LoggedIn?
  {
  }

  /** `/api/auth/verify-email`: validate the code, require the email, consume the
      code, then sign the user in. */
  method VerifyEmail(db: Database, code: Option<string>, email: Option<string>)
    returns (reply: Reply, signed: Option<(Claims, User)>)
    modifies db
    ensures old(db.KeysHold()) ==> db.KeysHold()
    ensures db.OtherTables() == old(db.OtherTables()) && db.nextId == old(db.nextId)
    ensures VerificationIssues(code) != [] ==>
      reply == Invalid(VerificationIssues(code)) && signed.None? && db.users == old(db.users)
    ensures VerificationIssues(code) == [] && (email.None? || email.value == "") ==>
      reply == Error(400, EmailRequired) && signed.None? && db.users == old(db.users)
    ensures VerificationIssues(code) == [] && email.Some? && email.value != "" ==>
      && db.users == UpdateWhere(old(db.users), VerifyMatch(email.value, code.value), MarkVerified())
      && (AnyMatch(old(db.users), VerifyMatch(email.value, code.value)) ==>
            && reply == Ok(200, EmailVerified)
            && signed.Some? && signed.value.1 == UserByEmail(db.users, email.value).value
            && signed.value.0 == Claims(signed.value.1.id, email.value))
      && (!AnyMatch(old(db.users), VerifyMatch(email.value, code.value)) ==>
            reply == Error(400, InvalidCode) && signed.None?)
  {
    var issues := VerificationIssues(code);
    if issues != [] {
      return Invalid(issues), None;
    }
    if email.None? || email.value == "" {
      return Error(400, EmailRequired), None;
    }
    ghost var before := db.users;
    var verified := db.VerifyUser(email.value, code.value);
    if !verified {
      return Error(400, InvalidCode), None;
    }
    ghost var i :| 0 <= i < |before| && VerifyMatch(email.value, code.value)(before[i]);
    assert db.users[i].email == email.value;
    var user := UserByEmail(db.users, email.value);
    if user.None? {
      assert false;
      return Error(404, UserNotFound), None;
    }
    reply, signed := Ok(200, EmailVerified), Some((Claims(user.value.id, user.value.email), user.value));
  }

  /** The update `resend-code` makes: a new verification code and nothing else. */
  function CodePatch(code: string): (p: UserPatch)
    ensures p != NoChanges
  {
    NoChanges.(verificationCode := Some(code))
  }

  /** `/api/auth/resend-code`. */
  method ResendCode(db: Database, email: string, draw: nat) returns (reply: Reply)
    requires draw < 900000
    modifies db
    ensures old(db.KeysHold()) ==> db.KeysHold()
    ensures db.OtherTables() == old(db.OtherTables()) && db.nextId == old(db.nextId)
    ensures UserByEmail(old(db.users), email).None? ==>
      reply == Error(404, UserNotFound) && db.users == old(db.users)
    ensures UserByEmail(old(db.users), email).Some? && UserByEmail(old(db.users), email).value.isVerified ==>
      reply == Error(400, AlreadyVerified) && db.users == old(db.users)
    ensures UserByEmail(old(db.users), email).Some? && !UserByEmail(old(db.users), email).value.isVerified ==>
      && reply == Ok(200, CodeSent)
      && db.users == UpdateWhere(old(db.users), HasId(UserByEmail(old(db.users), email).value.id), Patched(CodePatch(GenerateCode(draw))))
  {
    var user := UserByEmail(db.users, email);
    if user.None? {
      return Error(404, UserNotFound);
    }
    if user.value.isVerified {
      return Error(400, AlreadyVerified);
    }
    var code := GenerateCode(draw);
    var _ := db.UpdateUser(user.value.id, CodePatch(code));
    reply := Ok(200, CodeSent);
  }

  /** `/api/auth/forgot-password`: a new reset code, valid for an hour by the
      route's reckoning. */
  method ForgotPassword(db: Database, email: Option<string>, isEmail: string -> bool, draw: nat, now: int)
    returns (reply: Reply)
    requires draw < 900000
    modifies db
    ensures old(db.KeysHold()) ==> db.KeysHold()
    ensures db.OtherTables() == old(db.OtherTables()) && db.nextId == old(db.nextId)
    ensures ForgotPasswordIssues(email, isEmail) != [] ==>
      reply == Invalid(ForgotPasswordIssues(email, isEmail)) && db.users == old(db.users)
    ensures ForgotPasswordIssues(email, isEmail) == [] && UserByEmail(old(db.users), email.value).None? ==>
      reply == Error(404, NoEmailUser) && db.users == old(db.users)
    ensures ForgotPasswordIssues(email, isEmail) == [] && UserByEmail(old(db.users), email.value).Some? ==>
      && reply == Ok(200, ResetSent)
      && db.users == UpdateWhere(old(db.users), HasEmail(email.value), SetReset(GenerateCode(draw), now + ResetCodeLifetime))
  {
    var issues := ForgotPasswordIssues(email, isEmail);
    if issues != [] {
      return Invalid(issues);
    }
    var user := UserByEmail(db.users, email.value);
    if user.None? {
      return Error(404, NoEmailUser);
    }
    var code := GenerateCode(draw);
    var _ := db.SetResetCode(email.value, code, now + ResetCodeLifetime);
    reply := Ok(200, ResetSent);
  }

  /** `/api/auth/reset-password`; `hashed` is `bcrypt.hash(newPassword, 12)`. */
  method ResetPassword(db: Database, code: Option<string>, newPassword: Option<string>, email: Option<string>,
                       hashed: string) returns (reply: Reply)
    modifies db
    ensures old(db.KeysHold()) ==> db.KeysHold()
    ensures db.OtherTables() == old(db.OtherTables()) && db.nextId == old(db.nextId)
    ensures ResetPasswordIssues(code, newPassword) != [] ==>
      reply == Invalid(ResetPasswordIssues(code, newPassword)) && db.users == old(db.users)
    ensures ResetPasswordIssues(code, newPassword) == [] && (email.None? || email.value == "") ==>
      reply == Error(400, EmailRequired) && db.users == old(db.users)
    ensures ResetPasswordIssues(code, newPassword) == [] && email.Some? && email.value != "" ==>
      && db.users == UpdateWhere(old(db.users), ResetMatch(email.value, code.value), NewPassword(hashed))
      && (reply == Ok(200, PasswordReset) <==> AnyMatch(old(db.users), ResetMatch(email.value, code.value)))
      && (reply != Ok(200, PasswordReset) ==> reply == Error(400, InvalidResetCode))
  {
    var issues := ResetPasswordIssues(code, newPassword);
    if issues != [] {
      return Invalid(issues);
    }
    if email.None? || email.value == "" {
      return Error(400, EmailRequired);
    }
    var ok := db.ResetPassword(email.value, code.value, hashed);
    reply := if ok then Ok(200, PasswordReset) else Error(400, InvalidResetCode);
  }

  // ---------------------------------------------------------------------------
  // Profile
  // ---------------------------------------------------------------------------

  /** `/api/profile/update`: copy each text field that is present and the URL of
      each uploaded image into `updates`; with nothing to copy, answer with the
      unchanged user instead of updating. */
  method UpdateProfile(db: Database, userId: string, bio: Option<string>, favoriteTeacher: Option<string>,
                       hobby: Option<string>, classOf: Option<string>, clan: Option<string>,
                       profilePicture: Option<string>, coverPhoto: Option<string>, fileUrl: string -> string)
    returns (reply: Reply, user: Option<User>)
    modifies db
    ensures old(db.KeysHold()) ==> db.KeysHold()
    ensures db.OtherTables() == old(db.OtherTables()) && db.nextId == old(db.nextId)
    ensures
      var patch := UserPatch(bio, favoriteTeacher, hobby, classOf, clan,
                             if profilePicture.Some? then Some(fileUrl(profilePicture.value)) else None,
                             if coverPhoto.Some? then Some(fileUrl(coverPhoto.value)) else None,
                             None);
      && (patch == NoChanges ==> reply == Ok(200, NoChangesToUpdate) && db.users == old(db.users))
      && (patch != NoChanges ==>
            reply == Ok(200, ProfileUpdated) && db.users == UpdateWhere(old(db.users), HasId(userId), Patched(patch)))
    ensures user == UserById(db.users, userId)
  {
    var updates := NoChanges;
    if bio.Some? { updates := updates.(bio := bio); }
    if favoriteTeacher.Some? { updates := updates.(favoriteTeacher := favoriteTeacher); }
    if hobby.Some? { updates := updates.(hobby := hobby); }
    if classOf.Some? { updates := updates.(classOf := classOf); }
    if clan.Some? { updates := updates.(clan := clan); }
    if profilePicture.Some? { updates := updates.(profilePicture := Some(fileUrl(profilePicture.value))); }
    if coverPhoto.Some? { updates := updates.(coverPhoto := Some(fileUrl(coverPhoto.value))); }
    if updates == NoChanges {
      reply, user := Ok(200, NoChangesToUpdate), UserById(db.users, userId);
    } else {
      user := db.UpdateUser(userId, updates);
      reply := Ok(200, ProfileUpdated);
    }
  }

  /** A profile update never touches the credentials, the codes or the
      verification flag, so uniqueness of emails and usernames survives it. */
  lemma ProfileUpdateKeepsAccounts(users: seq<User>, userId: string, patch: UserPatch)
    requires patch.verificationCode.None?
    requires UniqueAccounts(users)
    ensures UniqueAccounts(UpdateWhere(users, HasId(userId), Patched(patch)))
    ensures forall i | 0 <= i < |users| ::
      var u := UpdateWhere(users, HasId(userId), Patched(patch))[i];
      && u.password == users[i].password && u.isVerified == users[i].isVerified
      && u.verificationCode == users[i].verificationCode && u.resetCode == users[i].resetCode
  {
    var r := UpdateWhere(users, HasId(userId), Patched(patch));
    forall i | 0 <= i < |users|
      ensures r[i].email == users[i].email && r[i].username == users[i].username
      ensures r[i].password == users[i].password && r[i].isVerified == users[i].isVerified
      ensures r[i].verificationCode == users[i].verificationCode && r[i].resetCode == users[i].resetCode
    {
    }
  }

  // ---------------------------------------------------------------------------
  // Messages
  // ---------------------------------------------------------------------------

  /** What multer hands a route for an uploaded file. */
  datatype UploadedFile = UploadedFile(filename: string, originalName: string, mimetype: string, size: int)

  /** The room each connection of a user joins. */
  function UserRoom(userId: string): (room: string)
    ensures StartsWith(room, "user_") && room[5..] == userId
  {
    "user_" + userId
  }

  /** `POST /api/messages`: validate, store, and address the new message to the
      receiver's and the sender's rooms. `message` is both the `new_message`
      payload and the 201 body: the stored row with its sender's names. A
      sender or receiver without a row makes the insert fail, which the catch
      answers with 400 and the database's text; nothing is stored or emitted. */
  method SendMessage(db: Database, senderId: string, receiverId: Option<string>, content: Option<string>,
                     file: Option<UploadedFile>, fileUrl: string -> string, now: int)
    returns (reply: Reply, message: Option<MessageWithSender>, rooms: seq<string>)
    modifies db
    ensures
      var mediaUrl := if file.Some? then Some(fileUrl(file.value.filename)) else None;
      var issues := MessageIssues(receiverId, OrNull(content), mediaUrl);
      && (issues != [] ==>
            && reply == Invalid(issues) && message.None? && rooms == []
            && db.messages == old(db.messages) && db.nextId == old(db.nextId))
      && (issues == [] && (UserById(db.users, senderId).None? || UserById(db.users, receiverId.value).None?) ==>
            && reply == Error(400, ForeignKeyError("messages")) && message.None? && rooms == []
            && db.messages == old(db.messages) && db.nextId == old(db.nextId))
      && (issues == [] && UserById(db.users, senderId).Some? && UserById(db.users, receiverId.value).Some? ==>
            var stored := NewMessage(NatToString(old(db.nextId)), senderId, receiverId.value,
                 OrNull(content), mediaUrl,
                 if file.Some? then Some(Split(file.value.mimetype, '/')[0]) else None,
                 if file.Some? then Some(file.value.originalName) else None, now);
            && reply == Ok(201, "")
            && rooms == [UserRoom(receiverId.value), UserRoom(senderId)]
            && db.messages == old(db.messages) + [stored]
            && message == Some(Attach(stored, UserById(db.users, senderId).value))
            && db.nextId == old(db.nextId) + 1)
    ensures db.users == old(db.users) && db.reactions == old(db.reactions)
    ensures db.galleryItems == old(db.galleryItems) && db.galleryReactions == old(db.galleryReactions)
    ensures old(db.KeysHold()) ==> db.KeysHold()
  {
    var body := OrNull(content);
    var mediaUrl := if file.Some? then Some(fileUrl(file.value.filename)) else None;
    var mediaType := if file.Some? then Some(Split(file.value.mimetype, '/')[0]) else None;
    var fileName := if file.Some? then Some(file.value.originalName) else None;
    var issues := MessageIssues(receiverId, body, mediaUrl);
    if issues != [] {
      return Invalid(issues), None, [];
    }
    message := db.CreateMessage(senderId, receiverId.value, body, mediaUrl, mediaType, fileName, now);
    if message.None? {
      return Error(400, ForeignKeyError("messages")), None, [];
    }
    rooms := [UserRoom(receiverId.value), UserRoom(senderId)];
    reply := Ok(201, "");
  }

  /** A message the route accepts is stored with text or with media: the empty
      string counts as no content at every step. */
  lemma AcceptedMessageHasBody(receiverId: Option<string>, content: Option<string>, mediaUrl: Option<string>)
    requires MessageIssues(receiverId, OrNull(content), mediaUrl) == []
    ensures
      var m := NewMessage("", "", receiverId.value, OrNull(content), mediaUrl, None, None, 0);
      (m.content.Some? && m.content.value != "") || (m.mediaUrl.Some? && m.mediaUrl.value != "")
  {
  }

  // ---------------------------------------------------------------------------
  // Gallery
  // ---------------------------------------------------------------------------

  const MaxUploadBytes := 10 * 1024 * 1024

  datatype Checked = Rejected(message: string) | Accepted(mediaType: string)

  /** The checks of `/api/gallery/upload`, in their order. */
  function CheckGalleryUpload(file: Option<UploadedFile>): (r: Checked)
    ensures r.Accepted? <==>
      && file.Some? && file.value.size <= MaxUploadBytes
      && (StartsWith(file.value.mimetype, "image/") || StartsWith(file.value.mimetype, "video/"))
    ensures r.Accepted? ==> (r.mediaType == "image" <==> StartsWith(file.value.mimetype, "image/"))
    ensures r.Accepted? ==> r.mediaType == "image" || r.mediaType == "video"
    ensures file.None? ==> r == Rejected("No file uploaded")
    ensures file.Some? && file.value.size > MaxUploadBytes ==> r == Rejected("File size must be less than 10MB")
  {
    if file.None? then Rejected("No file uploaded")
    else if file.value.size > MaxUploadBytes then Rejected("File size must be less than 10MB")
    else
      var mediaType := if StartsWith(file.value.mimetype, "image/") then "image" else "video";
      if !StartsWith(file.value.mimetype, "image/") && !StartsWith(file.value.mimetype, "video/")
      then Rejected("Only images and videos are allowed")
      else Accepted(mediaType)
  }

  /** `/api/gallery/upload`: the file checks, then the insert, which fails
      with 400 when the uploader has no row. */
  method UploadToGallery(db: Database, userId: string, file: Option<UploadedFile>, title: Option<string>,
                         description: Option<string>, fileUrl: string -> string, now: int)
    returns (reply: Reply, item: Option<GalleryItem>)
    modifies db
    ensures CheckGalleryUpload(file).Rejected? ==>
      && reply == Error(400, CheckGalleryUpload(file).message) && item.None?
      && db.galleryItems == old(db.galleryItems) && db.nextId == old(db.nextId)
    ensures CheckGalleryUpload(file).Accepted? && UserById(db.users, userId).None? ==>
      && reply == Error(400, ForeignKeyError("gallery")) && item.None?
      && db.galleryItems == old(db.galleryItems) && db.nextId == old(db.nextId)
    ensures CheckGalleryUpload(file).Accepted? && UserById(db.users, userId).Some? ==>
      && reply == Ok(201, "")
      && item == Some(GalleryItem(NatToString(old(db.nextId)), userId, OrNull(title), OrNull(description),
                                  fileUrl(file.value.filename), CheckGalleryUpload(file).mediaType,
                                  file.value.filename, file.value.size, now))
      && db.galleryItems == old(db.galleryItems) + [item.value]
      && db.nextId == old(db.nextId) + 1
    ensures db.users == old(db.users) && db.messages == old(db.messages)
    ensures db.reactions == old(db.reactions) && db.galleryReactions == old(db.galleryReactions)
    ensures old(db.KeysHold()) ==> db.KeysHold()
  {
    var checked := CheckGalleryUpload(file);
    if checked.Rejected? {
      return Error(400, checked.message), None;
    }
    item := db.CreateGalleryItem(userId, OrNull(title), OrNull(description), fileUrl(file.value.filename),
                                 checked.mediaType, file.value.filename, file.value.size, now);
    reply := if item.Some? then Ok(201, "") else Error(400, ForeignKeyError("gallery"));
  }

  const GalleryReactionKinds: seq<string> := ["like", "love", "dislike"]

  /** `/api/gallery/react`: only the three kinds are accepted; the user's
      previous reaction on the item is replaced. An unknown item or user makes
      the insert fail with 400; with the keys holding, nothing was deleted
      before it either. */
  method ReactInGallery(db: Database, userId: string, galleryId: string, kind: string) returns (reply: Reply)
    modifies db
    ensures kind !in GalleryReactionKinds ==>
      reply == Error(400, "Invalid reaction type") && db.galleryReactions == old(db.galleryReactions)
      && db.nextId == old(db.nextId)
    ensures kind in GalleryReactionKinds && UserById(db.users, userId).Some? && HasItem(db.galleryItems, galleryId) ==>
      && reply == Ok(200, "")
      && db.galleryReactions == WithReaction(old(db.galleryReactions), Reaction(NatToString(old(db.nextId)), userId, galleryId, kind))
      && db.nextId == old(db.nextId) + 1
    ensures kind in GalleryReactionKinds && (UserById(db.users, userId).None? || !HasItem(db.galleryItems, galleryId)) ==>
      && reply == Error(400, ForeignKeyError("gallery_reactions"))
      && db.galleryReactions == Filter(old(db.galleryReactions), NotOfPair(userId, galleryId))
      && (old(db.KeysHold()) ==> db.galleryReactions == old(db.galleryReactions))
      && db.nextId == old(db.nextId)
    ensures db.users == old(db.users) && db.messages == old(db.messages)
    ensures db.reactions == old(db.reactions) && db.galleryItems == old(db.galleryItems)
    ensures old(db.KeysHold()) ==> db.KeysHold()
  {
    if kind !in GalleryReactionKinds {
      return Error(400, "Invalid reaction type");
    }
    var added := db.AddGalleryReaction(userId, galleryId, kind);
    reply := if added.Some? then Ok(200, "") else Error(400, ForeignKeyError("gallery_reactions"));
  }

  /** Every accepted gallery reaction fits the `type` column. */
  lemma GalleryKindsFit(kind: string)
    requires kind in GalleryReactionKinds
    ensures |kind| <= ReactionTypeLength
  {
  }
}

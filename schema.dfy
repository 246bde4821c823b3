/** The tables and request schemas of `shared/schema.ts`: one datatype per row,
    the varchar length bounds of the columns, and the zod schemas as functions
    that list the issues a request body raises (an empty list means the body
    parses). */
module Schema {
  import opened Common

  // ---------------------------------------------------------------------------
  // Rows
  // ---------------------------------------------------------------------------

  /** A row of `users`. `password` holds the bcrypt hash; times are milliseconds. */
  datatype User = User(
    id: string,
    name: string,
    username: string,
    email: string,
    password: string,
    classOf: string,
    clan: string,
    profilePicture: Option<string>,
    coverPhoto: Option<string>,
    bio: Option<string>,
    favoriteTeacher: Option<string>,
    hobby: Option<string>,
    isVerified: bool,
    verificationCode: Option<string>,
    resetCode: Option<string>,
    resetCodeExpires: Option<int>,
    createdAt: int)

  /** A row of `messages`. */
  datatype Message = Message(
    id: string,
    senderId: string,
    receiverId: string,
    content: Option<string>,
    mediaUrl: Option<string>,
    mediaType: Option<string>,
    fileName: Option<string>,
    createdAt: int,
    readAt: Option<int>)

  /** A row of `reactions` (target = post) or of `gallery_reactions`
      (target = gallery item); the two tables have the same shape. */
  datatype Reaction = Reaction(id: string, userId: string, targetId: string, kind: string)

  /** A row of `gallery`. */
  datatype GalleryItem = GalleryItem(
    id: string,
    userId: string,
    title: Option<string>,
    description: Option<string>,
    mediaUrl: string,
    mediaType: string,
    fileName: string,
    fileSize: int,
    createdAt: int)

  // ---------------------------------------------------------------------------
  // Column bounds
  // ---------------------------------------------------------------------------

  const ClassOfLength: nat := 4
  const ClanLength: nat := 20
  const CodeLength: nat := 6
  const MediaTypeLength: nat := 20
  const ReactionTypeLength: nat := 10

  predicate FitsOptional(v: Option<string>, bound: nat)
  {
    v.Some? ==> |v.value| <= bound
  }

  /** `class_of` varchar(4), `clan` varchar(20), both codes varchar(6). */
  predicate UserFitsColumns(u: User)
  {
    && |u.classOf| <= ClassOfLength
    && |u.clan| <= ClanLength
    && FitsOptional(u.verificationCode, CodeLength)
    && FitsOptional(u.resetCode, CodeLength)
  }

  /** `messages.media_type` varchar(20). */
  predicate MessageFitsColumns(m: Message)
  {
    FitsOptional(m.mediaType, MediaTypeLength)
  }

  /** `type` varchar(10) in both reaction tables. */
  predicate ReactionFitsColumns(r: Reaction)
  {
    |r.kind| <= ReactionTypeLength
  }

  /** `gallery.media_type` varchar(20). */
  predicate GalleryItemFitsColumns(g: GalleryItem)
  {
    |g.mediaType| <= MediaTypeLength
  }

  // ---------------------------------------------------------------------------
  // zod string checks
  // ---------------------------------------------------------------------------

  /** `.min(n)`, `.max(n)` and `.length(n)` on a string. */
  datatype Rule = MinLength(n: nat) | MaxLength(n: nat) | ExactLength(n: nat)

  /** What a field failed: it was absent, broke a length rule, was not one of the
      allowed values, was out of a number range, or failed an object refinement. */
  datatype Check = Required | Length(rule: Rule) | EmailFormat | OneOf(options: seq<string>) | AtLeast(min: int) | AtMost(max: int) | Refinement

  /** One zod issue: the field, the check, and the schema's own message if it gives one. */
  datatype Issue = Issue(path: string, check: Check, message: Option<string>)

  predicate Holds(rule: Rule, v: string)
  {
    match rule
    case MinLength(n) => |v| >= n
    case MaxLength(n) => |v| <= n
    case ExactLength(n) => |v| == n
  }

  /** The issues of one present string field, one per rule it breaks. */
  function RuleIssues(path: string, v: string, rules: seq<(Rule, Option<string>)>): (r: seq<Issue>)
    ensures r == [] <==> forall i | 0 <= i < |rules| :: Holds(rules[i].0, v)
    ensures forall k | 0 <= k < |r| :: r[k].path == path && r[k].check.Length?
  {
    if rules == [] then []
    else
      var rest := RuleIssues(path, v, rules[1..]);
      assert forall i | 1 <= i < |rules| :: rules[i] == rules[1..][i - 1];
      if Holds(rules[0].0, v) then rest
      else [Issue(path, Length(rules[0].0), rules[0].1)] + rest
  }

  /** A required `z.string()` field with its rules: an absent field raises
      `Required` and nothing else. */
  function StringField(path: string, v: Option<string>, rules: seq<(Rule, Option<string>)>): (r: seq<Issue>)
    ensures r == [] <==> v.Some? && forall i | 0 <= i < |rules| :: Holds(rules[i].0, v.value)
  {
    if v.None? then [Issue(path, Required, None)]
    else RuleIssues(path, v.value, rules)
  }

  /** An optional `z.string().optional()` field: absent is fine. */
  function OptionalStringField(path: string, v: Option<string>, rules: seq<(Rule, Option<string>)>): (r: seq<Issue>)
    ensures r == [] <==> v.None? || forall i | 0 <= i < |rules| :: Holds(rules[i].0, v.value)
  {
    if v.None? then [] else RuleIssues(path, v.value, rules)
  }

  // ---------------------------------------------------------------------------
  // Schemas
  // ---------------------------------------------------------------------------

  /** `loginSchema`: both fields present and non-empty. */
  function LoginIssues(identifier: Option<string>, password: Option<string>): (r: seq<Issue>)
    ensures r == [] <==>
      identifier.Some? && identifier.value != "" && password.Some? && password.value != ""
  {
    StringField("identifier", identifier, [(MinLength(1), Some("Email or username is required"))])
    + StringField("password", password, [(MinLength(1), Some("Password is required"))])
  }

  /** `forgotPasswordSchema`: a well-formed email address; what zod accepts as
      one is the parameter `isEmail`. */
  function ForgotPasswordIssues(email: Option<string>, isEmail: string -> bool): (r: seq<Issue>)
    ensures r == [] <==> email.Some? && isEmail(email.value)
    ensures email.Some? && r != [] ==> r == [Issue("email", EmailFormat, Some("Valid email is required"))]
  {
    if email.None? then [Issue("email", Required, None)]
    else if isEmail(email.value) then []
    else [Issue("email", EmailFormat, Some("Valid email is required"))]
  }

  /** `resetPasswordSchema`: a code of exactly six characters and a new password
      of at least eight. */
  function ResetPasswordIssues(code: Option<string>, newPassword: Option<string>): (r: seq<Issue>)
    ensures r == [] <==>
      code.Some? && |code.value| == 6 && newPassword.Some? && |newPassword.value| >= 8
  {
    StringField("code", code, [(ExactLength(6), Some("Code must be 6 characters"))])
    + StringField("newPassword", newPassword, [(MinLength(8), Some("Password must be at least 8 characters"))])
  }

  /** `verificationSchema`: a code of exactly six characters. */
  function VerificationIssues(code: Option<string>): (r: seq<Issue>)
    ensures r == [] <==> code.Some? && |code.value| == 6
  {
    StringField("code", code, [(ExactLength(6), Some("Code must be 6 characters"))])
  }

  /** `insertCommentSchema`: a post id and 1 to 500 characters of content. */
  function CommentIssues(postId: Option<string>, content: Option<string>): (r: seq<Issue>)
    ensures r == [] <==> postId.Some? && content.Some? && 1 <= |content.value| <= 500
  {
    var rules := [(MinLength(1), None), (MaxLength(500), None)];
    assert |rules| == 2 && rules[0].0 == MinLength(1) && rules[1].0 == MaxLength(500);
    assert content.Some? ==>
      ((forall i | 0 <= i < |rules| :: Holds(rules[i].0, content.value)) <==> 1 <= |content.value| <= 500);
    StringField("postId", postId, []) + StringField("content", content, rules)
  }

  const FeedbackTypes: seq<string> := ["public", "private", "anonymous"]

  /** `insertFeedbackSchema`: 1 to 1000 characters, a rating from 1 to 10, and one
      of the three feedback types. */
  function FeedbackIssues(content: Option<string>, rating: Option<int>, kind: Option<string>): (r: seq<Issue>)
    ensures r == [] <==>
      && content.Some? && 1 <= |content.value| <= 1000
      && rating.Some? && 1 <= rating.value <= 10
      && kind.Some? && kind.value in {"public", "private", "anonymous"}
  {
    var rules := [(MinLength(1), None), (MaxLength(1000), None)];
    assert |rules| == 2 && rules[0].0 == MinLength(1) && rules[1].0 == MaxLength(1000);
    assert content.Some? ==>
      ((forall i | 0 <= i < |rules| :: Holds(rules[i].0, content.value)) <==> 1 <= |content.value| <= 1000);
    var ratingIssues :=
      if rating.None? then [Issue("rating", Required, None)]
      else
        (if rating.value < 1 then [Issue("rating", AtLeast(1), None)] else [])
        + (if rating.value > 10 then [Issue("rating", AtMost(10), None)] else []);
    var typeIssues :=
      if kind.None? then [Issue("type", Required, None)]
      else if kind.value in FeedbackTypes then []
      else [Issue("type", OneOf(FeedbackTypes), None)];
    StringField("content", content, rules) + ratingIssues + typeIssues
  }

  /** `insertMessageSchema`: the object checks run first; only a well-formed object
      is refined, and the refinement needs a non-empty `content` or `mediaUrl`
      (the empty string is falsy). */
  function MessageIssues(receiverId: Option<string>, content: Option<string>, mediaUrl: Option<string>): (r: seq<Issue>)
    ensures r == [] <==>
      receiverId.Some? && ((content.Some? && content.value != "") || (mediaUrl.Some? && mediaUrl.value != ""))
    ensures receiverId.Some? && r != [] ==> r == [Issue("", Refinement, Some("Either content or media is required"))]
  {
    var shape := StringField("receiverId", receiverId, []);
    if shape != [] then shape
    else if (content.Some? && content.value != "") || (mediaUrl.Some? && mediaUrl.value != "") then []
    else [Issue("", Refinement, Some("Either content or media is required"))]
  }

  /** `insertUserSchema` (derived from the table): the six not-null columns
      are required, and `classOf` and `clan` are bounded by their varchar lengths. */
  function RegisterIssues(name: Option<string>, username: Option<string>, email: Option<string>,
                          password: Option<string>, classOf: Option<string>, clan: Option<string>): (r: seq<Issue>)
    ensures r == [] <==>
      && name.Some? && username.Some? && email.Some? && password.Some?
      && classOf.Some? && |classOf.value| <= ClassOfLength
      && clan.Some? && |clan.value| <= ClanLength
  {
    StringField("name", name, [])
    + StringField("username", username, [])
    + StringField("email", email, [])
    + StringField("password", password, [])
    + StringField("classOf", classOf, [(MaxLength(ClassOfLength), None)])
    + StringField("clan", clan, [(MaxLength(ClanLength), None)])
  }

  /** `insertReactionSchema` (derived from the table): a post id and a type of at
      most ten characters. */
  function ReactionIssues(postId: Option<string>, kind: Option<string>): (r: seq<Issue>)
    ensures r == [] <==> postId.Some? && kind.Some? && |kind.value| <= ReactionTypeLength
  {
    StringField("postId", postId, [])
    + StringField("type", kind, [(MaxLength(ReactionTypeLength), None)])
  }
}

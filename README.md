# Alumni network: a Dafny model of its messaging, validation and client logic

This project models the core of an alumni social network written in TypeScript:

- the data layer behind private messaging and reactions (`server/storage.ts`);
- the request schemas (`shared/schema.ts`);
- the guard chains of the HTTP routes and the socket.io room rules (`server/routes.ts`);
- the browser's authentication service (`client/src/lib/auth.ts`);
- the list, form and counter logic of four pages: inbox, job zone, community and gallery.

Database tables are sequences of rows held by a `Database` class. Each storage method updates those fields, and its contract states the new tables exactly. The queries are pure functions over the tables, and lemmas prove what the application relies on:

- the message history of a pair is symmetric and ordered by time;
- the inbox list has one entry per counterpart, holds the latest message and the unread count, and is sorted newest first;
- adding a reaction replaces the user's earlier reaction on the same target;
- verification and reset codes only act when both the email and the code match.

Route handlers are methods over the `Database`. Browser pages are classes whose fields are the React state, and the server's answers are method parameters. Foreign code is also passed in as parameters:

- JWT signing and verification (a map from valid tokens to their claims);
- bcrypt (a hashed string, or a comparison function);
- the random draw of `generateCode`;
- the clock;
- the upload service's URL function.

Modules follow the source files:

- `Common`: filtering, sorting, and the JavaScript string operations the code uses (`trim`, `toLowerCase`, `includes`, `split`, `join`, number formatting, default sort order);
- `Schema`: the tables and the zod schemas;
- `Storage`: the storage layer;
- `Routes`: the HTTP routes;
- `Realtime`: socket rooms and event audiences;
- `Auth`: the client authentication service;
- `Inbox`, `JobZone`, `Community` and `Gallery`: the pages.

## Model

| member | source | states |
|---|---|---|
| Schema.LoginIssues | shared/schema.ts:183-186 | a login payload is accepted iff identifier and password are both present and non-empty |
| Schema.ForgotPasswordIssues | shared/schema.ts:188-190 | accepted iff an email is present and well formed; a malformed one gives exactly the "Valid email is required" issue |
| Schema.ResetPasswordIssues | shared/schema.ts:192-195 | accepted iff the code has exactly 6 characters and the new password at least 8 |
| Schema.VerificationIssues | shared/schema.ts:197-199 | accepted iff the code has exactly 6 characters |
| Schema.CommentIssues | shared/schema.ts:219-222 | accepted iff a post id is present and the content has 1 to 500 characters |
| Schema.FeedbackIssues | shared/schema.ts:238-242 | accepted iff content has 1..1000 characters, rating is in 1..10 and type is public, private or anonymous |
| Schema.MessageIssues | shared/schema.ts:226-234 | accepted iff a receiver is present and content or mediaUrl is a non-empty string; otherwise the single refinement issue |
| Schema.RegisterIssues | shared/schema.ts:174-181 | accepted iff the six not-null fields are present, classOf has at most 4 and clan at most 20 characters |
| Schema.ReactionIssues | shared/schema.ts:213-217 | accepted iff a post id is present and the type fits its 10-character column |
| Storage.UserById | server/storage.ts:74-77 | finds a row with that id, and finds none iff no row has it |
| Storage.UserByEmail | server/storage.ts:79-82 | finds a row with that email, and finds none iff no row has it |
| Storage.UserByUsername | server/storage.ts:84-87 | finds a row with that username, and finds none iff no row has it |
| Storage.UserByIdentifier | server/storage.ts:89-94 | finds a row whose email or username is the identifier, and finds none iff no row matches either |
| Storage.JoinSenders | server/storage.ts:434-435 | the inner join gives one row per message whose sender has a row, in the table's order, each carrying that sender's name and username; messages without a sender row are dropped |
| Storage.JoinSendersCount | server/storage.ts:434-435 | the join keeps each message with a sender row exactly as many times as the table holds it |
| Storage.MessagesBetweenSpec | server/storage.ts:419-445 | the history of a pair is sorted by createdAt and is a permutation of the joined pair messages: it holds exactly the pair's messages (both directions) whose sender exists, as many as there are |
| Storage.HistoryCount | server/storage.ts:419-445 | each message of the pair with a sender row appears in the history exactly as often as in the table, so nothing is lost or repeated |
| Storage.MessagesBetweenSymmetric | server/storage.ts:436-441 | the history of (a, b) equals the history of (b, a) |
| Storage.SentMessageListed | server/storage.ts:379-445 | a message just stored appears in the history of its pair, seen from either side |
| Storage.Partners | server/storage.ts:449-457 | the DISTINCT counterparts hold no duplicates |
| Storage.PartnersComplete | server/storage.ts:449-457 | a user is a counterpart iff some message was exchanged between them and the given user |
| Storage.Latest | server/storage.ts:477-496 | the last message is absent iff the pair exchanged none; otherwise it is one of theirs with the maximal createdAt |
| Storage.UnreadAfterIncoming | server/storage.ts:498-508 | an unread message to the user adds one to the unread count from its sender |
| Storage.UnreadAfterOwn | server/storage.ts:498-508 | a message the user sends never changes the unread count |
| Storage.Entries | server/storage.ts:461-516 | the loop's list holds an entry for each counterpart with a user row, and every entry is the one computed for its counterpart |
| Storage.EntriesDistinct | server/storage.ts:459-516 | distinct counterparts give entries with distinct user ids |
| Storage.ConversationsSpec | server/storage.ts:447-526 | the inbox list is sorted by last-message time, newest first, where no message counts as time 0; it has one entry per counterpart with a row, and each entry holds that pair's latest message and unread count |
| Storage.UpdateWhere | server/storage.ts:109-156 | `UPDATE … WHERE` replaces exactly the matching rows and keeps the others |
| Storage.ApplyPatch | server/storage.ts:109-116 | each of the eight patch fields takes the supplied value and keeps the old one when absent; id, credentials, verification flag, reset code, its expiry and the creation time never change; an empty patch changes nothing |
| Storage.VerifyOnce | server/storage.ts:118-125 | after verification no row matches the same email and code again; each matched row is verified and has no code |
| Storage.ResetOnce | server/storage.ts:127-156 | a code just set for an existing email is accepted once, with no expiry check; afterwards it matches nothing |
| Storage.UpdatesKeepColumns | shared/schema.ts:13-22 | rows that fit their varchar columns still fit after verification, setting a 6-character reset code, and a password reset |
| Storage.WithReactionSpec | server/storage.ts:272-287 | after adding, the pair (user, target) has exactly the new reaction, and the reactions of every other pair are unchanged |
| Storage.WithoutReactionSpec | server/storage.ts:289-297 | removal deletes every reaction of the pair, keeps all others, and reports true iff there was one |
| Storage.AddThenRemove | server/storage.ts:272-297 | removing right after adding reports true and leaves the pair without reactions |
| Storage.CountKind | client/src/pages/gallery.tsx:150-152 | the count is at most the number of reactions, and zero iff none has that type |
| Storage.CountKindAppend | client/src/pages/gallery.tsx:150-152 | one more reaction adds one to the count of its own type and nothing to the others |
| Storage.ReactionsOn | server/storage.ts:572-575 | an item's reactions are exactly those whose target is that item |
| Storage.SearchUsersSpec | server/storage.ts:158-185 | the search result is sorted by name and holds each user (with multiplicity) iff it passes every supplied filter |
| Storage.SearchWithoutFilters | server/storage.ts:158-185 | with no filters the search returns every user, verified or not |
| Storage.Database.constructor | server/storage.ts:73 | all tables start empty, so the foreign keys hold |
| Storage.UsersGrow | server/storage.ts:96-107 | a user row that a key refers to is still there after another user is added |
| Storage.SameIds | server/storage.ts:109-116 | updating user rows in place without changing ids keeps every key reference resolvable |
| Storage.NothingToDelete | server/storage.ts:579-597 | while the foreign keys hold, an unknown user or item has no gallery reaction to delete |
| Storage.Database.CreateUser | server/storage.ts:96-107 | appends the new unverified user with its hashed password, its code and the optional profile fields given, and changes no other table |
| Storage.Database.UpdateUser | server/storage.ts:109-116 | applies the patch to the row with that id and returns that row, or nothing iff there is no such row |
| Storage.Database.VerifyUser | server/storage.ts:118-125 | verifies the rows matching email and code, and returns true iff there was one |
| Storage.Database.SetResetCode | server/storage.ts:127-134 | stores the code and expiry on the rows with that email, and returns true iff there was one |
| Storage.Database.ResetPassword | server/storage.ts:136-156 | sets the password and clears the code on rows matching email and code, ignoring the expiry; returns true iff one matched |
| Storage.Database.CreateMessage | server/storage.ts:379-417 | with sender and receiver rows present, appends the message, unread, with empty strings stored as null, and returns it with its sender's name; otherwise the insert fails and nothing is stored; the foreign keys keep holding |
| Storage.Database.GetMessages | server/storage.ts:419-445 | returns the pair's history |
| Storage.Database.GetConversations | server/storage.ts:447-526 | the loop over the counterparts followed by the sort yields the inbox list |
| Storage.Database.AddReaction | server/storage.ts:272-287 | the reactions become the old ones without the pair's, plus the new one |
| Storage.Database.RemoveReaction | server/storage.ts:289-297 | deletes the pair's reactions and reports whether there was one |
| Storage.Database.AddGalleryReaction | server/storage.ts:579-597 | the pair's old reaction is always deleted first; with user and item rows present the new one is added, otherwise the insert fails, which deleted nothing while the foreign keys held; the keys keep holding |
| Storage.Database.RemoveGalleryReaction | server/storage.ts:599-611 | deletes the pair's gallery reactions and reports whether there was one |
| Storage.Database.CreateGalleryItem | server/storage.ts:529-540 | with the uploader's row present, appends the new gallery row; otherwise the insert fails; no other table changes and the foreign keys keep holding |
| Routes.HeaderToken | server/routes.ts:32-33 | the token taken from the header is non-empty and holds no space |
| Routes.AuthenticateToken | server/routes.ts:30-50 | missing token iff the header has no second word; invalid iff that word is not a valid token; otherwise it carries that token's claims |
| Routes.AuthFailure | server/routes.ts:35-43 | a missing token answers 401 and an invalid one 403 |
| Routes.BearerHeader | server/routes.ts:32-33 | `Bearer <token>` yields exactly that token |
| Routes.OneWordHeader | server/routes.ts:32-36 | a header without a space counts as a missing token |
| Routes.GenerateCode | server/routes.ts:52-54 | the code is six decimal digits and reads back as 100000 + draw, in 100000..999999 |
| Routes.GeneratedCodeAccepted | server/routes.ts:52-54 | a generated code passes the verification and reset schemas and fits its column; different draws give different codes |
| Routes.RegisterGuard | server/routes.ts:66-74 | a taken email is reported first, a taken username only for a new email, and the guard passes iff both are free |
| Routes.Register | server/routes.ts:61-96 | invalid input or a taken email or username changes nothing; otherwise exactly the new unverified user is appended, with the body's optional profile fields; email and username uniqueness is preserved |
| Routes.Login | server/routes.ts:98-143 | invalid input is a 400; an unknown identifier and a wrong password give "Invalid credentials"; an unverified user gives "verify first"; only a verified user with a matching password logs in |
| Routes.LoginComparesLast | server/routes.ts:102-114 | for an unknown or unverified user the answer does not depend on the password comparison, and is never a login |
| Routes.VerifyEmail | server/routes.ts:145-188 | the code is checked, then the email is required; the matching user is verified and signed in; otherwise "Invalid verification code" |
| Routes.ResendCode | server/routes.ts:190-212 | unknown email 404, verified user 400; otherwise only the verification code changes |
| Routes.ForgotPassword | server/routes.ts:214-234 | validated email; unknown email 404; otherwise a fresh code expiring an hour after now is stored |
| Routes.ResetPassword | server/routes.ts:236-255 | validated code and password, email required; succeeds iff a row matches email and code |
| Routes.UpdateProfile | server/routes.ts:258-300 | only the supplied whitelisted fields and uploaded images are copied; with none it answers "No changes to update" and leaves the users unchanged |
| Routes.ProfileUpdateKeepsAccounts | server/routes.ts:266-290 | a profile update keeps credentials, codes, verification flag and account uniqueness |
| Routes.UserRoom | server/routes.ts:689 | a user's own room is `user_` followed by the id |
| Routes.SendMessage | server/routes.ts:541-567 | an invalid payload stores nothing; a valid one stores exactly one message, and the payload sent to the receiver's and the sender's rooms and returned is that row with its sender's names; a sender or receiver without a row answers 400 with the foreign-key error and stores nothing |
| Routes.AcceptedMessageHasBody | server/routes.ts:543-554 | a message the route accepts is stored with non-empty content or media |
| Routes.CheckGalleryUpload | server/routes.ts:590-607 | accepted iff a file is present, at most 10 MiB, and an image or video; mediaType is image iff the mimetype starts with `image/` |
| Routes.UploadToGallery | server/routes.ts:590-630 | a rejected upload stores nothing; an accepted one by a user without a row answers 400 with the foreign-key error; otherwise it appends exactly the described gallery row |
| Routes.ReactInGallery | server/routes.ts:632-655 | types other than like, love and dislike are refused; an unknown user or item answers 400 with the foreign-key error; otherwise the user's reaction on the item is replaced |
| Routes.GalleryKindsFit | server/routes.ts:636-638 | each accepted gallery reaction type fits the 10-character column |
| Realtime.RoomKeySymmetric | server/routes.ts:691-700 | `[a, b].sort().join('_')` is the same room from both ends |
| Realtime.RoomKeyInjective | server/routes.ts:692 | for ids without `_`, equal rooms mean the same pair |
| Realtime.ConversationRoomIsNotUserRoom | server/routes.ts:689-692 | for ids without `_` and other than `user`, a conversation room is never a user's own room |
| Realtime.Members | server/routes.ts:557-560 | a room's audience is exactly the connections that joined it |
| Realtime.NewMessageReachesBoth | server/routes.ts:557-560 | every connection of the receiver and of the sender gets `new_message` |
| Realtime.TypingAudience | server/routes.ts:702-708 | `user_typing` goes to the pair's room and never back to the typist |
| Realtime.TypingReachesPartner | server/routes.ts:691-708 | a partner connection that joined the conversation hears the typing |
| Realtime.Hub.Connect | server/routes.ts:669-689 | a missing or rejected token adds no connection; an accepted one adds a connection in its own user's room |
| Realtime.Hub.JoinConversation | server/routes.ts:691-695 | the connection joins the pair's room and keeps its own room |
| Realtime.Hub.LeaveConversation | server/routes.ts:697-700 | the connection leaves exactly the room that join computed |
| Auth.AuthService.constructor | client/src/lib/auth.ts:12-26 | a non-empty stored token gives an authenticated state with that token; otherwise unauthenticated |
| Auth.AuthService.Logout | client/src/lib/auth.ts:177-187 | removes the stored token and resets the state to signed out |
| Auth.AuthService.Login | client/src/lib/auth.ts:57-81 | a refusal changes neither state nor storage; a success stores the token and signs the user in |
| Auth.AuthService.VerifyEmail | client/src/lib/auth.ts:99-127 | state and storage change only for a successful answer that carries a token |
| Auth.AuthService.CheckAuthStatus | client/src/lib/auth.ts:28-55 | a profile confirms the session; only 401 and 403 log out; other failures change nothing |
| Auth.AuthService.GetState | client/src/lib/auth.ts:189-191 | returns the current state and changes nothing |
| Auth.AuthService.GetToken | client/src/lib/auth.ts:193-197 | the state's token when it is non-empty, else the stored one |
| Inbox.FilteredUsers | client/src/pages/inbox.tsx:235-238 | a user is listed iff the name or username includes the query, ignoring case, and the user is not the current user |
| Inbox.FilteredUsersKeepOrder | client/src/pages/inbox.tsx:235-238 | the list keeps the order of all users |
| Inbox.EmptyQueryListsEveryoneElse | client/src/pages/inbox.tsx:235-238 | an empty query lists everyone but the current user |
| Inbox.NewMessageInvalidations | client/src/pages/inbox.tsx:126-133 | the conversation list is always refreshed; the open chat only when the message is from or to it |
| Inbox.InboxPage.HandleFileSelect | client/src/pages/inbox.tsx:171-182 | a file over 10 MiB raises the alert and is not selected |
| Inbox.InboxPage.SendMessage | client/src/pages/inbox.tsx:184-199 | nothing is sent without text or file, without a chat, or during an upload; the form has the trimmed non-blank text and the selected file |
| Inbox.InboxPage.FinishSend | client/src/pages/inbox.tsx:201-230 | success clears text and file and refreshes the chat and the conversations; failure alerts; uploading ends |
| Inbox.SentFormsAreWellFormed | client/src/pages/inbox.tsx:193-199 | a sent form has a chat and text without surrounding white space, or a file |
| Inbox.FormWithTextAccepted | client/src/pages/inbox.tsx:193-195 | a form with text passes the server's message schema |
| JobZone.FilteredJobs | client/src/pages/job-zone.tsx:69-75 | a job is shown iff title, company or location includes the query, ignoring case, and the filter is all or its type; order is kept |
| JobZone.EverythingByDefault | client/src/pages/job-zone.tsx:69-75 | an empty query under "all" shows every job |
| JobZone.TypeFilterNarrows | client/src/pages/job-zone.tsx:74 | a type filter never shows more than "all" |
| JobZone.Locations | client/src/pages/job-zone.tsx:146 | the set holds exactly the jobs' locations and is no larger than the list |
| JobZone.LocationCount | client/src/pages/job-zone.tsx:146 | between one (for a non-empty list) and the number of jobs |
| JobZone.OneLocation | client/src/pages/job-zone.tsx:146 | jobs at a single place count as one location |
| JobZone.WithSalaryCount | client/src/pages/job-zone.tsx:153 | at most the number of jobs; all of them iff every job has a non-empty salary; zero iff none has |
| JobZone.TypeColor | client/src/pages/job-zone.tsx:77-90 | the grey badge is given iff the type is not one of the four job types |
| JobZone.TypeColorsDistinct | client/src/pages/job-zone.tsx:77-90 | different job types get different badges |
| Community.AgeOf | client/src/pages/community.tsx:125-133 | under an hour iff less than 3,600,000 ms passed (the future included); n hours means n whole hours, 1 ≤ n < 24; n days means n whole days |
| Community.FormatTimeAgo | client/src/pages/community.tsx:125-133 | the text is "Less than an hour ago", the floor of the hours, or the floor of the days, by elapsed time |
| Community.FloorOfFloor | client/src/pages/community.tsx:128-132 | flooring hours and then days equals flooring days directly |
| Community.AgeTextInjective | client/src/pages/community.tsx:130-132 | two different buckets never produce the same text |
| Community.CommunityPage.HandleFileSelect | client/src/pages/community.tsx:80-91 | a file over 10 MiB is refused with a toast and not selected |
| Community.CommunityPage.SubmitPost | client/src/pages/community.tsx:34-112 | blank text without a file is refused; otherwise the untrimmed text (if non-empty) and the file are posted; success clears the composer |
| Community.SentPostHasBody | client/src/pages/community.tsx:98-99 | a sent post has non-blank text or a file |
| Community.LikeCount | client/src/pages/community.tsx:350 | absent reactions count 0; otherwise at most the number of reactions, and 0 iff there is no like |
| Community.LikeAfterReacting | client/src/pages/community.tsx:350 | after a like through addReaction, the count is the other users' likes plus one |
| Gallery.ReactionCount | client/src/pages/gallery.tsx:150-152 | at most the number of reactions, and zero iff none has the type |
| Gallery.Spread | client/src/pages/gallery.tsx:135-137 | the merge takes every field the server sent and keeps the page's userReaction |
| Gallery.MergeById | client/src/pages/gallery.tsx:135-137 | only items with the id are merged; all others are unchanged; the length is kept |
| Gallery.MergeIdempotent | client/src/pages/gallery.tsx:135-137 | merging the same answer again changes nothing |
| Gallery.MergeKeepsIds | client/src/pages/gallery.tsx:135-137 | ids keep their places, and the merged item shows the server's reaction counts |
| Gallery.GalleryPage.constructor | client/src/pages/gallery.tsx:35-57 | a successful fetch shows the server's items, none with a reaction of the user; a failed one shows no items and an error toast with the thrown message or "Failed to load gallery" |
| Gallery.GalleryPage.HandleFileUpload | client/src/pages/gallery.tsx:59-118 | no file or one over 10 MiB sends nothing; success puts the new item first and resets the form; failure shows the server's message |
| Gallery.GalleryPage.HandleReaction | client/src/pages/gallery.tsx:120-148 | a successful answer is merged into the item with that id only; a failure shows a toast |
| Gallery.UploadedItemFirst | client/src/pages/gallery.tsx:97 | the uploaded item is first and every earlier item moves down by one |

## Left out

- Database engine: SQL `LIKE` wildcards and collation are not modelled. Search uses plain substring containment. Sorting by name uses the JavaScript character-code order, not the database collation.
- Sort ties: rows that tie in a sort come out in an unspecified order. Both the source and the model leave the order of ties open.
- Storage.Database.AddReaction: posts are not modelled, so the foreign keys of post reactions (the post and the user) are not checked and every insert succeeds.
- Foreign-key errors: the error text is the database's message without the constraint name, which depends on the generated schema.
- Varchar overflow: a value too long for its column is rejected by the database. The model states which inputs fit and does not model the database error.
- Row ids: `gen_random_uuid()` ids are modelled as the decimal string of a counter in the `Database` class.
- Selected columns: the user columns are projected as the source selects them, but message rows are kept whole. `Conversation.lastMessage` holds the full message where the source's latest-message query selects seven columns, without `receiverId` and `readAt` (server/storage.ts:479-487).
- Partner order: the order in which `SELECT DISTINCT` returns conversation partners is modelled as first-occurrence order. It is unobservable after the final sort, except among ties.
- Concurrency: concurrent requests, and the missing transactions on the register and send paths, are not modelled.
- External code: JWT signing and verification, bcrypt hashing and comparison, zod's email check and the upload service's `getFileUrl` are parameters.
- Email: sending, and its HTML templates, are not modelled.
- Nondeterminism: `Math.random` is a `draw` parameter below 900000. The clock is a `now` parameter in milliseconds.
- Other routes and storage methods: posts, comments, feedback storage, `getAllUsers`, `getGalleryItems` with its join, and `/api/profile/me` are not modelled. Nor are the search, messages and conversations routes, which only forward their parameters to storage.
- Read state: nothing in the source sets `readAt` after creation, so there is no mark-read operation.
- Feedback rating: the model uses an integer. The source accepts any number in 1..10.
- socket.io: connection lifecycle, delivery and disconnects are not modelled. An event's audience is the set of connections in its room.
- Realtime.Hub.LeaveConversation: it keeps every connection in its own room only when the conversation room differs from that room. That holds for ids without `_` that are not `user` (ConversationRoomIsNotUserRoom). The source does not rule out such ids.
- Auth.AuthService.GetState: the source returns a shallow copy, so the nested `user` object is shared with the service and a caller that mutates it changes the service's state. The model returns a value and does not capture that aliasing.
- Client auth: the `auth-state-changed` window events are not modelled. Nor are `register`, `resendCode`, `forgotPassword` and `resetPassword` of the client service, which only forward to the server and do not change its state.
- Text handling: `toLowerCase` is modelled for ASCII letters only, and `trim` for the ECMAScript white-space set. Strings are sequences of code points, not UTF-16 units.
- Community.FormatTimeAgo: the model takes times in milliseconds. It does not model date-string parsing, so an unparsable date (which shows "NaN days ago") is left out.
- Duplicate formatter: `discussion.tsx` has a copy of `formatTimeAgo`, which is modelled once here.
- Job statistics: the "Total Jobs" figure is `jobs.length` itself and has no member of its own.
- Page effects: the `accept` filter of the community file dialog, toast timing, scrolling, query fetching and rendering are not modelled.
- Async outcomes: asynchronous requests in the community and gallery pages are single steps that take the server's outcome as a parameter. The `uploading` flag is true only within that step. Inbox sending is split into `SendMessage` and `FinishSend`, because its guard reads `isUploading`.
- Failure messages: failed post creations use the thrown message "Failed to create post"; the messages of network failures are not modelled. A failed gallery reaction shows "Failed to react".
- Presentation pages: the dashboard, about, credits, welcome, user profile, database, login, register, forgot-password, reset-password and verification pages, the post modal and the loader are not modelled.

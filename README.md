# MiniTwit feeds, follow graph and sessions in Dafny

MiniTwit is a small micro-blogging service: users register, log in, post short
messages, follow each other, and read three timelines. Its logic lives in the HTTP
handlers of `src/app/main.go`, written against GORM queries and a cookie session. This
project models those handlers over an in-memory store: a `Store` class with the
`users`, `messages` and `followers` tables as sequences and one client's
`user-session` values as a map. The follower table stays a sequence, so the same edge
can be stored twice, as in the database.

Modules:

- `Entities` (entities.dfy): the rows `User`, `Message`, `Follower`, the session user
  `Principal` (anonymous is `{0, ""}`), and the page size `PerPage = 30`.
- `Users` (users.dfy): lookup of a user by username (`db.First(..., "username = ?")`)
  and `ctrl.GetUserID`. The body of `GetUserID` is not part of this model's source files.
  Its meaning is inferred from how main.go uses it: a 0 result is answered with 404
  (main.go:329, main.go:358), and a non-zero result means "The username is already taken"
  (main.go:480). The model returns the id of the user with that username, or 0 when there
  is none.
- `Graph` (graph.dfy): edge lookup, deletion of every edge of a pair (`unfollow`), and
  the `followed` flag of a profile page.
- `Feeds` (feed.dfy): the three queries of `getMessages`. Each is written as
  filter, then order by date (newest first), then take `PerPage`. The ordering is an
  insertion sort that keeps store order among equal dates. The query leaves that order
  undefined, and no lemma depends on it. `NewestWindow` is the reference definition of a
  correct page, and `PageIsNewestWindow` proves the page meets it.
- `Sessions` (sessions.dfy): the `user_id` / `username` session keys, what
  `getUserSession` reads back, and what `clearUserSessionData` leaves.
- `Auth` (auth.dfy): the registration checks, proved equal to "the first failing check
  of a fixed list", and the login error text.
- `Templates` (templates.dfy): the `timeline_title` and `requestUserTimeline` helpers.
- `App` (store.dfy): the `Store` class and the handlers as methods. Each method states
  its outcome and the new state in terms of the pure functions above. `Valid()` is kept
  by every method. It says:
  - the session values have the types the handlers assert;
  - user ids are positive and distinct;
  - usernames are non-empty and distinct;
  - message ids are below the next id.

Where the code departs from the service's intended design, the model follows the
code:

- **Login skips the password.** A `login` submission with a known username logs in
  without comparing the password. `checkPwHash` is only reached on the database-error
  branch (main.go:423-430). `App.Store.Login` states this, and `App.RegisterTwiceThenLogin`
  logs in with a wrong password.
- **Taken username is checked last.** A taken username is reported only after the email
  and password checks pass (main.go:472-481). It is not reported regardless of them.
  `Auth.TakenUsernameReportedLast` states this.
- **Follow adds duplicates.** `follow` appends an edge without looking for an existing
  one, and `unfollow` deletes all copies.
- **Own-timeline grouping (an assumption).** The own-timeline filter is
  `(author = viewer OR author followed by viewer) AND flagged = 0`. In the source, the
  flagged condition follows a `Where(...).Or(...)` pair (main.go:153-155). How GORM
  brackets those conditions in SQL is not visible here.
- **Every feed needs an existing author.** All three queries join `messages` with
  `users` on the author id, so a message whose author row is missing appears in no feed.

## Model

| member | source | states |
|---|---|---|
| `Users.FindUser` | src/app/main.go:421 | The lookup by username yields None exactly when no user has that username; otherwise it yields a stored user with that username |
| `Users.FindUserIsTheOwner` | src/app/main.go:267 | When usernames are unique, the lookup by a user's username returns exactly that user |
| `Users.GetUserID` | src/app/main.go:327 | A non-zero result is the id of a user with that username. When all ids are positive, 0 is returned exactly when no user has the username |
| `Graph.WithoutEdges` | src/app/main.go:363 | Deleting a pair keeps every other edge with its multiplicity, and no edge of that pair remains |
| `Graph.WithoutAbsentEdgeIsIdentity` | src/app/main.go:363-369 | Unfollowing a pair that has no edge leaves the edge sequence unchanged |
| `Graph.WithoutEdgesKeepsOthers` | src/app/main.go:363 | Every edge of another pair survives the delete, and the sequence does not grow |
| `Graph.FollowedAfterFollow` | src/app/main.go:281-296 | After the viewer's edge to the profile is appended, the page's followed flag is true |
| `Graph.FollowedAfterUnfollow` | src/app/main.go:281-296 | For a logged-in viewer, the flag is false once the pair's edges are deleted |
| `Graph.Followed` | src/app/main.go:281-296 | The `followed` flag of a profile page. `Graph.FollowedAfterFollow` and `Graph.FollowedAfterUnfollow` state its behaviour, and `App.Store.Follow` / `App.Store.Unfollow` ensure the caller's flag is true after a follow and false after an unfollow |
| `Feeds.Visible` | src/app/main.go:139-168 | Whether a message is a row of the mode's query. `Feeds.Qualifying`, `Feeds.OwnFeedAuthors`, `Feeds.ProfileFeedAuthor`, `Feeds.FollowShowsPosts` and `Feeds.UnfollowHidesPosts` state what it admits |
| `Feeds.Qualifying` | src/app/main.go:139-168 | The candidate rows of a query are the stored messages that are visible for the mode (unflagged, author row exists, mode's author condition), each as often as it is stored |
| `Feeds.Insert` | src/app/main.go:142 | Inserting into a newest-first sequence keeps it newest first and adds exactly that message |
| `Feeds.SortNewestFirst` | src/app/main.go:140-142 | The ordering step is a permutation of its input ordered by date, newest first |
| `Feeds.Page` | src/app/main.go:140-143 | The page has min(30, candidates) messages, all drawn from the candidates. `Feeds.PageIsNewestWindow` proves that they are the newest ones, newest first |
| `Feeds.PageIsNewestWindow` | src/app/main.go:140-143 | The page is newest first and has length min(30, candidates). It is drawn from the candidates and holds all of them when they fit. No candidate left out is newer than any message kept |
| `Feeds.Feed` | src/app/main.go:135-176 | A feed has at most 30 messages, and every one of them is a stored message that qualifies for the mode |
| `Feeds.FeedBoundedAndUnflagged` | src/app/main.go:135-176 | Every feed has at most 30 messages, and none of them is flagged |
| `Feeds.FeedIsNewestWindow` | src/app/main.go:135-176 | Every feed is newest first. A qualifying message is left out only when the page is full (30), and then it is no newer than any message shown |
| `Feeds.OwnFeedAuthors` | src/app/main.go:148-155 | The own timeline holds only messages by the viewer or by a user the viewer has an edge to |
| `Feeds.ProfileFeedAuthor` | src/app/main.go:162-168 | The profile feed holds only messages whose author is the user with the route's username |
| `Feeds.FollowShowsPosts` | src/app/main.go:149-155 | Once the (viewer, target) edge is appended, every unflagged message by the target (an existing user) qualifies for the viewer's own timeline |
| `Feeds.UnfollowHidesPosts` | src/app/main.go:149-155 | Once the (viewer, target) edges are deleted, no message by the target (another user) qualifies for the viewer's own timeline |
| `Sessions.Cleared` | src/app/main.go:533-538 | Clearing removes both identity keys and keeps every other session value |
| `Sessions.PrincipalOf` | src/app/main.go:113-133 | The user read back from the session is {0, ""} unless both keys are present. `Sessions.EstablishedSessionResolves` states that both keys yield exactly their values |
| `Sessions.Resolved` | src/app/main.go:113-133 | The session after the read holds both identity keys or neither. It adds and changes no value, and a session with both keys is left unchanged |
| `Sessions.ResolveIsIdempotent` | src/app/main.go:113-133 | Resolving a resolved session again changes nothing and yields the same user |
| `Sessions.EstablishedSessionResolves` | src/app/main.go:433-434 | After login writes both keys, the session resolves to exactly that id and username and is not cleared |
| `Auth.FirstFailure` | src/app/main.go:472-482 | No message is reported exactly when every check passes. Otherwise the reported message belongs to a failing check, and all checks before it passed |
| `Auth.RegisterError` | src/app/main.go:472-482 | Any error reported is one of the five registration messages. `Auth.RegisterErrorIsFirstFailure` states which one |
| `Auth.RegisterErrorIsFirstFailure` | src/app/main.go:472-482 | The registration if/else chain reports the first failing check, in this order: empty username, email empty or without '@', empty password, passwords differ, username taken |
| `Auth.RegisterAcceptsOnlyValidInput` | src/app/main.go:472-494 | Registration goes ahead exactly when the username is non-empty, the email is non-empty with an '@', the password is non-empty and repeated, and the username is free |
| `Auth.TakenUsernameReportedLast` | src/app/main.go:480-481 | A taken username is reported exactly when all earlier checks pass |
| `Templates.TimelineTitle` | src/app/main.go:188-196 | The title is "Public Timeline", "My Timeline" or the profile title. `Templates.TitleAgreesWithRequestUserTimeline` states which path gives which |
| `Templates.RequestUserTimeline` | src/app/main.go:197-199 | A user timeline is requested only on a path longer than "/" that is not /public. `Templates.TitleAgreesWithRequestUserTimeline` gives the converse |
| `Templates.ProfileTitleIsDistinct` | src/app/main.go:188-196 | A profile title never equals "Public Timeline" or "My Timeline", for any username |
| `Templates.TitleAgreesWithRequestUserTimeline` | src/app/main.go:188-199 | On a non-empty path, `requestUserTimeline` holds exactly when the title is the profile title. The title is "Public Timeline" exactly on /public, and "My Timeline" exactly on the remaining paths |
| `App.Store.ClearUserSessionData` | src/app/main.go:533-538 | Both identity keys are gone afterwards; every other session value and the invariant are kept |
| `App.Store.GetUserSession` | src/app/main.go:113-133 | If either key is missing, the caller is {0, ""} and neither key is left in the session. Otherwise the caller is exactly the stored id and username (non-zero, non-empty) and the session is unchanged |
| `App.Store.GetMessages` | src/app/main.go:135-176 | The session is resolved, and the result is the feed of the mode for the resolved viewer over the current tables |
| `App.Store.Timeline` | src/app/main.go:213-240 | An anonymous caller is redirected to /public. Otherwise the page holds the caller's own-timeline feed |
| `App.Store.PublicTimeline` | src/app/main.go:242-261 | The page holds the public feed and the resolved viewer's username |
| `App.Store.UserTimeline` | src/app/main.go:263-316 | An unknown username gives 404 and leaves the session untouched. Otherwise the page holds the profile feed, the profile's username and the followed flag for the resolved viewer |
| `App.Store.Follow` | src/app/main.go:318-345 | An anonymous caller gets 401 and an unknown target gets 404, and neither changes the edges. Otherwise exactly one (caller, target) edge is appended, even if it already exists, and no other edge changes. The caller's `followed` flag for the target is then true |
| `App.Store.Unfollow` | src/app/main.go:347-375 | 401 and 404 as for follow, with no change to the edges. Otherwise every (caller, target) edge is deleted and all others are kept; with no such edge the sequence is unchanged (`Graph.WithoutAbsentEdgeIsIdentity`). The caller's `followed` flag for the target is then false |
| `App.Store.AddMessage` | src/app/main.go:377-405 | A caller with id 0 gets 401. Empty text adds nothing. Otherwise exactly one message is appended, by the caller, dated `now`, unflagged, with a fresh id |
| `App.Store.Login` | src/app/main.go:407-439 | A logged-in caller is sent home with the session unchanged. An unknown username gives "Invalid username" and leaves the resolved session. A known username sets `user_id` and `username` to that user's values whatever the password |
| `App.Store.Register` | src/app/main.go:456-507 | A session with `user_id` is sent home. Otherwise the first failing check is reported and no user is added. Only when all pass is exactly one user appended, with the given username, email and hash, and the lookup by that username then finds it |
| `App.RegisterTwiceThenLogin` | src/app/main.go:421-436 | Registering "ada" twice reports the taken username the second time. Logging in as "ada" with a wrong password then succeeds |

## Left out

- HTTP plumbing: routing, server start-up, redirect and status writing, and template
  parsing and execution. Handlers return their outcome (redirect, 401, 404, rendered
  data, error text) instead.
- The Prometheus metrics server and its goroutine: they are monitoring only.
- Password hashing: `ctrl.HashPw` is salted bcrypt and not deterministic, so
  `App.Store.Register` takes its result as the `pwHash` parameter. `checkPwHash` is
  reached only on a database error, which the model does not have.
- Database failures: the in-memory store never fails. The 500 responses are not
  modelled. Neither are login's "Invalid password" and "Something went wrong" branches,
  which only follow a lookup error that is not "not found". This also covers the
  hashing error in `register`.
- The clock: `addMessage` reads `time.Now()`, and `App.Store.AddMessage` takes that
  time as `now`.
- `gravatarUrl`, `format_datetime` and `get_username`: these are MD5, Go time
  formatting and a display lookup, with no bearing on what is selected.
- Flash messages and `session.Save`: they are cookie transport only. The session is
  one client's value map. Other clients and concurrent requests are not modelled.
- The GET forms of `login` and `register`: they only render a page. Only form
  submissions (POST) are modelled.
- `logout`: it is `clearUserSessionData` followed by a redirect.
- Row ids come from counters standing in for auto-increment. Ids and dates are
  unbounded integers, not `uint` and `int64`.
- The order of messages with equal dates: the query leaves it undefined. The model's
  sort keeps store order, and no property depends on it.
- Users.GetUserID: defined through the username lookup over the in-memory users table,
  not left abstract, because its body is not part of this model's source files.
- The author columns the queries join in: feeds return the message rows only.
- src/controllers/controllers.go and minitwit_rewrite_go/shared/shared.go: database
  bootstrapping and reflection-based row decoding, not part of this model.

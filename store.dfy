/**
 * The request handlers of main.go over an in-memory store: the users, messages and
 * followers tables, and the values of one client's `user-session` cookie.
 */
module App {
  import opened Entities
  import opened Users
  import opened Graph
  import opened Feeds
  import opened Sessions
  import opened Auth
  import opened Templates

  /** What a follow, unfollow or add-message request ends in: the redirect, 401 or 404. */
  datatype Status = Done | Unauthorized | NotFound

  /** What a login form submission ends in. */
  datatype LoginOutcome = LoggedIn | AlreadyLoggedIn | LoginFailed(error: string)

  /** What a registration form submission ends in. */
  datatype RegisterOutcome = Registered | AlreadyLoggedInRegister | RegisterFailed(error: string)

  /** The data the timeline template is executed with. */
  datatype TimelineData = TimelineData(
    requestUrl: string,
    followed: bool,
    profileUsername: string,
    messages: seq<Message>,
    viewerUsername: string)

  /** What a timeline request ends in: a redirect, 404, or the rendered page. */
  datatype PageOutcome = Redirect(location: string) | PageNotFound | Rendered(data: TimelineData)

  class Store {
    var users: seq<User>
    var messages: seq<Message>
    var follows: seq<Follower>
    var session: SessionValues
    /** The id the database assigns to the next user row, and to the next message row. */
    var nextUserId: nat
    var nextMessageId: nat

    ghost predicate Valid()
      reads this
    {
      && WellTyped(session)
      && (UserIdKey in session ==> session[UserIdKey].n > 0)
      && (UsernameKey in session ==> session[UsernameKey].s != "")
      && nextUserId > 0
      && (forall u :: u in users ==> 0 < u.id < nextUserId && u.username != "")
      && UsernamesUnique(users)
      && IdsUnique(users)
      && (forall m :: m in messages ==> m.id < nextMessageId)
    }

    /** An empty database and an empty session. */
    constructor ()
      ensures Valid()
      ensures users == [] && messages == [] && follows == [] && session == map[]
    {
      users, messages, follows := [], [], [];
      session := map[];
      nextUserId, nextMessageId := 1, 1;
    }

    /** `clearUserSessionData`: deletes both identity keys and keeps every other value. */
    method ClearUserSessionData()
      requires Valid()
      modifies this`session
      ensures Valid()
      ensures session == Cleared(old(session))
      ensures UserIdKey !in session && UsernameKey !in session
    {
      session := Cleared(session);
    }

    /**
     * `getUserSession`: the stored user when both keys are present (session unchanged);
     * otherwise the anonymous user {0, ""} and a session without either key.
     */
    method GetUserSession() returns (user: Principal)
      requires Valid()
      modifies this`session
      ensures Valid()
      ensures !HasIdentity(old(session)) ==>
                user == Anonymous && UserIdKey !in session && UsernameKey !in session &&
                session == Cleared(old(session))
      ensures HasIdentity(old(session)) ==>
                user == Principal(old(session)[UserIdKey].n, old(session)[UsernameKey].s) &&
                user.id != 0 && user.username != "" && session == old(session)
      ensures user == PrincipalOf(old(session)) && session == Resolved(old(session))
    {
      user := PrincipalOf(session);
      if !HasIdentity(session) {
        ClearUserSessionData();
      }
    }

    /** `getMessages`: resolves the session, then selects the feed for the resolved viewer. */
    method GetMessages(mode: FeedMode) returns (msgs: seq<Message>)
      requires Valid()
      modifies this`session
      ensures Valid()
      ensures session == Resolved(old(session))
      ensures msgs == Feed(mode, PrincipalOf(old(session)).id, users, messages, follows)
    {
      var user := GetUserSession();
      msgs := Feed(mode, user.id, users, messages, follows);
    }

    /** `timeline` (the `/` route): anonymous callers go to `/public`, others see their own timeline. */
    method Timeline(requestUrl: string) returns (page: PageOutcome)
      requires Valid()
      modifies this`session
      ensures Valid()
      ensures session == Resolved(old(session))
      ensures var viewer := PrincipalOf(old(session));
              page == if viewer.username == "" then Redirect(PublicPath)
                      else Rendered(TimelineData(requestUrl, false, "",
                                                 Feed(Own, viewer.id, users, messages, follows), viewer.username))
    {
      var user := GetUserSession();
      if user.username == "" {
        return Redirect(PublicPath);
      }
      ResolveIsIdempotent(old(session));
      var msgs := GetMessages(Own);
      page := Rendered(TimelineData(requestUrl, false, "", msgs, user.username));
    }

    /** `publicTimeline`: the public feed, shown to anyone. */
    method PublicTimeline(requestUrl: string) returns (page: PageOutcome)
      requires Valid()
      modifies this`session
      ensures Valid()
      ensures session == Resolved(old(session))
      ensures page == Rendered(TimelineData(requestUrl, false, "", Feed(Public, PrincipalOf(old(session)).id, users, messages, follows),
                                            PrincipalOf(old(session)).username))
    {
      ResolveIsIdempotent(session);
      var msgs := GetMessages(Public);
      var user := GetUserSession();
      page := Rendered(TimelineData(requestUrl, false, "", msgs, user.username));
    }

    /**
     * `userTimeline`: 404 (session untouched) for an unknown username; otherwise the profile's
     * feed, with the `followed` flag for the resolved viewer.
     */
    method UserTimeline(requestUrl: string, username: string) returns (page: PageOutcome)
      requires Valid()
      modifies this`session
      ensures Valid()
      ensures FindUser(users, username).None? ==> page == PageNotFound && session == old(session)
      ensures FindUser(users, username).Some? ==>
                var viewer := PrincipalOf(old(session));
                var profile := FindUser(users, username).value;
                session == Resolved(old(session)) &&
                page == Rendered(TimelineData(requestUrl, Followed(viewer, profile.id, follows), profile.username,
                                              Feed(Profile(username), viewer.id, users, messages, follows), viewer.username))
    {
      var profileUser := FindUser(users, username);
      if profileUser.None? {
        return PageNotFound;
      }
      ResolveIsIdempotent(session);
      var user := GetUserSession();
      var followed := Followed(user, profileUser.value.id, follows);
      var msgs := GetMessages(Profile(username));
      page := Rendered(TimelineData(requestUrl, followed, profileUser.value.username, msgs, user.username));
    }

    /**
     * `follow`: 401 for an anonymous caller, 404 when the target username has no user;
     * otherwise appends one (caller, target) edge, even if the same edge is already there.
     */
    method Follow(username: string) returns (status: Status)
      requires Valid()
      modifies this`session, this`follows
      ensures Valid()
      ensures session == Resolved(old(session))
      ensures var caller := PrincipalOf(old(session));
              status == if caller == Anonymous then Unauthorized
                        else if GetUserID(users, username) == 0 then NotFound
                        else Done
      ensures status == Done ==> follows == old(follows) + [Follower(PrincipalOf(old(session)).id, GetUserID(users, username))]
      ensures status != Done ==> follows == old(follows)
      ensures status == Done ==> Followed(PrincipalOf(old(session)), GetUserID(users, username), follows)
    {
      var user := GetUserSession();
      if user.username == "" {
        return Unauthorized;
      }
      var followsId := GetUserID(users, username);
      if followsId == 0 {
        return NotFound;
      }
      FollowedAfterFollow(user, followsId, follows);
      follows := follows + [Follower(user.id, followsId)];
      status := Done;
    }

    /**
     * `unfollow`: 401 for an anonymous caller, 404 when the target username has no user;
     * otherwise deletes every (caller, target) edge, succeeding also when there is none.
     */
    method Unfollow(username: string) returns (status: Status)
      requires Valid()
      modifies this`session, this`follows
      ensures Valid()
      ensures session == Resolved(old(session))
      ensures var caller := PrincipalOf(old(session));
              status == if caller == Anonymous then Unauthorized
                        else if GetUserID(users, username) == 0 then NotFound
                        else Done
      ensures status == Done ==> follows == WithoutEdges(old(follows), PrincipalOf(old(session)).id, GetUserID(users, username))
      ensures status != Done ==> follows == old(follows)
      ensures status == Done ==> !Followed(PrincipalOf(old(session)), GetUserID(users, username), follows)
    {
      var user := GetUserSession();
      if user.username == "" {
        return Unauthorized;
      }
      var followsId := GetUserID(users, username);
      if followsId == 0 {
        return NotFound;
      }
      FollowedAfterUnfollow(user, followsId, follows);
      follows := WithoutEdges(follows, user.id, followsId);
      status := Done;
    }

    /**
     * `addMessage`: 401 for an anonymous caller; empty text adds nothing; otherwise one
     * unflagged message by the caller, dated `now` (the handler reads the clock).
     */
    method AddMessage(text: string, now: int) returns (status: Status)
      requires Valid()
      modifies this`session, this`messages, this`nextMessageId
      ensures Valid()
      ensures session == Resolved(old(session))
      ensures status == if PrincipalOf(old(session)).id == 0 then Unauthorized else Done
      ensures messages == if status == Done && text != ""
                          then old(messages) + [Message(old(nextMessageId), PrincipalOf(old(session)).id, text, now, 0)]
                          else old(messages)
      ensures forall m :: m in old(messages) ==> m.id != old(nextMessageId)
    {
      var user := GetUserSession();
      if user.id == 0 {
        return Unauthorized;
      }
      if text != "" {
        messages := messages + [Message(nextMessageId, user.id, text, now, 0)];
        nextMessageId := nextMessageId + 1;
      }
      status := Done;
    }

    /**
     * A `login` form submission. A logged-in caller is sent home. An unknown username fails
     * with "Invalid username". A known username logs in at once: the password is not
     * compared on that path.
     */
    method Login(username: string, password: string) returns (outcome: LoginOutcome)
      requires Valid()
      modifies this`session
      ensures Valid()
      ensures PrincipalOf(old(session)).id != 0 ==> outcome == AlreadyLoggedIn && session == old(session)
      ensures PrincipalOf(old(session)).id == 0 && FindUser(users, username).None? ==>
                outcome == LoginFailed(MsgInvalidUsername) && session == Resolved(old(session))
      ensures PrincipalOf(old(session)).id == 0 && FindUser(users, username).Some? ==>
                var u := FindUser(users, username).value;
                outcome == LoggedIn &&
                session == Resolved(old(session))[UserIdKey := UintValue(u.id)][UsernameKey := StringValue(u.username)] &&
                PrincipalOf(session) == Principal(u.id, u.username)
    {
      var user := GetUserSession();
      if user.id != 0 {
        return AlreadyLoggedIn;
      }
      var found := FindUser(users, username);
      if found.None? {
        return LoginFailed(MsgInvalidUsername);
      }
      session := session[UserIdKey := UintValue(found.value.id)][UsernameKey := StringValue(found.value.username)];
      outcome := LoggedIn;
    }

    /**
     * A `register` form submission. A session with a user id is sent home. Otherwise the
     * checks run in order and the first failure is shown; only when all pass is one user
     * appended. `pwHash` is what `ctrl.HashPw` returns for the password.
     */
    method Register(username: string, email: string, password: string, password2: string, pwHash: string)
      returns (outcome: RegisterOutcome)
      requires Valid()
      modifies this`users, this`nextUserId
      ensures Valid()
      ensures UserIdKey in session ==> outcome == AlreadyLoggedInRegister && users == old(users)
      ensures UserIdKey !in session ==>
                match RegisterError(username, email, password, password2, GetUserID(old(users), username))
                case Some(error) => outcome == RegisterFailed(error) && users == old(users)
                case None => outcome == Registered &&
                             users == old(users) + [User(old(nextUserId), username, email, pwHash)]
      ensures outcome == Registered ==> FindUser(users, username) == Some(User(old(nextUserId), username, email, pwHash))
    {
      if UserIdKey in session {
        return AlreadyLoggedInRegister;
      }
      var userId := GetUserID(users, username);
      var error := RegisterError(username, email, password, password2, userId);
      if error.Some? {
        return RegisterFailed(error.value);
      }
      RegisterAcceptsOnlyValidInput(username, email, password, password2, userId);
      var user := User(nextUserId, username, email, pwHash);
      users := users + [user];
      nextUserId := nextUserId + 1;
      FindUserIsTheOwner(users, user);
      outcome := Registered;
    }
  }

  /**
   * Register "ada", register "ada" again, then log in as "ada" with a wrong password: the
   * second registration reports the taken username, and the login succeeds.
   */
  method RegisterTwiceThenLogin() returns (second: RegisterOutcome, login: LoginOutcome)
    ensures second == RegisterFailed(MsgUsernameTaken)
    ensures login == LoggedIn
  {
    var store := new Store();
    var first := store.Register("ada", "ada@x.com", "pw1", "pw1", "hash-of-pw1");
    assert first == Registered;
    second := store.Register("ada", "ada@x.com", "pw1", "pw1", "hash-of-pw1");
    login := store.Login("ada", "wrong");
  }
}

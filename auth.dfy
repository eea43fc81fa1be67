/** The decision logic of `register` and `login`. */
module Auth {
  import opened Entities

  const MsgNoUsername: string := "You have to enter a username"
  const MsgBadEmail: string := "You have to enter a valid email address"
  const MsgNoPassword: string := "You have to enter a password"
  const MsgPasswordMismatch: string := "The two passwords do not match"
  const MsgUsernameTaken: string := "The username is already taken"
  const MsgInvalidUsername: string := "Invalid username"

  /** `inputEmail != "" && strings.Contains(inputEmail, "@")` */
  predicate ValidEmail(email: string)
  {
    email != "" && '@' in email
  }

  /** One validation step: whether it passed, and the message shown when it did not. */
  datatype Check = Check(passed: bool, message: string)

  /** The message of the first check that fails, or None when every check passes. */
  function FirstFailure(checks: seq<Check>): (r: Option<string>)
    ensures r.None? <==> forall i :: 0 <= i < |checks| ==> checks[i].passed
    ensures r.Some? ==> exists i :: 0 <= i < |checks| && !checks[i].passed && checks[i].message == r.value &&
                                   forall j :: 0 <= j < i ==> checks[j].passed
  {
    if checks == [] then None
    else if !checks[0].passed then Some(checks[0].message)
    else
      var r := FirstFailure(checks[1..]);
      assert forall i :: 1 <= i < |checks| ==> checks[i] == checks[1..][i - 1];
      if r.Some? then
        var i :| 0 <= i < |checks| - 1 && !checks[1..][i].passed && checks[1..][i].message == r.value &&
                 forall j :: 0 <= j < i ==> checks[1..][j].passed;
        assert !checks[i + 1].passed && checks[i + 1].message == r.value;
        r
      else r
  }

  /**
   * The registration checks in the order `register` applies them; `existingId` is
   * `GetUserID(username)`, 0 when the username is free.
   */
  function RegistrationChecks(username: string, email: string, password: string, password2: string, existingId: nat): seq<Check>
  {
    [ Check(username != "", MsgNoUsername),
      Check(ValidEmail(email), MsgBadEmail),
      Check(password != "", MsgNoPassword),
      Check(password == password2, MsgPasswordMismatch),
      Check(existingId == 0, MsgUsernameTaken) ]
  }

  /** The error `register` shows, or None when the user is to be created: the if/else-if chain. */
  function RegisterError(username: string, email: string, password: string, password2: string, existingId: nat): (r: Option<string>)
    ensures r.Some? ==> r.value in {MsgNoUsername, MsgBadEmail, MsgNoPassword, MsgPasswordMismatch, MsgUsernameTaken}
  {
    if username == "" then Some(MsgNoUsername)
    else if email == "" || '@' !in email then Some(MsgBadEmail)
    else if password == "" then Some(MsgNoPassword)
    else if password != password2 then Some(MsgPasswordMismatch)
    else if existingId != 0 then Some(MsgUsernameTaken)
    else None
  }

  /** The if/else-if chain reports exactly the first failing check of the fixed order. */
  lemma RegisterErrorIsFirstFailure(username: string, email: string, password: string, password2: string, existingId: nat)
    ensures RegisterError(username, email, password, password2, existingId) ==
            FirstFailure(RegistrationChecks(username, email, password, password2, existingId))
  {
    var c0 := RegistrationChecks(username, email, password, password2, existingId);
    var c1, c2, c3, c4 := c0[1..], c0[2..], c0[3..], c0[4..];
    assert c4[1..] == [];
    assert FirstFailure(c4) == if c4[0].passed then None else Some(c4[0].message);
    assert c3[1..] == c4 && c2[1..] == c3 && c1[1..] == c2 && c0[1..] == c1;
    assert FirstFailure(c3) == if c3[0].passed then FirstFailure(c4) else Some(c3[0].message);
    assert FirstFailure(c2) == if c2[0].passed then FirstFailure(c3) else Some(c2[0].message);
    assert FirstFailure(c1) == if c1[0].passed then FirstFailure(c2) else Some(c1[0].message);
  }

  /** Registration is refused unless every check passes; a created user has a non-empty username. */
  lemma RegisterAcceptsOnlyValidInput(username: string, email: string, password: string, password2: string, existingId: nat)
    ensures RegisterError(username, email, password, password2, existingId).None? <==>
              username != "" && ValidEmail(email) && password != "" && password == password2 && existingId == 0
  {
    RegisterErrorIsFirstFailure(username, email, password, password2, existingId);
  }

  /**
   * A taken username is reported only when every earlier check passes: an invalid email or
   * a missing password hides it.
   */
  lemma TakenUsernameReportedLast(username: string, email: string, password: string, password2: string, existingId: nat)
    requires existingId != 0
    ensures RegisterError(username, email, password, password2, existingId) == Some(MsgUsernameTaken) <==>
              username != "" && ValidEmail(email) && password != "" && password == password2
  {
    RegisterErrorIsFirstFailure(username, email, password, password2, existingId);
  }
}

/** The `user-session` cookie values that carry the logged-in user. */
module Sessions {
  import opened Entities

  /** The two kinds of value the application stores: the id (`uint`) and the username (`string`). */
  datatype SessionValue = UintValue(n: nat) | StringValue(s: string)

  type SessionValues = map<string, SessionValue>

  const UserIdKey: string := "user_id"
  const UsernameKey: string := "username"

  /** The type assertions on the two keys succeed. */
  predicate WellTyped(session: SessionValues)
  {
    && (UserIdKey in session ==> session[UserIdKey].UintValue?)
    && (UsernameKey in session ==> session[UsernameKey].StringValue?)
  }

  /** Both identity keys are present. */
  predicate HasIdentity(session: SessionValues)
  {
    UserIdKey in session && UsernameKey in session
  }

  /** The session after `clearUserSessionData`: both identity keys gone, every other value kept. */
  function Cleared(session: SessionValues): (r: SessionValues)
    ensures UserIdKey !in r && UsernameKey !in r
    ensures forall k :: k in session && k != UserIdKey && k != UsernameKey ==> k in r && r[k] == session[k]
    ensures forall k :: k in r ==> k in session
  {
    session - {UserIdKey, UsernameKey}
  }

  /** The user `getUserSession` returns: the stored id and username, or {0, ""} if either key is missing. */
  function PrincipalOf(session: SessionValues): (p: Principal)
    requires WellTyped(session)
    ensures p == Anonymous || HasIdentity(session)
  {
    if HasIdentity(session) then Principal(session[UserIdKey].n, session[UsernameKey].s) else Anonymous
  }

  /** The session after `getUserSession`: unchanged if both keys are present, otherwise cleared. */
  function Resolved(session: SessionValues): (r: SessionValues)
    ensures HasIdentity(r) || (UserIdKey !in r && UsernameKey !in r)
    ensures forall k :: k in r ==> k in session && r[k] == session[k]
    ensures HasIdentity(session) ==> r == session
  {
    if HasIdentity(session) then session else Cleared(session)
  }

  /**
   * Resolving a resolved session again yields the same user and changes nothing more.
   */
  lemma ResolveIsIdempotent(session: SessionValues)
    requires WellTyped(session)
    ensures WellTyped(Resolved(session))
    ensures Resolved(Resolved(session)) == Resolved(session)
    ensures PrincipalOf(Resolved(session)) == PrincipalOf(session)
  {
    if !HasIdentity(session) {
      assert Cleared(Cleared(session)) == Cleared(session);
    }
  }

  /** Writing both identity keys, as `login` does, makes the session resolve to that user. */
  lemma EstablishedSessionResolves(session: SessionValues, id: nat, username: string)
    requires WellTyped(session)
    ensures var s := session[UserIdKey := UintValue(id)][UsernameKey := StringValue(username)];
              WellTyped(s) && Resolved(s) == s && PrincipalOf(s) == Principal(id, username)
  {
  }
}

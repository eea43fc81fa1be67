/** Lookups of users by username: `db.First(&user, "username = ?", ...)` and `ctrl.GetUserID`. */
module Users {
  import opened Entities

  /** No two rows of the users table share a username. */
  ghost predicate UsernamesUnique(users: seq<User>)
  {
    forall i, j :: 0 <= i < j < |users| ==> users[i].username != users[j].username
  }

  /** No two rows of the users table share an id. */
  ghost predicate IdsUnique(users: seq<User>)
  {
    forall i, j :: 0 <= i < j < |users| ==> users[i].id != users[j].id
  }

  /** The first user whose username matches, or None when there is no such user. */
  function FindUser(users: seq<User>, username: string): (r: Option<User>)
    ensures r.None? <==> forall u :: u in users ==> u.username != username
    ensures r.Some? ==> r.value in users && r.value.username == username
  {
    if users == [] then None
    else if users[0].username == username then Some(users[0])
    else
      assert users == [users[0]] + users[1..];
      FindUser(users[1..], username)
  }

  /** With unique usernames the user found is the only one carrying that username. */
  lemma {:induction false} FindUserIsTheOwner(users: seq<User>, u: User)
    requires UsernamesUnique(users)
    requires u in users
    ensures FindUser(users, u.username) == Some(u)
  {
    if users[0] != u {
      assert u in users[1..];
      var k :| 1 <= k < |users| && users[k] == u;
      assert users[0].username != users[k].username;
      assert UsernamesUnique(users[1..]) by {
        forall i, j | 0 <= i < j < |users| - 1
          ensures users[1..][i].username != users[1..][j].username
        {
          assert users[1..][i] == users[i + 1] && users[1..][j] == users[j + 1];
        }
      }
      FindUserIsTheOwner(users[1..], u);
    }
  }

  /** The id of the user with that username, or 0 when no user has it. */
  function GetUserID(users: seq<User>, username: string): (id: nat)
    ensures id != 0 ==> exists u :: u in users && u.username == username && u.id == id
    ensures (forall u :: u in users ==> u.id > 0) ==>
              (id == 0 <==> forall u :: u in users ==> u.username != username)
  {
    match FindUser(users, username)
    case None => 0
    case Some(u) => u.id
  }
}

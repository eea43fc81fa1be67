/** The rows of the three tables the application works on, and the caller's identity. */
module Entities {

  /** Number of messages on every timeline page (`perPage` in main.go). */
  const PerPage: nat := 30

  datatype Option<+T> = None | Some(value: T)

  /** A row of the `users` table. */
  datatype User = User(id: nat, username: string, email: string, pwHash: string)

  /** A row of the `messages` table; `date` is seconds since the epoch, `flagged` is 0 for visible messages. */
  datatype Message = Message(id: nat, authorId: nat, text: string, date: int, flagged: int)

  /** A row of the `followers` table: `followerId` follows `followsId`. */
  datatype Follower = Follower(followerId: nat, followsId: nat)

  /** The user read back from the session: only the id and the username are filled in. */
  datatype Principal = Principal(id: nat, username: string)

  /** The caller without a (complete) session. */
  const Anonymous := Principal(0, "")

  function Min(a: nat, b: nat): nat
  {
    if a <= b then a else b
  }
}

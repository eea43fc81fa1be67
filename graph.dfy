/** The follow graph: a sequence of edges that may hold the same edge more than once. */
module Graph {
  import opened Entities

  /** Some edge says `follower` follows `followed`. */
  predicate HasEdge(follows: seq<Follower>, follower: nat, followed: nat)
  {
    Follower(follower, followed) in follows
  }

  /**
   * The edges left after deleting every row with this follower and this followed id,
   * in their original order.
   */
  function WithoutEdges(follows: seq<Follower>, follower: nat, followed: nat): (r: seq<Follower>)
    ensures forall e :: multiset(r)[e] == if e == Follower(follower, followed) then 0 else multiset(follows)[e]
    ensures !HasEdge(r, follower, followed)
  {
    if follows == [] then []
    else
      assert follows == [follows[0]] + follows[1..];
      var rest := WithoutEdges(follows[1..], follower, followed);
      if follows[0] == Follower(follower, followed) then rest else [follows[0]] + rest
  }

  /** Deleting the edges of a pair that has none leaves the edge sequence as it was. */
  lemma {:induction false} WithoutAbsentEdgeIsIdentity(follows: seq<Follower>, follower: nat, followed: nat)
    requires !HasEdge(follows, follower, followed)
    ensures WithoutEdges(follows, follower, followed) == follows
  {
    if follows != [] {
      assert follows[0] != Follower(follower, followed);
      assert follows == [follows[0]] + follows[1..];
      WithoutAbsentEdgeIsIdentity(follows[1..], follower, followed);
    }
  }

  /** Deleting the edges of a pair lets every edge of another pair survive, and never adds an edge. */
  lemma {:induction false} WithoutEdgesKeepsOthers(follows: seq<Follower>, follower: nat, followed: nat)
    ensures forall e :: e in follows && e != Follower(follower, followed) ==> e in WithoutEdges(follows, follower, followed)
    ensures |WithoutEdges(follows, follower, followed)| <= |follows|
  {
    if follows != [] {
      WithoutEdgesKeepsOthers(follows[1..], follower, followed);
      assert follows == [follows[0]] + follows[1..];
    }
  }

  /**
   * The `followed` flag of a profile page: true for an anonymous viewer (id 0), otherwise
   * whether the viewer has an edge to the profile's user.
   */
  function Followed(viewer: Principal, profileId: nat, follows: seq<Follower>): bool
  {
    viewer.id == 0 || HasEdge(follows, viewer.id, profileId)
  }

  /** After a follow edge is appended, the profile page shows the viewer as following. */
  lemma FollowedAfterFollow(viewer: Principal, profileId: nat, follows: seq<Follower>)
    ensures Followed(viewer, profileId, follows + [Follower(viewer.id, profileId)])
  {
    assert Follower(viewer.id, profileId) in follows + [Follower(viewer.id, profileId)];
  }

  /** After the pair's edges are deleted, a logged-in viewer is shown as not following. */
  lemma FollowedAfterUnfollow(viewer: Principal, profileId: nat, follows: seq<Follower>)
    requires viewer.id != 0
    ensures !Followed(viewer, profileId, WithoutEdges(follows, viewer.id, profileId))
  {
  }
}

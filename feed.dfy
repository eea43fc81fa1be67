/**
 * Feed selection of `getMessages`: keep the qualifying messages, order them newest first,
 * and take the first `PerPage`.
 */
module Feeds {
  import opened Entities
  import opened Users
  import opened Graph

  /** The three queries: public stream, the viewer's own timeline, one user's profile. */
  datatype FeedMode = Public | Own | Profile(username: string)

  /** The inner join on `users`: the author row exists. */
  predicate AuthorExists(users: seq<User>, authorId: nat)
  {
    exists u :: u in users && u.id == authorId
  }

  /**
   * Whether a message is a row of the query for this mode. The own timeline is taken
   * as `(author is viewer OR author is followed) AND flagged = 0`.
   */
  predicate Visible(mode: FeedMode, viewer: nat, users: seq<User>, follows: seq<Follower>, m: Message)
  {
    m.flagged == 0 && AuthorExists(users, m.authorId) &&
    match mode
    case Public => true
    case Own => m.authorId == viewer || HasEdge(follows, viewer, m.authorId)
    case Profile(name) => exists u :: u in users && u.id == m.authorId && u.username == name
  }

  /** The visible messages, each as often as it is stored, in store order. */
  function Qualifying(mode: FeedMode, viewer: nat, users: seq<User>, follows: seq<Follower>, msgs: seq<Message>): (r: seq<Message>)
    ensures forall m :: multiset(r)[m] == if Visible(mode, viewer, users, follows, m) then multiset(msgs)[m] else 0
  {
    if msgs == [] then []
    else
      assert msgs == [msgs[0]] + msgs[1..];
      var rest := Qualifying(mode, viewer, users, follows, msgs[1..]);
      if Visible(mode, viewer, users, follows, msgs[0]) then [msgs[0]] + rest else rest
  }

  /** Ordered by date, newest first. */
  ghost predicate NewestFirst(s: seq<Message>)
  {
    forall i, j :: 0 <= i < j < |s| ==> s[i].date >= s[j].date
  }

  /** Places `m` before the first message that is strictly older. */
  function Insert(m: Message, s: seq<Message>): (r: seq<Message>)
    requires NewestFirst(s)
    ensures |r| == |s| + 1
    ensures forall x :: x in r ==> x == m || x in s
    ensures multiset(r) == multiset(s) + multiset{m}
    ensures NewestFirst(r)
  {
    if s == [] || m.date >= s[0].date then
      var r := [m] + s;
      assert NewestFirst(r) by {
        forall i, j | 0 <= i < j < |r| ensures r[i].date >= r[j].date {
          if i == 0 && j > 1 { assert r[j] == s[j - 1] && s[0].date >= s[j - 1].date; }
          if i > 0 { assert r[i] == s[i - 1] && r[j] == s[j - 1]; }
        }
      }
      r
    else
      assert s == [s[0]] + s[1..];
      var rest := Insert(m, s[1..]);
      var r := [s[0]] + rest;
      assert NewestFirst(r) by {
        forall i, j | 0 <= i < j < |r| ensures r[i].date >= r[j].date {
          if i == 0 {
            assert r[j] == rest[j - 1];
            assert rest[j - 1] in rest;
            if rest[j - 1] != m {
              var k :| 1 <= k < |s| && s[k] == rest[j - 1];
            }
          } else {
            assert r[i] == rest[i - 1] && r[j] == rest[j - 1];
          }
        }
      }
      r
  }

  /** Insertion sort by date, newest first; equal dates keep store order. */
  function SortNewestFirst(s: seq<Message>): (r: seq<Message>)
    ensures NewestFirst(r)
    ensures multiset(r) == multiset(s)
    ensures |r| == |s|
  {
    if s == [] then []
    else
      assert s == [s[0]] + s[1..];
      Insert(s[0], SortNewestFirst(s[1..]))
  }

  /** The `ORDER BY date DESC LIMIT perPage` of the queries. */
  function Page(candidates: seq<Message>): (r: seq<Message>)
    ensures |r| == Min(PerPage, |candidates|)
    ensures multiset(r) <= multiset(candidates)
  {
    var sorted := SortNewestFirst(candidates);
    var n := Min(PerPage, |sorted|);
    assert sorted == sorted[..n] + sorted[n..];
    sorted[..n]
  }

  /**
   * `r` is a newest-first window of `n` messages drawn from `candidates`: as long as it can
   * be, every candidate when they all fit, and no candidate left out is newer than one kept.
   */
  ghost predicate NewestWindow(r: seq<Message>, candidates: seq<Message>, n: nat)
  {
    && |r| == Min(n, |candidates|)
    && multiset(r) <= multiset(candidates)
    && (|candidates| <= n ==> multiset(r) == multiset(candidates))
    && NewestFirst(r)
    && forall m, k :: m in multiset(candidates) - multiset(r) && 0 <= k < |r| ==> m.date <= r[k].date
  }

  /** In a newest-first sequence nothing after position `n` is newer than anything before it. */
  lemma TailNoNewer(s: seq<Message>, n: nat)
    requires NewestFirst(s) && n <= |s|
    ensures NewestFirst(s[..n])
    ensures forall x, k :: x in s[n..] && 0 <= k < n ==> x.date <= s[k].date
  {
    forall x, k | x in s[n..] && 0 <= k < n ensures x.date <= s[k].date {
      var j :| 0 <= j < |s| - n && s[n..][j] == x;
      assert s[n + j] == x;
    }
  }

  /** The first `Min(n, |s|)` messages of a newest-first ordering of `candidates` are its newest window. */
  lemma PrefixIsNewestWindow(s: seq<Message>, candidates: seq<Message>, n: nat)
    requires NewestFirst(s) && multiset(s) == multiset(candidates) && |s| == |candidates|
    ensures NewestWindow(s[..Min(n, |s|)], candidates, n)
  {
    var len := Min(n, |s|);
    var r, rest := s[..len], s[len..];
    assert s == r + rest;
    assert multiset(candidates) - multiset(r) == multiset(rest) by {
      assert multiset(s) == multiset(r) + multiset(rest);
    }
    TailNoNewer(s, len);
    assert |candidates| <= n ==> r == s;
  }

  lemma PageIsNewestWindow(candidates: seq<Message>)
    ensures NewestWindow(Page(candidates), candidates, PerPage)
  {
    PrefixIsNewestWindow(SortNewestFirst(candidates), candidates, PerPage);
  }

  /**
   * The message list `getMessages` returns for a mode and a viewer id: at most a page of
   * stored messages, each of which qualifies for the mode.
   */
  function Feed(mode: FeedMode, viewer: nat, users: seq<User>, msgs: seq<Message>, follows: seq<Follower>): (r: seq<Message>)
    ensures |r| <= PerPage
    ensures forall m :: m in r ==> m in msgs && Visible(mode, viewer, users, follows, m)
  {
    var c := Qualifying(mode, viewer, users, follows, msgs);
    var r := Page(c);
    assert forall m :: m in r ==> multiset(r)[m] > 0 && multiset(c)[m] > 0;
    r
  }

  /** A feed holds at most `PerPage` messages, none of them flagged. */
  lemma FeedBoundedAndUnflagged(mode: FeedMode, viewer: nat, users: seq<User>, msgs: seq<Message>, follows: seq<Follower>)
    ensures |Feed(mode, viewer, users, msgs, follows)| <= PerPage
    ensures forall m :: m in Feed(mode, viewer, users, msgs, follows) ==> m.flagged == 0
  {
  }

  /**
   * A feed is newest first; a qualifying message left out of it only when the page is
   * full and the message is no newer than any message on the page.
   */
  lemma FeedIsNewestWindow(mode: FeedMode, viewer: nat, users: seq<User>, msgs: seq<Message>, follows: seq<Follower>)
    ensures NewestFirst(Feed(mode, viewer, users, msgs, follows))
    ensures forall m :: m in msgs && Visible(mode, viewer, users, follows, m) && m !in Feed(mode, viewer, users, msgs, follows) ==>
              |Feed(mode, viewer, users, msgs, follows)| == PerPage &&
              forall k :: 0 <= k < PerPage ==> m.date <= Feed(mode, viewer, users, msgs, follows)[k].date
  {
    var c := Qualifying(mode, viewer, users, follows, msgs);
    var r := Page(c);
    PageIsNewestWindow(c);
    forall m | m in msgs && Visible(mode, viewer, users, follows, m) && m !in r
      ensures |r| == PerPage && forall k :: 0 <= k < PerPage ==> m.date <= r[k].date
    {
      assert multiset(c)[m] > 0 && multiset(r)[m] == 0;
      assert m in multiset(c) - multiset(r);
    }
  }

  /** The own timeline shows only the viewer's messages and those of users the viewer follows. */
  lemma OwnFeedAuthors(viewer: nat, users: seq<User>, msgs: seq<Message>, follows: seq<Follower>)
    ensures forall m :: m in Feed(Own, viewer, users, msgs, follows) ==>
              m.authorId == viewer || HasEdge(follows, viewer, m.authorId)
  {
  }

  /**
   * A profile feed shows only messages whose author has the route's username; with unique
   * usernames that author is the one user `FindUser` returns for it.
   */
  lemma ProfileFeedAuthor(name: string, viewer: nat, users: seq<User>, msgs: seq<Message>, follows: seq<Follower>)
    requires UsernamesUnique(users)
    ensures forall m :: m in Feed(Profile(name), viewer, users, msgs, follows) ==>
              FindUser(users, name).Some? && m.authorId == FindUser(users, name).value.id
  {
    forall m | m in Feed(Profile(name), viewer, users, msgs, follows)
      ensures FindUser(users, name).Some? && m.authorId == FindUser(users, name).value.id
    {
      var u :| u in users && u.id == m.authorId && u.username == name;
      FindUserIsTheOwner(users, u);
    }
  }

  /** After a follow edge is appended, the followed user's unflagged messages qualify for the own timeline. */
  lemma FollowShowsPosts(viewer: nat, target: nat, users: seq<User>, follows: seq<Follower>, m: Message)
    requires m.authorId == target && m.flagged == 0 && AuthorExists(users, target)
    ensures Visible(Own, viewer, users, follows + [Follower(viewer, target)], m)
  {
    assert Follower(viewer, target) in follows + [Follower(viewer, target)];
  }

  /** After the pair's edges are deleted, another user's messages no longer qualify for the own timeline. */
  lemma UnfollowHidesPosts(viewer: nat, target: nat, users: seq<User>, follows: seq<Follower>, m: Message)
    requires m.authorId == target && target != viewer
    ensures !Visible(Own, viewer, users, WithoutEdges(follows, viewer, target), m)
  {
  }
}

/**
 The tables that the fetcher fills: users, communities, posts, comments and moderators, with their ids,
 unique network ids and references. Properties are stated row by row, and a row is named where it matters.
 */
module Database {
  import opened Wrappers
  import opened Apub

  type Id = nat

  datatype User = User(actorId: Url, local: bool, lastRefreshedAt: int)
  datatype Community = Community(actorId: Url, creator: Id, local: bool, lastRefreshedAt: int)
  datatype Post = Post(apId: Url, creator: Id, community: Id, locked: bool)
  datatype Comment = Comment(apId: Url, creator: Id, post: Id, parent: Option<Id>)

  /** Every id in use is below `nextId`, which stands for the sequences that number the rows. */
  datatype Tables = Tables(users: map<Id, User>, communities: map<Id, Community>, posts: map<Id, Post>,
                           comments: map<Id, Comment>, moderators: set<(Id, Id)>, nextId: Id)
  {
    ghost predicate CommunityOk(c: Community) {
      c.creator in users
    }

    ghost predicate PostOk(p: Post) {
      p.creator in users && p.community in communities
    }

    ghost predicate CommentOk(c: Comment) {
      c.creator in users && c.post in posts && (c.parent.Some? ==> c.parent.value in comments)
    }

    ghost predicate ModeratorOk(m: (Id, Id)) {
      m in moderators ==> m.0 in communities && m.1 in users
    }

    /** Whatever the rows with this id refer to is stored. */
    ghost predicate RowOk(i: Id) {
      && (i in users || i in communities || i in posts || i in comments ==> i < nextId)
      && (i in communities ==> CommunityOk(communities[i]))
      && (i in posts ==> PostOk(posts[i]))
      && (i in comments ==> CommentOk(comments[i]))
    }

    ghost predicate ReferencesOk() {
      (forall i :: RowOk(i)) && (forall m :: ModeratorOk(m))
    }

    /** The unique indexes on the network ids. */
    ghost predicate UniqueOk() {
      && UniqueBy(users, UserUrl) && UniqueBy(communities, CommunityUrl)
      && UniqueBy(posts, PostUrl) && UniqueBy(comments, CommentUrl)
    }

    ghost predicate Valid() {
      ReferencesOk() && UniqueOk()
    }
  }

  // ---------- unique network ids ----------

  function UserUrl(u: User): Url { u.actorId }

  function CommunityUrl(c: Community): Url { c.actorId }

  function PostUrl(p: Post): Url { p.apId }

  function CommentUrl(c: Comment): Url { c.apId }

  ghost predicate OneRow<R>(rows: map<Id, R>, urlOf: R -> Url, i: Id, j: Id) {
    i in rows && j in rows && urlOf(rows[i]) == urlOf(rows[j]) ==> i == j
  }

  ghost predicate UniqueBy<R>(rows: map<Id, R>, urlOf: R -> Url) {
    forall i, j :: OneRow(rows, urlOf, i, j)
  }

  function Find<R>(rows: map<Id, R>, urlOf: R -> Url, u: Url): (r: Option<Id>)
    requires UniqueBy(rows, urlOf)
    ensures r.Some? ==> r.value in rows && urlOf(rows[r.value]) == u
  {
    assert forall i, j | i in rows && j in rows && urlOf(rows[i]) == urlOf(rows[j]) == u :: OneRow(rows, urlOf, i, j);
    if i :| i in rows && urlOf(rows[i]) == u then Some(i) else None
  }

  lemma FindFinds<R>(rows: map<Id, R>, urlOf: R -> Url, u: Url, i: Id)
    requires UniqueBy(rows, urlOf) && i in rows && urlOf(rows[i]) == u
    ensures Find(rows, urlOf, u) == Some(i)
  {
    assert Find(rows, urlOf, u).Some?;
    assert OneRow(rows, urlOf, i, Find(rows, urlOf, u).value);
  }

  lemma StayUnique<R>(rows: map<Id, R>, urlOf: R -> Url, i: Id, row: R)
    requires UniqueBy(rows, urlOf) && Find(rows, urlOf, urlOf(row)) in {None, Some(i)}
    ensures UniqueBy(rows[i := row], urlOf)
  {
    var after := rows[i := row];
    forall j, k ensures OneRow(after, urlOf, j, k) {
      assert OneRow(rows, urlOf, j, k);
      if j in rows && urlOf(rows[j]) == urlOf(row) {
        FindFinds(rows, urlOf, urlOf(row), j);
      }
      if k in rows && urlOf(rows[k]) == urlOf(row) {
        FindFinds(rows, urlOf, urlOf(row), k);
      }
    }
  }

  // ---------- what any run keeps ----------

  /** No row disappears, and no network id changes, except that a user may get another one on the same host. */
  ghost predicate RowKept(a: Tables, b: Tables, i: Id) {
    && (i in a.users ==> i in b.users && b.users[i].actorId.DomainName() == a.users[i].actorId.DomainName())
    && (i in a.communities ==> i in b.communities && b.communities[i].actorId == a.communities[i].actorId)
    && (i in a.posts ==> i in b.posts && b.posts[i].apId == a.posts[i].apId)
    && (i in a.comments ==> i in b.comments && b.comments[i].apId == a.comments[i].apId)
  }

  /** A network id that is new in `b` has passed the check. */
  ghost predicate RowAdmitted(s: Settings, a: Tables, b: Tables, i: Id) {
    && (i in b.users ==> IsValid(s, b.users[i].actorId) || (i in a.users && a.users[i].actorId == b.users[i].actorId))
    && (i in b.communities ==> IsValid(s, b.communities[i].actorId) || i in a.communities)
    && (i in b.posts ==> IsValid(s, b.posts[i].apId) || i in a.posts)
    && (i in b.comments ==> IsValid(s, b.comments[i].apId) || i in a.comments)
  }

  ghost predicate Step(s: Settings, a: Tables, b: Tables) {
    && b.Valid()
    && (forall i :: RowKept(a, b, i))
    && (forall i :: RowAdmitted(s, a, b, i))
    && a.moderators <= b.moderators
  }

  lemma NoStep(s: Settings, t: Tables)
    requires t.Valid()
    ensures Step(s, t, t)
  {
  }

  lemma StepsAddUp(s: Settings, a: Tables, b: Tables, c: Tables)
    requires Step(s, a, b) && Step(s, b, c)
    ensures Step(s, a, c)
  {
    forall i ensures RowKept(a, c, i) {
      assert RowKept(a, b, i) && RowKept(b, c, i);
    }
    forall i ensures RowAdmitted(s, a, c, i) {
      assert RowKept(a, b, i) && RowKept(b, c, i) && RowAdmitted(s, a, b, i) && RowAdmitted(s, b, c, i);
    }
  }

  // ---------- inserts and updates ----------

  function WithUser(t: Tables, i: Id, u: User): Tables {
    t.(users := t.users[i := u], nextId := if i < t.nextId then t.nextId else i + 1)
  }

  function WithCommunity(t: Tables, i: Id, c: Community): Tables {
    t.(communities := t.communities[i := c], nextId := if i < t.nextId then t.nextId else i + 1)
  }

  function WithPost(t: Tables, i: Id, p: Post): Tables {
    t.(posts := t.posts[i := p], nextId := if i < t.nextId then t.nextId else i + 1)
  }

  function WithComment(t: Tables, i: Id, c: Comment): Tables {
    t.(comments := t.comments[i := c], nextId := if i < t.nextId then t.nextId else i + 1)
  }

  function WithModerator(t: Tables, community: Id, user: Id): Tables {
    t.(moderators := t.moderators + {(community, user)})
  }

  /** An insert, or an update of the one row that has the network id. */
  lemma UserStep(s: Settings, t: Tables, i: Id, u: User)
    requires t.Valid()
    requires Find(t.users, UserUrl, u.actorId) in {None, Some(i)}
            && (i in t.users ==> t.users[i].actorId.DomainName() == u.actorId.DomainName())
    requires IsValid(s, u.actorId)
    ensures Step(s, t, WithUser(t, i, u))
  {
    var w := WithUser(t, i, u);
    forall j ensures w.RowOk(j) && RowKept(t, w, j) && RowAdmitted(s, t, w, j) {
      assert t.RowOk(j);
    }
    forall m ensures w.ModeratorOk(m) {
      assert t.ModeratorOk(m);
    }
    StayUnique(t.users, UserUrl, i, u);
  }

  /** An insert, or an update of the one row that has the network id. */
  lemma CommunityStep(s: Settings, t: Tables, i: Id, c: Community)
    requires t.Valid() && t.CommunityOk(c)
    requires Find(t.communities, CommunityUrl, c.actorId) in {None, Some(i)}
            && (i in t.communities ==> t.communities[i].actorId == c.actorId)
    requires IsValid(s, c.actorId)
    ensures Step(s, t, WithCommunity(t, i, c))
  {
    var w := WithCommunity(t, i, c);
    forall j ensures w.RowOk(j) && RowKept(t, w, j) && RowAdmitted(s, t, w, j) {
      assert t.RowOk(j);
    }
    forall m ensures w.ModeratorOk(m) {
      assert t.ModeratorOk(m);
    }
    StayUnique(t.communities, CommunityUrl, i, c);
  }

  /** An insert, or an update of the one row that has the network id. */
  lemma PostStep(s: Settings, t: Tables, i: Id, p: Post)
    requires t.Valid() && t.PostOk(p)
    requires Find(t.posts, PostUrl, p.apId) in {None, Some(i)} && (i in t.posts ==> t.posts[i].apId == p.apId)
    requires IsValid(s, p.apId)
    ensures Step(s, t, WithPost(t, i, p))
  {
    var w := WithPost(t, i, p);
    forall j ensures w.RowOk(j) && RowKept(t, w, j) && RowAdmitted(s, t, w, j) {
      assert t.RowOk(j);
    }
    forall m ensures w.ModeratorOk(m) {
      assert t.ModeratorOk(m);
    }
    StayUnique(t.posts, PostUrl, i, p);
  }

  /** An insert, or an update of the one row that has the network id. */
  lemma CommentStep(s: Settings, t: Tables, i: Id, c: Comment)
    requires t.Valid() && t.CommentOk(c)
    requires Find(t.comments, CommentUrl, c.apId) in {None, Some(i)}
            && (i in t.comments ==> t.comments[i].apId == c.apId)
    requires IsValid(s, c.apId)
    ensures Step(s, t, WithComment(t, i, c))
  {
    var w := WithComment(t, i, c);
    forall j ensures w.RowOk(j) && RowKept(t, w, j) && RowAdmitted(s, t, w, j) {
      assert t.RowOk(j);
    }
    forall m ensures w.ModeratorOk(m) {
      assert t.ModeratorOk(m);
    }
    StayUnique(t.comments, CommentUrl, i, c);
  }

  lemma ModeratorStep(s: Settings, t: Tables, community: Id, user: Id)
    requires t.Valid() && community in t.communities && user in t.users
    ensures Step(s, t, WithModerator(t, community, user))
  {
    var w := WithModerator(t, community, user);
    forall j ensures w.RowOk(j) && RowKept(t, w, j) && RowAdmitted(s, t, w, j) {
      assert t.RowOk(j);
    }
    forall m ensures w.ModeratorOk(m) {
      assert t.ModeratorOk(m);
    }
  }
}

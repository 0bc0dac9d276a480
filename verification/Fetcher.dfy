/**
 The "get or fetch and insert" functions of lemmy_apub/src/fetcher.rs, with the `from_apub` conversions that they
 are mutually recursive with. They run over whatever the network answers: the objects may refer to each other in
 cycles and may be different at every request. Only the request counter, which is passed in and out, makes them stop.
 */
module Fetcher {
  import opened Wrappers
  import opened Apub
  import opened Database
  import opened ReplyChains
  import opened Sequences

  const MAX_REQUEST_NUMBER: nat := 10
  const MAX_ATTEMPTS: nat := 3
  const ACTOR_REFETCH_INTERVAL_SECONDS: int := 24 * 60 * 60

  // ---------- what the network may answer ----------

  /** `fieldsOk` says that the columns the model leaves out can be read and have no slurs in them. */
  datatype PersonObject = PersonObject(id: Option<Url>, fieldsOk: bool)
  datatype GroupObject = GroupObject(id: Option<Url>, attributedTo: Option<seq<Option<Url>>>, fieldsOk: bool)
  datatype PageObject = PageObject(id: Option<Url>, attributedTo: Option<Url>, to: Option<Url>, fieldsOk: bool,
                                   commentsEnabled: bool)
  datatype NoteObject = NoteObject(id: Option<Url>, attributedTo: Option<Url>, inReplyTo: Option<seq<Option<Url>>>,
                                   contentOk: bool)
  {
    /** The second entry; the first one is the post. */
    function Parent(): Option<Url> {
      if inReplyTo.Some? && |inReplyTo.value| > 1 then inReplyTo.value[1] else None
    }
  }

  datatype RemoteObject =
    | Person(person: PersonObject)
    | Group(group: GroupObject)
    | Page(page: PageObject)
    | Note(note: NoteObject)
    | OrderedCollection(items: Option<seq<Option<PageObject>>>)
    | Unreadable

  datatype Attempt = Answer(body: RemoteObject) | TimedOut | SendFailed

  datatype FetchError =
    | TooManyRequests
    | NotAdmitted
    | NoAnswer
    | CannotRead
    | WrongDomain
    | PostLocked
    | UniqueViolation
    | DatabaseError

  datatype PostForm = PostForm(apId: Url, creator: Id, community: Id, locked: bool)
  function FormOfRow(p: Post): PostForm {
    PostForm(p.apId, p.creator, p.community, p.locked)
  }

  datatype CommentForm = CommentForm(apId: Url, creator: Id, post: Id, parent: Option<Id>)
  datatype Actor = CommunityActor(community: Id) | UserActor(user: Id)

  datatype Found = FoundUser(user: Id) | FoundCommunity(community: Id) | FoundPost(post: Id) | FoundComment(comment: Id)

  predicate ShouldRefetchActor(lastRefreshed: int, now: int) {
    lastRefreshed < now - ACTOR_REFETCH_INTERVAL_SECONDS
  }

  predicate SameHost(a: Url, b: Url) {
    a.DomainName() == b.DomainName()
  }

  function CheckObjectDomain(s: Settings, id: Option<Url>, expected: Option<Url>): (r: Result<Url, FetchError>)
    ensures r.Success? <==>
              && id.Some? && IsValid(s, id.value)
              && (expected.Some? ==> expected.value.host.Domain? && id.value.host.Domain?
                                     && id.value.host.name == expected.value.host.name)
    ensures r.Success? ==> id == Some(r.value) && IsValid(s, r.value)
    ensures r.Success? && expected.Some? ==> SameHost(expected.value, r.value)
  {
    if expected.Some? && expected.value.DomainName().None? then Failure(NotAdmitted)
    else if id.None? then Failure(CannotRead)
    else if expected.Some? && id.value.DomainName() != expected.value.DomainName() then Failure(WrongDomain)
    else if !IsValid(s, id.value) then Failure(NotAdmitted)
    else Success(id.value)
  }

  function UserFromApub(s: Settings, p: PersonObject, expected: Url): Result<Url, FetchError> {
    if !p.fieldsOk then Failure(CannotRead) else CheckObjectDomain(s, p.id, Some(expected))
  }

  function OutboxUrl(actorId: Url): Url {
    actorId.(path := actorId.path + "/outbox")
  }

  // ---------- what every call keeps ----------

  datatype Moment = Moment(tables: Tables, counter: nat, requests: nat, attempts: nat)

  function Passed(counter: nat): nat {
    if counter < MAX_REQUEST_NUMBER then counter else MAX_REQUEST_NUMBER
  }

  function Remaining(counter: nat): nat {
    MAX_REQUEST_NUMBER - Passed(counter)
  }

  /**
   Nothing is lost, nothing dangles, nothing unwanted is stored; the counter pays for every request, and three
   attempts at most are made for one request.
   */
  ghost predicate Progress(s: Settings, a: Moment, b: Moment) {
    && Step(s, a.tables, b.tables)
    && a.counter <= b.counter
    && b.requests == a.requests + Passed(b.counter) - Passed(a.counter)
    && a.attempts <= b.attempts <= a.attempts + MAX_ATTEMPTS * (b.requests - a.requests)
  }

  lemma Onward(s: Settings, a: Moment, b: Moment, c: Moment)
    requires Progress(s, a, b) && Progress(s, b, c)
    ensures Progress(s, a, c)
  {
    StepsAddUp(s, a.tables, b.tables, c.tables);
  }

  /** Every user is stored and comes from the host that its URI names. */
  ghost predicate ComeFrom(t: Tables, users: seq<Id>, uris: seq<Option<Url>>) {
    |users| <= |uris| && forall k | 0 <= k < |users| :: IsFrom(t, users[k], uris[k])
  }

  ghost predicate IsFrom(t: Tables, user: Id, uri: Option<Url>) {
    uri.Some? && user in t.users && SameHost(uri.value, t.users[user].actorId)
  }

  lemma OneMoreComesFrom(s: Settings, a: Tables, b: Tables, users: seq<Id>, uris: seq<Option<Url>>, user: Id)
    requires ComeFrom(a, users, uris) && Step(s, a, b) && |users| < |uris| && IsFrom(b, user, uris[|users|])
    ensures ComeFrom(b, users + [user], uris)
  {
    forall k | 0 <= k < |users| ensures IsFrom(b, users[k], uris[k]) {
      assert IsFrom(a, users[k], uris[k]) && RowKept(a, b, users[k]);
    }
  }

  lemma StillComeFrom(s: Settings, a: Tables, b: Tables, users: seq<Id>, uris: seq<Option<Url>>)
    requires ComeFrom(a, users, uris) && Step(s, a, b)
    ensures ComeFrom(b, users, uris)
  {
    forall k | 0 <= k < |users| ensures IsFrom(b, users[k], uris[k]) {
      assert IsFrom(a, users[k], uris[k]) && RowKept(a, b, users[k]);
    }
  }

  /** There is a moderator for every URI, from its host, and no two of them are the same. */
  ghost predicate Attributed(t: Tables, community: Id, uris: seq<Option<Url>>, users: seq<Id>) {
    |users| == |uris| && ComeFrom(t, users, uris) && NoDuplicates(users) && Pairs(community, users) <= t.moderators
  }

  /** They are just the ones that have joined since then. */
  ghost predicate HaveJoined(before: set<(Id, Id)>, t: Tables, community: Id, uris: seq<Option<Url>>, users: seq<Id>) {
    && Attributed(t, community, uris, users)
    && t.moderators == before + Pairs(community, users) && before !! Pairs(community, users)
  }

  ghost predicate AreStored(t: Tables, users: seq<Id>) {
    forall u :: u in users ==> u in t.users
  }

  function Pairs(community: Id, users: seq<Id>): set<(Id, Id)> {
    set u | u in users :: (community, u)
  }

  lemma OneMorePair(community: Id, users: seq<Id>, n: nat)
    requires n < |users|
    ensures Pairs(community, users[..n + 1]) == Pairs(community, users[..n]) + {(community, users[n])}
  {
    assert users[..n + 1] == users[..n] + [users[n]];
  }

  lemma OneMoreDistinct(community: Id, users: seq<Id>, n: nat)
    requires n < |users| && NoDuplicates(users[..n]) && (community, users[n]) !in Pairs(community, users[..n])
    ensures NoDuplicates(users[..n + 1])
  {
    var more := users[..n + 1];
    forall i, j | 0 <= i < j < |more| ensures more[i] != more[j] {
      assert users[i] == users[..n][i];
      if j < n {
        assert users[j] == users[..n][j];
      } else {
        assert (community, users[i]) in Pairs(community, users[..n]);
      }
    }
  }

  lemma {:induction false} PairsStep(s: Settings, t: Tables, community: Id, users: seq<Id>, n: nat)
    requires t.Valid() && community in t.communities && AreStored(t, users) && n <= |users|
    ensures Step(s, t, t.(moderators := t.moderators + Pairs(community, users[..n])))
  {
    if n == 0 {
      NoStep(s, t);
      assert t.(moderators := t.moderators + Pairs(community, users[..n])) == t;
    } else {
      PairsStep(s, t, community, users, n - 1);
      OneMorePair(community, users, n - 1);
      var w := t.(moderators := t.moderators + Pairs(community, users[..n - 1]));
      ModeratorStep(s, w, community, users[n - 1]);
      assert WithModerator(w, community, users[n - 1]) == t.(moderators := t.moderators + Pairs(community, users[..n]));
      StepsAddUp(s, t, w, WithModerator(w, community, users[n - 1]));
    }
  }

  ghost predicate IsOpen(t: Tables, comment: Id) {
    comment in t.comments && t.comments[comment].post in t.posts && !t.posts[t.comments[comment].post].locked
  }

  ghost predicate FormOk(t: Tables, f: CommentForm) {
    f.creator in t.users && f.post in t.posts && (f.parent.Some? ==> f.parent.value in t.comments)
  }

  /** The chains are still right, the comments that were stored are as they were, and `u` is stored as row `r.value`. */
  ghost predicate ChainsGrew(before: map<Id, Comment>, rows: map<Id, Comment>, parentOf: Replies, u: Url,
                             r: Result<Id, FetchError>, d: nat) {
    && ChainsOk(rows, parentOf) && Extends(before, rows)
    && (r.Success? ==> r.value in rows && rows[r.value].apId == u && Reached(before, rows, parentOf, u, d))
  }

  /** `f` came with its parents to an instance that had the comments `before`, and not this one. */
  ghost predicate IsFetched(before: map<Id, Comment>, t: Tables, parentOf: Replies, d: nat, f: CommentForm) {
    && UniqueBy(before, CommentUrl) && f.apId !in Stored(before)
    && match parentOf(f.apId)
       case None => f.parent.None? && t.comments == before && ChainsOk(before, parentOf)
       case Some(p) => f.parent.Some? && ChainsGrew(before, t.comments, parentOf, p, Success(f.parent.value), d)
  }

  /** The row that an upsert writes. */
  function RowFor(t: Tables, u: Url): Id
    requires t.Valid()
  {
    match Find(t.comments, CommentUrl, u) case Some(i) => i case None => t.nextId
  }

  function RowOfForm(t: Tables, f: CommentForm): Comment
    requires t.Valid()
  {
    Comment(f.apId, f.creator, f.post, ParentAfter(t.comments, RowFor(t, f.apId), f.parent))
  }

  function WithForm(t: Tables, f: CommentForm): Tables
    requires t.Valid()
  {
    WithComment(t, RowFor(t, f.apId), RowOfForm(t, f))
  }

  /** What a fetch (which asks for the lock) and a search (which does not) make of a converted note. */
  function StoredAs(t: Tables, form: Result<CommentForm, FetchError>, asksForLock: bool):
    (Tables, Result<Id, FetchError>)
    requires t.Valid() && (form.Success? ==> FormOk(t, form.value))
  {
    if form.Failure? then (t, Failure(form.error))
    else if asksForLock && t.posts[form.value.post].locked then (t, Failure(PostLocked))
    else (WithForm(t, form.value), Success(RowFor(t, form.value.apId)))
  }

  /**
   The outcome row by row: nothing for a note that could not be converted, or a locked post that was asked for;
   otherwise one row, which is the one with the network id if there is one, says what the form says, and keeps a
   parent that the form leaves out.
   */
  lemma StoredAsIs(t: Tables, form: Result<CommentForm, FetchError>, asksForLock: bool)
    requires t.Valid() && (form.Success? ==> FormOk(t, form.value))
    ensures var (w, r) := StoredAs(t, form, asksForLock);
            if form.Failure? then w == t && r == Failure(form.error)
            else if asksForLock && t.posts[form.value.post].locked then w == t && r == Failure(PostLocked)
            else
              var f := form.value;
              && r.Success? && w == t.(comments := w.comments, nextId := w.nextId) && r.value in w.comments
              && w.comments - {r.value} == t.comments - {r.value}
              && (forall i :: i in t.comments && t.comments[i].apId == f.apId ==> i == r.value)
              && (r.value in t.comments ==> t.comments[r.value].apId == f.apId)
              && w.comments[r.value] == Comment(f.apId, f.creator, f.post,
                                                if f.parent.Some? || r.value !in t.comments then f.parent
                                                else t.comments[r.value].parent)
  {
    if form.Success? {
      var i := RowFor(t, form.value.apId);
      assert t.RowOk(t.nextId);
      forall j | j in t.comments && t.comments[j].apId == form.value.apId ensures j == i {
        FindFinds(t.comments, CommentUrl, form.value.apId, j);
      }
    }
  }

  /** Everything the note names is stored, so that nothing has to be fetched for it. */
  ghost predicate NamesAreKnown(t: Tables, note: NoteObject)
    requires t.Valid()
  {
    && note.attributedTo.Some? && note.inReplyTo.Some? && note.inReplyTo.value != [] && note.inReplyTo.value[0].Some?
    && (var creator := Find(t.users, UserUrl, note.attributedTo.value); creator.Some? && t.users[creator.value].local)
    && Find(t.posts, PostUrl, note.inReplyTo.value[0].value).Some?
    && (|note.inReplyTo.value| > 1 ==> note.Parent().Some? && Find(t.comments, CommentUrl, note.Parent().value).Some?)
  }

  /** The form that such a note yields. */
  ghost function FormOfNote(s: Settings, t: Tables, note: NoteObject, u: Url): (r: Result<CommentForm, FetchError>)
    requires t.Valid() && NamesAreKnown(t, note)
    ensures r.Success? <==>
              && note.contentOk && note.id.Some? && IsValid(s, note.id.value)
              && u.host.Domain? && note.id.value.host.Domain? && note.id.value.host.name == u.host.name
    ensures r.Success? ==>
              var f := r.value;
              && FormOk(t, f) && note.id == Some(f.apId)
              && note.attributedTo == Some(t.users[f.creator].actorId)
              && note.inReplyTo.value[0] == Some(t.posts[f.post].apId)
              && note.Parent() == if f.parent.None? then None else Some(t.comments[f.parent.value].apId)
  {
    var apId := CheckObjectDomain(s, note.id, Some(u));
    if !note.contentOk then Failure(CannotRead)
    else if apId.Failure? then Failure(apId.error)
    else
      Success(CommentForm(apId.value, Find(t.users, UserUrl, note.attributedTo.value).value,
                          Find(t.posts, PostUrl, note.inReplyTo.value[0].value).value,
                          if note.Parent().None? then None else Find(t.comments, CommentUrl, note.Parent().value)))
  }

  /** Then it is a new row, and reached one step further out. */
  lemma StoredFetched(before: map<Id, Comment>, t: Tables, parentOf: Replies, d: nat, f: CommentForm)
    returns (depth: nat)
    requires IsFetched(before, t, parentOf, d, f) && t.Valid()
    ensures ChainsGrew(before, WithForm(t, f).comments, parentOf, f.apId, Success(RowFor(t, f.apId)), depth)
  {
    var i, c := RowFor(t, f.apId), RowOfForm(t, f);
    assert t.RowOk(i);
    if f.parent.Some? {
      depth := d + 1;
      ReplyIsDeeper(before, t.comments, parentOf, f.apId, d, i, c);
    } else {
      depth := 0;
    }
    UpsertKeepsChains(t, parentOf, i, c, f.parent);
    StoredIfFound(t.comments, f.apId);
    var after := t.comments[i := c];
    forall j ensures SameRow(before, after, j) {
      assert SameRow(before, t.comments, j);
    }
  }

  class Instance {
    const settings: Settings
    /** The answer to an attempt: which request it is, which attempt, and for what. */
    const remote: (nat, nat, Url) -> Attempt
    ghost const parentOf: Replies
    /** The time, which is looked up again after every request. */
    const clock: nat -> int
    /** The database fails only where it has to, on a unique index. */
    const reliable: bool
    var tables: Tables
    var requests: nat
    ghost var attempts: nat

    constructor (settings: Settings, remote: (nat, nat, Url) -> Attempt, clock: nat -> int, reliable: bool,
                 tables: Tables, ghost parentOf: Replies)
      requires tables.Valid()
      ensures this.settings == settings && this.remote == remote && this.parentOf == parentOf
      ensures this.clock == clock && this.reliable == reliable
      ensures this.tables == tables && requests == 0 && attempts == 0
    {
      this.settings, this.remote, this.tables, this.parentOf := settings, remote, tables, parentOf;
      this.clock, this.reliable := clock, reliable;
      requests, attempts := 0, 0;
    }

    ghost function At(counter: nat): Moment
      reads this
    {
      Moment(tables, counter, requests, attempts)
    }

    /** Whenever a note is answered, its id is its URL and its parent is the same one. */
    ghost predicate FixedNotes() {
      forall n, k, u :: remote(n, k, u).Answer? && remote(n, k, u).body.Note? ==> IsNoteOf(remote(n, k, u).body.note, u)
    }

    ghost predicate IsNoteOf(note: NoteObject, u: Url) {
      note.id == Some(u) && note.Parent() == parentOf(u)
    }

    /** The first of three attempts of request `n` that did not time out brought `body`. */
    ghost predicate Answered(n: nat, u: Url, body: RemoteObject) {
      exists k | 0 <= k < 3 :: remote(n, k, u) == Answer(body)
        && forall j | 0 <= j < k :: remote(n, j, u).TimedOut?
    }

    ghost predicate IsAnswered(n: nat, u: Url) {
      exists body :: Answered(n, u, body)
    }

    /** A person, group, page or note with this id was the answer to request `n`. */
    ghost predicate PersonTold(n: nat, u: Url, row: User, now: int) {
      exists p :: Answered(n, u, Person(p)) && IsUsable(p.id, p.fieldsOk, u) && row == User(p.id.value, false, now)
    }

    /** The next request under this counter will be made. */
    ghost predicate MayFetch(counter: nat, u: Url) {
      counter < 10 && IsValid(settings, u)
    }

    /** An object that was answered for `u` can be stored: its id is admitted, and has the host of `u`. */
    ghost predicate IsUsable(id: Option<Url>, fieldsOk: bool, u: Url) {
      && fieldsOk && id.Some? && IsValid(settings, id.value)
      && u.host.Domain? && id.value.host.Domain? && id.value.host.name == u.host.name
    }

    /** A remote row that was written more than a day ago. */
    ghost predicate IsStale(local: bool, lastRefreshedAt: int)
      reads this
    {
      !local && lastRefreshedAt < clock(requests) - 24 * 60 * 60
    }

    /** All the attributed users of the group are moderators of the community that it was stored as. */
    ghost predicate GroupTold(n: nat, u: Url, t: Tables, community: Id) {
      exists g, users ::
        Answered(n, u, Group(g)) && IsUsable(g.id, g.fieldsOk, u) && community in t.communities
        && g.id == Some(t.communities[community].actorId) && g.attributedTo.Some?
        && Attributed(t, community, g.attributedTo.value, users)
    }

    ghost predicate PageTold(n: nat, u: Url, t: Tables, p: Post) {
      exists page :: Answered(n, u, Page(page)) && IsFormOf(t, FormOfRow(p), page, Some(u))
    }

    ghost predicate NoteTold(n: nat, u: Url, t: Tables, c: Comment) {
      exists note :: Answered(n, u, Note(note)) && IsRowOf(t, c, note, u)
    }

    method DatabaseFails() returns (fails: bool)
      ensures fails ==> !reliable
    {
      fails := false;
      if !reliable {
        fails := *;
      }
    }

    // ---------- requests ----------

    method Retry(url: Url) returns (r: Result<RemoteObject, FetchError>)
      modifies this`attempts
      ensures r == Failure(DatabaseError) ==> !reliable
      ensures forall body :: r == Success(body) <==> Answered(requests, url, body)
      ensures r.Failure? ==> r.error == NoAnswer
      ensures old(attempts) < attempts <= old(attempts) + 3
      ensures (forall k | 0 <= k < 3 :: remote(requests, k, url).TimedOut?) ==> attempts == old(attempts) + 3
    {
      var k := 0;
      while k < MAX_ATTEMPTS
        invariant 0 <= k <= MAX_ATTEMPTS && attempts == old(attempts) + k
        invariant forall j | 0 <= j < k :: remote(requests, j, url).TimedOut?
      {
        attempts := attempts + 1;
        match remote(requests, k, url)
        case Answer(body) => return Success(body);
        case SendFailed => return Failure(NoAnswer);
        case TimedOut =>
        k := k + 1;
      }
      return Failure(NoAnswer);
    }

    method FetchRemoteObject(url: Url, counter: nat) returns (r: Result<RemoteObject, FetchError>, c: nat)
      requires tables.Valid()
      modifies this`requests, this`attempts
      ensures r == Failure(DatabaseError) ==> !reliable
      ensures c == counter + 1 && Progress(settings, old(At(counter)), At(c))
      ensures forall body ::
                r == Success(body) <==>
                  c <= MAX_REQUEST_NUMBER && IsValid(settings, url) && Answered(requests, url, body)
    {
      c := counter + 1;
      if c > MAX_REQUEST_NUMBER {
        return Failure(TooManyRequests), c;
      }
      requests := requests + 1;
      if !IsValid(settings, url) {
        return Failure(NotAdmitted), c;
      }
      r := Retry(url);
    }

    // ---------- users ----------

    method UpsertUser(u: User) returns (i: Id)
      requires tables.Valid() && IsValid(settings, u.actorId)
      modifies this`tables
      ensures tables == WithUser(old(tables), i, u) && Step(settings, old(tables), tables)
      ensures i == (match Find(old(tables).users, UserUrl, u.actorId) case Some(j) => j case None => old(tables).nextId)
    {
      i := match Find(tables.users, UserUrl, u.actorId) case Some(j) => j case None => tables.nextId;
      assert tables.RowOk(i);
      UserStep(settings, tables, i, u);
      tables := WithUser(tables, i, u);
    }

    method GetOrFetchUser(url: Url, counter: nat) returns (r: Result<Id, FetchError>, c: nat)
      requires tables.Valid()
      modifies this
      ensures r == Failure(DatabaseError) ==> !reliable
      ensures Progress(settings, old(At(counter)), At(c))
      ensures tables == old(tables).(users := tables.users, nextId := tables.nextId)
      ensures r.Success? ==> r.value in tables.users && SameHost(url, tables.users[r.value].actorId)
      ensures if r.Failure? then tables == old(tables)
              else tables.users == old(tables).users[r.value := tables.users[r.value]]
      ensures match Find(old(tables).users, UserUrl, url)
              case Some(i) =>
                && (r.Success? ==> r.value == i)
                && (!old(IsStale(tables.users[i].local, tables.users[i].lastRefreshedAt)) ==>
                      r in {Success(i), Failure(DatabaseError)} && tables == old(tables) && c == counter)
                && ((forall p :: !(MayFetch(counter, url) && Answered(old(requests) + 1, url, Person(p)))) ==>
                      r in {Success(i), Failure(DatabaseError)} && tables == old(tables))
              case None =>
                && (r.Success? ==> counter < c <= MAX_REQUEST_NUMBER
                                   && PersonTold(old(requests) + 1, url, tables.users[r.value], clock(requests)))
                && forall p :: MayFetch(counter, url) && Answered(old(requests) + 1, url, Person(p))
                               && IsUsable(p.id, p.fieldsOk, url) ==>
                     r.Success? || r == Failure(DatabaseError)
    {
      c := counter;
      NoStep(settings, tables);
      var failed := DatabaseFails();
      if failed {
        return Failure(DatabaseError), c;
      }
      match Find(tables.users, UserUrl, url)
      case Some(i) =>
        if tables.users[i].local || !ShouldRefetchActor(tables.users[i].lastRefreshedAt, clock(requests)) {
          return Success(i), c;
        }
        r, c := RefreshUser(i, url, c);
      case None => r, c := CreateUser(url, c);
    }

    /**
     A user that cannot be fetched again stays as it is, and that is no error; one that is answered unusable is
     one.
     */
    method RefreshUser(i: Id, url: Url, counter: nat) returns (r: Result<Id, FetchError>, c: nat)
      requires tables.Valid() && i in tables.users && tables.users[i].actorId == url
      modifies this
      ensures r == Failure(DatabaseError) ==> !reliable
      ensures Progress(settings, old(At(counter)), At(c)) && c == counter + 1
      ensures tables == old(tables).(users := tables.users, nextId := tables.nextId)
      ensures if r.Failure? then tables == old(tables)
              else r.value == i && i in tables.users && SameHost(url, tables.users[i].actorId)
                   && tables.users == old(tables).users[i := tables.users[i]]
      ensures (forall p :: !(MayFetch(counter, url) && Answered(old(requests) + 1, url, Person(p)))) ==>
                r == Success(i) && tables == old(tables)
      ensures forall p :: MayFetch(counter, url) && Answered(old(requests) + 1, url, Person(p)) ==>
                if !IsUsable(p.id, p.fieldsOk, url) then r.Failure? && r.error != DatabaseError
                else if r.Success? then tables.users[i] == User(p.id.value, false, clock(requests))
                else r.error == DatabaseError || IsTaken(old(tables), i, p.id.value)
    {
      var fetched;
      fetched, c := FetchRemoteObject(url, counter);
      NoStep(settings, tables);
      if fetched.Failure? || !fetched.value.Person? {
        return Success(i), c;
      }
      assert Answered(requests, url, Person(fetched.value.person));
      var actorId := UserFromApub(settings, fetched.value.person, url);
      if actorId.Failure? {
        return Failure(actorId.error), c;
      }
      var holder := Find(tables.users, UserUrl, actorId.value);
      if holder.Some? && holder.value != i {
        return Failure(UniqueViolation), c;
      }
      var failed := DatabaseFails();
      if failed {
        return Failure(DatabaseError), c;
      }
      UserStep(settings, tables, i, User(actorId.value, false, clock(requests)));
      assert tables.RowOk(i);
      tables := WithUser(tables, i, User(actorId.value, false, clock(requests)));
      return Success(i), c;
    }

    /** Another user has this network id. */
    ghost predicate IsTaken(t: Tables, i: Id, u: Url) {
      exists j :: j in t.users && j != i && t.users[j].actorId == u
    }

    method CreateUser(url: Url, counter: nat) returns (r: Result<Id, FetchError>, c: nat)
      requires tables.Valid()
      modifies this
      ensures r == Failure(DatabaseError) ==> !reliable
      ensures Progress(settings, old(At(counter)), At(c)) && c == counter + 1
      ensures tables == old(tables).(users := tables.users, nextId := tables.nextId)
      ensures if r.Failure? then tables == old(tables)
              else
                && r.value in tables.users && SameHost(url, tables.users[r.value].actorId)
                && tables.users == old(tables).users[r.value := tables.users[r.value]]
                && c <= MAX_REQUEST_NUMBER
                && PersonTold(old(requests) + 1, url, tables.users[r.value], clock(requests))
      ensures forall p :: MayFetch(counter, url) && Answered(old(requests) + 1, url, Person(p))
                          && IsUsable(p.id, p.fieldsOk, url) ==>
                r.Success? || r == Failure(DatabaseError)
    {
      var fetched;
      fetched, c := FetchRemoteObject(url, counter);
      NoStep(settings, tables);
      if fetched.Failure? {
        return Failure(fetched.error), c;
      }
      if !fetched.value.Person? {
        return Failure(CannotRead), c;
      }
      assert Answered(requests, url, Person(fetched.value.person));
      var actorId := UserFromApub(settings, fetched.value.person, url);
      if actorId.Failure? {
        return Failure(actorId.error), c;
      }
      var failed := DatabaseFails();
      if failed {
        return Failure(DatabaseError), c;
      }
      var i := UpsertUser(User(actorId.value, false, clock(requests)));
      return Success(i), c;
    }

    // ---------- communities ----------

    method UpsertCommunity(community: Community) returns (i: Id)
      requires tables.Valid() && IsValid(settings, community.actorId) && community.creator in tables.users
      modifies this`tables
      ensures tables == WithCommunity(old(tables), i, community) && Step(settings, old(tables), tables)
      ensures i == (match Find(old(tables).communities, CommunityUrl, community.actorId)
                    case Some(j) => j
                    case None => old(tables).nextId)
    {
      i := match Find(tables.communities, CommunityUrl, community.actorId) case Some(j) => j case None => tables.nextId;
      assert tables.RowOk(i);
      CommunityStep(settings, tables, i, community);
      tables := WithCommunity(tables, i, community);
    }

    method GetOrFetchCommunity(url: Url, counter: nat) returns (r: Result<Id, FetchError>, c: nat)
      requires tables.Valid()
      modifies this
      ensures r == Failure(DatabaseError) ==> !reliable
      ensures Progress(settings, old(At(counter)), At(c)) && tables.comments == old(tables).comments
      ensures r.Success? ==> r.value in tables.communities && SameHost(url, tables.communities[r.value].actorId)
      ensures match Find(old(tables).communities, CommunityUrl, url)
              case Some(i) =>
                && (!old(IsStale(tables.communities[i].local, tables.communities[i].lastRefreshedAt)) ==>
                      r in {Success(i), Failure(DatabaseError)} && tables == old(tables) && c == counter)
                && ((forall g :: !(MayFetch(counter, url) && Answered(old(requests) + 1, url, Group(g)))) ==>
                      r in {Success(i), Failure(DatabaseError)} && tables == old(tables))
              case None => r.Success? ==> counter < c && GroupTold(old(requests) + 1, url, tables, r.value)
      decreases Remaining(counter), 1
    {
      c := counter;
      NoStep(settings, tables);
      var failed := DatabaseFails();
      if failed {
        return Failure(DatabaseError), c;
      }
      var known := Find(tables.communities, CommunityUrl, url);
      if known.Some? && (tables.communities[known.value].local
                         || !ShouldRefetchActor(tables.communities[known.value].lastRefreshedAt, clock(requests))) {
        return Success(known.value), c;
      }
      r, c := FetchRemoteCommunity(url, known, c);
    }

    /** The creator is from the host of the first attributed user. */
    ghost predicate IsRowOfGroup(t: Tables, row: Community, g: GroupObject) {
      && g.id == Some(row.actorId) && !row.local
      && g.attributedTo.Some? && g.attributedTo.value != [] && g.attributedTo.value[0].Some? && row.creator in t.users
      && SameHost(g.attributedTo.value[0].value, t.users[row.creator].actorId)
    }

    method CommunityFromApub(g: GroupObject, url: Url, counter: nat) returns (r: Result<Community, FetchError>, c: nat)
      requires tables.Valid()
      modifies this
      ensures r == Failure(DatabaseError) ==> !reliable
      ensures Progress(settings, old(At(counter)), At(c))
      ensures tables == old(tables).(users := tables.users, nextId := tables.nextId)
      ensures r.Success? ==> g.attributedTo.Some? && g.attributedTo.value != [] && r.value.creator in tables.users
                             && IsValid(settings, r.value.actorId) && SameHost(url, r.value.actorId)
                             && IsRowOfGroup(tables, r.value, g) && IsUsable(g.id, g.fieldsOk, url)
                             && r.value.lastRefreshedAt == clock(requests)
      ensures r.Success? && Find(old(tables).users, UserUrl, g.attributedTo.value[0].value).Some? ==>
                Find(old(tables).users, UserUrl, g.attributedTo.value[0].value) == Some(r.value.creator)
    {
      c := counter;
      NoStep(settings, tables);
      if g.attributedTo.None? || g.attributedTo.value == [] || g.attributedTo.value[0].None? {
        return Failure(CannotRead), c;
      }
      var creator;
      creator, c := GetOrFetchUser(g.attributedTo.value[0].value, c);
      if creator.Failure? {
        return Failure(creator.error), c;
      }
      if !g.fieldsOk {
        return Failure(CannotRead), c;
      }
      var actorId := CheckObjectDomain(settings, g.id, Some(url));
      if actorId.Failure? {
        return Failure(actorId.error), c;
      }
      return Success(Community(actorId.value, creator.value, false, clock(requests))), c;
    }

    method GetOrFetchUsers(uris: seq<Option<Url>>, counter: nat) returns (r: Result<seq<Id>, FetchError>, c: nat)
      requires tables.Valid()
      modifies this
      ensures r == Failure(DatabaseError) ==> !reliable
      ensures Progress(settings, old(At(counter)), At(c))
      ensures tables == old(tables).(users := tables.users, nextId := tables.nextId)
      ensures r.Success? ==> |r.value| == |uris| && ComeFrom(tables, r.value, uris) && AreStored(tables, r.value)
    {
      c := counter;
      if None in uris {
        return Failure(CannotRead), c;
      }
      var users: seq<Id> := [];
      for n := 0 to |uris|
        invariant |users| == n && Progress(settings, old(At(counter)), At(c))
        invariant tables == old(tables).(users := tables.users, nextId := tables.nextId)
        invariant ComeFrom(tables, users, uris)
      {
        assert uris[n] in uris;
        ghost var before := At(c);
        var user;
        user, c := GetOrFetchUser(uris[n].value, c);
        Onward(settings, old(At(counter)), before, At(c));
        if user.Failure? {
          return Failure(user.error), c;
        }
        OneMoreComesFrom(settings, before.tables, tables, users, uris, user.value);
        users := users + [user.value];
      }
      assert forall k | 0 <= k < |users| :: IsFrom(tables, users[k], uris[k]);
      return Success(users), c;
    }

    /** The users join one by one; those before a failure stay. */
    method JoinModerators(community: Id, users: seq<Id>) returns (joined: nat)
      requires tables.Valid() && community in tables.communities && AreStored(tables, users)
      modifies this`tables
      ensures joined <= |users|
      ensures NoDuplicates(users[..joined]) && old(tables).moderators !! Pairs(community, users[..joined])
      ensures joined < |users| && reliable ==> (community, users[joined]) in tables.moderators
      ensures tables == old(tables).(moderators := old(tables).moderators + Pairs(community, users[..joined]))
      ensures Step(settings, old(tables), tables)
    {
      joined := 0;
      while joined < |users|
        invariant joined <= |users|
        invariant NoDuplicates(users[..joined]) && old(tables).moderators !! Pairs(community, users[..joined])
        invariant tables == old(tables).(moderators := old(tables).moderators + Pairs(community, users[..joined]))
      {
        var failed := DatabaseFails();
        if failed {
          break;
        }
        if (community, users[joined]) in tables.moderators {
          break;
        }
        OneMorePair(community, users, joined);
        OneMoreDistinct(community, users, joined);
        tables := WithModerator(tables, community, users[joined]);
        joined := joined + 1;
      }
      PairsStep(settings, old(tables), community, users, joined);
    }

    /** The community and its moderators, who join only if the community was not known. */
    method StoreGroup(group: GroupObject, url: Url, known: bool, counter: nat)
      returns (r: Result<Id, FetchError>, c: nat, ghost users: seq<Id>)
      requires tables.Valid()
      modifies this
      ensures r == Failure(DatabaseError) ==> !reliable
      ensures Progress(settings, old(At(counter)), At(c)) && tables.comments == old(tables).comments
      ensures r.Success? ==> r.value in tables.communities && SameHost(url, tables.communities[r.value].actorId)
                             && IsRowOfGroup(tables, tables.communities[r.value], group)
                             && IsUsable(group.id, group.fieldsOk, url)
      ensures r.Success? ==>
                if known then tables.moderators == old(tables).moderators
                else HaveJoined(old(tables).moderators, tables, r.value, group.attributedTo.value, users)
    {
      ghost var start := At(counter);
      var form;
      form, c := CommunityFromApub(group, url, counter);
      users := [];
      if form.Failure? {
        return Failure(form.error), c, users;
      }
      var failed := DatabaseFails();
      if failed {
        return Failure(DatabaseError), c, users;
      }
      ghost var before := At(c);
      var community := UpsertCommunity(form.value);
      Onward(settings, start, before, At(c));

      before := At(c);
      var problem;
      problem, c, users := AddModerators(community, group.attributedTo.value, known, c);
      Onward(settings, start, before, At(c));
      assert RowKept(before.tables, tables, form.value.creator);
      return if problem.Some? then Failure(problem.value) else Success(community), c, users;
    }

    /** Every attributed user is fetched, but joins only a community that was not known. */
    method AddModerators(community: Id, uris: seq<Option<Url>>, known: bool, counter: nat)
      returns (problem: Option<FetchError>, c: nat, ghost joined: seq<Id>)
      requires tables.Valid() && community in tables.communities
      modifies this
      ensures problem == Some(DatabaseError) ==> !reliable
      ensures Progress(settings, old(At(counter)), At(c))
      ensures tables == old(tables).(users := tables.users, moderators := tables.moderators, nextId := tables.nextId)
      ensures problem.None? ==>
                if known then tables.moderators == old(tables).moderators
                else HaveJoined(old(tables).moderators, tables, community, uris, joined)
    {
      joined := [];
      var users;
      users, c := GetOrFetchUsers(uris, counter);
      if users.Failure? {
        return Some(users.error), c, joined;
      }
      if known {
        return None, c, joined;
      }
      ghost var before := At(c);
      var count := JoinModerators(community, users.value);
      Onward(settings, old(At(counter)), before, At(c));
      if count < |users.value| {
        var clash := (community, users.value[count]) in tables.moderators;
        return Some(if clash then UniqueViolation else DatabaseError), c, joined;
      }
      assert users.value[..count] == users.value;
      return None, c, users.value;
    }

    method FetchRemoteCommunity(url: Url, known: Option<Id>, counter: nat) returns (r: Result<Id, FetchError>, c: nat)
      requires tables.Valid()
      requires known.Some? ==> known.value in tables.communities && tables.communities[known.value].actorId == url
      modifies this
      ensures r == Failure(DatabaseError) ==> !reliable
      ensures Progress(settings, old(At(counter)), At(c)) && tables.comments == old(tables).comments
      ensures r.Success? ==>
                r.value in tables.communities && SameHost(url, tables.communities[r.value].actorId) && counter < c
      ensures r.Success? && known.None? ==> GroupTold(old(requests) + 1, url, tables, r.value)
      ensures known.Some? && counter >= MAX_REQUEST_NUMBER ==> r.Success?
      ensures (forall g :: !(MayFetch(counter, url) && Answered(old(requests) + 1, url, Group(g)))) ==>
                (if known.Some? then r == Success(known.value) else r.Failure?) && tables == old(tables)
      ensures r.Success? && c == counter + 1 ==> known == Some(r.value) && tables == old(tables)
      decreases Remaining(counter), 0
    {
      ghost var start := At(counter);
      var fetched;
      fetched, c := FetchRemoteObject(url, counter);
      if fetched.Failure? || !fetched.value.Group? {
        return if known.Some? then Success(known.value)
          else Failure(if fetched.Failure? then fetched.error else CannotRead), c;
      }
      ghost var before := At(c);
      assert Answered(requests, url, Group(fetched.value.group));
      ghost var users;
      r, c, users := StoreGroup(fetched.value.group, url, known.Some?, c);
      Onward(settings, start, before, At(c));
      if r.Failure? {
        return;
      }
      before := At(c);
      var problem;
      problem, c := FetchOutbox(tables.communities[r.value].actorId, c);
      Onward(settings, start, before, At(c));
      assert RowKept(before.tables, tables, r.value);
      if known.None? {
        StillComeFrom(settings, before.tables, tables, users, fetched.value.group.attributedTo.value);
        assert Attributed(tables, r.value, fetched.value.group.attributedTo.value, users);
      }
      if problem.Some? {
        return Failure(problem.value), c;
      }
    }

    method FetchOutbox(actorId: Url, counter: nat) returns (problem: Option<FetchError>, c: nat)
      requires tables.Valid()
      modifies this
      ensures problem == Some(DatabaseError) ==> !reliable
      ensures Progress(settings, old(At(counter)), At(c)) && tables.comments == old(tables).comments
      ensures problem.None? ==>
                && counter < c
                && exists items ::
                     && Answered(old(requests) + 1, actorId.(path := actorId.path + "/outbox"),
                                 OrderedCollection(Some(items)))
                     && (AllKnown(old(tables), FirstTwenty(items)) && reliable
                         ==> AllStored(tables, FirstTwenty(items)))
      decreases Remaining(counter), 6
    {
      var outbox;
      outbox, c := FetchRemoteObject(OutboxUrl(actorId), counter);
      if outbox.Failure? {
        return Some(outbox.error), c;
      }
      if !outbox.value.OrderedCollection? || outbox.value.items.None? {
        return Some(CannotRead), c;
      }
      assert Answered(requests, OutboxUrl(actorId), OrderedCollection(Some(outbox.value.items.value)));
      ghost var before := At(c);
      problem, c := StoreOutbox(outbox.value.items.value, c);
      Onward(settings, old(At(counter)), before, At(c));
    }

    function FirstTwenty(items: seq<Option<PageObject>>): seq<Option<PageObject>> {
      items[..if |items| < 20 then |items| else 20]
    }

    /** The author and the community of the page are stored and local, so that nothing has to be fetched for it. */
    ghost predicate PageIsKnown(t: Tables, page: PageObject)
      requires t.Valid()
    {
      && page.attributedTo.Some? && page.to.Some?
      && (var creator := Find(t.users, UserUrl, page.attributedTo.value); creator.Some? && t.users[creator.value].local)
      && var community := Find(t.communities, CommunityUrl, page.to.value);
         community.Some? && t.communities[community.value].local
    }

    ghost predicate AllKnown(t: Tables, items: seq<Option<PageObject>>)
      requires t.Valid()
    {
      forall k :: 0 <= k < |items| && items[k].Some? ==> PageIsKnown(t, items[k].value)
    }

    /** A post with the id of the page, if that is admitted and the page can be converted. */
    ghost predicate IsStored(t: Tables, item: Option<PageObject>) {
      item.Some? && (item.value.fieldsOk && item.value.id.Some? && IsValid(settings, item.value.id.value) ==>
                       exists i :: i in t.posts && t.posts[i].apId == item.value.id.value)
    }

    ghost predicate AllStored(t: Tables, items: seq<Option<PageObject>>) {
      forall k :: 0 <= k < |items| ==> IsStored(t, items[k])
    }

    lemma StillStored(a: Tables, b: Tables, items: seq<Option<PageObject>>, n: nat)
      requires n <= |items| && AllStored(a, items[..n]) && Step(settings, a, b)
      ensures AllStored(b, items[..n])
    {
      forall k | 0 <= k < n ensures IsStored(b, items[..n][k]) {
        var item := items[..n][k];
        assert IsStored(a, item);
        if i :| item.Some? && item.value.id.Some? && i in a.posts && a.posts[i].apId == item.value.id.value {
          assert RowKept(a, b, i);
        }
      }
    }

    /**
     The first twenty posts of an outbox; one that cannot be converted is skipped, one that cannot be read is an
     error.
     */
    method StoreOutbox(items: seq<Option<PageObject>>, counter: nat) returns (problem: Option<FetchError>, c: nat)
      requires tables.Valid()
      modifies this
      ensures problem == Some(DatabaseError) ==> !reliable
      ensures Progress(settings, old(At(counter)), At(c)) && tables.comments == old(tables).comments
      ensures AllKnown(old(tables), FirstTwenty(items)) ==>
                && tables == old(tables).(posts := tables.posts, nextId := tables.nextId) && c == counter
                && (problem.None? && reliable ==> AllStored(tables, FirstTwenty(items)))
      ensures None in FirstTwenty(items) ==> problem.Some?
      decreases Remaining(counter), 5
    {
      c := counter;
      NoStep(settings, tables);
      var count := if |items| > 20 then 20 else |items|;
      ghost var first := FirstTwenty(items);
      for n := 0 to count
        invariant Progress(settings, old(At(counter)), At(c)) && tables.comments == old(tables).comments
        invariant None !in first[..n]
        invariant AllKnown(old(tables), first) ==>
                    && tables == old(tables).(posts := tables.posts, nextId := tables.nextId) && c == counter
                    && (reliable ==> AllStored(tables, first[..n]))
      {
        assert first[..n + 1] == first[..n] + [items[n]];
        if items[n].None? {
          assert first[n] == None;
          return Some(CannotRead), c;
        }
        ghost var before := At(c);
        problem, c := StorePage(items[n].value, c);
        Onward(settings, old(At(counter)), before, At(c));
        if problem.Some? {
          return;
        }
        if AllKnown(old(tables), first) && reliable {
          assert PageIsKnown(old(tables), first[n].value);
          StillStored(before.tables, tables, first, n);
        }
      }
      assert first[..count] == first;
      return None, c;
    }

    method StorePage(page: PageObject, counter: nat) returns (problem: Option<FetchError>, c: nat)
      requires tables.Valid()
      modifies this
      ensures problem == Some(DatabaseError) ==> !reliable
      ensures Progress(settings, old(At(counter)), At(c)) && tables.comments == old(tables).comments
      ensures PageIsKnown(old(tables), page) ==>
                && tables == old(tables).(posts := tables.posts, nextId := tables.nextId) && c == counter
                && (problem.None? && reliable ==> IsStored(tables, Some(page)))
      decreases Remaining(counter), 4
    {
      var form;
      form, c := PostFromApub(page, None, counter);
      if form.Failure? {
        return None, c;
      }
      var failed := DatabaseFails();
      if failed {
        return Some(DatabaseError), c;
      }
      ghost var before := At(c);
      var i := UpsertPost(form.value);
      Onward(settings, old(At(counter)), before, At(c));
      assert i in tables.posts && tables.posts[i].apId == form.value.apId;
      return None, c;
    }

    // ---------- posts ----------

    method UpsertPost(f: PostForm) returns (i: Id)
      requires tables.Valid() && IsValid(settings, f.apId) && f.creator in tables.users
              && f.community in tables.communities
      modifies this`tables
      ensures tables == WithPost(old(tables), i, Post(f.apId, f.creator, f.community, f.locked))
              && Step(settings, old(tables), tables)
      ensures i == (match Find(old(tables).posts, PostUrl, f.apId) case Some(j) => j case None => old(tables).nextId)
    {
      i := match Find(tables.posts, PostUrl, f.apId) case Some(j) => j case None => tables.nextId;
      assert tables.RowOk(i);
      PostStep(settings, tables, i, Post(f.apId, f.creator, f.community, f.locked));
      tables := WithPost(tables, i, Post(f.apId, f.creator, f.community, f.locked));
    }

    method PostFromApub(page: PageObject, expected: Option<Url>, counter: nat)
      returns (r: Result<PostForm, FetchError>, c: nat)
      requires tables.Valid()
      modifies this
      ensures r == Failure(DatabaseError) ==> !reliable
      ensures Progress(settings, old(At(counter)), At(c)) && tables.comments == old(tables).comments
      ensures r.Success? ==> IsFormOf(tables, r.value, page, expected)
      ensures r.Success? && Find(old(tables).users, UserUrl, page.attributedTo.value).Some? ==>
                Find(old(tables).users, UserUrl, page.attributedTo.value) == Some(r.value.creator)
      ensures PageIsKnown(old(tables), page) ==>
                && tables == old(tables) && c == counter
                && (r.Success? ==>
                      Find(old(tables).communities, CommunityUrl, page.to.value) == Some(r.value.community))
                && (r == Failure(DatabaseError)
                    || (r.Success? <==> page.fieldsOk && CheckObjectDomain(settings, page.id, expected).Success?))
      decreases Remaining(counter), 3
    {
      var named;
      named, c := GetOrFetchCreatorAndCommunity(page, counter);
      if named.Failure? {
        return Failure(named.error), c;
      }
      if !page.fieldsOk {
        return Failure(CannotRead), c;
      }
      var apId := CheckObjectDomain(settings, page.id, expected);
      if apId.Failure? {
        return Failure(apId.error), c;
      }
      return Success(PostForm(apId.value, named.value.0, named.value.1, !page.commentsEnabled)), c;
    }

    method GetOrFetchCreatorAndCommunity(page: PageObject, counter: nat)
      returns (r: Result<(Id, Id), FetchError>, c: nat)
      requires tables.Valid()
      modifies this
      ensures r == Failure(DatabaseError) ==> !reliable
      ensures Progress(settings, old(At(counter)), At(c)) && tables.comments == old(tables).comments
      ensures r.Success? ==>
                && page.attributedTo.Some? && r.value.0 in tables.users
                && SameHost(page.attributedTo.value, tables.users[r.value.0].actorId)
                && page.to.Some? && r.value.1 in tables.communities
                && SameHost(page.to.value, tables.communities[r.value.1].actorId)
      ensures r.Success? && Find(old(tables).users, UserUrl, page.attributedTo.value).Some? ==>
                Find(old(tables).users, UserUrl, page.attributedTo.value) == Some(r.value.0)
      ensures PageIsKnown(old(tables), page) ==>
                && tables == old(tables) && c == counter
                && if r.Failure? then r.error == DatabaseError
                   else Find(old(tables).communities, CommunityUrl, page.to.value) == Some(r.value.1)
      decreases Remaining(counter), 2
    {
      c := counter;
      NoStep(settings, tables);
      if page.attributedTo.None? {
        return Failure(CannotRead), c;
      }
      ghost var start := At(c);
      var creator;
      creator, c := GetOrFetchUser(page.attributedTo.value, c);
      if creator.Failure? {
        return Failure(creator.error), c;
      }
      if page.to.None? {
        return Failure(CannotRead), c;
      }
      ghost var before := At(c);
      var community;
      community, c := GetOrFetchCommunity(page.to.value, c);
      Onward(settings, start, before, At(c));
      assert RowKept(before.tables, tables, creator.value);
      return if community.Failure? then Failure(community.error) else Success((creator.value, community.value)), c;
    }

    /**
     The form says what the page says, and the rows it refers to are stored and come from the hosts the page names.
     */
    ghost predicate IsFormOf(t: Tables, f: PostForm, page: PageObject, expected: Option<Url>) {
      && page.id == Some(f.apId) && IsValid(settings, f.apId) && (expected.Some? ==> SameHost(expected.value, f.apId))
      && f.locked == !page.commentsEnabled
      && page.attributedTo.Some? && f.creator in t.users
         && SameHost(page.attributedTo.value, t.users[f.creator].actorId)
      && page.to.Some? && f.community in t.communities && SameHost(page.to.value, t.communities[f.community].actorId)
    }

    method GetOrFetchPost(url: Url, counter: nat) returns (r: Result<Id, FetchError>, c: nat)
      requires tables.Valid()
      modifies this
      ensures r == Failure(DatabaseError) ==> !reliable
      ensures Progress(settings, old(At(counter)), At(c)) && tables.comments == old(tables).comments
      ensures r.Success? ==> r.value in tables.posts && SameHost(url, tables.posts[r.value].apId)
      ensures match Find(old(tables).posts, PostUrl, url)
              case Some(i) =>
                (if r.Success? then r.value == i else r.error == DatabaseError) && tables == old(tables) && c == counter
              case None =>
                && (r.Success? ==> counter < c && PageTold(old(requests) + 1, url, tables, tables.posts[r.value]))
                && forall page :: MayFetch(counter, url) && Answered(old(requests) + 1, url, Page(page))
                                  && PageIsKnown(old(tables), page) && IsUsable(page.id, page.fieldsOk, url) ==>
                     r.Success? || r == Failure(DatabaseError)
      decreases Remaining(counter), 5
    {
      c := counter;
      var failed := DatabaseFails();
      if failed {
        return Failure(DatabaseError), c;
      }
      NoStep(settings, tables);
      match Find(tables.posts, PostUrl, url)
      case Some(i) => return Success(i), c;
      case None => r, c := FetchPost(url, c);
    }

    method FetchPost(url: Url, counter: nat) returns (r: Result<Id, FetchError>, c: nat)
      requires tables.Valid()
      modifies this
      ensures r == Failure(DatabaseError) ==> !reliable
      ensures Progress(settings, old(At(counter)), At(c)) && tables.comments == old(tables).comments
      ensures r.Success? ==>
                && r.value in tables.posts && SameHost(url, tables.posts[r.value].apId) && counter < c
                && PageTold(old(requests) + 1, url, tables, tables.posts[r.value])
      ensures forall page :: MayFetch(counter, url) && Answered(old(requests) + 1, url, Page(page))
                             && PageIsKnown(old(tables), page) && IsUsable(page.id, page.fieldsOk, url) ==>
                r.Success? || r == Failure(DatabaseError)
      decreases Remaining(counter), 4
    {
      var fetched;
      fetched, c := FetchRemoteObject(url, counter);
      if fetched.Failure? {
        return Failure(fetched.error), c;
      }
      if !fetched.value.Page? {
        return Failure(CannotRead), c;
      }
      ghost var before := At(c);
      assert Answered(requests, url, Page(fetched.value.page));
      r, c := StoreFetchedPage(fetched.value.page, url, c);
      Onward(settings, old(At(counter)), before, At(c));
    }

    method StoreFetchedPage(page: PageObject, url: Url, counter: nat) returns (r: Result<Id, FetchError>, c: nat)
      requires tables.Valid()
      modifies this
      ensures r == Failure(DatabaseError) ==> !reliable
      ensures Progress(settings, old(At(counter)), At(c)) && tables.comments == old(tables).comments
      ensures r.Success? ==>
                r.value in tables.posts && IsFormOf(tables, FormOfRow(tables.posts[r.value]), page, Some(url))
      ensures PageIsKnown(old(tables), page) ==>
                r == Failure(DatabaseError) || (r.Success? <==> IsUsable(page.id, page.fieldsOk, url))
      decreases Remaining(counter), 4
    {
      var form;
      form, c := PostFromApub(page, Some(url), counter);
      if form.Failure? {
        return Failure(form.error), c;
      }
      var failed := DatabaseFails();
      if failed {
        return Failure(DatabaseError), c;
      }
      ghost var before := At(c);
      var i := UpsertPost(form.value);
      Onward(settings, old(At(counter)), before, At(c));
      return Success(i), c;
    }

    // ---------- comments ----------

    method UpsertComment(f: CommentForm) returns (i: Id)
      requires tables.Valid() && IsValid(settings, f.apId) && FormOk(tables, f)
      modifies this`tables
      ensures tables == WithForm(old(tables), f) && i == RowFor(old(tables), f.apId)
      ensures Step(settings, old(tables), tables)
    {
      i := RowFor(tables, f.apId);
      assert tables.RowOk(i);
      CommentStep(settings, tables, i, RowOfForm(tables, f));
      tables := WithForm(tables, f);
    }

    ghost predicate IsCommentFormOf(t: Tables, f: CommentForm, note: NoteObject, expected: Url) {
      && note.id == Some(f.apId) && IsValid(settings, f.apId) && SameHost(expected, f.apId) && FormOk(t, f)
      && note.attributedTo.Some? && SameHost(note.attributedTo.value, t.users[f.creator].actorId)
      && note.inReplyTo.Some? && note.inReplyTo.value != [] && note.inReplyTo.value[0].Some?
      && SameHost(note.inReplyTo.value[0].value, t.posts[f.post].apId)
      && (f.parent.None? <==> |note.inReplyTo.value| == 1) && (f.parent.None? <==> note.Parent().None?)
      && (f.parent.Some? ==> SameHost(note.Parent().value, t.comments[f.parent.value].apId))
    }

    /** The row says what the note says; a note without parent leaves the parent of a known row. */
    ghost predicate IsRowOf(t: Tables, row: Comment, note: NoteObject, u: Url) {
      IsCommentFormOf(t, CommentForm(row.apId, row.creator, row.post, if note.Parent().None? then None else row.parent),
                      note, u)
    }

    /** Also tells how far the parent was from the comments that were stored. */
    method CommentFromApub(note: NoteObject, expected: Url, counter: nat)
      returns (r: Result<CommentForm, FetchError>, c: nat, ghost depth: nat)
      requires tables.Valid()
      modifies this
      ensures r == Failure(DatabaseError) ==> !reliable
      ensures Progress(settings, old(At(counter)), At(c))
      ensures r.Success? ==> IsCommentFormOf(tables, r.value, note, expected)
      ensures NamesAreKnown(old(tables), note) ==>
                && tables == old(tables) && c == counter
                && r in {FormOfNote(settings, old(tables), note, expected), Failure(DatabaseError)}
      ensures FixedNotes() && ChainsOk(old(tables).comments, parentOf) ==>
                && ChainsOk(tables.comments, parentOf) && Extends(old(tables).comments, tables.comments)
                && (r.Success? ==> if note.Parent().None? then tables.comments == old(tables).comments
                                   else ChainsGrew(old(tables).comments, tables.comments, parentOf, note.Parent().value,
                                                   Success(r.value.parent.value), depth))
      decreases Remaining(counter), 7
    {
      ghost var start := At(counter);
      depth := 0;
      var named;
      named, c := GetOrFetchCreatorAndPost(note, counter);
      if named.Failure? {
        return Failure(named.error), c, depth;
      }
      var (creator, post) := named.value;
      ghost var before;
      before := At(c);
      var parent;
      parent, c, depth := GetOrFetchParent(note, c);
      Onward(settings, start, before, At(c));
      assert RowKept(before.tables, tables, creator) && RowKept(before.tables, tables, post);
      if parent.Failure? {
        return Failure(parent.error), c, depth;
      }
      if !note.contentOk {
        return Failure(CannotRead), c, depth;
      }
      var apId := CheckObjectDomain(settings, note.id, Some(expected));
      if apId.Failure? {
        return Failure(apId.error), c, depth;
      }
      return Success(CommentForm(apId.value, creator, post, parent.value)), c, depth;
    }

    method GetOrFetchCreatorAndPost(note: NoteObject, counter: nat) returns (r: Result<(Id, Id), FetchError>, c: nat)
      requires tables.Valid()
      modifies this
      ensures r == Failure(DatabaseError) ==> !reliable
      ensures Progress(settings, old(At(counter)), At(c)) && tables.comments == old(tables).comments
      ensures r.Success? ==>
                && note.attributedTo.Some? && r.value.0 in tables.users
                && SameHost(note.attributedTo.value, tables.users[r.value.0].actorId)
                && note.inReplyTo.Some? && note.inReplyTo.value != [] && note.inReplyTo.value[0].Some?
                && r.value.1 in tables.posts && SameHost(note.inReplyTo.value[0].value, tables.posts[r.value.1].apId)
      ensures NamesAreKnown(old(tables), note) ==>
                && tables == old(tables) && c == counter
                && if r.Failure? then r.error == DatabaseError
                   else Find(tables.users, UserUrl, note.attributedTo.value) == Some(r.value.0)
                        && Find(tables.posts, PostUrl, note.inReplyTo.value[0].value) == Some(r.value.1)
      decreases Remaining(counter), 6
    {
      ghost var start := At(counter);
      c := counter;
      NoStep(settings, tables);
      if note.attributedTo.None? {
        return Failure(CannotRead), c;
      }
      var creator;
      creator, c := GetOrFetchUser(note.attributedTo.value, c);
      if creator.Failure? {
        return Failure(creator.error), c;
      }
      if note.inReplyTo.None? || note.inReplyTo.value == [] || note.inReplyTo.value[0].None? {
        return Failure(CannotRead), c;
      }
      ghost var before := At(c);
      var post;
      post, c := GetOrFetchPost(note.inReplyTo.value[0].value, c);
      Onward(settings, start, before, At(c));
      assert RowKept(before.tables, tables, creator.value);
      return if post.Failure? then Failure(post.error) else Success((creator.value, post.value)), c;
    }

    /** The comment that a note replies to, if it names a second object. */
    method GetOrFetchParent(note: NoteObject, counter: nat)
      returns (r: Result<Option<Id>, FetchError>, c: nat, ghost depth: nat)
      requires tables.Valid() && note.inReplyTo.Some? && note.inReplyTo.value != []
      modifies this
      ensures r == Failure(DatabaseError) ==> !reliable
      ensures Progress(settings, old(At(counter)), At(c))
      ensures r.Success? ==>
                (r.value.None? <==> |note.inReplyTo.value| == 1) && (r.value.None? <==> note.Parent().None?)
      ensures r.Success? && r.value.Some? ==> r.value.value in tables.comments
                                              && SameHost(note.Parent().value, tables.comments[r.value.value].apId)
      ensures |note.inReplyTo.value| == 1
              || (note.Parent().Some? && Find(old(tables).comments, CommentUrl, note.Parent().value).Some?) ==>
                && tables == old(tables) && c == counter
                && r in {Success(if note.Parent().None? then None
                                 else Find(old(tables).comments, CommentUrl, note.Parent().value)),
                         Failure(DatabaseError)}
      ensures FixedNotes() && ChainsOk(old(tables).comments, parentOf) ==>
                && ChainsOk(tables.comments, parentOf) && Extends(old(tables).comments, tables.comments)
                && (r.Success? ==> if note.Parent().None? then tables.comments == old(tables).comments
                                   else ChainsGrew(old(tables).comments, tables.comments, parentOf,
                                                   note.Parent().value, Success(r.value.value), depth))
      decreases Remaining(counter), 6
    {
      c, depth := counter, 0;
      if |note.inReplyTo.value| == 1 {
        NoStep(settings, tables);
        return Success(None), c, depth;
      }
      if note.inReplyTo.value[1].None? {
        NoStep(settings, tables);
        return Failure(CannotRead), c, depth;
      }
      var comment;
      comment, c, depth := GetOrFetchComment(note.inReplyTo.value[1].value, c);
      return if comment.Success? then Success(Some(comment.value)) else Failure(comment.error), c, depth;
    }

    method GetOrFetchComment(url: Url, counter: nat) returns (r: Result<Id, FetchError>, c: nat, ghost depth: nat)
      requires tables.Valid()
      modifies this
      ensures r == Failure(DatabaseError) ==> !reliable
      ensures Progress(settings, old(At(counter)), At(c))
      ensures r.Success? ==> r.value in tables.comments && SameHost(url, tables.comments[r.value].apId)
      ensures match Find(old(tables).comments, CommentUrl, url)
              case Some(i) =>
                (if r.Success? then r.value == i else r.error == DatabaseError) && tables == old(tables) && c == counter
              case None =>
                && (r.Success? ==> counter < c && IsOpen(tables, r.value)
                                   && NoteTold(old(requests) + 1, url, tables, tables.comments[r.value]))
                && forall note :: MayFetch(counter, url) && Answered(old(requests) + 1, url, Note(note))
                                  && NamesAreKnown(old(tables), note) ==>
                     IsStoredNote(old(tables), note, url, true, tables, r)
      ensures FixedNotes() && ChainsOk(old(tables).comments, parentOf) ==>
                ChainsGrew(old(tables).comments, tables.comments, parentOf, url, r, depth)
      decreases Remaining(counter), 5
    {
      c, depth := counter, 0;
      NoStep(settings, tables);
      var failed := DatabaseFails();
      if failed {
        return Failure(DatabaseError), c, depth;
      }
      match Find(tables.comments, CommentUrl, url)
      case Some(i) => return Success(i), c, depth;
      case None =>
        StoredIfFound(tables.comments, url);
        r, c, depth := FetchComment(url, counter);
    }

    method FetchComment(url: Url, counter: nat) returns (r: Result<Id, FetchError>, c: nat, ghost depth: nat)
      requires tables.Valid() && Find(tables.comments, CommentUrl, url).None?
      modifies this
      ensures r == Failure(DatabaseError) ==> !reliable
      ensures Progress(settings, old(At(counter)), At(c))
      ensures r.Success? ==>
                && counter < c && r.value in tables.comments && IsOpen(tables, r.value)
                && SameHost(url, tables.comments[r.value].apId)
                && NoteTold(old(requests) + 1, url, tables, tables.comments[r.value])
      ensures forall note :: MayFetch(counter, url) && Answered(old(requests) + 1, url, Note(note))
                             && NamesAreKnown(old(tables), note) ==>
                IsStoredNote(old(tables), note, url, true, tables, r)
      ensures FixedNotes() && ChainsOk(old(tables).comments, parentOf) ==>
                ChainsGrew(old(tables).comments, tables.comments, parentOf, url, r, depth)
      decreases Remaining(counter), 0
    {
      depth := 0;
      var note;
      note, c := FetchNote(url, counter);
      if note.Failure? {
        return Failure(note.error), c, depth;
      }
      ghost var before := At(c);
      ghost var mid, form;
      r, c, depth, mid, form := StoreNote(note.value, url, c);
      Onward(settings, old(At(counter)), before, At(c));
    }

    method FetchNote(url: Url, counter: nat) returns (r: Result<NoteObject, FetchError>, c: nat)
      requires tables.Valid()
      modifies this`requests, this`attempts
      ensures r == Failure(DatabaseError) ==> !reliable
      ensures c == counter + 1 && Progress(settings, old(At(counter)), At(c))
      ensures r.Success? ==> Remaining(c) < Remaining(counter) && Answered(old(requests) + 1, url, Note(r.value))
      ensures forall note ::
                r == Success(note) <==> MayFetch(counter, url) && Answered(old(requests) + 1, url, Note(note))
      ensures r.Success? && FixedNotes() ==> IsNoteOf(r.value, url)
    {
      var fetched;
      fetched, c := FetchRemoteObject(url, counter);
      if fetched.Failure? {
        return Failure(fetched.error), c;
      }
      if !fetched.value.Note? {
        return Failure(CannotRead), c;
      }
      assert Answered(requests, url, Note(fetched.value.note));
      return Success(fetched.value.note), c;
    }

    lemma StoredRowFits(a: Tables, b: Tables, f: CommentForm, note: NoteObject, u: Url)
      requires a.Valid() && IsCommentFormOf(a, f, note, u) && Step(settings, a, b) && b == WithForm(a, f)
      ensures IsRowOf(b, b.comments[RowFor(a, f.apId)], note, u)
    {
      if f.parent.Some? {
        assert RowKept(a, b, f.parent.value);
      }
    }

    /** Also tells what the note was converted to, and in which state. */
    method StoreNote(note: NoteObject, url: Url, counter: nat)
      returns (r: Result<Id, FetchError>, c: nat, ghost depth: nat, ghost mid: Tables,
               ghost form: Result<CommentForm, FetchError>)
      requires tables.Valid() && Find(tables.comments, CommentUrl, url).None?
      modifies this
      ensures r == Failure(DatabaseError) ==> !reliable
      ensures Progress(settings, old(At(counter)), At(c))
      ensures r.Success? ==>
                && r.value in tables.comments && IsOpen(tables, r.value)
                && IsRowOf(tables, tables.comments[r.value], note, url)
      ensures IsOutcome(note, url, old(tables), mid, form, true, tables, r)
      ensures FixedNotes() && IsNoteOf(note, url) && ChainsOk(old(tables).comments, parentOf) ==>
                ChainsGrew(old(tables).comments, tables.comments, parentOf, url, r, depth)
      decreases Remaining(counter), 8
    {
      ghost var start := At(counter);
      var converted;
      converted, c, depth := CommentFromApub(note, url, counter);
      mid, form := tables, converted;
      if converted.Failure? {
        return Failure(converted.error), c, depth, mid, form;
      }
      if tables.posts[converted.value.post].locked {
        return Failure(PostLocked), c, depth, mid, form;
      }
      var failed := DatabaseFails();
      if failed {
        return Failure(DatabaseError), c, depth, mid, form;
      }
      ghost var before := At(c);
      var i;
      i, depth := InsertComment(converted.value, start.tables.comments, depth);
      Onward(settings, start, before, At(c));
      StoredRowFits(mid, tables, converted.value, note, url);
      return Success(i), c, depth, mid, form;
    }

    /** With everything known, a note ends as its form does, unless the database fails. */
    ghost predicate IsStoredNote(start: Tables, note: NoteObject, u: Url, asksForLock: bool, end: Tables,
                                 r: Result<Id, FetchError>)
      requires start.Valid() && NamesAreKnown(start, note)
    {
      (end, r) == StoredAs(start, FormOfNote(settings, start, note, u), asksForLock) || r == Failure(DatabaseError)
    }

    /**
     The note was converted to `form` when the tables were `mid`, and the end is what `StoredAs` makes of that, unless
     the database fails. If everything was known, `mid` and `form` are what the note yields at once.
     */
    ghost predicate IsOutcome(note: NoteObject, u: Url, start: Tables, mid: Tables,
                              form: Result<CommentForm, FetchError>, asksForLock: bool,
                              end: Tables, r: Result<Id, FetchError>)
      requires start.Valid()
    {
      && mid.Valid() && (form.Success? ==> FormOk(mid, form.value))
      && ((end, r) == StoredAs(mid, form, asksForLock) || (end, r) == (mid, Failure(DatabaseError)))
      && (NamesAreKnown(start, note) ==>
            mid == start && form in {FormOfNote(settings, start, note, u), Failure(DatabaseError)})
    }

    /** An upsert that turns out to be an insert if the parents are what the network says. */
    method InsertComment(f: CommentForm, ghost before: map<Id, Comment>, ghost d: nat) returns (i: Id, ghost depth: nat)
      requires tables.Valid() && IsValid(settings, f.apId) && FormOk(tables, f)
      modifies this`tables
      ensures tables == WithForm(old(tables), f) && i == RowFor(old(tables), f.apId)
      ensures Step(settings, old(tables), tables)
      ensures IsFetched(before, old(tables), parentOf, d, f)
              ==> ChainsGrew(before, tables.comments, parentOf, f.apId, Success(i), depth)
    {
      i := UpsertComment(f);
      depth := d;
      if IsFetched(before, old(tables), parentOf, d, f) {
        depth := StoredFetched(before, old(tables), parentOf, d, f);
      }
    }

    method OverwriteComment(f: CommentForm) returns (i: Id)
      requires tables.Valid() && IsValid(settings, f.apId) && FormOk(tables, f)
      modifies this`tables
      ensures tables == WithForm(old(tables), f) && i == RowFor(old(tables), f.apId)
      ensures Step(settings, old(tables), tables)
      ensures ChainsOk(old(tables).comments, parentOf) && FormFits(old(tables).comments, parentOf, f.apId, f.parent) ==>
                ChainsOk(tables.comments, parentOf)
    {
      i := UpsertComment(f);
      if ChainsOk(old(tables).comments, parentOf) && FormFits(old(tables).comments, parentOf, f.apId, f.parent) {
        UpsertKeepsChains(old(tables), parentOf, i, tables.comments[i], f.parent);
      }
    }

    // ---------- entry points ----------

    /** Whatever keeps a community from being returned, the URL is then tried as a user. */
    method GetOrFetchActor(url: Url, counter: nat) returns (r: Result<Actor, FetchError>, c: nat)
      requires tables.Valid()
      modifies this
      ensures r == Failure(DatabaseError) ==> !reliable
      ensures Progress(settings, old(At(counter)), At(c)) && tables.comments == old(tables).comments
      ensures r.Success? ==> match r.value
                             case CommunityActor(i) =>
                               i in tables.communities && SameHost(url, tables.communities[i].actorId)
                             case UserActor(i) => i in tables.users && SameHost(url, tables.users[i].actorId)
      ensures var known := Find(old(tables).communities, CommunityUrl, url);
              known.Some? && reliable
              && !old(IsStale(tables.communities[known.value].local,
                              tables.communities[known.value].lastRefreshedAt)) ==>
                r == Success(CommunityActor(known.value)) && tables == old(tables)
    {
      var community;
      community, c := GetOrFetchCommunity(url, counter);
      if community.Success? {
        return Success(CommunityActor(community.value)), c;
      }
      ghost var before := At(c);
      var user;
      user, c := GetOrFetchUser(url, c);
      Onward(settings, old(At(counter)), before, At(c));
      return if user.Success? then Success(UserActor(user.value)) else Failure(user.error), c;
    }

    /** A search overwrites a known post or comment, and does not ask whether the post is locked. */
    method SearchByApubId(query: Url) returns (r: Result<Found, FetchError>, ghost c: nat)
      requires tables.Valid()
      modifies this
      ensures r == Failure(DatabaseError) ==> !reliable
      ensures Progress(settings, old(At(0)), At(c))
      ensures FixedNotes() && ChainsOk(old(tables).comments, parentOf) ==> ChainsOk(tables.comments, parentOf)
      ensures query.host.Domain? || (r.Failure? && At(c) == old(At(0)))
      ensures !(MayFetch(0, query) && IsAnswered(old(requests) + 1, query)) ==> r.Failure? && tables == old(tables)
      ensures forall body :: MayFetch(0, query) && Answered(old(requests) + 1, query, body) ==>
                EndsAs(old(tables), body, query, tables, r)
      ensures r.Success? ==>
                && IsFound(r.value, query)
                && exists body :: Answered(old(requests) + 1, query, body) && Says(body, query, r.value)
    {
      c := 0;
      if query.DomainName().None? {
        return Failure(NotAdmitted), c;
      }
      var fetched, n := FetchRemoteObject(query, 0);
      c := n;
      if fetched.Failure? {
        return Failure(fetched.error), c;
      }
      assert FixedNotes() && fetched.value.Note? ==> IsNoteOf(fetched.value.note, query);
      assert Answered(requests, query, fetched.value);
      ghost var before := At(n);
      r, n := StoreFound(fetched.value, query, n);
      c := n;
      Onward(settings, old(At(0)), before, At(c));
    }

    ghost predicate IsFound(found: Found, query: Url)
      reads this
    {
      match found
      case FoundUser(i) => i in tables.users && SameHost(query, tables.users[i].actorId)
      case FoundCommunity(i) => i in tables.communities && SameHost(query, tables.communities[i].actorId)
      case FoundPost(i) => i in tables.posts && SameHost(query, tables.posts[i].apId)
      case FoundComment(i) => i in tables.comments && SameHost(query, tables.comments[i].apId)
    }

    /** What is stored says what was answered; an actor is only looked up by the answered id. */
    ghost predicate Says(body: RemoteObject, query: Url, found: Found)
      reads this
    {
      match body
      case Person(p) => found.FoundUser? && p.id.Some?
      case Group(g) => found.FoundCommunity? && g.id.Some?
      case Page(page) =>
        found.FoundPost? && found.post in tables.posts
          && IsFormOf(tables, FormOfRow(tables.posts[found.post]), page, Some(query))
      case Note(note) =>
        found.FoundComment? && found.comment in tables.comments
          && IsRowOf(tables, tables.comments[found.comment], note, query)
      case OrderedCollection(_) => false
      case Unreadable => false
    }

    /** How a search ends if everything that the answer names is stored and local. */
    ghost predicate EndsAs(start: Tables, body: RemoteObject, query: Url, end: Tables, r: Result<Found, FetchError>)
      requires start.Valid()
    {
      match body
      case Person(p) =>
        if p.id.None? || !SameHost(p.id.value, query) then r.Failure? && end == start
        else
          var user := Find(start.users, UserUrl, p.id.value);
          user.Some? && start.users[user.value].local ==>
            r in {Success(FoundUser(user.value)), Failure(DatabaseError)} && end == start
      case Group(g) =>
        if g.id.None? || !SameHost(g.id.value, query) then r.Failure? && end == start
        else
          var community := Find(start.communities, CommunityUrl, g.id.value);
          community.Some? && start.communities[community.value].local ==>
            r in {Success(FoundCommunity(community.value)), Failure(DatabaseError)} && end == start
      case Page(page) =>
        PageIsKnown(start, page) ==>
          r == Failure(DatabaseError) || (r.Success? <==> IsUsable(page.id, page.fieldsOk, query))
      case Note(note) =>
        NamesAreKnown(start, note) ==>
          IsStoredNote(start, note, query, false, end,
                       if r.Failure? then Failure(r.error)
                       else if r.value.FoundComment? then Success(r.value.comment) else Failure(CannotRead))
      case OrderedCollection(_) => r.Failure? && end == start
      case Unreadable => r.Failure? && end == start
    }

    method StoreFound(body: RemoteObject, query: Url, counter: nat) returns (r: Result<Found, FetchError>, c: nat)
      requires tables.Valid()
      modifies this
      ensures r == Failure(DatabaseError) ==> !reliable
      ensures Progress(settings, old(At(counter)), At(c))
      ensures FixedNotes() && (body.Note? ==> IsNoteOf(body.note, query)) && ChainsOk(old(tables).comments, parentOf)
              ==> ChainsOk(tables.comments, parentOf)
      ensures r.Success? ==> IsFound(r.value, query) && Says(body, query, r.value)
      ensures EndsAs(old(tables), body, query, tables, r)
    {
      c := counter;
      NoStep(settings, tables);
      match body
      case Person(p) =>
        if p.id.None? || !SameHost(p.id.value, query) {
          return Failure(WrongDomain), c;
        }
        var user;
        user, c := GetOrFetchUser(p.id.value, c);
        return if user.Success? then Success(FoundUser(user.value)) else Failure(user.error), c;
      case Group(g) =>
        if g.id.None? || !SameHost(g.id.value, query) {
          return Failure(WrongDomain), c;
        }
        var community;
        community, c := GetOrFetchCommunity(g.id.value, c);
        return if community.Success? then Success(FoundCommunity(community.value)) else Failure(community.error), c;
      case Page(p) =>
        var post;
        post, c := StoreFetchedPage(p, query, c);
        return if post.Success? then Success(FoundPost(post.value)) else Failure(post.error), c;
      case Note(note) =>
        var comment;
        ghost var mid, form;
        comment, c, mid, form := StoreFoundNote(note, query, c);
        return if comment.Success? then Success(FoundComment(comment.value)) else Failure(comment.error), c;
      case OrderedCollection(_) => return Failure(CannotRead), c;
      case Unreadable => return Failure(CannotRead), c;
    }

    /** As `StoreNote`, but the comment may be known, and the post locked. */
    method StoreFoundNote(note: NoteObject, query: Url, counter: nat)
      returns (r: Result<Id, FetchError>, c: nat, ghost mid: Tables, ghost form: Result<CommentForm, FetchError>)
      requires tables.Valid()
      modifies this
      ensures r == Failure(DatabaseError) ==> !reliable
      ensures Progress(settings, old(At(counter)), At(c))
      ensures r.Success? ==> r.value in tables.comments && IsRowOf(tables, tables.comments[r.value], note, query)
      ensures IsOutcome(note, query, old(tables), mid, form, false, tables, r)
      ensures FixedNotes() && IsNoteOf(note, query) && ChainsOk(old(tables).comments, parentOf)
              ==> ChainsOk(tables.comments, parentOf)
    {
      var converted;
      ghost var depth;
      converted, c, depth := CommentFromApub(note, query, counter);
      mid, form := tables, converted;
      if converted.Failure? {
        return Failure(converted.error), c, mid, form;
      }
      var failed := DatabaseFails();
      if failed {
        return Failure(DatabaseError), c, mid, form;
      }
      ghost var before := At(c);
      var i := OverwriteComment(converted.value);
      Onward(settings, old(At(counter)), before, At(c));
      StoredRowFits(mid, tables, converted.value, note, query);
      return Success(i), c, mid, form;
    }
  }

  // ---------- what a caller can rely on ----------

  /** However many calls share a counter, ten requests are made in all, and thirty attempts. */
  lemma {:induction false} RequestsAreBounded(s: Settings, run: seq<Moment>)
    requires run != [] && run[0].tables.Valid()
    requires forall k | 0 < k < |run| :: Progress(s, run[k - 1], run[k])
    ensures var a, b := run[0], run[|run| - 1];
            Progress(s, a, b) && b.requests - a.requests <= Remaining(a.counter) <= 10 && b.attempts - a.attempts <= 30
    decreases |run|
  {
    var last := |run| - 1;
    if last == 0 {
      NoStep(s, run[0].tables);
    } else {
      RequestsAreBounded(s, run[..last]);
      Onward(s, run[0], run[last - 1], run[last]);
    }
  }

  /** A comment on a reply cycle of the network cannot be fetched. */
  lemma CycleCannotBeFetched(before: map<Id, Comment>, rows: map<Id, Comment>, parentOf: Replies, cycle: seq<Url>,
                             u: Url, r: Result<Id, FetchError>, d: nat)
    requires ChainsGrew(before, rows, parentOf, u, r, d) && IsReplyCycle(parentOf, cycle) && u in cycle
    ensures r.Failure?
  {
    if r.Success? {
      NetworkCycleIsNotStored(rows, parentOf, cycle, r.value);
    }
  }

  /** A locked post is all that tells the fetch of a comment from a search for it. */
  lemma LockIsTheDifference(t: Tables, form: Result<CommentForm, FetchError>)
    requires t.Valid() && (form.Success? ==> FormOk(t, form.value))
    ensures StoredAs(t, form, true) != StoredAs(t, form, false) <==> form.Success? && t.posts[form.value.post].locked
  {
  }

  /**
   For all tables and forms: an upsert closes a cycle exactly when the parent of the form leads to the row it
   writes.
   */
  lemma UpsertKeepsAcyclicIff(t: Tables, f: CommentForm)
    requires t.Valid() && Acyclic(t.comments)
    ensures Acyclic(WithForm(t, f).comments)
            <==> f.parent.None? || !LeadsTo(t.comments, f.parent.value, RowFor(t, f.apId))
  {
    var i, c := RowFor(t, f.apId), RowOfForm(t, f);
    WriteKeepsAcyclicIff(t.comments, i, c);
    if f.parent.None? && c.parent.Some? {
      forall k: nat ensures Ancestor(t.comments, c.parent.value, k) != Some(i) {
        assert NoReturn(t.comments, i, k + 1);
      }
    }
  }

  /** A post with a comment `u`, and a reply `v` to it, all by a local author. */
  function SmallTables(u: Url, v: Url, author: User, community: Community, post: Post): Tables {
    Tables(map[0 := author], map[0 := community], map[0 := post],
           map[0 := Comment(u, 0, 0, None), 1 := Comment(v, 0, 0, Some(0))], {}, 2)
  }

  /** `u` as a comment of the author on the post, replying to `parent`. */
  function NoteOn(u: Url, author: User, post: Post, parent: Url): NoteObject {
    NoteObject(Some(u), Some(author.actorId), Some([Some(post.apId), Some(parent)]), true)
  }

  ghost predicate SmallOk(u: Url, v: Url, author: User, community: Community, post: Post) {
    u != v && author.local && community.creator == 0 && post.creator == 0 && post.community == 0
  }

  lemma SmallNames(s: Settings, u: Url, v: Url, author: User, community: Community, post: Post, w: Url, parent: Url)
    requires SmallOk(u, v, author, community, post) && IsValid(s, w) && parent in {u, v}
    ensures var t, note := SmallTables(u, v, author, community, post), NoteOn(w, author, post, parent);
            && t.Valid() && Acyclic(t.comments) && NamesAreKnown(t, note)
            && FormOfNote(s, t, note, w) == Success(CommentForm(w, 0, 0, Some(if parent == u then 0 else 1)))
            && RowFor(t, u) == 0
  {
    var t := SmallTables(u, v, author, community, post);
    ChainsAreAcyclic(t.comments, (x: Url) => if x == v then Some(u) else None);
    FindFinds(t.users, UserUrl, author.actorId, 0);
    FindFinds(t.posts, PostUrl, post.apId, 0);
    FindFinds(t.comments, CommentUrl, u, 0);
    FindFinds(t.comments, CommentUrl, v, 1);
  }

  /**
   The fixed answers are needed: if `u` was stored without a parent and `v` as a reply to it, and `u` is then answered
   as a reply to `v`, a search for `u` stores the cycle (`StoreFoundNote` does just this unless the database fails).
   */
  lemma ChangedAnswerClosesACycle(s: Settings, u: Url, v: Url, author: User, community: Community, post: Post)
    requires SmallOk(u, v, author, community, post) && IsValid(s, u)
    ensures var t, note := SmallTables(u, v, author, community, post), NoteOn(u, author, post, v);
            && t.Valid() && Acyclic(t.comments) && NamesAreKnown(t, note)
            && var form := FormOfNote(s, t, note, u);
               form.Success? && FormOk(t, form.value) && !Acyclic(StoredAs(t, form, false).0.comments)
  {
    SmallNames(s, u, v, author, community, post, u, v);
    var t := SmallTables(u, v, author, community, post);
    assert Ancestor(t.comments, 1, 1) == Ancestor(t.comments, 0, 0);
    assert LeadsTo(t.comments, 1, 0);
    UpsertKeepsAcyclicIff(t, CommentForm(u, 0, 0, Some(1)));
  }

  /** A search stores a new comment under a locked post, which a fetch refuses. */
  lemma SearchStoresUnderALockedPost(s: Settings, u: Url, v: Url, w: Url, author: User, community: Community,
                                     post: Post)
    requires SmallOk(u, v, author, community, post) && IsValid(s, w) && w !in {u, v} && post.locked
    ensures var t, note := SmallTables(u, v, author, community, post), NoteOn(w, author, post, v);
            && t.Valid() && NamesAreKnown(t, note)
            && var form := FormOfNote(s, t, note, w);
               && form.Success? && FormOk(t, form.value)
               && StoredAs(t, form, true) == (t, Failure(PostLocked))
               && StoredAs(t, form, false).1 == Success(2)
               && StoredAs(t, form, false).0.comments == t.comments[2 := Comment(w, 0, 0, Some(1))]
  {
    SmallNames(s, u, v, author, community, post, w, v);
  }
}

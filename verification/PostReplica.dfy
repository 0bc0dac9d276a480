/**
 A post on another instance: how it is written as a Page, read back, and stored
 (lemmy_apub/src/objects/post.rs, lemmy_db/src/post.rs, lemmy_apub/src/activities/receive).

 The embed and thumbnail columns come from outside services and are not part of this model.
 */
module PostReplica {
  import opened Wrappers

  datatype Post = Post(name: string, url: Option<string>, body: Option<string>, creator: string, community: string,
                       removed: bool, locked: bool, published: int, updated: Option<int>, deleted: bool, nsfw: bool,
                       stickied: bool)

  /** A column that is None is left alone by an update and gets its default in an insert. */
  datatype PostForm = PostForm(name: string, url: Option<string>, body: Option<string>, creator: string,
                               community: string, removed: Option<bool>, locked: Option<bool>,
                               published: Option<int>, updated: Option<int>, deleted: Option<bool>,
                               nsfw: bool, stickied: Option<bool>)

  /** A time stamp on the wire: an instant and the offset of the clock that wrote it. */
  datatype Stamp = Stamp(utc: int, offset: int) {
    function NaiveLocal(): int {
      utc + offset
    }
  }

  datatype Page = Page(summary: Option<string>, attributedTo: string, to: string, published: Option<Stamp>,
                       updated: Option<Stamp>, url: Option<string>, source: Option<string>, commentsEnabled: bool,
                       sensitive: bool, stickied: bool)

  /** The slur filter, and the text of a URL after parsing (None if it does not parse). */
  datatype Text = Text(hasSlur: string -> bool, removeSlurs: string -> string, parseUrl: string -> Option<string>)

  /** Removing slurs leaves text without any alone. */
  ghost predicate TextOk(t: Text) {
    forall s :: !t.hasSlur(s) ==> t.removeSlurs(s) == s
  }

  datatype ApubError = BadUrl | MissingName | Slurs

  /** `offset` is the sending server's offset from UTC. */
  function ToApub(p: Post, offset: int, t: Text): Result<Page, ApubError> {
    var url := if p.url.Some? && p.url.value != "" then Some(t.parseUrl(p.url.value)) else None;
    if url == Some(None) then Failure(BadUrl)
    else
      Success(Page(Some(p.name), p.creator, p.community, Some(Stamp(p.published, offset)),
                   if p.updated.Some? then Some(Stamp(p.updated.value, offset)) else None,
                   if url.Some? then url.value else None, p.body, !p.locked, p.nsfw, p.stickied))
  }

  function Naive(s: Option<Stamp>): Option<int> {
    if s.Some? then Some(s.value.NaiveLocal()) else None
  }

  function FromApub(page: Page, t: Text): Result<PostForm, ApubError> {
    if page.summary.None? then Failure(MissingName)
    else if t.hasSlur(page.summary.value) then Failure(Slurs)
    else
      Success(PostForm(page.summary.value, page.url,
                       if page.source.Some? then Some(t.removeSlurs(page.source.value)) else None,
                       page.attributedTo, page.to, None, Some(!page.commentsEnabled), Naive(page.published),
                       Naive(page.updated),
                       None, page.sensitive, Some(page.stickied)))
  }

  function Or<T>(new_: Option<T>, current: T): T {
    if new_.Some? then new_.value else current
  }

  function Updated(p: Post, f: PostForm): Post {
    Post(f.name, if f.url.Some? then f.url else p.url, if f.body.Some? then f.body else p.body, f.creator, f.community,
         Or(f.removed, p.removed), Or(f.locked, p.locked), Or(f.published, p.published),
         if f.updated.Some? then f.updated else p.updated, Or(f.deleted, p.deleted), f.nsfw, Or(f.stickied, p.stickied))
  }

  function Inserted(f: PostForm, now: int): Post {
    Post(f.name, f.url, f.body, f.creator, f.community, Or(f.removed, false), Or(f.locked, false), Or(f.published, now),
         f.updated, Or(f.deleted, false), f.nsfw, Or(f.stickied, false))
  }

  function Upserted(row: Option<Post>, f: PostForm, now: int): Post {
    if row.Some? then Updated(row.value, f) else Inserted(f, now)
  }

  /** The activities about one post. `fetched` is what an Update would get when the post is unknown. */
  datatype Activity =
    | Create(page: Page)
    | Update(page: Page, fetched: Option<Page>)
    | Delete
    | UndoDelete
    | Remove
    | UndoRemove

  function Receive(row: Option<Post>, a: Activity, now: int, t: Text): Option<Post> {
    match a
    case Create(page) =>
      var form := FromApub(page, t);
      if form.Failure? then row else Some(Upserted(row, form.value, now))
    case Update(page, fetched) =>
      var form := FromApub(page, t);
      if form.Failure? then row
      else if row.Some? then Some(Updated(row.value, form.value))
      else if fetched.None? || FromApub(fetched.value, t).Failure? then row
      else Some(Updated(Inserted(FromApub(fetched.value, t).value, now), form.value))
    case Delete => if row.None? then row else Some(row.value.(deleted := true, updated := Some(now)))
    case UndoDelete => if row.None? then row else Some(row.value.(deleted := false, updated := Some(now)))
    case Remove => if row.None? then row else Some(row.value.(removed := true, updated := Some(now)))
    case UndoRemove => if row.None? then row else Some(row.value.(removed := false, updated := Some(now)))
  }

  /** The page has a name, and no slur in it. */
  predicate IsReadable(page: Page, t: Text) {
    page.summary.Some? && !t.hasSlur(page.summary.value)
  }

  /**
   The post says what the page says. What the page leaves out is as it was, and in a new post it is missing, or the
   time of the insert; neither flag of moderation is touched, and a new post has none.
   */
  ghost predicate Shows(p: Post, before: Option<Post>, page: Page, now: int, t: Text) {
    && page.summary == Some(p.name) && p.creator == page.attributedTo && p.community == page.to
    && p.locked == !page.commentsEnabled && p.nsfw == page.sensitive && p.stickied == page.stickied
    && p.url == (if page.url.Some? then page.url else if before.Some? then before.value.url else None)
    && p.body == (if page.source.Some? then Some(t.removeSlurs(page.source.value))
                  else if before.Some? then before.value.body else None)
    && p.published == (if page.published.Some? then page.published.value.utc + page.published.value.offset
                       else if before.Some? then before.value.published else now)
    && p.updated == (if page.updated.Some? then Some(page.updated.value.utc + page.updated.value.offset)
                     else if before.Some? then before.value.updated else None)
    && p.removed == (before.Some? && before.value.removed) && p.deleted == (before.Some? && before.value.deleted)
  }

  lemma UpsertShows(row: Option<Post>, page: Page, now: int, t: Text)
    ensures FromApub(page, t).Success? <==> IsReadable(page, t)
    ensures FromApub(page, t).Success? ==> Shows(Upserted(row, FromApub(page, t).value, now), row, page, now, t)
  {
  }

  /** The row of one post, found by its id on the network. */
  class PostRow {
    const text: Text
    var row: Option<Post>

    constructor (text: Text)
      ensures this.text == text && row == None
    {
      this.text, row := text, None;
    }

    method Upsert(form: PostForm, now: int)
      modifies this
      ensures row == Some(Upserted(old(row), form, now))
    {
      match row {
        case None => row := Some(Inserted(form, now));
        case Some(p) => row := Some(Updated(p, form));
      }
    }

    method ReceiveCreate(page: Page, now: int) returns (ok: bool)
      modifies this
      ensures row == Receive(old(row), Create(page), now, text)
      ensures ok == IsReadable(page, text)
      ensures if ok then row.Some? && Shows(row.value, old(row), page, now, text) else row == old(row)
    {
      UpsertShows(row, page, now, text);
      var form := FromApub(page, text);
      if form.Failure? {
        return false;
      }
      Upsert(form.value, now);
      ok := true;
    }

    method ReceiveUpdate(page: Page, fetched: Option<Page>, now: int) returns (ok: bool)
      modifies this
      ensures row == Receive(old(row), Update(page, fetched), now, text)
      ensures ok <==> IsReadable(page, text)
                      && (old(row).Some? || (fetched.Some? && IsReadable(fetched.value, text)))
      ensures !ok ==> row == old(row)
      ensures ok && old(row).Some? ==> row.Some? && Shows(row.value, old(row), page, now, text)
      ensures ok && old(row).None? ==>
                row.Some?
                && exists p :: Shows(p, None, fetched.value, now, text) && Shows(row.value, Some(p), page, now, text)
    {
      UpsertShows(row, page, now, text);
      var form := FromApub(page, text);
      if form.Failure? {
        return false;
      }
      if row.None? {
        if fetched.None? {
          return false;
        }
        UpsertShows(None, fetched.value, now, text);
        var original := FromApub(fetched.value, text);
        if original.Failure? {
          return false;
        }
        Upsert(original.value, now);
        UpsertShows(row, page, now, text);
      }
      row := Some(Updated(row.value, form.value));
      ok := true;
    }

    method UpdateDeleted(deleted: bool, now: int)
      modifies this
      ensures row == Receive(old(row), if deleted then Delete else UndoDelete, now, text)
      ensures if old(row).None? then row == None
              else row == Some(old(row).value.(deleted := deleted, updated := Some(now)))
    {
      if row.Some? {
        row := Some(row.value.(deleted := deleted, updated := Some(now)));
      }
    }

    method UpdateRemoved(removed: bool, now: int)
      modifies this
      ensures row == Receive(old(row), if removed then Remove else UndoRemove, now, text)
      ensures if old(row).None? then row == None
              else row == Some(old(row).value.(removed := removed, updated := Some(now)))
    {
      if row.Some? {
        row := Some(row.value.(removed := removed, updated := Some(now)));
      }
    }
  }

  // ---------- properties ----------

  /** A page cannot be written exactly when the post has a url that does not parse. */
  lemma ToApubFailsIff(p: Post, offset: int, t: Text)
    ensures ToApub(p, offset, t).Failure? <==> p.url.Some? && p.url.value != "" && t.parseUrl(p.url.value).None?
  {
  }

  /**
   A Create makes a visible replica, which agrees with the sender if the clock is on UTC and the url in parsed
   form.
   */
  lemma CreateAgreesIff(sender: Post, offset: int, t: Text, now: int)
    requires TextOk(t) && ToApub(sender, offset, t).Success?
    requires !t.hasSlur(sender.name) && (sender.body.Some? ==> !t.hasSlur(sender.body.value))
    ensures var page := ToApub(sender, offset, t).value;
            var after := Receive(None, Create(page), now, t);
            && after.Some? && !after.value.removed && !after.value.deleted
            && (Agree(after.value, sender) <==>
                  offset == 0
                  && (sender.url.Some? ==> sender.url.value != "" && t.parseUrl(sender.url.value) == sender.url))
  {
    if sender.body.Some? {
      assert t.removeSlurs(sender.body.value) == sender.body.value;
    }
  }

  datatype Event = Event(activity: Activity, now: int)

  function Run(row: Option<Post>, es: seq<Event>, t: Text): Option<Post>
    decreases es
  {
    if es == [] then row else Run(Receive(row, es[0].activity, es[0].now, t), es[1..], t)
  }

  /** The last Delete or its Undo in the run, and the last Remove or its Undo. */
  function LastDeleted(es: seq<Event>, start: bool): bool {
    if es == [] then start
    else if es[0].activity.Delete? then LastDeleted(es[1..], true)
    else if es[0].activity.UndoDelete? then LastDeleted(es[1..], false)
    else LastDeleted(es[1..], start)
  }

  function LastRemoved(es: seq<Event>, start: bool): bool {
    if es == [] then start
    else if es[0].activity.Remove? then LastRemoved(es[1..], true)
    else if es[0].activity.UndoRemove? then LastRemoved(es[1..], false)
    else LastRemoved(es[1..], start)
  }

  lemma OneActivity(p: Post, a: Activity, now: int, t: Text)
    ensures var next := Receive(Some(p), a, now, t);
            && next.Some?
            && next.value.deleted == (if a.Delete? then true else if a.UndoDelete? then false else p.deleted)
            && next.value.removed == (if a.Remove? then true else if a.UndoRemove? then false else p.removed)
  {
  }

  /** No stream of Creates and Updates brings a deleted or removed post back, or takes a visible one away. */
  lemma {:induction false} ModerationSticks(p: Post, es: seq<Event>, t: Text)
    ensures var end := Run(Some(p), es, t);
            end.Some? && end.value.deleted == LastDeleted(es, p.deleted)
              && end.value.removed == LastRemoved(es, p.removed)
    decreases es
  {
    if es != [] {
      var next := Receive(Some(p), es[0].activity, es[0].now, t);
      OneActivity(p, es[0].activity, es[0].now, t);
      ModerationSticks(next.value, es[1..], t);
    }
  }

  /** Receiving the same Update again changes nothing, also when the first one had to fetch the post. */
  lemma UpdateIsIdempotent(row: Option<Post>, page: Page, fetched: Option<Page>, now: int, later: int, t: Text)
    ensures var once := Receive(row, Update(page, fetched), now, t);
            once.Some? ==> Receive(once, Update(page, fetched), later, t) == once
  {
  }

  /** What a reader sees of a post. */
  predicate Agree(a: Post, b: Post) {
    && a.name == b.name && a.nsfw == b.nsfw && a.locked == b.locked && a.stickied == b.stickied
    && a.creator == b.creator && a.community == b.community
    && a.published == b.published && a.body == b.body && a.url == b.url
  }

  /**
   An Update brings a replica into agreement with the sender exactly when the sender's clock is on UTC
   (the stamp is read back as local time), and body and url either can be told (they are there, the url
   is in its parsed form) or are the same already.
   */
  lemma UpdateAgreesIff(sender: Post, replica: Post, offset: int, t: Text, now: int)
    requires TextOk(t) && ToApub(sender, offset, t).Success?
    requires !t.hasSlur(sender.name) && (sender.body.Some? ==> !t.hasSlur(sender.body.value))
    ensures var page := ToApub(sender, offset, t).value;
            var after := Receive(Some(replica), Update(page, None), now, t).value;
            && after == after.(removed := replica.removed, deleted := replica.deleted)
            && after.(published := sender.published, url := sender.url, body := sender.body, removed := sender.removed,
                      deleted := sender.deleted, updated := sender.updated) == sender
            && after.published == sender.published + offset
            && (Agree(after, sender) <==>
                && offset == 0
                && (sender.body.Some? || replica.body.None?)
                && if sender.url.Some? && sender.url.value != "" then t.parseUrl(sender.url.value) == sender.url
                   else sender.url == replica.url)
  {
    var page := ToApub(sender, offset, t).value;
    var after := Receive(Some(replica), Update(page, None), now, t).value;
    assert FromApub(page, t).Success?;
    if sender.body.Some? {
      assert t.removeSlurs(sender.body.value) == sender.body.value;
    }
  }
}

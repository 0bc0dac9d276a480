/** Parents of comments: as stored, and as the network tells them. */
module ReplyChains {
  import opened Wrappers
  import opened Apub
  import opened Database

  /** The parent of every comment on the network, if it has one. */
  type Replies = Url -> Option<Url>

  ghost predicate ParentIs(rows: map<Id, Comment>, parentOf: Replies, i: Id) {
    i in rows ==>
      match rows[i].parent
      case None => parentOf(rows[i].apId).None?
      case Some(p) => p in rows && p < i && parentOf(rows[i].apId) == Some(rows[p].apId)
  }

  /** Every stored comment has the parent it has on the network, and that parent was stored before it. */
  ghost predicate ChainsOk(rows: map<Id, Comment>, parentOf: Replies) {
    forall i :: ParentIs(rows, parentOf, i)
  }

  /** The k-th parent, as far as there is one. */
  ghost function Ancestor(rows: map<Id, Comment>, i: Id, k: nat): Option<Id>
    decreases k
  {
    if k == 0 then Some(i)
    else if i in rows && rows[i].parent.Some? then Ancestor(rows, rows[i].parent.value, k - 1)
    else None
  }

  /** Following the stored parents never comes back. */
  lemma {:induction false} NoStoredCycle(rows: map<Id, Comment>, parentOf: Replies, i: Id, k: nat)
    requires ChainsOk(rows, parentOf) && k > 0
    ensures Ancestor(rows, i, k).Some? ==> Ancestor(rows, i, k).value < i
    decreases k
  {
    if i in rows && rows[i].parent.Some? {
      assert ParentIs(rows, parentOf, i);
      if k > 1 {
        NoStoredCycle(rows, parentOf, rows[i].parent.value, k - 1);
      }
    }
  }

  /** `cycle[i]` replies to `cycle[i + 1]`, and the last one to the first. */
  ghost predicate IsReplyCycle(parentOf: Replies, cycle: seq<Url>) {
    forall i :: 0 <= i < |cycle| ==> parentOf(cycle[i]) == Some(cycle[(i + 1) % |cycle|])
  }

  /** No comment of a reply cycle on the network is ever stored. */
  lemma {:induction false} NetworkCycleIsNotStored(rows: map<Id, Comment>, parentOf: Replies, cycle: seq<Url>, i: Id)
    requires ChainsOk(rows, parentOf) && IsReplyCycle(parentOf, cycle) && i in rows
    ensures rows[i].apId !in cycle
    decreases i
  {
    if k: nat :| k < |cycle| && cycle[k] == rows[i].apId {
      assert ParentIs(rows, parentOf, i);
      assert cycle[(k + 1) % |cycle|] in cycle;
      NetworkCycleIsNotStored(rows, parentOf, cycle, rows[i].parent.value);
    }
  }

  /** From no comment do its stored parents lead back to it. */
  ghost predicate Acyclic(rows: map<Id, Comment>) {
    forall i: Id, k: nat :: NoReturn(rows, i, k)
  }

  ghost predicate NoReturn(rows: map<Id, Comment>, i: Id, k: nat) {
    k > 0 ==> Ancestor(rows, i, k) != Some(i)
  }

  lemma ChainsAreAcyclic(rows: map<Id, Comment>, parentOf: Replies)
    requires ChainsOk(rows, parentOf)
    ensures Acyclic(rows)
  {
    forall i: Id, k: nat ensures NoReturn(rows, i, k) {
      if k > 0 {
        NoStoredCycle(rows, parentOf, i, k);
      }
    }
  }

  // ---------- which writes close a cycle ----------

  /** `target` is not among the first `k` comments of the chain. */
  ghost predicate Misses(rows: map<Id, Comment>, i: Id, k: nat, target: Id) {
    forall m: nat :: m < k ==> Ancestor(rows, i, m) != Some(target)
  }

  lemma {:induction false} AncestorOfAncestor(rows: map<Id, Comment>, i: Id, m: nat, n: nat)
    requires Ancestor(rows, i, m).Some?
    ensures Ancestor(rows, i, m + n) == Ancestor(rows, Ancestor(rows, i, m).value, n)
    decreases m
  {
    if m > 0 {
      AncestorOfAncestor(rows, rows[i].parent.value, m - 1, n);
    }
  }

  /** A chain is the same in tables that differ in one comment, until it gets there. */
  lemma {:induction false} SameChain(a: map<Id, Comment>, b: map<Id, Comment>, i: Id, k: nat, target: Id)
    requires Misses(a, i, k, target) && a - {target} == b - {target}
    ensures Ancestor(b, i, k) == Ancestor(a, i, k) && Misses(b, i, k, target)
    decreases k
  {
    if k > 0 {
      assert Ancestor(a, i, 0) == Some(i);
      assert i in a - {target} <==> i in b - {target};
      assert i in a ==> (a - {target})[i] == (b - {target})[i];
      if i in a && a[i].parent.Some? {
        var p := a[i].parent.value;
        forall m: nat | m < k - 1 ensures Ancestor(a, p, m) != Some(target) {
          assert Ancestor(a, i, m + 1) == Ancestor(a, p, m);
        }
        SameChain(a, b, p, k - 1, target);
        forall m: nat | m < k ensures Ancestor(b, i, m) != Some(target) {
          if m > 0 {
            assert Ancestor(b, i, m) == Ancestor(b, p, m - 1);
          }
        }
      }
    }
  }

  lemma {:induction false} FirstHit(rows: map<Id, Comment>, i: Id, k: nat, target: Id) returns (n: nat)
    requires Ancestor(rows, i, k) == Some(target)
    ensures n <= k && Ancestor(rows, i, n) == Some(target) && Misses(rows, i, n, target)
    decreases k
  {
    if m: nat :| m < k && Ancestor(rows, i, m) == Some(target) {
      n := FirstHit(rows, i, m, target);
    } else {
      n := k;
    }
  }

  /** Following the chain of `p` leads to `i`. */
  ghost predicate LeadsTo(rows: map<Id, Comment>, p: Id, i: Id) {
    exists k: nat :: Ancestor(rows, p, k) == Some(i)
  }

  /** Leading to a comment does not depend on what that comment says. */
  lemma SameLead(a: map<Id, Comment>, b: map<Id, Comment>, p: Id, i: Id)
    requires a - {i} == b - {i} && LeadsTo(a, p, i)
    ensures LeadsTo(b, p, i)
  {
    var k: nat :| Ancestor(a, p, k) == Some(i);
    var n := FirstHit(a, p, k, i);
    SameChain(a, b, p, n, i);
  }

  /** A cycle that goes through `i` is one around `i`. */
  lemma CycleThrough(rows: map<Id, Comment>, j: Id, k: nat, m: nat, i: Id)
    requires Ancestor(rows, j, k) == Some(j) && m < k && Ancestor(rows, j, m) == Some(i)
    ensures i in rows && rows[i].parent.Some? && LeadsTo(rows, rows[i].parent.value, i)
  {
    AncestorOfAncestor(rows, j, m, k - m);
    AncestorOfAncestor(rows, i, k - m, m);
    assert Ancestor(rows, i, k) == Some(i);
    assert Ancestor(rows, rows[i].parent.value, k - 1) == Some(i);
  }

  /**
   Writing one comment, new or known, keeps the stored parents acyclic exactly when the chain of its new parent does
   not lead to it.
   */
  lemma WriteKeepsAcyclicIff(rows: map<Id, Comment>, i: Id, c: Comment)
    requires Acyclic(rows)
    ensures Acyclic(rows[i := c]) <==> c.parent.None? || !LeadsTo(rows, c.parent.value, i)
  {
    var after := rows[i := c];
    assert rows - {i} == after - {i};
    if c.parent.Some? && LeadsTo(rows, c.parent.value, i) {
      SameLead(rows, after, c.parent.value, i);
      var k: nat :| Ancestor(after, c.parent.value, k) == Some(i);
      assert Ancestor(after, i, k + 1) == Some(i);
      assert !NoReturn(after, i, k + 1);
    } else {
      forall j: Id, k: nat ensures NoReturn(after, j, k) {
        assert NoReturn(rows, j, k);
        if k > 0 && Ancestor(after, j, k) == Some(j) {
          if m: nat :| m < k && Ancestor(after, j, m) == Some(i) {
            CycleThrough(after, j, k, m, i);
            SameLead(after, rows, c.parent.value, i);
          } else {
            SameChain(after, rows, j, k, i);
          }
          assert false;
        }
      }
    }
  }

  // ---------- storing a comment ----------

  /** The parent that an upsert leaves: a form without one does not overwrite it. */
  function ParentAfter(rows: map<Id, Comment>, i: Id, parent: Option<Id>): Option<Id> {
    if parent.None? && i in rows then rows[i].parent else parent
  }

  ghost predicate FormFits(rows: map<Id, Comment>, parentOf: Replies, u: Url, parent: Option<Id>) {
    match parent
    case None => parentOf(u).None?
    case Some(p) => p in rows && parentOf(u) == Some(rows[p].apId)
  }

  /** Storing a comment with its true parent, new or known, keeps the chains; a known comment keeps its parent. */
  lemma UpsertKeepsChains(t: Tables, parentOf: Replies, i: Id, c: Comment, parent: Option<Id>)
    requires t.Valid() && ChainsOk(t.comments, parentOf) && FormFits(t.comments, parentOf, c.apId, parent)
    requires i == (match Find(t.comments, CommentUrl, c.apId) case Some(j) => j case None => t.nextId)
    requires c.parent == ParentAfter(t.comments, i, parent)
    ensures ChainsOk(t.comments[i := c], parentOf)
    ensures i in t.comments ==> c.parent == t.comments[i].parent
  {
    var rows, after := t.comments, t.comments[i := c];
    assert t.RowOk(i) && ParentIs(rows, parentOf, i);
    if parent.Some? {
      assert t.RowOk(parent.value);
      if i in rows && rows[i].parent.Some? {
        assert OneRow(rows, CommentUrl, parent.value, rows[i].parent.value);
      }
    }
    forall j ensures ParentIs(after, parentOf, j) {
      assert j != i ==> ParentIs(rows, parentOf, j);
    }
  }

  ghost predicate SameRow(a: map<Id, Comment>, b: map<Id, Comment>, i: Id) {
    i in a ==> i in b && b[i] == a[i]
  }

  ghost predicate Extends(a: map<Id, Comment>, b: map<Id, Comment>) {
    forall i :: SameRow(a, b, i)
  }

  ghost function Stored(rows: map<Id, Comment>): set<Url> {
    set i | i in rows :: rows[i].apId
  }

  lemma StoredIfFound(rows: map<Id, Comment>, u: Url)
    requires UniqueBy(rows, CommentUrl)
    ensures u in Stored(rows) <==> Find(rows, CommentUrl, u).Some?
  {
    if i :| i in rows && rows[i].apId == u {
      FindFinds(rows, CommentUrl, u, i);
    }
  }

  /** The reply chain of `u` ends, or reaches a known comment, within `d` steps. */
  ghost predicate Rooted(known: set<Url>, parentOf: Replies, u: Url, d: nat)
    decreases d
  {
    u in known || parentOf(u).None? || (d > 0 && Rooted(known, parentOf, parentOf(u).value, d - 1))
  }

  /** `d` is the length of that chain. */
  ghost predicate Depth(known: set<Url>, parentOf: Replies, u: Url, d: nat) {
    Rooted(known, parentOf, u, d) && (d > 0 ==> !Rooted(known, parentOf, u, d - 1))
  }

  /** Every comment in `rows` was known or has a chain of at most `d` steps. */
  ghost predicate AllRooted(rows: map<Id, Comment>, known: set<Url>, parentOf: Replies, d: nat) {
    forall i :: RootedRow(rows, known, parentOf, i, d)
  }

  ghost predicate RootedRow(rows: map<Id, Comment>, known: set<Url>, parentOf: Replies, i: Id, d: nat) {
    i in rows ==> Rooted(known, parentOf, rows[i].apId, d)
  }

  /** Reaching `u` took `d` steps, and nothing further out was stored on the way. */
  ghost predicate Reached(before: map<Id, Comment>, rows: map<Id, Comment>, parentOf: Replies, u: Url, d: nat) {
    Depth(Stored(before), parentOf, u, d) && AllRooted(rows, Stored(before), parentOf, d)
  }

  lemma {:induction false} RootedFurther(known: set<Url>, parentOf: Replies, u: Url, d: nat)
    requires Rooted(known, parentOf, u, d)
    ensures Rooted(known, parentOf, u, d + 1)
    decreases d
  {
    if u !in known && parentOf(u).Some? {
      RootedFurther(known, parentOf, parentOf(u).value, d - 1);
    }
  }

  /** A comment that was not known is one step further out than its parent, so reaching the parent has not stored it. */
  lemma ReplyIsDeeper(before: map<Id, Comment>, rows: map<Id, Comment>, parentOf: Replies, u: Url, d: nat, i: Id,
                      c: Comment)
    requires u !in Stored(before) && parentOf(u).Some? && Reached(before, rows, parentOf, parentOf(u).value, d)
    ensures u !in Stored(rows)
    ensures c.apId == u ==> Reached(before, rows[i := c], parentOf, u, d + 1)
  {
    forall j | j in rows ensures rows[j].apId != u {
      assert RootedRow(rows, Stored(before), parentOf, j, d);
    }
    var after, further := rows[i := c], d + 1;
    if c.apId == u {
      forall j ensures RootedRow(after, Stored(before), parentOf, j, further) {
        assert RootedRow(rows, Stored(before), parentOf, j, d);
        if j in rows {
          RootedFurther(Stored(before), parentOf, rows[j].apId, d);
        }
      }
    }
  }
}

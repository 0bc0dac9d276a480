/**
 The captcha store of the chat server (lemmy_websocket/src/handlers.rs).
 */
module Captcha {
  import opened Sequences

  datatype CaptchaItem = CaptchaItem(uuid: string, answer: string, expires: int)

  function Unexpired(items: seq<CaptchaItem>, now: int): (kept: seq<CaptchaItem>)
    ensures forall x :: x in kept <==> x in items && x.expires > now
  {
    Filter(items, (x: CaptchaItem) => x.expires > now)
  }

  function Unnamed(items: seq<CaptchaItem>, uuid: string): (kept: seq<CaptchaItem>)
    ensures forall x :: x in kept <==> x in items && x.uuid != uuid
  {
    Filter(items, (x: CaptchaItem) => x.uuid != uuid)
  }

  datatype Checked = Checked(captchas: seq<CaptchaItem>, passed: bool)

  function Check(captchas: seq<CaptchaItem>, uuid: string, answer: string, now: int): Checked {
    var unexpired := Unexpired(captchas, now);
    Checked(Unnamed(unexpired, uuid),
            AnyMatches(unexpired, uuid, answer))
  }

  predicate AnyMatches(items: seq<CaptchaItem>, uuid: string, answer: string) {
    exists r :: r in items && r.uuid == uuid && r.answer == answer
  }

  lemma OneMoreMatches(items: seq<CaptchaItem>, i: nat, uuid: string, answer: string)
    requires i < |items|
    ensures AnyMatches(items[..i + 1], uuid, answer)
            <==> AnyMatches(items[..i], uuid, answer) || (items[i].uuid == uuid && items[i].answer == answer)
  {
    assert items[..i + 1] == items[..i] + [items[i]];
  }

  class CaptchaStore {
    var captchas: seq<CaptchaItem>

    constructor ()
      ensures captchas == []
    {
      captchas := [];
    }

    method Push(item: CaptchaItem)
      modifies this
      ensures captchas == old(captchas) + [item]
    {
      captchas := captchas + [item];
    }

    method CheckCaptcha(uuid: string, answer: string, now: int) returns (check: bool)
      modifies this
      ensures Checked(captchas, check) == Check(old(captchas), uuid, answer, now)
    {
      captchas := Unexpired(captchas, now);
      check := false;
      var items := captchas;
      for i := 0 to |items|
        invariant captchas == items
        invariant check <==> AnyMatches(items[..i], uuid, answer)
      {
        OneMoreMatches(items, i, uuid, answer);
        if items[i].uuid == uuid && items[i].answer == answer {
          check := true;
        }
      }
      assert items[..|items|] == items;
      captchas := Unnamed(captchas, uuid);
    }
  }

  // ---------- properties of every run ----------

  datatype Event = Issue(item: CaptchaItem) | Try(uuid: string, answer: string, now: int)

  function Store(events: seq<Event>): seq<CaptchaItem> {
    if events == [] then []
    else
      var before := Store(events[..|events| - 1]);
      match events[|events| - 1]
      case Issue(item) => before + [item]
      case Try(uuid, answer, now) => Check(before, uuid, answer, now).captchas
  }

  /** Does the check at position `j` of the run succeed? */
  predicate Passes(events: seq<Event>, j: nat)
    requires j < |events| && events[j].Try?
  {
    Check(Store(events[..j]), events[j].uuid, events[j].answer, events[j].now).passed
  }

  ghost predicate DistinctIssues(events: seq<Event>) {
    forall i, j :: 0 <= i < j < |events| && events[i].Issue? && events[j].Issue?
      ==> events[i].item.uuid != events[j].item.uuid
  }

  /** The item issued at `i` is still there after the run: no check has named it or found it expired. */
  ghost predicate Survives(events: seq<Event>, i: nat)
    requires i < |events|
  {
    && events[i].Issue?
    && forall k :: i < k < |events| && events[k].Try? ==>
         events[k].uuid != events[i].item.uuid && events[k].now < events[i].item.expires
  }

  lemma SurvivesStep(events: seq<Event>, n: nat, i: nat)
    requires n + 1 == |events| && i < n
    ensures Survives(events, i) <==>
            Survives(events[..n], i)
            && (events[n].Try? ==> events[n].uuid != events[i].item.uuid && events[n].now < events[i].item.expires)
  {
    assert forall k :: i < k < n ==> events[..n][k] == events[k];
  }

  ghost predicate Issued(events: seq<Event>, i: int, item: CaptchaItem) {
    0 <= i < |events| && Survives(events, i) && events[i].item == item
  }

  lemma StoredStep(events: seq<Event>, n: nat, item: CaptchaItem)
    requires n + 1 == |events|
    ensures item in Store(events)
            <==> if events[n].Issue? then events[n].item == item || item in Store(events[..n])
                 else item in Store(events[..n]) && events[n].uuid != item.uuid && events[n].now < item.expires
  {
  }

  lemma IssuedStep(events: seq<Event>, n: nat, item: CaptchaItem)
    requires n + 1 == |events|
    ensures (exists i :: Issued(events, i, item))
            <==> if events[n].Issue? then events[n].item == item || exists i :: Issued(events[..n], i, item)
                 else
                   && (exists i :: Issued(events[..n], i, item))
                   && events[n].uuid != item.uuid && events[n].now < item.expires
  {
    if i :| Issued(events, i, item) {
      if i < n {
        SurvivesStep(events, n, i);
        assert Issued(events[..n], i, item);
      }
    }
    if i :| Issued(events[..n], i, item) {
      SurvivesStep(events, n, i);
      assert events[n].Issue? || (events[n].uuid != item.uuid && events[n].now < item.expires)
        ==> Issued(events, i, item);
    }
    if events[n].Issue? && events[n].item == item {
      assert Issued(events, n, item);
    }
  }

  /** The store holds exactly the issued items that survive. */
  lemma {:induction false} StoreHolds(events: seq<Event>, item: CaptchaItem)
    ensures item in Store(events) <==> exists i :: Issued(events, i, item)
  {
    if events != [] {
      var n := |events| - 1;
      StoreHolds(events[..n], item);
      StoredStep(events, n, item);
      IssuedStep(events, n, item);
    }
  }

  ghost predicate Answers(events: seq<Event>, i: nat, j: nat)
    requires i < |events| && j < |events|
  {
    && events[i].Issue? && events[j].Try?
    && events[i].item.uuid == events[j].uuid && events[i].item.answer == events[j].answer
    && events[i].item.expires > events[j].now
  }

  /** No check between `i` and `j` named the id issued at `i`, or found it expired by the clock it read. */
  ghost predicate Untouched(events: seq<Event>, i: nat, j: nat)
    requires i < j < |events| && events[i].Issue?
  {
    forall k :: i < k < j && events[k].Try?
                ==> events[k].uuid != events[i].item.uuid && events[k].now < events[i].item.expires
  }

  /**
   A check succeeds exactly when the id was issued with that answer and has not expired, and no check since
   then named it or found it expired. The clock may go back between two checks.
   */
  lemma PassesIff(events: seq<Event>, j: nat)
    requires j < |events| && events[j].Try?
    ensures Passes(events, j) <==> exists i :: 0 <= i < j && Answers(events, i, j) && Untouched(events, i, j)
  {
    var before := events[..j];
    var t := events[j];
    if Passes(events, j) {
      var r :| r in Store(before) && r.expires > t.now && r.uuid == t.uuid && r.answer == t.answer;
      StoreHolds(before, r);
      var i :| Issued(before, i, r);
      assert Answers(events, i, j);
      assert forall k :: i < k < j ==> before[k] == events[k];
    }
    if i :| 0 <= i < j && Answers(events, i, j) && Untouched(events, i, j) {
      assert Issued(before, i, events[i].item);
      StoreHolds(before, events[i].item);
      assert events[i].item in Store(before);
    }
  }

  /** Checks only work once: with distinct ids no two checks of the same id succeed, whatever the clock does. */
  lemma PassesOnce(events: seq<Event>, j: nat, k: nat)
    requires DistinctIssues(events)
    requires j < k < |events| && events[j].Try? && events[k].Try? && events[j].uuid == events[k].uuid
    ensures !(Passes(events, j) && Passes(events, k))
  {
    PassesIff(events, j);
    PassesIff(events, k);
  }
}

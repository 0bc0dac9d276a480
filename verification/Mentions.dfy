/**
 Mentions in a text (lemmy_utils/src/utils.rs): the pattern `@name@domain`, scanned from left to right,
 and its printer.

 The word class of the pattern is Unicode's; it is a parameter here, of which only one thing is used: the
 at sign is not a word character.
 */
module Mentions {
  import opened Wrappers
  import opened Sequences

  type WordClass = w: char -> bool | !w('@') witness c => c == '_'

  datatype MentionData = MentionData(name: string, domain: string) {
    function FullName(): string {
      "@" + name + "@" + domain
    }
  }

  predicate NameChar(word: WordClass, c: char) {
    word(c) || c == '.'
  }

  function NameClass(word: WordClass): char -> bool {
    c => NameChar(word, c)
  }

  predicate DomainChar(c: char) {
    'a' <= c <= 'z' || 'A' <= c <= 'Z' || '0' <= c <= '9' || c in "._:-"
  }

  /** The longest prefix of characters that are all `ok`. */
  function Prefix(t: string, ok: char -> bool): (p: string)
    ensures p <= t
    ensures forall c :: c in p ==> ok(c)
    ensures |p| < |t| ==> !ok(t[|p|])
  {
    if t == [] || !ok(t[0]) then [] else [t[0]] + Prefix(t[1..], ok)
  }

  /** The match at the start of the text. */
  function MatchHere(word: WordClass, t: string): (m: Option<MentionData>)
    ensures m.Some? ==> m.value.FullName() <= t && |m.value.FullName()| > 0
  {
    if t == [] || t[0] != '@' then None
    else
      var name := Prefix(t[1..], NameClass(word));
      var rest := t[1 + |name|..];
      if name == [] || rest == [] || rest[0] != '@' then None
      else
        var domain := Prefix(rest[1..], DomainChar);
        if domain == [] then None else
          assert t == "@" + name + rest;
          Some(MentionData(name, domain))
  }

  /** All matches from left to right; the scan goes on behind a match. */
  function Matches(word: WordClass, t: string): seq<MentionData>
    decreases |t|
  {
    if t == [] then []
    else
      var m := MatchHere(word, t);
      if m.Some? then [m.value] + Matches(word, t[|m.value.FullName()|..]) else Matches(word, t[1..])
  }

  function Scrape(word: WordClass, t: string): seq<MentionData> {
    Unique(Matches(word, t))
  }

  method ScrapeTextForMentions(word: WordClass, text: string) returns (out: seq<MentionData>)
    ensures out == Scrape(word, text)
    ensures exists ms :: IsScan(word, text, ms) && out == Unique(ms)
  {
    MatchesAreTheScan(word, text);
    out := [];
    var t := text;
    while t != []
      invariant out + Matches(word, t) == Matches(word, text)
      decreases |t|
    {
      var m := MatchHere(word, t);
      match m {
        case Some(mention) =>
          out := out + [mention];
          t := t[|mention.FullName()|..];
        case None =>
          t := t[1..];
      }
    }
    assert out + [] == out;
    out := Unique(out);
  }

  // ---------- the pattern ----------

  /** The pattern itself, matched against a whole string. */
  ghost predicate IsMention(word: WordClass, s: string, m: MentionData) {
    && s == "@" + m.name + "@" + m.domain
    && m.name != [] && (forall c :: c in m.name ==> word(c) || c == '.')
    && m.domain != []
    && forall c :: c in m.domain ==>
         'a' <= c <= 'z' || 'A' <= c <= 'Z' || '0' <= c <= '9' || c == '.' || c == '_' || c == ':' || c == '-'
  }

  /** The prefix takes everything that is `ok`, and nothing more if what follows is not. */
  lemma {:induction false} PrefixTakes(a: string, b: string, ok: char -> bool)
    requires forall c :: c in a ==> ok(c)
    ensures a <= Prefix(a + b, ok)
    ensures b == [] || !ok(b[0]) ==> Prefix(a + b, ok) == a
  {
    if a == [] {
      assert a + b == b;
    } else {
      assert (a + b)[1..] == a[1..] + b;
      assert a == [a[0]] + a[1..];
      PrefixTakes(a[1..], b, ok);
    }
  }

  /** The text starts with a name between at signs: what is left to read is the domain. */
  lemma NameIsRead(word: WordClass, t: string, name: string, rest: string)
    requires t == "@" + name + "@" + rest && name != [] && forall c :: c in name ==> NameChar(word, c)
    ensures MatchHere(word, t) == var domain := Prefix(rest, DomainChar);
                                  if domain == [] then None else Some(MentionData(name, domain))
  {
    var after := "@" + rest;
    assert t[1..] == name + after;
    PrefixTakes(name, after, NameClass(word));
    assert Prefix(t[1..], NameClass(word)) == name;
    assert t[1 + |name|..] == after && after[1..] == rest;
  }

  /**
   The scanner is the pattern: a text starts with a match exactly when one of its prefixes has the form of
   the pattern, and it takes the longest of them, which all have the same name.
   */
  lemma MatchHereIsThePattern(word: WordClass, t: string, n: nat, m: MentionData)
    requires n <= |t| && IsMention(word, t[..n], m)
    ensures MatchHere(word, t).Some?
    ensures var found := MatchHere(word, t).value;
            && IsMention(word, t[..|found.FullName()|], found)
            && found.name == m.name && m.domain <= found.domain
  {
    var rest := m.domain + t[n..];
    assert t == t[..n] + t[n..] == "@" + m.name + "@" + rest;
    NameIsRead(word, t, m.name, rest);
    PrefixTakes(m.domain, t[n..], DomainChar);
    MatchHereIsAMention(word, t);
  }

  lemma MatchHereIsAMention(word: WordClass, t: string)
    requires MatchHere(word, t).Some?
    ensures var found := MatchHere(word, t).value; IsMention(word, t[..|found.FullName()|], found)
  {
  }

  // ---------- the scan ----------

  ghost predicate StartsMention(word: WordClass, t: string) {
    exists n: nat, m :: n <= |t| && IsMention(word, t[..n], m)
  }

  /** `m` is at the start of the text, and nothing longer has the form of the pattern there. */
  ghost predicate LongestHere(word: WordClass, t: string, m: MentionData) {
    && m.FullName() <= t && IsMention(word, m.FullName(), m)
    && forall n: nat, x :: n <= |t| && IsMention(word, t[..n], x) ==> n <= |m.FullName()|
  }

  /**
   What a pattern finds in a text, said without the scanner: the leftmost place where it fits, the longest match there,
   and so on behind that match; nothing fits anywhere behind the last one.
   */
  ghost predicate IsScan(word: WordClass, t: string, ms: seq<MentionData>)
    decreases |ms|
  {
    if ms == [] then forall i :: 0 <= i <= |t| ==> !StartsMention(word, t[i..])
    else exists i :: 0 <= i <= |t| && IsNext(word, t, i, ms[0]) && IsScan(word, t[i..][|ms[0].FullName()|..], ms[1..])
  }

  ghost predicate IsNext(word: WordClass, t: string, i: nat, m: MentionData)
    requires i <= |t|
  {
    LongestHere(word, t[i..], m) && forall j :: 0 <= j < i ==> !StartsMention(word, t[j..])
  }

  lemma NothingStarts(word: WordClass, t: string)
    requires MatchHere(word, t).None?
    ensures !StartsMention(word, t)
  {
    if n: nat, m :| n <= |t| && IsMention(word, t[..n], m) {
      MatchHereIsThePattern(word, t, n, m);
    }
  }

  lemma FoundIsLongest(word: WordClass, t: string)
    requires MatchHere(word, t).Some?
    ensures LongestHere(word, t, MatchHere(word, t).value)
  {
    var m := MatchHere(word, t).value;
    MatchHereIsAMention(word, t);
    assert t[..|m.FullName()|] == m.FullName();
    forall n: nat, x | n <= |t| && IsMention(word, t[..n], x)
      ensures n <= |m.FullName()|
    {
      MatchHereIsThePattern(word, t, n, x);
      assert |t[..n]| == |x.FullName()| == |x.name| + |x.domain| + 2;
      assert |m.FullName()| == |m.name| + |m.domain| + 2;
    }
  }

  lemma ScanFromNext(word: WordClass, t: string, ms: seq<MentionData>)
    requires t != [] && !StartsMention(word, t) && IsScan(word, t[1..], ms)
    ensures IsScan(word, t, ms)
  {
    assert t[0..] == t;
    forall i | 0 < i <= |t| ensures t[i..] == t[1..][i - 1..] {
    }
    if ms != [] {
      var i :| 0 <= i <= |t[1..]| && IsNext(word, t[1..], i, ms[0])
               && IsScan(word, t[1..][i..][|ms[0].FullName()|..], ms[1..]);
      assert t[i + 1..] == t[1..][i..];
      assert IsNext(word, t, i + 1, ms[0]);
    }
  }

  lemma {:induction false} MatchesAreTheScan(word: WordClass, t: string)
    ensures IsScan(word, t, Matches(word, t))
    decreases |t|
  {
    if t == [] {
      assert MatchHere(word, t).None?;
      NothingStarts(word, t);
      assert t[0..] == t;
    } else {
      var m := MatchHere(word, t);
      if m.Some? {
        var rest := t[|m.value.FullName()|..];
        FoundIsLongest(word, t);
        MatchesAreTheScan(word, rest);
        var ms := [m.value] + Matches(word, rest);
        assert t[0..] == t && ms[1..] == Matches(word, rest);
        assert IsNext(word, t, 0, ms[0]);
      } else {
        NothingStarts(word, t);
        MatchesAreTheScan(word, t[1..]);
        ScanFromNext(word, t, Matches(word, t[1..]));
      }
    }
  }

  // ---------- the printer ----------

  ghost predicate WellFormed(word: WordClass, m: MentionData) {
    IsMention(word, m.FullName(), m)
  }

  lemma {:induction false} MatchesAreWellFormed(word: WordClass, t: string)
    ensures forall m :: m in Matches(word, t) ==> WellFormed(word, m)
    decreases |t|
  {
    if t != [] {
      var m := MatchHere(word, t);
      if m.Some? {
        MatchHereIsAMention(word, t);
        MatchesAreWellFormed(word, t[|m.value.FullName()|..]);
      } else {
        MatchesAreWellFormed(word, t[1..]);
      }
    }
  }

  /** The full names, one space between two. */
  function Printed(ms: seq<MentionData>): string {
    if ms == [] then [] else ms[0].FullName() + PrintedRest(ms[1..])
  }

  function PrintedRest(ms: seq<MentionData>): string
    decreases |ms|
  {
    if ms == [] then [] else " " + ms[0].FullName() + PrintedRest(ms[1..])
  }

  lemma HeadOfPrinted(word: WordClass, m: MentionData, rest: string)
    requires WellFormed(word, m) && (rest == [] || rest[0] == ' ')
    ensures MatchHere(word, m.FullName() + rest) == Some(m)
  {
    var t, tail := m.FullName() + rest, m.domain + rest;
    assert t == "@" + m.name + "@" + tail;
    PrefixTakes(m.domain, rest, DomainChar);
    assert Prefix(tail, DomainChar) == m.domain;
    NameIsRead(word, t, m.name, tail);
  }

  lemma {:induction false} ScanPrintedRest(word: WordClass, ms: seq<MentionData>)
    requires forall m :: m in ms ==> WellFormed(word, m)
    ensures Matches(word, PrintedRest(ms)) == ms
    decreases |ms|
  {
    if ms != [] {
      var t, rest := PrintedRest(ms), PrintedRest(ms[1..]);
      assert t[1..] == ms[0].FullName() + rest;
      ScanPrinted(word, ms[0], ms[1..]);
      assert [ms[0]] + ms[1..] == ms;
    }
  }

  lemma {:induction false} ScanPrinted(word: WordClass, m: MentionData, ms: seq<MentionData>)
    requires WellFormed(word, m) && forall x :: x in ms ==> WellFormed(word, x)
    ensures Matches(word, m.FullName() + PrintedRest(ms)) == [m] + ms
    decreases |ms| + 1, 0
  {
    var rest := PrintedRest(ms);
    HeadOfPrinted(word, m, rest);
    assert (m.FullName() + rest)[|m.FullName()|..] == rest;
    ScanPrintedRest(word, ms);
  }

  /**
   Printer and scanner undo each other: whatever was scraped from any text is scraped again, in the same
   order, from its own printout.
   */
  lemma ScrapePrintScrape(word: WordClass, t: string)
    ensures NoDuplicates(Scrape(word, t))
    ensures Scrape(word, Printed(Scrape(word, t))) == Scrape(word, t)
  {
    var ms := Scrape(word, t);
    MatchesAreWellFormed(word, t);
    if ms != [] {
      ScanPrinted(word, ms[0], ms[1..]);
      assert [ms[0]] + ms[1..] == ms;
    }
    UniqueOfDistinct(ms);
  }
}

/** `limit_and_offset` of lemmy_db/src/lib.rs and the window of rows that a query cuts out with it. */
module Paging {
  import opened Wrappers

  const I64_MAX := 0x7fff_ffff_ffff_ffff

  /** 64-bit arithmetic of a release build. */
  function Wrap64(x: int): (w: int)
    ensures -I64_MAX - 1 <= w <= I64_MAX
    ensures -I64_MAX - 1 <= x <= I64_MAX ==> w == x
    ensures x > I64_MAX ==> w < x
  {
    (x + I64_MAX + 1) % (2 * (I64_MAX + 1)) - (I64_MAX + 1)
  }

  function LimitAndOffset(page: Option<int>, limit: Option<int>): (int, int) {
    var p := if page.Some? then page.value else 1;
    var l := if limit.Some? then limit.value else 10;
    (l, Wrap64(l * Wrap64(p - 1)))
  }

  /** SQL's `limit` and `offset`; negative ones are an error. */
  function Window<T>(rows: seq<T>, limit: int, offset: int): Result<seq<T>, ()> {
    if limit < 0 || offset < 0 then Failure(())
    else Success(Slice(rows, offset, offset + limit))
  }

  /** The rows with an index from `from` up to `to`, as far as there are any. */
  function Slice<T>(rows: seq<T>, from: nat, to: nat): seq<T>
    requires from <= to
  {
    var n := |rows|;
    rows[if from < n then from else n..if to < n then to else n]
  }

  function PageOf<T>(rows: seq<T>, page: Option<int>, limit: Option<int>): Result<seq<T>, ()> {
    var (l, o) := LimitAndOffset(page, limit);
    Window(rows, l, o)
  }

  /** Pages 1 to `k` one after the other. */
  function Pages<T>(rows: seq<T>, limit: int, k: nat): Result<seq<T>, ()> {
    if k == 0 then Success([])
    else
      var before := Pages(rows, limit, k - 1);
      var last := PageOf(rows, Some(k), Some(limit));
      if before.Failure? then before else if last.Failure? then last else Success(before.value + last.value)
  }

  lemma OffsetOf(page: int, limit: int)
    requires 1 <= page <= I64_MAX && 1 <= limit
    ensures limit * (page - 1) >= 0
    ensures LimitAndOffset(Some(page), Some(limit)) == (limit, Wrap64(limit * (page - 1)))
  {
  }

  /** Without a page it is the first one, without a limit there are ten rows, and a negative limit is an error. */
  lemma FirstPage<T>(rows: seq<T>, limit: int)
    ensures PageOf(rows, None, None) == Success(rows[..if |rows| < 10 then |rows| else 10])
    ensures PageOf(rows, None, Some(limit))
            == if limit < 0 then Failure(()) else Success(rows[..if |rows| < limit then |rows| else limit])
    ensures PageOf(rows, Some(1), Some(limit)) == PageOf(rows, None, Some(limit))
  {
    assert Wrap64(1 - 1) == 0 && limit * 0 == 0;
    assert LimitAndOffset(None, None) == (10, 0);
    assert LimitAndOffset(None, Some(limit)) == (limit, 0) == LimitAndOffset(Some(1), Some(limit));
  }

  /** A window that starts at `offset` shows what one at `first` shows, of every table, only if they are the same. */
  lemma WrongWindow(limit: int, first: nat, offset: int)
    requires 1 <= limit && offset < first
    ensures exists rows: seq<int> :: Window(rows, limit, offset) != Success(Slice(rows, first, first + limit))
  {
    var rows: seq<int> := if offset < 0 then [] else seq(offset + 1, i => i);
    if offset >= 0 {
      assert Slice(rows, offset, offset + limit) == [rows[offset]];
      assert Slice(rows, first, first + limit) == [];
    }
    assert Window(rows, limit, offset) != Success(Slice(rows, first, first + limit));
  }

  /** The page is the one asked for, of every table, exactly when its first index still fits 64 bits. */
  lemma PageIsRightIff(page: int, limit: int)
    requires 1 <= page <= I64_MAX && 1 <= limit <= I64_MAX
    ensures limit * (page - 1) >= 0
    ensures (forall rows: seq<int> ::
               PageOf(rows, Some(page), Some(limit))
               == Success(Slice(rows, limit * (page - 1), limit * (page - 1) + limit)))
            <==> limit * (page - 1) <= I64_MAX
  {
    OffsetOf(page, limit);
    var first := limit * (page - 1);
    if first > I64_MAX {
      WrongWindow(limit, first, Wrap64(first));
      var rows: seq<int> :| Window(rows, limit, Wrap64(first)) != Success(Slice(rows, first, first + limit));
      assert PageOf(rows, Some(page), Some(limit)) == Window(rows, limit, Wrap64(first));
    } else {
      forall rows: seq<int>
        ensures PageOf(rows, Some(page), Some(limit)) == Success(Slice(rows, first, first + limit))
      {
      }
    }
  }

  /** The first k pages are the first k * limit rows, none missing and none twice. */
  lemma {:induction false} PagesAreTheRows<T>(rows: seq<T>, limit: int, k: nat)
    requires 1 <= limit <= I64_MAX && k <= I64_MAX && (k > 0 ==> limit * (k - 1) <= I64_MAX)
    ensures limit * k >= 0 && Pages(rows, limit, k) == Success(Slice(rows, 0, limit * k))
  {
    if k > 0 {
      assert limit * (k - 1) == limit * k - limit;
      if k > 1 {
        assert limit * (k - 2) <= limit * (k - 1);
      }
      PagesAreTheRows(rows, limit, k - 1);
      var first := limit * (k - 1);
      assert PageOf(rows, Some(k), Some(limit)) == Success(Slice(rows, first, first + limit));
      assert Slice(rows, 0, first) + Slice(rows, first, first + limit) == Slice(rows, 0, first + limit);
    }
  }
}

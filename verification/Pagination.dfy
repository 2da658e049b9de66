/**
  Offset pagination: the bounds check on 64-bit integers, the window clause and
  its parameters, the extra row that tells whether more remain, and the join of
  the two asynchronous answers.
*/
module Pagination {
  import opened Wrappers

  const MAX: int := 0x7FFF_FFFF_FFFF_FFFF

  predicate Int64(x: int) { -MAX - 1 <= x <= MAX }

  /** The guard of preparePage, as written. */
  predicate Accepted(page: int, size: int) {
    !(page < 1 || size < 1 || size == MAX || page - 1 > (MAX - size - 1) / size)
  }

  function Offset(page: int, size: int): int { (page - 1) * size }

  /** Every step of the guard and of the offset fits in 64 bits, and a page is accepted exactly when its last row,
      plus one, does. */
  lemma {:induction false} BoundsAreExact(page: int, size: int)
    requires Int64(page) && Int64(size)
    ensures Accepted(page, size) <==> page >= 1 && size >= 1 && Offset(page, size) + size + 1 <= MAX
    ensures page >= 1 && size >= 1 && size != MAX ==>
      Int64(page - 1) && Int64(MAX - size) && Int64(MAX - size - 1) && MAX - size - 1 >= 0
    ensures Accepted(page, size) ==> 0 <= Offset(page, size) && Int64(Offset(page, size) + size + 1) && Int64(size + 1)
  {
    if page >= 1 && size >= 1 {
      if size < MAX { AtMostQuotient(page - 1, size, MAX - size - 1); }
      else { assert Offset(page, size) >= 0; }
      NonNegative(page - 1, size);
    }
  }

  lemma {:induction false} NonNegative(a: int, b: int)
    requires a >= 0 && b >= 0
    ensures a * b >= 0
  {
  }

  lemma {:induction false} AtMostQuotient(a: int, b: int, c: int)
    requires a >= 0 && b > 0 && c >= 0
    ensures a <= c / b <==> a * b <= c
  {
    var q, r := c / b, c % b;
    assert c == q * b + r;
    if a <= q { Ordered(a, q, b); } else { Ordered(q + 1, a, b); assert (q + 1) * b == q * b + b; }
  }

  lemma {:induction false} Ordered(a: int, q: int, b: int)
    requires a <= q && b >= 0
    ensures a * b <= q * b
  {
    NonNegative(q - a, b);
    assert (q - a) * b == q * b - a * b;
  }

  // ----------------------------------------------------------------- windows

  datatype Dialect = MySQL | Postgres | Oracle | SqlServer

  /** The clause appended to the statement: which of the two last parameters is which. */
  datatype Clause = LimitOffset | OffsetFetch

  datatype Prepared = Prepared(clause: Clause, params: seq<int>)

  function Prepare(dialect: Dialect, params: seq<int>, page: int, size: int): Option<Prepared> {
    if !Accepted(page, size) then None
    else if dialect == MySQL || dialect == Postgres
    then Some(Prepared(LimitOffset, params + [size + 1, Offset(page, size)]))
    else Some(Prepared(OffsetFetch, params + [Offset(page, size), size + 1]))
  }

  /** The statement keeps its own parameters in front; the two of the window follow in the order of the dialect's
      clause, which is LIMIT … OFFSET for MySQL and PostgreSQL only. */
  lemma {:induction false} OwnParamsFirst(dialect: Dialect, params: seq<int>, page: int, size: int)
    requires Int64(page) && Int64(size)
    ensures var q := Prepare(dialect, params, page, size);
      && (q.Some? <==> page >= 1 && size >= 1 && (page - 1) * size + size + 1 <= MAX)
      && (q.Some? ==> |q.value.params| == |params| + 2 && q.value.params[..|params|] == params)
      && (q.Some? ==> (q.value.clause == LimitOffset <==> dialect == MySQL || dialect == Postgres))
  {
    BoundsAreExact(page, size);
  }

  function Clip(i: int, n: nat): nat { if i < 0 then 0 else if i > n then n else i }

  /** `count` rows of a fixed ordered result, from row `from` on. */
  function Window<Row>(all: seq<Row>, from: int, count: int): seq<Row> {
    all[Clip(from, |all|)..Clip(from + (if count < 0 then 0 else count), |all|)]
  }

  /** What a database returns for `LIMIT ? OFFSET ?` or `OFFSET ? ROWS FETCH NEXT ? ROWS ONLY`. */
  function Fetch<Row>(all: seq<Row>, q: Prepared): seq<Row>
    requires |q.params| >= 2
  {
    var last := |q.params| - 1;
    match q.clause
    case LimitOffset => Window(all, q.params[last], q.params[last - 1])
    case OffsetFetch => Window(all, q.params[last - 1], q.params[last])
  }

  datatype Page<Row> = Page(ok: bool, rows: seq<Row>, total: Option<int>, hasNext: bool)

  /** finishPageRows. */
  function Finish<Row>(p: Page<Row>, size: int): Page<Row>
    requires size >= 0
  {
    var more := |p.rows| > size;
    Page(p.ok, if !p.ok then [] else if more then p.rows[..size] else p.rows,
         if p.ok then p.total else None, p.ok && more)
  }

  /** Page `k` of a fixed result, end to end. */
  function PageOf<Row>(all: seq<Row>, dialect: Dialect, params: seq<int>, page: int, size: int): Page<Row>
    requires Accepted(page, size)
  {
    Finish(Page(true, Fetch(all, Prepare(dialect, params, page, size).value), None, false), size)
  }

  /** Page k is exactly slice k, and hasNext holds exactly when rows remain. */
  lemma {:induction false} PageIsSlice<Row>(all: seq<Row>, dialect: Dialect, params: seq<int>, page: int, size: int)
    requires Accepted(page, size)
    ensures var p := PageOf(all, dialect, params, page, size);
      && p.ok && p.rows == all[Clip(Offset(page, size), |all|)..Clip(Offset(page, size) + size, |all|)]
      && (p.hasNext <==> Offset(page, size) + size < |all|)
  {
    FetchIsWindow(all, dialect, params, page, size);
    hide Accepted, Fetch, Prepare, Window;
    WindowCut(all, Offset(page, size), size);
  }

  lemma {:induction false} FetchIsWindow<Row>(all: seq<Row>, dialect: Dialect, params: seq<int>, page: int, size: int)
    requires Accepted(page, size)
    ensures Prepare(dialect, params, page, size).Some?
    ensures var q := Prepare(dialect, params, page, size).value;
      |q.params| >= 2 && Fetch(all, q) == Window(all, Offset(page, size), size + 1)
    ensures Offset(page, size) >= 0 && size >= 1
  {
    hide Window;
    NonNegative(page - 1, size);
  }

  lemma {:induction false} WindowCut<Row>(all: seq<Row>, from: int, size: int)
    requires from >= 0 && size >= 0
    ensures var rows, lo, hi := Window(all, from, size + 1), Clip(from, |all|), Clip(from + size, |all|);
      && (|rows| > size <==> from + size < |all|) && lo <= hi
      && (if |rows| > size then rows[..size] else rows) == all[lo..hi]
  {
  }

  /** The last page that holds a row. */
  function LastPage(n: nat, size: int): int
    requires size >= 1
  {
    if n == 0 then 1 else (n - 1) / size + 1
  }

  /** Following hasNext from page 1 reads the whole result, once and in order. */
  method ReadAll<Row>(all: seq<Row>, dialect: Dialect, params: seq<int>, size: int) returns (rows: seq<Row>, pages: int)
    requires size >= 1 && Accepted(LastPage(|all|, size), size)
    ensures rows == all && pages == LastPage(|all|, size)
  {
    hide PageOf, Accepted, LastPage;
    var page := 1;
    FirstPage(|all|, size);
    var p := PageOf(all, dialect, params, 1, size);
    PageIsSlice(all, dialect, params, 1, size);
    rows := p.rows;
    while p.hasNext
      invariant 1 <= page <= LastPage(|all|, size) && Accepted(page, size)
      invariant p.hasNext <==> Offset(page, size) + size < |all|
      invariant rows == all[..Clip(Offset(page, size) + size, |all|)]
      decreases LastPage(|all|, size) - page
    {
      MorePages(|all|, size, page);
      EarlierAccepted(page + 1, LastPage(|all|, size), size);
      ghost var seen := Offset(page, size) + size;
      assert Offset(page + 1, size) == seen;
      NonNegative(page, size);
      page := page + 1;
      p := PageOf(all, dialect, params, page, size);
      PageIsSlice(all, dialect, params, page, size);
      assert all[..Clip(seen, |all|)] + all[Clip(seen, |all|)..Clip(seen + size, |all|)]
        == all[..Clip(seen + size, |all|)];
      rows := rows + p.rows;
    }
    LastIs(|all|, size, page);
    pages := page;
  }

  lemma {:induction false} EarlierAccepted(page: int, last: int, size: int)
    requires 1 <= page <= last && Accepted(last, size)
    ensures Accepted(page, size)
  {
  }

  lemma {:induction false} FirstPage(n: nat, size: int)
    requires size >= 1 && Accepted(LastPage(n, size), size)
    ensures Accepted(1, size) && LastPage(n, size) >= 1
  {
    if n > 0 { AtMostQuotient(0, size, n - 1); }
    EarlierAccepted(1, LastPage(n, size), size);
  }

  lemma {:induction false} MorePages(n: nat, size: int, page: int)
    requires size >= 1 && page >= 1 && Offset(page, size) + size < n
    ensures page + 1 <= LastPage(n, size)
  {
    assert Offset(page, size) + size == page * size;
    AtMostQuotient(page, size, n - 1);
  }

  lemma {:induction false} LastIs(n: nat, size: int, page: int)
    requires size >= 1 && 1 <= page <= LastPage(n, size) && Offset(page, size) + size >= n
    ensures page == LastPage(n, size)
  {
    assert Offset(page, size) + size == page * size;
    if n > 0 { AtMostQuotient(page, size, n - 1); }
  }

  // ------------------------------------------- synchronous and asynchronous

  /** What one of the two queries came back with: its rows, and the total they read as when they are a count. */
  datatype Reply<Row> = Reply(ok: bool, rows: seq<Row>, total: Option<int>)

  /** runPage: the count is asked only after the data succeeded. */
  function SyncPage<Row>(data: Reply<Row>, count: Option<Reply<Row>>, size: int): Page<Row>
    requires size >= 0
  {
    var counted := data.ok && count.Some?;
    var ok := data.ok && (counted ==> count.value.ok && count.value.total.Some?);
    Finish(Page(ok, if data.ok then data.rows else [],
                if counted && count.value.ok then count.value.total else None, false), size)
  }

  /** The page is good exactly when the data and, if it was asked for, the count came back; it then shows at most `size`
      rows, says whether there are more, and carries the count's total. */
  lemma {:induction false} SyncPageIs<Row>(data: Reply<Row>, count: Option<Reply<Row>>, size: int)
    requires size >= 0
    ensures var p := SyncPage(data, count, size);
      && (p.ok <==> data.ok && (count.Some? ==> count.value.ok && count.value.total.Some?))
      && (p.ok ==> p.rows <= data.rows && |p.rows| == (if |data.rows| > size then size else |data.rows|)
                   && (p.hasNext <==> |data.rows| > size)
                   && p.total == (if count.Some? then count.value.total else None))
      && (!p.ok ==> p.rows == [] && p.total == None && !p.hasNext)
  {
  }

  /** PendingPage::accept, as a step on the joined state. */
  datatype Join<Row> = Join(done: bool, pending: int, result: Page<Row>, deliveries: nat)

  function Accept<Row>(j: Join<Row>, raw: Reply<Row>, isCount: bool, size: int): Join<Row>
    requires size >= 0
  {
    if j.done then j else
    var ok := raw.ok && (isCount ==> raw.total.Some?);
    var result := Page(ok, if raw.ok && !isCount then raw.rows else j.result.rows,
                       if raw.ok && isCount && raw.total.Some? then raw.total else j.result.total, false);
    var waits := ok && j.pending - 1 != 0;
    Join(!waits, j.pending - 1, if waits then result else Finish(result, size),
         if waits then j.deliveries else j.deliveries + 1)
  }

  function Begin<Row>(counted: bool): Join<Row> {
    Join(false, if counted then 2 else 1, Page(true, [], None, false), 0)
  }

  /** Either order of the two answers gives the synchronous page, delivered once; so does a count that is never sent. */
  lemma {:induction false} EitherOrderIsSync<Row>(data: Reply<Row>, count: Reply<Row>, size: int)
    requires size >= 0
    ensures var dataFirst := Accept(Accept(Begin(true), data, false, size), count, true, size);
      dataFirst.done && dataFirst.deliveries == 1 && dataFirst.result == SyncPage(data, Some(count), size)
    ensures var countFirst := Accept(Accept(Begin(true), count, true, size), data, false, size);
      countFirst.done && countFirst.deliveries == 1 && countFirst.result == SyncPage(data, Some(count), size)
    ensures !data.ok ==> var only := Accept(Begin(true), data, false, size);
      only.done && only.deliveries == 1 && only.result == SyncPage(data, Some(count), size)
  {
    var first := Accept(Begin(true), data, false, size);
    var other := Accept(Begin(true), count, true, size);
    assert data.ok ==> !first.done;
    assert count.ok && count.total.Some? ==> !other.done;
  }

  lemma {:induction false} UncountedIsSync<Row>(data: Reply<Row>, size: int)
    requires size >= 0
    ensures var j := Accept(Begin(false), data, false, size);
      j.done && j.deliveries == 1 && j.result == SyncPage(data, None, size)
  {
  }

  /** Any number of answers, in any order, late and repeated ones included. */
  function AcceptAll<Row>(j: Join<Row>, raws: seq<(Reply<Row>, bool)>, size: int): Join<Row>
    requires size >= 0
    decreases |raws|
  {
    if raws == [] then j else AcceptAll(Accept(j, raws[0].0, raws[0].1, size), raws[1..], size)
  }

  /** Once done, no run of further answers changes the page or delivers it again. */
  lemma {:induction false} DoneIsDone<Row>(j: Join<Row>, raws: seq<(Reply<Row>, bool)>, size: int)
    requires size >= 0 && j.done
    ensures AcceptAll(j, raws, size) == j
    decreases |raws|
  {
    if raws != [] { DoneIsDone(j, raws[1..], size); }
  }

  /** Whatever answers arrive in whatever order, the page is delivered exactly when it becomes done: never twice, and at
      the latest with the second answer. */
  lemma {:induction false} DeliveredOnce<Row>(counted: bool, raws: seq<(Reply<Row>, bool)>, size: int)
    requires size >= 0
    ensures var j := AcceptAll<Row>(Begin(counted), raws, size);
      && j.deliveries == (if j.done then 1 else 0)
      && (|raws| >= (if counted then 2 else 1) ==> j.done)
  {
    var j := Begin<Row>(counted);
    if raws != [] {
      var k := Accept(j, raws[0].0, raws[0].1, size);
      if k.done {
        DoneIsDone(k, raws[1..], size);
      } else if |raws| > 1 {
        var l := Accept(k, raws[1].0, raws[1].1, size);
        assert raws[1..][0] == raws[1] && l.done;
        DoneIsDone(l, raws[1..][1..], size);
      }
    }
  }

  class PendingPage<Row> {
    const size: nat
    var done: bool
    var pending: int
    var result: Page<Row>
    var deliveries: nat

    constructor (counted: bool, size: nat)
      ensures this.size == size && View() == Begin(counted)
    {
      this.size := size;
      done, pending, result, deliveries := false, if counted then 2 else 1, Page(true, [], None, false), 0;
    }

    ghost function View(): Join<Row> reads this { Join(done, pending, result, deliveries) }

    /** The locked region of accept; `final` is handed to the completion outside the lock. */
    method accept(raw: Reply<Row>, isCount: bool) returns (final: Option<Page<Row>>)
      requires !done ==> !result.hasNext
      modifies this
      ensures View() == Accept(old(View()), raw, isCount, size)
      ensures final.Some? <==> !old(done) && done
      ensures final.Some? ==> final.value == result && deliveries == old(deliveries) + 1
      ensures final.None? ==> deliveries == old(deliveries)
      ensures !done ==> !result.hasNext
    {
      if done { return None; }
      result := result.(ok := raw.ok);
      if result.ok {
        if isCount {
          result := result.(ok := raw.total.Some?);
          if result.ok { result := result.(total := raw.total); }
        } else {
          result := result.(rows := raw.rows);
        }
      }
      pending := pending - 1;
      if result.ok && pending != 0 { return None; }
      done := true;
      result := Finish(result, size);
      deliveries := deliveries + 1;
      final := Some(result);
    }
  }
}

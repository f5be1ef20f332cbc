/** Offset pages and cursor pages over one table, as _db_paginate and _db_cursor_page query it. */
module Pagination {
  import opened Numbers
  import opened Seqs

  /** `key` is the text of the row's cursor field. */
  datatype Row = Row(key: string, fields: map<string, string>)

  type Cond = Row -> bool

  /**
   The text of a WHERE clause by its top-level OR: a row satisfies the clause
   when it satisfies one of the parts. No parts means no clause.
  */
  type Clause = seq<Cond>

  type Order = (string, string) -> bool

  /** Math.max(1, Math.min(perPage, 1000)) */
  function PerPage(n: int): (r: nat)
    ensures 1 <= r <= 1000 && (1 <= n <= 1000 ==> r == n) && (n < 1 ==> r == 1) && (n > 1000 ==> r == 1000)
  {
    if n < 1 then 1 else Min(n, 1000)
  }

  predicate Holds(w: Clause, r: Row) {
    w == [] || exists i :: 0 <= i < |w| && w[i](r)
  }

  /** `clause AND cond` without parentheses: AND binds tighter, so it joins the last part only. */
  function And(w: Clause, cond: Cond): (r: Clause)
    ensures r != []
  {
    if w == [] then [cond]
    else
      var last := w[|w| - 1];
      w[..|w| - 1] + [r => last(r) && cond(r)]
  }

  /** The rows that satisfy the clause, in the order of the query. */
  function Select(t: seq<Row>, w: Clause): (rows: seq<Row>)
  {
    if t == [] then []
    else (if Holds(w, t[0]) then [t[0]] else []) + Select(t[1..], w)
  }

  datatype Page = Page(items: seq<Row>, page: nat, perPage: nat, total: nat, totalPages: nat)

  function CeilDiv(a: nat, b: nat): nat
    requires b > 0
  {
    (a + b - 1) / b
  }

  /** LIMIT size OFFSET offset */
  function Window(rows: seq<Row>, offset: nat, size: nat): seq<Row> {
    var from := Min(offset, |rows|);
    rows[from..Min(from + size, |rows|)]
  }

  function Offset(page: nat, size: nat): nat
    requires page >= 1
  {
    (page - 1) * size
  }

  function Paginate(t: seq<Row>, w: Clause, page: int, perPage: int): Page {
    var rows, size := Select(t, w), PerPage(perPage);
    var number := if page < 1 then 1 else page;
    Page(Window(rows, Offset(number, size), size), number, size, |rows|, if |rows| == 0 then 0 else CeilDiv(|rows|, size))
  }

  /** `byField > key` */
  function After(lt: Order, key: string): Cond {
    (r: Row) => lt(key, r.key)
  }

  datatype CursorPage = CursorPage(items: seq<Row>, perPage: nat, next: string, hasMore: bool)

  /** LIMIT size + 1, and the page made of what that finds. */
  function Cut(found: seq<Row>, size: nat): CursorPage
    requires size > 0
  {
    var rows := found[..Min(size + 1, |found|)];
    var more := |rows| > size;
    var items := if more then rows[..size] else rows;
    CursorPage(items, size, if more then items[size - 1].key else "", more)
  }

  function Cursor(t: seq<Row>, w: Clause, lt: Order, perPage: int, after: string): CursorPage {
    Cut(Select(t, if after == "" then w else And(w, After(lt, after))), PerPage(perPage))
  }

  // ---------------------------------------------------------------------
  // Sorted tables
  // ---------------------------------------------------------------------

  /** The keys are not empty and strictly increase in the order the cursor condition compares by. */
  ghost predicate Sorted(t: seq<Row>, lt: Order) {
    && (forall i :: 0 <= i < |t| ==> t[i].key != "")
    && (forall i, j :: 0 <= i < |t| && 0 <= j < |t| ==> (lt(t[i].key, t[j].key) <==> i < j))
  }

  lemma {:induction false} Selected(t: seq<Row>, w: Clause, r: Row)
    ensures r in Select(t, w) <==> r in t && Holds(w, r)
  {
    if t != [] {
      Selected(t[1..], w, r);
    }
  }

  lemma {:induction false} SelectSorted(t: seq<Row>, w: Clause, lt: Order)
    requires Sorted(t, lt)
    ensures Sorted(Select(t, w), lt)
  {
    if t != [] {
      var rest := Select(t[1..], w);
      SelectSorted(t[1..], w, lt);
      hide Holds;
      forall j | 0 <= j < |rest| ensures lt(t[0].key, rest[j].key) && !lt(rest[j].key, t[0].key) && rest[j].key != "" {
        Selected(t[1..], w, rest[j]);
        var i :| 0 < i < |t| && t[i] == rest[j];
      }
      assert t[0] in t;
    }
  }

  lemma {:induction false} SelectSplit(a: seq<Row>, b: seq<Row>, w: Clause)
    ensures Select(a + b, w) == Select(a, w) + Select(b, w)
  {
    hide Holds;
    if a == [] {
      assert a + b == b;
    } else {
      SelectSplit(a[1..], b, w);
      assert (a + b)[1..] == a[1..] + b;
    }
  }

  lemma {:induction false} SelectAllOf(t: seq<Row>, w: Clause)
    requires forall r :: r in t ==> Holds(w, r)
    ensures Select(t, w) == t
  {
    if t != [] {
      assert t[0] in t;
      SelectAllOf(t[1..], w);
    }
  }

  lemma {:induction false} SelectNoneOf(t: seq<Row>, w: Clause)
    requires forall r :: r in t ==> !Holds(w, r)
    ensures Select(t, w) == []
  {
    if t != [] {
      assert t[0] in t;
      SelectNoneOf(t[1..], w);
    }
  }

  lemma {:induction false} SelectAlike(t: seq<Row>, v: Clause, w: Clause)
    requires forall r :: r in t ==> (Holds(v, r) <==> Holds(w, r))
    ensures Select(t, v) == Select(t, w)
  {
    if t != [] {
      assert t[0] in t;
      SelectAlike(t[1..], v, w);
    }
  }

  // ---------------------------------------------------------------------
  // One page after another
  // ---------------------------------------------------------------------

  /** The row satisfies a part of the clause that the cursor condition is not joined to. */
  predicate Early(w: Clause, r: Row) {
    exists i :: 0 <= i < |w| - 1 && w[i](r)
  }

  lemma AndHolds(w: Clause, cond: Cond, r: Row)
    ensures Holds(And(w, cond), r) <==> Early(w, r) || (cond(r) && (w == [] || w[|w| - 1](r)))
    ensures Holds(w, r) <==> Early(w, r) || w == [] || w[|w| - 1](r)
  {
    var v := And(w, cond);
    if w == [] {
      assert v[0](r) <==> cond(r);
    } else {
      assert v[|w| - 1](r) <==> w[|w| - 1](r) && cond(r);
      assert forall i :: 0 <= i < |w| - 1 ==> v[i] == w[i];
    }
  }

  lemma SelectOne(r: Row, w: Clause)
    ensures Select([r], w) == if Holds(w, r) then [r] else []
  {
    assert [r][1..] == [];
  }

  lemma {:induction false} Position(t: seq<Row>, w: Clause, p: nat) returns (q: nat)
    requires p < |Select(t, w)|
    ensures q < |t| && Holds(w, t[q]) && |Select(t[..q], w)| == p
  {
    assert t != [];
    var n := |t| - 1;
    hide Holds, Select;
    assert t == t[..n] + [t[n]];
    SelectSplit(t[..n], [t[n]], w);
    SelectOne(t[n], w);
    if p < |Select(t[..n], w)| {
      q := Position(t[..n], w, p);
      assert t[..n][..q] == t[..q];
    } else {
      q := n;
    }
  }

  /** Where the p-th row of the selection stands in the table. */
  lemma Locate(t: seq<Row>, w: Clause, p: nat) returns (q: nat)
    requires p < |Select(t, w)|
    ensures q < |t| && t[q] == Select(t, w)[p]
    ensures Select(t[..q + 1], w) == Select(t, w)[..p + 1] && Select(t[q + 1..], w) == Select(t, w)[p + 1..]
  {
    hide Holds, Select;
    q := Position(t, w, p);
    SelectSplit(t[..q], [t[q]], w);
    SelectSplit(t[..q + 1], t[q + 1..], w);
    SelectOne(t[q], w);
    assert t[..q + 1] == t[..q] + [t[q]] && t == t[..q + 1] + t[q + 1..];
  }

  lemma EarlyRows(a: seq<Row>, w: Clause, v: Clause, rows: seq<Row>)
    requires rows == Select(a, w) && forall r :: r in a ==> (Holds(v, r) <==> Early(w, r))
    ensures Select(a, v) == [] <==> forall i :: 0 <= i < |rows| ==> !Early(w, rows[i])
  {
    if forall i :: 0 <= i < |rows| ==> !Early(w, rows[i]) {
      forall r | r in a ensures !Holds(v, r) {
        Selected(a, w, r);
        AndHolds(w, (x: Row) => true, r);
      }
      SelectNoneOf(a, v);
    } else {
      var i :| 0 <= i < |rows| && Early(w, rows[i]);
      Selected(a, w, rows[i]);
      Selected(a, v, rows[i]);
    }
  }

  /** Behind the cursor's row the extra condition changes nothing; up to it only early parts can hold. */
  lemma CursorSides(t: seq<Row>, w: Clause, lt: Order, q: nat, i: nat)
    requires Sorted(t, lt) && q < |t| && i < |t|
    ensures var v := And(w, After(lt, t[q].key));
            if i <= q then Holds(v, t[i]) <==> Early(w, t[i]) else Holds(v, t[i]) <==> Holds(w, t[i])
  {
    AndHolds(w, After(lt, t[q].key), t[i]);
  }

  /**
   Asking for the rows after a row of the selection gives exactly the rest of
   the selection if and only if no row up to there satisfies an early part.
  */
  lemma RestIff(t: seq<Row>, w: Clause, lt: Order, p: nat)
    requires Sorted(t, lt) && p < |Select(t, w)|
    ensures var rows := Select(t, w);
            Select(t, And(w, After(lt, rows[p].key))) == rows[p + 1..] <==> forall i :: 0 <= i <= p ==> !Early(w, rows[i])
  {
    hide Holds, Early, And, Select, Sorted, After;
    var rows := Select(t, w);
    var v := And(w, After(lt, rows[p].key));
    var q := Locate(t, w, p);
    var a, b := t[..q + 1], t[q + 1..];
    assert t == a + b;
    SelectSplit(a, b, v);
    forall i: nat | i < |t| ensures if i <= q then Holds(v, t[i]) <==> Early(w, t[i]) else Holds(v, t[i]) <==> Holds(w, t[i]) {
      CursorSides(t, w, lt, q, i);
    }
    SelectAlike(b, v, w);
    EarlyRows(a, w, v, rows[..p + 1]);
  }

  // ---------------------------------------------------------------------
  // Offset pages
  // ---------------------------------------------------------------------

  lemma NextOffset(page: nat, size: nat)
    requires page >= 1
    ensures Offset(page + 1, size) == Offset(page, size) + size
  {
  }

  lemma FirstOffset(size: nat)
    ensures Offset(1, size) == 0
  {
  }

  lemma {:induction false} OffsetGrows(a: nat, b: nat, size: nat)
    requires 1 <= a < b
    ensures Offset(a, size) + size <= Offset(b, size)
  {
    hide Offset;
    NextOffset(b - 1, size);
    if a < b - 1 {
      OffsetGrows(a, b - 1, size);
    }
  }

  /** totalPages pages are enough, and all of them are needed. */
  lemma PageCount(total: nat, size: nat)
    requires size > 0
    ensures total <= Offset(CeilDiv(total, size) + 1, size)
    ensures total > 0 ==> CeilDiv(total, size) >= 1 && Offset(CeilDiv(total, size), size) < total
  {
    var m := CeilDiv(total, size);
    assert m * size + (total + size - 1) % size == total + size - 1;
    assert total > 0 ==> m >= 1;
    assert m >= 1 ==> (m - 1) * size == m * size - size;
  }

  lemma WindowExtends(rows: seq<Row>, offset: nat, size: nat)
    ensures rows[..Min(offset, |rows|)] + Window(rows, offset, size) == rows[..Min(offset + size, |rows|)]
  {
  }

  lemma {:induction false} WindowsTile(rows: seq<Row>, size: nat, parts: seq<seq<Row>>)
    requires forall k :: 0 <= k < |parts| ==> parts[k] == Window(rows, Offset(k + 1, size), size)
    ensures Concat(parts) == rows[..Min(Offset(|parts| + 1, size), |rows|)]
  {
    hide Offset, Window;
    FirstOffset(size);
    if parts != [] {
      WindowsTile(rows, size, parts[..|parts| - 1]);
      NextOffset(|parts|, size);
      WindowExtends(rows, Offset(|parts|, size), size);
    }
  }

  /** The items of offset pages 1 to n. */
  function OffsetItems(t: seq<Row>, w: Clause, perPage: int, n: nat): seq<seq<Row>> {
    seq(n, k requires 0 <= k < n => Paginate(t, w, k + 1, perPage).items)
  }

  /** Pages 1 to total_pages together are the whole selection, in order, and later pages are empty. */
  lemma OffsetPagesTile(t: seq<Row>, w: Clause, perPage: int, page: int)
    ensures Concat(OffsetItems(t, w, perPage, Paginate(t, w, page, perPage).totalPages)) == Select(t, w)
    ensures page > Paginate(t, w, page, perPage).totalPages >= 0 && page > 1 ==> Paginate(t, w, page, perPage).items == []
  {
    hide Select;
    var rows, size := Select(t, w), PerPage(perPage);
    var n := Paginate(t, w, page, perPage).totalPages;
    PageCount(|rows|, size);
    hide CeilDiv, PerPage;
    WindowsTile(rows, size, OffsetItems(t, w, perPage, n));
    assert rows[..|rows|] == rows;
    if page > n && page > 1 {
      if n + 1 < page {
        OffsetGrows(n + 1, page, size);
      }
    }
  }

  /** The total is the number of rows that all pages together hold, and the page is the one asked for, counted from 1. */
  lemma TotalsAdd(t: seq<Row>, w: Clause, page: int, perPage: int)
    ensures var p := Paginate(t, w, page, perPage);
            && |Concat(OffsetItems(t, w, perPage, p.totalPages))| == p.total
            && (1 <= page ==> p.page == page) && (page < 1 ==> p.page == 1) && (p.total == 0 <==> p.totalPages == 0)
            && (1 <= page <= p.totalPages ==> p.items == OffsetItems(t, w, perPage, p.totalPages)[page - 1])
  {
    OffsetPagesTile(t, w, perPage, page);
    PageCount(|Select(t, w)|, PerPage(perPage));
    hide Select, CeilDiv, Concat;
  }

  /** Numbers out of range are clamped. */
  lemma PaginateClamps(t: seq<Row>, w: Clause, page: int, perPage: int)
    ensures var p := Paginate(t, w, page, perPage);
            p.page >= 1 && 1 <= p.perPage <= 1000 && |p.items| <= p.perPage && p == Paginate(t, w, p.page, p.perPage)
  {
    hide Select, CeilDiv, Offset;
  }

  // ---------------------------------------------------------------------
  // Cursor pages
  // ---------------------------------------------------------------------

  /** The cursor that stands behind the first n rows. */
  function CursorBehind(rows: seq<Row>, n: nat): string
    requires n <= |rows|
  {
    if n == 0 then "" else rows[n - 1].key
  }

  /** No row satisfies a part of the clause that the cursor condition is not joined to; always so without a top-level OR. */
  ghost predicate NoneEarly(w: Clause, rows: seq<Row>) {
    forall i :: 0 <= i < |rows| ==> !Early(w, rows[i])
  }

  lemma NoneEarlyBefore(w: Clause, head: seq<Row>, rows: seq<Row>)
    requires NoneEarly(w, rows) && head <= rows
    ensures NoneEarly(w, head)
  {
  }

  lemma EarlyIsBeyond(w: Clause, rows: seq<Row>, p: nat, d: nat)
    requires p < |rows| && d < |rows| && NoneEarly(w, rows[..p + 1]) && Early(w, rows[d])
    ensures p < d
  {
    hide Early;
    forall i | 0 <= i <= p ensures !Early(w, rows[i]) {
      assert rows[..p + 1][i] == rows[i];
    }
  }

  lemma CutIs(rows: seq<Row>, n: nat, size: nat)
    requires n <= |rows| && size > 0
    ensures var p := Cut(rows[n..], size);
            && p.items == Window(rows, n, size) && p.perPage == size
            && (p.hasMore <==> n + size < |rows|)
            && p.next == (if p.hasMore then CursorBehind(rows, n + size) else "")
  {
  }

  lemma RestOfSelection(t: seq<Row>, w: Clause, lt: Order, p: nat)
    requires Sorted(t, lt) && p < |Select(t, w)| && NoneEarly(w, Select(t, w)[..p + 1])
    ensures Select(t, And(w, After(lt, Select(t, w)[p].key))) == Select(t, w)[p + 1..]
  {
    hide Select, And, After, Sorted, Early;
    var rows := Select(t, w);
    assert forall i :: 0 <= i <= p ==> rows[..p + 1][i] == rows[i];
    RestIff(t, w, lt, p);
  }

  lemma SelectedKey(t: seq<Row>, w: Clause, lt: Order, p: nat)
    requires Sorted(t, lt) && p < |Select(t, w)|
    ensures Select(t, w)[p].key != ""
  {
    SelectSorted(t, w, lt);
  }

  /** The page at the cursor behind n rows, none of them early, is the window behind it. */
  lemma CursorAt(t: seq<Row>, w: Clause, lt: Order, perPage: int, n: nat)
    requires Sorted(t, lt) && n <= |Select(t, w)| && NoneEarly(w, Select(t, w)[..n])
    ensures var rows, size := Select(t, w), PerPage(perPage);
            var p := Cursor(t, w, lt, perPage, CursorBehind(rows, n));
            && p.items == Window(rows, n, size) && p.perPage == size
            && (p.hasMore <==> n + size < |rows|)
            && p.next == (if p.hasMore then CursorBehind(rows, n + size) else "")
  {
    hide Select, And, After, PerPage, Window, Cut, Sorted, NoneEarly;
    var rows := Select(t, w);
    CutIs(rows, n, PerPage(perPage));
    if n > 0 {
      RestOfSelection(t, w, lt, n - 1);
      SelectedKey(t, w, lt, n - 1);
    } else {
      assert rows[0..] == rows;
    }
  }

  /** The i-th page was asked for with the cursor of the page before it. */
  predicate Linked(ps: seq<CursorPage>, i: nat, t: seq<Row>, w: Clause, lt: Order, perPage: int)
    requires 0 < i < |ps|
  {
    ps[i - 1].hasMore && ps[i] == Cursor(t, w, lt, perPage, ps[i - 1].next)
  }

  /** Each page was asked for with the cursor the page before it gave. */
  ghost predicate Follows(ps: seq<CursorPage>, t: seq<Row>, w: Clause, lt: Order, perPage: int)
    ensures Follows(ps, t, w, lt, perPage) ==> ps != []
  {
    && ps != [] && ps[0] == Cursor(t, w, lt, perPage, "")
    && forall i: nat :: 0 < i < |ps| ==> Linked(ps, i, t, w, lt, perPage)
  }

  /** The first rows of a selection that n pages hold. */
  function Head(rows: seq<Row>, n: nat, size: nat): seq<Row> {
    rows[..Min(Offset(n + 1, size), |rows|)]
  }

  lemma {:induction false} FollowedPage(ps: seq<CursorPage>, t: seq<Row>, w: Clause, lt: Order, perPage: int, i: nat)
    requires Sorted(t, lt) && Follows(ps, t, w, lt, perPage) && i < |ps|
    requires NoneEarly(w, Head(Select(t, w), i, PerPage(perPage)))
    ensures var rows, size := Select(t, w), PerPage(perPage);
            var n := Offset(i + 1, size);
            && n <= |rows| && (i > 0 ==> n < |rows|) && ps[i] == Cursor(t, w, lt, perPage, CursorBehind(rows, n))
            && ps[i].items == Window(rows, n, size) && (ps[i].hasMore <==> n + size < |rows|)
            && ps[i].next == if ps[i].hasMore then CursorBehind(rows, n + size) else ""
  {
    hide Cursor, Select, Sorted, PerPage, Window, Offset, Early;
    var rows, size := Select(t, w), PerPage(perPage);
    FirstOffset(size);
    if i > 0 {
      NextOffset(i, size);
      assert Head(rows, i - 1, size) <= Head(rows, i, size);
      FollowedPage(ps, t, w, lt, perPage, i - 1);
      assert Linked(ps, i, t, w, lt, perPage);
      assert Offset(i + 1, size) < |rows|;
    }
    CursorAt(t, w, lt, perPage, Offset(i + 1, size));
  }

  function ItemsOf(ps: seq<CursorPage>): seq<seq<Row>> {
    seq(|ps|, i requires 0 <= i < |ps| => ps[i].items)
  }

  /**
   Following the cursors while no row passed is early: the walk is no longer
   than the number of offset pages, and once its last page has no more it has
   yielded every row of the selection exactly once, in order, its k-th page
   being the k-th offset page.
  */
  lemma CursorWalk(ps: seq<CursorPage>, t: seq<Row>, w: Clause, lt: Order, perPage: int)
    requires Sorted(t, lt) && Follows(ps, t, w, lt, perPage)
    requires NoneEarly(w, Head(Select(t, w), |ps| - 1, PerPage(perPage)))
    ensures forall k :: 0 <= k < |ps| ==> ps[k].items == Paginate(t, w, k + 1, perPage).items
    ensures var total := Paginate(t, w, 1, perPage).totalPages;
            var most := if total == 0 then 1 else total;
            |ps| <= most && (!ps[|ps| - 1].hasMore <==> |ps| == most)
    ensures !ps[|ps| - 1].hasMore ==> Concat(ItemsOf(ps)) == Select(t, w)
  {
    hide Cursor, Select, Sorted, PerPage, Window, Offset, CeilDiv, Follows, Concat, Early;
    var rows, size, m := Select(t, w), PerPage(perPage), |ps|;
    forall k | 0 <= k < m ensures ps[k].items == Window(rows, Offset(k + 1, size), size) {
      if k < m - 1 { OffsetGrows(k + 1, m, size); }
      assert Head(rows, k, size) <= Head(rows, m - 1, size);
      FollowedPage(ps, t, w, lt, perPage, k);
    }
    FollowedPage(ps, t, w, lt, perPage, m - 1);
    NextOffset(m, size);
    WindowsTile(rows, size, ItemsOf(ps));
    WalkLength(|rows|, size, m);
    assert rows[..|rows|] == rows;
  }

  lemma WalkLength(total: nat, size: nat, m: nat)
    requires size > 0 && m > 0 && Offset(m, size) <= total && (m > 1 ==> Offset(m, size) < total)
    ensures var most := if total == 0 then 1 else CeilDiv(total, size);
            m <= most && (total <= Offset(m + 1, size) <==> m == most)
  {
    PageCount(total, size);
    var c := CeilDiv(total, size);
    hide CeilDiv;
    if total == 0 {
      if m > 1 {
        assert false;
      }
    } else {
      if m > c {
        if c + 1 < m { OffsetGrows(c + 1, m, size); }
      } else if m < c {
        if m + 1 < c { OffsetGrows(m + 1, c, size); }
      }
    }
  }

  // ---------------------------------------------------------------------
  // When a walk is complete
  // ---------------------------------------------------------------------

  /** The cursor is the key of the p-th row of the selection. */
  predicate AtRow(rows: seq<Row>, p: int, cursor: string) {
    0 <= p < |rows| && rows[p].key == cursor
  }

  lemma SortedRows(t: seq<Row>, w: Clause, lt: Order, p: nat, q: nat)
    requires Sorted(t, lt) && p < |Select(t, w)| && q < |Select(t, w)|
    ensures var rows := Select(t, w); (lt(rows[p].key, rows[q].key) <==> p < q) && (rows[p].key == rows[q].key ==> p == q)
  {
    SelectSorted(t, w, lt);
    hide Select;
    var rows := Select(t, w);
    assert lt(rows[p].key, rows[q].key) <==> p < q;
    assert lt(rows[q].key, rows[p].key) <==> q < p;
    assert lt(rows[p].key, rows[p].key) <==> p < p;
  }

  /** Whatever a cursor page holds is of the selection, and is early or comes after the cursor. */
  lemma FoundRow(t: seq<Row>, w: Clause, lt: Order, after: string, r: Row) returns (p: nat)
    requires r in Select(t, if after == "" then w else And(w, After(lt, after)))
    ensures p < |Select(t, w)| && Select(t, w)[p] == r
    ensures after != "" ==> Early(w, r) || lt(after, r.key)
  {
    Selected(t, if after == "" then w else And(w, After(lt, after)), r);
    AndHolds(w, After(lt, after), r);
    Selected(t, w, r);
    hide Select, Holds, Early, And;
    p :| 0 <= p < |Select(t, w)| && Select(t, w)[p] == r;
  }

  /** The cursor a page gives is its last row's. */
  lemma NextRow(t: seq<Row>, w: Clause, lt: Order, perPage: int, after: string) returns (p: nat)
    requires Cursor(t, w, lt, perPage, after).hasMore
    ensures var c := Cursor(t, w, lt, perPage, after);
            && c.items != [] && AtRow(Select(t, w), p, c.next) && Select(t, w)[p] == c.items[|c.items| - 1]
            && (after != "" ==> Early(w, Select(t, w)[p]) || lt(after, c.next))
  {
    hide Select, And, Early;
    var found := Select(t, if after == "" then w else And(w, After(lt, after)));
    var size := PerPage(perPage);
    assert found[size - 1] in found;
    p := FoundRow(t, w, lt, after, found[size - 1]);
  }

  /** Once a cursor stands behind every early row of the first p + 1, so does every later one. */
  lemma {:induction false} StaysBeyond(ps: seq<CursorPage>, t: seq<Row>, w: Clause, lt: Order, perPage: int, p: nat, k: nat, c: nat)
    returns (last: nat)
    requires Sorted(t, lt) && Follows(ps, t, w, lt, perPage) && k + 2 <= |ps|
    requires p < c && AtRow(Select(t, w), c, ps[k].next) && NoneEarly(w, Select(t, w)[..p + 1])
    ensures p < last && AtRow(Select(t, w), last, ps[|ps| - 2].next)
    decreases |ps| - k
  {
    hide Cursor, Select, Sorted, Early;
    var rows := Select(t, w);
    if k + 2 == |ps| {
      last := c;
    } else {
      assert Linked(ps, k + 1, t, w, lt, perPage);
      assert Linked(ps, k + 2, t, w, lt, perPage);
      SelectedKey(t, w, lt, c);
      var d := NextRow(t, w, lt, perPage, ps[k].next);
      SortedRows(t, w, lt, c, d);
      if Early(w, rows[d]) { EarlyIsBeyond(w, rows, p, d); }
      last := StaysBeyond(ps, t, w, lt, perPage, p, k + 1, d);
    }
  }

  /** If no row up to the last cursor is early, the last cursor is where the offset pages have it. */
  lemma {:induction false} CleanWalk(ps: seq<CursorPage>, t: seq<Row>, w: Clause, lt: Order, perPage: int, p: nat, k: nat)
    requires Sorted(t, lt) && Follows(ps, t, w, lt, perPage) && k < |ps| && |ps| >= 2
    requires AtRow(Select(t, w), p, ps[|ps| - 2].next) && NoneEarly(w, Select(t, w)[..p + 1])
    ensures Offset(k + 1, PerPage(perPage)) <= p + 1
  {
    hide Cursor, Select, Sorted, Early, PerPage, Offset;
    var rows, size := Select(t, w), PerPage(perPage);
    FirstOffset(size);
    if k > 0 {
      CleanWalk(ps, t, w, lt, perPage, p, k - 1);
      NextOffset(k, size);
      NoneEarlyBefore(w, Head(rows, k - 1, size), rows[..p + 1]);
      FollowedPage(ps, t, w, lt, perPage, k - 1);
      assert Linked(ps, k, t, w, lt, perPage);
      var n := Offset(k + 1, size);
      if n > p + 1 {
        var last := StaysBeyond(ps, t, w, lt, perPage, p, k - 1, n - 1);
        SortedRows(t, w, lt, p, last);
      }
    }
  }

  /** No row up to the cursor the last page was asked for with is early. */
  ghost predicate Clean(ps: seq<CursorPage>, rows: seq<Row>, w: Clause, lt: Order) {
    |ps| >= 2 ==> forall i :: 0 <= i < |rows| && !lt(ps[|ps| - 2].next, rows[i].key) ==> !Early(w, rows[i])
  }

  lemma CleanRows(ps: seq<CursorPage>, t: seq<Row>, w: Clause, lt: Order, p: nat)
    requires Sorted(t, lt) && |ps| >= 2 && AtRow(Select(t, w), p, ps[|ps| - 2].next)
    ensures Clean(ps, Select(t, w), w, lt) <==> NoneEarly(w, Select(t, w)[..p + 1])
  {
    hide Select, Early, Sorted;
    var rows := Select(t, w);
    forall i: nat | i < |rows| ensures !lt(ps[|ps| - 2].next, rows[i].key) <==> i <= p {
      SortedRows(t, w, lt, p, i);
    }
    assert forall i :: 0 <= i <= p ==> rows[..p + 1][i] == rows[i];
  }

  lemma {:induction false} ConcatLast(parts: seq<seq<Row>>)
    requires |parts| >= 2 && parts[|parts| - 2] != []
    ensures var before, last := Concat(parts[..|parts| - 1]), parts[|parts| - 2];
            Concat(parts) == before + parts[|parts| - 1] && before != [] && before[|before| - 1] == last[|last| - 1]
  {
    assert parts[..|parts| - 1][..|parts| - 2] == parts[..|parts| - 2];
  }

  /** When the parts make up the rows, the last part is the rows behind the last of the part before it. */
  lemma LastPartIsRest(rows: seq<Row>, parts: seq<seq<Row>>, p: nat)
    requires Concat(parts) == rows && |parts| >= 2 && parts[|parts| - 2] != [] && p < |rows|
    requires rows[p] == parts[|parts| - 2][|parts[|parts| - 2]| - 1]
    requires forall q :: 0 <= q < |rows| && rows[q] == rows[p] ==> q == p
    ensures parts[|parts| - 1] == rows[p + 1..]
  {
    hide Concat;
    ConcatLast(parts);
    var before := Concat(parts[..|parts| - 1]);
    assert rows[|before| - 1] == rows[p];
  }

  lemma LastPage(t: seq<Row>, w: Clause, lt: Order, perPage: int, after: string)
    requires after != "" && !Cursor(t, w, lt, perPage, after).hasMore
    ensures Cursor(t, w, lt, perPage, after).items == Select(t, And(w, After(lt, after)))
  {
    hide Select, And, After;
  }

  /** A finished walk that yields the selection asked for its last page at a place where only the rest was left. */
  lemma CompleteIsClean(ps: seq<CursorPage>, t: seq<Row>, w: Clause, lt: Order, perPage: int, p: nat)
    requires Sorted(t, lt) && Follows(ps, t, w, lt, perPage) && |ps| >= 2 && !ps[|ps| - 1].hasMore
    requires AtRow(Select(t, w), p, ps[|ps| - 2].next) && ps[|ps| - 2].items != []
    requires Select(t, w)[p] == ps[|ps| - 2].items[|ps[|ps| - 2].items| - 1]
    requires Concat(ItemsOf(ps)) == Select(t, w)
    ensures NoneEarly(w, Select(t, w)[..p + 1])
  {
    hide Select, Early, Sorted, And, Concat, After, Cursor;
    var rows, cursor, m := Select(t, w), ps[|ps| - 2].next, |ps|;
    SelectedKey(t, w, lt, p);
    assert Linked(ps, m - 1, t, w, lt, perPage);
    LastPage(t, w, lt, perPage, cursor);
    forall q | 0 <= q < |rows| && rows[q] == rows[p] ensures q == p {
      SortedRows(t, w, lt, q, p);
    }
    LastPartIsRest(rows, ItemsOf(ps), p);
    RestIff(t, w, lt, p);
    assert forall i :: 0 <= i <= p ==> rows[..p + 1][i] == rows[i];
  }

  /** The cursor the last page was asked for with is that of the last row of the page before it. */
  lemma LastCursor(ps: seq<CursorPage>, t: seq<Row>, w: Clause, lt: Order, perPage: int) returns (p: nat)
    requires Follows(ps, t, w, lt, perPage) && |ps| >= 2
    ensures var before := ps[|ps| - 2];
            && before.items != [] && AtRow(Select(t, w), p, before.next)
            && Select(t, w)[p] == before.items[|before.items| - 1]
  {
    hide Select, Cursor;
    var m := |ps|;
    assert Linked(ps, m - 1, t, w, lt, perPage);
    assert m > 2 ==> Linked(ps, m - 2, t, w, lt, perPage);
    p := NextRow(t, w, lt, perPage, if m == 2 then "" else ps[m - 3].next);
  }

  /** A finished walk yields exactly the selection if and only if no row up to its last cursor is early. */
  lemma WalkCompleteIff(ps: seq<CursorPage>, t: seq<Row>, w: Clause, lt: Order, perPage: int)
    requires Sorted(t, lt) && Follows(ps, t, w, lt, perPage) && !ps[|ps| - 1].hasMore
    ensures Concat(ItemsOf(ps)) == Select(t, w) <==> Clean(ps, Select(t, w), w, lt)
  {
    hide Select, Early, Sorted, Cursor, Concat, Offset, PerPage;
    var rows, size, m := Select(t, w), PerPage(perPage), |ps|;
    FirstOffset(size);
    if m == 1 {
      CursorWalk(ps, t, w, lt, perPage);
    } else {
      var p := LastCursor(ps, t, w, lt, perPage);
      CleanRows(ps, t, w, lt, p);
      if Clean(ps, rows, w, lt) {
        CleanWalk(ps, t, w, lt, perPage, p, m - 1);
        NoneEarlyBefore(w, Head(rows, m - 1, size), rows[..p + 1]);
        CursorWalk(ps, t, w, lt, perPage);
      } else if Concat(ItemsOf(ps)) == rows {
        CompleteIsClean(ps, t, w, lt, perPage, p);
      }
    }
  }

  /** How many pages the selection fills; an empty one takes a page, too. */
  function Pages(rows: seq<Row>, size: nat): nat
    requires size > 0
  {
    if rows == [] then 1 else CeilDiv(|rows|, size)
  }

  lemma PagesAre(t: seq<Row>, w: Clause, perPage: int)
    ensures var total := Paginate(t, w, 1, perPage).totalPages;
            Pages(Select(t, w), PerPage(perPage)) == (if total == 0 then 1 else total) >= 1
  {
    hide Select, CeilDiv;
    PageCount(|Select(t, w)|, PerPage(perPage));
  }

  /** The walk has ended, and has yielded the selection. */
  ghost predicate Complete(ps: seq<CursorPage>, t: seq<Row>, w: Clause, lt: Order, perPage: int) {
    Follows(ps, t, w, lt, perPage) && !ps[|ps| - 1].hasMore && Concat(ItemsOf(ps)) == Select(t, w)
  }

  lemma CompleteLength(ps: seq<CursorPage>, t: seq<Row>, w: Clause, lt: Order, perPage: int)
    requires Sorted(t, lt) && Complete(ps, t, w, lt, perPage)
    ensures |ps| == Pages(Select(t, w), PerPage(perPage)) && NoneEarly(w, Head(Select(t, w), |ps| - 1, PerPage(perPage)))
  {
    hide Select, Early, Sorted, Cursor, Concat, Offset, PerPage, CeilDiv, Pages;
    var rows, size, m := Select(t, w), PerPage(perPage), |ps|;
    FirstOffset(size);
    if m >= 2 {
      var p := LastCursor(ps, t, w, lt, perPage);
      CompleteIsClean(ps, t, w, lt, perPage, p);
      CleanWalk(ps, t, w, lt, perPage, p, m - 1);
      NoneEarlyBefore(w, Head(rows, m - 1, size), rows[..p + 1]);
    }
    CursorWalk(ps, t, w, lt, perPage);
    PagesAre(t, w, perPage);
  }

  lemma OnePageMore(ps: seq<CursorPage>, t: seq<Row>, w: Clause, lt: Order, perPage: int)
    requires Follows(ps, t, w, lt, perPage) && ps[|ps| - 1].hasMore
    ensures Follows(ps + [Cursor(t, w, lt, perPage, ps[|ps| - 1].next)], t, w, lt, perPage)
  {
    hide Cursor;
    var more := ps + [Cursor(t, w, lt, perPage, ps[|ps| - 1].next)];
    forall i: nat | 0 < i < |more| ensures Linked(more, i, t, w, lt, perPage) {
      assert i < |ps| ==> Linked(ps, i, t, w, lt, perPage);
    }
  }

  lemma OnePageLess(ps: seq<CursorPage>, t: seq<Row>, w: Clause, lt: Order, perPage: int)
    requires Follows(ps, t, w, lt, perPage) && |ps| > 1
    ensures Follows(ps[..|ps| - 1], t, w, lt, perPage) && Linked(ps, |ps| - 1, t, w, lt, perPage)
  {
    hide Cursor;
    var less := ps[..|ps| - 1];
    forall i: nat | 0 < i < |less| ensures Linked(less, i, t, w, lt, perPage) {
      assert Linked(ps, i, t, w, lt, perPage);
    }
  }

  lemma {:induction false} WalkTo(t: seq<Row>, w: Clause, lt: Order, perPage: int, n: nat) returns (ps: seq<CursorPage>)
    requires Sorted(t, lt) && 1 <= n <= Pages(Select(t, w), PerPage(perPage))
    requires NoneEarly(w, Head(Select(t, w), n - 1, PerPage(perPage)))
    ensures Follows(ps, t, w, lt, perPage) && |ps| == n
  {
    hide Select, NoneEarly, Sorted, Cursor, Offset, PerPage, Pages;
    var rows, size := Select(t, w), PerPage(perPage);
    if n == 1 {
      ps := [Cursor(t, w, lt, perPage, "")];
    } else {
      hide Follows, Concat;
      NextOffset(n - 1, size);
      NoneEarlyBefore(w, Head(rows, n - 2, size), Head(rows, n - 1, size));
      ps := WalkTo(t, w, lt, perPage, n - 1);
      CursorWalk(ps, t, w, lt, perPage);
      PagesAre(t, w, perPage);
      OnePageMore(ps, t, w, lt, perPage);
      ps := ps + [Cursor(t, w, lt, perPage, ps[n - 2].next)];
    }
  }

  /**
   For every table, clause and page size: following the cursors from the start
   comes to an end with every row of the selection yielded once, in order, if
   and only if no row that the offset pages have before the last one is early.
  */
  lemma WalkEndsCompleteIff(t: seq<Row>, w: Clause, lt: Order, perPage: int)
    requires Sorted(t, lt)
    ensures var rows, size := Select(t, w), PerPage(perPage);
            (exists ps :: Complete(ps, t, w, lt, perPage)) <==> NoneEarly(w, Head(rows, Pages(rows, size) - 1, size))
  {
    hide Select, Sorted, Head, PerPage, Pages, Follows, NoneEarly, Concat, CeilDiv;
    var rows, size := Select(t, w), PerPage(perPage);
    PagesAre(t, w, perPage);
    if NoneEarly(w, Head(rows, Pages(rows, size) - 1, size)) {
      var ps := WalkTo(t, w, lt, perPage, Pages(rows, size));
      CursorWalk(ps, t, w, lt, perPage);
      assert Complete(ps, t, w, lt, perPage);
    } else if ps :| Complete(ps, t, w, lt, perPage) {
      CompleteLength(ps, t, w, lt, perPage);
    }
  }

  /** There is only one walk: any two agree page by page, and none goes on behind a finished one. */
  lemma {:induction false} OneWalk(ps: seq<CursorPage>, qs: seq<CursorPage>, t: seq<Row>, w: Clause, lt: Order, perPage: int)
    requires Follows(ps, t, w, lt, perPage) && Follows(qs, t, w, lt, perPage) && |ps| <= |qs|
    ensures ps == qs[..|ps|] && (!ps[|ps| - 1].hasMore ==> ps == qs)
    decreases |qs|
  {
    hide Cursor, Follows;
    if |ps| < |qs| {
      OnePageLess(qs, t, w, lt, perPage);
      OneWalk(ps, qs[..|qs| - 1], t, w, lt, perPage);
    } else if |qs| > 1 {
      OnePageLess(ps, t, w, lt, perPage);
      OnePageLess(qs, t, w, lt, perPage);
      OneWalk(ps[..|ps| - 1], qs[..|qs| - 1], t, w, lt, perPage);
    } else {
      FirstPage(ps, t, w, lt, perPage);
      FirstPage(qs, t, w, lt, perPage);
    }
  }

  lemma FirstPage(ps: seq<CursorPage>, t: seq<Row>, w: Clause, lt: Order, perPage: int)
    requires Follows(ps, t, w, lt, perPage)
    ensures ps[0] == Cursor(t, w, lt, perPage, "")
  {
  }

  /** Without a top-level OR that is always the case. */
  lemma WalkCompleteWithoutOr(ps: seq<CursorPage>, t: seq<Row>, w: Clause, lt: Order, perPage: int)
    requires Sorted(t, lt) && Follows(ps, t, w, lt, perPage) && !ps[|ps| - 1].hasMore && |w| <= 1
    ensures Concat(ItemsOf(ps)) == Select(t, w)
  {
    hide Select, Sorted, Follows, Concat;
    WalkCompleteIff(ps, t, w, lt, perPage);
  }

  // ---------------------------------------------------------------------
  // A walk that does not end
  // ---------------------------------------------------------------------

  function TwoRows(): seq<Row> {
    [Row("a", map[]), Row("b", map[])]
  }

  /** key = "a" OR true */
  function OrTrue(): Clause {
    [(r: Row) => r.key == "a", (r: Row) => true]
  }

  function Alphabetical(): Order {
    (x: string, y: string) => x == "a" && y == "b"
  }

  lemma SamePage(after: string)
    requires after == "" || after == "a"
    ensures Cursor(TwoRows(), OrTrue(), Alphabetical(), 1, after) == CursorPage(TwoRows()[..1], 1, "a", true)
  {
    var t, w, v := TwoRows(), OrTrue(), if after == "" then OrTrue() else And(OrTrue(), After(Alphabetical(), after));
    forall r | r in t ensures Holds(v, r) {
      assert r == t[0] || r == t[1];
      AndHolds(w, After(Alphabetical(), "a"), r);
      assert w[1](r) && (r.key == "a" ==> Early(w, r)) by { assert r.key == "a" ==> w[0](r); }
    }
    SelectAllOf(t, v);
  }

  /** With page size 1 the first row comes again and again: there are walks of every length, and none is finished. */
  lemma EndlessWalk(n: nat) returns (ps: seq<CursorPage>)
    requires n > 0
    ensures Sorted(TwoRows(), Alphabetical())
    ensures |ps| == n && Follows(ps, TwoRows(), OrTrue(), Alphabetical(), 1) && forall i :: 0 <= i < n ==> ps[i].hasMore
  {
    assert Sorted(TwoRows(), Alphabetical());
    SamePage("");
    SamePage("a");
    hide Cursor, TwoRows, OrTrue, Alphabetical;
    ps := seq(n, i => CursorPage(TwoRows()[..1], 1, "a", true));
  }
}

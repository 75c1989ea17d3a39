/**
 Cursor pagination: limits, cursors, and the list query the handlers run. The JSON
 of a cursor is any printer with a parser that undoes it.
 */
module Pagination {
  import opened Prelude
  import Base64Url

  const DEFAULT_LIMIT := 50
  const MAX_LIMIT := 500

  datatype CursorState = CursorState(kind: string, lastId: int)

  datatype Json = Json(toBytes: CursorState -> seq<byte>, fromBytes: seq<byte> -> Option<CursorState>)

  ghost predicate Faithful(j: Json) {
    forall s :: j.fromBytes(j.toBytes(s)) == Some(s)
  }

  datatype PaginationError = InvalidLimit | InvalidCursor

  datatype Resolved = Resolved(afterId: Option<int>, effectiveLimit: int, bumpedLimit: int)

  function EncodeCursor(s: CursorState, j: Json): string {
    Base64Url.Encode(j.toBytes(s))
  }

  function DecodeCursor(raw: string, expectedKind: string, j: Json): Result<CursorState, PaginationError> {
    match Base64Url.Decode(raw)
    case None => Err(InvalidCursor)
    case Some(bytes) =>
      match j.fromBytes(bytes)
      case None => Err(InvalidCursor)
      case Some(state) => if state.kind != expectedKind then Err(InvalidCursor) else Ok(state)
  }

  function Resolve(limit: Option<int>, cursor: Option<string>, expectedKind: string, j: Json)
    : Result<Resolved, PaginationError>
  {
    var effective := match limit case None => DEFAULT_LIMIT case Some(n) => n;
    if effective < 1 || effective > MAX_LIMIT then Err(InvalidLimit)
    else match cursor
      case None => Ok(Resolved(None, effective, effective + 1))
      case Some(raw) =>
        match DecodeCursor(raw, expectedKind, j)
        case Err(e) => Err(e)
        case Ok(state) => Ok(Resolved(Some(state.lastId), effective, effective + 1))
  }

  /** The cursor of the next page, if the query returned more rows than fit. */
  function NextCursor<T>(rows: seq<T>, resolved: Resolved, expectedKind: string, idOf: T -> int, j: Json)
    : Option<string>
    requires resolved.effectiveLimit >= 1
  {
    if |rows| <= resolved.effectiveLimit then None
    else Some(EncodeCursor(CursorState(expectedKind, idOf(rows[resolved.effectiveLimit - 1])), j))
  }

  // ----- the list query -----------------------------------------------------

  lemma Member<T>(s: set<T>) returns (x: T)
    requires |s| > 0
    ensures x in s
  {
    x :| x in s;
  }

  lemma {:induction false} LargestExists(s: set<int>)
    requires |s| > 0
    ensures exists m :: m in s && forall x :: x in s ==> x <= m
  {
    var x := Member(s);
    var rest := s - {x};
    assert forall y :: y in s <==> y == x || y in rest;
    if rest == {} {
      assert forall y :: y in s ==> y <= x;
    } else {
      LargestExists(rest);
      var m :| m in rest && forall y :: y in rest ==> y <= m;
      var top := Max(x, m);
      assert top in s && forall y :: y in s ==> y <= top;
    }
  }

  ghost function Largest(s: set<int>): (m: int)
    requires |s| > 0
    ensures m in s && forall x :: x in s ==> x <= m
  {
    LargestExists(s);
    var m :| m in s && forall x :: x in s ==> x <= m;
    m
  }

  /** `ORDER BY id DESC`. */
  ghost function Descending(s: set<int>): seq<int> {
    if |s| == 0 then [] else [Largest(s)] + Descending(s - {Largest(s)})
  }

  /** `WHERE id < after`, when there is a cursor. */
  ghost function Below(ids: set<int>, after: Option<int>): set<int> {
    set x | x in ids && (after.None? || x < after.value)
  }

  ghost function Query(ids: set<int>, after: Option<int>, limit: nat): seq<int> {
    var all := Descending(Below(ids, after));
    if |all| <= limit then all else all[..limit]
  }

  datatype Page = Page(items: seq<int>, nextCursor: Option<string>)

  /** One list request against the rows visible when it runs. */
  ghost function List(ids: set<int>, limit: Option<int>, cursor: Option<string>, kind: string, j: Json)
    : Result<Page, PaginationError>
  {
    match Resolve(limit, cursor, kind, j)
    case Err(e) => Err(e)
    case Ok(r) =>
      var rows := Query(ids, r.afterId, r.bumpedLimit);
      Ok(Page(if |rows| <= r.effectiveLimit then rows else rows[..r.effectiveLimit],
              NextCursor(rows, r, kind, x => x, j)))
  }

  datatype Walk = Walk(items: seq<int>, pages: nat, finished: bool)

  /** Follows cursors until there is none; request `k` finds the table as `tables[k]`. */
  ghost function Follow(tables: seq<set<int>>, limit: Option<int>, cursor: Option<string>, kind: string, j: Json)
    : Walk
  {
    if tables == [] then Walk([], 0, false)
    else match List(tables[0], limit, cursor, kind, j)
      case Err(_) => Walk([], 1, false)
      case Ok(page) =>
        if page.nextCursor.None? then Walk(page.items, 1, true)
        else
          var rest := Follow(tables[1..], limit, page.nextCursor, kind, j);
          Walk(page.items + rest.items, rest.pages + 1, rest.finished)
  }

  // ----- cursors ------------------------------------------------------------

  predicate ValidLimit(limit: Option<int>) {
    limit.None? || 1 <= limit.value <= MAX_LIMIT
  }

  function Limit(limit: Option<int>): int {
    match limit case None => DEFAULT_LIMIT case Some(n) => n
  }

  /** A cursor minted by one kind of list resumes that kind, and is refused by every other. */
  lemma CursorResumesItsKindOnly(limit: Option<int>, minted: CursorState, kind: string, j: Json)
    requires Faithful(j)
    ensures Resolve(limit, Some(EncodeCursor(minted, j)), kind, j)
         == if !ValidLimit(limit) then Err(InvalidLimit)
            else if minted.kind != kind then Err(InvalidCursor)
            else Ok(Resolved(Some(minted.lastId), Limit(limit), Limit(limit) + 1))
  {
    Base64Url.DecodeIffEncoded(EncodeCursor(minted, j), j.toBytes(minted));
  }

  /** Whatever string resolves as a cursor is base64url of bytes that parse to one of this kind. */
  lemma ResolvedCursorIsOfItsKind(limit: Option<int>, raw: string, kind: string, j: Json, id: int)
    requires ValidLimit(limit)
    ensures Resolve(limit, Some(raw), kind, j) == Ok(Resolved(Some(id), Limit(limit), Limit(limit) + 1))
       <==> exists bytes :: raw == Base64Url.Encode(bytes) && j.fromBytes(bytes) == Some(CursorState(kind, id))
  {
    hide Base64Url.Decode, Base64Url.Encode;
    if Resolve(limit, Some(raw), kind, j) == Ok(Resolved(Some(id), Limit(limit), Limit(limit) + 1)) {
      Base64Url.DecodeIffEncoded(raw, Base64Url.Decode(raw).value);
    }
    if bytes :| raw == Base64Url.Encode(bytes) && j.fromBytes(bytes) == Some(CursorState(kind, id)) {
      Base64Url.DecodeIffEncoded(raw, bytes);
    }
  }

  // ----- sorted enumerations ------------------------------------------------

  predicate StrictlyDescending(xs: seq<int>) {
    forall i, k :: 0 <= i < k < |xs| ==> xs[i] > xs[k]
  }

  lemma {:induction false} DescendingIsSorted(s: set<int>)
    ensures |Descending(s)| == |s| && StrictlyDescending(Descending(s))
    ensures forall x :: x in Descending(s) <==> x in s
  {
    if |s| > 0 {
      var m := Largest(s);
      var others := s - {m};
      assert forall x :: x in s <==> x == m || x in others;
      assert |others| == |s| - 1;
      DescendingIsSorted(others);
      var rest := Descending(others);
      assert forall k :: 0 <= k < |rest| ==> rest[k] in rest && rest[k] in others;
      assert Descending(s) == [m] + rest;
      hide Descending;
    }
  }

  /** A strictly descending sequence is determined by its elements. */
  lemma {:induction false} SortedIsUnique(a: seq<int>, b: seq<int>)
    requires StrictlyDescending(a) && StrictlyDescending(b)
    requires forall x :: x in a <==> x in b
    ensures a == b
  {
    if a != [] {
      assert a[0] in a && a[0] in b;
      assert b[0] in b && b[0] in a;
      assert a[0] == b[0];
      forall x
        ensures x in a[1..] <==> x in b[1..]
      {
        TailMember(a, x);
        TailMember(b, x);
      }
      SortedIsUnique(a[1..], b[1..]);
    } else if b != [] {
      TailMember(b, b[0]);
    }
  }

  lemma TailMember(a: seq<int>, x: int)
    requires a != [] && StrictlyDescending(a)
    ensures x in a[1..] <==> x in a && x != a[0]
    ensures a[0] in a
  {
    if x in a[1..] {
      var k :| 0 <= k < |a| - 1 && a[1..][k] == x;
      assert a[k + 1] == x;
    }
  }

  lemma SuffixMember(a: seq<int>, n: nat, x: int)
    requires 1 <= n <= |a| && StrictlyDescending(a)
    ensures x in a[n..] <==> x in a && x < a[n - 1]
  {
    if x in a && x < a[n - 1] {
      var k :| 0 <= k < |a| && a[k] == x;
      assert a[n..][k - n] == x;
    }
  }

  /** Cutting a descending enumeration after `n` rows leaves the rows below the `n`-th. */
  lemma RestIsBelow(ids: set<int>, after: Option<int>, n: nat)
    requires 1 <= n <= |Descending(Below(ids, after))|
    ensures var all := Descending(Below(ids, after));
            && (after.Some? ==> all[n - 1] < after.value)
            && Descending(Below(ids, Some(all[n - 1]))) == all[n..]
            && |Below(ids, Some(all[n - 1]))| == |Below(ids, after)| - n
  {
    hide Descending;
    var all := Descending(Below(ids, after));
    DescendingIsSorted(Below(ids, after));
    assert all[n - 1] in all;
    var rest := Below(ids, Some(all[n - 1]));
    DescendingIsSorted(rest);
    forall x
      ensures x in all[n..] <==> x in rest
    {
      SuffixMember(all, n, x);
    }
    SortedIsUnique(Descending(rest), all[n..]);
  }

  // ----- one page -----------------------------------------------------------

  /** The string a caller sends to continue after row `after`; nothing on the first page. */
  function CursorFor(after: Option<int>, kind: string, j: Json): Option<string> {
    match after case None => None case Some(id) => Some(EncodeCursor(CursorState(kind, id), j))
  }

  /**
   What one request returns: the next rows in order, and a cursor for the last of
   them exactly when rows remain behind it.
   */
  lemma PageIsExact(ids: set<int>, limit: Option<int>, after: Option<int>, kind: string, j: Json)
    requires Faithful(j) && ValidLimit(limit)
    ensures var all := Descending(Below(ids, after));
            var n := Limit(limit);
            List(ids, limit, CursorFor(after, kind, j), kind, j)
            == if |all| <= n then Ok(Page(all, None))
               else Ok(Page(all[..n], CursorFor(Some(all[n - 1]), kind, j)))
  {
    hide EncodeCursor, Descending, Below;
    if after.Some? {
      CursorResumesItsKindOnly(limit, CursorState(kind, after.value), kind, j);
    }
    var all := Descending(Below(ids, after));
    var n := Limit(limit);
    if |all| > n + 1 {
      assert all[..n + 1][..n] == all[..n];
    }
  }

  // ----- following cursors --------------------------------------------------

  /** A row seen by every request of the walk that was made. */
  ghost predicate PresentThroughout(tables: seq<set<int>>, pages: nat, x: int) {
    forall k :: 0 <= k < pages && k < |tables| ==> x in tables[k]
  }

  ghost predicate SeenSomewhere(tables: seq<set<int>>, x: int) {
    exists k :: 0 <= k < |tables| && x in tables[k]
  }

  /** What a walk that starts below `after` promises, whatever the table does meanwhile. */
  ghost predicate GoodWalk(tables: seq<set<int>>, after: Option<int>, w: Walk) {
    && StrictlyDescending(w.items)
    && (forall x :: x in w.items ==> SeenSomewhere(tables, x) && (after.Some? ==> x < after.value))
    && (w.finished ==> forall x {:trigger x in w.items} ::
          (PresentThroughout(tables, w.pages, x) && (after.Some? ==> x < after.value)) ==> x in w.items)
    && w.pages <= |tables| && (w.finished ==> 1 <= w.pages)
  }

  lemma PrependPage(tables: seq<set<int>>, after: Option<int>, page: seq<int>, last: int, rest: Walk)
    requires tables != [] && page != [] && last == page[|page| - 1]
    requires StrictlyDescending(page)
    requires forall x :: x in page ==> x in tables[0] && (after.Some? ==> x < after.value)
    requires forall x :: x in tables[0] && (after.Some? ==> x < after.value) && x >= last ==> x in page
    requires GoodWalk(tables[1..], Some(last), rest)
    ensures GoodWalk(tables, after, Walk(page + rest.items, rest.pages + 1, rest.finished))
  {
    var w := Walk(page + rest.items, rest.pages + 1, rest.finished);
    assert last in page;
    forall i, k | 0 <= i < k < |w.items|
      ensures w.items[i] > w.items[k]
    {
      if i < |page| <= k {
        assert page[i] >= last;
        assert rest.items[k - |page|] in rest.items;
      }
    }
    forall x | x in w.items
      ensures SeenSomewhere(tables, x) && (after.Some? ==> x < after.value)
    {
      if x in page {
        assert x in tables[0];
      } else {
        assert x in rest.items;
        SeenLater(tables, x);
      }
    }
    if w.finished {
      forall x | PresentThroughout(tables, w.pages, x) && (after.Some? ==> x < after.value) && SeenSomewhere(tables, x)
        ensures x in w.items
      {
        assert x in tables[0];
        if x < last {
          PresentLater(tables, w.pages, x);
        }
      }
    }
  }

  lemma SeenLater(tables: seq<set<int>>, x: int)
    requires tables != [] && SeenSomewhere(tables[1..], x)
    ensures SeenSomewhere(tables, x)
  {
    var k :| 0 <= k < |tables| - 1 && x in tables[1..][k];
    assert x in tables[k + 1];
  }

  lemma PresentLater(tables: seq<set<int>>, pages: nat, x: int)
    requires 2 <= pages <= |tables| && PresentThroughout(tables, pages, x)
    ensures PresentThroughout(tables[1..], pages - 1, x) && SeenSomewhere(tables[1..], x)
  {
    forall k | 0 <= k < pages - 1 && k < |tables| - 1
      ensures x in tables[1..][k]
    {
      assert x in tables[k + 1];
    }
    assert x in tables[1..][0];
  }

  /**
   Following cursors over a table that other requests change at will: ids come out
   strictly descending, so none twice; every row returned was there; and if the
   walk ends, no row present throughout was missed.
   */
  lemma {:induction false} WalkEnumerates(tables: seq<set<int>>, limit: Option<int>, after: Option<int>,
                                          kind: string, j: Json)
    requires Faithful(j) && ValidLimit(limit)
    ensures GoodWalk(tables, after, Follow(tables, limit, CursorFor(after, kind, j), kind, j))
    decreases |tables|
  {
    hide List, GoodWalk, CursorFor, Descending, Below;
    if tables == [] {
      EmptyWalk(after);
    } else {
      PageIsExact(tables[0], limit, after, kind, j);
      var all := Descending(Below(tables[0], after));
      var n := Limit(limit);
      CursorIsSome(all, n, kind, j);
      if |all| <= n {
        LastPage(tables, after);
      } else {
        WalkEnumerates(tables[1..], limit, Some(all[n - 1]), kind, j);
        var rest := Follow(tables[1..], limit, CursorFor(Some(all[n - 1]), kind, j), kind, j);
        FullPage(tables, after, n, rest);
      }
    }
  }

  lemma CursorIsSome(all: seq<int>, n: nat, kind: string, j: Json)
    ensures 1 <= n < |all| ==> CursorFor(Some(all[n - 1]), kind, j).Some?
    ensures CursorFor(None, kind, j).None?
  {
  }

  lemma EmptyWalk(after: Option<int>)
    ensures GoodWalk([], after, Walk([], 0, false))
  {
  }

  lemma LastPage(tables: seq<set<int>>, after: Option<int>)
    requires tables != []
    ensures GoodWalk(tables, after, Walk(Descending(Below(tables[0], after)), 1, true))
  {
    hide Descending;
    DescendingIsSorted(Below(tables[0], after));
    forall x | PresentThroughout(tables, 1, x)
      ensures x in tables[0]
    {
    }
  }

  lemma FullPage(tables: seq<set<int>>, after: Option<int>, n: nat, rest: Walk)
    requires tables != [] && 1 <= n < |Descending(Below(tables[0], after))|
    requires GoodWalk(tables[1..], Some(Descending(Below(tables[0], after))[n - 1]), rest)
    ensures GoodWalk(tables, after,
                     Walk(Descending(Below(tables[0], after))[..n] + rest.items, rest.pages + 1, rest.finished))
  {
    hide Descending, GoodWalk;
    var all := Descending(Below(tables[0], after));
    var page, last := all[..n], all[n - 1];
    DescendingIsSorted(Below(tables[0], after));
    forall x | x in page
      ensures x in Below(tables[0], after)
    {
      assert x in all;
    }
    forall x | x in Below(tables[0], after) && x >= last
      ensures x in page
    {
      var k :| 0 <= k < |all| && all[k] == x;
      assert k < n && page[k] == x;
    }
    PrependPage(tables, after, page, last, rest);
  }

  /** Ids start at 1 and cursors only go down, so `after` requests are always enough. */
  lemma {:induction false} WalkTerminates(tables: seq<set<int>>, limit: Option<int>, after: int, kind: string, j: Json)
    requires Faithful(j) && ValidLimit(limit)
    requires forall k, x :: 0 <= k < |tables| && x in tables[k] ==> 1 <= x
    requires 1 <= after <= |tables|
    ensures Follow(tables, limit, CursorFor(Some(after), kind, j), kind, j).finished
    decreases |tables|
  {
    hide List, CursorFor, Descending;
    PageIsExact(tables[0], limit, Some(after), kind, j);
    var all := Descending(Below(tables[0], Some(after)));
    var n := Limit(limit);
    CursorIsSome(all, n, kind, j);
    if |all| > n {
      DescendingIsSorted(Below(tables[0], Some(after)));
      assert all[n - 1] in all;
      forall k, x | 0 <= k < |tables| - 1 && x in tables[1..][k]
        ensures 1 <= x
      {
        assert x in tables[k + 1];
      }
      WalkTerminates(tables[1..], limit, all[n - 1], kind, j);
    }
  }

  /** Hence a whole walk ends too, however rows come and go while it runs. */
  lemma WholeWalkTerminates(tables: seq<set<int>>, limit: Option<int>, newest: nat, kind: string, j: Json)
    requires Faithful(j) && ValidLimit(limit) && newest < |tables|
    requires forall k, x :: 0 <= k < |tables| && x in tables[k] ==> 1 <= x
    requires forall x :: x in tables[0] ==> x <= newest
    ensures Follow(tables, limit, None, kind, j).finished
  {
    hide List, Descending;
    PageIsExact(tables[0], limit, None, kind, j);
    var all := Descending(Below(tables[0], None));
    var n := Limit(limit);
    CursorIsSome(all, n, kind, j);
    if |all| > n {
      DescendingIsSorted(Below(tables[0], None));
      assert all[n - 1] in all;
      forall k, x | 0 <= k < |tables| - 1 && x in tables[1..][k]
        ensures 1 <= x
      {
        assert x in tables[k + 1];
      }
      WalkTerminates(tables[1..], limit, all[n - 1], kind, j);
    }
  }

  /** Number of pages for `n` rows: a full one for every `limit` rows, then the last. */
  function PageCount(n: nat, limit: nat): (p: nat)
    requires limit >= 1
    ensures p >= 1
  {
    if n <= limit then 1 else 1 + PageCount(n - limit, limit)
  }

  /** That is `n / limit` rounded up, or one page if there are no rows. */
  lemma {:induction false} PageCountIsCeiling(n: nat, limit: nat)
    requires limit >= 1
    ensures n == 0 ==> PageCount(n, limit) == 1
    ensures n > 0 ==> (PageCount(n, limit) - 1) * limit < n <= PageCount(n, limit) * limit
  {
    if n > limit {
      var p := PageCount(n - limit, limit);
      PageCountIsCeiling(n - limit, limit);
      assert (p - 1) * limit + limit == p * limit;
      assert p * limit + limit == (p + 1) * limit;
    }
  }

  /**
   On a table nobody changes, the walk returns all rows in descending order and
   takes as many requests as there are pages.
   */
  lemma {:induction false} FixedTableWalk(table: set<int>, tables: seq<set<int>>, limit: Option<int>,
                                          after: Option<int>, kind: string, j: Json)
    requires Faithful(j) && ValidLimit(limit)
    requires forall k :: 0 <= k < |tables| ==> tables[k] == table
    requires PageCount(|Below(table, after)|, Limit(limit)) <= |tables|
    ensures Follow(tables, limit, CursorFor(after, kind, j), kind, j)
         == Walk(Descending(Below(table, after)), PageCount(|Below(table, after)|, Limit(limit)), true)
    decreases |tables|
  {
    hide List, CursorFor, Descending, Below;
    var size, n := |Below(table, after)|, Limit(limit);
    DescendingIsSorted(Below(table, after));
    PageIsExact(table, limit, after, kind, j);
    var all := Descending(Below(table, after));
    CursorIsSome(all, n, kind, j);
    if size > n {
      RestIsBelow(table, after, n);
      FixedTableWalk(table, tables[1..], limit, Some(all[n - 1]), kind, j);
      assert all[..n] + all[n..] == all;
    }
  }
}

// Keyset pagination over (created_at, id), newest first.

/** The order of keyset rows: created_at, then id byte by byte. */
module KeyOrder {

  datatype Row = Row(createdAt: int, id: string)

  predicate StrLess(a: string, b: string) {
    if b == "" then false
    else if a == "" then true
    else a[0] < b[0] || (a[0] == b[0] && StrLess(a[1..], b[1..]))
  }

  /** a is a proper prefix of b, or smaller at the first place where they differ. */
  predicate DiffersAt(a: string, b: string, k: nat) {
    k <= |a| && k < |b| && a[..k] == b[..k] && (k == |a| || a[k] < b[k])
  }

  lemma {:induction false} StrLessExactly(a: string, b: string)
    ensures StrLess(a, b) <==> exists k: nat :: DiffersAt(a, b, k)
  {
    if b == "" {
    } else if a == "" || a[0] < b[0] {
      assert DiffersAt(a, b, 0);
    } else if a[0] == b[0] {
      StrLessExactly(a[1..], b[1..]);
      if k: nat :| DiffersAt(a[1..], b[1..], k) {
        assert a[..k + 1] == [a[0]] + a[1..][..k] && b[..k + 1] == [b[0]] + b[1..][..k];
        assert DiffersAt(a, b, k + 1);
      }
      if k: nat :| DiffersAt(a, b, k) {
        assert k > 0;
        assert a[1..][..k - 1] == a[..k][1..] && b[1..][..k - 1] == b[..k][1..];
        assert DiffersAt(a[1..], b[1..], k - 1);
      }
    }
  }

  lemma {:induction false} StrLessTransitive(a: string, b: string, c: string)
    requires StrLess(a, b) && StrLess(b, c)
    ensures StrLess(a, c)
  {
    if a != "" && a[0] == b[0] == c[0] { StrLessTransitive(a[1..], b[1..], c[1..]); }
  }

  lemma {:induction false} StrLessTotal(a: string, b: string)
    ensures StrLess(a, b) || a == b || StrLess(b, a)
    ensures !(StrLess(a, b) && StrLess(b, a))
    ensures a == b ==> !StrLess(a, b)
  {
    if a != "" && b != "" {
      StrLessTotal(a[1..], b[1..]);
      if a[0] == b[0] && a[1..] == b[1..] { assert a == [a[0]] + a[1..] == [b[0]] + b[1..] == b; }
    }
  }

  /** a comes before b in time: the SQL row comparison (created_at, id) < (..., ...). */
  predicate Older(a: Row, b: Row) {
    a.createdAt < b.createdAt || (a.createdAt == b.createdAt && StrLess(a.id, b.id))
  }

  lemma OlderTransitive(a: Row, b: Row, c: Row)
    requires Older(a, b) && Older(b, c)
    ensures Older(a, c)
  {
    if a.createdAt == b.createdAt == c.createdAt { StrLessTransitive(a.id, b.id, c.id); }
  }

  lemma OlderTotal(a: Row, b: Row)
    ensures Older(a, b) || a == b || Older(b, a)
    ensures !(Older(a, b) && Older(b, a)) && !Older(a, a)
  {
    StrLessTotal(a.id, b.id);
    StrLessTotal(a.id, a.id);
  }

  /** ORDER BY created_at DESC, id DESC, no row twice. */
  predicate Descending(s: seq<Row>) { forall i, j :: 0 <= i < j < |s| ==> Older(s[j], s[i]) }

  ghost function Newest(rows: set<Row>): (r: Row)
    requires rows != {}
    ensures r in rows
  {
    var x :| x in rows;
    if rows == {x} then x
    else
      var y := Newest(rows - {x});
      if Older(x, y) then y else x
  }

  lemma {:induction false} NewestIsNewest(rows: set<Row>)
    requires rows != {}
    ensures forall x :: x in rows ==> x == Newest(rows) || Older(x, Newest(rows))
    decreases |rows|
  {
    var r := Newest(rows);
    var x :| x in rows && (r == x || (rows != {x} && r == Newest(rows - {x})))
                       && (rows != {x} ==> if Older(x, Newest(rows - {x})) then r == Newest(rows - {x}) else r == x);
    if rows != {x} {
      var y := Newest(rows - {x});
      NewestIsNewest(rows - {x});
      OlderTotal(x, y);
      forall z | z in rows && z != r ensures Older(z, r) {
        if z != x && r == x && z != y { OlderTransitive(z, y, x); }
      }
    }
  }

  /** The full listing of a set of rows. */
  ghost function Listing(rows: set<Row>): (s: seq<Row>)
    ensures |s| == |rows|
  {
    if rows == {} then [] else [Newest(rows)] + Listing(rows - {Newest(rows)})
  }

  lemma {:induction false} ListingFacts(rows: set<Row>)
    ensures forall r :: r in Listing(rows) <==> r in rows
    ensures Descending(Listing(rows))
    decreases |rows|
  {
    if rows != {} {
      var r := Newest(rows);
      var rest := Listing(rows - {r});
      NewestIsNewest(rows);
      ListingFacts(rows - {r});
      assert Listing(rows) == [r] + rest;
      forall i, j | 0 <= i < j < |rest| + 1 ensures Older(([r] + rest)[j], ([r] + rest)[i]) {
        assert rest[j - 1] in rest;
      }
    }
  }

  /** The listing in the stored columns: each row after newer ones, and after rows of the
      same time with a greater id. */
  lemma ListingIsNewestFirst(rows: set<Row>, i: nat, j: nat)
    requires i < j < |rows|
    ensures var a, b := Listing(rows)[i], Listing(rows)[j];
            b.createdAt < a.createdAt || (b.createdAt == a.createdAt && exists k: nat :: DiffersAt(b.id, a.id, k))
  {
    ListingFacts(rows);
    var a, b := Listing(rows)[i], Listing(rows)[j];
    assert Older(b, a);
    StrLessExactly(b.id, a.id);
  }

  /** There is only one way to list a set of rows newest first. */
  lemma {:induction false} ListingUnique(rows: set<Row>, s: seq<Row>)
    requires Descending(s) && forall r :: r in s <==> r in rows
    ensures s == Listing(rows)
    decreases |s|
  {
    if s != [] {
      assert s[0] in rows;
      var r := Newest(rows);
      NewestIsNewest(rows);
      var i :| 0 <= i < |s| && s[i] == r;
      OlderTotal(s[0], r);
      assert i == 0;
      forall x ensures x in s[1..] <==> x in rows - {r} {
        OlderTotal(r, r);
        if x in s[1..] {
          var j :| 0 <= j < |s| - 1 && s[1..][j] == x;
          assert s[j + 1] == x && Older(s[j + 1], s[0]);
        }
        if x in rows - {r} { assert x in s; }
      }
      ListingUnique(rows - {r}, s[1..]);
    } else {
      assert rows == {};
    }
  }

  datatype Cursor = Start | After(row: Row)

  predicate Past(r: Row, c: Cursor) { c.Start? || Older(r, c.row) }

  /** WHERE (created_at, id) < cursor. */
  ghost function Below(rows: set<Row>, c: Cursor): set<Row> { set r | r in rows && Past(r, c) }

  lemma RestOfDescending(l: seq<Row>, k: nat, r: Row)
    requires Descending(l) && k < |l|
    ensures r in l[k + 1..] <==> r in l && Older(r, l[k])
  {
    if r in l && Older(r, l[k]) {
      var j :| 0 <= j < |l| && l[j] == r;
      OlderTotal(r, l[k]);
      assert j > k;
      assert l[k + 1..][j - k - 1] == r;
    }
  }

  lemma BelowNested(rows: set<Row>, c: Cursor, x: Row)
    requires Past(x, c)
    ensures forall r :: r in Below(rows, After(x)) <==> r in Below(rows, c) && Older(r, x)
  {
    forall r | Older(r, x) ensures Past(r, c) {
      if c.After? { OlderTransitive(r, x, c.row); }
    }
  }

  /** Skipping past the k-th row of a listing leaves the rest of the listing. */
  lemma ListingBelow(rows: set<Row>, c: Cursor, k: nat)
    requires k < |Listing(Below(rows, c))|
    ensures var l := Listing(Below(rows, c)); Listing(Below(rows, After(l[k]))) == l[k + 1..]
  {
    var l := Listing(Below(rows, c));
    ListingFacts(Below(rows, c));
    assert l[k] in l;
    BelowNested(rows, c, l[k]);
    forall r ensures r in l[k + 1..] <==> r in Below(rows, After(l[k])) {
      RestOfDescending(l, k, r);
    }
    ListingUnique(Below(rows, After(l[k])), l[k + 1..]);
  }
}

module Pagination {
  import opened Decimal
  import opened KeyOrder

  // ---- Request and envelope ----

  datatype Page = Page(limit: int, order: string, cursor: Cursor)

  datatype PageResult = Ok(page: Page) | BadLimit | BadCursor

  /** What a cursor parameter decodes to; the token itself is opaque. */
  datatype Token = NoToken | Garbled | Token(row: Row)

  /** Exactly the limits that parse to a positive int are accepted; the result is
      that number, capped at 100, or 20 when none is given. */
  method ParsePage(limit: string, order: string, cursor: Token) returns (r: PageResult)
    ensures r.BadLimit? <==> limit != "" && (Atoi(limit).NotANumber? || Atoi(limit).n < 1)
    ensures r.BadCursor? <==> !r.BadLimit? && cursor.Garbled?
    ensures r.Ok? ==> 1 <= r.page.limit <= 100
    ensures r.Ok? ==> r.page.limit == if limit == "" then 20 else if Atoi(limit).n > 100 then 100 else Atoi(limit).n
    ensures r.Ok? ==> r.page.order == (if order == "asc" then "asc" else "desc")
    ensures r.Ok? ==> r.page.cursor == if cursor.Token? then After(cursor.row) else Start
  {
    var p := Page(20, "desc", Start);
    if limit != "" {
      match Atoi(limit) {
        case NotANumber => return BadLimit;
        case Number(n) =>
          if n < 1 { return BadLimit; }
          p := p.(limit := if n > 100 then 100 else n);
      }
    }
    if order == "asc" || order == "desc" {
      p := p.(order := order);
    }
    match cursor {
      case NoToken =>
      case Garbled => return BadCursor;
      case Token(row) => p := p.(cursor := After(row));
    }
    return Ok(p);
  }

  datatype Envelope = Envelope(items: seq<Row>, next: Token, hasMore: bool)

  method NewList(items: seq<Row>, limit: int) returns (out: Envelope)
    ensures out.items == items && out.next == NextOf(items, limit) && (out.hasMore <==> out.next.Token?)
  {
    out := Envelope(items, NoToken, false);
    if |items| == limit && limit > 0 {
      out := out.(next := Token(items[|items| - 1]));
      out := out.(hasMore := true);
    }
  }

  /** A full page points at its last row, any other page at nothing. */
  function NextOf(items: seq<Row>, limit: int): Token {
    if |items| == limit && limit > 0 then Token(items[|items| - 1]) else NoToken
  }

  // ---- Queries ----

  function Take(s: seq<Row>, limit: nat): seq<Row> { if |s| <= limit then s else s[..limit] }

  /** SELECT ... WHERE (created_at, id) < cursor ORDER BY ... DESC LIMIT limit, on the
      rows that satisfy the other filters. The order parameter is not consulted. */
  ghost function Query(rows: set<Row>, c: Cursor, limit: nat): seq<Row> {
    Take(Listing(Below(rows, c)), limit)
  }

  /** A row of the files table as far as its listing goes. */
  datatype FileRow = FileRow(key: Row, tenant: string, status: string, instance: string)

  /** ListFiles' filters; an empty parameter does not filter. */
  predicate Matches(f: FileRow, tenant: string, status: string, instance: string) {
    f.tenant == tenant && (status == "" || f.status == status) && (instance == "" || f.instance == instance)
  }

  ghost function Matching(table: set<FileRow>, tenant: string, status: string, instance: string): set<Row> {
    set f | f in table && Matches(f, tenant, status, instance) :: f.key
  }

  // ---- Following nextCursor over a table that does not change ----

  ghost function Walk(rows: set<Row>, c: Cursor, limit: nat): (pages: seq<seq<Row>>)
    requires limit >= 1
    decreases |Below(rows, c)|
  {
    var page := Query(rows, c, limit);
    match NextOf(page, limit)
    case Token(last) =>
      ListingBelow(rows, c, limit - 1);
      assert |Below(rows, After(last))| == |Listing(Below(rows, c))[limit..]| < |Below(rows, c)|;
      [page] + Walk(rows, After(last), limit)
    case _ => [page]
  }

  function Concat(pages: seq<seq<Row>>): seq<Row> { if pages == [] then [] else pages[0] + Concat(pages[1..]) }

  lemma QueryNext(rows: set<Row>, c: Cursor, limit: nat)
    requires limit >= 1
    ensures var l := Listing(Below(rows, c));
            if |l| < limit then Query(rows, c, limit) == l && NextOf(l, limit) == NoToken
            else Query(rows, c, limit) == l[..limit] && NextOf(l[..limit], limit) == Token(l[limit - 1])
  {
  }

  lemma WalkFull(rows: set<Row>, c: Cursor, limit: nat, page: seq<Row>, last: Row)
    requires limit >= 1 && Query(rows, c, limit) == page && NextOf(page, limit) == Token(last)
    ensures Walk(rows, c, limit) == [page] + Walk(rows, After(last), limit)
  {
  }

  lemma WalkLast(rows: set<Row>, c: Cursor, limit: nat, page: seq<Row>)
    requires limit >= 1 && Query(rows, c, limit) == page && NextOf(page, limit) == NoToken
    ensures Walk(rows, c, limit) == [page]
  {
  }

  lemma ConcatCons(page: seq<Row>, pages: seq<seq<Row>>)
    ensures Concat([page] + pages) == page + Concat(pages)
  {
    assert ([page] + pages)[1..] == pages;
  }

  /** The pages put together are the full listing ... */
  lemma {:induction false} WalkIsListing(rows: set<Row>, c: Cursor, limit: nat)
    requires limit >= 1
    ensures Concat(Walk(rows, c, limit)) == Listing(Below(rows, c))
    decreases |Below(rows, c)|
  {
    var l := Listing(Below(rows, c));
    QueryNext(rows, c, limit);
    if |l| >= limit {
      var last := l[limit - 1];
      ListingBelow(rows, c, limit - 1);
      assert |Below(rows, After(last))| == |l[limit..]|;
      WalkIsListing(rows, After(last), limit);
      WalkFull(rows, c, limit, l[..limit], last);
      ConcatCons(l[..limit], Walk(rows, After(last), limit));
      assert l == l[..limit] + l[limit..];
    } else {
      WalkLast(rows, c, limit, l);
      ConcatCons(l, []);
      assert [l] + [] == [l] && l + [] == l;
    }
  }

  /** The number of pages of n rows: one more for every full page. */
  function PageCount(n: nat, limit: nat): nat
    requires limit >= 1
  {
    if n < limit then 1 else 1 + PageCount(n - limit, limit)
  }

  lemma {:induction false} WalkPageCount(rows: set<Row>, c: Cursor, limit: nat)
    requires limit >= 1
    ensures |Walk(rows, c, limit)| == PageCount(|Below(rows, c)|, limit)
    decreases |Below(rows, c)|
  {
    var l := Listing(Below(rows, c));
    QueryNext(rows, c, limit);
    if |l| >= limit {
      var last := l[limit - 1];
      ListingBelow(rows, c, limit - 1);
      assert |Below(rows, After(last))| == |l[limit..]| == |l| - limit;
      WalkPageCount(rows, After(last), limit);
      WalkFull(rows, c, limit, l[..limit], last);
    } else {
      WalkLast(rows, c, limit, l);
    }
  }

  /** ... and there are n / limit + 1 of them. */
  lemma {:induction false} PageCountIs(n: nat, limit: nat)
    requires limit >= 1
    ensures PageCount(n, limit) == n / limit + 1
  {
    if n >= limit {
      PageCountIs(n - limit, limit);
      OneMorePage(n, limit);
    }
  }

  lemma MulAtLeast(d: int, x: int)
    requires d >= 1 && x >= 1
    ensures d * x >= d
  {
  }

  lemma OneMorePage(n: nat, limit: nat)
    requires 1 <= limit <= n
    ensures n / limit == (n - limit) / limit + 1
  {
    var k, q := n / limit, (n - limit) / limit + 1;
    assert limit * k + n % limit == n == limit * q + (n - limit) % limit;
    assert limit * (k - q) == (n - limit) % limit - n % limit;
    if k > q {
      MulAtLeast(limit, k - q);
    } else if k < q {
      assert limit * (q - k) == n % limit - (n - limit) % limit;
      MulAtLeast(limit, q - k);
    }
  }

  /** A file listing followed to its end, for any filters. */
  lemma FileListingComplete(table: set<FileRow>, tenant: string, status: string, instance: string, limit: nat)
    requires 1 <= limit <= 100
    ensures var rows := Matching(table, tenant, status, instance);
            && Concat(Walk(rows, Start, limit)) == Listing(rows)
            && |Walk(rows, Start, limit)| == |rows| / limit + 1
            && (forall r :: r in Concat(Walk(rows, Start, limit)) <==>
                  exists f :: f in table && f.key == r && f.tenant == tenant
                              && (status == "" || f.status == status) && (instance == "" || f.instance == instance))
  {
    var rows := Matching(table, tenant, status, instance);
    assert Below(rows, Start) == rows;
    ListingFacts(rows);
    WalkIsListing(rows, Start, limit);
    WalkPageCount(rows, Start, limit);
    PageCountIs(|rows|, limit);
  }

  // ---- Following nextCursor while rows come and go ----

  /** tables[i] is what the i-th page request sees. */
  ghost function WalkOver(tables: seq<set<Row>>, c: Cursor, limit: nat): seq<seq<Row>>
    requires limit >= 1
  {
    if tables == [] then [] else
    var page := Query(tables[0], c, limit);
    match NextOf(page, limit)
    case Token(last) => [page] + WalkOver(tables[1..], After(last), limit)
    case _ => [page]
  }

  /** The walk reached a page that was not full. */
  ghost predicate Finished(pages: seq<seq<Row>>, limit: nat) {
    pages != [] && |pages[|pages| - 1]| < limit
  }

  lemma QueryFacts(rows: set<Row>, c: Cursor, limit: nat)
    requires limit >= 1
    ensures var page := Query(rows, c, limit);
            && Descending(page)
            && (forall r :: r in page ==> r in rows && Past(r, c))
            && (forall r :: r in rows && Past(r, c) && r !in page
                            ==> |page| == limit && Older(r, page[limit - 1]))
  {
    var l := Listing(Below(rows, c));
    var page := Query(rows, c, limit);
    ListingFacts(Below(rows, c));
    assert forall i :: 0 <= i < |page| ==> page[i] == l[i] && page[i] in page;
    forall r | r in rows && Past(r, c) && r !in page
      ensures |page| == limit && Older(r, page[limit - 1])
    {
      assert r in l;
      var j :| 0 <= j < |l| && l[j] == r;
    }
    assert forall r :: r in page ==> r in l;
  }

  lemma {:induction false} ConcatDescending(page: seq<Row>, rest: seq<Row>)
    requires Descending(page) && Descending(rest)
    requires page != [] ==> forall r :: r in rest ==> Older(r, page[|page| - 1])
    ensures Descending(page + rest)
  {
    var s := page + rest;
    forall i, j | 0 <= i < j < |s| ensures Older(s[j], s[i]) {
      if i < |page| <= j {
        assert s[j] == rest[j - |page|] && s[j] in rest;
        if i < |page| - 1 { OlderTransitive(s[j], page[|page| - 1], page[i]); }
      }
    }
  }

  /** What a walk promises: order, provenance, and completeness once finished. */
  ghost predicate GoodWalk(tables: seq<set<Row>>, c: Cursor, limit: nat, pages: seq<seq<Row>>) {
    && |pages| <= |tables|
    && Descending(Concat(pages))
    && (forall r :: r in Concat(pages) ==> Past(r, c) && exists i :: 0 <= i < |pages| && r in tables[i])
    && (Finished(pages, limit) ==> forall r :: r in Throughout(tables, |pages|) && Past(r, c) ==> r in Concat(pages))
  }

  /** The rows present at each of the first n requests. */
  ghost function Throughout(tables: seq<set<Row>>, n: nat): set<Row>
    requires n <= |tables|
  {
    if n == 0 || tables == [] then {}
    else set r | r in tables[0] && forall i :: 0 <= i < n ==> r in tables[i]
  }

  lemma FullPageWalk(tables: seq<set<Row>>, c: Cursor, limit: nat, page: seq<Row>, more: seq<seq<Row>>)
    requires limit >= 1 && tables != [] && page == Query(tables[0], c, limit) && |page| == limit
    requires GoodWalk(tables[1..], After(page[limit - 1]), limit, more)
    ensures GoodWalk(tables, c, limit, [page] + more)
  {
    var last := page[limit - 1];
    var pages := [page] + more;
    QueryFacts(tables[0], c, limit);
    ConcatCons(page, more);
    ConcatDescending(page, Concat(more));
    assert last in page;
    forall r | r in Concat(pages) ensures Past(r, c) && exists i :: 0 <= i < |pages| && r in tables[i] {
      if r in page {
        assert r in tables[0];
      } else {
        var i :| 0 <= i < |more| && r in tables[1..][i];
        assert r in tables[i + 1];
        if c.After? { OlderTransitive(r, last, c.row); }
      }
    }
    if Finished(pages, limit) {
      assert more != [] && more[|more| - 1] == pages[|pages| - 1];
      forall r | r in Throughout(tables, |pages|) && Past(r, c) ensures r in Concat(pages) {
        if r !in page {
          assert Past(r, After(last));
          assert forall i :: 0 <= i < |more| ==> tables[1..][i] == tables[i + 1];
          assert r in Throughout(tables[1..], |more|);
        }
      }
    }
  }

  lemma LastPageWalk(tables: seq<set<Row>>, c: Cursor, limit: nat, page: seq<Row>)
    requires limit >= 1 && tables != [] && page == Query(tables[0], c, limit) && |page| != limit
    ensures GoodWalk(tables, c, limit, [page])
  {
    QueryFacts(tables[0], c, limit);
    ConcatCons(page, []);
    assert [page] + [] == [page] && Concat([]) == [] && page + [] == page;
    forall r | r in page ensures Past(r, c) && exists i :: 0 <= i < 1 && r in tables[i] {
      assert r in tables[0];
    }
  }

  lemma WalkOverUnfolds(tables: seq<set<Row>>, c: Cursor, limit: nat)
    requires limit >= 1 && tables != []
    ensures var page := Query(tables[0], c, limit);
            WalkOver(tables, c, limit)
              == if |page| == limit then [page] + WalkOver(tables[1..], After(page[limit - 1]), limit) else [page]
  {
  }

  /** Whatever is inserted or deleted between the requests, the rows come out strictly
      newest first, so none twice, and a walk that reached its end contains every row
      that was there (past the starting cursor) at each of its requests. */
  lemma {:induction false} WalkOverChanges(tables: seq<set<Row>>, c: Cursor, limit: nat)
    requires limit >= 1
    ensures GoodWalk(tables, c, limit, WalkOver(tables, c, limit))
  {
    if tables != [] {
      var page := Query(tables[0], c, limit);
      WalkOverUnfolds(tables, c, limit);
      if |page| == limit {
        var rest := After(page[limit - 1]);
        WalkOverChanges(tables[1..], rest, limit);
        FullPageWalk(tables, c, limit, page, WalkOver(tables[1..], rest, limit));
      } else {
        LastPageWalk(tables, c, limit, page);
      }
    }
  }
}

/**
 Paged listing of files: the client's loop over page tokens, the server's page size, and the
 store's offset, lookahead row and next token, over one fixed ordered snapshot of rows.
 */
module Paging {
  import opened Wrappers

  const MAX_PAGE_SIZE := 100
  const DEFAULT_PAGE_SIZE := 10
  const SERVER_PAGE_SIZE := 100

  // The range of a 64-bit int.
  const MIN_INT := -0x8000_0000_0000_0000
  const MAX_INT := 0x7fff_ffff_ffff_ffff
  const TWO_64 := 0x1_0000_0000_0000_0000

  predicate Fits(n: int) {
    MIN_INT <= n <= MAX_INT
  }

  function Wrap(n: int): (r: int)
    ensures Fits(r)
    ensures Fits(n) ==> r == n
  {
    (n - MIN_INT) % TWO_64 + MIN_INT
  }

  lemma {:induction false} WrapIsPeriodic(n: int, k: nat)
    ensures Wrap(n + k * TWO_64) == Wrap(n)
  {
    if k > 0 {
      WrapIsPeriodic(n, k - 1);
      OnePeriod(n + (k - 1) * TWO_64 - MIN_INT);
    }
  }

  lemma OnePeriod(n: int)
    ensures (n + TWO_64) % TWO_64 == n % TWO_64
  {
    var q := n / TWO_64;
    assert n + TWO_64 == (q + 1) * TWO_64 + n % TWO_64;
  }

  // Wrapping a summand first changes nothing.
  lemma WrapOfWrap(n: int, m: int)
    ensures Wrap(Wrap(n) + m) == Wrap(n + m)
  {
    var k := (n - MIN_INT) / TWO_64;
    assert n == Wrap(n) + k * TWO_64;
    if k >= 0 {
      WrapIsPeriodic(Wrap(n) + m, k);
    } else {
      WrapIsPeriodic(n + m, -k);
    }
  }

  /* ---- page tokens ---- */

  function Digit(d: nat): char
    requires d < 10
  {
    '0' + d as char
  }

  function Digits(n: nat): (s: string)
    ensures s != "" && AllDigits(s) && Value(s) == n
  {
    if n < 10 then [Digit(n)] else Digits(n / 10) + [Digit(n % 10)]
  }

  predicate AllDigits(s: string) {
    forall i | 0 <= i < |s| :: '0' <= s[i] <= '9'
  }

  function Value(s: string): nat
    requires AllDigits(s)
  {
    if s == "" then 0
    else
      10 * Value(s[..|s| - 1]) + (s[|s| - 1] - '0') as nat
  }

  function Itoa(n: int): string {
    if n < 0 then "-" + Digits(-n) else Digits(n)
  }

  // An optional sign, at least one digit, and a value that fits.
  function Atoi(s: string): Option<int> {
    var signed := s != "" && (s[0] == '-' || s[0] == '+');
    var digits := if signed then s[1..] else s;
    if digits == "" || !AllDigits(digits) then None
    else
      var n: int := if signed && s[0] == '-' then 0 - Value(digits) else Value(digits);
      if Fits(n) then Some(n) else None
  }

  // A written token reads back as the page it was written for.
  lemma TokenRoundTrip(page: int)
    requires Fits(page)
    ensures Itoa(page) != "" && Atoi(Itoa(page)) == Some(page)
  {
    if page < 0 {
      var digits := Digits(-page);
      assert ("-" + digits)[1..] == digits;
      assert Itoa(page) == "-" + digits;
    } else {
      var digits := Digits(page);
      assert digits[0] != '-' && digits[0] != '+';
      assert Itoa(page) == digits;
    }
  }

  // A token is readable if it is an optional sign and digits whose value fits into 64 bits.
  predicate Denotes(s: string, digits: string, page: int) {
    && digits != "" && AllDigits(digits) && Fits(page)
    && (((s == digits || s == "+" + digits) && page == Value(digits))
        || (s == "-" + digits && page == 0 - Value(digits)))
  }

  ghost predicate Readable(s: string, page: int) {
    exists digits: string :: Denotes(s, digits, page)
  }

  // Exactly the readable tokens are read, as the page they denote.
  lemma AtoiIff(s: string, page: int)
    ensures Atoi(s) == Some(page) <==> Readable(s, page)
  {
    var signed := s != "" && (s[0] == '-' || s[0] == '+');
    var digits := if signed then s[1..] else s;
    if Atoi(s) == Some(page) {
      assert signed ==> s == [s[0]] + digits;
      assert Denotes(s, digits, page);
    }
    if ds: string :| Denotes(s, ds, page) {
      assert ds[0] != '-' && ds[0] != '+';
      assert digits == ds;
    }
  }

  /* ---- the store ---- */

  datatype Pagination = Pagination(page: int, pageSize: int)

  datatype Listing<T> = Listing(files: seq<T>, next: string)

  function Clamp(pageSize: int): (r: int)
    ensures r == if pageSize > 100 then 100 else if pageSize < 1 then 10 else pageSize
    ensures 1 <= r <= MAX_PAGE_SIZE
    ensures 1 <= pageSize <= MAX_PAGE_SIZE ==> r == pageSize
  {
    if pageSize > MAX_PAGE_SIZE then MAX_PAGE_SIZE else if pageSize <= 0 then DEFAULT_PAGE_SIZE else pageSize
  }

  // An unreadable token asks for the first page.
  function Paginate(token: string, pageSize: int): Pagination {
    var page := if token == "" then 1 else match Atoi(token) case Some(n) => n case None => 1;
    Pagination(page, Clamp(pageSize))
  }

  // The page asked for is the one the token denotes, else the first.
  lemma PaginateReads(token: string, pageSize: int)
    ensures forall page | Readable(token, page) :: Paginate(token, pageSize).page == page
    ensures (forall page :: !Readable(token, page)) ==> Paginate(token, pageSize).page == 1
  {
    forall page ensures Atoi(token) == Some(page) <==> Readable(token, page) {
      AtoiIff(token, page);
    }
    if Atoi(token).Some? {
      assert Readable(token, Atoi(token).value);
    }
    assert token == "" ==> Atoi(token) == None;
  }

  // The first row of a page; the query ignores an offset that is not positive.
  function Offset(p: Pagination): nat {
    var page := if p.page == 0 then 1 else p.page;
    var offset := Wrap((page - 1) * Clamp(p.pageSize));
    if offset > 0 then offset else 0
  }

  function Min(a: nat, b: nat): nat {
    if a <= b then a else b
  }

  function Slice<T>(rows: seq<T>, lo: nat, hi: nat): seq<T>
    requires lo <= hi
  {
    rows[Min(lo, |rows|)..Min(hi, |rows|)]
  }

  // The query: one row more than the page.
  function Found<T>(rows: seq<T>, p: Pagination): seq<T> {
    Slice(rows, Offset(p), Offset(p) + Clamp(p.pageSize) + 1)
  }

  // None is the slice expression out of range.
  function Page<T>(rows: seq<T>, p: Pagination): Option<Listing<T>> {
    var found := Found(rows, p);
    if |found| != p.pageSize + 1 then Some(Listing(found, ""))
    else if found == [] then None
    else Some(Listing(found[..|found| - 1], Itoa(Wrap(p.page + 1))))
  }

  // What a page is meant to be: its rows, and a token exactly when rows follow.
  ghost predicate IsPage<T>(rows: seq<T>, page: int, lo: nat, size: nat, r: Option<Listing<T>>) {
    r == Some(Listing(Slice(rows, lo, lo + size), if lo + size < |rows| then Itoa(page + 1) else ""))
  }

  lemma MulOrder(a: int, b: int, size: nat)
    requires size >= 1
    ensures a < b <==> a * size < b * size
    ensures (a + 1) * size == a * size + size
  {
  }

  lemma FittingPageIsAPage<T>(rows: seq<T>, p: Pagination, lo: int)
    requires 1 <= p.page && 1 <= p.pageSize <= MAX_PAGE_SIZE
    requires lo == (p.page - 1) * p.pageSize && Fits(lo) && |rows| <= MAX_INT
    ensures lo >= 0 && IsPage(rows, p.page, lo, p.pageSize, Page(rows, p))
  {
    MulOrder(p.page - 1, 0, p.pageSize);
    OffsetOfPage(p);
    var found := Found(rows, p);
    assert found == Slice(rows, lo, lo + p.pageSize + 1);
    if lo + p.pageSize < |rows| {
      PageIsBelowRow(p.page, p.pageSize);
      assert found[..|found| - 1] == Slice(rows, lo, lo + p.pageSize);
    } else {
      assert found == Slice(rows, lo, lo + p.pageSize);
    }
  }

  // A page whose first row is beyond 64 bits is empty, and is answered from the wrapped offset.
  lemma OverflowingPageIsAPageIff<T>(rows: seq<T>, p: Pagination, lo: nat)
    requires 1 <= p.pageSize <= MAX_PAGE_SIZE && lo > MAX_INT && |rows| <= MAX_INT
    ensures IsPage(rows, p.page, lo, p.pageSize, Page(rows, p)) <==> Offset(p) >= |rows|
  {
    var found := Found(rows, p);
    assert Slice(rows, lo, lo + p.pageSize) == [];
    if Offset(p) < |rows| {
      assert |found| >= 1 && (|found| == p.pageSize + 1 ==> |found[..|found| - 1]| >= 1);
    }
  }

  // From page 1 on and with a clamped size, a listing is the page asked for exactly when the
  // offset fits into 64 bits or wraps to one behind the last row.
  lemma ClampedPageIsAPageIff<T>(rows: seq<T>, p: Pagination, lo: int)
    requires 1 <= p.page && Fits(p.page) && 1 <= p.pageSize <= MAX_PAGE_SIZE
    requires lo == (p.page - 1) * p.pageSize && |rows| <= MAX_INT
    ensures lo >= 0
    ensures IsPage(rows, p.page, lo, p.pageSize, Page(rows, p)) <==> Fits(lo) || Offset(p) >= |rows|
  {
    MulOrder(p.page - 1, 0, p.pageSize);
    if Fits(lo) {
      FittingPageIsAPage(rows, p, lo);
    } else {
      OverflowingPageIsAPageIff(rows, p, lo);
    }
  }

  lemma PageIsBelowRow(page: int, size: int)
    requires page >= 1 && size >= 1
    ensures page <= (page - 1) * size + size
  {
    MulOrder(page - 1, page, size);
    assert page * size >= page;
  }

  lemma OffsetOfPage(p: Pagination)
    requires 1 <= p.pageSize <= MAX_PAGE_SIZE && Fits((p.page - 1) * p.pageSize)
    ensures Offset(p) == if p.page >= 1 then (p.page - 1) * p.pageSize else 0
  {
    MulOrder(p.page - 1, 0, p.pageSize);
  }

  // From page 1 on and with a clamped size, when a listing is the page asked for.
  ghost predicate IsListing<T>(rows: seq<T>, p: Pagination, r: Option<Listing<T>>) {
    1 <= p.page && Fits(p.page) && 1 <= p.pageSize <= MAX_PAGE_SIZE && |rows| <= MAX_INT ==>
      var lo := (p.page - 1) * p.pageSize;
      lo >= 0 && (IsPage(rows, p.page, lo, p.pageSize, r) <==> Fits(lo) || Offset(p) >= |rows|)
  }

  lemma ClampedListing<T>(rows: seq<T>, p: Pagination)
    ensures IsListing(rows, p, Page(rows, p))
  {
    if 1 <= p.page && Fits(p.page) && 1 <= p.pageSize <= MAX_PAGE_SIZE && |rows| <= MAX_INT {
      ClampedPageIsAPageIff(rows, p, (p.page - 1) * p.pageSize);
    }
  }

  method List<T>(rows: seq<T>, p: Pagination) returns (r: Option<Listing<T>>)
    ensures r == Page(rows, p)
    ensures IsListing(rows, p, r)
  {
    ClampedListing(rows, p);
    var files, nextPageToken := Found(rows, p), "";
    if |files| == p.pageSize + 1 {
      nextPageToken := Itoa(Wrap(p.page + 1));
      if |files| == 0 {
        return None;
      }
      files := files[..|files| - 1];
    }
    return Some(Listing(files, nextPageToken));
  }

  /* ---- pagination set directly, without Paginate ---- */

  ghost predicate ActsClamped<T(!new)>(pageSize: int) {
    forall rows: seq<T>, page: int ::
      Page(rows, Pagination(page, pageSize)) == Page(rows, Pagination(page, Clamp(pageSize)))
  }

  // The query clamps the size again, but the trim and the token test use the size as given.
  lemma DirectSizeWorksIff<T(!new)>(x: T, pageSize: int)
    ensures ActsClamped<T>(pageSize) <==> 1 <= pageSize <= MAX_PAGE_SIZE
  {
    if !(1 <= pageSize <= MAX_PAGE_SIZE) {
      var n := if pageSize > MAX_PAGE_SIZE then 101 else if pageSize == -1 then 0 else if pageSize == 0 then 1 else 11;
      var rows := seq(n, _ => x);
      var raw, clamped := Pagination(1, pageSize), Pagination(1, Clamp(pageSize));
      assert Offset(raw) == 0 && Offset(clamped) == 0;
      assert Found(rows, raw) == rows && Found(rows, clamped) == rows;
      assert Page(rows, raw) != Page(rows, clamped);
    }
  }

  // The product the offset is made of, in 64 bits.
  function RawOffset(p: Pagination): int {
    Wrap((p.page - 1) * Clamp(p.pageSize))
  }

  // The next page's product is this one's plus the size, wrapped.
  lemma NextRawOffset(p: Pagination)
    requires Fits(p.page) && 1 <= p.pageSize <= MAX_PAGE_SIZE
    ensures RawOffset(Pagination(Wrap(p.page + 1), p.pageSize)) == Wrap(RawOffset(p) + p.pageSize)
  {
    var s := p.pageSize;
    MulOrder(p.page - 1, p.page, s);
    WrapOfWrap((p.page - 1) * s, s);
    assert Wrap(RawOffset(p) + s) == Wrap(p.page * s);
    if p.page == MAX_INT {
      OnePeriod(MIN_INT - MIN_INT);
      assert Wrap(p.page + 1) == p.page + 1 - TWO_64;
      assert (p.page - TWO_64) * s + s * TWO_64 == p.page * s;
      WrapIsPeriodic((p.page - TWO_64) * s, s);
    }
  }

  lemma OffsetIsRaw(p: Pagination)
    ensures Offset(p) == if p.page == 0 || RawOffset(p) < 0 then 0 else RawOffset(p)
  {
  }

  lemma NextOffsetIff(p: Pagination)
    requires Fits(p.page) && 1 <= p.pageSize <= MAX_PAGE_SIZE && Offset(p) + p.pageSize <= MAX_INT
    ensures Offset(Pagination(Wrap(p.page + 1), p.pageSize)) == Offset(p) + p.pageSize
      <==> p.page != 0 && RawOffset(p) >= 0
  {
    var next := Pagination(Wrap(p.page + 1), p.pageSize);
    OffsetIsRaw(p);
    OffsetIsRaw(next);
    NextRawOffset(p);
    assert p.page == 0 ==> RawOffset(p) == -p.pageSize;
    assert p.page == -1 ==> RawOffset(p) == -2 * p.pageSize;
    assert next.page == 0 <==> p.page == -1;
  }

  // A next token names the page one further, in 64 bits, and leads to the row after the last one
  // returned exactly if this page is not "0" and its own product did not come out negative.
  lemma TokenAdvancesIff<T>(rows: seq<T>, p: Pagination, r: Listing<T>)
    requires Fits(p.page) && 1 <= p.pageSize <= MAX_PAGE_SIZE && |rows| <= MAX_INT
    requires Page(rows, p) == Some(r) && r.next != ""
    ensures Paginate(r.next, p.pageSize) == Pagination(Wrap(p.page + 1), p.pageSize)
    ensures Offset(Paginate(r.next, p.pageSize)) == Offset(p) + |r.files|
      <==> p.page != 0 && Wrap((p.page - 1) * p.pageSize) >= 0
  {
    TokenLeadsTo(Wrap(p.page + 1), p.pageSize);
    assert |r.files| == p.pageSize && r.next == Itoa(Wrap(p.page + 1)) && Offset(p) + p.pageSize < |rows|;
    NextOffsetIff(p);
  }

  // Besides "0" and the tokens below it that is so for huge ones: this page's product wraps to
  // -16, so it lists the first rows, and the next page starts at row 84.
  lemma HugeTokenGoesBack<T>(rows: seq<T>, page: int)
    requires |rows| == 200 && page == 184467440737095517
    ensures Page(rows, Pagination(page, 100)) == Some(Listing(rows[..100], Itoa(page + 1)))
    ensures Offset(Pagination(page + 1, 100)) == 84
  {
    HugeOffsets(page);
    assert Found(rows, Pagination(page, 100)) == rows[..101];
    assert rows[..101][..100] == rows[..100];
  }

  lemma HugeOffsets(page: int)
    requires page == 184467440737095517
    ensures Offset(Pagination(page, 100)) == 0 && Offset(Pagination(page + 1, 100)) == 84
  {
    var p := Pagination(page, 100);
    assert (page - 1) * 100 == TWO_64 - 16;
    WrapIsPeriodic(-16, 1);
    OffsetIsRaw(p);
    NextRawOffset(p);
    OffsetIsRaw(Pagination(page + 1, 100));
  }

  /* ---- the server and the client ---- */

  datatype Response<T> = Response(files: seq<T>, next: string, pageSize: int)

  // An unset size is 100; what is served is between 1 and 100, and 10 for a negative one.
  function Served(pageSize: int): (r: int)
    ensures r == if pageSize == 0 || pageSize > 100 then 100 else if pageSize < 0 then 10 else pageSize
  {
    Clamp(if pageSize != 0 then pageSize else SERVER_PAGE_SIZE)
  }

  method ServerListFiles<T>(rows: seq<T>, requested: int, token: string) returns (r: Response<T>)
    ensures Page(rows, Paginate(token, Served(requested))) == Some(Listing(r.files, r.next))
    ensures r.pageSize == if requested == 0 then 100 else requested
    ensures |r.files| <= 100
    ensures r.pageSize == Served(requested) <==> 0 <= requested <= MAX_PAGE_SIZE
  {
    var pageSize := SERVER_PAGE_SIZE;
    if requested != 0 {
      pageSize := requested;
    }
    var listing := List(rows, Paginate(token, pageSize));
    return Response(listing.value.files, listing.value.next, pageSize);
  }

  lemma QuotientIs(n: nat, size: nat, q: nat)
    requires size >= 1 && q * size <= n < q * size + size
    ensures n / size == q
  {
    var d := n / size;
    MulOrder(d, q + 1, size);
    MulOrder(q, d + 1, size);
    MulOrder(q, q + 1, size);
    MulOrder(d, d + 1, size);
  }

  // The row the page after `done` pages starts at.
  function FirstRow(done: nat, size: nat): nat {
    if done == 0 then 0 else FirstRow(done - 1, size) + size
  }

  lemma {:induction false} FirstRowIs(done: nat, size: nat)
    requires size >= 1
    ensures FirstRow(done, size) == done * size
  {
    if done > 0 {
      FirstRowIs(done - 1, size);
      MulOrder(done - 1, done, size);
    }
  }

  // Some pages that hold all rows, while one page less would not.
  predicate JustEnough(rows: nat, size: nat, pages: nat) {
    pages >= 1 && rows <= FirstRow(pages, size) && (pages > 1 ==> FirstRow(pages - 1, size) < rows)
  }

  // That is one page for an empty store, and else the number of rows over the size, rounded up.
  lemma JustEnoughIsCeiling(rows: nat, size: nat, pages: nat)
    requires size >= 1 && JustEnough(rows, size, pages)
    ensures pages == if rows == 0 then 1 else (rows + size - 1) / size
  {
    FirstRowIs(pages, size);
    FirstRowIs(pages - 1, size);
    MulOrder(pages - 1, 0, size);
    if rows > 0 {
      QuotientIs(rows + size - 1, size, pages);
    }
  }

  lemma TokenLeadsTo(page: int, size: int)
    requires Fits(page) && 1 <= size <= MAX_PAGE_SIZE
    ensures Itoa(page) != "" && Paginate(Itoa(page), size) == Pagination(page, size)
  {
    TokenRoundTrip(page);
  }

  lemma PageAfter<T>(rows: seq<T>, size: int, done: nat)
    requires 1 <= size <= MAX_PAGE_SIZE && |rows| <= MAX_INT
    requires FirstRow(done, size) <= |rows|
    ensures IsPage(rows, done + 1, FirstRow(done, size), size, Page(rows, Pagination(done + 1, size)))
    ensures done + 1 <= FirstRow(done, size) + size
  {
    FirstRowIs(done, size);
    assert done + 1 - 1 == done;
    FittingPageIsAPage(rows, Pagination(done + 1, size), FirstRow(done, size));
    PageIsBelowRow(done + 1, size);
  }

  // One turn of the client's loop.
  lemma NextPage<T>(rows: seq<T>, size: int, done: nat, r: Listing<T>)
    requires 1 <= size <= MAX_PAGE_SIZE && |rows| <= MAX_INT
    requires FirstRow(done, size) <= |rows| && done + 1 <= FirstRow(done, size) + size
    requires IsPage(rows, done + 1, FirstRow(done, size), size, Some(r))
    ensures Slice(rows, 0, FirstRow(done, size)) + r.files == Slice(rows, 0, FirstRow(done + 1, size))
    ensures r.next == "" <==> |rows| <= FirstRow(done + 1, size)
    ensures r.next != "" ==> r.next == Itoa(done + 2) && Fits(done + 2)
  {
    var lo := FirstRow(done, size);
    assert FirstRow(done + 1, size) == lo + size;
    if lo + size < |rows| {
      TokenLeadsTo(done + 2, size);
    }
  }

  // Fetches the page after the first `done` ones and appends it.
  method FetchPage<T>(rows: seq<T>, requested: int, token: string, files: seq<T>, ghost done: nat)
      returns (more: seq<T>, next: string)
    requires |rows| <= MAX_INT && FirstRow(done, Served(requested)) <= |rows|
    requires Paginate(token, Served(requested)) == Pagination(done + 1, Served(requested))
    requires files == Slice(rows, 0, FirstRow(done, Served(requested)))
    ensures more == Slice(rows, 0, FirstRow(done + 1, Served(requested)))
    ensures next == "" <==> |rows| <= FirstRow(done + 1, Served(requested))
    ensures next != "" ==> Paginate(next, Served(requested)) == Pagination(done + 2, Served(requested))
  {
    var response := ServerListFiles(rows, requested, token);
    ghost var size := Served(requested);
    PageAfter(rows, size, done);
    NextPage(rows, size, done, Listing(response.files, response.next));
    if response.next != "" {
      TokenLeadsTo(done + 2, size);
    }
    return files + response.files, response.next;
  }

  // `fails` says which request of the loop comes back with an error.
  method ListFiles<T>(rows: seq<T>, requested: int, fails: nat -> bool)
      returns (files: seq<T>, requests: nat, ok: bool)
    requires |rows| <= MAX_INT
    ensures requests >= 1 && ok == !fails(requests - 1)
    ensures forall i | 0 <= i < requests - 1 :: !fails(i)
    ensures requests > 1 ==> FirstRow(requests - 1, Served(requested)) < |rows|
    ensures ok ==> files == rows && JustEnough(|rows|, Served(requested), requests)
    ensures !ok ==> files == Slice(rows, 0, FirstRow(requests - 1, Served(requested)))
  {
    files, requests := [], 0;
    var pageToken := "";
    ghost var size := Served(requested);
    while true
      invariant FirstRow(requests, size) <= |rows|
      invariant files == Slice(rows, 0, FirstRow(requests, size))
      invariant forall i | 0 <= i < requests :: !fails(i)
      invariant Paginate(pageToken, size) == Pagination(requests + 1, size)
      invariant requests > 0 ==> FirstRow(requests, size) < |rows|
      decreases |rows| - FirstRow(requests, size)
    {
      if fails(requests) {
        return files, requests + 1, false;
      }
      files, pageToken := FetchPage(rows, requested, pageToken, files, requests);
      requests := requests + 1;
      if pageToken == "" {
        return files, requests, true;
      }
    }
  }
}

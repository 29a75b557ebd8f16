/**
 Pages of an unchanged table, each fetched by a query of its own. PostgreSQL need not break ties of the sort
 column alike in two queries, so every page comes with its own order among equal times.
 */
module AlertPages {
  import opened Sorting
  import opened AlertQueries

  /** Where page `i` begins. */
  function Offset(limit: nat, i: nat): nat {
    if i == 0 then 0 else Offset(limit, i - 1) + limit
  }

  lemma {:induction false} OffsetIsProduct(limit: nat, i: nat)
    ensures Offset(limit, i) == i * limit
  {
    if i > 0 {
      OffsetIsProduct(limit, i - 1);
      assert Offset(limit, i - 1) + limit == i * limit;
    }
  }

  /** The pages of separate queries, page `i` under the tie order `ties[i]`. */
  function Fetched(
    table: seq<Row>, column: Column, ties: seq<Order<Row>>, wants: Row -> bool, limit: nat): seq<seq<Row>>
  {
    seq(|ties|, i requires 0 <= i < |ties| => Selected(table, column, ties[i], wants, limit, Offset(limit, i)))
  }

  /** One page after the other. */
  function Joined(pages: seq<seq<Row>>): seq<Row> {
    if pages == [] then [] else Joined(pages[..|pages| - 1]) + pages[|pages| - 1]
  }

  ghost predicate AllTotal(ties: seq<Order<Row>>) {
    forall i | 0 <= i < |ties| :: Total(ties[i])
  }

  ghost predicate NewestFirst(rows: seq<Row>, column: Column) {
    forall i, j | 0 <= i < j < |rows| :: TimeOf(rows[i], column) >= TimeOf(rows[j], column)
  }

  /** The rows, newest first. */
  ghost predicate IsListing(listing: seq<Row>, rows: seq<Row>, column: Column) {
    multiset(listing) == multiset(rows) && NewestFirst(listing, column)
  }

  function Prefix(rows: seq<Row>, count: nat): seq<Row> {
    if |rows| <= count then rows else rows[..count]
  }

  /** The result begins some listing of the rows: it is newest first, repeats no row and skips none. */
  ghost predicate Fits(result: seq<Row>, rows: seq<Row>, column: Column, count: nat) {
    exists listing :: IsListing(listing, rows, column) && result == Prefix(listing, count)
  }

  function Newer(rows: seq<Row>, column: Column, time: int): seq<Row> {
    Filter(rows, row => TimeOf(row, column) > time)
  }

  /** In every listing, position `b` has rows of the time of `row` on both sides. Times are whole numbers. */
  ghost predicate Straddles(rows: seq<Row>, column: Column, row: Row, b: nat) {
    |Newer(rows, column, TimeOf(row, column))| < b < |Newer(rows, column, TimeOf(row, column) - 1)|
  }

  ghost predicate SplitsTie(rows: seq<Row>, column: Column, b: nat) {
    exists row {:trigger Straddles(rows, column, row, b)} :: row in rows && Straddles(rows, column, row, b)
  }

  /** The boundary before page `i` falls between two rows of one time. */
  ghost predicate BoundarySplits(rows: seq<Row>, column: Column, limit: nat, i: nat) {
    SplitsTie(rows, column, Offset(limit, i))
  }

  /// ## Listings

  /** In a listing, the rows newer than some time come first. */
  lemma {:induction false} NewerComeFirst(rows: seq<Row>, column: Column, time: int)
    requires NewestFirst(rows, column)
    ensures |Newer(rows, column, time)| <= |rows| && Newer(rows, column, time) == rows[..|Newer(rows, column, time)|]
    ensures forall i | 0 <= i < |rows| :: TimeOf(rows[i], column) > time <==> i < |Newer(rows, column, time)|
    decreases |rows|
  {
    if rows != [] {
      var front, last := rows[..|rows| - 1], rows[|rows| - 1];
      NewerComeFirst(front, column, time);
      assert rows == front + [last];
      if TimeOf(last, column) > time {
        AllNewer(front, column, time);
      }
    }
  }

  lemma {:induction false} AllNewer(rows: seq<Row>, column: Column, time: int)
    requires forall row <- rows :: TimeOf(row, column) > time
    ensures Newer(rows, column, time) == rows
  {
    FilterOfAlike(rows, row => TimeOf(row, column) > time, true);
  }

  lemma NewerOfPermutation(a: seq<Row>, b: seq<Row>, column: Column, time: int)
    requires multiset(a) == multiset(b)
    ensures multiset(Newer(a, column, time)) == multiset(Newer(b, column, time))
    ensures |Newer(a, column, time)| == |Newer(b, column, time)|
  {
    var newer: Row -> bool := row => TimeOf(row, column) > time;
    forall row ensures multiset(Filter(a, newer))[row] == multiset(Filter(b, newer))[row] {
      FilterContents(a, newer, row);
      FilterContents(b, newer, row);
    }
    assert multiset(Newer(a, column, time)) == multiset(Newer(b, column, time));
    assert |Newer(a, column, time)| == |multiset(Newer(a, column, time))|;
    assert |Newer(b, column, time)| == |multiset(Newer(b, column, time))|;
  }

  /** Where the row at `b` of a listing stands among its equals. */
  lemma PlaceInListing(rows: seq<Row>, listing: seq<Row>, column: Column, b: nat)
    requires IsListing(listing, rows, column) && b < |listing|
    ensures var time := TimeOf(listing[b], column);
            |Newer(rows, column, time)| <= b < |Newer(rows, column, time - 1)| && listing[b] in rows
  {
    var time := TimeOf(listing[b], column);
    NewerComeFirst(listing, column, time);
    NewerComeFirst(listing, column, time - 1);
    NewerOfPermutation(listing, rows, column, time);
    NewerOfPermutation(listing, rows, column, time - 1);
    assert listing[b] in multiset(rows);
  }

  lemma SortIsListing(rows: seq<Row>, column: Column, tie: Order<Row>)
    requires Total(tie)
    ensures IsListing(Sort(rows, Newest(column, tie)), rows, column)
  {
    var le := Newest(column, tie);
    NewestIsTotal(column, tie);
    SortSorts(rows, le);
    var listing := Sort(rows, le);
    forall i, j | 0 <= i < j < |listing| ensures TimeOf(listing[i], column) >= TimeOf(listing[j], column) {
      assert le(listing[i], listing[j]);
    }
  }

  lemma QueryListing(table: seq<Row>, column: Column, tie: Order<Row>, wants: Row -> bool, limit: nat, offset: nat)
    requires Total(tie)
    ensures Selected(table, column, tie, wants, limit, offset)
         == Page(Sort(Filter(table, wants), Newest(column, tie)), limit, offset)
  {
    NewestIsTotal(column, tie);
    FilterCommutesWithSort(table, wants, Newest(column, tie));
  }

  /// ## Boundaries that split no tie

  /** At a position that splits no tie, the beginning of one listing and the rest of another make a listing. */
  lemma Splice(rows: seq<Row>, column: Column, first: seq<Row>, second: seq<Row>, b: nat)
    requires IsListing(first, rows, column) && IsListing(second, rows, column) && b < |second|
    requires !SplitsTie(rows, column, b)
    ensures |first| == |second| && IsListing(first[..b] + second[b..], rows, column)
  {
    var time := TimeOf(second[b], column);
    PlaceInListing(rows, second, column, b);
    assert !Straddles(rows, column, second[b], b);
    SameBeginning(rows, column, first, b, time);
    SameBeginning(rows, column, second, b, time);
    SameSize(first, second);
    assert second == second[..b] + second[b..];
    assert multiset(first[..b] + second[b..]) == multiset(second[..b]) + multiset(second[b..]);
    JoinedIsNewestFirst(first, second, column, b, time);
  }

  /** Every listing begins with the rows newer than `time`, if there are `b` of them. */
  lemma SameBeginning(rows: seq<Row>, column: Column, listing: seq<Row>, b: nat, time: int)
    requires IsListing(listing, rows, column) && |Newer(rows, column, time)| == b
    ensures b <= |listing| && multiset(listing[..b]) == multiset(Newer(rows, column, time))
    ensures forall i | 0 <= i < |listing| :: TimeOf(listing[i], column) > time <==> i < b
  {
    NewerOfPermutation(listing, rows, column, time);
    NewerComeFirst(listing, column, time);
  }

  lemma JoinedIsNewestFirst(first: seq<Row>, second: seq<Row>, column: Column, b: nat, time: int)
    requires b <= |first| && b <= |second| && NewestFirst(first, column) && NewestFirst(second, column)
    requires forall i | 0 <= i < b :: TimeOf(first[i], column) > time
    requires forall i | b <= i < |second| :: TimeOf(second[i], column) <= time
    ensures NewestFirst(first[..b] + second[b..], column)
  {
  }

  lemma PrefixGrows(listing: seq<Row>, next: seq<Row>, limit: nat, b: nat)
    requires |listing| == |next|
    ensures Prefix(listing, b) + Page(next, limit, b)
         == if |next| <= b then Prefix(listing, b + limit) else Prefix(listing[..b] + next[b..], b + limit)
  {
  }

  lemma SameSize(a: seq<Row>, b: seq<Row>)
    requires multiset(a) == multiset(b)
    ensures |a| == |b|
  {
    assert |a| == |multiset(a)| == |multiset(b)| == |b|;
  }

  lemma OnePageMore(rows: seq<Row>, column: Column, listing: seq<Row>, next: seq<Row>, limit: nat, b: nat)
    requires IsListing(listing, rows, column) && IsListing(next, rows, column) && !SplitsTie(rows, column, b)
    ensures Fits(Prefix(listing, b) + Page(next, limit, b), rows, column, b + limit)
  {
    SameSize(listing, next);
    PrefixGrows(listing, next, limit, b);
    if b < |next| {
      Splice(rows, column, listing, next, b);
    }
  }

  lemma NothingFits(rows: seq<Row>, column: Column)
    ensures Fits([], rows, column, 0)
  {
    ByFieldsIsTotal();
    SortIsListing(rows, column, ByFields());
    assert [] == Prefix(Sort(rows, Newest(column, ByFields())), 0);
  }

  /** Page `i` is taken from listing `i`, and no boundary between pages splits a tie. */
  ghost predicate Unsplit(rows: seq<Row>, column: Column, listings: seq<seq<Row>>, pages: seq<seq<Row>>, limit: nat) {
    && |pages| == |listings|
    && forall i | 0 <= i < |pages| :: UnsplitAt(rows, column, listings[i], pages[i], limit, i)
  }

  ghost predicate UnsplitAt(rows: seq<Row>, column: Column, listing: seq<Row>, page: seq<Row>, limit: nat, i: nat) {
    && IsListing(listing, rows, column) && page == Page(listing, limit, Offset(limit, i))
    && !BoundarySplits(rows, column, limit, i)
  }

  lemma {:induction false} UnsplitFits(
    rows: seq<Row>, column: Column, listings: seq<seq<Row>>, pages: seq<seq<Row>>, limit: nat)
    requires Unsplit(rows, column, listings, pages, limit)
    ensures Fits(Joined(pages), rows, column, Offset(limit, |pages|))
    decreases |pages|
  {
    if pages == [] {
      NothingFits(rows, column);
    } else {
      var n := |pages| - 1;
      UnsplitPrefix(rows, column, listings, pages, limit);
      UnsplitFits(rows, column, listings[..n], pages[..n], limit);
      assert UnsplitAt(rows, column, listings[n], pages[n], limit, n);
      LastPageFits(rows, column, listings[n], pages, limit);
    }
  }

  lemma UnsplitPrefix(rows: seq<Row>, column: Column, listings: seq<seq<Row>>, pages: seq<seq<Row>>, limit: nat)
    requires Unsplit(rows, column, listings, pages, limit) && pages != []
    ensures Unsplit(rows, column, listings[..|pages| - 1], pages[..|pages| - 1], limit)
  {
  }

  lemma LastPageFits(rows: seq<Row>, column: Column, listing: seq<Row>, pages: seq<seq<Row>>, limit: nat)
    requires pages != [] && UnsplitAt(rows, column, listing, pages[|pages| - 1], limit, |pages| - 1)
    requires Fits(Joined(pages[..|pages| - 1]), rows, column, Offset(limit, |pages| - 1))
    ensures Fits(Joined(pages), rows, column, Offset(limit, |pages|))
  {
    NextPageFits(rows, column, Joined(pages[..|pages| - 1]), listing, limit, Offset(limit, |pages| - 1));
  }

  lemma NextPageFits(rows: seq<Row>, column: Column, result: seq<Row>, next: seq<Row>, limit: nat, b: nat)
    requires Fits(result, rows, column, b) && IsListing(next, rows, column) && !SplitsTie(rows, column, b)
    ensures Fits(result + Page(next, limit, b), rows, column, b + limit)
  {
    var listing :| IsListing(listing, rows, column) && result == Prefix(listing, b);
    OnePageMore(rows, column, listing, next, limit, b);
  }

  lemma UnsplitPagesFit(table: seq<Row>, column: Column, ties: seq<Order<Row>>, wants: Row -> bool, limit: nat)
    requires AllTotal(ties)
    requires forall i | 0 < i < |ties| :: !BoundarySplits(Filter(table, wants), column, limit, i)
    ensures Fits(Joined(Fetched(table, column, ties, wants, limit)), Filter(table, wants), column, Offset(limit, |ties|))
  {
    var rows := Filter(table, wants);
    var listings := seq(|ties|, i requires 0 <= i < |ties| => Sort(rows, Newest(column, ties[i])));
    var pages := Fetched(table, column, ties, wants, limit);
    forall i: nat | i < |ties| ensures UnsplitAt(rows, column, listings[i], pages[i], limit, i) {
      SortIsListing(rows, column, ties[i]);
      QueryListing(table, column, ties[i], wants, limit, Offset(limit, i));
      assert i == 0 || !BoundarySplits(rows, column, limit, i);
    }
    UnsplitFits(rows, column, listings, pages, limit);
  }

  /// ## Boundaries that split a tie

  function Swap(row: Row, x: Row, y: Row): Row {
    if row == x then y else if row == y then x else row
  }

  /** The order with the places of `x` and `y` exchanged. */
  function Swapped(tie: Order<Row>, x: Row, y: Row): Order<Row> {
    (a, b) => tie(Swap(a, x, y), Swap(b, x, y))
  }

  lemma SwappedIsTotal(tie: Order<Row>, x: Row, y: Row)
    requires Total(tie)
    ensures Total(Swapped(tie, x, y))
  {
    forall a, b, c ensures OrderedAt(Swapped(tie, x, y), a, b, c) {
      assert OrderedAt(tie, Swap(a, x, y), Swap(b, x, y), Swap(c, x, y));
    }
  }

  lemma SwappedTurns(tie: Order<Row>, x: Row, y: Row)
    requires tie(x, y)
    ensures Swapped(tie, x, y)(y, x)
  {
    assert Swap(y, x, y) == x && Swap(x, x, y) == y;
  }

  lemma {:induction false} KeysOnce(table: seq<Row>, row: Row)
    requires KeysDiffer(table)
    ensures multiset(table)[row] <= 1
    decreases |table|
  {
    if table != [] {
      var front, last := table[..|table| - 1], table[|table| - 1];
      KeysOnce(front, row);
      assert table == front + [last];
      if row == last {
        assert row !in front;
      }
    }
  }

  lemma OnceIsDistinct(listing: seq<Row>, i: nat, j: nat)
    requires i < j < |listing| && forall row :: multiset(listing)[row] <= 1
    ensures listing[i] != listing[j]
  {
    if listing[i] == listing[j] {
      TwiceCounts(listing, i, j);
    }
  }

  lemma TwiceCounts(listing: seq<Row>, i: nat, j: nat)
    requires i < j < |listing| && listing[i] == listing[j]
    ensures multiset(listing)[listing[i]] >= 2
  {
    assert listing == listing[..j] + listing[j..];
    assert listing[i] in listing[..j] && listing[j] in listing[j..];
    assert multiset(listing[..j])[listing[i]] >= 1 && multiset(listing[j..])[listing[i]] >= 1;
  }

  /** With the neighbours at `b` exchanged in the tie order, they are exchanged in the listing. */
  lemma SwappedListing(rows: seq<Row>, column: Column, tie: Order<Row>, listing: seq<Row>, b: nat)
    requires Total(tie) && listing == Sort(rows, Newest(column, tie)) && forall row :: multiset(rows)[row] <= 1
    requires 0 < b < |listing| && TimeOf(listing[b - 1], column) == TimeOf(listing[b], column)
    ensures var other := Swapped(tie, listing[b - 1], listing[b]);
            Sort(rows, Newest(column, other)) == listing[b - 1 := listing[b]][b := listing[b - 1]]
  {
    var x, y := listing[b - 1], listing[b];
    var other, exchanged := Swapped(tie, x, y), listing[b - 1 := y][b := x];
    NewestIsTotal(column, tie);
    SortSorts(rows, Newest(column, tie));
    SwappedIsTotal(tie, x, y);
    NewestIsTotal(column, other);
    SwappedIsSorted(listing, column, tie, b);
    assert multiset(exchanged) == multiset(listing);
    SortIsTheListing(rows, exchanged, Newest(column, other));
  }

  lemma SwappedIsSorted(listing: seq<Row>, column: Column, tie: Order<Row>, b: nat)
    requires Sorted(listing, Newest(column, tie)) && forall row :: multiset(listing)[row] <= 1
    requires 0 < b < |listing| && TimeOf(listing[b - 1], column) == TimeOf(listing[b], column)
    ensures var x, y := listing[b - 1], listing[b];
            Sorted(listing[b - 1 := y][b := x], Newest(column, Swapped(tie, x, y)))
  {
    var x, y := listing[b - 1], listing[b];
    var exchanged := listing[b - 1 := y][b := x];
    forall k | 0 <= k < |listing|
      ensures Swap(exchanged[k], x, y) == listing[k] && TimeOf(exchanged[k], column) == TimeOf(listing[k], column)
    {
      if k < b - 1 {
        OnceIsDistinct(listing, k, b - 1);
        OnceIsDistinct(listing, k, b);
      } else if b < k {
        OnceIsDistinct(listing, b - 1, k);
        OnceIsDistinct(listing, b, k);
      } else {
        OnceIsDistinct(listing, b - 1, b);
      }
    }
    forall i, j | 0 <= i < j < |exchanged| ensures Newest(column, Swapped(tie, x, y))(exchanged[i], exchanged[j]) {
      assert Newest(column, tie)(listing[i], listing[j]);
    }
  }

  lemma {:induction false} EarlierPagesStay(pages: seq<seq<Row>>, n: nat)
    requires n <= |pages|
    ensures multiset(Joined(pages[..n])) <= multiset(Joined(pages))
    decreases |pages|
  {
    if n == |pages| {
      assert pages[..n] == pages;
    } else {
      EarlierPagesStay(pages[..|pages| - 1], n);
      assert pages[..|pages| - 1][..n] == pages[..n];
    }
  }

  /** If the boundary before page `i` splits a tie, some row can come at the end of one page and again on the next. */
  lemma SplitPagesMayRepeat(table: seq<Row>, column: Column, wants: Row -> bool, limit: nat, count: nat, i: nat)
    returns (ties: seq<Order<Row>>, repeated: Row)
    requires KeysDiffer(table) && 0 < i < count && BoundarySplits(Filter(table, wants), column, limit, i)
    ensures |ties| == count && AllTotal(ties)
    ensures multiset(Joined(Fetched(table, column, ties, wants, limit)))[repeated] >= 2
  {
    var other;
    SplitIsInside(Filter(table, wants), column, limit, i);
    other, repeated := RowOnBothPages(table, column, wants, limit, Offset(limit, i - 1), Offset(limit, i));
    ByFieldsIsTotal();
    ties := RepeatedUnder(table, column, wants, limit, count, i, ByFields(), other, repeated);
  }

  lemma RepeatedUnder(
    table: seq<Row>, column: Column, wants: Row -> bool, limit: nat, count: nat, i: nat, tie: Order<Row>,
    other: Order<Row>, row: Row)
    returns (ties: seq<Order<Row>>)
    requires 0 < i < count && Total(tie) && Total(other)
    requires row in Selected(table, column, tie, wants, limit, Offset(limit, i - 1))
    requires row in Selected(table, column, other, wants, limit, Offset(limit, i))
    ensures |ties| == count && AllTotal(ties)
    ensures multiset(Joined(Fetched(table, column, ties, wants, limit)))[row] >= 2
  {
    ties := OneOther(count, i, tie, other);
    OnFetchedPage(table, column, ties, wants, limit, i - 1, row);
    OnFetchedPage(table, column, ties, wants, limit, i, row);
    TwoPages(Fetched(table, column, ties, wants, limit), i, row);
  }

  lemma SplitIsInside(rows: seq<Row>, column: Column, limit: nat, i: nat)
    requires BoundarySplits(rows, column, limit, i)
    ensures SplitsTie(rows, column, Offset(limit, i)) && 0 < limit
  {
    var row :| row in rows && Straddles(rows, column, row, Offset(limit, i));
    LimitIsPositive(limit, i);
  }

  lemma RowOnBothPages(table: seq<Row>, column: Column, wants: Row -> bool, limit: nat, start: nat, b: nat)
    returns (other: Order<Row>, row: Row)
    requires KeysDiffer(table) && SplitsTie(Filter(table, wants), column, b) && b == start + limit && 0 < limit
    ensures Total(other)
    ensures row in Selected(table, column, ByFields(), wants, limit, start)
    ensures row in Selected(table, column, other, wants, limit, b)
  {
    other, row := RowOnBothSides(table, column, wants, b);
    OnBothPages(table, column, wants, other, limit, start, b);
  }

  lemma {:induction false} LimitIsPositive(limit: nat, i: nat)
    requires 0 < Offset(limit, i)
    ensures 0 < limit
  {
    if limit == 0 {
      LimitIsPositive(limit, i - 1);
    }
  }

  lemma FetchedAt(table: seq<Row>, column: Column, ties: seq<Order<Row>>, wants: Row -> bool, limit: nat, i: nat)
    requires i < |ties|
    ensures Fetched(table, column, ties, wants, limit)[i]
         == Selected(table, column, ties[i], wants, limit, Offset(limit, i))
  {
  }

  lemma OnFetchedPage(
    table: seq<Row>, column: Column, ties: seq<Order<Row>>, wants: Row -> bool, limit: nat, i: nat, row: Row)
    requires i < |ties| && row in Selected(table, column, ties[i], wants, limit, Offset(limit, i))
    ensures row in Fetched(table, column, ties, wants, limit)[i]
  {
    FetchedAt(table, column, ties, wants, limit, i);
  }

  lemma OneOther(count: nat, i: nat, tie: Order<Row>, other: Order<Row>) returns (ties: seq<Order<Row>>)
    requires 0 < i < count && Total(tie) && Total(other)
    ensures |ties| == count && AllTotal(ties) && ties[i - 1] == tie && ties[i] == other
  {
    ties := seq(count, j => if j == i then other else tie);
  }

  lemma OnBothPages(
    table: seq<Row>, column: Column, wants: Row -> bool, other: Order<Row>, limit: nat, start: nat, b: nat)
    requires Total(other) && b == start + limit
    requires var listing := Sort(Filter(table, wants), Newest(column, ByFields()));
             var exchanged := Sort(Filter(table, wants), Newest(column, other));
             0 < b < |listing| == |exchanged| && listing[b - 1] == exchanged[b] && 0 < limit
    ensures var row := Sort(Filter(table, wants), Newest(column, ByFields()))[b - 1];
            && row in Selected(table, column, ByFields(), wants, limit, start)
            && row in Selected(table, column, other, wants, limit, b)
  {
    ByFieldsIsTotal();
    QueryListing(table, column, ByFields(), wants, limit, start);
    QueryListing(table, column, other, wants, limit, b);
    BothPagesHold(Sort(Filter(table, wants), Newest(column, ByFields())), Sort(Filter(table, wants), Newest(column, other)),
                  limit, start, b);
  }

  /** A tie order under which the row just before the boundary comes just after it. */
  lemma RowOnBothSides(table: seq<Row>, column: Column, wants: Row -> bool, b: nat)
    returns (other: Order<Row>, row: Row)
    requires KeysDiffer(table) && SplitsTie(Filter(table, wants), column, b)
    ensures Total(other)
    ensures var listing := Sort(Filter(table, wants), Newest(column, ByFields()));
            var exchanged := Sort(Filter(table, wants), Newest(column, other));
            0 < b < |listing| == |exchanged| && listing[b - 1] == exchanged[b] == row
  {
    var rows := Filter(table, wants);
    var listing := Sort(rows, Newest(column, ByFields()));
    forall row ensures multiset(rows)[row] <= 1 {
      KeysOnce(table, row);
      FilterContents(table, wants, row);
    }
    ByFieldsIsTotal();
    SortIsListing(rows, column, ByFields());
    TieAtBoundary(rows, column, listing, b);
    row := listing[b - 1];
    other := Swapped(ByFields(), row, listing[b]);
    SwappedIsTotal(ByFields(), row, listing[b]);
    SwappedListing(rows, column, ByFields(), listing, b);
  }

  lemma TieAtBoundary(rows: seq<Row>, column: Column, listing: seq<Row>, b: nat)
    requires IsListing(listing, rows, column) && SplitsTie(rows, column, b)
    ensures 0 < b < |listing| && TimeOf(listing[b - 1], column) == TimeOf(listing[b], column)
  {
    var row :| row in rows && Straddles(rows, column, row, b);
    var time := TimeOf(row, column);
    NewerOfPermutation(listing, rows, column, time);
    NewerOfPermutation(listing, rows, column, time - 1);
    NewerComeFirst(listing, column, time);
    NewerComeFirst(listing, column, time - 1);
  }

  lemma BothPagesHold(first: seq<Row>, second: seq<Row>, limit: nat, start: nat, b: nat)
    requires b == start + limit && 0 < limit && b < |first| && b < |second| && first[b - 1] == second[b]
    ensures first[b - 1] in Page(first, limit, start) && second[b] in Page(second, limit, b)
  {
    assert Page(first, limit, start)[limit - 1] == first[b - 1];
    assert Page(second, limit, b)[0] == second[b];
  }

  lemma TwoPages(pages: seq<seq<Row>>, i: nat, row: Row)
    requires 0 < i < |pages| && row in pages[i - 1] && row in pages[i]
    ensures multiset(Joined(pages))[row] >= 2
  {
    assert pages[..i + 1][..i] == pages[..i] && pages[..i][..i - 1] == pages[..i - 1];
    assert Joined(pages[..i + 1]) == Joined(pages[..i - 1]) + pages[i - 1] + pages[i];
    InBoth(Joined(pages[..i - 1]), pages[i - 1], pages[i], row);
    EarlierPagesStay(pages, i + 1);
  }

  lemma InBoth(before: seq<Row>, first: seq<Row>, second: seq<Row>, row: Row)
    requires row in first && row in second
    ensures multiset(before + first + second)[row] >= 2
  {
    assert row in multiset(first) && row in multiset(second);
  }

  /** Whatever begins a listing repeats no row. */
  lemma FitsRepeatsNothing(result: seq<Row>, rows: seq<Row>, column: Column, count: nat, row: Row)
    requires Fits(result, rows, column, count)
    ensures multiset(result)[row] <= multiset(rows)[row]
  {
    var listing :| IsListing(listing, rows, column) && result == Prefix(listing, count);
    assert listing == result + listing[|result|..];
  }

  /**
   Pages of an unchanged table, each fetched under whatever tie order, are sure to concatenate to the beginning
   of a listing, without repetition or gap, if and only if no boundary between two of them splits wanted rows of
   one time.
   */
  lemma PagesFitIff(table: seq<Row>, column: Column, wants: Row -> bool, limit: nat, count: nat)
    requires KeysDiffer(table)
    ensures (forall ties: seq<Order<Row>> | |ties| == count && AllTotal(ties) ::
               Fits(Joined(Fetched(table, column, ties, wants, limit)), Filter(table, wants), column, Offset(limit, count)))
            <==> forall i | 0 < i < count :: !BoundarySplits(Filter(table, wants), column, limit, i)
  {
    if i: nat :| 0 < i < count && BoundarySplits(Filter(table, wants), column, limit, i) {
      var ties := SplitPagesMisfit(table, column, wants, limit, count, i, Offset(limit, count));
    } else {
      forall ties: seq<Order<Row>> | |ties| == count && AllTotal(ties)
        ensures Fits(Joined(Fetched(table, column, ties, wants, limit)), Filter(table, wants), column, Offset(limit, count))
      {
        UnsplitPagesFit(table, column, ties, wants, limit);
      }
    }
  }

  lemma SplitPagesMisfit(
    table: seq<Row>, column: Column, wants: Row -> bool, limit: nat, count: nat, i: nat, length: nat)
    returns (ties: seq<Order<Row>>)
    requires KeysDiffer(table) && 0 < i < count && BoundarySplits(Filter(table, wants), column, limit, i)
    ensures |ties| == count && AllTotal(ties)
    ensures !Fits(Joined(Fetched(table, column, ties, wants, limit)), Filter(table, wants), column, length)
  {
    var row;
    ties, row := SplitPagesMayRepeat(table, column, wants, limit, count, i);
    KeysOnce(table, row);
    FilterContents(table, wants, row);
    RepeatMisfits(Joined(Fetched(table, column, ties, wants, limit)), Filter(table, wants), column, length, row);
  }

  lemma RepeatMisfits(result: seq<Row>, rows: seq<Row>, column: Column, count: nat, row: Row)
    requires multiset(result)[row] > multiset(rows)[row]
    ensures !Fits(result, rows, column, count)
  {
    if Fits(result, rows, column, count) {
      FitsRepeatsNothing(result, rows, column, count, row);
    }
  }

  /** Two alerts of one time, fetched one by one: both pages can hold the first, and the second is never seen. */
  lemma PagesCanMisfit(a: Row, b: Row, column: Column, tie: Order<Row>)
    requires Total(tie) && a != b && TimeOf(a, column) == TimeOf(b, column) && tie(a, b)
    ensures Total(Swapped(tie, a, b))
    ensures Joined(Fetched([a, b], column, [tie, Swapped(tie, a, b)], _ => true, 1)) == [a, a]
  {
    var all: Row -> bool := _ => true;
    var other, table := Swapped(tie, a, b), [a, b];
    SwappedIsTotal(tie, a, b);
    SwappedTurns(tie, a, b);
    ListingOfTwo(table, a, b, column, tie);
    ListingOfTwo(table, b, a, column, other);
    FirstOfTwo(table, a, b, column, tie, all, 0);
    FirstOfTwo(table, b, a, column, other, all, 1);
    var pages := Fetched(table, column, [tie, other], all, 1);
    FetchedAt(table, column, [tie, other], all, 1, 0);
    FetchedAt(table, column, [tie, other], all, 1, 1);
    assert Offset(1, 1) == 1;
    JoinedTwo(pages, [a], [a]);
  }

  lemma JoinedTwo(pages: seq<seq<Row>>, first: seq<Row>, second: seq<Row>)
    requires |pages| == 2 && pages[0] == first && pages[1] == second
    ensures Joined(pages) == first + second
  {
    assert pages[..1] == [first] && [first][..0] == [];
    assert Joined([first]) == Joined([first][..0]) + first;
  }

  lemma FirstOfTwo(table: seq<Row>, a: Row, b: Row, column: Column, tie: Order<Row>, all: Row -> bool, offset: nat)
    requires Total(tie) && Sort(table, Newest(column, tie)) == [a, b] && offset <= 1
    requires forall row :: all(row)
    ensures Selected(table, column, tie, all, 1, offset) == [if offset == 0 then a else b]
  {
    FilterOfAlike(table, all, true);
    QueryListing(table, column, tie, all, 1, offset);
  }

  lemma ListingOfTwo(table: seq<Row>, a: Row, b: Row, column: Column, tie: Order<Row>)
    requires Total(tie) && TimeOf(a, column) == TimeOf(b, column) && tie(a, b)
    requires table == [a, b] || table == [b, a]
    ensures Sort(table, Newest(column, tie)) == [a, b]
  {
    NewestIsTotal(column, tie);
    assert [b, a] == [b] + [a] && [a, b] == [a] + [b];
    SortIsTheListing(table, [a, b], Newest(column, tie));
  }
}

/** The read-only views over the order table: a customer's history and the
    drivers' listing of Waiting orders, newest first, in pages of ten. */
module Queries {
  import opened Common
  import opened Accounts
  import opened Orders
  import opened Sequences

  const PAGE_SIZE := 10

  // ------------------------------------------------------------ history

  function IsWaiting(o: Order): bool {
    o.status == Waiting
  }

  /** OrderHistoryView: the caller's own orders, in storage order. */
  function History(caller: Option<User>, orders: seq<Order>): (r: Result<seq<Order>>)
    ensures r.Err? <==> caller.None?
    ensures r.Err? ==> r.error == NotAuthenticated
    ensures r.Ok? ==> forall o :: o in r.value <==> o in orders && o.customer == caller.value.id
    ensures r.Ok? ==> forall i :: 0 <= i < |r.value| ==> r.value[i].customer == caller.value.id
  {
    if caller.None? then Err(NotAuthenticated)
    else
      var id := caller.value.id;
      FilterMembers(orders, (o: Order) => o.customer == id);
      Ok(Filter(orders, (o: Order) => o.customer == id))
  }

  /** A new order of the caller's appears at the end of the caller's history. */
  lemma {:induction false} HistoryAfterNewOrder(caller: User, orders: seq<Order>, o: Order)
    ensures History(Some(caller), orders + [o]).value
         == History(Some(caller), orders).value + (if o.customer == caller.id then [o] else [])
  {
    FilterAppend(orders, [o], (x: Order) => x.customer == caller.id);
  }

  // ------------------------------------------------------------ newest first

  predicate NewestFirst(s: seq<Order>) {
    forall i, j :: 0 <= i < j < |s| ==> s[i].orderTime >= s[j].orderTime
  }

  /** An order no older than the head of a newest-first list can go in front. */
  lemma {:induction false} ConsNewestFirst(a: Order, s: seq<Order>)
    requires NewestFirst(s) && (s != [] ==> s[0].orderTime <= a.orderTime)
    ensures NewestFirst([a] + s)
  {
    var r := [a] + s;
    forall i, j | 0 <= i < j < |r| ensures r[i].orderTime >= r[j].orderTime {
      assert r[j] == s[j - 1];
      if i == 0 {
        if j > 1 {
          assert s[0].orderTime >= s[j - 1].orderTime;
        }
      } else {
        assert r[i] == s[i - 1];
      }
    }
  }

  lemma {:induction false} NewestFirstTail(s: seq<Order>)
    requires NewestFirst(s) && s != []
    ensures NewestFirst(s[1..]) && (|s| > 1 ==> s[1].orderTime <= s[0].orderTime)
  {
    forall i, j | 0 <= i < j < |s| - 1 ensures s[1..][i].orderTime >= s[1..][j].orderTime {
      assert s[1..][i] == s[i + 1] && s[1..][j] == s[j + 1];
    }
  }

  /** Inserting behind an older head: the head stays in front of the rest. */
  lemma {:induction false} InsertBehind(o: Order, s: seq<Order>, rest: seq<Order>)
    requires s != [] && NewestFirst(s) && o.orderTime < s[0].orderTime
    requires NewestFirst(rest) && multiset(rest) == multiset(s[1..]) + multiset{o}
    requires |rest| == |s| && (rest[0] == o || (|s| > 1 && rest[0] == s[1]))
    ensures NewestFirst([s[0]] + rest)
    ensures multiset([s[0]] + rest) == multiset(s) + multiset{o}
  {
    NewestFirstTail(s);
    assert s == [s[0]] + s[1..];
    ConsNewestFirst(s[0], rest);
  }

  function InsertNewestFirst(o: Order, s: seq<Order>): (r: seq<Order>)
    requires NewestFirst(s)
    ensures NewestFirst(r)
    ensures multiset(r) == multiset(s) + multiset{o}
    ensures |r| == |s| + 1 && (r[0] == o || (s != [] && r[0] == s[0]))
  {
    if s == [] then [o]
    else if o.orderTime >= s[0].orderTime then
      ConsNewestFirst(o, s);
      [o] + s
    else
      NewestFirstTail(s);
      var rest := InsertNewestFirst(o, s[1..]);
      InsertBehind(o, s, rest);
      [s[0]] + rest
  }

  /** order_by('-order_time'): a permutation of `s`, most recent first. */
  function SortNewestFirst(s: seq<Order>): (r: seq<Order>)
    ensures NewestFirst(r)
    ensures multiset(r) == multiset(s)
  {
    if s == [] then []
    else
      assert s == [s[0]] + s[1..];
      InsertNewestFirst(s[0], SortNewestFirst(s[1..]))
  }

  /** The queryset filter(status=1).order_by('-order_time'). */
  function WaitingNewestFirst(orders: seq<Order>): (r: seq<Order>)
    ensures NewestFirst(r)
    ensures forall o :: o in r <==> o in orders && o.status == Waiting
    ensures forall o :: multiset(r)[o] == if o.status == Waiting then multiset(orders)[o] else 0
  {
    var w := Filter(orders, IsWaiting);
    FilterCount(orders, IsWaiting);
    var r := SortNewestFirst(w);
    assert forall o :: o in r <==> o in multiset(w);
    r
  }

  /** A newest-first selection from rows whose times strictly increase
      repeats no time. */
  lemma {:induction false} StrictWhenTimesDistinct(r: seq<Order>, s: seq<Order>)
    requires NewestFirst(r) && multiset(r) <= multiset(s)
    requires forall i, j :: 0 <= i < j < |s| ==> s[i].orderTime < s[j].orderTime
    ensures forall i, j :: 0 <= i < j < |r| ==> r[i].orderTime > r[j].orderTime
  {
    assert NoDuplicates(s);
    forall i, j | 0 <= i < j < |r| ensures r[i].orderTime > r[j].orderTime {
      if r[i].orderTime == r[j].orderTime {
        assert r[i] in multiset(s) && r[j] in multiset(s);
        var a :| 0 <= a < |s| && s[a] == r[i];
        var b :| 0 <= b < |s| && s[b] == r[j];
        assert a == b;
        RepeatedCount(r, i, j);
        NoDuplicatesCount(s, r[i]);
        assert false;
      }
    }
  }

  /** On a well-formed table no two orders share a time, so the listing is
      strictly newest first and the missing tie-break never matters. */
  lemma ListingStrictlyNewestFirst(t: Table)
    requires WellFormed(t)
    ensures var r := WaitingNewestFirst(t.orders);
      forall i, j :: 0 <= i < j < |r| ==> r[i].orderTime > r[j].orderTime
  {
    var r := WaitingNewestFirst(t.orders);
    assert multiset(r) <= multiset(t.orders);
    StrictWhenTimesDistinct(r, t.orders);
  }

  /** TaxiDriverOrderListView: the same listing, unpaginated, for any
      authenticated caller (its only permission class). */
  function TaxiDriverOrderList(caller: Option<User>, orders: seq<Order>): (r: Result<seq<Order>>)
    ensures r.Err? <==> caller.None?
    ensures r.Err? ==> r.error == NotAuthenticated
    ensures r.Ok? ==> NewestFirst(r.value)
    ensures r.Ok? ==> forall o :: o in r.value <==> o in orders && o.status == Waiting
    ensures r.Ok? ==> forall o :: multiset(r.value)[o] == if o.status == Waiting then multiset(orders)[o] else 0
  {
    if caller.None? then Err(NotAuthenticated) else Ok(WaitingNewestFirst(orders))
  }

  // ------------------------------------------------------------ pagination

  /** The number of pages of a list of `n` items; an empty list has one empty page. */
  function PageCount(n: nat): (c: nat)
    ensures c >= 1
    ensures (c - 1) * PAGE_SIZE <= n <= c * PAGE_SIZE
    ensures n > 0 ==> (c - 1) * PAGE_SIZE < n
  {
    if n <= PAGE_SIZE then 1 else 1 + PageCount(n - PAGE_SIZE)
  }

  /** Where page `number` ends: ten items after its start, or the end of the list. */
  function PageEnd(n: nat, number: nat): nat {
    if number * PAGE_SIZE <= n then number * PAGE_SIZE else n
  }

  /** Page `number` (counted from 1); a number outside 1..PageCount is not found. */
  function PageAt<T>(s: seq<T>, number: int): (r: Result<seq<T>>)
    ensures r.Ok? <==> 1 <= number <= PageCount(|s|)
    ensures r.Err? ==> r.error == NotFound
    ensures r.Ok? ==> |r.value| <= PAGE_SIZE
    ensures r.Ok? && number < PageCount(|s|) ==> |r.value| == PAGE_SIZE
    ensures r.Ok? ==> forall x :: x in r.value ==> x in s
  {
    if 1 <= number <= PageCount(|s|) then Ok(s[(number - 1) * PAGE_SIZE..PageEnd(|s|, number)])
    else Err(NotFound)
  }

  /** The first `m` pages, joined in order, are the list up to the end of page `m`. */
  lemma {:induction false} PagePrefix<T>(s: seq<T>, pages: seq<seq<T>>, m: nat)
    requires m <= |pages| <= PageCount(|s|)
    requires forall k :: 0 <= k < |pages| ==> PageAt(s, k + 1) == Ok(pages[k])
    ensures Concat(pages[..m]) == s[..PageEnd(|s|, m)]
  {
    if m == 0 {
      assert pages[..0] == [];
    } else {
      PagePrefix(s, pages, m - 1);
      assert pages[..m] == pages[..m - 1] + [pages[m - 1]];
      ConcatAppend(pages[..m - 1], pages[m - 1]);
      assert PageAt(s, m) == Ok(pages[m - 1]);
      assert (m - 1) * PAGE_SIZE == PageEnd(|s|, m - 1);
      assert s[..PageEnd(|s|, m)] == s[..PageEnd(|s|, m - 1)] + s[PageEnd(|s|, m - 1)..PageEnd(|s|, m)];
    }
  }

  /** Pages 1 to PageCount, joined in order, give back the whole list. */
  lemma {:induction false} PagesReproduce<T>(s: seq<T>, pages: seq<seq<T>>)
    requires |pages| == PageCount(|s|)
    requires forall k :: 0 <= k < |pages| ==> PageAt(s, k + 1) == Ok(pages[k])
    ensures Concat(pages) == s
  {
    PagePrefix(s, pages, |pages|);
    assert pages[..|pages|] == pages;
    assert s[..PageEnd(|s|, |pages|)] == s;
  }

  /** The paginated response: the total count and one page of results. */
  datatype Paged = Paged(count: nat, results: seq<Order>)

  /** OrderPagination over a listing: the listing's length and the requested
      page, page 1 when the request names none. */
  function Paginate(s: seq<Order>, page: Option<int>): (r: Result<Paged>)
    ensures r.Ok? <==> 1 <= page.GetOr(1) <= PageCount(|s|)
    ensures r.Err? ==> r.error == NotFound
    ensures r.Ok? ==> r.value.count == |s| && PageAt(s, page.GetOr(1)) == Ok(r.value.results)
  {
    match PageAt(s, page.GetOr(1))
    case Err(e) => Err(e)
    case Ok(results) => Ok(Paged(|s|, results))
  }

  /** ListOrdersForDrivers: taxi drivers only; the Waiting listing, newest
      first, in pages of ten. */
  function ListOrdersForDrivers(caller: Option<User>, orders: seq<Order>, page: Option<int>): (r: Result<Paged>)
    ensures r == Err(NotAuthenticated) <==> caller.None?
    ensures r == Err(Forbidden) <==> caller.Some? && !IsTaxiDriver(caller.value)
    ensures caller.Some? && IsTaxiDriver(caller.value) ==> r == Paginate(WaitingNewestFirst(orders), page)
    ensures r.Ok? ==> |r.value.results| <= PAGE_SIZE
    ensures r.Ok? ==> forall o :: o in r.value.results ==> o in orders && o.status == Waiting
  {
    if caller.None? then Err(NotAuthenticated)
    else if !IsTaxiDriver(caller.value) then Err(Forbidden)
    else Paginate(WaitingNewestFirst(orders), page)
  }

  /** A page a taxi driver receives is that page of the listing. */
  lemma {:induction false} DriverPage(caller: User, orders: seq<Order>, number: int, page: seq<Order>)
    requires IsTaxiDriver(caller)
    requires ListOrdersForDrivers(Some(caller), orders, Some(number)) == Ok(Paged(|WaitingNewestFirst(orders)|, page))
    ensures PageAt(WaitingNewestFirst(orders), number) == Ok(page)
  {
  }

  /** The pages a taxi driver receives for page numbers 1 to the page count,
      joined in order, are the whole listing. */
  lemma {:induction false} DriverPagesReproduceListing(caller: User, orders: seq<Order>, pages: seq<seq<Order>>)
    requires IsTaxiDriver(caller)
    requires |pages| == PageCount(|WaitingNewestFirst(orders)|)
    requires forall k :: 0 <= k < |pages| ==>
      ListOrdersForDrivers(Some(caller), orders, Some(k + 1)) == Ok(Paged(|WaitingNewestFirst(orders)|, pages[k]))
    ensures Concat(pages) == WaitingNewestFirst(orders)
  {
    var listing := WaitingNewestFirst(orders);
    forall k | 0 <= k < |pages| ensures PageAt(listing, k + 1) == Ok(pages[k]) {
      DriverPage(caller, orders, k + 1, pages[k]);
    }
    PagesReproduce(listing, pages);
  }
}

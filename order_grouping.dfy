/** readOrders and readMyOrders: the repository returns one flat row per order detail, joined with
    its order's header; the service regroups the rows by order token (orderStr) and cuts one page
    out of the groups.

    The distinct tokens are collected into a hash set and the groups are built in that set's
    iteration order, which is unspecified; the grouping method therefore picks the next token
    nondeterministically, and nothing proved here depends on the order of the groups. */
module OrderGrouping {
  import opened Common

  /** The order fields a row carries and a group copies (ReadOrderProjectionResponse). */
  datatype Header = Header(
    id: int,
    orderStr: string,
    address: string,
    addressDetail: string,
    zipcode: int,
    receiver: string,
    deliveryRate: int,
    price: int,
    request: string,
    loginId: Option<string>,
    desiredDeliveryDate: string,
    orderEmail: Option<string>,
    sender: string,
    receiverContactNumber: string,
    senderContactNumber: string,
    couponCode: Option<string>)

  /** One flat row: an order header joined with one of its details. */
  datatype Row<D> = Row(header: Header, detail: D)

  /** One ReadOrdersResponse. */
  datatype OrderView<D> = OrderView(header: Header, details: seq<D>)

  /** The map the two services return: "responseData" and "total". */
  datatype PageData<D> = PageData(responseData: seq<OrderView<D>>, total: int)

  /** How ArrayList.subList refuses a window: IndexOutOfBoundsException for a negative start,
      IllegalArgumentException for a start past the end. (An end past the list cannot occur,
      since the window is clipped to the group count.) */
  datatype PageError = IndexOutOfBounds | IllegalArgument

  function OrderStrs<D>(rows: seq<Row<D>>): set<string> {
    set i | 0 <= i < |rows| :: rows[i].header.orderStr
  }

  /** The details of the rows carrying `token`, in row order. */
  function DetailsWith<D>(rows: seq<Row<D>>, token: string): (r: seq<D>)
    ensures |r| <= |rows|
  {
    if rows == [] then []
    else
      var last := rows[|rows| - 1];
      DetailsWith(rows[..|rows| - 1], token) + if last.header.orderStr == token then [last.detail] else []
  }

  /** The details collected for a token are exactly those of the rows carrying it. */
  lemma {:induction false} DetailsWithMembers<D>(rows: seq<Row<D>>, token: string)
    ensures var r := DetailsWith(rows, token);
            && (forall i :: 0 <= i < |rows| && rows[i].header.orderStr == token ==> rows[i].detail in r)
            && (forall k :: 0 <= k < |r| ==>
                  exists i :: 0 <= i < |rows| && rows[i].header.orderStr == token && rows[i].detail == r[k])
  {
    if rows != [] {
      var prefix := rows[..|rows| - 1];
      DetailsWithMembers(prefix, token);
      assert forall i :: 0 <= i < |prefix| ==> prefix[i] == rows[i];
      var earlier, r, last := DetailsWith(prefix, token), DetailsWith(rows, token), rows[|rows| - 1];
      assert r == earlier + if last.header.orderStr == token then [last.detail] else [];
      forall i | 0 <= i < |rows| && rows[i].header.orderStr == token
        ensures rows[i].detail in r
      {
        if i < |prefix| {
          assert prefix[i] == rows[i] && rows[i].detail in earlier;
        }
      }
      forall k | 0 <= k < |r|
        ensures exists i :: 0 <= i < |rows| && rows[i].header.orderStr == token && rows[i].detail == r[k]
      {
        if k < |earlier| {
          var i :| 0 <= i < |prefix| && prefix[i].header.orderStr == token && prefix[i].detail == earlier[k];
          assert rows[i] == prefix[i] && r[k] == earlier[k];
        } else {
          assert last.header.orderStr == token && r[k] == last.detail;
        }
      }
    } else {
      assert DetailsWith(rows, token) == [];
    }
  }

  /** The position of the first row carrying `token`. */
  function FirstIndex<D>(rows: seq<Row<D>>, token: string): (k: nat)
    requires token in OrderStrs(rows)
    ensures k < |rows| && rows[k].header.orderStr == token
    ensures forall j :: 0 <= j < k ==> rows[j].header.orderStr != token
  {
    if rows[0].header.orderStr == token then 0
    else
      assert token in OrderStrs(rows[1..]) by {
        var i :| 0 <= i < |rows| && rows[i].header.orderStr == token;
        assert rows[1..][i - 1] == rows[i];
      }
      1 + FirstIndex(rows[1..], token)
  }

  /** The group of `token`: the header of its first row (readMyOrders leaves the order e-mail
      out) and the details of all its rows, in row order. */
  function ViewOf<D>(rows: seq<Row<D>>, token: string, withEmail: bool): (r: OrderView<D>)
    requires token in OrderStrs(rows)
    ensures r.header.orderStr == token && r.details == DetailsWith(rows, token)
    ensures var first := rows[FirstIndex(rows, token)].header;
            r.header.(orderEmail := first.orderEmail) == first && (withEmail ==> r.header == first)
    ensures !withEmail ==> r.header.orderEmail.None?
  {
    var h := rows[FirstIndex(rows, token)].header;
    OrderView(if withEmail then h else h.(orderEmail := None), DetailsWith(rows, token))
  }

  /** Every group is the group of its own token. */
  ghost predicate Faithful<D>(rows: seq<Row<D>>, views: seq<OrderView<D>>, withEmail: bool) {
    forall i :: 0 <= i < |views| ==>
      views[i].header.orderStr in OrderStrs(rows) && views[i] == ViewOf(rows, views[i].header.orderStr, withEmail)
  }

  /** No token has two groups. */
  ghost predicate Distinct<D>(views: seq<OrderView<D>>) {
    forall i, j :: 0 <= i < j < |views| ==> views[i].header.orderStr != views[j].header.orderStr
  }

  /** The tokens of a list of groups. */
  function Tokens<D>(views: seq<OrderView<D>>): set<string> {
    set i | 0 <= i < |views| :: views[i].header.orderStr
  }

  /** The grouping loop of readOrders (withEmail) and readMyOrders (without): one group per
      distinct token, each built by a findFirst and a filtered pass over the rows. */
  method GroupRows<D>(rows: seq<Row<D>>, withEmail: bool) returns (views: seq<OrderView<D>>)
    ensures |views| == |OrderStrs(rows)|
    ensures forall i :: 0 <= i < |views| ==>
              views[i].header.orderStr in OrderStrs(rows) &&
              views[i] == ViewOf(rows, views[i].header.orderStr, withEmail)
    ensures forall i, j :: 0 <= i < j < |views| ==> views[i].header.orderStr != views[j].header.orderStr
    ensures forall t :: t in OrderStrs(rows) ==> exists i :: 0 <= i < |views| && views[i].header.orderStr == t
  {
    var remaining := OrderStrs(rows);
    views := [];
    while remaining != {}
      invariant remaining <= OrderStrs(rows)
      invariant |views| + |remaining| == |OrderStrs(rows)|
      invariant Tokens(views) == OrderStrs(rows) - remaining
      invariant Faithful(rows, views, withEmail) && Distinct(views)
      decreases |remaining|
    {
      var token :| token in remaining;
      var view := BuildView(rows, token, withEmail);
      AppendView(rows, views, view, token, withEmail);
      views := views + [view];
      remaining := remaining - {token};
    }
    forall t | t in OrderStrs(rows)
      ensures exists i :: 0 <= i < |views| && views[i].header.orderStr == t
    {
      assert t in Tokens(views);
    }
  }

  /** Appending the group of a token not yet grouped keeps the groups faithful and distinct. */
  lemma AppendView<D>(rows: seq<Row<D>>, views: seq<OrderView<D>>, view: OrderView<D>, token: string, withEmail: bool)
    requires Faithful(rows, views, withEmail) && Distinct(views)
    requires token in OrderStrs(rows) && token !in Tokens(views)
    requires view == ViewOf(rows, token, withEmail) && view.header.orderStr == token
    ensures Faithful(rows, views + [view], withEmail) && Distinct(views + [view])
    ensures Tokens(views + [view]) == Tokens(views) + {token}
  {
    var longer := views + [view];
    assert forall i :: 0 <= i < |views| ==> longer[i] == views[i];
    assert longer[|views|] == view;
    forall i | 0 <= i < |views|
      ensures longer[i].header.orderStr != token
    {
      assert views[i].header.orderStr in Tokens(views);
    }
  }

  /** One group: the header of the first row of `token` and the details of all its rows. */
  method BuildView<D>(rows: seq<Row<D>>, token: string, withEmail: bool) returns (view: OrderView<D>)
    requires token in OrderStrs(rows)
    ensures view == ViewOf(rows, token, withEmail) && view.header.orderStr == token
  {
    var first := FindFirst(rows, token);
    var details := CollectDetails(rows, token);
    var h := rows[first].header;
    view := OrderView(if withEmail then h else h.(orderEmail := None), details);
  }

  /** findFirst over the rows of `token`. */
  method FindFirst<D>(rows: seq<Row<D>>, token: string) returns (k: nat)
    requires token in OrderStrs(rows)
    ensures k == FirstIndex(rows, token)
  {
    k := 0;
    while rows[k].header.orderStr != token
      invariant k <= FirstIndex(rows, token)
      decreases FirstIndex(rows, token) - k
    {
      k := k + 1;
    }
  }

  /** The while loop that appends the details of the rows of `token`. */
  method CollectDetails<D>(rows: seq<Row<D>>, token: string) returns (details: seq<D>)
    ensures details == DetailsWith(rows, token)
  {
    details := [];
    var i := 0;
    while i < |rows|
      invariant 0 <= i <= |rows|
      invariant details == DetailsWith(rows[..i], token)
    {
      assert rows[..i + 1][..i] == rows[..i];
      if rows[i].header.orderStr == token {
        details := details + [rows[i].detail];
      }
      i := i + 1;
    }
    assert rows[..i] == rows;
  }

  /** The page window: `page` counts from one and the window is clipped to the group count. */
  function PageFrom(n: int, page: int, size: int): int { Min((page - 1) * size, n) }
  function PageTo(n: int, page: int, size: int): int { Min(page * size, n) }
  function Min(a: int, b: int): int { if a <= b then a else b }

  /** The page of the groups and its reported total, which is the length of the page. */
  function Paginate<D>(views: seq<OrderView<D>>, page: int, size: int): (r: Result<PageData<D>, PageError>)
    ensures r.Ok? <==> 0 <= PageFrom(|views|, page, size) <= PageTo(|views|, page, size)
    ensures r == Err(IndexOutOfBounds) <==> PageFrom(|views|, page, size) < 0
    ensures r == Err(IllegalArgument) <==> 0 <= PageFrom(|views|, page, size) && PageTo(|views|, page, size) < PageFrom(|views|, page, size)
    ensures r.Ok? ==>
              && r.value.responseData == views[PageFrom(|views|, page, size)..PageTo(|views|, page, size)]
              && r.value.total == |r.value.responseData|
    ensures 1 <= page && 0 <= size ==> r.Ok? && |r.value.responseData| <= size
  {
    var from, to := PageFrom(|views|, page, size), PageTo(|views|, page, size);
    if from < 0 then Err(IndexOutOfBounds)
    else if to < from then Err(IllegalArgument)
    else
      var slice := views[from..to];
      Ok(PageData(slice, |slice|))
  }

  /** Consecutive pages abut: each page starts where the previous one ends. */
  lemma PagesAbut<D>(views: seq<OrderView<D>>, page: int, size: int)
    requires 1 <= page && 0 <= size
    ensures PageTo(|views|, page, size) == PageFrom(|views|, page + 1, size)
  {
  }

  /** The first `k` pages, laid end to end, are the groups up to position min(k * size, n). */
  lemma {:induction false} PagesCover<D>(views: seq<OrderView<D>>, k: nat, size: nat)
    ensures Pages(views, k, size) == views[..Min(k * size, |views|)]
  {
    if k > 0 {
      PagesCover(views, k - 1, size);
      var lo, hi := (k - 1) * size, k * size;
      assert hi == lo + size;
      assert 0 <= lo;
      var a, b := Min(lo, |views|), Min(hi, |views|);
      assert Paginate(views, k, size).value.responseData == views[a..b];
      assert views[..a] + views[a..b] == views[..b];
    }
  }

  /** The groups of pages 1 to k, concatenated. */
  function Pages<D>(views: seq<OrderView<D>>, k: nat, size: nat): seq<OrderView<D>> {
    if k == 0 then []
    else Pages(views, k - 1, size) + Paginate(views, k, size).value.responseData
  }

  /** readOrders over the rows the repository returned. */
  method ReadOrders<D>(rows: seq<Row<D>>, page: int, size: int) returns (r: Result<PageData<D>, PageError>)
    ensures 1 <= page && 0 <= size ==> r.Ok? && r.value.total == |r.value.responseData| <= size
    ensures r.Ok? ==> |r.value.responseData| <= |OrderStrs(rows)|
    ensures r.Ok? ==> forall v :: v in r.value.responseData ==>
              v.header.orderStr in OrderStrs(rows) && v == ViewOf(rows, v.header.orderStr, true)
    ensures var n := |OrderStrs(rows)|;
            && (r.Err? <==> !(0 <= PageFrom(n, page, size) <= PageTo(n, page, size)))
            && (r == Err(IndexOutOfBounds) <==> PageFrom(n, page, size) < 0)
            && (r == Err(IllegalArgument) <==> 0 <= PageFrom(n, page, size) && PageTo(n, page, size) < PageFrom(n, page, size))
            && (r.Ok? ==> |r.value.responseData| == PageTo(n, page, size) - PageFrom(n, page, size))
    ensures r.Ok? ==> Distinct(r.value.responseData)
    ensures exists views :: |views| == |OrderStrs(rows)| && Faithful(rows, views, true) && Distinct(views) &&
                            r == Paginate(views, page, size)
  {
    var views := GroupRows(rows, true);
    r := Paginate(views, page, size);
  }

  /** readMyOrders over the rows the repository returned for the login; its groups carry no order
      e-mail. */
  method ReadMyOrders<D>(rows: seq<Row<D>>, page: int, size: int) returns (r: Result<PageData<D>, PageError>)
    ensures 1 <= page && 0 <= size ==> r.Ok? && r.value.total == |r.value.responseData| <= size
    ensures r.Ok? ==> |r.value.responseData| <= |OrderStrs(rows)|
    ensures r.Ok? ==> forall v :: v in r.value.responseData ==>
              v.header.orderStr in OrderStrs(rows) && v == ViewOf(rows, v.header.orderStr, false) &&
              v.header.orderEmail.None?
    ensures var n := |OrderStrs(rows)|;
            && (r.Err? <==> !(0 <= PageFrom(n, page, size) <= PageTo(n, page, size)))
            && (r == Err(IndexOutOfBounds) <==> PageFrom(n, page, size) < 0)
            && (r == Err(IllegalArgument) <==> 0 <= PageFrom(n, page, size) && PageTo(n, page, size) < PageFrom(n, page, size))
            && (r.Ok? ==> |r.value.responseData| == PageTo(n, page, size) - PageFrom(n, page, size))
    ensures r.Ok? ==> Distinct(r.value.responseData)
    ensures exists views :: |views| == |OrderStrs(rows)| && Faithful(rows, views, false) && Distinct(views) &&
                            r == Paginate(views, page, size)
  {
    var views := GroupRows(rows, false);
    r := Paginate(views, page, size);
  }

  /** Three rows, two of order "A" and one of order "B", make two groups; the "A" group holds its
      two details in row order. */
  lemma GroupingExample(h: Header, d1: int, d2: int, d3: int)
    ensures var a, b := h.(orderStr := "A"), h.(orderStr := "B");
            var rows := [Row(a, d1), Row(b, d2), Row(a, d3)];
            && OrderStrs(rows) == {"A", "B"}
            && |OrderStrs(rows)| == 2
            && ViewOf(rows, "A", true) == OrderView(a, [d1, d3])
            && ViewOf(rows, "B", true) == OrderView(b, [d2])
  {
    var a, b := h.(orderStr := "A"), h.(orderStr := "B");
    var rows := [Row(a, d1), Row(b, d2), Row(a, d3)];
    assert rows[0].header.orderStr == "A" && rows[1].header.orderStr == "B";
    assert OrderStrs(rows) == {"A", "B"};
    var one, two := [Row(a, d1)], [Row(a, d1), Row(b, d2)];
    assert one[..0] == [] && two[..1] == one && rows[..2] == two;
    assert DetailsWith(one, "A") == [d1] && DetailsWith(one, "B") == [];
    assert DetailsWith(two, "A") == [d1] && DetailsWith(two, "B") == [d2];
    assert DetailsWith(rows, "A") == [d1, d3];
    assert DetailsWith(rows, "B") == [d2];
  }

  /** Five groups and pages of two: the first page holds two groups and reports a total of two,
      the page length, not the five groups. */
  lemma PagingExample(views: seq<OrderView<int>>)
    requires |views| == 5
    ensures Paginate(views, 1, 2).Ok? && Paginate(views, 1, 2).value.total == 2
    ensures Paginate(views, 3, 2).Ok? && Paginate(views, 3, 2).value.total == 1
  {
  }

  /** The two ways subList refuses a window, on one group: a negative size makes page 1 the
      window 0 to -1 (IllegalArgumentException), and page 0 with size 1 starts at -1
      (IndexOutOfBoundsException). */
  lemma PageErrorExample(views: seq<OrderView<int>>)
    requires |views| == 1
    ensures Paginate(views, 1, -1) == Err(IllegalArgument)
    ensures Paginate(views, 0, 1) == Err(IndexOutOfBounds)
  {
  }
}

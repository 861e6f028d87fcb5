/** The state-changing operations of OrderService over in-memory tables: createOrder, the bulk
    status changes updateOrder (customer) and updateOrderWithAdmin, and the single-detail updates
    updateOrderDetail and updateOrderDetailWithAdmin.

    Every one of these runs in one transaction that rolls back on any exception, so a failure
    leaves every table as it was; the methods restore or postpone their writes accordingly. A
    null that the source dereferences (an unknown order token, the user of a guest order, an
    unknown order detail) is reported as an error of its own. */
module OrderService {
  import opened Common
  import opened OrderRules
  import opened ProductService

  /** The id of the UNPACKAGED wrapping record, used when a line names wrapping 0. */
  const UNPACKAGED: int := 1

  /** An order row; `loginId == None` is a guest order (no user). */
  datatype Order = Order(id: int, orderStr: string, loginId: Option<string>, address: string, addressId: Option<int>)

  datatype LineRequest = LineRequest(productId: int, quantity: int, wrap: bool, wrappingId: int, statusId: int)

  /** CreateOrderRequest; `addressId` is the parsed value of its `addresses` field. */
  datatype CreateOrderRequest = CreateOrderRequest(
    orderStr: string,
    loginId: Option<string>,
    address: string,
    addressId: int,
    lines: seq<LineRequest>)

  datatype OrderError =
    | OrderNotFound
    | UserNotFound
    | AddressNotFound
    | OrderStatusNotFound
    | WrappingNotFound
    | ProductNotFound
    | OrderDetailNotFound
    /** The IllegalArgumentException the bulk write loops throw for a missing wrapping; placing
        an order and the single-detail updates throw WrappingNotFound instead. */
    | IllegalWrapping
    | OutOfStock
    | NullUser
    | Violation(rule: RuleViolation)

  // ---------------------------------------------------------------------------------------------
  // createOrder
  // ---------------------------------------------------------------------------------------------

  /** String.isBlank for the whitespace characters of the Basic Latin block. */
  predicate IsBlank(s: string) {
    forall i :: 0 <= i < |s| ==> s[i] in {' ', '\t', '\n', '\r', '\U{0B}', '\U{0C}', '\U{1C}', '\U{1D}', '\U{1E}', '\U{1F}'}
  }

  /** The wrapping record a line is saved with. */
  function WrappingFor(wrappingId: int): int {
    if wrappingId != 0 then wrappingId else UNPACKAGED
  }

  /** The order row createOrder saves: it belongs to the request's user when a non-blank login is
      given, and carries the address id only when the address text is empty. */
  function NewOrder(req: CreateOrderRequest, id: int): Order {
    var user := if req.loginId.Some? && !IsBlank(req.loginId.value) then req.loginId else None;
    Order(id, req.orderStr, user, req.address, if req.address == "" then Some(req.addressId) else None)
  }

  /** One pass of the line loop: status, wrapping and product lookups, then the stock decrement
      and the detail with the product's current price. */
  function PlaceLine(line: LineRequest, products: map<int, Product>, wrappings: set<int>,
                     statuses: map<int, Status>, orderId: int, detailId: int, now: int)
    : (r: Result<(Detail, map<int, Product>), OrderError>)
    ensures r.Ok? <==> && line.statusId in statuses && WrappingFor(line.wrappingId) in wrappings
                       && line.productId in products && line.quantity <= products[line.productId].stock
    ensures r.Ok? ==> r.value.0.price == products[line.productId].price && r.value.0.id == detailId
    ensures r.Ok? ==> r.value.1.Keys == products.Keys &&
                      r.value.1[line.productId].stock == products[line.productId].stock - line.quantity
  {
    if line.statusId !in statuses then Err(OrderStatusNotFound)
    else if WrappingFor(line.wrappingId) !in wrappings then Err(WrappingNotFound)
    else if line.productId !in products then Err(ProductNotFound)
    else
      var p := products[line.productId];
      match DecreaseStock(p, line.quantity)
      case Err(_) => Err(OutOfStock)
      case Ok(decreased) =>
        Ok((Detail(detailId, line.quantity, p.price, line.wrap, now, now, statuses[line.statusId],
                   orderId, WrappingFor(line.wrappingId), line.productId),
            products[line.productId := decreased]))
  }

  /** The whole line loop: the details saved, with consecutive ids from `firstId`, and the product
      table afterwards; the first failing line aborts. */
  function PlaceLines(lines: seq<LineRequest>, products: map<int, Product>, wrappings: set<int>,
                      statuses: map<int, Status>, orderId: int, firstId: int, now: int)
    : (r: Result<(seq<Detail>, map<int, Product>), OrderError>)
    ensures r.Ok? ==> |r.value.0| == |lines| && r.value.1.Keys == products.Keys
    ensures r.Err? ==> r.error in {OrderStatusNotFound, WrappingNotFound, ProductNotFound, OutOfStock}
  {
    if lines == [] then Ok(([], products))
    else
      match PlaceLines(lines[..|lines| - 1], products, wrappings, statuses, orderId, firstId, now)
      case Err(e) => Err(e)
      case Ok((ds, ps)) =>
        match PlaceLine(lines[|lines| - 1], ps, wrappings, statuses, orderId, firstId + |lines| - 1, now)
        case Err(e) => Err(e)
        case Ok((d, ps')) => Ok((ds + [d], ps'))
  }

  /** The total quantity the lines order of product `pid`. */
  function QuantityOf(lines: seq<LineRequest>, pid: int): int {
    if lines == [] then 0
    else QuantityOf(lines[..|lines| - 1], pid) + if lines[|lines| - 1].productId == pid then lines[|lines| - 1].quantity else 0
  }

  /** Every line names a registered status, an existing wrapping (0 meaning UNPACKAGED) and an
      existing product. */
  ghost predicate LinesResolve(lines: seq<LineRequest>, products: map<int, Product>, wrappings: set<int>,
                               statuses: map<int, Status>) {
    forall k :: 0 <= k < |lines| ==>
      lines[k].statusId in statuses && WrappingFor(lines[k].wrappingId) in wrappings && lines[k].productId in products
  }

  /** After the line loop, every product's stock is lower by exactly the quantity ordered of it,
      and nothing else about any product changes. */
  lemma {:induction false} PlaceLinesStock(lines: seq<LineRequest>, products: map<int, Product>, wrappings: set<int>,
                                           statuses: map<int, Status>, orderId: int, firstId: int, now: int)
    requires PlaceLines(lines, products, wrappings, statuses, orderId, firstId, now).Ok?
    ensures var ps := PlaceLines(lines, products, wrappings, statuses, orderId, firstId, now).value.1;
            && ps.Keys == products.Keys
            && forall pid :: pid in products ==>
                 ps[pid] == products[pid].(stock := products[pid].stock - QuantityOf(lines, pid))
  {
    if lines != [] {
      PlaceLinesStock(lines[..|lines| - 1], products, wrappings, statuses, orderId, firstId, now);
    }
  }

  /** Line k becomes the detail with id firstId + k: the line's quantity, wrap flag, status and
      product, the wrapping it names (UNPACKAGED for 0), and the product's price as it stood
      before the order. */
  lemma {:induction false} PlaceLinesDetails(lines: seq<LineRequest>, products: map<int, Product>, wrappings: set<int>,
                                             statuses: map<int, Status>, orderId: int, firstId: int, now: int)
    requires PlaceLines(lines, products, wrappings, statuses, orderId, firstId, now).Ok?
    ensures LinesResolve(lines, products, wrappings, statuses)
    ensures var ds := PlaceLines(lines, products, wrappings, statuses, orderId, firstId, now).value.0;
            && |ds| == |lines|
            && forall k :: 0 <= k < |lines| ==>
                 ds[k] == Detail(firstId + k, lines[k].quantity, products[lines[k].productId].price, lines[k].wrap,
                                 now, now, statuses[lines[k].statusId], orderId, WrappingFor(lines[k].wrappingId),
                                 lines[k].productId)
  {
    if lines != [] {
      var prefix := lines[..|lines| - 1];
      PlaceLinesDetails(prefix, products, wrappings, statuses, orderId, firstId, now);
      PlaceLinesStock(prefix, products, wrappings, statuses, orderId, firstId, now);
      assert forall k :: 0 <= k < |prefix| ==> prefix[k] == lines[k];
    }
  }

  /** The details the loop saves carry the ids firstId, firstId + 1, ... in line order. */
  lemma PlaceLinesIds(lines: seq<LineRequest>, products: map<int, Product>, wrappings: set<int>,
                      statuses: map<int, Status>, orderId: int, firstId: int, now: int)
    requires PlaceLines(lines, products, wrappings, statuses, orderId, firstId, now).Ok?
    ensures var ds := PlaceLines(lines, products, wrappings, statuses, orderId, firstId, now).value.0;
            |ds| == |lines| && forall k :: 0 <= k < |ds| ==> ds[k].id == firstId + k
  {
    PlaceLinesDetails(lines, products, wrappings, statuses, orderId, firstId, now);
  }

  /** A line whose status, wrapping or product is missing aborts the whole order. */
  lemma {:induction false} MissingReferenceAborts(lines: seq<LineRequest>, products: map<int, Product>, wrappings: set<int>,
                                                  statuses: map<int, Status>, orderId: int, firstId: int, now: int)
    requires !LinesResolve(lines, products, wrappings, statuses)
    ensures PlaceLines(lines, products, wrappings, statuses, orderId, firstId, now).Err?
  {
    if PlaceLines(lines, products, wrappings, statuses, orderId, firstId, now).Ok? {
      PlaceLinesDetails(lines, products, wrappings, statuses, orderId, firstId, now);
    }
  }

  /** With non-negative stock, non-negative quantities and resolvable lines, the order goes
      through exactly when no product is ordered beyond its stock, and then no stock becomes
      negative. */
  lemma {:induction false} PlaceLinesSucceedsIffStock(lines: seq<LineRequest>, products: map<int, Product>, wrappings: set<int>,
                                                      statuses: map<int, Status>, orderId: int, firstId: int, now: int)
    requires LinesResolve(lines, products, wrappings, statuses)
    requires forall k :: 0 <= k < |lines| ==> lines[k].quantity >= 0
    requires forall pid :: pid in products ==> products[pid].stock >= 0
    ensures PlaceLines(lines, products, wrappings, statuses, orderId, firstId, now).Ok? <==>
              forall pid :: pid in products ==> QuantityOf(lines, pid) <= products[pid].stock
    ensures var r := PlaceLines(lines, products, wrappings, statuses, orderId, firstId, now);
            r.Ok? ==> forall pid :: pid in r.value.1 ==> r.value.1[pid].stock >= 0
  {
    if PlaceLines(lines, products, wrappings, statuses, orderId, firstId, now).Ok? {
      PlaceLinesStock(lines, products, wrappings, statuses, orderId, firstId, now);
    }
    if lines != [] {
      var prefix, last := lines[..|lines| - 1], lines[|lines| - 1];
      assert forall k :: 0 <= k < |prefix| ==> prefix[k] == lines[k];
      assert last.productId in products;
      PlaceLinesSucceedsIffStock(prefix, products, wrappings, statuses, orderId, firstId, now);
      QuantityOfGrows(lines);
      var total := QuantityOf(lines, last.productId);
      assert total == QuantityOf(prefix, last.productId) + last.quantity;
      assert forall pid :: pid != last.productId ==> QuantityOf(lines, pid) == QuantityOf(prefix, pid);
      if PlaceLines(prefix, products, wrappings, statuses, orderId, firstId, now).Ok? {
        PlaceLinesStock(prefix, products, wrappings, statuses, orderId, firstId, now);
        var ps := PlaceLines(prefix, products, wrappings, statuses, orderId, firstId, now).value.1;
        assert ps[last.productId].stock == products[last.productId].stock - QuantityOf(prefix, last.productId);
        if PlaceLines(lines, products, wrappings, statuses, orderId, firstId, now).Ok? {
          assert DecreaseStock(ps[last.productId], last.quantity).Ok?;
          forall pid | pid in products
            ensures QuantityOf(lines, pid) <= products[pid].stock
          {
            if pid != last.productId {
              assert QuantityOf(lines, pid) == QuantityOf(prefix, pid);
            }
          }
        } else {
          assert DecreaseStock(ps[last.productId], last.quantity).Err?;
          assert total > products[last.productId].stock;
        }
      } else {
        var pid :| pid in products && QuantityOf(prefix, pid) > products[pid].stock;
        assert QuantityOf(lines, pid) > products[pid].stock;
      }
    }
  }

  /** Dropping the last line never raises an ordered quantity when quantities are non-negative. */
  lemma QuantityOfGrows(lines: seq<LineRequest>)
    requires lines != []
    requires lines[|lines| - 1].quantity >= 0
    ensures forall pid :: QuantityOf(lines[..|lines| - 1], pid) <= QuantityOf(lines, pid)
  {
  }

  /** A failure in the first k lines is the failure of the whole loop. */
  lemma {:induction false} PlaceLinesFailurePersists(lines: seq<LineRequest>, k: nat, products: map<int, Product>,
                                                     wrappings: set<int>, statuses: map<int, Status>,
                                                     orderId: int, firstId: int, now: int)
    requires k <= |lines|
    requires PlaceLines(lines[..k], products, wrappings, statuses, orderId, firstId, now).Err?
    ensures PlaceLines(lines, products, wrappings, statuses, orderId, firstId, now) ==
              PlaceLines(lines[..k], products, wrappings, statuses, orderId, firstId, now)
    decreases |lines|
  {
    if k < |lines| {
      var prefix := lines[..|lines| - 1];
      assert prefix[..k] == lines[..k];
      PlaceLinesFailurePersists(prefix, k, products, wrappings, statuses, orderId, firstId, now);
    } else {
      assert lines[..k] == lines;
    }
  }

  /** createOrder as one value: the user check, the address check, then the line loop. */
  function CreateResult(req: CreateOrderRequest, users: set<string>, addresses: set<int>,
                        products: map<int, Product>, wrappings: set<int>, statuses: map<int, Status>,
                        orderId: int, firstId: int, now: int)
    : (r: Result<(Order, seq<Detail>, map<int, Product>), OrderError>)
    ensures var userOk := req.loginId.None? || IsBlank(req.loginId.value) || req.loginId.value in users;
            var addressOk := req.address != "" || req.addressId in addresses;
            && (!userOk ==> r == Err(UserNotFound))
            && (userOk && !addressOk ==> r == Err(AddressNotFound))
            && (r.Ok? <==> userOk && addressOk && PlaceLines(req.lines, products, wrappings, statuses, orderId, firstId, now).Ok?)
    ensures r.Ok? ==> && r.value.0.id == orderId && r.value.0.orderStr == req.orderStr
                      && |r.value.1| == |req.lines| && r.value.2.Keys == products.Keys
  {
    if req.loginId.Some? && !IsBlank(req.loginId.value) && req.loginId.value !in users then Err(UserNotFound)
    else if req.address == "" && req.addressId !in addresses then Err(AddressNotFound)
    else
      match PlaceLines(req.lines, products, wrappings, statuses, orderId, firstId, now)
      case Err(e) => Err(e)
      case Ok((ds, ps)) => Ok((NewOrder(req, orderId), ds, ps))
  }

  // ---------------------------------------------------------------------------------------------
  // Lookups over the tables
  // ---------------------------------------------------------------------------------------------

  /** orderRepository.findByOrderStr. */
  function FindOrderByStr(orders: seq<Order>, orderStr: string): (r: Option<Order>)
    ensures r.Some? ==> r.value in orders && r.value.orderStr == orderStr
    ensures r.None? ==> forall i :: 0 <= i < |orders| ==> orders[i].orderStr != orderStr
  {
    if orders == [] then None
    else if orders[0].orderStr == orderStr then Some(orders[0])
    else FindOrderByStr(orders[1..], orderStr)
  }

  /** The position of the detail with `id`. */
  function IndexOfDetail(details: seq<Detail>, id: int): (r: Option<nat>)
    ensures r.Some? ==> r.value < |details| && details[r.value].id == id
    ensures r.None? ==> forall i :: 0 <= i < |details| ==> details[i].id != id
  {
    if details == [] then None
    else if details[0].id == id then Some(0)
    else match IndexOfDetail(details[1..], id)
      case None => None
      case Some(k) => Some(k + 1)
  }

  /** findAllByOrder_Id: the details of an order, in table order. */
  function DetailsOf(details: seq<Detail>, orderId: int): (r: seq<Detail>)
    ensures |r| <= |details|
  {
    if details == [] then []
    else DetailsOf(details[..|details| - 1], orderId) +
         if details[|details| - 1].orderId == orderId then [details[|details| - 1]] else []
  }

  /** findAllByOrder_Id returns exactly the rows of that order. */
  lemma {:induction false} DetailsOfMembers(details: seq<Detail>, orderId: int)
    ensures forall d :: d in DetailsOf(details, orderId) <==> d in details && d.orderId == orderId
  {
    if details != [] {
      var prefix := details[..|details| - 1];
      DetailsOfMembers(prefix, orderId);
      assert details == prefix + [details[|details| - 1]];
    }
  }

  /** The product and wrapping lookups of the write loop: the first detail, in list order, whose
      product or (after it) wrapping is gone decides the exception. */
  function FirstMissingRef(ds: seq<Detail>, products: map<int, Product>, wrappings: set<int>): (r: Option<OrderError>)
    ensures r.None? <==> forall i :: 0 <= i < |ds| ==> ds[i].productId in products && ds[i].wrappingId in wrappings
    ensures r.Some? ==> r.value == ProductNotFound || r.value == IllegalWrapping
  {
    if ds == [] then None
    else
      var earlier := FirstMissingRef(ds[..|ds| - 1], products, wrappings);
      var last := ds[|ds| - 1];
      if earlier.Some? then earlier
      else if last.productId !in products then Some(ProductNotFound)
      else if last.wrappingId !in wrappings then Some(IllegalWrapping)
      else None
  }

  /** The table after every detail of `orderId` got status `s`. */
  ghost predicate StatusApplied(before: seq<Detail>, after: seq<Detail>, orderId: int, s: Status) {
    && |after| == |before|
    && forall i :: 0 <= i < |before| ==>
         after[i] == if before[i].orderId == orderId then before[i].(status := s) else before[i]
  }

  /** The selected details of a bulk update on either path, and the outcome: `None` when the
      update goes through. Guards come first, then the lookups of the write loop, then the
      dereference of the order's user. */
  function BulkUpdateError(path: GuardPath, orders: seq<Order>, details: seq<Detail>, products: map<int, Product>,
                           wrappings: set<int>, orderStr: string, loginId: string, s: Status, now: int)
    : (r: Option<OrderError>)
    ensures r == Some(OrderNotFound) <==> FindOrderByStr(orders, orderStr).None?
    ensures r.None? ==> FindOrderByStr(orders, orderStr).Some? && FindOrderByStr(orders, orderStr).value.loginId.Some?
    ensures r.None? ==>
              Guard(path, s, Selected(path, FindOrderByStr(orders, orderStr).value, details, loginId), now).None?
  {
    match FindOrderByStr(orders, orderStr)
    case None => Some(OrderNotFound)
    case Some(order) =>
      var selected := Selected(path, order, details, loginId);
      var guard := Guard(path, s, selected, now);
      if guard.Some? then Some(Violation(guard.value))
      else
        var missing := FirstMissingRef(selected, products, wrappings);
        if missing.Some? then missing
        else if order.loginId.None? then Some(NullUser)
        else None
  }

  /** The details a bulk update reads: on the customer path only those of an order of that
      login (findAllByOrder_IdAndOrder_User_LoginId), on the administrator path all of them. */
  function Selected(path: GuardPath, order: Order, details: seq<Detail>, loginId: string): (r: seq<Detail>)
    ensures forall d :: d in r ==> d in details && d.orderId == order.id
    ensures path != UserPath || order.loginId == Some(loginId) ==>
              forall d :: d in details && d.orderId == order.id ==> d in r
    ensures path == UserPath && order.loginId != Some(loginId) ==> r == []
  {
    DetailsOfMembers(details, order.id);
    if path == UserPath && order.loginId != Some(loginId) then [] else DetailsOf(details, order.id)
  }

  /** After the write loop, the order's details read back (findAllByOrder_Id) as they were,
      each with the new status, in the same order; every other order reads back unchanged. */
  lemma {:induction false} StatusAppliedDetails(before: seq<Detail>, after: seq<Detail>, orderId: int, s: Status, other: int)
    requires StatusApplied(before, after, orderId, s)
    ensures var was, now := DetailsOf(before, orderId), DetailsOf(after, orderId);
            |now| == |was| && forall k :: 0 <= k < |was| ==> now[k] == was[k].(status := s)
    ensures other != orderId ==> DetailsOf(after, other) == DetailsOf(before, other)
  {
    if before != [] {
      var n := |before| - 1;
      assert StatusApplied(before[..n], after[..n], orderId, s);
      StatusAppliedDetails(before[..n], after[..n], orderId, s, other);
      assert after[n].orderId == before[n].orderId;
    }
  }

  /** Order and detail ids are distinct and below the next ids handed out. */
  ghost predicate FreshIds(orders: seq<Order>, details: seq<Detail>, nextOrderId: int, nextDetailId: int) {
    && (forall i :: 0 <= i < |orders| ==> orders[i].id < nextOrderId)
    && (forall i :: 0 <= i < |details| ==> details[i].id < nextDetailId)
    && (forall i, j :: 0 <= i < j < |orders| ==> orders[i].id != orders[j].id)
    && (forall i, j :: 0 <= i < j < |details| ==> details[i].id != details[j].id)
  }

  /** Saving an order with the next order id and details with consecutive ids from the next
      detail id keeps the ids fresh. */
  lemma AppendKeepsFreshIds(orders: seq<Order>, details: seq<Detail>, nextOrderId: int, nextDetailId: int,
                            order: Order, ds: seq<Detail>)
    requires FreshIds(orders, details, nextOrderId, nextDetailId)
    requires order.id == nextOrderId
    requires forall k :: 0 <= k < |ds| ==> ds[k].id == nextDetailId + k
    ensures FreshIds(orders + [order], details + ds, nextOrderId + 1, nextDetailId + |ds|)
  {
  }

  /** Every status of the table is held under its own constructor. */
  ghost predicate CanonicalStatuses(statuses: map<int, Status>) {
    forall id :: id in statuses ==> Canonical(statuses[id])
  }

  /** Rewriting details in place under their own ids keeps the ids fresh. */
  lemma SameIdsKeepFreshIds(orders: seq<Order>, before: seq<Detail>, after: seq<Detail>, nextOrderId: int, nextDetailId: int)
    requires FreshIds(orders, before, nextOrderId, nextDetailId)
    requires |after| == |before| && forall i :: 0 <= i < |before| ==> after[i].id == before[i].id
    ensures FreshIds(orders, after, nextOrderId, nextDetailId)
  {
  }

  class OrderStore {
    var orders: seq<Order>
    var details: seq<Detail>
    var products: map<int, Product>
    var wrappings: set<int>
    /** The status table, by id. */
    var statuses: map<int, Status>
    /** The login ids of registered users. */
    var users: set<string>
    var addresses: set<int>
    var nextOrderId: int
    var nextDetailId: int

    /** Order and detail ids are distinct and below the next ids handed out, and every
        registered status is held under its own constructor (a row named PAID is `Paid`, never
        `Other("PAID")`). */
    ghost predicate Valid()
      reads this`orders, this`details, this`nextOrderId, this`nextDetailId, this`statuses
    {
      && FreshIds(orders, details, nextOrderId, nextDetailId)
      && CanonicalStatuses(statuses)
    }

    constructor (products: map<int, Product>, wrappings: set<int>, statuses: map<int, Status>,
                 users: set<string>, addresses: set<int>)
      requires CanonicalStatuses(statuses)
      ensures Valid()
      ensures orders == [] && details == []
      ensures this.products == products && this.wrappings == wrappings && this.statuses == statuses
      ensures this.users == users && this.addresses == addresses
    {
      orders, details := [], [];
      this.products, this.wrappings, this.statuses := products, wrappings, statuses;
      this.users, this.addresses := users, addresses;
      nextOrderId, nextDetailId := 1, 1;
    }

    /** createOrder: the order and its details are saved and each line's product loses the line's
        quantity of stock, or, on any failure, nothing is saved and no stock changes. */
    method CreateOrder(req: CreateOrderRequest, now: int) returns (r: Result<(Order, seq<Detail>), OrderError>)
      requires Valid()
      modifies this`orders, this`details, this`products, this`nextOrderId, this`nextDetailId
      ensures Valid()
      ensures var expected := CreateResult(req, users, addresses, old(products), wrappings, statuses,
                                           old(nextOrderId), old(nextDetailId), now);
              && (r.Err? <==> expected.Err?)
              && (r.Err? ==> r.error == expected.error &&
                             orders == old(orders) && details == old(details) && products == old(products))
              && (r.Ok? ==> r.value == (expected.value.0, expected.value.1) &&
                            orders == old(orders) + [expected.value.0] &&
                            details == old(details) + expected.value.1 &&
                            products == expected.value.2)
    {
      if req.loginId.Some? && !IsBlank(req.loginId.value) && req.loginId.value !in users {
        return Err(UserNotFound);
      }
      if req.address == "" && req.addressId !in addresses {
        return Err(AddressNotFound);
      }
      var order := NewOrder(req, nextOrderId);
      var placed := PlaceOrderLines(req.lines, order.id, now);
      if placed.Err? {
        return Err(placed.error);
      }
      PlaceLinesIds(req.lines, old(products), wrappings, statuses, order.id, nextDetailId, now);
      SaveOrder(order, placed.value);
      r := Ok((order, placed.value));
    }

    /** orderRepository.save and the detail saves: the order and its details are appended under
        the next ids, which move past them. */
    method SaveOrder(order: Order, ds: seq<Detail>)
      requires Valid()
      requires order.id == nextOrderId
      requires forall k :: 0 <= k < |ds| ==> ds[k].id == nextDetailId + k
      modifies this`orders, this`details, this`nextOrderId, this`nextDetailId
      ensures Valid()
      ensures orders == old(orders) + [order] && details == old(details) + ds
      ensures nextOrderId == old(nextOrderId) + 1 && nextDetailId == old(nextDetailId) + |ds|
    {
      AppendKeepsFreshIds(orders, details, nextOrderId, nextDetailId, order, ds);
      orders := orders + [order];
      details := details + ds;
      nextOrderId := nextOrderId + 1;
      nextDetailId := nextDetailId + |ds|;
    }

    /** The line loop of createOrder: per line the status, wrapping and product lookups, the
        stock decrement and the detail with the product's price; the first failure restores the
        product table. */
    method PlaceOrderLines(lines: seq<LineRequest>, orderId: int, now: int) returns (r: Result<seq<Detail>, OrderError>)
      requires Valid()
      modifies this`products
      ensures Valid()
      ensures var expected := PlaceLines(lines, old(products), wrappings, statuses, orderId, nextDetailId, now);
              && (r.Err? <==> expected.Err?)
              && (r.Err? ==> r.error == expected.error && products == old(products))
              && (r.Ok? ==> r.value == expected.value.0 && products == expected.value.1)
    {
      var snapshot := products;
      var placed: seq<Detail> := [];
      var i := 0;
      while i < |lines|
        invariant 0 <= i <= |lines|
        invariant PlaceLines(lines[..i], snapshot, wrappings, statuses, orderId, nextDetailId, now) == Ok((placed, products))
      {
        var line := lines[i];
        assert lines[..i + 1][..i] == lines[..i] && lines[..i + 1][i] == line;
        var failure: Option<OrderError> := None;
        var wrappingId := if line.wrappingId != 0 then line.wrappingId else UNPACKAGED;
        if line.statusId !in statuses {
          failure := Some(OrderStatusNotFound);
        } else if wrappingId !in wrappings {
          failure := Some(WrappingNotFound);
        } else if line.productId !in products {
          failure := Some(ProductNotFound);
        } else {
          var product := products[line.productId];
          var decreased := DecreaseStock(product, line.quantity);
          if decreased.Err? {
            failure := Some(OutOfStock);
          } else {
            var d := Detail(nextDetailId + i, line.quantity, product.price, line.wrap, now, now,
                            statuses[line.statusId], orderId, wrappingId, line.productId);
            products := products[line.productId := decreased.value];
            placed := placed + [d];
          }
        }
        if failure.Some? {
          PlaceLinesFailurePersists(lines, i + 1, snapshot, wrappings, statuses, orderId, nextDetailId, now);
          products := snapshot;
          return Err(failure.value);
        }
        i := i + 1;
      }
      assert lines[..i] == lines;
      r := Ok(placed);
    }

    /** The write loop of a bulk update: every detail of the order gets status `s`; if a detail's
        product or wrapping is gone the transaction rolls back. */
    method ApplyStatus(orderId: int, s: Status) returns (failure: Option<OrderError>)
      requires Valid()
      modifies this`details
      ensures Valid()
      ensures failure == FirstMissingRef(DetailsOf(old(details), orderId), products, wrappings)
      ensures failure.Some? ==> details == old(details)
      ensures failure.None? ==> StatusApplied(old(details), details, orderId, s)
    {
      var snapshot := details;
      var i := 0;
      while i < |details|
        invariant 0 <= i <= |details| == |snapshot|
        invariant forall k :: 0 <= k < i && snapshot[k].orderId == orderId ==>
                    snapshot[k].productId in products && snapshot[k].wrappingId in wrappings
        invariant forall k :: 0 <= k < i ==>
                    details[k] == if snapshot[k].orderId == orderId then snapshot[k].(status := s) else snapshot[k]
        invariant forall k :: i <= k < |details| ==> details[k] == snapshot[k]
      {
        if details[i].orderId == orderId {
          var d := details[i];
          details := details[i := d.(status := s)];
          if d.productId !in products || d.wrappingId !in wrappings {
            FirstFailingRow(snapshot, i, orderId, products, wrappings);
            details := snapshot;
            return if d.productId !in products then Some(ProductNotFound) else Some(IllegalWrapping);
          }
        }
        i := i + 1;
      }
      NoMissingRef(snapshot, orderId, products, wrappings);
      SameIdsKeepFreshIds(orders, snapshot, details, nextOrderId, nextDetailId);
      failure := None;
    }

    /** updateOrder: the guards of the customer path run over the customer's details of the
        order before anything is written; then every such detail gets the status. No stock
        changes. */
    method UpdateOrder(orderStr: string, loginId: string, statusName: string, now: int)
      returns (r: Result<seq<Detail>, OrderError>)
      requires Valid()
      modifies this`details
      ensures Valid()
      ensures var s := FromName(statusName);
              var expected := BulkUpdateError(UserPath, orders, old(details), products, wrappings, orderStr, loginId, s, now);
              && (r.Err? <==> expected.Some?)
              && (r.Err? ==> r.error == expected.value && details == old(details))
              && (r.Ok? ==>
                    var order := FindOrderByStr(orders, orderStr).value;
                    if order.loginId == Some(loginId) then
                      StatusApplied(old(details), details, order.id, s) && r.value == DetailsOf(details, order.id)
                    else
                      details == old(details) && r.value == [])
    {
      var s := FromName(statusName);
      var found := FindOrderByStr(orders, orderStr);
      if found.None? {
        return Err(OrderNotFound);
      }
      var order := found.value;
      var selected := Selected(UserPath, order, details, loginId);
      var guard := Guard(UserPath, s, selected, now);
      if guard.Some? {
        return Err(Violation(guard.value));
      }
      if order.loginId == Some(loginId) {
        var failure := ApplyStatus(order.id, s);
        if failure.Some? {
          return Err(failure.value);
        }
        r := Ok(DetailsOf(details, order.id));
      } else if order.loginId.None? {
        r := Err(NullUser);
      } else {
        r := Ok([]);
      }
    }

    /** updateOrderWithAdmin, with the status comparisons read by name: the administrator guards
        run over every detail of the order, then every detail gets the status. No stock changes. */
    method UpdateOrderWithAdmin(orderStr: string, statusName: string, now: int)
      returns (r: Result<seq<Detail>, OrderError>)
      requires Valid()
      modifies this`details
      ensures Valid()
      ensures var s := FromName(statusName);
              var expected := BulkUpdateError(AdminPath, orders, old(details), products, wrappings, orderStr, "", s, now);
              && (r.Err? <==> expected.Some?)
              && (r.Err? ==> r.error == expected.value && details == old(details))
              && (r.Ok? ==>
                    var order := FindOrderByStr(orders, orderStr).value;
                    StatusApplied(old(details), details, order.id, s) && r.value == DetailsOf(details, order.id))
    {
      var s := FromName(statusName);
      var found := FindOrderByStr(orders, orderStr);
      if found.None? {
        return Err(OrderNotFound);
      }
      var order := found.value;
      var guard := Guard(AdminPath, s, DetailsOf(details, order.id), now);
      if guard.Some? {
        return Err(Violation(guard.value));
      }
      var snapshot := details;
      var failure := ApplyStatus(order.id, s);
      if failure.Some? {
        return Err(failure.value);
      }
      if order.loginId.None? {
        details := snapshot;
        return Err(NullUser);
      }
      r := Ok(DetailsOf(details, order.id));
    }

    /** updateOrderDetail: the customer's detail is saved with the new status and the current
        time, every other field kept; its product regains the detail's quantity exactly when the
        status is CANCELED, PARTIAL_CANCELED, REFUND or PARTIAL_REFUND. */
    method UpdateOrderDetail(detailId: int, loginId: string, statusName: string, now: int)
      returns (r: Result<Detail, OrderError>)
      requires Valid()
      modifies this`details, this`products
      ensures Valid()
      ensures var k := IndexOfDetail(old(details), detailId);
              var owned := k.Some? && OwnedBy(old(details)[k.value], loginId);
              && (!owned ==> r == Err(OrderDetailNotFound))
              && (owned && old(details)[k.value].productId !in old(products) ==> r == Err(ProductNotFound))
              && ((owned && old(details)[k.value].productId in old(products) &&
                   old(details)[k.value].wrappingId !in wrappings) ==> r == Err(WrappingNotFound))
              && (r.Err? ==> details == old(details) && products == old(products))
              && (r.Ok? ==>
                    var d := old(details)[k.value];
                    && owned
                    && r.value == d.(status := FromName(statusName), updateAt := now)
                    && details == old(details)[k.value := r.value]
                    && d.productId in old(products)
                    && products == if Restocks(FromName(statusName))
                                   then old(products)[d.productId := IncreaseStock(old(products)[d.productId], d.quantity)]
                                   else old(products))
    {
      var k := IndexOfDetail(details, detailId);
      if k.None? || !OwnedBy(details[k.value], loginId) {
        return Err(OrderDetailNotFound);
      }
      var d := details[k.value];
      var s := FromName(statusName);
      var updated := d.(status := s, updateAt := now);
      if d.productId !in products {
        return Err(ProductNotFound);
      }
      if d.wrappingId !in wrappings {
        return Err(WrappingNotFound);
      }
      SameIdsKeepFreshIds(orders, details, details[k.value := updated], nextOrderId, nextDetailId);
      details := details[k.value := updated];
      if Restocks(s) {
        products := products[d.productId := IncreaseStock(products[d.productId], d.quantity)];
      }
      r := Ok(updated);
    }

    /** Whether a detail belongs to an order of that login (findByIdAndOrder_User_LoginId). */
    predicate OwnedBy(d: Detail, loginId: string): (r: bool)
      reads this`orders
      ensures r <==> exists o :: o in orders && o.id == d.orderId && o.loginId == Some(loginId)
    {
      exists i :: 0 <= i < |orders| && orders[i].id == d.orderId && orders[i].loginId == Some(loginId)
    }

    /** updateOrderDetailWithAdmin: the same save, for any detail, and no stock change. */
    method UpdateOrderDetailWithAdmin(detailId: int, statusName: string, now: int)
      returns (r: Result<Detail, OrderError>)
      requires Valid()
      modifies this`details
      ensures Valid()
      ensures var k := IndexOfDetail(old(details), detailId);
              && (k.None? ==> r == Err(OrderDetailNotFound))
              && (k.Some? && old(details)[k.value].productId !in products ==> r == Err(ProductNotFound))
              && ((k.Some? && old(details)[k.value].productId in products &&
                   old(details)[k.value].wrappingId !in wrappings) ==> r == Err(WrappingNotFound))
              && (r.Err? ==> details == old(details))
              && (r.Ok? ==>
                    && k.Some?
                    && r.value == old(details)[k.value].(status := FromName(statusName), updateAt := now)
                    && details == old(details)[k.value := r.value])
    {
      var k := IndexOfDetail(details, detailId);
      if k.None? {
        return Err(OrderDetailNotFound);
      }
      var d := details[k.value];
      if d.productId !in products {
        return Err(ProductNotFound);
      }
      if d.wrappingId !in wrappings {
        return Err(WrappingNotFound);
      }
      var updated := d.(status := FromName(statusName), updateAt := now);
      SameIdsKeepFreshIds(orders, details, details[k.value := updated], nextOrderId, nextDetailId);
      details := details[k.value := updated];
      r := Ok(updated);
    }
  }

  lemma DetailsOfAppend(rows: seq<Detail>, d: Detail, orderId: int)
    ensures DetailsOf(rows + [d], orderId) == DetailsOf(rows, orderId) + if d.orderId == orderId then [d] else []
  {
    assert (rows + [d])[..|rows|] == rows;
  }

  lemma {:induction false} FirstMissingRefAppend(x: seq<Detail>, y: seq<Detail>, products: map<int, Product>, wrappings: set<int>)
    requires FirstMissingRef(x, products, wrappings).Some?
    ensures FirstMissingRef(x + y, products, wrappings) == FirstMissingRef(x, products, wrappings)
  {
    if y == [] {
      assert x + y == x;
    } else {
      FirstMissingRefAppend(x, y[..|y| - 1], products, wrappings);
      assert (x + y)[..|x + y| - 1] == x + y[..|y| - 1];
    }
  }

  lemma {:induction false} DetailsOfSplit(rows: seq<Detail>, k: nat, orderId: int)
    requires k <= |rows|
    ensures DetailsOf(rows, orderId) == DetailsOf(rows[..k], orderId) + DetailsOf(rows[k..], orderId)
    decreases |rows|
  {
    if k == |rows| {
      assert rows[..k] == rows;
      assert rows[k..] == [];
    } else {
      var prefix, last := rows[..|rows| - 1], rows[|rows| - 1];
      DetailsOfSplit(prefix, k, orderId);
      assert prefix[..k] == rows[..k];
      assert rows[k..] == prefix[k..] + [last];
      DetailsOfAppend(prefix[k..], last, orderId);
      var tail := if last.orderId == orderId then [last] else [];
      assert DetailsOf(rows, orderId) == DetailsOf(prefix, orderId) + tail;
      assert DetailsOf(rows[k..], orderId) == DetailsOf(prefix[k..], orderId) + tail;
      assert DetailsOf(rows, orderId) == DetailsOf(rows[..k], orderId) + (DetailsOf(prefix[k..], orderId) + tail);
    }
  }

  /** The write loop stops at row i, the first row of the order whose product or wrapping is
      gone: that row decides the exception over the whole table. */
  lemma FirstFailingRow(rows: seq<Detail>, i: nat, orderId: int, products: map<int, Product>, wrappings: set<int>)
    requires i < |rows| && rows[i].orderId == orderId
    requires forall k :: 0 <= k < i && rows[k].orderId == orderId ==>
               rows[k].productId in products && rows[k].wrappingId in wrappings
    requires rows[i].productId !in products || rows[i].wrappingId !in wrappings
    ensures FirstMissingRef(DetailsOf(rows, orderId), products, wrappings) ==
              if rows[i].productId !in products then Some(ProductNotFound) else Some(IllegalWrapping)
  {
    var head := rows[..i + 1];
    assert head == rows[..i] + [rows[i]];
    DetailsOfAppend(rows[..i], rows[i], orderId);
    NoMissingRef(rows[..i], orderId, products, wrappings);
    var ds := DetailsOf(rows[..i], orderId);
    assert (ds + [rows[i]])[..|ds|] == ds;
    DetailsOfSplit(rows, i + 1, orderId);
    FirstMissingRefAppend(DetailsOf(head, orderId), DetailsOf(rows[i + 1..], orderId), products, wrappings);
  }

  /** When every row of the order resolves, the write loop raises nothing. */
  lemma NoMissingRef(rows: seq<Detail>, orderId: int, products: map<int, Product>, wrappings: set<int>)
    requires forall k :: 0 <= k < |rows| && rows[k].orderId == orderId ==>
               rows[k].productId in products && rows[k].wrappingId in wrappings
    ensures FirstMissingRef(DetailsOf(rows, orderId), products, wrappings).None?
  {
    var ds := DetailsOf(rows, orderId);
    DetailsOfMembers(rows, orderId);
    forall j | 0 <= j < |ds|
      ensures ds[j].productId in products && ds[j].wrappingId in wrappings
    {
      assert ds[j] in ds;
      var k :| 0 <= k < |rows| && rows[k] == ds[j];
    }
  }
}

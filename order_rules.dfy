/** The order-detail statuses and the guard clauses that OrderService runs before a bulk status
    change (updateOrder for a customer, updateOrderWithAdmin for an administrator).

    Statuses form one closed enumeration compared by name. The customer path compares a detail's
    status with the status entity resolved by name, which is a comparison by name. The
    administrator path, as written, compares the detail's OrderStatus entity with a String literal;
    in Java an entity is never equal to a String, so every such comparison is false there. Both
    readings are kept: `AdminPathAsWritten` is the code as written and `AdminPath` is the
    comparison by name, which the rest of the model uses. */
module OrderRules {
  import opened Common

  /** Timestamps are seconds; a day is exact (LocalDateTime carries no time zone). */
  const DAY: int := 86400
  const REFUND_PERIOD: int := 10
  const BREAKAGE_REFUND_PERIOD: int := 30

  datatype Status =
    | Paid | Shipped | ShippingOut | Refund | BreakageRefund
    | Canceled | PartialCanceled | PartialRefund
    | Other(name: string)

  /** The status names the service names as constants. */
  const KnownNames: set<string> :=
    {"PAID", "SHIPPED", "SHIPPING_OUT", "REFUND", "BREAKAGE_REFUND", "CANCELED", "PARTIAL_CANCELED", "PARTIAL_REFUND"}

  function Name(s: Status): string {
    match s
    case Paid => "PAID"
    case Shipped => "SHIPPED"
    case ShippingOut => "SHIPPING_OUT"
    case Refund => "REFUND"
    case BreakageRefund => "BREAKAGE_REFUND"
    case Canceled => "CANCELED"
    case PartialCanceled => "PARTIAL_CANCELED"
    case PartialRefund => "PARTIAL_REFUND"
    case Other(n) => n
  }

  /** The status a request names (orderStatusRepository.findByName). */
  function FromName(n: string): (s: Status)
    ensures Name(s) == n
    ensures s.Other? <==> n !in KnownNames
  {
    if n == "PAID" then Paid
    else if n == "SHIPPED" then Shipped
    else if n == "SHIPPING_OUT" then ShippingOut
    else if n == "REFUND" then Refund
    else if n == "BREAKAGE_REFUND" then BreakageRefund
    else if n == "CANCELED" then Canceled
    else if n == "PARTIAL_CANCELED" then PartialCanceled
    else if n == "PARTIAL_REFUND" then PartialRefund
    else Other(n)
  }

  /** A status value that names itself only one way: `Other` never carries a known name. */
  predicate Canonical(s: Status) {
    s.Other? ==> s.name !in KnownNames
  }

  /** Resolving a status's own name gives the status back, so comparing statuses and comparing
      their names agree. */
  lemma NameRoundTrip(s: Status)
    requires Canonical(s)
    ensures FromName(Name(s)) == s
  {
  }

  lemma NamesDistinguish(s: Status, t: Status)
    requires Canonical(s) && Canonical(t)
    ensures s == t <==> Name(s) == Name(t)
  {
    NameRoundTrip(s);
    NameRoundTrip(t);
  }

  /** The statuses for which updateOrderDetail puts the detail's quantity back into stock. */
  predicate Restocks(s: Status) {
    s == Canceled || s == PartialCanceled || s == Refund || s == PartialRefund
  }

  /** One order_detail row. */
  datatype Detail = Detail(
    id: int,
    quantity: int,
    price: int,
    wrap: bool,
    createAt: int,
    updateAt: int,
    status: Status,
    orderId: int,
    wrappingId: int,
    productId: int)

  datatype RuleViolation = AlreadyShippingOut | AlreadyRefunded | NotShipped | ExpiredToRefund | NotPaid

  /** isCreatedBeforeDays: `createAt` lies strictly before the instant `days` days before now. */
  predicate IsCreatedBeforeDays(createAt: int, now: int, days: int): (r: bool)
    ensures r <==> now - createAt > days * DAY
    ensures createAt == now - days * DAY ==> !r
  {
    createAt < now - days * DAY
  }

  /** Which guard clauses run and how a detail's status is compared with a named status. */
  datatype GuardPath = UserPath | AdminPath | AdminPathAsWritten

  /** The status comparison of each path: by name on the customer path and on the corrected
      administrator path; OrderStatus.equals(String) on the administrator path as written, which
      never holds. */
  predicate Is(path: GuardPath, current: Status, named: Status) {
    if path == AdminPathAsWritten then false else current == named
  }

  /** The guard clauses of one target status applied to one detail, in the order the source
      tests them; `None` when the detail passes. */
  function DetailCheck(path: GuardPath, target: Status, d: Detail, now: int): Option<RuleViolation> {
    match target
    case ShippingOut =>
      if path != UserPath && Is(path, d.status, ShippingOut) then Some(AlreadyShippingOut) else None
    case Refund => RefundCheck(path, d, now, REFUND_PERIOD)
    case BreakageRefund => RefundCheck(path, d, now, BREAKAGE_REFUND_PERIOD)
    case Canceled => if !Is(path, d.status, Paid) then Some(NotPaid) else None
    case _ => None
  }

  function RefundCheck(path: GuardPath, d: Detail, now: int, period: int): Option<RuleViolation> {
    if Is(path, d.status, Refund) || Is(path, d.status, BreakageRefund) then Some(AlreadyRefunded)
    else if !Is(path, d.status, Shipped) then Some(NotShipped)
    else if Is(path, d.status, Shipped) && IsCreatedBeforeDays(d.createAt, now, period) then Some(ExpiredToRefund)
    else None
  }

  /** The guard loops over the selected details: the first failing detail, in list order, decides
      the exception; `None` means every detail passes and the writes may start. */
  function Guard(path: GuardPath, target: Status, ds: seq<Detail>, now: int): (r: Option<RuleViolation>)
    ensures r.None? <==> forall i :: 0 <= i < |ds| ==> DetailCheck(path, target, ds[i], now).None?
    ensures r.Some? ==>
              exists i :: 0 <= i < |ds| && DetailCheck(path, target, ds[i], now) == r &&
                forall j :: 0 <= j < i ==> DetailCheck(path, target, ds[j], now).None?
  {
    if ds == [] then None
    else
      var earlier := Guard(path, target, ds[..|ds| - 1], now);
      if earlier.Some? then earlier else DetailCheck(path, target, ds[|ds| - 1], now)
  }

  // ---------------------------------------------------------------------------------------------
  // What the guards mean, on the customer path and on the corrected administrator path
  // ---------------------------------------------------------------------------------------------

  /** A refund passes exactly when every detail is SHIPPED and no more than ten days old. */
  lemma RefundEligibility(path: GuardPath, ds: seq<Detail>, now: int)
    requires path != AdminPathAsWritten
    ensures Guard(path, Refund, ds, now).None? <==>
              forall i :: 0 <= i < |ds| ==> ds[i].status == Shipped && ds[i].createAt >= now - 10 * DAY
  {
  }

  /** A breakage refund passes exactly when every detail is SHIPPED and no more than thirty days
      old. */
  lemma BreakageRefundEligibility(path: GuardPath, ds: seq<Detail>, now: int)
    requires path != AdminPathAsWritten
    ensures Guard(path, BreakageRefund, ds, now).None? <==>
              forall i :: 0 <= i < |ds| ==> ds[i].status == Shipped && ds[i].createAt >= now - 30 * DAY
  {
  }

  /** A cancellation passes exactly when every detail is PAID. */
  lemma CancelEligibility(path: GuardPath, ds: seq<Detail>, now: int)
    requires path != AdminPathAsWritten
    ensures Guard(path, Canceled, ds, now).None? <==> forall i :: 0 <= i < |ds| ==> ds[i].status == Paid
    ensures Guard(path, Canceled, ds, now).Some? ==> Guard(path, Canceled, ds, now) == Some(NotPaid)
  {
  }

  /** Shipping out is refused only on the administrator path, and there exactly when some detail
      is already SHIPPING_OUT. */
  lemma ShippingOutEligibility(ds: seq<Detail>, now: int)
    ensures Guard(UserPath, ShippingOut, ds, now).None?
    ensures Guard(AdminPath, ShippingOut, ds, now).None? <==>
              forall i :: 0 <= i < |ds| ==> ds[i].status != ShippingOut
  {
  }

  /** A target with no guard clauses is always allowed. */
  lemma UnguardedTargets(path: GuardPath, target: Status, ds: seq<Detail>, now: int)
    requires target != ShippingOut && target != Refund && target != BreakageRefund && target != Canceled
    ensures Guard(path, target, ds, now).None?
  {
  }

  /** The two paths differ only in the SHIPPING_OUT clause. */
  lemma {:induction false} PathsAgreeOffShippingOut(target: Status, ds: seq<Detail>, now: int)
    requires target != ShippingOut
    ensures Guard(AdminPath, target, ds, now) == Guard(UserPath, target, ds, now)
  {
    if ds != [] {
      PathsAgreeOffShippingOut(target, ds[..|ds| - 1], now);
    }
  }

  /** An already refunded detail fails any further refund with AlreadyRefunded. */
  lemma AlreadyRefundedFailsAnyRefund(path: GuardPath, d: Detail, now: int)
    requires path != AdminPathAsWritten
    requires d.status == Refund || d.status == BreakageRefund
    ensures DetailCheck(path, Refund, d, now) == Some(AlreadyRefunded)
    ensures DetailCheck(path, BreakageRefund, d, now) == Some(AlreadyRefunded)
  {
  }

  /** The refund window is strict: a SHIPPED detail exactly ten days old may still be refunded,
      one eleven days old is expired and one nine days old is not; a breakage refund is allowed
      at twenty-nine days and expired at thirty-one. */
  lemma RefundWindows(path: GuardPath, d: Detail, now: int)
    requires path != AdminPathAsWritten && d.status == Shipped
    ensures d.createAt == now - 11 * DAY ==> DetailCheck(path, Refund, d, now) == Some(ExpiredToRefund)
    ensures d.createAt == now - 10 * DAY ==> DetailCheck(path, Refund, d, now).None?
    ensures d.createAt == now - 9 * DAY ==> DetailCheck(path, Refund, d, now).None?
    ensures d.createAt == now - 29 * DAY ==> DetailCheck(path, BreakageRefund, d, now).None?
    ensures d.createAt == now - 31 * DAY ==> DetailCheck(path, BreakageRefund, d, now) == Some(ExpiredToRefund)
  {
  }

  /** Whatever may be refunded may also be refunded for breakage. */
  lemma RefundImpliesBreakageRefund(path: GuardPath, ds: seq<Detail>, now: int)
    requires path != AdminPathAsWritten
    requires Guard(path, Refund, ds, now).None?
    ensures Guard(path, BreakageRefund, ds, now).None?
  {
    RefundEligibility(path, ds, now);
    BreakageRefundEligibility(path, ds, now);
  }

  // ---------------------------------------------------------------------------------------------
  // The administrator path as written
  // ---------------------------------------------------------------------------------------------

  /** As written, the administrator path refuses every refund, breakage refund and cancellation of
      an order that has a detail, whatever the details' statuses, and never refuses shipping out. */
  lemma {:induction false} AdminAsWrittenRefusesAll(ds: seq<Detail>, now: int)
    requires |ds| > 0
    ensures Guard(AdminPathAsWritten, Refund, ds, now) == Some(NotShipped)
    ensures Guard(AdminPathAsWritten, BreakageRefund, ds, now) == Some(NotShipped)
    ensures Guard(AdminPathAsWritten, Canceled, ds, now) == Some(NotPaid)
    ensures Guard(AdminPathAsWritten, ShippingOut, ds, now).None?
  {
    if |ds| > 1 {
      AdminAsWrittenRefusesAll(ds[..|ds| - 1], now);
    }
  }

  /** The discrepancy on one input: a single detail shipped today. The corrected administrator
      path allows its refund; as written it is refused as not shipped. A detail already
      SHIPPING_OUT is refused a second shipping-out only by the corrected path. */
  lemma AdminAsWrittenDiscrepancy(now: int)
    ensures var shipped := Detail(1, 1, 1000, false, now, now, Shipped, 1, 1, 1);
            && Guard(AdminPath, Refund, [shipped], now).None?
            && Guard(AdminPathAsWritten, Refund, [shipped], now) == Some(NotShipped)
    ensures var out := Detail(1, 1, 1000, false, now, now, ShippingOut, 1, 1, 1);
            && Guard(AdminPath, ShippingOut, [out], now) == Some(AlreadyShippingOut)
            && Guard(AdminPathAsWritten, ShippingOut, [out], now).None?
  {
    var shipped := Detail(1, 1, 1000, false, now, now, Shipped, 1, 1, 1);
    assert [shipped][..0] == [];
    var out := Detail(1, 1, 1000, false, now, now, ShippingOut, 1, 1, 1);
    assert [out][..0] == [];
  }
}

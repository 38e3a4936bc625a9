// Starting a payment: the promo folded into the bill, and the one amount a guest may pay.
module Payments {
  import opened Wrappers
  import opened Lifecycle
  import opened Billing

  datatype BillSnapshot = BillSnapshot(subtotal: real, discount: real, tax: real, service: real, total: real,
                                       sourceOrderIds: seq<string>)

  datatype PaymentRequest = PaymentRequest(amount: real, means: string, idempotencyKey: string,
                                           promoCode: Option<string>)

  /** What the repositories hold for the session's bill. */
  datatype Fetched = Fetched(orders: seq<OrderRow>, settings: Settings)

  datatype Outcome =
    | Unauthorized
    | ValidationFailed
    | InternalFailure
    | SessionUnknown
    | PromoRefused
    | AmountInvalid
    | Submitted(snapshot: BillSnapshot)

  const METHODS: set<string> := {"cash", "card", "digital", "card_manual", "upi"}

  /** The request binds: required fields are present and the amount is positive. */
  predicate Binds(req: PaymentRequest) {
    req.amount > 0.0 && req.means in METHODS && req.idempotencyKey != ""
  }

  predicate UsesPromo(req: PaymentRequest) {
    req.promoCode.Some? && req.promoCode.value != ""
  }

  /** The discount a promo grants on this bill, if the request names a promo and it is granted. */
  function PromoDiscount(req: PaymentRequest, total: real, validate: (string, real) -> Option<real>): Option<real> {
    if UsesPromo(req) then validate(req.promoCode.value, total) else None
  }

  /** What is due: a bill under a promo is never negative; without one it is as billed. */
  function Due(total: real, promo: Option<real>): real {
    match promo
    case None => total
    case Some(d) => if d > total then 0.0 else total - d
  }

  /** The binding and the tolerance check together. */
  predicate Accepted(amount: real, due: real) {
    amount > 0.0 && -0.005 <= amount - due <= 0.005
  }

  function SourceIds(orders: seq<BillOrder>, isUuid: string -> bool): seq<string> {
    if orders == [] then []
    else (if isUuid(orders[0].orderId) then [orders[0].orderId] else []) + SourceIds(orders[1..], isUuid)
  }

  lemma {:induction false} SourceIdsSnoc(orders: seq<BillOrder>, o: BillOrder, isUuid: string -> bool)
    ensures SourceIds(orders + [o], isUuid) == SourceIds(orders, isUuid) + if isUuid(o.orderId) then [o.orderId] else []
  {
    if orders == [] {
      assert [] + [o] == [o] && [o][1..] == [];
    } else {
      assert (orders + [o])[1..] == orders[1..] + [o];
      SourceIdsSnoc(orders[1..], o, isUuid);
    }
  }

  method BillSnapshotInputFromBill(bill: Bill, isUuid: string -> bool) returns (input: BillSnapshot)
    ensures input == BillSnapshot(bill.subtotal, bill.discount, bill.tax, bill.service, bill.total,
                                  SourceIds(bill.orders, isUuid))
  {
    var ids := [];
    for i := 0 to |bill.orders|
      invariant ids == SourceIds(bill.orders[..i], isUuid)
    {
      assert bill.orders[..i + 1] == bill.orders[..i] + [bill.orders[i]];
      SourceIdsSnoc(bill.orders[..i], bill.orders[i], isUuid);
      if isUuid(bill.orders[i].orderId) {
        ids := ids + [bill.orders[i].orderId];
      }
    }
    assert bill.orders[..|bill.orders|] == bill.orders;
    input := BillSnapshot(bill.subtotal, bill.discount, bill.tax, bill.service, bill.total, ids);
  }

  /** A payment reaches the service exactly when the guest is known, the request binds, the bill
      and the session are found, the promo (if any) is granted and the amount is the one due; the
      service then gets the bill as computed, with the promo added to its discount. */
  method InitiatePayment(guest: Option<int>, req: PaymentRequest, fetched: Option<Fetched>, sessionFound: bool,
                         validatePromo: (string, real) -> Option<real>, isUuid: string -> bool) returns (r: Outcome)
    ensures r == Unauthorized <==> guest.None?
    ensures r == ValidationFailed <==> guest.Some? && (guest.value == 0 || !Binds(req))
    ensures r == ValidationFailed <==>
      guest.Some? && (|| guest.value == 0 || req.amount <= 0.0 || req.idempotencyKey == ""
                      || req.means !in {"cash", "card", "digital", "card_manual", "upi"})
    ensures guest.Some? && guest.value != 0 && Binds(req) ==> (r == InternalFailure <==> fetched.None?)
    ensures guest.Some? && guest.value != 0 && Binds(req) && fetched.Some? ==> (r == SessionUnknown <==> !sessionFound)
    ensures guest.Some? && guest.value != 0 && Binds(req) && fetched.Some? && sessionFound ==>
      var bill := BillOf(fetched.value.orders, fetched.value.settings);
      var promo := PromoDiscount(req, bill.total, validatePromo);
      && (r == PromoRefused <==> UsesPromo(req) && promo.None?)
      && (r.Submitted? <==> (UsesPromo(req) ==> promo.Some?) && Accepted(req.amount, Due(bill.total, promo)))
      && (r == AmountInvalid <==> (UsesPromo(req) ==> promo.Some?) && !Accepted(req.amount, Due(bill.total, promo)))
      && (r.Submitted? ==>
            var granted := if promo.Some? then promo.value else 0.0;
            r.snapshot == BillSnapshot(bill.subtotal, bill.discount + granted, bill.tax, bill.service,
                                       Due(bill.total, promo), SourceIds(bill.orders, isUuid)))
    ensures r in {PromoRefused, AmountInvalid} || r.Submitted? ==> fetched.Some?
    ensures (r in {PromoRefused, AmountInvalid} || r.Submitted?) && fetched.Some? ==>
      var bill := BillOf(fetched.value.orders, fetched.value.settings);
      var code := if req.promoCode.Some? then req.promoCode.value else "";
      var granted := if code == "" then Some(0.0) else validatePromo(code, bill.total);
      && (r == PromoRefused <==> granted.None?)
      && (granted.Some? ==>
            var left := bill.total - granted.value;
            var due := if code != "" && left < 0.0 then 0.0 else left;
            && (r.Submitted? <==> -0.005 <= req.amount - due <= 0.005)
            && (r.Submitted? ==>
                  r.snapshot == BillSnapshot(bill.subtotal, bill.discount + granted.value, bill.tax, bill.service, due,
                                             SourceIds(bill.orders, isUuid))))
  {
    hide BillOf;
    if guest.None? {
      return Unauthorized;
    }
    if guest.value == 0 {
      return ValidationFailed;
    }
    if req.amount <= 0.0 || req.means == "" || req.idempotencyKey == "" {
      return ValidationFailed;
    }
    if req.means !in METHODS {
      return ValidationFailed;
    }
    if fetched.None? {
      return InternalFailure;
    }
    var bill := ComputeBill(fetched.value.orders, fetched.value.settings);
    if !sessionFound {
      return SessionUnknown;
    }
    var billInput := BillSnapshotInputFromBill(bill, isUuid);
    if req.promoCode.Some? && req.promoCode.value != "" {
      var granted := validatePromo(req.promoCode.value, bill.total);
      if granted.None? {
        return PromoRefused;
      }
      billInput := billInput.(discount := billInput.discount + granted.value);
      billInput := billInput.(total := billInput.total - granted.value);
      if billInput.total < 0.0 {
        billInput := billInput.(total := 0.0);
      }
    }
    var gap := req.amount - billInput.total;
    if (if gap < 0.0 then -gap else gap) > 0.005 {
      return AmountInvalid;
    }
    r := Submitted(billInput);
  }

  // ---------------------------------------------------------------- what is accepted

  /** What the service is told to charge is its own parts added up, cut off at zero by a promo. */
  lemma SnapshotAddsUp(orders: seq<OrderRow>, s: Settings, promo: Option<real>)
    ensures var b := BillOf(orders, s);
      var net := b.subtotal + b.tax + b.service - (b.discount + if promo.Some? then promo.value else 0.0);
      Due(b.total, promo) == if promo.Some? && net < 0.0 then 0.0 else net
  {
    hide Sum, LineTotals, AllLines, Active, Discounts, Charge, Round2;
  }

  /** A whole number of cents is accepted only as the exact amount due, and only if that is positive. */
  lemma ExactAmountOnly(orders: seq<OrderRow>, s: Settings, promo: Option<real>, amount: real)
    requires WholeCents(amount) && (promo.Some? ==> WholeCents(promo.value))
    ensures var due := Due(BillOf(orders, s).total, promo);
      WholeCents(due) && (Accepted(amount, due) <==> amount == due && due > 0.0)
  {
    var total := BillOf(orders, s).total;
    var due := Due(total, promo);
    BillIsCents(orders, s);
    hide BillOf;
    if promo.Some? {
      CentsAdd(total, promo.value);
    }
    assert 0.0 * 100.0 == 0 as real;
    assert WholeCents(due);
    assert amount * 100.0 - due * 100.0 == ((amount * 100.0).Floor - (due * 100.0).Floor) as real;
    assert -0.005 <= amount - due <= 0.005 ==> -0.5 <= amount * 100.0 - due * 100.0 <= 0.5;
  }

  /** Some whole number of cents settles a bill exactly when something is due. */
  lemma PayableExactly(orders: seq<OrderRow>, s: Settings, promo: Option<real>)
    requires promo.Some? ==> WholeCents(promo.value)
    ensures var due := Due(BillOf(orders, s).total, promo);
      (exists amount :: WholeCents(amount) && Accepted(amount, due)) <==> due > 0.0
  {
    hide BillOf, Due;
    var due := Due(BillOf(orders, s).total, promo);
    assert WholeCents(0.0) by {
      assert 0.0 * 100.0 == 0 as real;
    }
    ExactAmountOnly(orders, s, promo, 0.0);
    forall amount | WholeCents(amount) ensures Accepted(amount, due) <==> amount == due && due > 0.0 {
      ExactAmountOnly(orders, s, promo, amount);
    }
    if due > 0.0 {
      assert WholeCents(due) && Accepted(due, due);
    }
  }

  /** A bill that comes to nothing cannot be settled here in whole cents; what does pass the check
      is any fraction of a cent up to half. */
  lemma FreeBillTakesOnlyDust(total: real, promo: Option<real>, amount: real)
    requires Due(total, promo) == 0.0
    ensures Accepted(amount, Due(total, promo)) <==> 0.0 < amount <= 0.005
    ensures WholeCents(amount) ==> !Accepted(amount, Due(total, promo))
  {
    if WholeCents(amount) {
      var n := (amount * 100.0).Floor;
      assert amount > 0.0 ==> n as real > 0.0;
      assert n > 0 ==> amount >= 0.01;
    }
  }

  function Ids(orders: seq<OrderRow>): seq<string> {
    seq(|orders|, i requires 0 <= i < |orders| => orders[i].id)
  }

  lemma {:induction false} BilledIds(active: seq<OrderRow>, isUuid: string -> bool)
    requires forall o | o in active :: isUuid(o.id)
    ensures SourceIds(BilledOrders(active), isUuid) == Ids(active)
  {
    if active == [] {
    } else {
      assert BilledOrders(active)[1..] == BilledOrders(active[1..]);
      assert Ids(active) == [active[0].id] + Ids(active[1..]);
      BilledIds(active[1..], isUuid);
    }
  }

  lemma {:induction false} ActiveMembers(orders: seq<OrderRow>, o: OrderRow)
    ensures o in Active(orders) <==> o in orders && o.status != OrderCancelled
  {
    if orders == [] {
    } else {
      ActiveMembers(orders[1..], o);
    }
  }

  /** The snapshot names the orders that are not cancelled, all of them and in sequence. */
  lemma SnapshotNamesActiveOrders(orders: seq<OrderRow>, s: Settings, isUuid: string -> bool)
    requires forall o | o in orders :: isUuid(o.id)
    ensures SourceIds(BillOf(orders, s).orders, isUuid) == Ids(Active(orders))
    ensures forall id :: id in SourceIds(BillOf(orders, s).orders, isUuid)
                         <==> exists o | o in orders :: o.id == id && o.status != OrderCancelled
  {
    forall o ensures o in Active(orders) <==> o in orders && o.status != OrderCancelled {
      ActiveMembers(orders, o);
    }
    BilledIds(Active(orders), isUuid);
    forall id
      ensures id in Ids(Active(orders)) <==> exists o | o in orders :: o.id == id && o.status != OrderCancelled
    {
      if o :| o in orders && o.id == id && o.status != OrderCancelled {
        var i :| 0 <= i < |Active(orders)| && Active(orders)[i] == o;
        assert Ids(Active(orders))[i] == id;
      }
      if id in Ids(Active(orders)) {
        var i :| 0 <= i < |Ids(Active(orders))| && Ids(Active(orders))[i] == id;
        assert Active(orders)[i] in Active(orders);
      }
    }
  }
}

// The bill of a session and the amount a guest may pay, in exact arithmetic: money is a real
// number of rupees, where the program uses 64-bit floating point.
module Billing {
  import opened Wrappers
  import opened Lifecycle

  // ---------------------------------------------------------------- rounding

  /** Nearest integer, halves away from zero. */
  function RoundHalfAway(v: real): int {
    if v >= 0.0 then (v + 0.5).Floor else -((-v + 0.5).Floor)
  }

  /** Nearest hundredth, halves away from zero. */
  function Round2(v: real): real {
    RoundHalfAway(v * 100.0) as real / 100.0
  }

  /** A whole number of hundredths. */
  predicate WholeCents(v: real) {
    (v * 100.0).Floor as real == v * 100.0
  }

  lemma RoundedInteger(n: int)
    ensures RoundHalfAway(n as real) == n
  {
    assert n >= 0 ==> (n as real + 0.5).Floor == n;
    assert n < 0 ==> (-(n as real) + 0.5).Floor == -n;
  }

  lemma RoundHalfAwayMonotone(x: real, y: real)
    requires x <= y
    ensures RoundHalfAway(x) <= RoundHalfAway(y)
  {}

  lemma Round2Error(v: real)
    ensures -0.005 <= Round2(v) - v <= 0.005
    ensures WholeCents(Round2(v))
  {
    var n := RoundHalfAway(v * 100.0);
    assert Round2(v) * 100.0 == n as real;
  }

  /** A half cent goes away from zero. */
  lemma HalvesAwayFromZero(n: nat)
    ensures Round2((n as real + 0.5) / 100.0) == (n + 1) as real / 100.0
    ensures Round2(-((n as real + 0.5) / 100.0)) == -((n + 1) as real / 100.0)
  {
    var v := (n as real + 0.5) / 100.0;
    assert v * 100.0 == n as real + 0.5 && -v * 100.0 == -(n as real + 0.5);
    assert (n as real + 0.5 + 0.5).Floor == n + 1;
  }

  lemma Round2OfCents(v: real)
    requires WholeCents(v)
    ensures Round2(v) == v
  {
    RoundedInteger((v * 100.0).Floor);
  }

  lemma Round2Monotone(u: real, v: real)
    requires u <= v
    ensures Round2(u) <= Round2(v)
  {
    assert u * 100.0 <= v * 100.0;
    RoundHalfAwayMonotone(u * 100.0, v * 100.0);
  }

  lemma FloorOf(z: real, n: int)
    requires z == n as real
    ensures z.Floor as real == z
  {}

  lemma IntegersAdd(x: real, y: real)
    requires x.Floor as real == x && y.Floor as real == y
    ensures (x + y).Floor as real == x + y && (x - y).Floor as real == x - y
  {
    FloorOf(x + y, x.Floor + y.Floor);
    FloorOf(x - y, x.Floor - y.Floor);
  }

  lemma CentsAdd(u: real, v: real)
    requires WholeCents(u) && WholeCents(v)
    ensures WholeCents(u + v) && WholeCents(u - v)
  {
    IntegersAdd(u * 100.0, v * 100.0);
    assert (u + v) * 100.0 == u * 100.0 + v * 100.0;
    assert (u - v) * 100.0 == u * 100.0 - v * 100.0;
  }

  // ---------------------------------------------------------------- the session's orders

  datatype Line = Line(basePrice: real, modifiers: seq<real>, quantity: int)
  datatype OrderRow = OrderRow(id: string, status: OrderStatus, lines: seq<Line>, discount: Option<real>)
  datatype Settings = Settings(taxRate: real, serviceRate: real, includeTaxInPrice: bool)

  datatype BillOrder = BillOrder(orderId: string, lineTotals: seq<real>, orderTotal: real)
  datatype Bill = Bill(orders: seq<BillOrder>, subtotal: real, tax: real, service: real, discount: real, total: real)

  function Sum(xs: seq<real>): real {
    if xs == [] then 0.0 else xs[0] + Sum(xs[1..])
  }

  lemma {:induction false} SumAppend(a: seq<real>, b: seq<real>)
    ensures Sum(a + b) == Sum(a) + Sum(b)
  {
    if a == [] {
      assert a + b == b;
    } else {
      assert (a + b)[1..] == a[1..] + b;
      SumAppend(a[1..], b);
    }
  }

  lemma SumSnoc(a: seq<real>, x: real)
    ensures Sum(a + [x]) == Sum(a) + x
  {
    SumAppend(a, [x]);
    assert [x][1..] == [];
  }

  /** What a line costs before rounding. */
  function RawLine(l: Line): real {
    (l.basePrice + Sum(l.modifiers)) * l.quantity as real
  }

  function LineTotals(lines: seq<Line>): (r: seq<real>)
    ensures |r| == |lines|
    ensures forall i | 0 <= i < |lines| :: r[i] == Round2(RawLine(lines[i]))
  {
    seq(|lines|, i requires 0 <= i < |lines| => Round2(RawLine(lines[i])))
  }

  function Active(orders: seq<OrderRow>): seq<OrderRow> {
    if orders == [] then []
    else (if orders[0].status == OrderCancelled then [] else [orders[0]]) + Active(orders[1..])
  }

  function BilledOrder(o: OrderRow): BillOrder {
    BillOrder(o.id, LineTotals(o.lines), Sum(LineTotals(o.lines)))
  }

  function BilledOrders(orders: seq<OrderRow>): (r: seq<BillOrder>)
    ensures |r| == |orders| && forall i | 0 <= i < |orders| :: r[i] == BilledOrder(orders[i])
  {
    seq(|orders|, i requires 0 <= i < |orders| => BilledOrder(orders[i]))
  }

  /** The lines of the active orders, one order after another. */
  function AllLines(orders: seq<OrderRow>): seq<Line> {
    if orders == [] then [] else orders[0].lines + AllLines(orders[1..])
  }

  function Discounts(orders: seq<OrderRow>): real {
    if orders == [] then 0.0
    else (if orders[0].discount.Some? then orders[0].discount.value else 0.0) + Discounts(orders[1..])
  }

  function EffectiveTaxRate(s: Settings): real {
    if !s.includeTaxInPrice && s.taxRate > 0.0 then s.taxRate else 0.0
  }

  /** Tax or service on a subtotal. */
  function Charge(subtotal: real, rate: real): (r: real)
    ensures rate == 0.0 ==> r == 0.0
  {
    Round2(subtotal * rate)
  }

  /** The bill as it is meant: one rounding per line, one for each charge and the discount, and
      plain sums everywhere else. */
  function BillOf(orders: seq<OrderRow>, s: Settings): Bill {
    var active := Active(orders);
    var subtotal := Sum(LineTotals(AllLines(active)));
    var tax := Charge(subtotal, EffectiveTaxRate(s));
    var service := Charge(subtotal, s.serviceRate);
    var discount := Round2(Discounts(active));
    Bill(BilledOrders(active), subtotal, tax, service, discount, subtotal + tax + service - discount)
  }

  lemma {:induction false} ActiveSnoc(orders: seq<OrderRow>, o: OrderRow)
    ensures Active(orders + [o]) == Active(orders) + if o.status == OrderCancelled then [] else [o]
  {
    if orders == [] {
      assert [] + [o] == [o] && [o][1..] == [];
    } else {
      assert (orders + [o])[1..] == orders[1..] + [o];
      ActiveSnoc(orders[1..], o);
    }
  }

  lemma {:induction false} AllLinesSnoc(orders: seq<OrderRow>, o: OrderRow)
    ensures AllLines(orders + [o]) == AllLines(orders) + o.lines
    ensures Discounts(orders + [o]) == Discounts(orders) + if o.discount.Some? then o.discount.value else 0.0
  {
    if orders == [] {
      assert [] + [o] == [o] && [o][1..] == [];
      assert AllLines([o]) == o.lines + [] == o.lines;
    } else {
      assert (orders + [o])[1..] == orders[1..] + [o];
      AllLinesSnoc(orders[1..], o);
    }
  }

  lemma LineTotalsAppend(a: seq<Line>, b: seq<Line>)
    ensures LineTotals(a + b) == LineTotals(a) + LineTotals(b)
    ensures Sum(LineTotals(a + b)) == Sum(LineTotals(a)) + Sum(LineTotals(b))
  {
    assert LineTotals(a + b) == LineTotals(a) + LineTotals(b);
    SumAppend(LineTotals(a), LineTotals(b));
  }

  lemma {:induction false} LineSumsAreCents(lines: seq<Line>)
    ensures WholeCents(Sum(LineTotals(lines)))
  {
    if lines == [] {
      assert 0.0 * 100.0 == 0 as real;
    } else {
      LineSumsAreCents(lines[1..]);
      Round2Error(RawLine(lines[0]));
      assert LineTotals(lines)[1..] == LineTotals(lines[1..]);
      CentsAdd(LineTotals(lines)[0], Sum(LineTotals(lines[1..])));
    }
  }

  method CollectActive(orders: seq<OrderRow>) returns (activeOrders: seq<OrderRow>)
    ensures activeOrders == Active(orders)
  {
    activeOrders := [];
    for i := 0 to |orders|
      invariant activeOrders == Active(orders[..i])
    {
      assert orders[..i + 1] == orders[..i] + [orders[i]];
      ActiveSnoc(orders[..i], orders[i]);
      if orders[i].status == OrderCancelled {
        continue;
      }
      activeOrders := activeOrders + [orders[i]];
    }
    assert orders[..|orders|] == orders;
  }

  /** A whole number of cents within half a cent of the quantity times the price, modifiers included. */
  predicate Priced(total: real, l: Line) {
    WholeCents(total) && -0.005 <= total - (l.basePrice + Sum(l.modifiers)) * l.quantity as real <= 0.005
  }

  lemma LinesArePriced(lines: seq<Line>)
    ensures forall k | 0 <= k < |lines| :: Priced(LineTotals(lines)[k], lines[k])
  {
    forall k | 0 <= k < |lines| ensures Priced(LineTotals(lines)[k], lines[k]) {
      Round2Error(RawLine(lines[k]));
    }
  }

  method TotalLines(lines: seq<Line>) returns (lineTotals: seq<real>, orderTotal: real)
    ensures lineTotals == LineTotals(lines) && orderTotal == Sum(lineTotals)
    ensures |lineTotals| == |lines| && forall k | 0 <= k < |lines| :: Priced(lineTotals[k], lines[k])
  {
    LinesArePriced(lines);
    hide Round2, WholeCents, Priced;
    lineTotals, orderTotal := [], 0.0;
    for k := 0 to |lines|
      invariant lineTotals == LineTotals(lines[..k]) && orderTotal == Sum(lineTotals)
    {
      var l := lines[k];
      var modTotal := 0.0;
      for m := 0 to |l.modifiers|
        invariant modTotal == Sum(l.modifiers[..m])
      {
        assert l.modifiers[..m + 1] == l.modifiers[..m] + [l.modifiers[m]];
        SumSnoc(l.modifiers[..m], l.modifiers[m]);
        modTotal := modTotal + l.modifiers[m];
      }
      assert l.modifiers[..|l.modifiers|] == l.modifiers;
      assert RawLine(l) == (l.basePrice + modTotal) * l.quantity as real;
      var lineTotal := Round2((l.basePrice + modTotal) * l.quantity as real);
      SumSnoc(lineTotals, lineTotal);
      assert LineTotals(lines[..k + 1]) == LineTotals(lines[..k]) + [lineTotal];
      orderTotal := orderTotal + lineTotal;
      lineTotals := lineTotals + [lineTotal];
    }
    assert lines[..|lines|] == lines;
  }

  lemma OneMoreBilled(before: seq<OrderRow>, o: OrderRow)
    ensures Sum(LineTotals(AllLines(before + [o]))) == Sum(LineTotals(AllLines(before))) + Sum(LineTotals(o.lines))
    ensures Discounts(before + [o]) == Discounts(before) + if o.discount.Some? then o.discount.value else 0.0
  {
    AllLinesSnoc(before, o);
    LineTotalsAppend(AllLines(before), o.lines);
  }

  lemma NothingBilled()
    ensures Sum(LineTotals(AllLines([]))) == 0.0 && Discounts([]) == 0.0
  {}

  method Itemize(activeOrders: seq<OrderRow>) returns (billOrders: seq<BillOrder>, subtotal: real, totalDiscount: real)
    ensures billOrders == BilledOrders(activeOrders)
    ensures subtotal == Sum(LineTotals(AllLines(activeOrders))) && totalDiscount == Discounts(activeOrders)
  {
    hide Round2, WholeCents, LineTotals, RawLine, Sum, AllLines, Discounts;
    billOrders, subtotal, totalDiscount := [], 0.0, 0.0;
    NothingBilled();
    for i := 0 to |activeOrders|
      invariant |billOrders| == i && forall k | 0 <= k < i :: billOrders[k] == BilledOrder(activeOrders[k])
      invariant subtotal == Sum(LineTotals(AllLines(activeOrders[..i])))
      invariant totalDiscount == Discounts(activeOrders[..i])
    {
      var o := activeOrders[i];
      assert activeOrders[..i + 1] == activeOrders[..i] + [o];
      OneMoreBilled(activeOrders[..i], o);
      var lineTotals, orderTotal := TotalLines(o.lines);
      LineSumsAreCents(o.lines);
      Round2OfCents(orderTotal);
      billOrders := billOrders + [BillOrder(o.id, lineTotals, Round2(orderTotal))];
      subtotal := subtotal + orderTotal;
      if o.discount.Some? {
        totalDiscount := totalDiscount + o.discount.value;
      }
    }
    assert activeOrders[..|activeOrders|] == activeOrders;
  }

  /** The program's loops, with its four layers of rounding, compute that bill. */
  method ComputeBill(orders: seq<OrderRow>, s: Settings) returns (bill: Bill)
    ensures bill == BillOf(orders, s)
  {
    hide Round2, WholeCents, LineTotals, BilledOrders, Sum, AllLines, Discounts, Active;
    var activeOrders := CollectActive(orders);
    var billOrders, subtotal, totalDiscount := Itemize(activeOrders);
    LineSumsAreCents(AllLines(activeOrders));
    Round2OfCents(subtotal);
    subtotal := Round2(subtotal);
    totalDiscount := Round2(totalDiscount);

    var taxAmount := 0.0;
    if !s.includeTaxInPrice && s.taxRate > 0.0 {
      taxAmount := Charge(subtotal, s.taxRate);
    }
    var svcCharge := Charge(subtotal, s.serviceRate);
    var total := Round2(subtotal + taxAmount + svcCharge - totalDiscount);
    BillIsCents(orders, s);
    Round2OfCents(subtotal + taxAmount + svcCharge - totalDiscount);
    bill := Bill(billOrders, subtotal, taxAmount, svcCharge, totalDiscount, total);
  }

  lemma ChargeError(subtotal: real, rate: real)
    ensures -0.005 <= Charge(subtotal, rate) - subtotal * rate <= 0.005
    ensures WholeCents(Charge(subtotal, rate))
  {
    Round2Error(subtotal * rate);
  }

  lemma BillIsCents(orders: seq<OrderRow>, s: Settings)
    ensures var b := BillOf(orders, s);
      && WholeCents(b.subtotal) && WholeCents(b.tax) && WholeCents(b.service)
      && WholeCents(b.discount) && WholeCents(b.total)
  {
    hide Round2, WholeCents, LineTotals, BilledOrders, Charge;
    var b := BillOf(orders, s);
    LineSumsAreCents(AllLines(Active(orders)));
    ChargeError(b.subtotal, EffectiveTaxRate(s));
    ChargeError(b.subtotal, s.serviceRate);
    Round2Error(Discounts(Active(orders)));
    CentsAdd(b.subtotal, b.tax);
    CentsAdd(b.subtotal + b.tax, b.service);
    CentsAdd(b.subtotal + b.tax + b.service, b.discount);
  }
}

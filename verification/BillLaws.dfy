// What holds of every bill: conservation, accuracy, independence of order sequence, growth.
module BillLaws {
  import opened Wrappers
  import opened Lifecycle
  import opened Billing

  // ---------------------------------------------------------------- conservation

  function OrderTotals(bs: seq<BillOrder>): seq<real> {
    seq(|bs|, i requires 0 <= i < |bs| => bs[i].orderTotal)
  }

  function OrderValue(o: OrderRow): real {
    Sum(LineTotals(o.lines))
  }

  function DiscountOf(o: OrderRow): real {
    if o.discount.Some? then o.discount.value else 0.0
  }

  function Values(os: seq<OrderRow>): real {
    if os == [] then 0.0 else OrderValue(os[0]) + Values(os[1..])
  }

  lemma {:induction false} LinesByOrder(os: seq<OrderRow>)
    ensures Sum(LineTotals(AllLines(os))) == Values(os)
  {
    if os == [] {
    } else {
      LinesByOrder(os[1..]);
      LineTotalsAppend(os[0].lines, AllLines(os[1..]));
    }
  }

  lemma {:induction false} TotalsByOrder(os: seq<OrderRow>)
    ensures Sum(OrderTotals(BilledOrders(os))) == Values(os)
  {
    if os == [] {
    } else {
      TotalsByOrder(os[1..]);
      assert OrderTotals(BilledOrders(os))[1..] == OrderTotals(BilledOrders(os[1..]));
    }
  }

  /** The printed order totals add up to the subtotal, and each is the sum of its printed lines. */
  lemma NothingLostBetweenLines(orders: seq<OrderRow>, s: Settings)
    ensures var b := BillOf(orders, s);
      && Sum(OrderTotals(b.orders)) == b.subtotal
      && (forall o | o in b.orders :: o.orderTotal == Sum(o.lineTotals))
  {
    LinesByOrder(Active(orders));
    TotalsByOrder(Active(orders));
  }

  /** The bill prints the orders that are not cancelled, in sequence, each with its own lines' prices. */
  lemma PrintedOrders(orders: seq<OrderRow>, s: Settings)
    ensures var b, active := BillOf(orders, s), Active(orders);
      && |b.orders| == |active|
      && forall i | 0 <= i < |active| ::
          && b.orders[i].orderId == active[i].id
          && |b.orders[i].lineTotals| == |active[i].lines|
          && forall k | 0 <= k < |active[i].lines| :: Priced(b.orders[i].lineTotals[k], active[i].lines[k])
  {
    hide Priced;
    var active := Active(orders);
    forall i | 0 <= i < |active|
      ensures forall k | 0 <= k < |active[i].lines| :: Priced(BilledOrder(active[i]).lineTotals[k], active[i].lines[k])
    {
      LinesArePriced(active[i].lines);
    }
  }

  // ---------------------------------------------------------------- accuracy

  /** What lines cost without rounding: each unit at its price with its modifiers. */
  function ExactLines(lines: seq<Line>): real {
    if lines == [] then 0.0
    else (lines[0].basePrice + Sum(lines[0].modifiers)) * lines[0].quantity as real + ExactLines(lines[1..])
  }

  /** The goods, the lines and the discounts of the orders that are not cancelled. */
  function ExactGoods(orders: seq<OrderRow>): real {
    if orders == [] then 0.0
    else (if orders[0].status == OrderCancelled then 0.0 else ExactLines(orders[0].lines)) + ExactGoods(orders[1..])
  }

  function LineCount(orders: seq<OrderRow>): nat {
    if orders == [] then 0
    else (if orders[0].status == OrderCancelled then 0 else |orders[0].lines|) + LineCount(orders[1..])
  }

  function ExactDiscounts(orders: seq<OrderRow>): real {
    if orders == [] then 0.0
    else (if orders[0].status == OrderCancelled then 0.0 else DiscountOf(orders[0])) + ExactDiscounts(orders[1..])
  }

  lemma {:induction false} ExactLinesAppend(a: seq<Line>, b: seq<Line>)
    ensures ExactLines(a + b) == ExactLines(a) + ExactLines(b)
  {
    if a == [] {
      assert a + b == b;
    } else {
      assert (a + b)[1..] == a[1..] + b;
      ExactLinesAppend(a[1..], b);
    }
  }

  lemma {:induction false} ActiveParts(orders: seq<OrderRow>)
    ensures ExactLines(AllLines(Active(orders))) == ExactGoods(orders)
    ensures |AllLines(Active(orders))| == LineCount(orders) && Discounts(Active(orders)) == ExactDiscounts(orders)
  {
    if orders == [] {
    } else {
      ActiveParts(orders[1..]);
      var rest := Active(orders[1..]);
      if orders[0].status == OrderCancelled {
        assert Active(orders) == [] + rest == rest;
      } else {
        assert Active(orders) == [orders[0]] + rest && Active(orders)[1..] == rest;
        ExactLinesAppend(orders[0].lines, AllLines(rest));
      }
    }
  }

  lemma {:induction false} LineRoundingError(lines: seq<Line>)
    ensures -0.005 * |lines| as real <= Sum(LineTotals(lines)) - ExactLines(lines) <= 0.005 * |lines| as real
  {
    if lines == [] {
    } else {
      LineRoundingError(lines[1..]);
      assert LineTotals(lines)[1..] == LineTotals(lines[1..]);
      Round2Error(RawLine(lines[0]));
    }
  }

  /** One more unit costs one more unit price, modifiers included. */
  lemma OneMoreUnit(l: Line)
    ensures RawLine(l.(quantity := l.quantity + 1)) == RawLine(l) + l.basePrice + Sum(l.modifiers)
  {}

  lemma ScaledError(x: real, y: real, e: real, rate: real)
    requires -e <= x - y <= e && rate >= 0.0
    ensures -(e * rate) <= x * rate - y * rate <= e * rate
  {
    assert (x - y) * rate <= e * rate;
    assert (-e) * rate <= (x - y) * rate;
  }

  /** The error of each part of a bill, put together; st and rt are the subtotal and the exact
      amount at the tax rate t, sv and rv at the service rate v. */
  lemma ErrorBudget(subtotal: real, raw: real, n: real, t: real, v: real, tax: real, service: real, discount: real,
                    exact: real, st: real, rt: real, sv: real, rv: real)
    requires -0.005 * n <= subtotal - raw <= 0.005 * n
    requires -(0.005 * n * t) <= st - rt <= 0.005 * n * t && -(0.005 * n * v) <= sv - rv <= 0.005 * n * v
    requires -0.005 <= tax - st <= 0.005 && -0.005 <= service - sv <= 0.005
    requires -0.005 <= discount - exact <= 0.005
    ensures var bound := 0.005 * (n * (1.0 + t + v) + 3.0);
      -bound <= (subtotal + tax + service - discount) - (raw + rt + rv - exact) <= bound
  {
    assert 0.005 * (n * (1.0 + t + v) + 3.0) == 0.005 * n + 0.005 * n * t + 0.005 * n * v + 0.015;
  }

  lemma PartsError(b: Bill, raw: real, n: real, t: real, v: real, exact: real)
    requires t >= 0.0 && v >= 0.0
    requires -0.005 * n <= b.subtotal - raw <= 0.005 * n
    requires -0.005 <= b.tax - b.subtotal * t <= 0.005 && -0.005 <= b.service - b.subtotal * v <= 0.005
    requires -0.005 <= b.discount - exact <= 0.005
    ensures var bound := 0.005 * (n * (1.0 + t + v) + 3.0);
      -bound <= (b.subtotal + b.tax + b.service - b.discount) - (raw + raw * t + raw * v - exact) <= bound
  {
    ScaledError(b.subtotal, raw, 0.005 * n, t);
    ScaledError(b.subtotal, raw, 0.005 * n, v);
    ErrorBudget(b.subtotal, raw, n, t, v, b.tax, b.service, b.discount, exact,
                b.subtotal * t, raw * t, b.subtotal * v, raw * v);
  }

  /** Each part of the bill by itself: the subtotal is within half a cent per line of the goods, tax and
      service within half a cent of their rates on it, the discount within half a cent of what was
      granted. There is no tax when it is included in the prices. */
  lemma PartsAccuracy(orders: seq<OrderRow>, s: Settings)
    ensures var b := BillOf(orders, s);
      && -0.005 * LineCount(orders) as real <= b.subtotal - ExactGoods(orders) <= 0.005 * LineCount(orders) as real
      && (if s.includeTaxInPrice || s.taxRate <= 0.0 then b.tax == 0.0
          else -0.005 <= b.tax - b.subtotal * s.taxRate <= 0.005)
      && -0.005 <= b.service - b.subtotal * s.serviceRate <= 0.005
      && -0.005 <= b.discount - ExactDiscounts(orders) <= 0.005
      && b.total == b.subtotal + b.tax + b.service - b.discount
  {
    hide Charge, Round2, Active, AllLines, LineTotals, Sum, ExactLines, Discounts, ExactGoods, ExactDiscounts,
      LineCount;
    var b := BillOf(orders, s);
    ActiveParts(orders);
    LineRoundingError(AllLines(Active(orders)));
    ChargeError(b.subtotal, EffectiveTaxRate(s));
    ChargeError(b.subtotal, s.serviceRate);
    Round2Error(Discounts(Active(orders)));
  }

  /** A bill of n lines is within half a cent per line, grown by the rates, and three half
      cents more, of the exact amount; the tax rate counts as zero when tax is in the prices. */
  lemma BillAccuracy(orders: seq<OrderRow>, s: Settings)
    requires s.serviceRate >= 0.0
    ensures var n, raw := LineCount(orders) as real, ExactGoods(orders);
      var t := if s.includeTaxInPrice || s.taxRate <= 0.0 then 0.0 else s.taxRate;
      var bound := 0.005 * (n * (1.0 + t + s.serviceRate) + 3.0);
      -bound <= BillOf(orders, s).total - (raw + raw * t + raw * s.serviceRate - ExactDiscounts(orders)) <= bound
  {
    PartsAccuracy(orders, s);
    hide BillOf, ExactGoods, ExactDiscounts, LineCount;
    var t := if s.includeTaxInPrice || s.taxRate <= 0.0 then 0.0 else s.taxRate;
    PartsError(BillOf(orders, s), ExactGoods(orders), LineCount(orders) as real, t, s.serviceRate,
               ExactDiscounts(orders));
  }

  // ---------------------------------------------------------------- sequence and cancelled orders

  lemma {:induction false} TakeOut(os: seq<OrderRow>, i: nat)
    requires i < |os|
    ensures Values(os) == OrderValue(os[i]) + Values(os[..i] + os[i + 1..])
    ensures Discounts(os) == DiscountOf(os[i]) + Discounts(os[..i] + os[i + 1..])
  {
    if i == 0 {
      assert os[..0] + os[1..] == os[1..];
    } else {
      TakeOut(os[1..], i - 1);
      var rest := os[..i] + os[i + 1..];
      assert rest[1..] == os[1..][..i - 1] + os[1..][i..];
      assert os[1..][i - 1] == os[i] && rest[0] == os[0];
    }
  }

  lemma MultisetWithout(os: seq<OrderRow>, i: nat)
    requires i < |os|
    ensures multiset(os) == multiset{os[i]} + multiset(os[..i] + os[i + 1..])
  {
    assert os == os[..i] + [os[i]] + os[i + 1..];
  }

  lemma Cancel(x: OrderRow, m: multiset<OrderRow>, n: multiset<OrderRow>)
    requires multiset{x} + m == multiset{x} + n
    ensures m == n
  {
    forall y ensures m[y] == n[y] {
      assert (multiset{x} + m)[y] == (multiset{x} + n)[y];
    }
  }

  lemma MatchedAt(a: seq<OrderRow>, b: seq<OrderRow>, i: nat)
    requires a != [] && i < |b| && b[i] == a[0] && multiset(a) == multiset(b)
    ensures multiset(a[1..]) == multiset(b[..i] + b[i + 1..])
  {
    var x, y := multiset(a[1..]), multiset(b[..i] + b[i + 1..]);
    assert multiset(a) == multiset{a[0]} + x by {
      assert a == [a[0]] + a[1..];
    }
    assert multiset(b) == multiset{a[0]} + y by {
      MultisetWithout(b, i);
    }
    Cancel(a[0], x, y);
  }

  lemma {:induction false} SameMoney(a: seq<OrderRow>, b: seq<OrderRow>)
    requires multiset(a) == multiset(b)
    ensures Values(a) == Values(b) && Discounts(a) == Discounts(b)
    decreases |a|
  {
    if a == [] {
      assert |multiset(b)| == |b|;
    } else {
      hide OrderValue, DiscountOf, Values, Discounts;
      assert a[0] in multiset(a);
      var i :| 0 <= i < |b| && b[i] == a[0];
      MatchedAt(a, b, i);
      SameMoney(a[1..], b[..i] + b[i + 1..]);
      TakeOut(b, i);
      TakeOut(a, 0);
      assert a[..0] + a[1..] == a[1..];
    }
  }

  /** The money does not depend on the order of the orders, nor on cancelled ones. */
  lemma SequenceDoesNotMatter(a: seq<OrderRow>, b: seq<OrderRow>, s: Settings)
    requires multiset(Active(a)) == multiset(Active(b))
    ensures BillOf(a, s) == BillOf(b, s).(orders := BillOf(a, s).orders)
  {
    SameMoney(Active(a), Active(b));
    LinesByOrder(Active(a));
    LinesByOrder(Active(b));
  }

  lemma {:induction false} ActiveAppend(a: seq<OrderRow>, b: seq<OrderRow>)
    ensures Active(a + b) == Active(a) + Active(b)
  {
    if a == [] {
      assert a + b == b;
    } else {
      assert (a + b)[1..] == a[1..] + b;
      ActiveAppend(a[1..], b);
    }
  }

  lemma ActiveBetween(a: seq<OrderRow>, o: OrderRow, b: seq<OrderRow>)
    ensures Active(a + [o] + b) == Active(a) + (if o.status == OrderCancelled then [] else [o]) + Active(b)
    ensures Active(a + b) == Active(a) + Active(b)
  {
    ActiveAppend(a + [o], b);
    ActiveSnoc(a, o);
    ActiveAppend(a, b);
  }

  lemma CancelledOrdersAreFree(a: seq<OrderRow>, gone: OrderRow, b: seq<OrderRow>, s: Settings)
    requires gone.status == OrderCancelled
    ensures BillOf(a + [gone] + b, s) == BillOf(a + b, s)
  {
    hide Active, AllLines, LineTotals, BilledOrders, Discounts, Sum, Charge, Round2;
    ActiveBetween(a, gone, b);
    assert Active(a) + [] + Active(b) == Active(a) + Active(b);
  }

  // ---------------------------------------------------------------- growth

  /** Halfway between two cents. */
  predicate HalfCent(x: real) {
    WholeCents(x + 0.005)
  }

  lemma RoundsUpToHalf(v: real)
    ensures var half := (v + 0.5).Floor as real == v + 0.5;
      RoundHalfAway(v) == (v + 0.5).Floor - (if v < 0.0 && half then 1 else 0)
  {}

  lemma FloorShift(v: real, n: int)
    ensures (v + n as real).Floor == v.Floor + n
  {}

  /** What rounding adds when a whole number of cents is added first: nothing, unless the sum crosses
      zero from one half-cent to another, which round away from each other. */
  function Crossing(x: real, d: real): real {
    if !HalfCent(x) then 0.0 else if x < 0.0 < x + d then 0.01 else if x + d < 0.0 < x then -0.01 else 0.0
  }

  lemma CrossingInCents(v: real, n: int)
    ensures var half := (v + 0.5).Floor as real == v + 0.5;
      RoundHalfAway(v + n as real) - RoundHalfAway(v) ==
      n + (if half && v < 0.0 && v + n as real >= 0.0 then 1
           else if half && v >= 0.0 && v + n as real < 0.0 then -1
           else 0)
  {
    RoundsUpToHalf(v);
    RoundsUpToHalf(v + n as real);
    FloorShift(v + 0.5, n);
    assert v + n as real + 0.5 == (v + 0.5) + n as real;
  }

  lemma CentsPassThrough(x: real, d: real)
    requires WholeCents(d)
    ensures Round2(x + d) == Round2(x) + d + Crossing(x, d)
  {
    var v, n := x * 100.0, (d * 100.0).Floor;
    CrossingInCents(v, n);
    assert (x + d) * 100.0 == v + n as real;
    assert (x + 0.005) * 100.0 == v + 0.5;
    assert d == n as real / 100.0;
    assert HalfCent(x) ==> v + n as real != 0.0 && v != 0.0 by {
      if HalfCent(x) {
        NoHalfInteger(v, 0);
        NoHalfInteger(v, -n);
      }
    }
  }

  lemma NoHalfInteger(v: real, n: int)
    requires (v + 0.5).Floor as real == v + 0.5
    ensures v != n as real
  {}

  lemma ChargeGrows(a: real, b: real, rate: real)
    requires a <= b && rate >= 0.0
    ensures Charge(a, rate) <= Charge(b, rate)
  {
    assert a * rate <= b * rate;
    Round2Monotone(a * rate, b * rate);
  }

  /** The total, as a function of what the active orders are worth. */
  function TotalFor(value: real, discounts: real, s: Settings): real {
    value + Charge(value, EffectiveTaxRate(s)) + Charge(value, s.serviceRate) - Round2(discounts)
  }

  lemma TotalByOrder(orders: seq<OrderRow>, s: Settings)
    ensures BillOf(orders, s).total == TotalFor(Values(Active(orders)), Discounts(Active(orders)), s)
  {
    LinesByOrder(Active(orders));
  }

  lemma WithOneMore(a: seq<OrderRow>, o: OrderRow, b: seq<OrderRow>)
    requires o.status != OrderCancelled
    ensures Values(Active(a + [o] + b)) == OrderValue(o) + Values(Active(a + b))
    ensures Discounts(Active(a + [o] + b)) == DiscountOf(o) + Discounts(Active(a + b))
  {
    hide Active, Values, Discounts, OrderValue, DiscountOf;
    ActiveBetween(a, o, b);
    var x, y := Active(a), Active(b);
    var with := x + [o] + y;
    TakeOut(with, |x|);
    assert with[..|x|] == x && with[|x| + 1..] == y && with[|x|] == o;
  }

  /** What tax and service grow by when an order of some worth comes on top. */
  function ChargeGrowth(value: real, more: real, s: Settings): real {
    Charge(more + value, EffectiveTaxRate(s)) - Charge(value, EffectiveTaxRate(s))
    + Charge(more + value, s.serviceRate) - Charge(value, s.serviceRate)
  }

  lemma TotalForChange(value: real, more: real, discounts: real, d: real, s: Settings)
    requires WholeCents(d)
    ensures TotalFor(more + value, d + discounts, s) - TotalFor(value, discounts, s)
            == more - d + ChargeGrowth(value, more, s) - Crossing(discounts, d)
  {
    hide Charge, Round2, WholeCents, Crossing;
    CentsPassThrough(discounts, d);
    assert d + discounts == discounts + d;
  }

  /** What one more order changes, wherever it stands in the list: its own worth less its discount,
      what tax and service grow by, and a cent when the discounts cross zero between half-cents. */
  lemma OneMoreOrderChange(a: seq<OrderRow>, o: OrderRow, b: seq<OrderRow>, s: Settings)
    requires o.status != OrderCancelled && WholeCents(DiscountOf(o))
    ensures var earlier := Active(a + b);
      BillOf(a + [o] + b, s).total - BillOf(a + b, s).total
      == OrderValue(o) - DiscountOf(o) + ChargeGrowth(Values(earlier), OrderValue(o), s)
         - Crossing(Discounts(earlier), DiscountOf(o))
  {
    hide BillOf, TotalFor, Active, Values, Discounts, WholeCents, OrderValue, DiscountOf, ChargeGrowth, Crossing;
    WithOneMore(a, o, b);
    TotalByOrder(a + [o] + b, s);
    TotalByOrder(a + b, s);
    TotalForChange(Values(Active(a + b)), OrderValue(o), Discounts(Active(a + b)), DiscountOf(o), s);
  }

  lemma GrowthInCents(value: real, more: real, s: Settings)
    requires s.serviceRate >= 0.0 && more >= 0.0
    ensures ChargeGrowth(value, more, s) >= 0.0 && WholeCents(ChargeGrowth(value, more, s))
  {
    hide Charge, WholeCents;
    var t, v := EffectiveTaxRate(s), s.serviceRate;
    ChargeGrows(value, more + value, t);
    ChargeGrows(value, more + value, v);
    ChargeError(value, t);
    ChargeError(more + value, t);
    ChargeError(value, v);
    ChargeError(more + value, v);
    CentsAdd(Charge(more + value, t), Charge(value, t));
    CentsAdd(Charge(more + value, v), Charge(value, v));
    CentsAdd(Charge(more + value, t) - Charge(value, t), Charge(more + value, v) - Charge(value, v));
    assert ChargeGrowth(value, more, s)
        == (Charge(more + value, t) - Charge(value, t)) + (Charge(more + value, v) - Charge(value, v));
  }

  lemma CentOrNothing(x: real)
    requires WholeCents(x) && x >= 0.0
    ensures x < 0.01 <==> x == 0.0
  {
    var n := (x * 100.0).Floor;
    assert n as real == x * 100.0;
    assert x > 0.0 ==> n > 0;
  }

  /** The order takes the discounts across zero between half-cents and adds nothing that makes up for it. */
  predicate Cheapens(earlier: seq<OrderRow>, o: OrderRow, s: Settings) {
    && HalfCent(Discounts(earlier)) && Discounts(earlier) < 0.0 < Discounts(earlier) + DiscountOf(o)
    && OrderValue(o) == DiscountOf(o) && ChargeGrowth(Values(earlier), OrderValue(o), s) == 0.0
  }

  lemma GainAgainstCrossing(net: real, growth: real, earlier: real, d: real)
    requires WholeCents(net) && WholeCents(growth) && net >= 0.0 && growth >= 0.0 && d >= 0.0
    ensures net + growth - Crossing(earlier, d) >= 0.0 <==>
            !(HalfCent(earlier) && earlier < 0.0 < earlier + d && net == 0.0 && growth == 0.0)
  {
    hide WholeCents, HalfCent;
    CentsAdd(net, growth);
    CentOrNothing(net + growth);
  }

  lemma OneMoreActiveOrder(a: seq<OrderRow>, o: OrderRow, b: seq<OrderRow>, s: Settings)
    requires s.serviceRate >= 0.0 && o.status != OrderCancelled
    requires 0.0 <= DiscountOf(o) <= OrderValue(o) && WholeCents(DiscountOf(o))
    ensures BillOf(a + [o] + b, s).total >= BillOf(a + b, s).total <==> !Cheapens(Active(a + b), o, s)
  {
    hide BillOf, Active, Values, Discounts, WholeCents, OrderValue, DiscountOf, ChargeGrowth, HalfCent, Crossing;
    var earlier := Active(a + b);
    var growth := ChargeGrowth(Values(earlier), OrderValue(o), s);
    OneMoreOrderChange(a, o, b, s);
    NetWorthIsCents(o);
    GrowthInCents(Values(earlier), OrderValue(o), s);
    GainAgainstCrossing(OrderValue(o) - DiscountOf(o), growth, Discounts(earlier), DiscountOf(o));
  }

  /** One more order whose discount is a whole number of cents, not negative and within its own total,
      never makes the bill smaller, with that one exception. */
  lemma OneMoreOrderNeverCheapens(a: seq<OrderRow>, o: OrderRow, b: seq<OrderRow>, s: Settings)
    requires s.serviceRate >= 0.0
    requires 0.0 <= DiscountOf(o) <= OrderValue(o) && WholeCents(DiscountOf(o))
    ensures BillOf(a + [o] + b, s).total >= BillOf(a + b, s).total
            <==> o.status == OrderCancelled || !Cheapens(Active(a + b), o, s)
  {
    if o.status == OrderCancelled {
      CancelledOrdersAreFree(a, o, b, s);
    } else {
      hide BillOf, Cheapens, OrderValue, DiscountOf;
      OneMoreActiveOrder(a, o, b, s);
    }
  }

  lemma NetWorthIsCents(o: OrderRow)
    requires WholeCents(DiscountOf(o))
    ensures WholeCents(OrderValue(o) - DiscountOf(o))
  {
    LineSumsAreCents(o.lines);
    CentsAdd(OrderValue(o), DiscountOf(o));
  }

  lemma {:induction false} StoredDiscounts(os: seq<OrderRow>)
    requires forall o | o in os :: WholeCents(DiscountOf(o))
    ensures WholeCents(Discounts(os))
  {
    if os == [] {
      assert 0.0 * 100.0 == 0 as real;
    } else {
      assert os[0] in os && forall o | o in os[1..] :: o in os;
      StoredDiscounts(os[1..]);
      CentsAdd(DiscountOf(os[0]), Discounts(os[1..]));
    }
  }

  lemma {:induction false} ActiveIsPart(os: seq<OrderRow>)
    ensures forall o | o in Active(os) :: o in os
  {
    if os == [] {
    } else {
      ActiveIsPart(os[1..]);
    }
  }

  lemma NotBoth(x: real)
    requires WholeCents(x)
    ensures !HalfCent(x)
  {
    var n := (x * 100.0).Floor;
    assert (x + 0.005) * 100.0 == n as real + 0.5;
  }

  /** Discounts are stored with two decimals, and then there is no exception: the total changes by
      exactly what the order is worth after its discount and what tax and service grow by. */
  lemma StoredOrdersNeverCheapen(a: seq<OrderRow>, o: OrderRow, b: seq<OrderRow>, s: Settings)
    requires forall r | r in a + [o] + b :: WholeCents(DiscountOf(r))
    requires o.status != OrderCancelled
    ensures BillOf(a + [o] + b, s).total - BillOf(a + b, s).total
            == OrderValue(o) - DiscountOf(o) + ChargeGrowth(Values(Active(a + b)), OrderValue(o), s)
    ensures s.serviceRate >= 0.0 && 0.0 <= DiscountOf(o) <= OrderValue(o) ==>
      BillOf(a + [o] + b, s).total >= BillOf(a + b, s).total
  {
    hide BillOf, Values, Discounts, WholeCents, OrderValue, DiscountOf, ChargeGrowth, HalfCent, Active;
    assert o in a + [o] + b && forall r | r in a + b :: r in a + [o] + b;
    ActiveIsPart(a + b);
    StoredDiscounts(Active(a + b));
    NotBoth(Discounts(Active(a + b)));
    OneMoreOrderChange(a, o, b, s);
    if s.serviceRate >= 0.0 && 0.0 <= DiscountOf(o) <= OrderValue(o) {
      GrowthInCents(Values(Active(a + b)), OrderValue(o), s);
    }
  }
}

// Orders merge differently from everything else: the first placement of an order wins, so an
// early copy can leave something behind. This module says exactly when replay repairs it.
module OrderReplay {
  import opened Wrappers
  import opened Lifecycle
  import opened ClientState
  import opened Convergence

  function OrdersFold(os: seq<Order>, log: seq<Delivery>): seq<Order>
    decreases |log|
  {
    if log == [] then os else OrdersFold(OrdersStep(os, log[0].event), log[1..])
  }

  lemma {:induction false} OrdersOfFold(r: Replica, log: seq<Delivery>)
    ensures Fold(r, log).orders == OrdersFold(r.orders, log)
    decreases |log|
  {
    if log == [] {
    } else {
      OrdersOfFold(Step(r, log[0].event, log[0].now), log[1..]);
    }
  }

  lemma {:induction false} OrdersFoldAppend(os: seq<Order>, a: seq<Delivery>, b: seq<Delivery>)
    ensures OrdersFold(os, a + b) == OrdersFold(OrdersFold(os, a), b)
    decreases |a|
  {
    if a == [] {
      assert a + b == b;
    } else {
      assert (a + b)[1..] == a[1..] + b;
      OrdersFoldAppend(OrdersStep(os, a[0].event), a[1..], b);
    }
  }

  ghost predicate DistinctIds(os: seq<Order>) {
    forall i, j | 0 <= i < j < |os| :: os[i].id != os[j].id
  }

  /** The same orders with the same statuses, wherever they stand in the list. */
  ghost predicate SameOrders(a: seq<Order>, b: seq<Order>) {
    multiset(a) == multiset(b)
  }

  // ---------------------------------------------------------------- one order at a time

  /** What one event does to the entry kept for `id`. */
  function EntryStep(x: Option<Order>, id: string, e: Event): Option<Order> {
    match e
    case EventOrderPlaced(o) => if x.None? && o.id == id then Some(o) else x
    case EventOrderStatus(status, payload) =>
      if x.Some? && OrderIdOf(payload) == Some(id) then Some(x.value.(status := status)) else x
    case _ => x
  }

  function EntryFold(x: Option<Order>, id: string, log: seq<Delivery>): Option<Order>
    decreases |log|
  {
    if log == [] then x else EntryFold(EntryStep(x, id, log[0].event), id, log[1..])
  }

  lemma {:induction false} FindAfterStatus(os: seq<Order>, id: string, status: OrderStatus, k: string)
    ensures FindOrder(SetOrderStatus(os, id, status), k) ==
      if FindOrder(os, k).Some? && k == id then Some(FindOrder(os, k).value.(status := status)) else FindOrder(os, k)
  {
    if os == [] {
    } else {
      FindAfterStatus(os[1..], id, status, k);
    }
  }

  lemma EntryOfStep(os: seq<Order>, e: Event, id: string)
    ensures FindOrder(OrdersStep(os, e), id) == EntryStep(FindOrder(os, id), id, e)
  {
    match e
    case EventOrderPlaced(o) => assert ([o] + os)[1..] == os;
    case EventOrderStatus(status, payload) =>
      if OrderIdOf(payload).Some? {
        FindAfterStatus(os, OrderIdOf(payload).value, status, id);
      }
    case _ =>
  }

  lemma {:induction false} EntryOfFold(os: seq<Order>, log: seq<Delivery>, id: string)
    ensures FindOrder(OrdersFold(os, log), id) == EntryFold(FindOrder(os, id), id, log)
    decreases |log|
  {
    if log == [] {
    } else {
      EntryOfStep(os, log[0].event, id);
      EntryOfFold(OrdersStep(os, log[0].event), log[1..], id);
    }
  }

  lemma {:induction false} StatusKeepsIds(os: seq<Order>, id: string, status: OrderStatus)
    ensures var r := SetOrderStatus(os, id, status);
      |r| == |os| && forall i | 0 <= i < |os| :: r[i].id == os[i].id
  {
    if os == [] {
    } else {
      StatusKeepsIds(os[1..], id, status);
    }
  }

  lemma {:induction false} FoldKeepsIdsDistinct(os: seq<Order>, log: seq<Delivery>)
    requires DistinctIds(os)
    ensures DistinctIds(OrdersFold(os, log))
    decreases |log|
  {
    if log == [] {
    } else {
      var e := log[0].event;
      if e.EventOrderStatus? && OrderIdOf(e.payload).Some? {
        StatusKeepsIds(os, OrderIdOf(e.payload).value, e.orderStatus);
      }
      FoldKeepsIdsDistinct(OrdersStep(os, e), log[1..]);
    }
  }

  lemma {:induction false} Multiplicity(os: seq<Order>, o: Order)
    requires DistinctIds(os)
    ensures multiset(os)[o] == if FindOrder(os, o.id) == Some(o) then 1 else 0
  {
    if os == [] {
    } else {
      assert os == [os[0]] + os[1..];
      assert forall x | x in os[1..] :: x.id != os[0].id;
      Multiplicity(os[1..], o);
      if os[0].id == o.id {
        assert FindOrder(os[1..], o.id).None?;
      }
    }
  }

  ghost predicate SameEntries(a: seq<Order>, b: seq<Order>) {
    forall id :: FindOrder(a, id) == FindOrder(b, id)
  }

  /** With distinct ids, agreeing entry by entry is having the same orders. */
  lemma SameEntriesSameOrders(a: seq<Order>, b: seq<Order>)
    requires DistinctIds(a) && DistinctIds(b)
    ensures SameOrders(a, b) <==> SameEntries(a, b)
  {
    if SameOrders(a, b) {
      forall id ensures FindOrder(a, id) == FindOrder(b, id) {
        if FindOrder(a, id).Some? {
          Multiplicity(a, FindOrder(a, id).value);
          Multiplicity(b, FindOrder(a, id).value);
        } else if FindOrder(b, id).Some? {
          Multiplicity(a, FindOrder(b, id).value);
          Multiplicity(b, FindOrder(b, id).value);
        }
      }
    }
    if SameEntries(a, b) {
      forall o ensures multiset(a)[o] == multiset(b)[o] {
        Multiplicity(a, o);
        Multiplicity(b, o);
        assert FindOrder(a, o.id) == FindOrder(b, o.id);
      }
      assert multiset(a) == multiset(b);
    }
  }

  // ---------------------------------------------------------------- reading the log

  /** The status the log leaves an order it knows in, if it mentions the order's status at all. */
  function LastStatus(log: seq<Delivery>, id: string): Option<OrderStatus>
    decreases |log|
  {
    if log == [] then None
    else
      var later := LastStatus(log[1..], id);
      if later.Some? then later
      else if log[0].event.EventOrderStatus? && OrderIdOf(log[0].event.payload) == Some(id)
      then Some(log[0].event.orderStatus)
      else None
  }

  /** An order that is already listed when the log starts ends with the log's last status. */
  function Settle(o: Order, log: seq<Delivery>): Order {
    if LastStatus(log, o.id).None? then o else o.(status := LastStatus(log, o.id).value)
  }

  /** An order that the log itself places: its first placement, with the last status after it. */
  function Arrival(log: seq<Delivery>, id: string): Option<Order>
    decreases |log|
  {
    if log == [] then None
    else if log[0].event.EventOrderPlaced? && log[0].event.order.id == id
    then Some(Settle(log[0].event.order, log[1..]))
    else Arrival(log[1..], id)
  }

  lemma {:induction false} ListedOrderSettles(o: Order, log: seq<Delivery>)
    ensures EntryFold(Some(o), o.id, log) == Some(Settle(o, log))
    decreases |log|
  {
    if log == [] {
    } else {
      ListedOrderSettles(EntryStep(Some(o), o.id, log[0].event).value, log[1..]);
    }
  }

  lemma {:induction false} UnlistedOrderArrives(id: string, log: seq<Delivery>)
    ensures EntryFold(None, id, log) == Arrival(log, id)
    decreases |log|
  {
    if log == [] {
    } else {
      var e := log[0].event;
      if e.EventOrderPlaced? && e.order.id == id {
        ListedOrderSettles(e.order, log[1..]);
      } else {
        UnlistedOrderArrives(id, log[1..]);
      }
    }
  }

  lemma {:induction false} NoStatusInLog(log: seq<Delivery>, id: string)
    ensures LastStatus(log, id).Some? <==>
      exists i :: 0 <= i < |log| && log[i].event.EventOrderStatus? && OrderIdOf(log[i].event.payload) == Some(id)
    decreases |log|
  {
    if log == [] {
    } else {
      NoStatusInLog(log[1..], id);
      if j :| 0 <= j < |log| && log[j].event.EventOrderStatus? && OrderIdOf(log[j].event.payload) == Some(id) {
        if j > 0 {
          assert log[1..][j - 1] == log[j];
        }
      }
      if LastStatus(log[1..], id).Some? {
        var i :| 0 <= i < |log[1..]| && log[1..][i].event.EventOrderStatus?
          && OrderIdOf(log[1..][i].event.payload) == Some(id);
        assert log[i + 1].event.EventOrderStatus?;
      }
    }
  }

  // ---------------------------------------------------------------- when replay repairs orders

  ghost predicate Places(log: seq<Delivery>, o: Order) {
    Occurs(EventOrderPlaced(o), log)
  }

  /** For each order the log brings in, any of its placements, given the last status the log
      mentions anywhere, is what plain replay ends with. */
  ghost predicate Settled(os: seq<Order>, log: seq<Delivery>) {
    forall o | Places(log, o) && FindOrder(os, o.id).None? :: Arrival(log, o.id) == Some(Settle(o, log))
  }

  // An entry placed by `o`, possibly moved on by a status event of the log.
  ghost predicate LeftBy(o: Order, entry: Order, log: seq<Delivery>, id: string) {
    o.id == id && (entry == o || (LastStatus(log, id).Some? && entry == o.(status := entry.status)))
  }

  /** Live events can only leave behind an entry that some placement in the log explains. */
  lemma {:induction false} LiveEntry(os: seq<Order>, live: seq<Delivery>, log: seq<Delivery>, id: string)
    requires DrawnFrom(live, log)
    ensures var x, y := FindOrder(os, id), EntryFold(FindOrder(os, id), id, live);
      (x == y) ||
      (x.Some? && y.Some? && LastStatus(log, id).Some? && y.value == x.value.(status := y.value.status)) ||
      (x.None? && y.Some? && exists o :: Places(log, o) && LeftBy(o, y.value, log, id))
    decreases |live|
  {
    if live == [] {
    } else {
      var last := live[|live| - 1];
      var front := live[..|live| - 1];
      assert live == front + [last];
      LiveEntry(os, front, log, id);
      EntryFoldSnoc(FindOrder(os, id), id, front, last);
      assert last in live;
      NoStatusInLog(log, id);
      var i :| 0 <= i < |log| && log[i].event == last.event;
      if last.event.EventOrderPlaced? {
        assert Places(log, last.event.order);
      }
    }
  }

  lemma {:induction false} EntryFoldSnoc(x: Option<Order>, id: string, front: seq<Delivery>, last: Delivery)
    ensures EntryFold(x, id, front + [last]) == EntryStep(EntryFold(x, id, front), id, last.event)
    decreases |front|
  {
    if front == [] {
      assert front + [last] == [last];
    } else {
      assert (front + [last])[1..] == front[1..] + [last];
      EntryFoldSnoc(EntryStep(x, id, front[0].event), id, front[1..], last);
    }
  }

  lemma {:induction false} EntryFoldAppend(x: Option<Order>, id: string, a: seq<Delivery>, b: seq<Delivery>)
    ensures EntryFold(x, id, a + b) == EntryFold(EntryFold(x, id, a), id, b)
    decreases |a|
  {
    if a == [] {
      assert a + b == b;
    } else {
      assert (a + b)[1..] == a[1..] + b;
      EntryFoldAppend(EntryStep(x, id, a[0].event), id, a[1..], b);
    }
  }

  lemma {:induction false} EntryKeepsId(x: Option<Order>, id: string, log: seq<Delivery>)
    requires x.Some? ==> x.value.id == id
    ensures var y := EntryFold(x, id, log); y.Some? ==> y.value.id == id
    decreases |log|
  {
    if log == [] {
    } else {
      EntryKeepsId(EntryStep(x, id, log[0].event), id, log[1..]);
    }
  }

  lemma RepairedEntry(os: seq<Order>, live: seq<Delivery>, log: seq<Delivery>, id: string)
    requires DrawnFrom(live, log) && Settled(os, log)
    ensures EntryFold(FindOrder(os, id), id, live + log) == EntryFold(FindOrder(os, id), id, log)
  {
    var x := FindOrder(os, id);
    var y := EntryFold(x, id, live);
    EntryFoldAppend(x, id, live, log);
    EntryKeepsId(x, id, live);
    LiveEntry(os, live, log, id);
    if x != y {
      ListedOrderSettles(y.value, log);
      if x.Some? {
        ListedOrderSettles(x.value, log);
      } else {
        UnlistedOrderArrives(id, log);
      }
    }
  }

  /** Replay repairs the orders after every live history exactly when the log is settled. */
  lemma OrdersConvergeExactly(os: seq<Order>, log: seq<Delivery>)
    requires DistinctIds(os)
    ensures Settled(os, log) <==>
      forall live {:trigger DrawnFrom(live, log)} | DrawnFrom(live, log) ::
        SameOrders(OrdersFold(os, live + log), OrdersFold(os, log))
  {
    FoldKeepsIdsDistinct(os, log);
    if Settled(os, log) {
      forall live | DrawnFrom(live, log)
        ensures SameOrders(OrdersFold(os, live + log), OrdersFold(os, log))
      {
        OrdersRepaired(os, live, log);
      }
    } else {
      var o :| Places(log, o) && FindOrder(os, o.id).None? && Arrival(log, o.id) != Some(Settle(o, log));
      var i :| 0 <= i < |log| && log[i].event == EventOrderPlaced(o);
      var live := [log[i]];
      assert DrawnFrom(live, log);
      FoldKeepsIdsDistinct(os, live + log);
      EntryOfFold(os, live + log, o.id);
      EntryOfFold(os, log, o.id);
      EntryFoldAppend(None, o.id, live, log);
      assert EntryFold(None, o.id, live) == EntryFold(Some(o), o.id, live[1..]);
      ListedOrderSettles(o, log);
      UnlistedOrderArrives(o.id, log);
      SameEntriesSameOrders(OrdersFold(os, live + log), OrdersFold(os, log));
    }
  }

  lemma OrdersRepaired(os: seq<Order>, live: seq<Delivery>, log: seq<Delivery>)
    requires DistinctIds(os) && DrawnFrom(live, log) && Settled(os, log)
    ensures SameOrders(OrdersFold(os, live + log), OrdersFold(os, log))
  {
    FoldKeepsIdsDistinct(os, log);
    FoldKeepsIdsDistinct(os, live + log);
    forall id ensures FindOrder(OrdersFold(os, live + log), id) == FindOrder(OrdersFold(os, log), id) {
      EntryOfFold(os, live + log, id);
      EntryOfFold(os, log, id);
      RepairedEntry(os, live, log, id);
    }
    SameEntriesSameOrders(OrdersFold(os, live + log), OrdersFold(os, log));
  }

  // ---------------------------------------------------------------- the server's logs

  /** Each order is placed once, and its status events come after that. */
  ghost predicate PlacedOnceThenUpdated(log: seq<Delivery>) {
    forall i, j {:trigger log[i], log[j]} | 0 <= i < |log| && 0 <= j < |log| && log[i].event.EventOrderPlaced? ::
      && (log[j].event.EventOrderPlaced? && log[j].event.order.id == log[i].event.order.id ==> i == j)
      && (log[j].event.EventOrderStatus? && OrderIdOf(log[j].event.payload) == Some(log[i].event.order.id) ==> i < j)
  }

  lemma {:induction false} ArrivalAt(log: seq<Delivery>, i: nat)
    requires PlacedOnceThenUpdated(log) && i < |log| && log[i].event.EventOrderPlaced?
    ensures Arrival(log, log[i].event.order.id) == Some(Settle(log[i].event.order, log))
    decreases |log|
  {
    var o := log[i].event.order;
    if i == 0 {
      assert !log[0].event.EventOrderStatus?;
    } else {
      assert log[1..][i - 1] == log[i] && log[0] == log[0];
      forall a, b | 0 <= a < |log| - 1 && 0 <= b < |log| - 1
        ensures log[1..][a] == log[a + 1] && log[1..][b] == log[b + 1]
      {}
      assert PlacedOnceThenUpdated(log[1..]);
      ArrivalAt(log[1..], i - 1);
      NoStatusInLog(log, o.id);
    }
  }

  lemma ServerLogsAreSettled(os: seq<Order>, log: seq<Delivery>)
    requires PlacedOnceThenUpdated(log)
    ensures Settled(os, log)
  {
    forall o | Places(log, o)
      ensures Arrival(log, o.id) == Some(Settle(o, log))
    {
      var i :| 0 <= i < |log| && log[i].event == EventOrderPlaced(o);
      ArrivalAt(log, i);
    }
  }

  /** Orders converge, up to their place in the list, whenever the log places each order once
      and before its status events. */
  lemma OrdersConverge(r: Replica, before: seq<Delivery>, live: seq<Delivery>, missed: seq<Delivery>)
    requires DistinctIds(r.orders) && DrawnFrom(live, missed) && PlacedOnceThenUpdated(missed)
    ensures SameOrders(Fold(r, before + live + missed).orders, Fold(r, before + missed).orders)
  {
    var os := OrdersFold(r.orders, before);
    OrdersOfFold(r, before + live + missed);
    OrdersOfFold(r, before + missed);
    assert before + live + missed == before + (live + missed);
    OrdersFoldAppend(r.orders, before, live + missed);
    OrdersFoldAppend(r.orders, before, missed);
    FoldKeepsIdsDistinct(r.orders, before);
    ServerLogsAreSettled(os, missed);
    OrdersRepaired(os, live, missed);
  }

  // ---------------------------------------------------------------- list position

  function Ids(os: seq<Order>): (ids: seq<string>)
    ensures |ids| == |os| && forall i | 0 <= i < |os| :: ids[i] == os[i].id
  {
    seq(|os|, i requires 0 <= i < |os| => os[i].id)
  }

  /** The ids a log leaves in the list: each first placement goes to the front, nothing else moves. */
  function Placed(ids: seq<string>, log: seq<Delivery>): seq<string>
    decreases |log|
  {
    if log == [] then ids
    else if log[0].event.EventOrderPlaced? && log[0].event.order.id !in ids
    then Placed([log[0].event.order.id] + ids, log[1..])
    else Placed(ids, log[1..])
  }

  lemma IdsOfStep(os: seq<Order>, e: Event)
    ensures Ids(OrdersStep(os, e)) ==
      if e.EventOrderPlaced? && e.order.id !in Ids(os) then [e.order.id] + Ids(os) else Ids(os)
  {
    match e
    case EventOrderPlaced(o) =>
      var found := FindOrder(os, o.id);
      if found.Some? {
        var i :| 0 <= i < |os| && os[i] == found.value;
        assert Ids(os)[i] == o.id;
      } else {
        assert forall i | 0 <= i < |os| :: os[i] in os;
      }
    case EventOrderStatus(status, payload) =>
      if OrderIdOf(payload).Some? {
        StatusKeepsIds(os, OrderIdOf(payload).value, status);
      }
    case _ =>
  }

  lemma {:induction false} IdsOfFold(os: seq<Order>, log: seq<Delivery>)
    ensures Ids(OrdersFold(os, log)) == Placed(Ids(os), log)
    decreases |log|
  {
    if log == [] {
    } else {
      IdsOfStep(os, log[0].event);
      IdsOfFold(OrdersStep(os, log[0].event), log[1..]);
    }
  }

  lemma {:induction false} FindAt(os: seq<Order>, i: nat)
    requires DistinctIds(os) && i < |os|
    ensures FindOrder(os, os[i].id) == Some(os[i])
  {
    if i > 0 {
      FindAt(os[1..], i - 1);
    }
  }

  function Listed(ids: seq<string>): set<string> {
    set id | id in ids
  }

  /** The ids a log places that were not seen before, each at its first placement, in log order. */
  function Firsts(seen: set<string>, log: seq<Delivery>): seq<string>
    decreases |log|
  {
    if log == [] then []
    else if log[0].event.EventOrderPlaced? && log[0].event.order.id !in seen
    then [log[0].event.order.id] + Firsts(seen + {log[0].event.order.id}, log[1..])
    else Firsts(seen, log[1..])
  }

  lemma {:induction false} FirstsAreNew(seen: set<string>, log: seq<Delivery>)
    ensures forall i | 0 <= i < |Firsts(seen, log)| :: Firsts(seen, log)[i] !in seen
    ensures forall i, j | 0 <= i < j < |Firsts(seen, log)| :: Firsts(seen, log)[i] != Firsts(seen, log)[j]
    decreases |log|
  {
    if log == [] {
    } else {
      var e := log[0].event;
      FirstsAreNew(if e.EventOrderPlaced? then seen + {e.order.id} else seen, log[1..]);
      FirstsAreNew(seen, log[1..]);
    }
  }

  function Reversed(ids: seq<string>): (r: seq<string>)
    ensures |r| == |ids| && forall i | 0 <= i < |ids| :: r[i] == ids[|ids| - 1 - i]
  {
    seq(|ids|, i requires 0 <= i < |ids| => ids[|ids| - 1 - i])
  }

  lemma {:induction false} PlacedIsFirstsReversed(ids: seq<string>, log: seq<Delivery>)
    ensures Placed(ids, log) == Reversed(Firsts(Listed(ids), log)) + ids
    decreases |log|
  {
    if log == [] {
    } else {
      var e := log[0].event;
      if e.EventOrderPlaced? && e.order.id !in ids {
        var id := e.order.id;
        assert Listed([id] + ids) == Listed(ids) + {id};
        PlacedIsFirstsReversed([id] + ids, log[1..]);
        var later := Firsts(Listed(ids) + {id}, log[1..]);
        assert Reversed([id] + later) == Reversed(later) + [id];
      } else {
        PlacedIsFirstsReversed(ids, log[1..]);
      }
    }
  }

  lemma {:induction false} FirstsAppend(seen: set<string>, a: seq<Delivery>, b: seq<Delivery>)
    ensures Firsts(seen, a + b) == Firsts(seen, a) + Firsts(seen + Listed(Firsts(seen, a)), b)
    decreases |a|
  {
    if a == [] {
      assert a + b == b && seen + Listed([]) == seen;
    } else {
      assert (a + b)[1..] == a[1..] + b;
      var e := a[0].event;
      if e.EventOrderPlaced? && e.order.id !in seen {
        var id := e.order.id;
        var later := Firsts(seen + {id}, a[1..]);
        FirstsAppend(seen + {id}, a[1..], b);
        assert seen + Listed([id] + later) == seen + {id} + Listed(later);
      } else {
        FirstsAppend(seen, a[1..], b);
      }
    }
  }

  /** Having seen the first few firsts already leaves the others. */
  lemma {:induction false} FirstsSkip(seen: set<string>, front: seq<string>, log: seq<Delivery>)
    requires front <= Firsts(seen, log)
    ensures Firsts(seen + Listed(front), log) == Firsts(seen, log)[|front|..]
    decreases |log|
  {
    if log == [] || front == [] {
      assert seen + Listed([]) == seen;
    } else {
      var e := log[0].event;
      if e.EventOrderPlaced? && e.order.id !in seen {
        var id := e.order.id;
        assert front[0] == id && seen + Listed(front) == seen + {id} + Listed(front[1..]);
        FirstsSkip(seen + {id}, front[1..], log[1..]);
      } else {
        FirstsSkip(seen, front, log[1..]);
      }
    }
  }

  /** Live deliveries in front of their log leave every place as it was exactly when they bring in new
      orders in the log's own order and without a gap. */
  lemma PlacesKeptExactly(ids: seq<string>, live: seq<Delivery>, log: seq<Delivery>)
    ensures Placed(ids, live + log) == Placed(ids, log) <==> Firsts(Listed(ids), live) <= Firsts(Listed(ids), log)
  {
    hide Firsts, Placed, Reversed, Listed;
    var seen := Listed(ids);
    var early, all := Firsts(seen, live), Firsts(seen, log);
    PlacedIsFirstsReversed(ids, live + log);
    PlacedIsFirstsReversed(ids, log);
    FirstsAppend(seen, live, log);
    var both := early + Firsts(seen + Listed(early), log);
    SameReversed(both, all, ids);
    if early <= all {
      FirstsSkip(seen, early, log);
      assert early + all[|early|..] == all;
    }
  }

  lemma SameReversed(a: seq<string>, b: seq<string>, tail: seq<string>)
    ensures Reversed(a) + tail == Reversed(b) + tail <==> a == b
  {
    if Reversed(a) + tail == Reversed(b) + tail {
      assert |Reversed(a) + tail| == |Reversed(b) + tail|;
      forall i | 0 <= i < |a| ensures a[i] == b[i] {
        var j := |a| - 1 - i;
        assert (Reversed(a) + tail)[j] == Reversed(a)[j] && (Reversed(b) + tail)[j] == Reversed(b)[j];
      }
    }
  }

  /** When replay repairs the orders, it also repairs their places in the list exactly when the live
      deliveries brought in new orders in the log's own order, from its first one on. */
  lemma PositionsConvergeExactly(os: seq<Order>, live: seq<Delivery>, log: seq<Delivery>)
    requires DistinctIds(os) && DrawnFrom(live, log) && Settled(os, log)
    ensures OrdersFold(os, live + log) == OrdersFold(os, log)
            <==> Firsts(Listed(Ids(os)), live) <= Firsts(Listed(Ids(os)), log)
  {
    var a, b := OrdersFold(os, live + log), OrdersFold(os, log);
    IdsOfFold(os, live + log);
    IdsOfFold(os, log);
    PlacesKeptExactly(Ids(os), live, log);
    OrdersRepaired(os, live, log);
    FoldKeepsIdsDistinct(os, live + log);
    FoldKeepsIdsDistinct(os, log);
    if Ids(a) == Ids(b) {
      SameIdsSameList(a, b);
    }
  }

  lemma SameIdsSameList(a: seq<Order>, b: seq<Order>)
    requires DistinctIds(a) && DistinctIds(b) && SameOrders(a, b) && Ids(a) == Ids(b)
    ensures a == b
  {
    SameEntriesSameOrders(a, b);
    assert |Ids(a)| == |Ids(b)|;
    forall i | 0 <= i < |a| ensures a[i] == b[i] {
      FindAt(a, i);
      FindAt(b, i);
      assert Ids(a)[i] == Ids(b)[i];
      assert FindOrder(a, a[i].id) == FindOrder(b, a[i].id);
    }
  }

  /** Every unlisted order a log places is among its firsts, and nothing else is. */
  lemma {:induction false} FirstsArePlaced(seen: set<string>, log: seq<Delivery>, id: string)
    ensures id in Firsts(seen, log)
            <==> id !in seen &&
                 exists i :: 0 <= i < |log| && log[i].event.EventOrderPlaced? && log[i].event.order.id == id
    decreases |log|
  {
    if log == [] {
    } else {
      var e := log[0].event;
      var unseen := e.EventOrderPlaced? && e.order.id !in seen;
      FirstsArePlaced(if unseen then seen + {e.order.id} else seen, log[1..], id);
      if i :| 0 <= i < |log| && log[i].event.EventOrderPlaced? && log[i].event.order.id == id {
        assert i > 0 ==> log[1..][i - 1] == log[i];
      }
      if i :| 0 <= i < |log[1..]| && log[1..][i].event.EventOrderPlaced? && log[1..][i].event.order.id == id {
        assert log[i + 1].event.order.id == id;
      }
    }
  }

  lemma OnlyOne(ids: seq<string>, all: seq<string>)
    requires |all| <= 1 && forall i | 0 <= i < |ids| :: ids[i] in all
    requires forall i, j | 0 <= i < j < |ids| :: ids[i] != ids[j]
    ensures ids <= all
  {
    if ids != [] {
      assert ids[0] in all && ids[|ids| - 1] in all;
    }
  }

  lemma FewFirsts(seen: set<string>, live: seq<Delivery>, log: seq<Delivery>)
    requires DrawnFrom(live, log) && |Firsts(seen, log)| <= 1
    ensures Firsts(seen, live) <= Firsts(seen, log)
  {
    hide Firsts;
    var early, all := Firsts(seen, live), Firsts(seen, log);
    forall n | 0 <= n < |early| ensures early[n] in all {
      var id := early[n];
      FirstsArePlaced(seen, live, id);
      var i :| 0 <= i < |live| && live[i].event.EventOrderPlaced? && live[i].event.order.id == id;
      assert live[i] in live;
      var k :| 0 <= k < |log| && log[k].event == live[i].event;
      FirstsArePlaced(seen, log, id);
    }
    FirstsAreNew(seen, live);
    OnlyOne(early, all);
  }

  lemma SecondFirst(seen: set<string>, log: seq<Delivery>) returns (d: Delivery)
    requires |Firsts(seen, log)| > 1
    ensures DrawnFrom([d], log) && !(Firsts(seen, [d]) <= Firsts(seen, log))
  {
    var id := Firsts(seen, log)[1];
    FirstsAreNew(seen, log);
    FirstsArePlaced(seen, log, id);
    var i :| 0 <= i < |log| && log[i].event.EventOrderPlaced? && log[i].event.order.id == id;
    d := log[i];
    assert Occurs(d.event, log);
    assert [d][1..] == [];
    assert Firsts(seen, [d]) == [id] + Firsts(seen + {id}, []) == [id];
    assert Firsts(seen, log)[0] != id;
  }

  /** The order list as a whole, places included, is repaired after every live history exactly when the
      log is settled and places at most one order that was not listed. */
  lemma ListConvergesExactly(os: seq<Order>, log: seq<Delivery>)
    requires DistinctIds(os)
    ensures (forall live {:trigger DrawnFrom(live, log)} | DrawnFrom(live, log) ::
               OrdersFold(os, live + log) == OrdersFold(os, log))
            <==> Settled(os, log) && |Firsts(Listed(Ids(os)), log)| <= 1
  {
    OrdersConvergeExactly(os, log);
    if Settled(os, log) {
      forall live | DrawnFrom(live, log)
        ensures Firsts(Listed(Ids(os)), live) <= Firsts(Listed(Ids(os)), log)
                <==> OrdersFold(os, live + log) == OrdersFold(os, log)
      {
        PositionsConvergeExactly(os, live, log);
      }
      if |Firsts(Listed(Ids(os)), log)| <= 1 {
        forall live | DrawnFrom(live, log) ensures OrdersFold(os, live + log) == OrdersFold(os, log) {
          FewFirsts(Listed(Ids(os)), live, log);
        }
      } else {
        var d := SecondFirst(Listed(Ids(os)), log);
        assert DrawnFrom([d], log);
      }
    }
  }

  /** The list position of an order is not repaired: two orders placed out of turn stay swapped. */
  lemma ListPositionNotRepaired(a: Order, b: Order)
    requires a.id != b.id
    ensures var pa, pb := Delivery(EventOrderPlaced(a), 0), Delivery(EventOrderPlaced(b), 0);
      DrawnFrom([pb], [pa, pb]) && PlacedOnceThenUpdated([pa, pb]) &&
      OrdersFold([], [pb] + [pa, pb]) == [a, b] && OrdersFold([], [pa, pb]) == [b, a]
  {
    var pa, pb := Delivery(EventOrderPlaced(a), 0), Delivery(EventOrderPlaced(b), 0);
    assert [pa, pb][1].event == pb.event;
    TwoPlacements(a, b);
    TwoPlacements(b, a);
    assert [pb] + [pa, pb] == [pb, pa] + [pb];
    OrdersFoldAppend([], [pb, pa], [pb]);
    assert OrdersFold([a, b], [pb]) == OrdersStep([a, b], pb.event);
  }

  lemma TwoPlacements(a: Order, b: Order)
    requires a.id != b.id
    ensures OrdersFold([], [Delivery(EventOrderPlaced(a), 0), Delivery(EventOrderPlaced(b), 0)]) == [b, a]
  {
    var log := [Delivery(EventOrderPlaced(a), 0), Delivery(EventOrderPlaced(b), 0)];
    assert log[1..] == [log[1]] && log[1..][1..] == [];
    assert OrdersStep([], log[0].event) == [a];
    assert FindOrder([a][1..], b.id).None?;
    assert OrdersStep([a], log[1].event) == [b, a];
    assert OrdersFold([], log) == OrdersFold([a], log[1..]) == OrdersFold([b, a], []);
  }

  /** A status event that overtakes its placement in the log is lost on plain replay, but not
      after a live delivery of the placement: such a log is not settled. */
  lemma OvertakingStatusDiverges(o: Order, status: OrderStatus)
    requires o.id != "" && o.status != status
    ensures var log := [Delivery(EventOrderStatus(status, TopLevel(o.id)), 0), Delivery(EventOrderPlaced(o), 0)];
      !Settled([], log)
  {
    var log := [Delivery(EventOrderStatus(status, TopLevel(o.id)), 0), Delivery(EventOrderPlaced(o), 0)];
    assert log[1].event == EventOrderPlaced(o) && Places(log, o);
    assert FindOrder([], o.id).None?;
    assert log[1..] == [log[1]] && log[1..][1..] == [];
    assert Arrival(log, o.id) == Arrival(log[1..], o.id) == Some(Settle(o, []));
    assert LastStatus(log[1..], o.id) == LastStatus(log[1..][1..], o.id) == None;
    assert LastStatus(log, o.id) == Some(status);
  }
}

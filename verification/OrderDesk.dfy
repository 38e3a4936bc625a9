// Staff moving orders along: the checks of the status endpoint, the conditional write behind it,
// and what every interleaving of such requests does to an order.
module OrderDesk {
  import opened Wrappers
  import opened Lifecycle
  import opened Authorization

  datatype Order = Order(branchId: int, status: OrderStatus)
  datatype Staff = Staff(id: int, role: Role, branchId: int, organizationId: int)

  /** One status change that reached the orders table. */
  datatype Change = Change(orderId: string, from: OrderStatus, to: OrderStatus, staff: Staff)

  datatype Response =
    | BadRequest
    | Unauthenticated
    | NotFound
    | InternalError
    | AccessDenied
    | InvalidTransition
    | Updated(order: Order)

  function ParseStatus(text: string): Option<OrderStatus> {
    match text
    case "pending" => Some(OrderPending)
    case "confirmed" => Some(OrderConfirmed)
    case "preparing" => Some(OrderPreparing)
    case "ready" => Some(OrderReady)
    case "served" => Some(OrderServed)
    case "cancelled" => Some(OrderCancelled)
    case _ => None
  }

  /** What a status is called in requests. */
  function WireName(status: OrderStatus): string {
    match status
    case OrderPending => "pending"
    case OrderConfirmed => "confirmed"
    case OrderPreparing => "preparing"
    case OrderReady => "ready"
    case OrderServed => "served"
    case OrderCancelled => "cancelled"
  }

  /** A text asks for a status exactly when it is that status's name, and otherwise for none. */
  lemma TextNamesStatus(text: string)
    ensures forall status :: ParseStatus(text) == Some(status) <==> WireName(status) == text
    ensures ParseStatus(text) == None <==> forall status :: WireName(status) != text
  {
    if ParseStatus(text).Some? {
      assert WireName(ParseStatus(text).value) == text;
    }
  }

  function ActorOf(staff: Staff): Actor {
    Actor(STAFF, staff.id, staff.role, Scope(staff.organizationId, staff.branchId, false))
  }

  /** The authorization question a status request raises. */
  function Question(staff: Staff, status: Option<OrderStatus>, branchId: int,
                    organizationId: int): Authorization.Request {
    Authorization.Request(ActorOf(staff), if status == Some(OrderServed) then OrderMarkServed else OrderStatusUpdate,
                          Scope(organizationId, branchId, true))
  }

  /** The policy is asked about a staff actor of the session's branch and organization, and an order of its
      own branch and session; serving has an action of its own. */
  lemma QuestionAsked(staff: Staff, status: Option<OrderStatus>, branchId: int, organizationId: int)
    ensures var q := Question(staff, status, branchId, organizationId);
      && q.actor == Actor("staff", staff.id, staff.role, Scope(staff.organizationId, staff.branchId, false))
      && q.resource == Scope(organizationId, branchId, true)
      && (q.action == OrderMarkServed <==> status == Some(OrderServed))
      && (q.action == OrderStatusUpdate <==> status != Some(OrderServed))
  {}

  /** The service applies the change: past the policy, in the staff member's own branch, along the table. */
  predicate Admits(enforce: bool, staff: Staff, order: Order, status: Option<OrderStatus>, organizationId: int) {
    && Passes(enforce, Question(staff, status, order.branchId, organizationId))
    && RequireActorBranch(staff.branchId, order.branchId)
    && status.Some?
    && Permits(ORDER_TRANSITIONS, order.status, status.value)
  }

  class Desk {
    var orders: map<string, Order>
    var journal: seq<Change>
    const gate: Gatekeeper

    constructor (gate: Gatekeeper)
      ensures this.gate == gate && Value() == NO_ORDERS
    {
      this.gate := gate;
      orders, journal := map[], [];
    }

    /** The desk between requests, as the state of the interleaving below. */
    function Value(): World
      reads this
    {
      World(orders, [], journal)
    }

    /** The write that only succeeds on the status and branch it expects. */
    method UpdateOrderStatusExpected(id: string, branchId: int, current: OrderStatus, next: OrderStatus)
      returns (ok: bool)
      modifies this
      ensures ok <==> id in old(orders) && old(orders)[id] == Order(branchId, current)
      ensures orders == if ok then old(orders)[id := Order(branchId, next)] else old(orders)
      ensures journal == old(journal)
    {
      ok := id in orders && orders[id].branchId == branchId && orders[id].status == current;
      if ok {
        orders := orders[id := orders[id].(status := next)];
      }
    }

    method UpdateOrderStatus(id: string, branchId: int, next: Option<OrderStatus>, staff: Staff) returns (r: Response)
      requires id in orders && orders[id].branchId == branchId
      modifies this
      ensures r.Updated? <==> next.Some? && Permits(ORDER_TRANSITIONS, old(orders)[id].status, next.value)
      ensures r.Updated? ==>
        && r.order == Order(branchId, next.value)
        && orders == old(orders)[id := r.order]
        && journal == old(journal) + [Change(id, old(orders)[id].status, next.value, staff)]
      ensures !r.Updated? ==> r == InvalidTransition && orders == old(orders) && journal == old(journal)
    {
      var current := orders[id].status;
      if next.None? {
        return InvalidTransition;
      }
      var ok := ValidateTransition(current, next.value, ORDER_TRANSITIONS);
      if !ok {
        return InvalidTransition;
      }
      ok := UpdateOrderStatusExpected(id, branchId, current, next.value);
      if !ok {
        return InvalidTransition;
      }
      journal := journal + [Change(id, current, next.value, staff)];
      return Updated(orders[id]);
    }

    /** The endpoint from the authorization question on, for an order that was found. */
    method UpdateAuthorized(id: string, newStatus: Option<OrderStatus>, staff: Staff, organizationId: int)
      returns (r: Response)
      requires id in orders
      modifies this, gate
      ensures r.AccessDenied? || r.InvalidTransition? || r.Updated?
      ensures r.Updated? <==> Admits(gate.enforce, staff, old(orders)[id], newStatus, organizationId)
      ensures r.Updated? ==>
        && r.order == old(orders)[id].(status := newStatus.value)
        && orders == old(orders)[id := r.order]
        && journal == old(journal) + [Change(id, old(orders)[id].status, newStatus.value, staff)]
      ensures !r.Updated? ==> orders == old(orders) && journal == old(journal)
      ensures var order := old(orders)[id];
        var question := Question(staff, newStatus, order.branchId, organizationId);
        && (r == AccessDenied <==>
              !Passes(gate.enforce, question) || staff.branchId == 0 || staff.branchId != order.branchId)
        && (r == InvalidTransition <==>
              r != AccessDenied && (newStatus == None || !Permits(ORDER_TRANSITIONS, order.status, newStatus.value)))
        && gate.Value() == Recorded(old(gate.Value()), gate.enforce, gate.auditing, question)
      ensures newStatus.Some? ==>
        Value() == Step(gate.enforce, Step(gate.enforce, old(Value()), Check(id, newStatus.value, staff, organizationId)),
                        Write(0))
    {
      hide Passes, Recorded, Permits;
      var target := orders[id];
      var action := OrderStatusUpdate;
      if newStatus == Some(OrderServed) {
        action := OrderMarkServed;
      }
      var ok := gate.RequireAuthorized(ActorOf(staff), action, Scope(organizationId, target.branchId, true));
      if !ok {
        return AccessDenied;
      }
      if !RequireActorBranch(staff.branchId, target.branchId) {
        return AccessDenied;
      }
      r := UpdateOrderStatus(id, target.branchId, newStatus, staff);
    }

    /** `organizationOf` is the branch directory; a branch it does not know is an internal error. */
    method UpdateStatus(orderId: Option<string>, text: string, staffSession: Option<Staff>,
                        organizationOf: int -> Option<int>)
      returns (r: Response)
      modifies this, gate
      ensures r.Updated? <==>
        && orderId.Some? && text != "" && staffSession.Some? && orderId.value in old(orders)
        && (staffSession.value.organizationId != 0 || organizationOf(staffSession.value.branchId).Some?)
        && organizationOf(old(orders)[orderId.value].branchId).Some?
        && Admits(gate.enforce, WithOrganization(staffSession.value, organizationOf), old(orders)[orderId.value],
                  ParseStatus(text),
                  organizationOf(old(orders)[orderId.value].branchId).value)
      ensures r.Updated? ==>
        && r.order == old(orders)[orderId.value].(status := ParseStatus(text).value)
        && orders == old(orders)[orderId.value := r.order]
        && journal == old(journal) + [Change(orderId.value, old(orders)[orderId.value].status, r.order.status,
                                             WithOrganization(staffSession.value, organizationOf))]
      ensures r.Updated? ==>
        && WireName(r.order.status) == text && r.order.branchId == old(orders)[orderId.value].branchId
        && orders == old(orders)[orderId.value := r.order]
        && |journal| == |old(journal)| + 1 && journal[..|old(journal)|] == old(journal)
        && journal[|old(journal)|].orderId == orderId.value
        && journal[|old(journal)|].from == old(orders)[orderId.value].status
        && WireName(journal[|old(journal)|].to) == text
        && journal[|old(journal)|].staff ==
           Staff(staffSession.value.id, staffSession.value.role, staffSession.value.branchId,
                 if staffSession.value.organizationId != 0 then staffSession.value.organizationId
                 else organizationOf(staffSession.value.branchId).value)
      ensures (forall status :: WireName(status) != text) ==> !r.Updated?
      ensures !r.Updated? ==> orders == old(orders) && journal == old(journal)
      ensures r == BadRequest <==> orderId.None? || text == ""
      ensures r == Unauthenticated <==> orderId.Some? && text != "" && staffSession.None?
      ensures r == NotFound <==> orderId.Some? && text != "" && staffSession.Some? && orderId.value !in old(orders)
      ensures r == InternalError <==>
        && orderId.Some? && text != "" && staffSession.Some? && orderId.value in old(orders)
        && (|| (staffSession.value.organizationId == 0 && organizationOf(staffSession.value.branchId).None?)
            || organizationOf(old(orders)[orderId.value].branchId).None?)
      ensures r.AccessDenied? || r.InvalidTransition? || r.Updated? ==>
        && orderId.Some? && staffSession.Some? && orderId.value in old(orders)
        && organizationOf(old(orders)[orderId.value].branchId).Some?
        && var order := old(orders)[orderId.value];
           var staff := WithOrganization(staffSession.value, organizationOf);
           var question := Question(staff, ParseStatus(text), order.branchId, organizationOf(order.branchId).value);
           && (r == AccessDenied <==>
                 !Passes(gate.enforce, question) || staff.branchId == 0 || staff.branchId != order.branchId)
           && (r == InvalidTransition <==>
                 && r != AccessDenied
                 && forall to :: WireName(to) == text ==> !Permits(ORDER_TRANSITIONS, order.status, to))
           && gate.Value() == Recorded(old(gate.Value()), gate.enforce, gate.auditing, question)
           && (ParseStatus(text).Some? ==>
                 Value() == Step(gate.enforce, Step(gate.enforce, old(Value()),
                                                    Check(orderId.value, ParseStatus(text).value, staff,
                                                          organizationOf(order.branchId).value)),
                                 Write(0)))
      ensures !(r.AccessDenied? || r.InvalidTransition? || r.Updated?) ==> gate.Value() == old(gate.Value())
    {
      hide Passes, Recorded, ParseStatus, Permits, WireName, Admits, Step, Question;
      if orderId.None? || text == "" {
        return BadRequest;
      }
      var newStatus := ParseStatus(text);
      TextNamesStatus(text);
      if staffSession.None? {
        return Unauthenticated;
      }
      if orderId.value !in orders {
        return NotFound;
      }
      var target := orders[orderId.value];
      var staff := WithOrganization(staffSession.value, organizationOf);
      if staffSession.value.organizationId == 0 && organizationOf(staffSession.value.branchId).None? {
        return InternalError;
      }
      var organizationId := organizationOf(target.branchId);
      if organizationId.None? {
        return InternalError;
      }
      r := UpdateAuthorized(orderId.value, newStatus, staff, organizationId.value);
    }
  }

  /** A staff session that carries no organization takes the one that owns its branch. */
  function WithOrganization(staff: Staff, organizationOf: int -> Option<int>): Staff {
    if staff.organizationId == 0 && organizationOf(staff.branchId).Some?
    then staff.(organizationId := organizationOf(staff.branchId).value) else staff
  }

  // ---------------------------------------------------------------- concurrent requests

  /** A request that passed every check, on the order as it was then, and has yet to write. */
  datatype Ticket = Ticket(change: Change, branchId: int)

  datatype World = World(orders: map<string, Order>, pending: seq<Ticket>, journal: seq<Change>)

  const NO_ORDERS := World(map[], [], [])

  /** Requests interleave: the checks of one, then any number of others, then its write. */
  datatype Event =
    | Place(orderId: string, branchId: int)
    | Check(orderId: string, status: OrderStatus, staff: Staff, organizationId: int)
    | Write(ticket: int)

  function Step(enforce: bool, w: World, e: Event): World {
    match e
    case Place(id, branch) =>
      if id in w.orders then w else w.(orders := w.orders[id := Order(branch, OrderPending)])
    case Check(id, status, staff, org) =>
      if id in w.orders && Admits(enforce, staff, w.orders[id], Some(status), org)
      then w.(pending := w.pending + [Ticket(Change(id, w.orders[id].status, status, staff), w.orders[id].branchId)])
      else w
    case Write(t) =>
      if !(0 <= t < |w.pending|) then w
      else
        var ticket := w.pending[t];
        var c := ticket.change;
        var left := w.pending[..t] + w.pending[t + 1..];
        if c.orderId in w.orders && w.orders[c.orderId] == Order(ticket.branchId, c.from)
        then World(w.orders[c.orderId := Order(ticket.branchId, c.to)], left, w.journal + [c])
        else w.(pending := left)
  }

  function Run(enforce: bool, w: World, events: seq<Event>): World
    decreases |events|
  {
    if events == [] then w else Run(enforce, Step(enforce, w, events[0]), events[1..])
  }

  /** The changes one order went through. */
  function History(journal: seq<Change>, id: string): seq<Change>
    decreases |journal|
  {
    if journal == [] then []
    else
      var last := journal[|journal| - 1];
      History(journal[..|journal| - 1], id) + if last.orderId == id then [last] else []
  }

  lemma HistorySnoc(journal: seq<Change>, c: Change, id: string)
    ensures History(journal + [c], id) == History(journal, id) + if c.orderId == id then [c] else []
  {
    assert (journal + [c])[..|journal|] == journal;
  }

  /** The path that leads to a status; a cancelled order may have been cancelled before it was ready. */
  predicate PathTo(status: OrderStatus, h: seq<Change>) {
    match status
    case OrderPending => h == []
    case OrderConfirmed => Targets(h, [OrderConfirmed])
    case OrderPreparing => Targets(h, [OrderConfirmed, OrderPreparing])
    case OrderReady => Targets(h, [OrderConfirmed, OrderPreparing, OrderReady])
    case OrderServed => Targets(h, [OrderConfirmed, OrderPreparing, OrderReady, OrderServed])
    case OrderCancelled =>
      || Targets(h, [OrderCancelled])
      || Targets(h, [OrderConfirmed, OrderCancelled])
      || Targets(h, [OrderConfirmed, OrderPreparing, OrderCancelled])
  }

  predicate Targets(h: seq<Change>, statuses: seq<OrderStatus>) {
    |h| == |statuses| && forall i | 0 <= i < |h| :: h[i].to == statuses[i]
  }

  /** What the checks of a change established. */
  predicate Cleared(enforce: bool, c: Change, branchId: int) {
    && c.staff.branchId == branchId && branchId != 0
    && Permits(ORDER_TRANSITIONS, c.from, c.to)
    && (enforce ==> RoleAllowed(c.staff.role, if c.to == OrderServed then OrderMarkServed else OrderStatusUpdate))
  }

  /** What the journal and the orders table say of one order. */
  ghost predicate OrderSound(enforce: bool, w: World, id: string) {
    if id in w.orders then
      && PathTo(w.orders[id].status, History(w.journal, id))
      && forall c | c in History(w.journal, id) :: Cleared(enforce, c, w.orders[id].branchId)
    else History(w.journal, id) == []
  }

  ghost predicate Sound(enforce: bool, w: World) {
    && (forall t | t in w.pending :: Cleared(enforce, t.change, t.branchId))
    && (forall id :: OrderSound(enforce, w, id))
  }

  lemma PathGrows(h: seq<Change>, c: Change)
    requires PathTo(c.from, h) && Permits(ORDER_TRANSITIONS, c.from, c.to)
    ensures PathTo(c.to, h + [c])
  {}

  lemma ChecksClear(enforce: bool, staff: Staff, order: Order, id: string, status: OrderStatus, organizationId: int)
    requires Admits(enforce, staff, order, Some(status), organizationId)
    ensures Cleared(enforce, Change(id, order.status, status, staff), order.branchId)
  {
    hide Permits;
  }

  function Written(w: World, t: Ticket): World {
    w.(orders := w.orders[t.change.orderId := Order(t.branchId, t.change.to)], journal := w.journal + [t.change])
  }

  lemma WrittenOrder(enforce: bool, w: World, t: Ticket, id: string)
    requires OrderSound(enforce, w, id) && Cleared(enforce, t.change, t.branchId)
    requires t.change.orderId in w.orders && w.orders[t.change.orderId] == Order(t.branchId, t.change.from)
    ensures OrderSound(enforce, Written(w, t), id)
  {
    var c := t.change;
    assert Permits(ORDER_TRANSITIONS, c.from, c.to);
    hide Cleared, PathTo, History, Permits;
    HistorySnoc(w.journal, c, id);
    if id == c.orderId {
      PathGrows(History(w.journal, id), c);
    } else {
      assert History(w.journal, id) + [] == History(w.journal, id);
    }
  }

  lemma WriteSound(enforce: bool, w: World, t: Ticket)
    requires Sound(enforce, w) && Cleared(enforce, t.change, t.branchId)
    requires t.change.orderId in w.orders && w.orders[t.change.orderId] == Order(t.branchId, t.change.from)
    ensures Sound(enforce, Written(w, t))
  {
    hide Cleared, OrderSound;
    forall id ensures OrderSound(enforce, Written(w, t), id) {
      WrittenOrder(enforce, w, t, id);
    }
  }

  lemma PlaceSound(enforce: bool, w: World, id: string, branchId: int)
    requires Sound(enforce, w) && id !in w.orders
    ensures Sound(enforce, w.(orders := w.orders[id := Order(branchId, OrderPending)]))
  {
    var next := w.(orders := w.orders[id := Order(branchId, OrderPending)]);
    forall x ensures OrderSound(enforce, next, x) {
      assert OrderSound(enforce, w, x);
    }
  }

  lemma TicketsSound(enforce: bool, w: World, pending: seq<Ticket>)
    requires Sound(enforce, w)
    requires forall t | t in pending :: t in w.pending || Cleared(enforce, t.change, t.branchId)
    ensures Sound(enforce, w.(pending := pending))
  {
    hide Cleared, PathTo, History;
    forall x ensures OrderSound(enforce, w.(pending := pending), x) {
      assert OrderSound(enforce, w, x);
    }
  }

  lemma StepSound(enforce: bool, w: World, e: Event)
    requires Sound(enforce, w)
    ensures Sound(enforce, Step(enforce, w, e))
  {
    match e
    case Place(id, branch) =>
      hide Sound;
      if id !in w.orders {
        PlaceSound(enforce, w, id, branch);
      }
    case Check(id, status, staff, org) =>
      hide Sound, Admits, Cleared;
      if id in w.orders && Admits(enforce, staff, w.orders[id], Some(status), org) {
        ChecksClear(enforce, staff, w.orders[id], id, status, org);
        TicketsSound(enforce, w, Step(enforce, w, e).pending);
      }
    case Write(i) =>
      if 0 <= i < |w.pending| {
        var t := w.pending[i];
        assert Cleared(enforce, t.change, t.branchId);
        hide Sound, Cleared;
        var left := w.(pending := w.pending[..i] + w.pending[i + 1..]);
        TicketsSound(enforce, w, left.pending);
        if t.change.orderId in w.orders && w.orders[t.change.orderId] == Order(t.branchId, t.change.from) {
          WriteSound(enforce, left, t);
        }
      }
  }

  lemma {:induction false} RunSound(enforce: bool, w: World, events: seq<Event>)
    requires Sound(enforce, w)
    ensures Sound(enforce, Run(enforce, w, events))
    decreases |events|
  {
    if events == [] {
    } else {
      StepSound(enforce, w, events[0]);
      RunSound(enforce, Step(enforce, w, events[0]), events[1..]);
    }
  }

  /** In every interleaving, a served order went through confirmed, preparing, ready and served, in
      that order and nothing else, every step by staff of its own branch; under enforcement the last
      step was by an owner, a manager or a waiter, and the others by listed staff. */
  lemma ServedByTheExactPath(enforce: bool, events: seq<Event>, id: string)
    requires var w := Run(enforce, NO_ORDERS, events); id in w.orders && w.orders[id].status == OrderServed
    ensures var w := Run(enforce, NO_ORDERS, events);
      var h := History(w.journal, id);
      && Targets(h, [OrderConfirmed, OrderPreparing, OrderReady, OrderServed])
      && (forall c | c in h :: c.staff.branchId == w.orders[id].branchId != 0)
      && (enforce ==> h[3].staff.role in {OWNER, MANAGER, WAITER}
                      && forall c | c in h :: c.staff.role in {OWNER, MANAGER, WAITER, KITCHEN})
  {
    hide Run, History, Permits;
    var w := Run(enforce, NO_ORDERS, events);
    NothingYet(enforce);
    RunSound(enforce, NO_ORDERS, events);
    var h := History(w.journal, id);
    assert OrderSound(enforce, w, id);
    assert h[3] in h;
  }

  lemma NothingYet(enforce: bool)
    ensures Sound(enforce, NO_ORDERS)
  {}

  /** One step leaves a ready order ready or served, and a final one alone. */
  lemma LateStep(enforce: bool, w: World, e: Event, id: string)
    requires Sound(enforce, w) && id in w.orders && w.orders[id].status in {OrderReady, OrderServed, OrderCancelled}
    ensures var next := Step(enforce, w, e);
      && id in next.orders
      && (|| next.orders[id] == w.orders[id]
          || (w.orders[id].status == OrderReady && next.orders[id].status == OrderServed))
  {
    if e.Write? && 0 <= e.ticket < |w.pending| {
      var t := w.pending[e.ticket];
      assert Cleared(enforce, t.change, t.branchId);
      assert Permits(ORDER_TRANSITIONS, t.change.from, t.change.to);
      hide Sound, Cleared, Admits;
    }
  }

  /** An order that ever was ready is never cancelled afterwards, and a final order stays as it is. */
  lemma {:induction false} ReadyIsNeverCancelled(enforce: bool, w: World, events: seq<Event>, id: string)
    requires Sound(enforce, w) && id in w.orders && w.orders[id].status in {OrderReady, OrderServed, OrderCancelled}
    ensures var after := Run(enforce, w, events);
      && id in after.orders
      && (w.orders[id].status == OrderReady ==> after.orders[id].status in {OrderReady, OrderServed})
      && (w.orders[id].status != OrderReady ==> after.orders[id] == w.orders[id])
    decreases |events|
  {
    hide Sound, Step;
    if events == [] {
    } else {
      StepSound(enforce, w, events[0]);
      LateStep(enforce, w, events[0], id);
      ReadyIsNeverCancelled(enforce, Step(enforce, w, events[0]), events[1..], id);
    }
  }

  /** Without interference a check followed by its write is the endpoint's own step. */
  lemma UndisturbedRequest(enforce: bool, w: World, id: string, status: OrderStatus, staff: Staff, organizationId: int)
    requires w.pending == [] && id in w.orders
    ensures var after := Step(enforce, Step(enforce, w, Check(id, status, staff, organizationId)), Write(0));
      after == if Admits(enforce, staff, w.orders[id], Some(status), organizationId)
               then World(w.orders[id := w.orders[id].(status := status)], [],
                          w.journal + [Change(id, w.orders[id].status, status, staff)])
               else w
  {}

  /** Two requests that were both checked against the same status: only the first one to write succeeds. */
  lemma OnlyOneWins(enforce: bool, w: World, i: int, j: int)
    requires Sound(enforce, w) && 0 <= i < j < |w.pending|
    requires w.pending[i].change.orderId == w.pending[j].change.orderId
             && w.pending[i].change.from == w.pending[j].change.from
    ensures var first := Step(enforce, w, Write(i));
      var second := Step(enforce, first, Write(j - 1));
      first.journal != w.journal ==> second.journal == first.journal && second.orders == first.orders
  {
    assert Cleared(enforce, w.pending[i].change, w.pending[i].branchId);
  }

  // ---------------------------------------------------------------- who serves, in each mode

  lemma {:induction false} RunAppend(enforce: bool, w: World, a: seq<Event>, b: seq<Event>)
    ensures Run(enforce, w, a + b) == Run(enforce, Run(enforce, w, a), b)
    decreases |a|
  {
    if a == [] {
      assert a + b == b;
    } else {
      assert (a + b)[1..] == a[1..] + b;
      RunAppend(enforce, Step(enforce, w, a[0]), a[1..], b);
    }
  }

  /** One member of staff asks for a status and nobody else interferes. */
  function StatusRequest(id: string, status: OrderStatus, staff: Staff): seq<Event> {
    [Check(id, status, staff, staff.organizationId), Write(0)]
  }

  lemma RequestRuns(enforce: bool, w: World, id: string, status: OrderStatus, staff: Staff)
    requires w.pending == [] && id in w.orders
    ensures Run(enforce, w, StatusRequest(id, status, staff)) ==
      if Admits(enforce, staff, w.orders[id], Some(status), staff.organizationId)
      then World(w.orders[id := w.orders[id].(status := status)], [],
                 w.journal + [Change(id, w.orders[id].status, status, staff)])
      else w
  {
    hide Admits;
    var events := StatusRequest(id, status, staff);
    assert events[1..] == [Write(0)] && events[1..][1..] == [];
    UndisturbedRequest(enforce, w, id, status, staff, staff.organizationId);
    var w1 := Step(enforce, w, events[0]);
    assert Run(enforce, w, events) == Run(enforce, w1, [Write(0)]);
    assert Run(enforce, w1, [Write(0)]) == Run(enforce, Step(enforce, w1, Write(0)), []);
  }

  /** From an empty desk, one member of staff takes an order all the way. */
  function Alone(id: string, staff: Staff): seq<Event> {
    ([Place(id, staff.branchId)] + StatusRequest(id, OrderConfirmed, staff) + StatusRequest(id, OrderPreparing, staff)
     + StatusRequest(id, OrderReady, staff)) + StatusRequest(id, OrderServed, staff)
  }

  lemma PlaceRuns(enforce: bool, id: string, branchId: int)
    ensures Run(enforce, NO_ORDERS, [Place(id, branchId)]) == World(map[id := Order(branchId, OrderPending)], [], [])
  {
    var w := Step(enforce, NO_ORDERS, Place(id, branchId));
    assert [Place(id, branchId)][1..] == [];
    assert Run(enforce, NO_ORDERS, [Place(id, branchId)]) == Run(enforce, w, []);
  }

  lemma CookReachesReady(enforce: bool, id: string, cook: Staff)
    requires cook.role == KITCHEN && cook.branchId != 0
    ensures var events := [Place(id, cook.branchId)] + StatusRequest(id, OrderConfirmed, cook)
            + StatusRequest(id, OrderPreparing, cook)
                          + StatusRequest(id, OrderReady, cook);
      Run(enforce, NO_ORDERS, events) ==
      World(map[id := Order(cook.branchId, OrderReady)], [],
            [Change(id, OrderPending, OrderConfirmed, cook), Change(id, OrderConfirmed, OrderPreparing, cook),
             Change(id, OrderPreparing, OrderReady, cook)])
  {
    var e0 := [Place(id, cook.branchId)];
    var e1 := e0 + StatusRequest(id, OrderConfirmed, cook);
    var e2 := e1 + StatusRequest(id, OrderPreparing, cook);
    CookIsAdmitted(enforce, cook);
    hide Admits, StatusRequest, Run, Step;
    PlaceRuns(enforce, id, cook.branchId);
    var w0 := Run(enforce, NO_ORDERS, e0);
    RunAppend(enforce, NO_ORDERS, e0, StatusRequest(id, OrderConfirmed, cook));
    RequestRuns(enforce, w0, id, OrderConfirmed, cook);
    var w1 := Run(enforce, NO_ORDERS, e1);
    RunAppend(enforce, NO_ORDERS, e1, StatusRequest(id, OrderPreparing, cook));
    RequestRuns(enforce, w1, id, OrderPreparing, cook);
    var w2 := Run(enforce, NO_ORDERS, e2);
    RunAppend(enforce, NO_ORDERS, e2, StatusRequest(id, OrderReady, cook));
    RequestRuns(enforce, w2, id, OrderReady, cook);
  }

  lemma CookIsAdmitted(enforce: bool, cook: Staff)
    requires cook.role == KITCHEN && cook.branchId != 0
    ensures Admits(enforce, cook, Order(cook.branchId, OrderPending), Some(OrderConfirmed), cook.organizationId)
    ensures Admits(enforce, cook, Order(cook.branchId, OrderConfirmed), Some(OrderPreparing), cook.organizationId)
    ensures Admits(enforce, cook, Order(cook.branchId, OrderPreparing), Some(OrderReady), cook.organizationId)
    ensures Admits(enforce, cook, Order(cook.branchId, OrderReady), Some(OrderServed), cook.organizationId)
            <==> !enforce
  {}

  /** A cook alone at the desk, from an empty one: in shadow mode the order ends served by the cook,
      because the role is only recorded; under enforcement it stays ready. */
  lemma KitchenServesInShadowMode(enforce: bool, id: string, cook: Staff)
    requires cook.role == KITCHEN && cook.branchId != 0
    ensures var w := Run(enforce, NO_ORDERS, Alone(id, cook));
      && w.orders == map[id := Order(cook.branchId, if enforce then OrderReady else OrderServed)]
      && (!enforce ==> w.journal != [] && w.journal[|w.journal| - 1] == Change(id, OrderReady, OrderServed, cook))
  {
    CookReachesReady(enforce, id, cook);
    CookIsAdmitted(enforce, cook);
    hide Admits, StatusRequest, Run, Step;
    var before := [Place(id, cook.branchId)] + StatusRequest(id, OrderConfirmed, cook)
      + StatusRequest(id, OrderPreparing, cook)
                  + StatusRequest(id, OrderReady, cook);
    RunAppend(enforce, NO_ORDERS, before, StatusRequest(id, OrderServed, cook));
    RequestRuns(enforce, Run(enforce, NO_ORDERS, before), id, OrderServed, cook);
  }

  /** If the order was served, the last change was made by front of house. */
  predicate FrontOfHouseServes(w: World, id: string) {
    var h := History(w.journal, id);
    id in w.orders && w.orders[id].status == OrderServed ==>
      h != [] && h[|h| - 1].staff.role in {OWNER, MANAGER, WAITER}
  }

  /** Orders are served only by an owner, a manager or a waiter, in every run from an empty desk,
      exactly when the policy is enforced. */
  lemma FrontOfHouseServesExactly(enforce: bool)
    ensures (forall events, id :: FrontOfHouseServes(Run(enforce, NO_ORDERS, events), id)) <==> enforce
  {
    if enforce {
      forall events, id ensures FrontOfHouseServes(Run(enforce, NO_ORDERS, events), id) {
        var w := Run(enforce, NO_ORDERS, events);
        if id in w.orders && w.orders[id].status == OrderServed {
          ServedByTheExactPath(enforce, events, id);
        }
      }
    } else {
      var cook := Staff(1, KITCHEN, 1, 1);
      KitchenServesInShadowMode(enforce, "a", cook);
      var w := Run(enforce, NO_ORDERS, Alone("a", cook));
      var front, last := w.journal[..|w.journal| - 1], w.journal[|w.journal| - 1];
      assert w.journal == front + [last];
      HistorySnoc(front, last, "a");
      assert !FrontOfHouseServes(w, "a");
    }
  }
}

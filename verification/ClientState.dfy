// What a guest's browser holds about its table, as values: the session, orders and
// assistance stores, the store actions, and the effect of each WebSocket event.
module ClientState {
  import opened Wrappers
  import opened Lifecycle

  // `details` stands for the remaining fields of a row, which no action reads.
  datatype Participant = Participant(id: int, isHost: bool, details: string)
  datatype Session = Session(id: string, status: SessionStatus, hostParticipantId: Option<int>, details: string)
  datatype Payment = Payment(id: int, details: string)
  datatype Order = Order(id: string, status: OrderStatus, details: string)
  datatype Assistance = Assistance(id: int, status: AssistanceStatus, details: string)

  // ---------------------------------------------------------------- list updates

  function Without(ps: seq<Participant>, id: int): (r: seq<Participant>)
    ensures forall p :: p in r <==> p in ps && p.id != id
  {
    if ps == [] then []
    else if ps[0].id == id then Without(ps[1..], id)
    else [ps[0]] + Without(ps[1..], id)
  }

  function MarkHost(ps: seq<Participant>, hostId: int): seq<Participant> {
    if ps == [] then []
    else [ps[0].(isHost := ps[0].id == hostId)] + MarkHost(ps[1..], hostId)
  }

  function FindParticipant(ps: seq<Participant>, id: int): (r: Option<Participant>)
    ensures r.Some? ==> r.value in ps && r.value.id == id
    ensures r.None? ==> forall p | p in ps :: p.id != id
  {
    if ps == [] then None
    else if ps[0].id == id then Some(ps[0])
    else FindParticipant(ps[1..], id)
  }

  function FindOrder(os: seq<Order>, id: string): (r: Option<Order>)
    ensures r.Some? ==> r.value in os && r.value.id == id
    ensures r.None? ==> forall o | o in os :: o.id != id
  {
    if os == [] then None
    else if os[0].id == id then Some(os[0])
    else FindOrder(os[1..], id)
  }

  function SetOrderStatus(os: seq<Order>, id: string, status: OrderStatus): seq<Order> {
    if os == [] then []
    else [if os[0].id == id then os[0].(status := status) else os[0]] + SetOrderStatus(os[1..], id, status)
  }

  function WithoutRequest(rs: seq<Assistance>, id: int): seq<Assistance> {
    if rs == [] then []
    else if rs[0].id == id then WithoutRequest(rs[1..], id)
    else [rs[0]] + WithoutRequest(rs[1..], id)
  }

  function SetRequestStatus(rs: seq<Assistance>, id: int, status: AssistanceStatus): seq<Assistance> {
    if rs == [] then []
    else [if rs[0].id == id then rs[0].(status := status) else rs[0]] + SetRequestStatus(rs[1..], id, status)
  }

  // ---------------------------------------------------------------- store actions

  datatype SessionState = SessionState(
    session: Option<Session>,
    participant: Option<Participant>,
    participants: seq<Participant>,
    isHost: bool,
    completedPayment: Option<Payment>,
    cancelledPayment: Option<Payment>,
    sessionExpiringAt: Option<int>,
    isReactivating: bool)
  {
    function SetSession(s: Session, p: Participant): SessionState {
      this.(session := Some(s), participant := Some(p), isHost := p.isHost, participants := [p])
    }

    function SetFromSnapshot(s: Session, ps: seq<Participant>): SessionState {
      var self := if participant.Some? && FindParticipant(ps, participant.value.id).Some?
                  then FindParticipant(ps, participant.value.id) else participant;
      this.(session := Some(s), participants := ps, participant := self,
            isHost := self.Some? && self.value.isHost,
            isReactivating := s.status == SessionAwaitingReactivation)
    }

    function AddParticipant(p: Participant): SessionState {
      this.(participants := Without(participants, p.id) + [p])
    }

    function RemoveParticipant(id: int): SessionState {
      this.(participants := Without(participants, id))
    }

    function ApplyHostChanged(hostId: int): SessionState {
      this.(participants := MarkHost(participants, hostId),
            isHost := participant.Some? && participant.value.id == hostId,
            participant := if participant.Some?
                           then Some(participant.value.(isHost := participant.value.id == hostId)) else None,
            session := if session.Some? then Some(session.value.(hostParticipantId := Some(hostId))) else None)
    }

    function MarkPaused(): SessionState {
      this.(session := if session.Some? then Some(session.value.(status := SessionAwaitingReactivation)) else None,
            isReactivating := true)
    }

    function ApplyReactivated(s: Session): SessionState {
      this.(session := Some(s), isReactivating := false, sessionExpiringAt := None)
    }

    function ApplyPaymentCancelled(p: Payment, status: Option<SessionStatus>): SessionState {
      this.(cancelledPayment := Some(p),
            session := if session.Some? && status.Some?
                       then Some(session.value.(status := status.value)) else session)
    }

    function MarkClosed(): SessionState {
      this.(session := if session.Some? then Some(session.value.(status := SessionClosed)) else None,
            sessionExpiringAt := None, isReactivating := false)
    }
  }

  const EMPTY_SESSION := SessionState(None, None, [], false, None, None, None, false)

  function AddOrder(os: seq<Order>, o: Order): seq<Order> {
    if FindOrder(os, o.id).Some? then os else [o] + os
  }

  function AddRequest(rs: seq<Assistance>, r: Assistance): seq<Assistance> {
    [r] + WithoutRequest(rs, r.id)
  }

  // ---------------------------------------------------------------- events

  /** The body of an order status event: `{order: {...}}`, a bare order, or neither. */
  datatype OrderPayload = Wrapped(id: string) | TopLevel(id: string) | NoOrder

  datatype Event =
    | EventSessionClosed
    | EventSessionReactivated
    | EventSessionExpiringSoon(expiresAt: Option<int>)
    | EventPaymentCompleted(payment: Payment)
    | EventPaymentCancelled(cancelled: Option<Payment>, sessionStatus: Option<SessionStatus>)
    | EventParticipantJoined(joined: Participant)
    | EventParticipantLeft(left: Participant)
    | EventHostChanged(host: Participant)
    | EventOrderPlaced(order: Order)
    | EventOrderStatus(orderStatus: OrderStatus, payload: OrderPayload) // confirmed ... cancelled
    | EventAssistanceRequested(request: Assistance)
    | EventAssistanceStatus(requestStatus: AssistanceStatus, requestId: int) // acknowledged, resolved
    | EventOther(name: string) // cart, menu and unhandled events touch none of the three stores

  const EXPIRY_WARNING_MS := 15 * 60 * 1000

  function SessionStep(s: SessionState, e: Event, now: int): SessionState {
    match e
    case EventSessionClosed => s.MarkClosed()
    case EventSessionReactivated => s.(isReactivating := false)
    case EventSessionExpiringSoon(at) =>
      s.(sessionExpiringAt := if at.Some? then at else Some(now + EXPIRY_WARNING_MS))
    case EventPaymentCompleted(p) => s.(completedPayment := Some(p))
    case EventPaymentCancelled(p, status) => if p.None? then s else s.ApplyPaymentCancelled(p.value, status)
    case EventParticipantJoined(p) => s.AddParticipant(p)
    case EventParticipantLeft(p) => s.RemoveParticipant(p.id)
    case EventHostChanged(p) => s.ApplyHostChanged(p.id)
    case _ => s
  }

  /** The order a status event is about; an absent or empty id makes the handler return early. */
  function OrderIdOf(payload: OrderPayload): Option<string> {
    if payload.NoOrder? || payload.id == "" then None else Some(payload.id)
  }

  function OrdersStep(os: seq<Order>, e: Event): seq<Order> {
    match e
    case EventOrderPlaced(o) => AddOrder(os, o)
    case EventOrderStatus(status, payload) =>
      var id := OrderIdOf(payload);
      if id.None? then os else SetOrderStatus(os, id.value, status)
    case _ => os
  }

  function AssistanceStep(rs: seq<Assistance>, e: Event): seq<Assistance> {
    match e
    case EventAssistanceRequested(r) => AddRequest(rs, r)
    case EventAssistanceStatus(status, id) => SetRequestStatus(rs, id, status)
    case _ => rs
  }

  datatype Replica = Replica(session: SessionState, orders: seq<Order>, assistance: seq<Assistance>)

  function Step(r: Replica, e: Event, now: int): Replica {
    Replica(SessionStep(r.session, e, now), OrdersStep(r.orders, e), AssistanceStep(r.assistance, e))
  }

  /** An event together with the client clock reading when its handler ran. */
  datatype Delivery = Delivery(event: Event, now: int)

  function Fold(r: Replica, log: seq<Delivery>): Replica
    decreases |log|
  {
    if log == [] then r else Fold(Step(r, log[0].event, log[0].now), log[1..])
  }
}

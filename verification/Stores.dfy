// The client's three stores and its connection, updated in place as the browser does it. Each
// method is tied to the value-level action of the same name.
module Stores {
  import opened Wrappers
  import opened Lifecycle
  import opened ClientState
  import opened Effects

  // ---------------------------------------------------------------- the stores

  class SessionStore {
    var session: Option<Session>
    var participant: Option<Participant>
    var participants: seq<Participant>
    var isHost: bool
    var completedPayment: Option<Payment>
    var cancelledPayment: Option<Payment>
    var sessionExpiringAt: Option<int>
    var isReactivating: bool

    function State(): SessionState
      reads this
    {
      SessionState(session, participant, participants, isHost, completedPayment, cancelledPayment,
                   sessionExpiringAt, isReactivating)
    }

    constructor ()
      ensures State() == EMPTY_SESSION
    {
      session, participant, participants, isHost := None, None, [], false;
      completedPayment, cancelledPayment, sessionExpiringAt, isReactivating := None, None, None, false;
    }

    method SetSession(s: Session, p: Participant)
      modifies this
      ensures State() == old(State()).SetSession(s, p)
      ensures State() == old(State()).(session := Some(s), participant := Some(p), participants := [p],
                                       isHost := p.isHost)
    {
      session := Some(s);
      participant := Some(p);
      isHost := p.isHost;
      participants := [p];
    }

    method SetFromSnapshot(s: Session, ps: seq<Participant>)
      modifies this
      ensures State() == old(State()).SetFromSnapshot(s, ps)
      ensures SnapshotEffect(old(State()), State(), s, ps)
    {
      SnapshotEffects(State(), s, ps);
      var updated := participant;
      if participant.Some? {
        var found := FindParticipant(ps, participant.value.id);
        if found.Some? {
          updated := found;
        }
      }
      session := Some(s);
      participants := ps;
      participant := updated;
      isHost := updated.Some? && updated.value.isHost;
      isReactivating := s.status == SessionAwaitingReactivation;
    }

    method AddParticipant(p: Participant)
      modifies this
      ensures State() == old(State()).AddParticipant(p)
      ensures participants != [] && participants[|participants| - 1] == p
      ensures Kept(old(participants), participants[..|participants| - 1], ParticipantIs(p.id))
    {
      WithoutKeeps(participants, p.id);
      participants := Without(participants, p.id) + [p];
    }

    method RemoveParticipant(id: int)
      modifies this
      ensures State() == old(State()).RemoveParticipant(id)
      ensures Kept(old(participants), participants, ParticipantIs(id))
    {
      WithoutKeeps(participants, id);
      participants := Without(participants, id);
    }

    method ApplyHostChanged(hostId: int)
      modifies this
      ensures State() == old(State()).ApplyHostChanged(hostId)
      ensures Flagged(old(participants), participants, hostId)
      ensures session == WithHost(old(session), hostId)
      ensures isHost == (old(participant).Some? && old(participant).value.id == hostId)
      ensures participant == if old(participant).None? then None
                             else Some(Participant(old(participant).value.id, isHost, old(participant).value.details))
    {
      MarkHostFlags(participants, hostId);
      participants := MarkHost(participants, hostId);
      isHost := participant.Some? && participant.value.id == hostId;
      if participant.Some? {
        participant := Some(participant.value.(isHost := participant.value.id == hostId));
      }
      if session.Some? {
        session := Some(session.value.(hostParticipantId := Some(hostId)));
      }
    }

    method MarkPaused()
      modifies this
      ensures State() == old(State()).MarkPaused()
      ensures State() == old(State()).(session := WithStatus(old(session), SessionAwaitingReactivation),
                                       isReactivating := true)
    {
      if session.Some? {
        session := Some(session.value.(status := SessionAwaitingReactivation));
      }
      isReactivating := true;
    }

    method ApplyReactivated(s: Session)
      modifies this
      ensures State() == old(State()).ApplyReactivated(s)
      ensures State() == old(State()).(session := Some(s), isReactivating := false, sessionExpiringAt := None)
    {
      session, isReactivating, sessionExpiringAt := Some(s), false, None;
    }

    method ApplyPaymentCancelled(p: Payment, status: Option<SessionStatus>)
      modifies this
      ensures State() == old(State()).ApplyPaymentCancelled(p, status)
      ensures State() == old(State()).(cancelledPayment := Some(p),
                                       session := if status.None? then old(session)
                                         else WithStatus(old(session), status.value))
    {
      cancelledPayment := Some(p);
      if session.Some? && status.Some? {
        session := Some(session.value.(status := status.value));
      }
    }

    method MarkClosed()
      modifies this
      ensures State() == old(State()).MarkClosed()
      ensures State() == old(State()).(session := WithStatus(old(session), SessionClosed), sessionExpiringAt := None,
                                       isReactivating := false)
    {
      if session.Some? {
        session := Some(session.value.(status := SessionClosed));
      }
      sessionExpiringAt := None;
      isReactivating := false;
    }

    method Clear()
      modifies this
      ensures State() == SessionState(None, None, [], false, None, None, None, false) == EMPTY_SESSION
    {
      session, participant, participants, isHost := None, None, [], false;
      completedPayment, cancelledPayment, sessionExpiringAt, isReactivating := None, None, None, false;
    }
  }

  class OrdersStore {
    var orders: seq<Order>

    constructor ()
      ensures orders == []
    {
      orders := [];
    }

    method AddOrder(o: Order)
      modifies this
      ensures orders == ClientState.AddOrder(old(orders), o)
      ensures OrderListed(old(orders), orders, o)
    {
      if FindOrder(orders, o.id).Some? {
        return;
      }
      orders := [o] + orders;
      assert o in orders && orders[1..] == old(orders);
    }

    method UpdateStatus(id: string, status: OrderStatus)
      modifies this
      ensures orders == SetOrderStatus(old(orders), id, status)
      ensures OrderMoved(old(orders), orders, id, status)
    {
      SetOrderStatusAt(orders, id, status);
      orders := SetOrderStatus(orders, id, status);
    }
  }

  class AssistanceStore {
    var requests: seq<Assistance>

    constructor ()
      ensures requests == []
    {
      requests := [];
    }

    method AddRequest(r: Assistance)
      modifies this
      ensures requests == ClientState.AddRequest(old(requests), r)
      ensures requests != [] && requests[0] == r && Kept(old(requests), requests[1..], RequestIs(r.id))
    {
      WithoutRequestKeeps(requests, r.id);
      requests := [r] + WithoutRequest(requests, r.id);
      assert requests[1..] == WithoutRequest(old(requests), r.id);
    }

    method UpdateStatus(id: int, status: AssistanceStatus)
      modifies this
      ensures requests == SetRequestStatus(old(requests), id, status)
      ensures RequestMoved(old(requests), requests, id, status)
    {
      SetRequestStatusAt(requests, id, status);
      requests := SetRequestStatus(requests, id, status);
    }
  }

  // ---------------------------------------------------------------- the connection

  datatype Envelope = Envelope(sequence: Option<int>, event: Event)

  datatype Snapshot = Snapshot(
    session: Session,
    participants: seq<Participant>,
    orders: seq<Order>,
    assistance: seq<Assistance>,
    missedEvents: seq<Envelope>,
    authoritative: bool)

  datatype ConnectionStatus = Connected | Reconnecting(attempt: nat) | Disconnected | ConnectionFailed

  const MAX_ATTEMPTS := 10

  datatype Connection = Connection(
    replica: Replica, lastSequence: int, attemptCount: nat, stopped: bool, status: ConnectionStatus)

  function Advance(cursor: int, env: Envelope): int {
    if env.sequence.Some? && env.sequence.value > cursor then env.sequence.value else cursor
  }

  function Receive(c: Connection, env: Envelope, now: int): Connection {
    c.(lastSequence := Advance(c.lastSequence, env), replica := Step(c.replica, env.event, now))
  }

  /** An envelope and the client's clock when its handler ran. */
  datatype Timed = Timed(env: Envelope, now: int)

  function ReceiveAll(c: Connection, ds: seq<Timed>): Connection
    decreases |ds|
  {
    if ds == [] then c else ReceiveAll(Receive(c, ds[0].env, ds[0].now), ds[1..])
  }

  /** The envelopes handled one after another, the i-th when the clock reads clock(i). */
  function Clocked(envs: seq<Envelope>, clock: nat -> int): (ds: seq<Timed>)
    ensures |ds| == |envs| && forall i | 0 <= i < |envs| :: ds[i] == Timed(envs[i], clock(i))
  {
    seq(|envs|, i requires 0 <= i < |envs| => Timed(envs[i], clock(i)))
  }

  function HighestSequence(cursor: int, envs: seq<Envelope>): int
    decreases |envs|
  {
    if envs == [] then cursor
    else
      var s := if envs[0].sequence.Some? then envs[0].sequence.value else 0;
      HighestSequence(if s > cursor then s else cursor, envs[1..])
  }

  function Reconcile(r: Replica, snap: Snapshot): Replica {
    Replica(r.session.SetFromSnapshot(snap.session, snap.participants), snap.orders, snap.assistance)
  }

  function RetryLater(c: Connection): Connection {
    if c.attemptCount >= MAX_ATTEMPTS then c.(status := ConnectionFailed)
    else c.(attemptCount := c.attemptCount + 1, status := Reconnecting(c.attemptCount + 1))
  }

  function EndSession(c: Connection): Connection {
    c.(stopped := true, status := Disconnected,
       replica := c.replica.(session := c.replica.session.MarkClosed()))
  }

  function ReplayOrAdopt(c: Connection, snap: Snapshot, clock: nat -> int): Connection {
    var caughtUp := if snap.authoritative
                    then c.(lastSequence := HighestSequence(c.lastSequence, snap.missedEvents))
                    else ReceiveAll(c, Clocked(snap.missedEvents, clock));
    caughtUp.(replica := Reconcile(caughtUp.replica, snap))
  }

  /** What a reconnect attempt leaves behind; a missing snapshot is a failed fetch, and clock(i) the
      reading when the i-th missed event is handled. */
  function AfterReconnect(c: Connection, fetched: Option<Snapshot>, clock: nat -> int): Connection {
    if c.stopped then c
    else if fetched.None? then RetryLater(c)
    else
      var snap := fetched.value;
      if IsSessionTerminal(snap.session.status) then EndSession(c)
      else if snap.session.status == SessionAwaitingReactivation then
        RetryLater(c.(replica := c.replica.(session := c.replica.session.MarkPaused())))
      else ReplayOrAdopt(c, snap, clock)
  }

  // ---------------------------------------------------------------- what a reconnect leaves, field by field

  /** The highest sequence number among some envelopes and the cursor. */
  ghost predicate IsHighest(m: int, cursor: int, envs: seq<Envelope>) {
    && cursor <= m
    && (forall env | env in envs && env.sequence.Some? :: env.sequence.value <= m)
    && (m == cursor || exists env | env in envs :: env.sequence == Some(m))
  }

  lemma {:induction false} HighestIsHighest(cursor: int, envs: seq<Envelope>)
    requires cursor >= 0
    ensures IsHighest(HighestSequence(cursor, envs), cursor, envs)
    decreases |envs|
  {
    if envs == [] {
    } else {
      var s := if envs[0].sequence.Some? then envs[0].sequence.value else 0;
      HighestIsHighest(if s > cursor then s else cursor, envs[1..]);
      assert forall env | env in envs :: env == envs[0] || env in envs[1..];
      assert envs[0] in envs && forall env | env in envs[1..] :: env in envs;
    }
  }

  /** Ten attempts are made before the connection counts as failed. */
  ghost predicate Retried(c: Connection, d: Connection) {
    if c.attemptCount >= 10 then d.attemptCount == c.attemptCount && d.status == ConnectionFailed
    else d.attemptCount == c.attemptCount + 1 && d.status == Reconnecting(c.attemptCount + 1)
  }

  ghost predicate ReconnectEffect(c: Connection, d: Connection, fetched: Option<Snapshot>, clock: nat -> int) {
    if c.stopped then d == c
    else if fetched.None? then
      && d == c.(attemptCount := d.attemptCount, status := d.status) && Retried(c, d)
    else
      var snap, s := fetched.value, c.replica.session;
      match snap.session.status
      case SessionClosed | SessionAbandoned | SessionExpired =>
        d == c.(stopped := true, status := Disconnected,
                replica := c.replica.(session := s.(session := WithStatus(s.session, SessionClosed),
                                                    sessionExpiringAt := None, isReactivating := false)))
      case SessionAwaitingReactivation =>
        && d == c.(attemptCount := d.attemptCount, status := d.status,
                   replica := c.replica.(session := s.(session := WithStatus(s.session, SessionAwaitingReactivation),
                                                       isReactivating := true)))
        && Retried(c, d)
      case _ =>
        var caughtUp := if snap.authoritative then c else ReceiveAll(c, Clocked(snap.missedEvents, clock));
        && d.stopped == caughtUp.stopped && d.attemptCount == caughtUp.attemptCount && d.status == caughtUp.status
        && (if snap.authoritative && c.lastSequence >= 0
            then IsHighest(d.lastSequence, c.lastSequence, snap.missedEvents)
            else snap.authoritative || d.lastSequence == caughtUp.lastSequence)
        && d.replica.orders == snap.orders && d.replica.assistance == snap.assistance
        && SnapshotEffect(caughtUp.replica.session, d.replica.session, snap.session, snap.participants)
  }

  lemma ReconnectEffects(c: Connection, fetched: Option<Snapshot>, clock: nat -> int)
    ensures ReconnectEffect(c, AfterReconnect(c, fetched, clock), fetched, clock)
  {
    hide SnapshotEffect, IsHighest, ReceiveAll, HighestSequence;
    if !c.stopped && fetched.Some? {
      var snap := fetched.value;
      var caughtUp := if snap.authoritative then c else ReceiveAll(c, Clocked(snap.missedEvents, clock));
      SnapshotEffects(caughtUp.replica.session, snap.session, snap.participants);
      if c.lastSequence >= 0 {
        HighestIsHighest(c.lastSequence, snap.missedEvents);
      }
    }
  }

  function FailedFetches(c: Connection, n: nat, clock: nat -> int): Connection {
    if n == 0 then c else AfterReconnect(FailedFetches(c, n - 1, clock), None, clock)
  }

  /** A connection that opened and then fails to fetch a snapshot n times in a row is on its n-th attempt,
      up to the tenth; after that it counts as failed, and nothing else about the client has changed. */
  lemma {:induction false} RetriesAreBounded(c: Connection, n: nat, clock: nat -> int)
    requires !c.stopped && c.attemptCount == 0 && n > 0
    ensures FailedFetches(c, n, clock) ==
            if n <= 10 then c.(attemptCount := n, status := Reconnecting(n))
            else c.(attemptCount := 10, status := ConnectionFailed)
  {
    if n == 1 {
      assert FailedFetches(c, 0, clock) == c;
    } else {
      RetriesAreBounded(c, n - 1, clock);
    }
  }

  class GuestClient {
    const session: SessionStore
    const orders: OrdersStore
    const assistance: AssistanceStore
    var lastSequence: int
    var attemptCount: nat
    var stopped: bool
    var status: ConnectionStatus

    constructor ()
      ensures fresh(session) && fresh(orders) && fresh(assistance)
      ensures View() == Connection(Replica(EMPTY_SESSION, [], []), 0, 0, false, Connected)
    {
      session := new SessionStore();
      orders := new OrdersStore();
      assistance := new AssistanceStore();
      lastSequence, attemptCount, stopped, status := 0, 0, false, Connected;
    }

    function View(): Connection
      reads this, session, orders, assistance
    {
      Connection(Replica(session.State(), orders.orders, assistance.requests),
                 lastSequence, attemptCount, stopped, status)
    }

    method Dispatch(e: Event, now: int)
      modifies session, orders, assistance
      ensures View() == old(View()).(replica := Step(old(View()).replica, e, now))
      ensures SessionEffect(old(session.State()), session.State(), e, now)
      ensures OrdersEffect(old(orders.orders), orders.orders, e)
      ensures AssistanceEffect(old(assistance.requests), assistance.requests, e)
    {
      EventEffects(View().replica, e, now);
      hide Kept, OrderMoved, RequestMoved, OrderListed, SessionEffect, OrdersEffect, AssistanceEffect, Flagged, Without,
        MarkHost, FindOrder, SetOrderStatus, WithoutRequest, SetRequestStatus;
      match e
      case EventSessionClosed => session.MarkClosed();
      case EventSessionReactivated => session.isReactivating := false;
      case EventSessionExpiringSoon(at) =>
        session.sessionExpiringAt := if at.Some? then at else Some(now + EXPIRY_WARNING_MS);
      case EventPaymentCompleted(p) => session.completedPayment := Some(p);
      case EventPaymentCancelled(p, newStatus) =>
        if p.None? {
          return;
        }
        session.ApplyPaymentCancelled(p.value, newStatus);
      case EventParticipantJoined(p) => session.AddParticipant(p);
      case EventParticipantLeft(p) => session.RemoveParticipant(p.id);
      case EventHostChanged(p) => session.ApplyHostChanged(p.id);
      case EventOrderPlaced(o) => orders.AddOrder(o);
      case EventOrderStatus(newStatus, payload) =>
        var id := OrderIdOf(payload);
        if id.None? {
          return;
        }
        orders.UpdateStatus(id.value, newStatus);
      case EventAssistanceRequested(r) => assistance.AddRequest(r);
      case EventAssistanceStatus(newStatus, id) => assistance.UpdateStatus(id, newStatus);
      case EventOther(_) =>
    }

    method HandleEnvelope(env: Envelope, now: int)
      modifies this, session, orders, assistance
      ensures View() == Receive(old(View()), env, now)
      ensures lastSequence == if env.sequence.Some? && env.sequence.value > old(lastSequence)
                              then env.sequence.value else old(lastSequence)
    {
      if env.sequence.Some? && env.sequence.value > lastSequence {
        lastSequence := env.sequence.value;
      }
      Dispatch(env.event, now);
    }

    method ReconcileSnapshot(snap: Snapshot)
      modifies session, orders, assistance
      ensures View() == old(View()).(replica := Reconcile(old(View()).replica, snap))
      ensures orders.orders == snap.orders && assistance.requests == snap.assistance
      ensures SnapshotEffect(old(session.State()), session.State(), snap.session, snap.participants)
    {
      session.SetFromSnapshot(snap.session, snap.participants);
      orders.orders := snap.orders;
      assistance.requests := snap.assistance;
    }

    method ScheduleReconnect()
      modifies this
      ensures View() == RetryLater(old(View()))
      ensures Retried(old(View()), View())
    {
      if attemptCount >= MAX_ATTEMPTS {
        status := ConnectionFailed;
        return;
      }
      attemptCount := attemptCount + 1;
      status := Reconnecting(attemptCount);
    }

    method Reconnect(fetched: Option<Snapshot>, clock: nat -> int)
      modifies this, session, orders, assistance
      ensures View() == AfterReconnect(old(View()), fetched, clock)
      ensures ReconnectEffect(old(View()), View(), fetched, clock)
    {
      ReconnectEffects(View(), fetched, clock);
      if stopped {
        return;
      }
      if fetched.None? {
        ScheduleReconnect();
        return;
      }
      var snap := fetched.value;
      if IsSessionTerminal(snap.session.status) {
        stopped := true;
        status := Disconnected;
        session.MarkClosed();
        return;
      }
      if snap.session.status == SessionAwaitingReactivation {
        session.MarkPaused();
        ScheduleReconnect();
        return;
      }
      var missed := snap.missedEvents;
      if snap.authoritative {
        for i := 0 to |missed|
          invariant View() == old(View()).(lastSequence := lastSequence)
          invariant HighestSequence(lastSequence, missed[i..]) == HighestSequence(old(lastSequence), missed)
        {
          assert missed[i..][1..] == missed[i + 1..];
          var s := if missed[i].sequence.Some? then missed[i].sequence.value else 0;
          if s > lastSequence {
            lastSequence := s;
          }
        }
      } else {
        ghost var replay := Clocked(missed, clock);
        for i := 0 to |missed|
          invariant ReceiveAll(View(), replay[i..]) == ReceiveAll(old(View()), replay)
        {
          assert replay[i..][1..] == replay[i + 1..];
          HandleEnvelope(missed[i], clock(i));
        }
      }
      ReconcileSnapshot(snap);
    }
  }
}

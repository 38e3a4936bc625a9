// What each WebSocket event and each kind of snapshot leaves in the client's stores, written out
// field by field, without the store actions that bring it about.
module Effects {
  import opened Wrappers
  import opened Lifecycle
  import opened ClientState

  // ---------------------------------------------------------------- effects on lists

  /** `after` is `before` without the dropped elements: at[i] says where its i-th element was. */
  ghost predicate KeptAt<T>(before: seq<T>, after: seq<T>, drop: T -> bool, at: seq<nat>) {
    && |at| == |after|
    && (forall i | 0 <= i < |at| :: at[i] < |before| && after[i] == before[at[i]] && !drop(after[i]))
    && (forall i, j | 0 <= i < j < |at| :: at[i] < at[j])
    && (forall k | 0 <= k < |before| && !drop(before[k]) :: k in at)
  }

  /** Exactly the elements not dropped remain, in their old order. */
  ghost predicate Kept<T>(before: seq<T>, after: seq<T>, drop: T -> bool) {
    exists at :: KeptAt(before, after, drop, at)
  }

  function Later(at: seq<nat>): (r: seq<nat>)
    ensures |r| == |at| && forall i | 0 <= i < |at| :: r[i] == at[i] + 1
  {
    seq(|at|, i requires 0 <= i < |at| => at[i] + 1)
  }

  lemma LaterReaches(at: seq<nat>, k: nat)
    requires k in at
    ensures k + 1 in Later(at)
  {
    var i :| 0 <= i < |at| && at[i] == k;
    assert Later(at)[i] == k + 1;
  }

  lemma DropHead<T>(all: seq<T>, after: seq<T>, drop: T -> bool, at: seq<nat>)
    requires all != [] && drop(all[0]) && KeptAt(all[1..], after, drop, at)
    ensures KeptAt(all, after, drop, Later(at))
  {
    forall k | 0 <= k < |all| && !drop(all[k]) ensures k in Later(at) {
      assert all[1..][k - 1] == all[k];
      LaterReaches(at, k - 1);
    }
  }

  lemma KeepHead<T>(all: seq<T>, after: seq<T>, drop: T -> bool, at: seq<nat>)
    requires all != [] && !drop(all[0]) && KeptAt(all[1..], after, drop, at)
    ensures KeptAt(all, [all[0]] + after, drop, [0] + Later(at))
  {
    var places: seq<nat>, rest := [0] + Later(at), [all[0]] + after;
    forall i | 0 <= i < |places| ensures places[i] < |all| && rest[i] == all[places[i]] && !drop(rest[i]) {
      if i > 0 {
        assert rest[i] == after[i - 1] == all[1..][at[i - 1]];
      }
    }
    forall i, j | 0 <= i < j < |places| ensures places[i] < places[j] {
      assert i > 0 ==> at[i - 1] < at[j - 1];
    }
    forall k | 0 <= k < |all| && !drop(all[k]) ensures k in places {
      if k == 0 {
        assert places[0] == 0;
      } else {
        assert all[1..][k - 1] == all[k];
        LaterReaches(at, k - 1);
      }
    }
  }

  function ParticipantIs(id: int): Participant -> bool {
    (p: Participant) => p.id == id
  }

  function RequestIs(id: int): Assistance -> bool {
    (r: Assistance) => r.id == id
  }

  lemma {:induction false} WithoutKeeps(ps: seq<Participant>, id: int)
    ensures Kept(ps, Without(ps, id), ParticipantIs(id))
  {
    if ps == [] {
      assert KeptAt(ps, [], ParticipantIs(id), []);
    } else {
      WithoutKeeps(ps[1..], id);
      var at :| KeptAt(ps[1..], Without(ps[1..], id), ParticipantIs(id), at);
      if ps[0].id == id {
        DropHead(ps, Without(ps[1..], id), ParticipantIs(id), at);
      } else {
        KeepHead(ps, Without(ps[1..], id), ParticipantIs(id), at);
      }
    }
  }

  lemma {:induction false} WithoutRequestKeeps(rs: seq<Assistance>, id: int)
    ensures Kept(rs, WithoutRequest(rs, id), RequestIs(id))
  {
    if rs == [] {
      assert KeptAt(rs, [], RequestIs(id), []);
    } else {
      WithoutRequestKeeps(rs[1..], id);
      var at :| KeptAt(rs[1..], WithoutRequest(rs[1..], id), RequestIs(id), at);
      if rs[0].id == id {
        DropHead(rs, WithoutRequest(rs[1..], id), RequestIs(id), at);
      } else {
        KeepHead(rs, WithoutRequest(rs[1..], id), RequestIs(id), at);
      }
    }
  }

  /** One order has a new status, and nothing else is different. */
  ghost predicate OrderMoved(before: seq<Order>, after: seq<Order>, id: string, status: OrderStatus) {
    && |after| == |before|
    && forall i | 0 <= i < |after| :: after[i] == if before[i].id == id then before[i].(status := status) else before[i]
  }

  ghost predicate RequestMoved(before: seq<Assistance>, after: seq<Assistance>, id: int, status: AssistanceStatus) {
    && |after| == |before|
    && forall i | 0 <= i < |after| :: after[i] == if before[i].id == id then before[i].(status := status) else before[i]
  }

  /** The order is listed, the first one with its id counts, and no listed order moves or is doubled. */
  ghost predicate OrderListed(before: seq<Order>, after: seq<Order>, o: Order) {
    && (exists x | x in after :: x.id == o.id)
    && |before| + (if FindOrder(before, o.id).Some? then 0 else 1) == |after| && after[|after| - |before|..] == before
    && (forall id :: FindOrder(after, id) ==
          (if FindOrder(before, id).Some? then FindOrder(before, id) else if id == o.id then Some(o) else None))
    && ((forall i, j | 0 <= i < j < |before| :: before[i].id != before[j].id) ==>
          forall i, j | 0 <= i < j < |after| :: after[i].id != after[j].id)
  }

  lemma {:induction false} SetOrderStatusAt(os: seq<Order>, id: string, status: OrderStatus)
    ensures OrderMoved(os, SetOrderStatus(os, id, status), id, status)
  {
    if os == [] {
    } else {
      SetOrderStatusAt(os[1..], id, status);
    }
  }

  lemma {:induction false} SetRequestStatusAt(rs: seq<Assistance>, id: int, status: AssistanceStatus)
    ensures RequestMoved(rs, SetRequestStatus(rs, id, status), id, status)
  {
    if rs == [] {
    } else {
      SetRequestStatusAt(rs[1..], id, status);
    }
  }

  lemma AddOrderLists(os: seq<Order>, o: Order)
    ensures OrderListed(os, AddOrder(os, o), o)
  {
    if FindOrder(os, o.id).None? {
      assert o in [o] + os && ([o] + os)[1..] == os;
    }
  }

  /** Every participant is flagged host exactly when it has that id. */
  ghost predicate Flagged(before: seq<Participant>, after: seq<Participant>, hostId: int) {
    && |after| == |before|
    && forall i | 0 <= i < |after| ::
        after[i] == Participant(before[i].id, before[i].id == hostId, before[i].details)
  }

  lemma {:induction false} MarkHostFlags(ps: seq<Participant>, hostId: int)
    ensures Flagged(ps, MarkHost(ps, hostId), hostId)
  {
    if ps == [] {
    } else {
      MarkHostFlags(ps[1..], hostId);
    }
  }

  // ---------------------------------------------------------------- events

  /** The session row, if there is one, with another status. */
  function WithStatus(s: Option<Session>, status: SessionStatus): Option<Session> {
    if s.None? then None else Some(Session(s.value.id, status, s.value.hostParticipantId, s.value.details))
  }

  function WithHost(s: Option<Session>, hostId: int): Option<Session> {
    if s.None? then None else Some(Session(s.value.id, s.value.status, Some(hostId), s.value.details))
  }

  ghost predicate SessionEffect(s: SessionState, t: SessionState, e: Event, now: int) {
    match e
    case EventSessionClosed =>
      t == s.(session := WithStatus(s.session, SessionClosed), sessionExpiringAt := None, isReactivating := false)
    case EventSessionReactivated => t == s.(isReactivating := false)
    case EventSessionExpiringSoon(at) =>
      t == s.(sessionExpiringAt := Some(if at.Some? then at.value else now + 900_000))
    case EventPaymentCompleted(p) => t == s.(completedPayment := Some(p))
    case EventPaymentCancelled(p, status) =>
      t == if p.None? then s
           else if status.None? then s.(cancelledPayment := p)
           else s.(cancelledPayment := p, session := WithStatus(s.session, status.value))
    case EventParticipantJoined(p) =>
      && t == s.(participants := t.participants)
      && t.participants != [] && t.participants[|t.participants| - 1] == p
      && Kept(s.participants, t.participants[..|t.participants| - 1], ParticipantIs(p.id))
    case EventParticipantLeft(p) =>
      t == s.(participants := t.participants) && Kept(s.participants, t.participants, ParticipantIs(p.id))
    case EventHostChanged(p) =>
      && t == s.(participants := t.participants, participant := t.participant, isHost := t.isHost,
                 session := WithHost(s.session, p.id))
      && Flagged(s.participants, t.participants, p.id)
      && (s.participant.None? ==> t.participant == None && !t.isHost)
      && (s.participant.Some? ==>
            var own := s.participant.value;
            t.participant == Some(Participant(own.id, own.id == p.id, own.details)) && t.isHost == (own.id == p.id))
    case _ => t == s
  }

  ghost predicate OrdersEffect(os: seq<Order>, t: seq<Order>, e: Event) {
    match e
    case EventOrderPlaced(o) => OrderListed(os, t, o)
    case EventOrderStatus(status, payload) =>
      if payload.NoOrder? || payload.id == "" then t == os else OrderMoved(os, t, payload.id, status)
    case _ => t == os
  }

  ghost predicate AssistanceEffect(rs: seq<Assistance>, t: seq<Assistance>, e: Event) {
    match e
    case EventAssistanceRequested(r) => t != [] && t[0] == r && Kept(rs, t[1..], RequestIs(r.id))
    case EventAssistanceStatus(status, id) => RequestMoved(rs, t, id, status)
    case _ => t == rs
  }

  lemma SessionEffects(s: SessionState, e: Event, now: int)
    ensures SessionEffect(s, SessionStep(s, e, now), e, now)
  {
    hide Kept;
    match e
    case EventParticipantJoined(p) =>
      WithoutKeeps(s.participants, p.id);
      var t := Without(s.participants, p.id) + [p];
      assert t[..|t| - 1] == Without(s.participants, p.id);
    case EventParticipantLeft(p) => WithoutKeeps(s.participants, p.id);
    case EventHostChanged(p) => MarkHostFlags(s.participants, p.id);
    case _ =>
  }

  /** What one event leaves in the three stores. */
  lemma EventEffects(r: Replica, e: Event, now: int)
    ensures var t := Step(r, e, now);
      && SessionEffect(r.session, t.session, e, now)
      && OrdersEffect(r.orders, t.orders, e)
      && AssistanceEffect(r.assistance, t.assistance, e)
  {
    hide SessionEffect, OrderListed, OrderMoved, RequestMoved, Kept;
    SessionEffects(r.session, e, now);
    match e
    case EventOrderPlaced(o) => AddOrderLists(r.orders, o);
    case EventOrderStatus(status, payload) =>
      if OrderIdOf(payload).Some? {
        SetOrderStatusAt(r.orders, OrderIdOf(payload).value, status);
      }
    case EventAssistanceRequested(q) =>
      WithoutRequestKeeps(r.assistance, q.id);
      assert ([q] + WithoutRequest(r.assistance, q.id))[1..] == WithoutRequest(r.assistance, q.id);
    case EventAssistanceStatus(status, id) => SetRequestStatusAt(r.assistance, id, status);
    case _ =>
  }

  // ---------------------------------------------------------------- snapshots

  /** Where in the list the first entry with that id stands. */
  ghost predicate FirstWith(ps: seq<Participant>, id: int, i: int) {
    0 <= i < |ps| && ps[i].id == id && forall k | 0 <= k < i :: ps[k].id != id
  }

  /** The snapshot's rows replace the old ones; the client's own participant is refreshed from the list
      if it is there. */
  ghost predicate SnapshotEffect(s: SessionState, t: SessionState, session: Session, ps: seq<Participant>) {
    && t == s.(session := Some(session), participants := ps, participant := t.participant, isHost := t.isHost,
               isReactivating := session.status == SessionAwaitingReactivation)
    && (s.participant.None? ==> t.participant == None)
    && (s.participant.Some? ==>
          && (forall i | FirstWith(ps, s.participant.value.id, i) :: t.participant == Some(ps[i]))
          && ((forall p | p in ps :: p.id != s.participant.value.id) ==> t.participant == s.participant))
    && t.isHost == (t.participant.Some? && t.participant.value.isHost)
  }

  lemma {:induction false} FindIsFirst(ps: seq<Participant>, id: int, i: int)
    requires FirstWith(ps, id, i)
    ensures FindParticipant(ps, id) == Some(ps[i])
  {
    if i == 0 {
    } else {
      forall k | 0 <= k < i - 1 ensures ps[1..][k].id != id {
        assert ps[1..][k] == ps[k + 1];
      }
      FindIsFirst(ps[1..], id, i - 1);
    }
  }

  lemma SnapshotEffects(s: SessionState, session: Session, ps: seq<Participant>)
    ensures SnapshotEffect(s, s.SetFromSnapshot(session, ps), session, ps)
  {
    if s.participant.Some? {
      var id := s.participant.value.id;
      forall i | FirstWith(ps, id, i) ensures FindParticipant(ps, id) == Some(ps[i]) {
        FindIsFirst(ps, id, i);
      }
    }
  }
}

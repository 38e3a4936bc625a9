// Replay repairs: whatever was lost, repeated or reordered in live delivery, replaying the
// log from the last known good point leaves the same client state as never having
// received the live events at all.
module Convergence {
  import opened Wrappers
  import opened Lifecycle
  import opened ClientState

  /** Every event of `live` is some event of `log`; nothing is said about order or number. */
  ghost predicate DrawnFrom(live: seq<Delivery>, log: seq<Delivery>) {
    forall d | d in live :: Occurs(d.event, log)
  }

  predicate Occurs(e: Event, log: seq<Delivery>) {
    exists i :: 0 <= i < |log| && log[i].event == e
  }

  lemma {:induction false} FoldAppend(r: Replica, a: seq<Delivery>, b: seq<Delivery>)
    ensures Fold(r, a + b) == Fold(Fold(r, a), b)
    decreases |a|
  {
    if a == [] {
      assert a + b == b;
    } else {
      assert (a + b)[1..] == a[1..] + b;
      FoldAppend(Step(r, a[0].event, a[0].now), a[1..], b);
    }
  }

  // ---------------------------------------------------------------- list algebra

  lemma {:induction false} WithoutAppend(a: seq<Participant>, b: seq<Participant>, id: int)
    ensures Without(a + b, id) == Without(a, id) + Without(b, id)
  {
    if a == [] {
      assert a + b == b;
    } else {
      assert (a + b)[1..] == a[1..] + b;
      WithoutAppend(a[1..], b, id);
    }
  }

  lemma {:induction false} WithoutTwice(ps: seq<Participant>, i: int, j: int)
    ensures Without(Without(ps, i), j) == Without(Without(ps, j), i)
    ensures Without(Without(ps, i), i) == Without(ps, i)
  {
    if ps == [] {
    } else {
      WithoutTwice(ps[1..], i, j);
      assert Without([ps[0]] + Without(ps[1..], i), j) == Without([ps[0]], j) + Without(Without(ps[1..], i), j) by {
        WithoutAppend([ps[0]], Without(ps[1..], i), j);
      }
      assert Without([ps[0]] + Without(ps[1..], j), i) == Without([ps[0]], i) + Without(Without(ps[1..], j), i) by {
        WithoutAppend([ps[0]], Without(ps[1..], j), i);
      }
      assert Without([ps[0]] + Without(ps[1..], i), i) == Without([ps[0]], i) + Without(Without(ps[1..], i), i) by {
        WithoutAppend([ps[0]], Without(ps[1..], i), i);
      }
    }
  }

  lemma {:induction false} MarkAppend(a: seq<Participant>, b: seq<Participant>, h: int)
    ensures MarkHost(a + b, h) == MarkHost(a, h) + MarkHost(b, h)
  {
    if a == [] {
      assert a + b == b;
    } else {
      assert (a + b)[1..] == a[1..] + b;
      MarkAppend(a[1..], b, h);
    }
  }

  lemma {:induction false} MarkTwice(ps: seq<Participant>, g: int, h: int)
    ensures MarkHost(MarkHost(ps, g), h) == MarkHost(ps, h)
  {
    if ps == [] {
    } else {
      MarkTwice(ps[1..], g, h);
    }
  }

  lemma {:induction false} MarkWithout(ps: seq<Participant>, h: int, id: int)
    ensures MarkHost(Without(ps, id), h) == Without(MarkHost(ps, h), id)
  {
    if ps == [] {
    } else {
      MarkWithout(ps[1..], h, id);
    }
  }

  lemma {:induction false} RequestsTwice(rs: seq<Assistance>, i: int, j: int)
    ensures WithoutRequest(WithoutRequest(rs, i), j) == WithoutRequest(WithoutRequest(rs, j), i)
    ensures WithoutRequest(WithoutRequest(rs, i), i) == WithoutRequest(rs, i)
  {
    if rs == [] {
    } else {
      RequestsTwice(rs[1..], i, j);
    }
  }

  lemma {:induction false} StatusWithout(rs: seq<Assistance>, id: int, status: AssistanceStatus, j: int)
    ensures SetRequestStatus(WithoutRequest(rs, j), id, status) == WithoutRequest(SetRequestStatus(rs, id, status), j)
    ensures id == j ==> WithoutRequest(SetRequestStatus(rs, id, status), j) == WithoutRequest(rs, j)
  {
    if rs == [] {
    } else {
      StatusWithout(rs[1..], id, status, j);
    }
  }

  lemma {:induction false} StatusTwice(rs: seq<Assistance>, i: int, s: AssistanceStatus, j: int, t: AssistanceStatus)
    ensures i == j ==> SetRequestStatus(SetRequestStatus(rs, i, s), j, t) == SetRequestStatus(rs, j, t)
    ensures i != j ==>
      SetRequestStatus(SetRequestStatus(rs, i, s), j, t) == SetRequestStatus(SetRequestStatus(rs, j, t), i, s)
  {
    if rs == [] {
    } else {
      StatusTwice(rs[1..], i, s, j, t);
    }
  }

  // ---------------------------------------------------------------- absorption

  // Applying e, then b, then e again is the same as applying b and then e: an early copy
  // of e leaves nothing behind that e itself does not overwrite.

  function ParticipantsStep(ps: seq<Participant>, e: Event): seq<Participant> {
    match e
    case EventParticipantJoined(p) => Without(ps, p.id) + [p]
    case EventParticipantLeft(p) => Without(ps, p.id)
    case EventHostChanged(p) => MarkHost(ps, p.id)
    case _ => ps
  }

  lemma LastWriteTwice(ps: seq<Participant>, e: Event)
    ensures ParticipantsStep(ParticipantsStep(ps, e), e) == ParticipantsStep(ps, e)
  {
    match e
    case EventParticipantJoined(p) =>
      WithoutTwice(ps, p.id, p.id);
      WithoutAppend(Without(ps, p.id), [p], p.id);
    case EventParticipantLeft(p) => WithoutTwice(ps, p.id, p.id);
    case EventHostChanged(p) => MarkTwice(ps, p.id, p.id);
    case _ =>
  }

  lemma ParticipantsAbsorb(ps: seq<Participant>, e: Event, b: Event)
    ensures ParticipantsStep(ParticipantsStep(ParticipantsStep(ps, e), b), e)
            == ParticipantsStep(ParticipantsStep(ps, b), e)
  {
    match e
    case EventParticipantJoined(p) => RemovalAbsorbs(ps, [p], p.id, b);
    case EventParticipantLeft(p) =>
      assert Without(ps, p.id) + [] == Without(ps, p.id);
      RemovalAbsorbs(ps, [], p.id, b);
    case EventHostChanged(p) => HostAbsorbs(ps, p.id, b);
    case _ =>
  }

  lemma HostAbsorbs(ps: seq<Participant>, h: int, b: Event)
    ensures MarkHost(ParticipantsStep(MarkHost(ps, h), b), h) == MarkHost(ParticipantsStep(ps, b), h)
  {
    match b
    case EventParticipantJoined(q) =>
      MarkAppend(Without(MarkHost(ps, h), q.id), [q], h);
      MarkAppend(Without(ps, q.id), [q], h);
      MarkWithout(MarkHost(ps, h), h, q.id);
      MarkWithout(ps, h, q.id);
      MarkTwice(ps, h, h);
    case EventParticipantLeft(q) =>
      MarkWithout(MarkHost(ps, h), h, q.id);
      MarkWithout(ps, h, q.id);
      MarkTwice(ps, h, h);
    case EventHostChanged(q) =>
      MarkTwice(ps, h, q.id);
    case _ => MarkTwice(ps, h, h);
  }

  lemma RemovalForgets(ps: seq<Participant>, back: seq<Participant>, id: int)
    requires back == [] || (|back| == 1 && back[0].id == id)
    ensures Without(Without(ps, id) + back, id) == Without(ps, id)
  {
    assert Without(back, id) == [];
    WithoutAppend(Without(ps, id), back, id);
    WithoutTwice(ps, id, id);
  }

  // `back` is what e puts at the end: the participant itself when joining, nothing when leaving.
  lemma RemovalAbsorbs(ps: seq<Participant>, back: seq<Participant>, id: int, b: Event)
    requires back == [] || (|back| == 1 && back[0].id == id)
    ensures Without(ParticipantsStep(Without(ps, id) + back, b), id) == Without(ParticipantsStep(ps, b), id)
  {
    hide Without, MarkHost;
    var early := Without(ps, id) + back;
    RemovalForgets(ps, back, id);
    match b
    case EventParticipantJoined(q) =>
      WithoutAppend(Without(early, q.id), [q], id);
      WithoutAppend(Without(ps, q.id), [q], id);
      WithoutTwice(early, q.id, id);
      WithoutTwice(ps, q.id, id);
    case EventParticipantLeft(q) =>
      WithoutTwice(early, q.id, id);
      WithoutTwice(ps, q.id, id);
    case EventHostChanged(q) =>
      MarkWithout(early, q.id, id);
      MarkWithout(ps, q.id, id);
    case _ =>
  }

  // The remaining session fields are registers: each event overwrites some of them, and no
  // event reads a field that another event overwrites.

  function Registers(s: SessionState): SessionState {
    s.(participants := [])
  }

  lemma ClosingAbsorbs(s: SessionState, e: Event, t: int, b: Event, tb: int, te: int)
    requires e.EventSessionClosed?
    ensures Registers(SessionStep(SessionStep(SessionStep(s, e, t), b, tb), e, te))
            == Registers(SessionStep(SessionStep(s, b, tb), e, te))
  {
    hide Without, MarkHost, FindParticipant;
  }

  lemma SettingAbsorbs(s: SessionState, e: Event, t: int, b: Event, tb: int, te: int)
    requires e.EventSessionReactivated? || e.EventSessionExpiringSoon? || e.EventPaymentCompleted?
    ensures Registers(SessionStep(SessionStep(SessionStep(s, e, t), b, tb), e, te))
            == Registers(SessionStep(SessionStep(s, b, tb), e, te))
  {
    hide Without, MarkHost, FindParticipant;
  }

  lemma CancellationAbsorbs(s: SessionState, e: Event, t: int, b: Event, tb: int, te: int)
    requires e.EventPaymentCancelled?
    ensures Registers(SessionStep(SessionStep(SessionStep(s, e, t), b, tb), e, te))
            == Registers(SessionStep(SessionStep(s, b, tb), e, te))
  {
    hide Without, MarkHost, FindParticipant;
  }

  /** Any other event leaves the registers the same before and after a change of host. */
  lemma NewHostCommutes(s: SessionState, h: Participant, b: Event, t: int, tb: int)
    requires !b.EventHostChanged?
    ensures Registers(SessionStep(SessionStep(s, EventHostChanged(h), t), b, tb))
            == Registers(SessionStep(SessionStep(s, b, tb), EventHostChanged(h), t))
  {
    hide Without, MarkHost, FindParticipant;
  }

  lemma NewHostOverrides(s: SessionState, g: Participant, h: Participant, t: int, u: int)
    ensures Registers(SessionStep(SessionStep(s, EventHostChanged(g), t), EventHostChanged(h), u))
            == Registers(SessionStep(s, EventHostChanged(h), u))
  {
    hide Without, MarkHost, FindParticipant;
  }

  lemma NewHostAbsorbs(s: SessionState, e: Event, t: int, b: Event, tb: int, te: int)
    requires e.EventHostChanged?
    ensures Registers(SessionStep(SessionStep(SessionStep(s, e, t), b, tb), e, te))
            == Registers(SessionStep(SessionStep(s, b, tb), e, te))
  {
    hide SessionStep, Registers;
    var once := SessionStep(s, e, t);
    if b.EventHostChanged? {
      NewHostOverrides(s, e.host, b.host, t, tb);
      RegistersApart(SessionStep(once, b, tb), SessionStep(s, b, tb), e, te);
    } else {
      NewHostCommutes(s, e.host, b, t, tb);
      RegistersApart(SessionStep(once, b, tb), SessionStep(SessionStep(s, b, tb), e, t), e, te);
      NewHostOverrides(SessionStep(s, b, tb), e.host, e.host, t, te);
    }
  }

  lemma RegistersAbsorb(s: SessionState, e: Event, t: int, b: Event, tb: int, te: int)
    ensures Registers(SessionStep(SessionStep(SessionStep(s, e, t), b, tb), e, te))
            == Registers(SessionStep(SessionStep(s, b, tb), e, te))
  {
    if e.EventSessionClosed? {
      ClosingAbsorbs(s, e, t, b, tb, te);
    } else if e.EventSessionReactivated? || e.EventSessionExpiringSoon? || e.EventPaymentCompleted? {
      SettingAbsorbs(s, e, t, b, tb, te);
    } else if e.EventPaymentCancelled? {
      CancellationAbsorbs(s, e, t, b, tb, te);
    } else if e.EventHostChanged? {
      NewHostAbsorbs(s, e, t, b, tb, te);
    } else {
      InertOnRegisters(s, e, t);
      InertOnRegisters(SessionStep(s, b, tb), e, te);
      InertOnRegisters(SessionStep(SessionStep(s, e, t), b, tb), e, te);
      RegistersApart(SessionStep(s, e, t), s, b, tb);
    }
  }

  lemma InertOnRegisters(s: SessionState, e: Event, t: int)
    requires !e.EventSessionClosed? && !e.EventSessionReactivated? && !e.EventSessionExpiringSoon?
    requires !e.EventPaymentCompleted? && !e.EventPaymentCancelled? && !e.EventHostChanged?
    ensures Registers(SessionStep(s, e, t)) == Registers(s)
  {}

  lemma RegistersApart(s1: SessionState, s2: SessionState, b: Event, t: int)
    requires Registers(s1) == Registers(s2)
    ensures Registers(SessionStep(s1, b, t)) == Registers(SessionStep(s2, b, t))
  {}

  lemma ParticipantsOf(s: SessionState, e: Event, now: int)
    ensures SessionStep(s, e, now).participants == ParticipantsStep(s.participants, e)
  {}

  lemma SessionAbsorb(s: SessionState, e: Event, t: int, b: Event, tb: int, te: int)
    ensures SessionStep(SessionStep(SessionStep(s, e, t), b, tb), e, te) == SessionStep(SessionStep(s, b, tb), e, te)
  {
    var early, late := SessionStep(s, e, t), SessionStep(s, b, tb);
    var mid := SessionStep(early, b, tb);
    ParticipantsOf(s, e, t);
    ParticipantsOf(early, b, tb);
    ParticipantsOf(mid, e, te);
    ParticipantsOf(s, b, tb);
    ParticipantsOf(late, e, te);
    ParticipantsAbsorb(s.participants, e, b);
    RegistersAbsorb(s, e, t, b, tb, te);
    FromParts(SessionStep(mid, e, te), SessionStep(late, e, te));
  }

  lemma FromParts(a: SessionState, b: SessionState)
    requires a.participants == b.participants && Registers(a) == Registers(b)
    ensures a == b
  {}

  lemma SessionRepeat(s: SessionState, e: Event, t: int, te: int)
    ensures SessionStep(SessionStep(s, e, t), e, te) == SessionStep(s, e, te)
  {
    LastWriteTwice(s.participants, e);
  }

  lemma RequestAbsorbs(rs: seq<Assistance>, r: Assistance, b: Event)
    ensures AddRequest(AssistanceStep(AddRequest(rs, r), b), r) == AddRequest(AssistanceStep(rs, b), r)
  {
    var early := AddRequest(rs, r);
    RequestsTwice(rs, r.id, r.id);
    assert WithoutRequest(early, r.id) == WithoutRequest(rs, r.id) by {
      assert early[1..] == WithoutRequest(rs, r.id);
    }
    match b
    case EventAssistanceRequested(q) =>
      RequestsTwice(rs, r.id, q.id);
      RequestsTwice(early, r.id, q.id);
      assert ([q] + WithoutRequest(rs, q.id))[1..] == WithoutRequest(rs, q.id);
      assert ([q] + WithoutRequest(early, q.id))[1..] == WithoutRequest(early, q.id);
    case EventAssistanceStatus(status, id) =>
      StatusWithout(rs, id, status, r.id);
      StatusWithout(early, id, status, r.id);
    case _ =>
  }

  lemma StatusAbsorbs(rs: seq<Assistance>, id: int, status: AssistanceStatus, b: Event)
    ensures var early := SetRequestStatus(rs, id, status);
      SetRequestStatus(AssistanceStep(early, b), id, status) == SetRequestStatus(AssistanceStep(rs, b), id, status)
  {
    var early := SetRequestStatus(rs, id, status);
    StatusTwice(rs, id, status, id, status);
    match b
    case EventAssistanceRequested(q) =>
      StatusWithout(rs, id, status, q.id);
      StatusWithout(early, id, status, q.id);
      assert ([q] + WithoutRequest(rs, q.id))[1..] == WithoutRequest(rs, q.id);
      assert ([q] + WithoutRequest(early, q.id))[1..] == WithoutRequest(early, q.id);
    case EventAssistanceStatus(other, j) =>
      StatusTwice(early, j, other, id, status);
      StatusTwice(rs, j, other, id, status);
    case _ =>
  }

  lemma AssistanceAbsorb(rs: seq<Assistance>, e: Event, b: Event)
    ensures AssistanceStep(AssistanceStep(AssistanceStep(rs, e), b), e) == AssistanceStep(AssistanceStep(rs, b), e)
    ensures AssistanceStep(AssistanceStep(rs, e), e) == AssistanceStep(rs, e)
  {
    match e
    case EventAssistanceRequested(r) =>
      RequestAbsorbs(rs, r, b);
      RequestAbsorbs(rs, r, EventOther(""));
    case EventAssistanceStatus(status, id) =>
      StatusAbsorbs(rs, id, status, b);
      StatusAbsorbs(rs, id, status, EventOther(""));
    case _ =>
  }

  // ---------------------------------------------------------------- replay

  /** Everything but the orders, whose merge rule is not an overwrite. */
  function Overwritten(r: Replica): Replica {
    r.(orders := [])
  }

  /** If one event would bring two client states together, replaying a log that holds it does. */
  lemma {:induction false} ReplayMerges(r1: Replica, r2: Replica, e: Event, log: seq<Delivery>)
    requires Occurs(e, log)
    requires forall n :: Overwritten(Step(r1, e, n)) == Overwritten(Step(r2, e, n))
    ensures Overwritten(Fold(r1, log)) == Overwritten(Fold(r2, log))
    decreases |log|
  {
    var b := log[0];
    var s1, s2 := Step(r1, b.event, b.now), Step(r2, b.event, b.now);
    if b.event == e {
      assert Overwritten(s1) == Overwritten(s2);
      FoldIgnoresOrders(s1, s2, log[1..]);
    } else {
      var i :| 0 <= i < |log| && log[i].event == e;
      assert log[1..][i - 1].event == e;
      forall n ensures Overwritten(Step(s1, e, n)) == Overwritten(Step(s2, e, n)) {
        SessionAbsorb(r1.session, e, n, b.event, b.now, n);
        SessionAbsorb(r2.session, e, n, b.event, b.now, n);
        AssistanceAbsorb(r1.assistance, e, b.event);
        AssistanceAbsorb(r2.assistance, e, b.event);
        assert Overwritten(Step(r1, e, n)) == Overwritten(Step(r2, e, n));
      }
      ReplayMerges(s1, s2, e, log[1..]);
    }
  }

  lemma {:induction false} FoldIgnoresOrders(r1: Replica, r2: Replica, log: seq<Delivery>)
    requires Overwritten(r1) == Overwritten(r2)
    ensures Overwritten(Fold(r1, log)) == Overwritten(Fold(r2, log))
    decreases |log|
  {
    if log == [] {
    } else {
      FoldIgnoresOrders(Step(r1, log[0].event, log[0].now), Step(r2, log[0].event, log[0].now), log[1..]);
    }
  }

  /** Live deliveries followed by a replay of their log are the replay alone. */
  lemma {:induction false} ReplayAbsorbsLive(r: Replica, live: seq<Delivery>, log: seq<Delivery>)
    requires DrawnFrom(live, log)
    ensures Overwritten(Fold(Fold(r, live), log)) == Overwritten(Fold(r, log))
    decreases |live|
  {
    if live == [] {
    } else {
      var d := live[0];
      ReplayAbsorbsLive(Step(r, d.event, d.now), live[1..], log);
      assert d in live;
      forall n ensures Overwritten(Step(Step(r, d.event, d.now), d.event, n)) == Overwritten(Step(r, d.event, n)) {
        SessionRepeat(r.session, d.event, d.now, n);
        AssistanceAbsorb(r.assistance, d.event, d.event);
      }
      ReplayMerges(Step(r, d.event, d.now), r, d.event, log);
    }
  }

  /** Sessions, participants, host flag, payment registers and assistance converge exactly. */
  lemma ReplayConverges(r: Replica, before: seq<Delivery>, live: seq<Delivery>, missed: seq<Delivery>)
    requires DrawnFrom(live, missed)
    ensures Fold(r, before + live + missed).session == Fold(r, before + missed).session
    ensures Fold(r, before + live + missed).assistance == Fold(r, before + missed).assistance
  {
    FoldAppend(r, before + live, missed);
    FoldAppend(r, before, live);
    FoldAppend(r, before, missed);
    ReplayAbsorbsLive(Fold(r, before), live, missed);
  }
}

// What any sequence of events leaves in the session row, the pause flag and the host flags: for each
// the last event that writes it, or what was there.
module SessionFields {
  import opened Wrappers
  import opened Lifecycle
  import opened ClientState
  import opened Effects

  /** The status an event gives the session. */
  function StatusWrite(e: Event): Option<SessionStatus> {
    match e
    case EventSessionClosed => Some(SessionClosed)
    case EventPaymentCancelled(p, status) => if p.Some? then status else None
    case _ => None
  }

  /** What an event makes of the flag for a session being resumed. */
  function PauseWrite(e: Event): Option<bool> {
    match e
    case EventSessionClosed => Some(false)
    case EventSessionReactivated => Some(false)
    case _ => None
  }

  /** The participant an event makes host. */
  function HostWrite(e: Event): Option<int> {
    match e
    case EventHostChanged(p) => Some(p.id)
    case _ => None
  }

  /** The last write among some deliveries. */
  function Last<T>(write: Event -> Option<T>, log: seq<Delivery>): Option<T>
    decreases |log|
  {
    if log == [] then None
    else
      var later := Last(write, log[1..]);
      if later.Some? then later else write(log[0].event)
  }

  function Or<T>(x: Option<T>, otherwise: T): T {
    if x.Some? then x.value else otherwise
  }

  /** The session row and the flags after some deliveries, given what they were. */
  ghost predicate FieldsAfter(s: SessionState, t: SessionState, status: Option<SessionStatus>, paused: Option<bool>,
                              host: Option<int>) {
    && t.isReactivating == Or(paused, s.isReactivating)
    && (if s.session.None? then t.session == None
        else
          var row := s.session.value;
          t.session == Some(Session(row.id, Or(status, row.status),
                                    if host.Some? then host else row.hostParticipantId, row.details)))
    && (if s.participant.None? then t.participant == None
        else
          var own := s.participant.value;
          var flag := if host.Some? then host.value == own.id else own.isHost;
          t.participant == Some(Participant(own.id, flag, own.details)))
    && t.isHost == if host.None? then s.isHost else s.participant.Some? && s.participant.value.id == host.value
  }

  lemma FieldsOfEvent(s: SessionState, e: Event, now: int)
    ensures FieldsAfter(s, SessionStep(s, e, now), StatusWrite(e), PauseWrite(e), HostWrite(e))
  {}

  lemma FieldsChain(s: SessionState, t: SessionState, u: SessionState, st: Option<SessionStatus>,
                    st': Option<SessionStatus>, p: Option<bool>, p': Option<bool>,
                    h: Option<int>, h': Option<int>)
    requires FieldsAfter(s, t, st, p, h) && FieldsAfter(t, u, st', p', h')
    ensures FieldsAfter(s, u, if st'.Some? then st' else st, if p'.Some? then p' else p, if h'.Some? then h' else h)
  {}

  /** After any deliveries the session keeps its id and details, has the last status, pause flag and host
      written, and the client is host exactly as the last change of host says. */
  lemma {:induction false} FieldsAfterDeliveries(r: Replica, log: seq<Delivery>)
    ensures FieldsAfter(r.session, Fold(r, log).session, Last(StatusWrite, log), Last(PauseWrite, log),
                        Last(HostWrite, log))
    decreases |log|
  {
    if log == [] {
    } else {
      var e := log[0].event;
      var next := Step(r, e, log[0].now);
      FieldsOfEvent(r.session, e, log[0].now);
      FieldsAfterDeliveries(next, log[1..]);
      hide FieldsAfter, Step, StatusWrite, PauseWrite, HostWrite;
      FieldsChain(r.session, next.session, Fold(next, log[1..]).session,
                  StatusWrite(e), Last(StatusWrite, log[1..]), PauseWrite(e), Last(PauseWrite, log[1..]),
                  HostWrite(e), Last(HostWrite, log[1..]));
    }
  }

  /** A withdrawn payment that reports a status. */
  predicate ReportsStatus(e: Event) {
    e.EventPaymentCancelled? && e.cancelled.Some? && e.sessionStatus.Some?
  }

  lemma {:induction false} NoReport(log: seq<Delivery>)
    requires forall d | d in log :: !ReportsStatus(d.event)
    ensures Last(StatusWrite, log) in {None, Some(SessionClosed)} && Last(PauseWrite, log) in {None, Some(false)}
    decreases |log|
  {
    if log == [] {
    } else {
      assert log[0] in log && forall d | d in log[1..] :: d in log;
      NoReport(log[1..]);
    }
  }

  lemma {:induction false} LastAppend<T>(write: Event -> Option<T>, a: seq<Delivery>, b: seq<Delivery>)
    ensures Last(write, a + b) == if Last(write, b).Some? then Last(write, b) else Last(write, a)
    decreases |a|
  {
    if a == [] {
      assert a + b == b;
    } else {
      assert (a + b)[1..] == a[1..] + b;
      LastAppend(write, a[1..], b);
    }
  }

  /** A session whose closing was delivered stays closed, whatever comes after, unless a withdrawn payment
      reports another status; nothing ever pauses it again. */
  lemma ClosedStaysClosed(r: Replica, before: seq<Delivery>, now: int, after: seq<Delivery>)
    requires r.session.session.Some? && forall d | d in after :: !ReportsStatus(d.event)
    ensures var t := Fold(r, before + [Delivery(EventSessionClosed, now)] + after).session;
      && t.session.Some? && t.session.value.status == SessionClosed && !t.isReactivating
      && t.session.value.id == r.session.session.value.id && t.session.value.details == r.session.session.value.details
  {
    var closed := [Delivery(EventSessionClosed, now)];
    FieldsAfterDeliveries(r, before + closed + after);
    NoReport(after);
    LastAppend(StatusWrite, before + closed, after);
    LastAppend(StatusWrite, before, closed);
    LastAppend(PauseWrite, before + closed, after);
    LastAppend(PauseWrite, before, closed);
    assert closed[1..] == [];
    assert Last(StatusWrite, closed) == Some(SessionClosed) && Last(PauseWrite, closed) == Some(false);
  }
}

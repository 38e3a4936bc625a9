// The client asks for the events after the highest sequence number it has seen. An event that
// was lost below that cursor is never replayed; the snapshot that comes with the replay makes
// up for it, except in three session fields that no snapshot carries.
module CursorReplay {
  import opened Wrappers
  import opened Lifecycle
  import opened ClientState
  import opened Stores

  /** The session fields that a snapshot leaves as they are. */
  datatype Register = CompletedPayment | CancelledPayment | ExpiringAt
  datatype Content = OfPayment(payment: Option<Payment>) | OfMoment(moment: Option<int>)

  function Read(reg: Register, s: SessionState): Content {
    match reg
    case CompletedPayment => OfPayment(s.completedPayment)
    case CancelledPayment => OfPayment(s.cancelledPayment)
    case ExpiringAt => OfMoment(s.sessionExpiringAt)
  }

  /** The value an event leaves in a register, if it writes it. */
  function Write(reg: Register, e: Event, now: int): Option<Content> {
    match (reg, e)
    case (CompletedPayment, EventPaymentCompleted(p)) => Some(OfPayment(Some(p)))
    case (CancelledPayment, EventPaymentCancelled(p, _)) => if p.Some? then Some(OfPayment(p)) else None
    case (ExpiringAt, EventSessionExpiringSoon(at)) =>
      Some(OfMoment(if at.Some? then at else Some(now + EXPIRY_WARNING_MS)))
    case (ExpiringAt, EventSessionClosed) => Some(OfMoment(None))
    case _ => None
  }

  /** What the last write among some deliveries leaves in a register. */
  function LastWrite(reg: Register, ds: seq<Timed>): Option<Content>
    decreases |ds|
  {
    if ds == [] then None
    else
      var later := LastWrite(reg, ds[1..]);
      if later.Some? then later else Write(reg, ds[0].env.event, ds[0].now)
  }

  function Or(x: Option<Content>, fallback: Content): Content {
    if x.Some? then x.value else fallback
  }

  lemma {:induction false} RegisterAfter(reg: Register, c: Connection, ds: seq<Timed>)
    ensures Read(reg, ReceiveAll(c, ds).replica.session) == Or(LastWrite(reg, ds), Read(reg, c.replica.session))
    decreases |ds|
  {
    if ds == [] {
    } else {
      RegisterStep(reg, c.replica.session, ds[0].env.event, ds[0].now);
      RegisterAfter(reg, Receive(c, ds[0].env, ds[0].now), ds[1..]);
    }
  }

  lemma RegisterStep(reg: Register, s: SessionState, e: Event, now: int)
    ensures Read(reg, SessionStep(s, e, now)) == Or(Write(reg, e, now), Read(reg, s))
  {}

  // ---------------------------------------------------------------- live delivery

  /** Live deliveries of log entries, each numbered by its place in the log, at any moments, in any
      order and any number of times. */
  predicate FromLog(live: seq<Timed>, log: seq<Event>) {
    forall d | d in live ::
      && d.env.sequence.Some? && 0 < d.env.sequence.value <= |log|
      && d.env.event == log[d.env.sequence.value - 1]
  }

  /** The cursor ends at the highest number delivered, or where it was. */
  lemma {:induction false} CursorTracksHighest(c: Connection, log: seq<Event>, live: seq<Timed>)
    requires FromLog(live, log)
    ensures var cursor := ReceiveAll(c, live).lastSequence;
      && c.lastSequence <= cursor
      && (forall d | d in live :: d.env.sequence.value <= cursor)
      && (cursor == c.lastSequence || exists d | d in live :: d.env.sequence.value == cursor)
    decreases |live|
  {
    if live == [] {
    } else {
      assert forall d | d in live[1..] :: d in live;
      CursorTracksHighest(Receive(c, live[0].env, live[0].now), log, live[1..]);
      assert forall d | d in live :: d == live[0] || d in live[1..];
    }
  }

  lemma {:induction false} DeliveryKeepsFlags(c: Connection, ds: seq<Timed>)
    ensures var d := ReceiveAll(c, ds);
      d.stopped == c.stopped && d.attemptCount == c.attemptCount && d.status == c.status
    decreases |ds|
  {
    if ds == [] {
    } else {
      DeliveryKeepsFlags(Receive(c, ds[0].env, ds[0].now), ds[1..]);
    }
  }

  // ---------------------------------------------------------------- the server's side

  /** The envelopes with sequence numbers from + 1 to upto. */
  function Stretch(log: seq<Event>, from: nat, upto: nat): (envs: seq<Envelope>)
    requires from <= upto <= |log|
    ensures |envs| == upto - from
    ensures forall i | 0 <= i < |envs| :: envs[i] == Envelope(Some(from + i + 1), log[from + i])
  {
    seq(upto - from, i requires 0 <= i < upto - from => Envelope(Some(from + i + 1), log[from + i]))
  }

  const REPLAY_LIMIT := 500

  /** How far into the log the server replays for a client whose cursor it is told. */
  function ReplayEnd(log: seq<Event>, cursor: nat): (upto: nat)
    requires cursor <= |log|
    ensures cursor <= upto <= |log|
  {
    if cursor == 0 then 0 else if |log| <= cursor + REPLAY_LIMIT then |log| else cursor + REPLAY_LIMIT
  }

  ghost predicate Live(snap: Snapshot) {
    snap.session.status == SessionActive || snap.session.status == SessionPaymentPending
  }

  /** The snapshot of a live session, as the server builds it from its whole log: without a cursor
      nothing is replayed and the snapshot is declared authoritative. */
  ghost predicate Served(snap: Snapshot, log: seq<Event>, cursor: nat) {
    && Live(snap)
    && cursor <= |log|
    && snap.missedEvents == Stretch(log, cursor, ReplayEnd(log, cursor))
    && snap.authoritative == (cursor == 0)
  }

  lemma {:induction false} ReplayEnds(c: Connection, snap: Snapshot, clock: nat -> int)
    requires !c.stopped && 0 <= c.lastSequence
    requires Live(snap)
    requires snap.authoritative ==> snap.missedEvents == []
    ensures var after := AfterReconnect(c, Some(snap), clock);
      after.replica == Reconcile(ReceiveAll(c, Clocked(snap.missedEvents, clock)).replica, snap)
  {}

  // ---------------------------------------------------------------- which write counts

  /** The value written depends on when the event is handled. */
  predicate StampedOnArrival(reg: Register, e: Event) {
    reg == ExpiringAt && e.EventSessionExpiringSoon? && e.expiresAt.None?
  }

  predicate Writes(reg: Register, e: Event) {
    Write(reg, e, 0).Some?
  }

  /** The last place in a stretch of the log that writes a register. */
  function LastWriter(reg: Register, log: seq<Event>, from: nat, upto: nat): (k: Option<nat>)
    requires from <= upto <= |log|
    ensures k.Some? ==> from <= k.value < upto && Writes(reg, log[k.value])
    ensures forall i | from <= i < upto && Writes(reg, log[i]) :: k.Some? && i <= k.value
    decreases upto
  {
    if from == upto then None
    else if Writes(reg, log[upto - 1]) then Some(upto - 1)
    else LastWriter(reg, log, from, upto - 1)
  }

  lemma {:induction false} LastWriteSnoc(reg: Register, ds: seq<Timed>, d: Timed)
    ensures LastWrite(reg, ds + [d]) ==
      if Writes(reg, d.env.event) then Write(reg, d.env.event, d.now) else LastWrite(reg, ds)
    decreases |ds|
  {
    if ds == [] {
      assert [] + [d] == [d] && [d][1..] == [];
    } else {
      assert (ds + [d])[1..] == ds[1..] + [d];
      LastWriteSnoc(reg, ds[1..], d);
    }
  }

  /** A clock by place in the log, counted from a place on. */
  function From(at: nat -> int, from: nat): nat -> int {
    (i: nat) => at(from + i)
  }

  /** The entries of a stretch of the log, each handled when the clock for its place says. */
  function Heard(log: seq<Event>, from: nat, upto: nat, at: nat -> int): (ds: seq<Timed>)
    requires from <= upto <= |log|
  {
    Clocked(Stretch(log, from, upto), From(at, from))
  }

  /** What the one entry that counts leaves, if there is one. */
  function Left(reg: Register, log: seq<Event>, from: nat, upto: nat, at: nat -> int): Option<Content>
    requires from <= upto <= |log|
  {
    var k := LastWriter(reg, log, from, upto);
    if k.Some? then Write(reg, log[k.value], at(k.value)) else None
  }

  lemma {:induction false} LastWriterWrites(reg: Register, log: seq<Event>, from: nat, upto: nat, at: nat -> int)
    requires from <= upto <= |log|
    ensures LastWrite(reg, Heard(log, from, upto, at)) == Left(reg, log, from, upto, at)
    decreases upto
  {
    if from < upto {
      LastWriterWrites(reg, log, from, upto - 1, at);
      var before := Heard(log, from, upto - 1, at);
      var last := Timed(Envelope(Some(upto), log[upto - 1]), at(upto - 1));
      assert Heard(log, from, upto, at) == before + [last];
      LastWriteSnoc(reg, before, last);
    }
  }

  lemma {:induction false} LastWriterSplits(reg: Register, log: seq<Event>, from: nat, mid: nat, upto: nat)
    requires from <= mid <= upto <= |log|
    ensures LastWriter(reg, log, from, upto) ==
      var late := LastWriter(reg, log, mid, upto);
      if late.Some? then late else LastWriter(reg, log, from, mid)
  {
    var whole, late := LastWriter(reg, log, from, upto), LastWriter(reg, log, mid, upto);
    var early := LastWriter(reg, log, from, mid);
    if whole.Some? && whole.value >= mid {
      assert late.Some? && whole.value <= late.value <= whole.value;
    }
  }

  /** Handling an event at two moments writes the same exactly when it is not stamped on arrival or
      the moments are the same. */
  lemma SameWrite(reg: Register, e: Event, t: int, u: int)
    requires Writes(reg, e)
    ensures Write(reg, e, t).Some? && Write(reg, e, u).Some?
    ensures Write(reg, e, t) == Write(reg, e, u) <==> !StampedOnArrival(reg, e) || t == u
  {}

  // ---------------------------------------------------------------- the three registers

  /** What a register holds after live deliveries, a reconnect and the server's replay; `replayed` is
      the clock, by place in the log, when a replayed event is handled. */
  function HeldAfter(reg: Register, c: Connection, live: seq<Timed>, snap: Snapshot, replayed: nat -> int): Content
    requires 0 <= ReceiveAll(c, live).lastSequence
  {
    var got := ReceiveAll(c, live);
    Read(reg, AfterReconnect(got, Some(snap), From(replayed, got.lastSequence)).replica.session)
  }

  /** What a client holds that handled every event past c's cursor once, in turn. */
  function HeldByAll(reg: Register, c: Connection, log: seq<Event>, heard: nat -> int): Content
    requires 0 <= c.lastSequence <= |log|
  {
    Read(reg, ReceiveAll(c, Heard(log, c.lastSequence, |log|, heard)).replica.session)
  }

  lemma HeldParts(reg: Register, c: Connection, log: seq<Event>, live: seq<Timed>, snap: Snapshot, replayed: nat -> int)
    requires !c.stopped && 0 <= c.lastSequence && FromLog(live, log)
    requires 0 <= ReceiveAll(c, live).lastSequence && Served(snap, log, ReceiveAll(c, live).lastSequence)
    ensures var cursor := ReceiveAll(c, live).lastSequence;
      HeldAfter(reg, c, live, snap, replayed) ==
      Or(Left(reg, log, cursor, ReplayEnd(log, cursor), replayed),
         Or(LastWrite(reg, live), Read(reg, c.replica.session)))
  {
    var got := ReceiveAll(c, live);
    var cursor := got.lastSequence;
    var upto := ReplayEnd(log, cursor);
    var clock := From(replayed, cursor);
    DeliveryKeepsFlags(c, live);
    ReplayEnds(got, snap, clock);
    assert Clocked(snap.missedEvents, clock) == Heard(log, cursor, upto, replayed);
    RegisterAfter(reg, c, live);
    RegisterAfter(reg, got, Heard(log, cursor, upto, replayed));
    LastWriterWrites(reg, log, cursor, upto, replayed);
    SnapshotLeavesRegister(reg, ReceiveAll(got, Heard(log, cursor, upto, replayed)).replica.session, snap);
  }

  /** The cases in which replay past a cursor makes up for everything a register missed. When the log's
      last write past the cursor is replayed: if that event carries its own value, or is handled at the
      same moment. When it lies beyond the server's limit: if the last write before the limit, or else
      the last live one, leaves the same. When there is none: if the last live write leaves what the
      last write up to the cursor leaves. */
  ghost predicate Repaired(reg: Register, c: Connection, log: seq<Event>, live: seq<Timed>, cursor: nat,
                           replayed: nat -> int, heard: nat -> int)
    requires 0 <= c.lastSequence <= cursor <= |log|
  {
    var upto, liveContent := ReplayEnd(log, cursor), Or(LastWrite(reg, live), Read(reg, c.replica.session));
    match LastWriter(reg, log, cursor, |log|)
    case Some(k) =>
      if k < upto then !StampedOnArrival(reg, log[k]) || replayed(k) == heard(k)
      else Or(Left(reg, log, cursor, upto, replayed), liveContent) == Or(Write(reg, log[k], heard(k)), liveContent)
    case None =>
      liveContent == Or(Left(reg, log, c.lastSequence, cursor, heard), Read(reg, c.replica.session))
  }

  /** A client sees some live events at various moments, reconnects, and is handed the log past its
      cursor, as far as the server replays. A register then holds what a client that missed nothing
      holds in exactly those cases. */
  lemma CursorReplayExact(reg: Register, c: Connection, log: seq<Event>, live: seq<Timed>, snap: Snapshot,
                          replayed: nat -> int, heard: nat -> int)
    requires !c.stopped && 0 <= c.lastSequence <= |log| && FromLog(live, log)
    requires 0 <= ReceiveAll(c, live).lastSequence && Served(snap, log, ReceiveAll(c, live).lastSequence)
    ensures c.lastSequence <= ReceiveAll(c, live).lastSequence
    ensures HeldAfter(reg, c, live, snap, replayed) == HeldByAll(reg, c, log, heard)
            <==> Repaired(reg, c, log, live, ReceiveAll(c, live).lastSequence, replayed, heard)
  {
    hide LastWrite, Write, Writes, StampedOnArrival, HeldAfter, ReceiveAll, Read, Heard, FromLog, LastWriter, Stretch,
      Clocked;
    var start, cursor := Read(reg, c.replica.session), ReceiveAll(c, live).lastSequence;
    var upto := ReplayEnd(log, cursor);
    CursorTracksHighest(c, log, live);
    HeldParts(reg, c, log, live, snap, replayed);
    RegisterAfter(reg, c, Heard(log, c.lastSequence, |log|, heard));
    LastWriterWrites(reg, log, c.lastSequence, |log|, heard);
    LastWriterSplits(reg, log, c.lastSequence, cursor, |log|);
    LastWriterSplits(reg, log, cursor, upto, |log|);
    var k := LastWriter(reg, log, cursor, |log|);
    if k.Some? {
      SameWrite(reg, log[k.value], replayed(k.value), heard(k.value));
    }
    var early := LastWriter(reg, log, cursor, upto);
    if early.Some? {
      SameWrite(reg, log[early.value], replayed(early.value), 0);
    }
  }

  lemma SnapshotLeavesRegister(reg: Register, s: SessionState, snap: Snapshot)
    ensures Read(reg, s.SetFromSnapshot(snap.session, snap.participants)) == Read(reg, s)
  {}

  /** What can happen to a client: an envelope arrives, or a reconnect attempt runs when the server's
      log has `known` entries. */
  datatype Happening =
    | Arrives(delivery: Timed)
    | Reconnects(fetched: Option<Snapshot>, known: nat, clock: nat -> int)

  function After(c: Connection, h: Happening): Connection {
    match h
    case Arrives(d) => Receive(c, d.env, d.now)
    case Reconnects(fetched, _, clock) => AfterReconnect(c, fetched, clock)
  }

  function AfterAll(c: Connection, hs: seq<Happening>): Connection
    decreases |hs|
  {
    if hs == [] then c else AfterAll(After(c, hs[0]), hs[1..])
  }

  /** Live deliveries come from the log past `from`, and snapshots of a live session are the server's. */
  ghost predicate Possible(c: Connection, log: seq<Event>, from: nat, h: Happening) {
    match h
    case Arrives(d) => FromLog([d], log) && d.env.sequence.value > from
    case Reconnects(fetched, known, _) =>
      fetched.Some? && Live(fetched.value) ==>
        known <= |log| && 0 <= c.lastSequence && Served(fetched.value, log[..known], c.lastSequence)
  }

  ghost predicate AllPossible(c: Connection, log: seq<Event>, from: nat, hs: seq<Happening>)
    decreases |hs|
  {
    hs == [] || (Possible(c, log, from, hs[0]) && AllPossible(After(c, hs[0]), log, from, hs[1..]))
  }

  /** No event past `from` completes a payment. */
  predicate NoPaymentAfter(log: seq<Event>, from: nat) {
    forall k | from <= k < |log| :: !log[k].EventPaymentCompleted?
  }

  lemma {:induction false} QuietDeliveries(c: Connection, ds: seq<Timed>)
    requires c.replica.session.completedPayment == None
    requires forall d | d in ds :: !d.env.event.EventPaymentCompleted?
    ensures ReceiveAll(c, ds).replica.session.completedPayment == None
    decreases |ds|
  {
    if ds == [] {
    } else {
      assert ds[0] in ds && forall d | d in ds[1..] :: d in ds;
      QuietDeliveries(Receive(c, ds[0].env, ds[0].now), ds[1..]);
    }
  }

  lemma {:induction false} CursorOnlyGrows(c: Connection, ds: seq<Timed>)
    ensures c.lastSequence <= ReceiveAll(c, ds).lastSequence
    decreases |ds|
  {
    if ds == [] {
    } else {
      CursorOnlyGrows(Receive(c, ds[0].env, ds[0].now), ds[1..]);
    }
  }

  lemma QuietReconnect(c: Connection, log: seq<Event>, from: nat, snap: Snapshot, clock: nat -> int)
    requires 0 < from <= c.lastSequence && c.replica.session.completedPayment == None && NoPaymentAfter(log, from)
    requires Live(snap) && Served(snap, log, c.lastSequence)
    ensures var after := AfterReconnect(c, Some(snap), clock);
      from <= after.lastSequence && after.replica.session.completedPayment == None
  {
    var replay := Clocked(snap.missedEvents, clock);
    forall d | d in replay ensures !d.env.event.EventPaymentCompleted? {
      var i :| 0 <= i < |replay| && replay[i] == d;
      assert d.env.event == log[c.lastSequence + i];
    }
    QuietDeliveries(c, replay);
    CursorOnlyGrows(c, replay);
  }

  lemma QuietHappening(c: Connection, log: seq<Event>, from: nat, h: Happening)
    requires 0 < from <= c.lastSequence && c.replica.session.completedPayment == None && NoPaymentAfter(log, from)
    requires Possible(c, log, from, h)
    ensures from <= After(c, h).lastSequence && After(c, h).replica.session.completedPayment == None
  {
    match h
    case Arrives(d) => assert d in [d];
    case Reconnects(fetched, known, clock) =>
      if fetched.Some? && Live(fetched.value) {
        assert NoPaymentAfter(log[..known], from);
        QuietReconnect(c, log[..known], from, fetched.value, clock);
      }
  }

  /** A client whose cursor is past every completed payment and that shows none never will, whatever
      arrives and however often it reconnects. */
  lemma {:induction false} NeverShown(c: Connection, log: seq<Event>, from: nat, hs: seq<Happening>)
    requires 0 < from <= c.lastSequence && c.replica.session.completedPayment == None && NoPaymentAfter(log, from)
    requires AllPossible(c, log, from, hs)
    ensures AfterAll(c, hs).replica.session.completedPayment == None
    decreases |hs|
  {
    if hs == [] {
    } else {
      QuietHappening(c, log, from, hs[0]);
      NeverShown(After(c, hs[0]), log, from, hs[1..]);
    }
  }

  /** A payment completed while a later event was already on screen is never shown, as long as no other
      payment is completed: the cursor is past it, and no snapshot carries it. A client that heard
      everything shows it. */
  lemma LostPaymentStaysLost(p: Payment, other: Participant, more: seq<Event>, c: Connection, now: int,
                             later: seq<Happening>, heard: nat -> int)
    requires c.lastSequence == 0 && c.replica.session.completedPayment == None && NoPaymentAfter(more, 0)
    requires var log := [EventPaymentCompleted(p), EventParticipantJoined(other)] + more;
      AllPossible(Receive(c, Envelope(Some(2), log[1]), now), log, 2, later)
    ensures var log := [EventPaymentCompleted(p), EventParticipantJoined(other)] + more;
      && AfterAll(Receive(c, Envelope(Some(2), log[1]), now), later).replica.session.completedPayment == None
      && HeldByAll(CompletedPayment, c, log, heard) == OfPayment(Some(p))
  {
    var log := [EventPaymentCompleted(p), EventParticipantJoined(other)] + more;
    var got := Receive(c, Envelope(Some(2), log[1]), now);
    forall k | 2 <= k < |log| ensures !log[k].EventPaymentCompleted? {
      assert log[k] == more[k - 2];
    }
    NeverShown(got, log, 2, later);
    RegisterAfter(CompletedPayment, c, Heard(log, 0, |log|, heard));
    LastWriterWrites(CompletedPayment, log, 0, |log|, heard);
    assert Writes(CompletedPayment, log[0]);
    forall k | 0 < k < |log| ensures !Writes(CompletedPayment, log[k]) {}
    assert LastWriter(CompletedPayment, log, 0, |log|) == Some(0);
  }

  /** An expiry warning without a date, missed live and replayed later, gives a later deadline than
      it gave a client that heard it at once. */
  lemma UndatedWarningDrifts(c: Connection, first: Event, snap: Snapshot, replayed: nat -> int, heard: nat -> int)
    requires !c.stopped && c.lastSequence == 1 && replayed(1) > heard(1)
    requires Served(snap, [first, EventSessionExpiringSoon(None)], 1)
    ensures var log := [first, EventSessionExpiringSoon(None)];
      && HeldAfter(ExpiringAt, c, [], snap, replayed) == OfMoment(Some(replayed(1) + EXPIRY_WARNING_MS))
      && HeldByAll(ExpiringAt, c, log, heard) == OfMoment(Some(heard(1) + EXPIRY_WARNING_MS))
  {
    var log := [first, EventSessionExpiringSoon(None)];
    HeldParts(ExpiringAt, c, log, [], snap, replayed);
    RegisterAfter(ExpiringAt, c, Heard(log, 1, 2, heard));
    LastWriterWrites(ExpiringAt, log, 1, 2, heard);
    assert Writes(ExpiringAt, log[1]);
  }

  // ---------------------------------------------------------------- what the snapshot heals

  function Healed(s: SessionState): SessionState {
    s.(completedPayment := None, cancelledPayment := None, sessionExpiringAt := None)
  }

  ghost predicate SameGuest(a: SessionState, b: SessionState) {
    a.participant.Some? && b.participant.Some? && a.participant.value.id == b.participant.value.id
  }

  lemma {:induction false} GuestUnchanged(c: Connection, ds: seq<Timed>)
    requires c.replica.session.participant.Some?
    ensures SameGuest(c.replica.session, ReceiveAll(c, ds).replica.session)
    decreases |ds|
  {
    if ds == [] {
    } else {
      GuestUnchanged(Receive(c, ds[0].env, ds[0].now), ds[1..]);
    }
  }

  /** Two clients of the same listed guest, whatever each has lost, repeated or reordered, agree
      after a reconnect on everything but those three registers. */
  lemma ReconnectHeals(c: Connection, d: Connection, snap: Snapshot, snap': Snapshot, clock: nat -> int,
                       clock': nat -> int)
    requires !c.stopped && !d.stopped && SameGuest(c.replica.session, d.replica.session)
    requires Live(snap) && FindParticipant(snap.participants, c.replica.session.participant.value.id).Some?
    requires snap' == snap.(missedEvents := snap'.missedEvents, authoritative := snap'.authoritative)
    ensures var a, b := AfterReconnect(c, Some(snap), clock).replica, AfterReconnect(d, Some(snap'), clock').replica;
      && a.orders == b.orders == snap.orders && a.assistance == b.assistance == snap.assistance
      && Healed(a.session) == Healed(b.session)
  {
    GuestUnchanged(c, Clocked(snap.missedEvents, clock));
    GuestUnchanged(d, Clocked(snap'.missedEvents, clock'));
  }

  lemma SameReplica(a: Replica, b: Replica)
    requires a.orders == b.orders && a.assistance == b.assistance && Healed(a.session) == Healed(b.session)
    ensures a == b <==> forall reg :: Read(reg, a.session) == Read(reg, b.session)
  {
    if forall reg :: Read(reg, a.session) == Read(reg, b.session) {
      assert Read(CompletedPayment, a.session) == Read(CompletedPayment, b.session);
      assert Read(CancelledPayment, a.session) == Read(CancelledPayment, b.session);
      assert Read(ExpiringAt, a.session) == Read(ExpiringAt, b.session);
    }
  }

  /** After the reconnect the whole replica is that of a client that missed nothing and took the same
      snapshot, exactly when all three registers are repaired. */
  lemma ReconnectedReplica(c: Connection, log: seq<Event>, live: seq<Timed>, snap: Snapshot, replayed: nat -> int,
                           heard: nat -> int)
    requires !c.stopped && 0 <= c.lastSequence <= |log| && FromLog(live, log)
    requires 0 <= ReceiveAll(c, live).lastSequence && Served(snap, log, ReceiveAll(c, live).lastSequence)
    requires c.replica.session.participant.Some?
    requires FindParticipant(snap.participants, c.replica.session.participant.value.id).Some?
    ensures c.lastSequence <= ReceiveAll(c, live).lastSequence
    ensures var got := ReceiveAll(c, live);
      AfterReconnect(got, Some(snap), From(replayed, got.lastSequence)).replica
      == Reconcile(ReceiveAll(c, Heard(log, c.lastSequence, |log|, heard)).replica, snap)
      <==> forall reg :: Repaired(reg, c, log, live, got.lastSequence, replayed, heard)
  {
    var got, all := ReceiveAll(c, live), ReceiveAll(c, Heard(log, c.lastSequence, |log|, heard));
    var clock := From(replayed, got.lastSequence);
    var replay := Clocked(snap.missedEvents, clock);
    CursorTracksHighest(c, log, live);
    DeliveryKeepsFlags(c, live);
    ReplayEnds(got, snap, clock);
    GuestUnchanged(c, live);
    GuestUnchanged(got, replay);
    GuestUnchanged(c, Heard(log, c.lastSequence, |log|, heard));
    var a, b := Reconcile(ReceiveAll(got, replay).replica, snap), Reconcile(all.replica, snap);
    SameReplica(a, b);
    forall reg
      ensures Read(reg, a.session) == Read(reg, b.session)
              <==> Repaired(reg, c, log, live, got.lastSequence, replayed, heard)
    {
      CursorReplayExact(reg, c, log, live, snap, replayed, heard);
      SnapshotLeavesRegister(reg, all.replica.session, snap);
    }
  }
}

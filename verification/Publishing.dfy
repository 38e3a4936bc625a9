// The event publisher: append to the durable log first, then send. Calls run concurrently and
// either half may fail, so the log is the truth and the wire is a shuffled part of it.
module Publishing {
  import opened Wrappers
  import opened ClientState
  import opened Convergence
  import opened OrderReplay
  import Stores
  import CursorReplay

  datatype Stored = Stored(sequence: nat, event: Event)

  /** `waiting` holds what has been appended by calls that have not tried to send yet. */
  datatype System = System(log: seq<Stored>, waiting: set<Stored>, sent: seq<Stored>, lost: seq<Stored>)

  const START := System([], {}, [], [])

  datatype Half = Append(event: Event, ok: bool) | Send(env: Stored, ok: bool)

  function Advance(s: System, h: Half): System {
    match h
    case Append(event, ok) =>
      if !ok then s
      else
        var env := Stored(|s.log| + 1, event);
        s.(log := s.log + [env], waiting := s.waiting + {env})
    case Send(env, ok) =>
      if env !in s.waiting then s
      else if ok then s.(waiting := s.waiting - {env}, sent := s.sent + [env])
      else s.(waiting := s.waiting - {env}, lost := s.lost + [env])
  }

  /** Any interleaving of the halves of any number of publish calls. */
  function Run(s: System, halves: seq<Half>): System
    decreases |halves|
  {
    if halves == [] then s else Run(Advance(s, halves[0]), halves[1..])
  }

  lemma TwoHalves(s: System, a: Half, b: Half)
    ensures Run(s, [a, b]) == Advance(Advance(s, a), b)
  {
    assert [a, b][1..] == [b] && [b][1..] == [];
    assert Run(s, [a, b]) == Run(Advance(s, a), [b]) == Run(Advance(Advance(s, a), b), []);
  }

  datatype Outcome = Ok | AppendError | EncodeError | PublishError

  class Publisher {
    const wired: bool      // a Redis client is present
    const hasStore: bool   // an event store is present
    var system: System
    var unlogged: seq<Event>
    var outcomes: map<Outcome, nat>

    constructor (wired: bool, hasStore: bool)
      ensures this.wired == wired && this.hasStore == hasStore
      ensures system == START && unlogged == [] && outcomes == map[]
    {
      this.wired, this.hasStore := wired, hasStore;
      system, unlogged, outcomes := START, [], map[];
    }

    function Count(o: Outcome): nat
      reads this
    {
      if o in outcomes then outcomes[o] else 0
    }

    /** `built` says whether appending (or, without a store, encoding) succeeds. */
    method Publish(event: Event, built: bool, delivered: bool)
      modifies this
      ensures !wired ==> system == old(system) && unlogged == old(unlogged) && outcomes == old(outcomes)
      ensures wired && hasStore ==> unlogged == old(unlogged)
      ensures wired && hasStore && !built ==> system == old(system)
      ensures wired && hasStore && built ==>
        system == Run(old(system), [Append(event, true), Send(Stored(|old(system).log| + 1, event), delivered)])
      ensures wired && hasStore && built ==>
        var env := Stored(|old(system).log| + 1, event);
        && system.log == old(system).log + [env] && env !in system.waiting
        && system.sent == old(system).sent + (if delivered then [env] else [])
        && system.lost == old(system).lost + (if delivered then [] else [env])
      ensures wired && !hasStore ==> system == old(system)
      ensures wired && !hasStore ==> unlogged == old(unlogged) + if built && delivered then [event] else []
      ensures wired ==>
        var o := if !built then (if hasStore then AppendError else EncodeError)
                 else if delivered then Ok else PublishError;
        outcomes == old(outcomes)[o := old(Count(o)) + 1]
    {
      if !wired {
        return;
      }
      var outcome := Ok;
      if hasStore {
        if built {
          var env := Stored(|system.log| + 1, event);
          TwoHalves(system, Append(event, true), Send(env, delivered));
          system := Advance(system, Append(event, true));
          system := Advance(system, Send(env, delivered));
          outcome := if delivered then Ok else PublishError;
        } else {
          outcome := AppendError;
        }
      } else if built {
        if delivered {
          unlogged := unlogged + [event];
        } else {
          outcome := PublishError;
        }
      } else {
        outcome := EncodeError;
      }
      outcomes := outcomes[outcome := Count(outcome) + 1];
    }
  }

  // ---------------------------------------------------------------- append before send

  ghost predicate Accounted(s: System) {
    && (forall i | 0 <= i < |s.log| :: s.log[i].sequence == i + 1)
    && multiset(s.log) == multiset(s.sent) + multiset(s.lost) + multiset(s.waiting)
  }

  lemma AppendKeepsAccount(s: System, event: Event)
    requires Accounted(s)
    ensures Accounted(Advance(s, Append(event, true)))
  {
    var env := Stored(|s.log| + 1, event);
    var t := Advance(s, Append(event, true));
    assert env !in s.log;
    assert env !in multiset(s.log);
    assert multiset(t.waiting) == multiset(s.waiting) + multiset{env};
  }

  lemma SendKeepsAccount(s: System, env: Stored, ok: bool)
    requires Accounted(s)
    ensures Accounted(Advance(s, Send(env, ok)))
  {
    if env in s.waiting {
      assert multiset(s.waiting) == multiset(s.waiting - {env}) + multiset{env};
      assert multiset(s.sent + [env]) == multiset(s.sent) + multiset{env};
      assert multiset(s.lost + [env]) == multiset(s.lost) + multiset{env};
    }
  }

  lemma AdvanceKeepsAccount(s: System, h: Half)
    requires Accounted(s)
    ensures Accounted(Advance(s, h))
  {
    match h
    case Append(event, ok) =>
      if ok {
        AppendKeepsAccount(s, event);
      }
    case Send(env, ok) => SendKeepsAccount(s, env, ok);
  }

  lemma {:induction false} Multiplicities(log: seq<Stored>, env: Stored)
    requires forall i | 0 <= i < |log| :: log[i].sequence == i + 1
    ensures multiset(log)[env] <= 1
    decreases |log|
  {
    if log == [] {
    } else {
      var front := log[..|log| - 1];
      assert log == front + [log[|log| - 1]];
      Multiplicities(front, env);
      if env == log[|log| - 1] {
        assert env !in front;
        assert multiset(front)[env] == 0;
      }
    }
  }

  /** At every moment each logged envelope is sent once, lost once or still waiting, and
      nothing else has been sent. */
  lemma {:induction false} SentIsLogged(halves: seq<Half>, s: System)
    requires Accounted(s)
    ensures var t := Run(s, halves);
      && Accounted(t)
      && (forall env | env in t.sent :: env in t.log)
      && (forall i, j | 0 <= i < j < |t.sent| :: t.sent[i] != t.sent[j])
      && |t.log| == |t.sent| + |t.lost| + |t.waiting|
    decreases |halves|
  {
    if halves != [] {
      AdvanceKeepsAccount(s, halves[0]);
      SentIsLogged(halves[1..], Advance(s, halves[0]));
    } else {
      forall env | env in s.sent ensures env in s.log {
        assert multiset(s.sent)[env] > 0;
        assert multiset(s.log)[env] > 0;
      }
      forall i, j | 0 <= i < j < |s.sent| ensures s.sent[i] != s.sent[j] {
        Multiplicities(s.log, s.sent[i]);
        if s.sent[i] == s.sent[j] {
          TwiceIn(s.sent, i, j);
        }
      }
      assert |multiset(s.log)| == |s.log|;
    }
  }

  lemma TwiceIn(xs: seq<Stored>, i: nat, j: nat)
    requires i < j < |xs| && xs[i] == xs[j]
    ensures multiset(xs)[xs[i]] >= 2
  {
    assert xs == xs[..j] + [xs[j]] + xs[j + 1..];
    assert xs[i] in xs[..j];
    assert multiset(xs[..j])[xs[i]] >= 1;
  }

  /** Sending order need not be log order: two calls can overtake each other. */
  lemma SendsCanOvertake(a: Event, b: Event)
    ensures var first, second := Stored(1, a), Stored(2, b);
      var t := Run(START, [Append(a, true), Append(b, true), Send(second, true), Send(first, true)]);
      t.log == [first, second] && t.sent == [second, first]
  {
    var first, second := Stored(1, a), Stored(2, b);
    var halves := [Append(a, true), Append(b, true), Send(second, true), Send(first, true)];
    var s1 := Advance(START, halves[0]);
    var s2 := Advance(s1, halves[1]);
    assert halves[1..][1..] == [halves[2], halves[3]];
    assert Run(START, halves) == Run(s1, halves[1..]) == Run(s2, halves[1..][1..]);
    assert s2 == System([first, second], {first, second}, [], []);
    TwoHalves(s2, halves[2], halves[3]);
  }

  // ---------------------------------------------------------------- end to end

  ghost predicate Carries(d: Delivery, sent: seq<Stored>) {
    exists k :: 0 <= k < |sent| && sent[k].event == d.event
  }

  /** Live deliveries of what was sent, further lost, repeated or reordered on the way. */
  ghost predicate DeliveredFrom(live: seq<Delivery>, sent: seq<Stored>) {
    forall d | d in live :: Carries(d, sent)
  }

  ghost predicate ReplaysLog(replay: seq<Delivery>, log: seq<Stored>) {
    |replay| == |log| && forall i | 0 <= i < |log| :: replay[i].event == log[i].event
  }

  /** From publisher to screen: after any run of publish calls and any delivery of what they
      sent, replaying the log gives the client the state the log alone gives. */
  lemma PublisherToScreen(r: Replica, halves: seq<Half>, live: seq<Delivery>, replay: seq<Delivery>)
    requires DeliveredFrom(live, Run(START, halves).sent) && ReplaysLog(replay, Run(START, halves).log)
    ensures Fold(r, live + replay).session == Fold(r, replay).session
    ensures Fold(r, live + replay).assistance == Fold(r, replay).assistance
    ensures DistinctIds(r.orders) && PlacedOnceThenUpdated(replay) ==>
      SameOrders(Fold(r, live + replay).orders, Fold(r, replay).orders)
  {
    var t := Run(START, halves);
    SentIsLogged(halves, START);
    forall d | d in live ensures Occurs(d.event, replay) {
      assert Carries(d, t.sent);
      var k :| 0 <= k < |t.sent| && t.sent[k].event == d.event;
      assert t.sent[k] in t.log;
      var i :| 0 <= i < |t.log| && t.log[i] == t.sent[k];
      assert replay[i].event == d.event;
    }
    assert [] + live + replay == live + replay && [] + replay == replay;
    ReplayConverges(r, [], live, replay);
    if DistinctIds(r.orders) && PlacedOnceThenUpdated(replay) {
      OrdersConverge(r, [], live, replay);
    }
  }

  function Events(log: seq<Stored>): (es: seq<Event>)
    ensures |es| == |log| && forall i | 0 <= i < |log| :: es[i] == log[i].event
  {
    seq(|log|, i requires 0 <= i < |log| => log[i].event)
  }

  ghost predicate Numbered(d: Stores.Timed, sent: seq<Stored>) {
    exists k | 0 <= k < |sent| :: d.env == Stores.Envelope(Some(sent[k].sequence), sent[k].event)
  }

  /** What clients receive of what was sent is numbered by its place in the log. */
  lemma SentIsNumbered(halves: seq<Half>, live: seq<Stores.Timed>)
    requires forall d | d in live :: Numbered(d, Run(START, halves).sent)
    ensures CursorReplay.FromLog(live, Events(Run(START, halves).log))
  {
    var t := Run(START, halves);
    SentIsLogged(halves, START);
    forall d | d in live
      ensures d.env.sequence.Some? && 0 < d.env.sequence.value <= |t.log|
              && d.env.event == Events(t.log)[d.env.sequence.value - 1]
    {
      assert Numbered(d, t.sent);
      var k :| 0 <= k < |t.sent| && d.env == Stores.Envelope(Some(t.sent[k].sequence), t.sent[k].event);
      assert t.sent[k] in t.log;
      var i :| 0 <= i < |t.log| && t.log[i] == t.sent[k];
      assert t.log[i].sequence == i + 1;
    }
  }

  /** The client that exists: after any run of publish calls it has received what was sent, lost,
      repeated and reordered; it reconnects with its own cursor and gets what the server replays past
      it, with the snapshot. It then holds what a client that missed nothing holds, exactly when the
      three registers no snapshot carries are repaired. */
  lemma PublisherToReconnectedClient(halves: seq<Half>, c: Stores.Connection, live: seq<Stores.Timed>,
                                     snap: Stores.Snapshot,
                                     replayed: nat -> int, heard: nat -> int)
    requires !c.stopped && 0 <= c.lastSequence <= |Run(START, halves).log|
    requires forall d | d in live :: Numbered(d, Run(START, halves).sent)
    requires 0 <= Stores.ReceiveAll(c, live).lastSequence
    requires CursorReplay.Served(snap, Events(Run(START, halves).log), Stores.ReceiveAll(c, live).lastSequence)
    requires c.replica.session.participant.Some?
    requires FindParticipant(snap.participants, c.replica.session.participant.value.id).Some?
    ensures c.lastSequence <= Stores.ReceiveAll(c, live).lastSequence <= |Run(START, halves).log|
    ensures var log, got := Events(Run(START, halves).log), Stores.ReceiveAll(c, live);
      Stores.AfterReconnect(got, Some(snap), CursorReplay.From(replayed, got.lastSequence)).replica
      == Stores.Reconcile(Stores.ReceiveAll(c, CursorReplay.Heard(log, c.lastSequence, |log|, heard)).replica, snap)
      <==> forall reg :: CursorReplay.Repaired(reg, c, log, live, got.lastSequence, replayed, heard)
  {
    SentIsNumbered(halves, live);
    CursorReplay.ReconnectedReplica(c, Events(Run(START, halves).log), live, snap, replayed, heard);
  }
}

// Who is host, according to one client: the `isHost` flag, the client's own participant and
// the participant list, over every sequence of store actions.
module HostCoherence {
  import opened Wrappers
  import opened Lifecycle
  import opened ClientState

  datatype Action =
    | ActSetSession(s: Session, p: Participant)
    | ActSnapshot(s: Session, ps: seq<Participant>)
    | ActEvent(e: Event, now: int)
    | ActMarkPaused
    | ActReactivated(s: Session)
    | ActSetReactivating(flag: bool)
    | ActSetCompletedPayment(payment: Payment)
    | ActSetExpiringAt(at: Option<int>)
    | ActClear

  function Act(s: SessionState, a: Action): SessionState {
    match a
    case ActSetSession(sess, p) => s.SetSession(sess, p)
    case ActSnapshot(sess, ps) => s.SetFromSnapshot(sess, ps)
    case ActEvent(e, now) => SessionStep(s, e, now)
    case ActMarkPaused => s.MarkPaused()
    case ActReactivated(sess) => s.ApplyReactivated(sess)
    case ActSetReactivating(flag) => s.(isReactivating := flag)
    case ActSetCompletedPayment(p) => s.(completedPayment := Some(p))
    case ActSetExpiringAt(at) => s.(sessionExpiringAt := at)
    case ActClear => EMPTY_SESSION
  }

  function ActAll(s: SessionState, acts: seq<Action>): SessionState
    decreases |acts|
  {
    if acts == [] then s else ActAll(Act(s, acts[0]), acts[1..])
  }

  ghost predicate DistinctParticipants(ps: seq<Participant>) {
    forall i, j | 0 <= i < j < |ps| :: ps[i].id != ps[j].id
  }

  ghost predicate HostCoherent(s: SessionState) {
    && s.isHost == (s.participant.Some? && s.participant.value.isHost)
    && DistinctParticipants(s.participants)
  }

  lemma {:induction false} MarkHostAt(ps: seq<Participant>, h: int)
    ensures var r := MarkHost(ps, h);
      |r| == |ps| && forall i | 0 <= i < |ps| :: r[i] == ps[i].(isHost := ps[i].id == h)
  {
    if ps == [] {
    } else {
      MarkHostAt(ps[1..], h);
    }
  }

  lemma {:induction false} WithoutKeepsDistinct(ps: seq<Participant>, id: int)
    requires DistinctParticipants(ps)
    ensures DistinctParticipants(Without(ps, id))
  {
    if ps == [] {
    } else {
      assert forall p | p in ps[1..] :: p.id != ps[0].id;
      WithoutKeepsDistinct(ps[1..], id);
    }
  }

  lemma ActKeepsCoherence(s: SessionState, a: Action)
    requires HostCoherent(s) && (a.ActSnapshot? ==> DistinctParticipants(a.ps))
    ensures HostCoherent(Act(s, a))
  {
    if a.ActEvent? {
      match a.e
      case EventParticipantJoined(p) => WithoutKeepsDistinct(s.participants, p.id);
      case EventParticipantLeft(p) => WithoutKeepsDistinct(s.participants, p.id);
      case EventHostChanged(p) => MarkHostAt(s.participants, p.id);
      case _ =>
    }
  }

  /** Whatever the client goes through, given snapshots without duplicate participants. */
  lemma {:induction false} ReachableIsCoherent(s: SessionState, acts: seq<Action>)
    requires HostCoherent(s)
    requires forall a | a in acts && a.ActSnapshot? :: DistinctParticipants(a.ps)
    ensures HostCoherent(ActAll(s, acts))
    decreases |acts|
  {
    if acts == [] {
    } else {
      ActKeepsCoherence(s, acts[0]);
      ReachableIsCoherent(Act(s, acts[0]), acts[1..]);
    }
  }

  /** So every state reached from a freshly opened page is coherent. */
  lemma EveryReachableState(acts: seq<Action>)
    requires forall a | a in acts && a.ActSnapshot? :: DistinctParticipants(a.ps)
    ensures HostCoherent(ActAll(EMPTY_SESSION, acts))
  {
    ReachableIsCoherent(EMPTY_SESSION, acts);
  }

  /** After HOST_CHANGED the same people are listed, and the flagged ones are exactly those
      with the new host's id. */
  lemma FlaggedAreTheNewHost(s: SessionState, host: Participant, now: int)
    ensures var t := SessionStep(s, EventHostChanged(host), now);
      && |t.participants| == |s.participants|
      && (forall i | 0 <= i < |s.participants| ::
            t.participants[i] == s.participants[i].(isHost := s.participants[i].id == host.id))
      && (t.isHost <==> s.participant.Some? && s.participant.value.id == host.id)
  {
    MarkHostAt(s.participants, host.id);
  }

  /** The list's entry for the client itself, if there is one, agrees with the client's flag. */
  ghost predicate OwnEntryAgrees(s: SessionState) {
    s.participant.Some? ==>
      forall p | p in s.participants && p.id == s.participant.value.id :: p.isHost == s.participant.value.isHost
  }

  /** The one event that splits the two: a join of the client itself with the other flag,
      because joining rewrites the list but not the client's own participant. */
  lemma OnlyOwnJoinSplits(s: SessionState, e: Event, now: int)
    requires OwnEntryAgrees(s)
    ensures OwnEntryAgrees(SessionStep(s, e, now)) <==>
      !(e.EventParticipantJoined? && s.participant.Some? && e.joined.id == s.participant.value.id &&
        e.joined.isHost != s.participant.value.isHost)
  {
    match e
    case EventHostChanged(p) => MarkHostAt(s.participants, p.id);
    case EventParticipantJoined(p) =>
      var t := SessionStep(s, e, now);
      assert t.participants[|t.participants| - 1] == p;
    case _ =>
  }

  lemma {:induction false} FindIsOnly(ps: seq<Participant>, p: Participant)
    requires DistinctParticipants(ps) && p in ps
    ensures FindParticipant(ps, p.id) == Some(p)
  {
    if ps[0] != p {
      assert p in ps[1..];
      FindIsOnly(ps[1..], p);
    }
  }

  /** A snapshot heals the split. */
  lemma SnapshotRestoresAgreement(s: SessionState, sess: Session, ps: seq<Participant>)
    requires DistinctParticipants(ps)
    ensures OwnEntryAgrees(s.SetFromSnapshot(sess, ps))
  {
    var t := s.SetFromSnapshot(sess, ps);
    if t.participant.Some? {
      forall p | p in ps && p.id == t.participant.value.id
        ensures p.isHost == t.participant.value.isHost
      {
        FindIsOnly(ps, p);
      }
    }
  }
}

// Guest credentials in one browser: a storage area per tab, and a shared one that remembers, per
// session, the participant who claimed it first.
module GuestStorage {
  import opened Wrappers

  datatype Creds = Creds(participant: int, token: string)

  /** sessionStorage: the three keys of one tab. */
  datatype Tab = Tab(session: Option<string>, participant: Option<int>, token: Option<string>)

  /** A localStorage entry: text that does not parse or parses to a falsy value, or a value whose
      participant may not be a number and whose token may be missing. */
  datatype Slot = Garbage | Stored(participant: Option<int>, token: Option<string>)

  type Slots = map<string, Slot>

  const EMPTY_TAB := Tab(None, None, None)

  // ---------------------------------------------------------------- the three operations on values

  function TabPersist(session: string, creds: Creds): Tab {
    Tab(Some(session), Some(creds.participant), Some(creds.token))
  }

  /** The first participant to claim a session keeps its slot; only that participant may refresh it. */
  function SlotsPersist(slots: Slots, session: string, creds: Creds, works: bool): Slots {
    if works && (session in slots && slots[session].Stored? ==> slots[session].participant == Some(creds.participant))
    then slots[session := Stored(Some(creds.participant), Some(creds.token))]
    else slots
  }

  function TabCreds(tab: Tab, session: string): Option<Creds> {
    if tab.session == Some(session) && tab.participant.Some? && tab.token.Some? && tab.token.value != ""
    then Some(Creds(tab.participant.value, tab.token.value)) else None
  }

  function SlotCreds(slots: Slots, session: string, works: bool): Option<Creds> {
    if works && session in slots && slots[session].Stored? && slots[session].participant.Some?
       && slots[session].token.Some? && slots[session].token.value != ""
    then Some(Creds(slots[session].participant.value, slots[session].token.value)) else None
  }

  function Recovered(tab: Tab, slots: Slots, session: string, works: bool): Option<Creds> {
    var own := TabCreds(tab, session);
    if own.Some? then own else SlotCreds(slots, session, works)
  }

  function TabRecover(tab: Tab, slots: Slots, session: string, works: bool): Tab {
    var copy := SlotCreds(slots, session, works);
    if TabCreds(tab, session).None? && copy.Some? then TabPersist(session, copy.value) else tab
  }

  function TabClear(tab: Tab, session: string): Tab {
    if tab.session == Some(session) then EMPTY_TAB else tab
  }

  function SlotsClear(slots: Slots, session: string, works: bool): Slots {
    if works then slots - {session} else slots
  }

  // ---------------------------------------------------------------- the storage areas

  class TabStorage {
    var session: Option<string>
    var participant: Option<int>
    var token: Option<string>

    constructor ()
      ensures Value() == EMPTY_TAB
    {
      session, participant, token := None, None, None;
    }

    function Value(): Tab
      reads this
    {
      Tab(session, participant, token)
    }
  }

  class LocalStorage {
    var slots: Slots

    constructor ()
      ensures slots == map[]
    {
      slots := map[];
    }
  }

  method PersistGuestCreds(tab: TabStorage, local: LocalStorage, sessionId: string, participantId: int, token: string,
                           works: bool)
    modifies tab, local
    ensures tab.Value() == TabPersist(sessionId, Creds(participantId, token))
    ensures local.slots == SlotsPersist(old(local.slots), sessionId, Creds(participantId, token), works)
    ensures tab.session == Some(sessionId) && tab.participant == Some(participantId) && tab.token == Some(token)
    ensures local.slots - {sessionId} == old(local.slots) - {sessionId}
    ensures works && (sessionId in old(local.slots) && old(local.slots)[sessionId].Stored? ==>
                        old(local.slots)[sessionId].participant == Some(participantId)) ==>
      sessionId in local.slots && local.slots[sessionId] == Stored(Some(participantId), Some(token))
    ensures !works || (sessionId in old(local.slots) && old(local.slots)[sessionId].Stored? &&
                         old(local.slots)[sessionId].participant != Some(participantId)) ==>
      local.slots == old(local.slots)
  {
    tab.session := Some(sessionId);
    tab.participant := Some(participantId);
    tab.token := Some(token);
    if works {
      var existing := if sessionId in local.slots && local.slots[sessionId].Stored?
                      then Some(local.slots[sessionId]) else None;
      if existing.None? || existing.value.participant == Some(participantId) {
        local.slots := local.slots[sessionId := Stored(Some(participantId), Some(token))];
      }
    }
  }

  method RecoverGuestCreds(tab: TabStorage, local: LocalStorage, sessionId: string, works: bool)
    returns (r: Option<Creds>)
    modifies tab
    ensures r == Recovered(old(tab.Value()), local.slots, sessionId, works)
    ensures tab.Value() == TabRecover(old(tab.Value()), local.slots, sessionId, works)
    ensures r.None? ==> tab.Value() == old(tab.Value())
    ensures r.Some? ==>
      tab.session == Some(sessionId) && tab.participant == Some(r.value.participant) && tab.token == Some(r.value.token)
    ensures r.Some? ==> r.value.token != ""
    ensures old(tab.session) == Some(sessionId) && old(tab.participant).Some? && old(tab.token).Some? &&
            old(tab.token).value != "" ==>
      r == Some(Creds(old(tab.participant).value, old(tab.token).value))
    ensures old(tab.session) != Some(sessionId) || old(tab.participant) == None
            || old(tab.token) in {None, Some("")} ==>
      forall p, t :: r == Some(Creds(p, t)) <==>
                     works && sessionId in local.slots && local.slots[sessionId] == Stored(Some(p), Some(t)) && t != ""
  {
    if tab.session == Some(sessionId) && tab.participant.Some? && tab.token.Some? && tab.token.value != "" {
      return Some(Creds(tab.participant.value, tab.token.value));
    }
    if works && sessionId in local.slots {
      var parsed := local.slots[sessionId];
      if parsed.Stored? && parsed.participant.Some? && parsed.token.Some? && parsed.token.value != "" {
        tab.session := Some(sessionId);
        tab.participant := parsed.participant;
        tab.token := parsed.token;
        return Some(Creds(parsed.participant.value, parsed.token.value));
      }
    }
    return None;
  }

  method ClearGuestCreds(tab: TabStorage, local: LocalStorage, sessionId: string, works: bool)
    modifies tab, local
    ensures tab.Value() == TabClear(old(tab.Value()), sessionId)
    ensures local.slots == SlotsClear(old(local.slots), sessionId, works)
    ensures old(tab.session) != Some(sessionId) ==> tab.Value() == old(tab.Value())
    ensures old(tab.session) == Some(sessionId) ==> tab.session == None && tab.participant == None && tab.token == None
    ensures local.slots == if works then old(local.slots) - {sessionId} else old(local.slots)
  {
    if tab.session == Some(sessionId) {
      tab.session := None;
      tab.participant := None;
      tab.token := None;
    }
    if works {
      local.slots := local.slots - {sessionId};
    }
  }

  // ---------------------------------------------------------------- one browser, any interleaving

  /** One call in one tab; `works` says whether localStorage answered. A closed tab starts empty again. */
  datatype Op =
    | Persist(tab: nat, session: string, creds: Creds, works: bool)
    | Recover(tab: nat, session: string, works: bool)
    | Clear(tab: nat, session: string, works: bool)
    | Close(tab: nat)

  datatype Browser = Browser(tabs: map<nat, Tab>, slots: Slots)

  const FRESH := Browser(map[], map[])

  function TabAt(b: Browser, t: nat): Tab {
    if t in b.tabs then b.tabs[t] else EMPTY_TAB
  }

  function Step(b: Browser, op: Op): Browser {
    match op
    case Persist(t, s, c, w) => Browser(b.tabs[t := TabPersist(s, c)], SlotsPersist(b.slots, s, c, w))
    case Recover(t, s, w) => Browser(b.tabs[t := TabRecover(TabAt(b, t), b.slots, s, w)], b.slots)
    case Clear(t, s, w) => Browser(b.tabs[t := TabClear(TabAt(b, t), s)], SlotsClear(b.slots, s, w))
    case Close(t) => Browser(b.tabs[t := EMPTY_TAB], b.slots)
  }

  function Run(b: Browser, ops: seq<Op>): Browser
    decreases |ops|
  {
    if ops == [] then b else Step(Run(b, ops[..|ops| - 1]), ops[|ops| - 1])
  }

  /** What recovering a session in a tab would return now. */
  function Answer(b: Browser, t: nat, session: string, works: bool): Option<Creds> {
    Recovered(TabAt(b, t), b.slots, session, works)
  }

  // ---------------------------------------------------------------- provenance

  predicate Persisted(ops: seq<Op>, session: string, creds: Creds) {
    exists i | 0 <= i < |ops| :: ops[i].Persist? && ops[i].session == session && ops[i].creds == creds
  }

  predicate TabFrom(ops: seq<Op>, tab: Tab) {
    tab == EMPTY_TAB
    || (tab.session.Some? && tab.participant.Some? && tab.token.Some?
        && Persisted(ops, tab.session.value, Creds(tab.participant.value, tab.token.value)))
  }

  predicate SlotFrom(ops: seq<Op>, session: string, slot: Slot) {
    slot.Stored? && slot.participant.Some? && slot.token.Some?
    && Persisted(ops, session, Creds(slot.participant.value, slot.token.value))
  }

  lemma PersistedEarlier(ops: seq<Op>, session: string, creds: Creds)
    requires ops != [] && Persisted(ops[..|ops| - 1], session, creds)
    ensures Persisted(ops, session, creds)
  {
    var i :| 0 <= i < |ops| - 1 && ops[..|ops| - 1][i].Persist? && ops[..|ops| - 1][i].session == session
             && ops[..|ops| - 1][i].creds == creds;
    assert ops[i].Persist?;
  }

  lemma {:induction false} EverythingWasPersisted(ops: seq<Op>)
    ensures forall t :: TabFrom(ops, TabAt(Run(FRESH, ops), t))
    ensures forall s | s in Run(FRESH, ops).slots :: SlotFrom(ops, s, Run(FRESH, ops).slots[s])
    decreases |ops|
  {
    if ops == [] {
    } else {
      var before, op, now := ops[..|ops| - 1], ops[|ops| - 1], Run(FRESH, ops);
      EverythingWasPersisted(before);
      forall s, c | Persisted(before, s, c) ensures Persisted(ops, s, c) {
        PersistedEarlier(ops, s, c);
      }
      if op.Persist? {
        assert ops[|ops| - 1] == op;
        assert Persisted(ops, op.session, op.creds);
      }
      hide Persisted;
      var b := Run(FRESH, before);
      assert forall t :: TabFrom(before, TabAt(b, t));
      forall t ensures TabFrom(ops, TabAt(now, t)) {
        assert TabFrom(before, TabAt(b, t));
        if t == op.tab {
        } else {
          assert TabAt(now, t) == TabAt(b, t);
        }
      }
    }
  }

  /** Whatever a tab recovers for a session was persisted, as that pair, for that very session. */
  lemma RecoveredWasPersisted(ops: seq<Op>, t: nat, session: string, works: bool)
    requires Answer(Run(FRESH, ops), t, session, works).Some?
    ensures Persisted(ops, session, Answer(Run(FRESH, ops), t, session, works).value)
  {
    EverythingWasPersisted(ops);
    assert TabFrom(ops, TabAt(Run(FRESH, ops), t));
  }

  // ---------------------------------------------------------------- the shared slot

  predicate Claims(op: Op, session: string) {
    op.Persist? && op.session == session && op.works
  }

  predicate Wipes(op: Op, session: string) {
    op.Clear? && op.session == session && op.works
  }

  predicate WipedBetween(ops: seq<Op>, session: string, k: int, i: int)
    requires 0 <= k <= i <= |ops|
  {
    exists m | k < m < i :: Wipes(ops[m], session)
  }

  /** The claim at i is the first one since the session was last cleared. */
  predicate FirstClaim(ops: seq<Op>, session: string, i: int) {
    && 0 <= i < |ops|
    && Claims(ops[i], session)
    && !WipedBetween(ops, session, i, |ops|)
    && (forall k | 0 <= k < i && Claims(ops[k], session) :: WipedBetween(ops, session, k, i))
  }

  /** The claim at j is the latest one that participant made. */
  predicate LatestBy(ops: seq<Op>, session: string, participant: int, j: int) {
    && 0 <= j < |ops|
    && Claims(ops[j], session) && ops[j].creds.participant == participant
    && (forall k | j < k < |ops| && Claims(ops[k], session) :: ops[k].creds.participant != participant)
  }

  /** Every claim on the session has been cleared since. */
  predicate NoClaim(ops: seq<Op>, session: string) {
    forall k | 0 <= k < |ops| && Claims(ops[k], session) :: WipedBetween(ops, session, k, |ops|)
  }

  lemma WipedGrows(ops: seq<Op>, op: Op, session: string, k: int, i: int)
    requires 0 <= k <= i <= |ops|
    ensures WipedBetween(ops + [op], session, k, i) == WipedBetween(ops, session, k, i)
    ensures WipedBetween(ops + [op], session, k, |ops| + 1)
            == (WipedBetween(ops, session, k, |ops|) || (k < |ops| && Wipes(op, session)))
  {
    var all := ops + [op];
    assert forall m | 0 <= m < |ops| :: all[m] == ops[m];
    if k < |ops| && Wipes(op, session) {
      assert Wipes(all[|ops|], session);
    }
    if m :| k < m < i && Wipes(ops[m], session) {
      assert Wipes(all[m], session);
    }
    if m :| k < m < |ops| && Wipes(ops[m], session) {
      assert Wipes(all[m], session);
    }
  }

  lemma {:induction false} SlotHolder(ops: seq<Op>, session: string) returns (i: int, j: int)
    ensures session !in Run(FRESH, ops).slots ==> NoClaim(ops, session)
    ensures session in Run(FRESH, ops).slots ==>
      && FirstClaim(ops, session, i)
      && LatestBy(ops, session, ops[i].creds.participant, j)
      && Run(FRESH, ops).slots[session] == Stored(Some(ops[i].creds.participant), Some(ops[j].creds.token))
    decreases |ops|
  {
    i, j := -1, -1;
    if ops == [] {
    } else {
      var before, op, n := ops[..|ops| - 1], ops[|ops| - 1], |ops| - 1;
      assert ops == before + [op];
      i, j := SlotHolder(before, session);
      var held := session in Run(FRESH, before).slots;
      forall k, m | 0 <= k <= m <= n
        ensures WipedBetween(ops, session, k, m) == WipedBetween(before, session, k, m)
        ensures WipedBetween(ops, session, k, n + 1)
                == (WipedBetween(before, session, k, n) || (k < n && Wipes(op, session)))
      {
        WipedGrows(before, op, session, k, m);
      }
      assert !WipedBetween(ops, session, n, n + 1);
      hide WipedBetween;
      if Claims(op, session) && !held {
        i, j := n, n;
      } else if Claims(op, session) && op.creds.participant == before[i].creds.participant {
        j := n;
      }
    }
  }

  lemma WipedLonger(ops: seq<Op>, session: string, k: int, i: int)
    requires 0 <= k <= i <= |ops|
    ensures WipedBetween(ops, session, k, i) ==> WipedBetween(ops, session, k, |ops|)
  {
    if m :| k < m < i && Wipes(ops[m], session) {
      assert m < |ops|;
    }
  }

  lemma FirstClaimUnique(ops: seq<Op>, session: string, i: int, k: int)
    requires FirstClaim(ops, session, i) && FirstClaim(ops, session, k)
    ensures i == k
  {
    hide WipedBetween;
    WipedLonger(ops, session, if i < k then i else k, if i < k then k else i);
  }

  /** The shared slot is present exactly when the session was claimed since it was last cleared, and
      holds the first claimant with the latest token that claimant brought. */
  lemma FirstClaimantKeepsSlot(ops: seq<Op>, session: string)
    ensures session in Run(FRESH, ops).slots <==> exists i :: FirstClaim(ops, session, i)
    ensures forall i, j :: FirstClaim(ops, session, i) && LatestBy(ops, session, ops[i].creds.participant, j) ==>
      Run(FRESH, ops).slots[session] == Stored(Some(ops[i].creds.participant), Some(ops[j].creds.token))
    ensures forall i :: FirstClaim(ops, session, i) ==> exists j :: LatestBy(ops, session, ops[i].creds.participant, j)
  {
    var i, j := SlotHolder(ops, session);
    hide WipedBetween;
    forall k | FirstClaim(ops, session, k) && session in Run(FRESH, ops).slots ensures k == i {
      FirstClaimUnique(ops, session, i, k);
    }
  }

  // ---------------------------------------------------------------- a tab's own identity

  /** The operation cannot change who this tab is: it runs in another tab, recovers the session the
      tab is on, or clears a different one. */
  predicate LeavesTab(op: Op, t: nat, session: string) {
    op.tab != t || (op.Recover? && op.session == session) || (op.Clear? && op.session != session)
  }

  lemma {:induction false} TabUndisturbed(b: Browser, ops: seq<Op>, t: nat, session: string, creds: Creds)
    requires TabAt(b, t) == TabPersist(session, creds) && creds.token != ""
    requires forall op | op in ops :: LeavesTab(op, t, session)
    ensures TabAt(Run(b, ops), t) == TabPersist(session, creds)
    decreases |ops|
  {
    if ops == [] {
    } else {
      TabUndisturbed(b, ops[..|ops| - 1], t, session, creds);
      assert LeavesTab(ops[|ops| - 1], t, session);
    }
  }

  /** A tab that persisted credentials recovers exactly those, whatever the other tabs do meanwhile
      (they may clear this very session) and whichever other sessions it clears itself. */
  lemma TabKeepsItsIdentity(before: seq<Op>, persist: Op, after: seq<Op>, works: bool)
    requires persist.Persist? && persist.creds.token != ""
    requires forall op | op in after :: LeavesTab(op, persist.tab, persist.session)
    ensures Answer(Run(Run(FRESH, before + [persist]), after), persist.tab, persist.session, works)
            == Some(persist.creds)
  {
    assert (before + [persist])[..|before|] == before;
    TabUndisturbed(Run(FRESH, before + [persist]), after, persist.tab, persist.session, persist.creds);
  }

  /** Recovering keeps: when a tab is answered with credentials, it has them in its own three keys from
      then on, and answers with them whether or not localStorage works and whatever the other tabs clear.
      A tab that is answered with nothing stays as it was. */
  lemma RecoveredStays(b: Browser, t: nat, session: string, works: bool, after: seq<Op>, later: bool)
    requires forall op | op in after :: LeavesTab(op, t, session)
    ensures var answer, now := Answer(b, t, session, works), Step(b, Recover(t, session, works));
      && (answer.None? ==> TabAt(now, t) == TabAt(b, t))
      && (answer.Some? ==>
            && TabAt(now, t) == Tab(Some(session), Some(answer.value.participant), Some(answer.value.token))
            && Answer(Run(now, after), t, session, later) == answer)
  {
    var answer, now := Answer(b, t, session, works), Step(b, Recover(t, session, works));
    if answer.Some? {
      TabUndisturbed(now, after, t, session, answer.value);
    }
  }

  /** Clearing one session leaves every tab on another session, and every other session's slot, as they were. */
  lemma ClearIsLocal(b: Browser, clear: Op, t: nat, session: string, works: bool)
    requires clear.Clear? && clear.session != session && TabAt(b, t).session != Some(clear.session)
    ensures TabAt(Step(b, clear), t) == TabAt(b, t)
    ensures Answer(Step(b, clear), t, session, works) == Answer(b, t, session, works)
  {}

  // ---------------------------------------------------------------- forgetting

  predicate NoPersist(ops: seq<Op>, session: string) {
    forall op | op in ops :: !(op.Persist? && op.session == session)
  }

  /** Whatever happens next, nobody recovers the session until somebody persists it again. */
  ghost predicate Forgotten(b: Browser, session: string) {
    forall after, t, works | NoPersist(after, session) :: Answer(Run(b, after), t, session, works) == None
  }

  /** Neither a tab nor the shared slot holds credentials that could be recovered. */
  ghost predicate NoUsableCopy(b: Browser, session: string) {
    SlotCreds(b.slots, session, true) == None && forall t :: TabCreds(TabAt(b, t), session) == None
  }

  lemma {:induction false} NoCopyLasts(b: Browser, ops: seq<Op>, session: string)
    requires NoUsableCopy(b, session) && NoPersist(ops, session)
    ensures NoUsableCopy(Run(b, ops), session)
    decreases |ops|
  {
    if ops == [] {
    } else {
      var before, op := Run(b, ops[..|ops| - 1]), ops[|ops| - 1];
      NoCopyLasts(b, ops[..|ops| - 1], session);
      forall t ensures TabCreds(TabAt(Step(before, op), t), session) == None {
        assert TabCreds(TabAt(before, t), session) == None;
      }
    }
  }

  lemma ForgottenExactly(b: Browser, session: string)
    ensures Forgotten(b, session) <==> NoUsableCopy(b, session)
  {
    if NoUsableCopy(b, session) {
      forall after, t, works | NoPersist(after, session) ensures Answer(Run(b, after), t, session, works) == None {
        NoCopyLasts(b, after, session);
      }
    }
    if Forgotten(b, session) {
      assert NoPersist([], session);
      forall t ensures TabCreds(TabAt(b, t), session) == None && SlotCreds(b.slots, session, true) == None {
        assert Answer(Run(b, []), t, session, true) == None;
      }
      assert TabCreds(TabAt(b, 0), session) == None;
    }
  }

  /** One clear in each of some tabs; works[i] says whether localStorage answered the i-th. */
  function ClearIn(tabs: seq<nat>, session: string, works: seq<bool>): seq<Op>
    requires |works| == |tabs|
  {
    seq(|tabs|, i requires 0 <= i < |tabs| => Clear(tabs[i], session, works[i]))
  }

  lemma {:induction false} ClearedTabs(b: Browser, tabs: seq<nat>, session: string, works: seq<bool>)
    requires |works| == |tabs|
    ensures forall t :: TabAt(Run(b, ClearIn(tabs, session, works)), t) ==
                        if t in tabs then TabClear(TabAt(b, t), session) else TabAt(b, t)
    ensures Run(b, ClearIn(tabs, session, works)).slots == if true in works then b.slots - {session} else b.slots
    decreases |tabs|
  {
    if tabs == [] {
    } else {
      var last := |tabs| - 1;
      assert ClearIn(tabs, session, works)[..last] == ClearIn(tabs[..last], session, works[..last]);
      ClearedTabs(b, tabs[..last], session, works[..last]);
      assert tabs == tabs[..last] + [tabs[last]] && works == works[..last] + [works[last]];
    }
  }

  /** Clearing a session in some tabs forgets it, for every tab and every continuation, exactly when no
      other tab holds its credentials and either localStorage answered one of the clears or there was
      nothing usable in the slot. */
  lemma ClearsForgetExactly(b: Browser, tabs: seq<nat>, session: string, works: seq<bool>)
    requires |works| == |tabs|
    ensures Forgotten(Run(b, ClearIn(tabs, session, works)), session) <==>
      && (true in works || SlotCreds(b.slots, session, true) == None)
      && (forall t :: t in tabs || TabCreds(TabAt(b, t), session) == None)
  {
    var cleared := Run(b, ClearIn(tabs, session, works));
    ClearedTabs(b, tabs, session, works);
    ForgottenExactly(cleared, session);
    forall t
      ensures TabCreds(TabAt(cleared, t), session) == None <==> (t in tabs || TabCreds(TabAt(b, t), session) == None)
    {}
  }

  /** So once every tab on a session has cleared it, no tab recovers it until somebody persists it again. */
  lemma ClearedEverywhereIsForgotten(b: Browser, tabs: seq<nat>, session: string, after: seq<Op>, t: nat, works: bool)
    requires tabs != [] && forall u :: TabAt(b, u).session == Some(session) ==> u in tabs
    requires NoPersist(after, session)
    ensures Answer(Run(Run(b, ClearIn(tabs, session, seq(|tabs|, _ => true))), after), t, session, works) == None
  {
    var answered := seq(|tabs|, _ => true);
    assert answered[0] && true in answered;
    ClearsForgetExactly(b, tabs, session, answered);
  }

  /** When localStorage does not answer, clearing leaves the slot, and the next tab recovers it. */
  lemma SkippedClearIsRemembered(t: nat, u: nat, session: string, creds: Creds)
    requires creds.token != ""
    ensures Answer(Run(FRESH, [Persist(t, session, creds, true), Clear(t, session, false)]), u, session, true)
            == Some(creds)
  {
    var ops := [Persist(t, session, creds, true), Clear(t, session, false)];
    assert ops[..1] == [Persist(t, session, creds, true)] && ops[..1][..0] == [];
    assert Run(FRESH, ops[..1]) == Step(FRESH, ops[0]);
  }
}

// Guest access tokens: issued and validated, checked against the participants of a session, and
// invalidated by rotating credential versions.
module GuestTokens {
  import opened Wrappers
  import opened Text

  // ---------------------------------------------------------------- the token service

  type Bytes = seq<bv8>

  datatype Claims = Claims(subject: string, sessionId: string, branchId: int, tableId: int, organizationId: int,
                           role: string, participantId: int, credentialVersion: int, issuedAt: int, expiresAt: int,
                           jti: string, audience: string)

  datatype TokenError = Malformed | Invalid | Expired
  datatype Validation = Valid(claims: Claims) | Failed(error: TokenError)

  /** JSON, unpadded base64url (section 5 of RFC 4648) and the keyed hash, as the service sees them. */
  datatype Primitives = Primitives(marshal: Claims -> Bytes, unmarshal: Bytes -> Option<Claims>,
                                   encode: Bytes -> string, decode: string -> Option<Bytes>, sign: string -> Bytes)

  /** What is assumed of them: both encodings can be undone, and no encoding is empty or holds a dot. */
  ghost predicate Lawful(p: Primitives) {
    && (forall c :: p.marshal(c) != [] && p.unmarshal(p.marshal(c)) == Some(c))
    && (forall b: Bytes :: p.decode(p.encode(b)) == Some(b) && '.' !in p.encode(b) && (b != [] ==> p.encode(b) != ""))
    && (forall s :: |p.sign(s)| == 32)
  }

  const GUEST_AUDIENCE := "qr-dining-guest"
  const SECOND := 1_000_000_000

  /** Whole seconds of a time in nanoseconds. */
  function Unix(time: int): int {
    time / SECOND
  }

  /** The claims a token carries: what the caller left open is filled in. */
  function Filled(c: Claims, now: int, ttl: int, jti: string): Claims {
    c.(subject := if c.subject == "" then "participant:" + Decimal(c.participantId) else c.subject,
       audience := if c.audience == "" then GUEST_AUDIENCE else c.audience,
       issuedAt := if c.issuedAt == 0 then Unix(now) else c.issuedAt,
       expiresAt := if c.expiresAt == 0 then Unix(now + ttl) else c.expiresAt,
       jti := if c.jti == "" then jti else c.jti)
  }

  function Seal(p: Primitives, c: Claims): string {
    p.encode(p.marshal(c)) + "." + p.encode(p.sign(p.encode(p.marshal(c))))
  }

  method Issue(p: Primitives, ttl: int, now: int, template: Claims, random: Option<string>)
    returns (token: Option<string>)
    ensures token.None? <==> template.jti == "" && random.None?
    ensures token.Some? ==>
      token.value == Seal(p, Filled(template, now, ttl, if random.Some? then random.value else ""))
  {
    var claims := template;
    if claims.subject == "" {
      claims := claims.(subject := "participant:" + Decimal(claims.participantId));
    }
    if claims.audience == "" {
      claims := claims.(audience := GUEST_AUDIENCE);
    }
    if claims.issuedAt == 0 {
      claims := claims.(issuedAt := Unix(now));
    }
    if claims.expiresAt == 0 {
      claims := claims.(expiresAt := Unix(now + ttl));
    }
    if claims.jti == "" {
      if random.None? {
        return None;
      }
      claims := claims.(jti := random.value);
    }
    var payloadPart := p.encode(p.marshal(claims));
    return Some(payloadPart + "." + p.encode(p.sign(payloadPart)));
  }

  function Validate(p: Primitives, token: string, now: int): Validation {
    var dot := IndexOf(token, '.');
    if dot == |token| || dot == 0 || dot + 1 == |token| then Failed(Malformed)
    else
      var payloadPart, signature := token[..dot], p.decode(token[dot + 1..]);
      if signature.None? then Failed(Malformed)
      else if signature.value != p.sign(payloadPart) then Failed(Invalid)
      else
        var payload := p.decode(payloadPart);
        if payload.None? then Failed(Malformed)
        else
          var claims := p.unmarshal(payload.value);
          if claims.None? then Failed(Malformed)
          else if claims.value.audience != GUEST_AUDIENCE then Failed(Invalid)
          else if claims.value.expiresAt <= Unix(now) then Failed(Expired)
          else Valid(claims.value)
  }

  /** A sealed token gives its claims back, unless they are for someone else or have run out. */
  lemma SealRoundTrip(p: Primitives, c: Claims, now: int)
    requires Lawful(p)
    ensures Validate(p, Seal(p, c), now) ==
            if c.audience != GUEST_AUDIENCE then Failed(Invalid)
            else if c.expiresAt <= Unix(now) then Failed(Expired)
            else Valid(c)
  {
    var payloadPart := p.encode(p.marshal(c));
    var signature := p.sign(payloadPart);
    var signaturePart := p.encode(signature);
    assert p.marshal(c) != [] && payloadPart != "";
    assert |signature| == 32 && signaturePart != "";
    var token := Seal(p, c);
    assert token == payloadPart + ['.'] + signaturePart;
    FoundAt(payloadPart, '.', signaturePart);
    assert token[..|payloadPart|] == payloadPart && token[|payloadPart| + 1..] == signaturePart;
  }

  /** A token issued without an expiry of its own is valid for exactly the service's lifetime, and
      gives back who it was issued for. */
  lemma TokenLifetime(p: Primitives, template: Claims, now: int, ttl: int, jti: string, later: int)
    requires Lawful(p) && template.audience in {"", GUEST_AUDIENCE} && template.expiresAt == 0
    ensures var v := Validate(p, Seal(p, Filled(template, now, ttl, jti)), later);
      && (v.Valid? <==> later / 1_000_000_000 < (now + ttl) / 1_000_000_000)
      && (!v.Valid? ==> v == Failed(Expired))
      && (v.Valid? ==>
            && v.claims.subject == (if template.subject != "" then template.subject
                                    else "participant:" + Decimal(template.participantId))
            && v.claims.issuedAt == (if template.issuedAt != 0 then template.issuedAt else now / 1_000_000_000)
            && v.claims.jti == (if template.jti != "" then template.jti else jti)
            && v.claims == template.(subject := v.claims.subject, audience := "qr-dining-guest",
                                  issuedAt := v.claims.issuedAt,
                                  expiresAt := (now + ttl) / 1_000_000_000, jti := v.claims.jti))
  {
    SealRoundTrip(p, Filled(template, now, ttl, jti), later);
  }

  /** A token in two parts, around its first dot. */
  predicate SplitsInto(token: string, a: string, b: string) {
    token == a + "." + b && '.' !in a && a != "" && b != ""
  }

  lemma SplitMeetsDot(token: string, a: string, b: string)
    requires SplitsInto(token, a, b)
    ensures IndexOf(token, '.') == |a| < |token| && a == token[..|a|] && b == token[|a| + 1..]
  {
    assert token == a + ['.'] + b;
    FoundAt(a, '.', b);
  }

  lemma CutAtDot(s: string, i: nat)
    requires i < |s| && s[i] == '.'
    ensures s == s[..i] + "." + s[i + 1..]
  {
    var joined := s[..i] + "." + s[i + 1..];
    forall k | 0 <= k < |s| ensures joined[k] == s[k] {
      if k > i {
        assert joined[k] == s[i + 1..][k - i - 1];
      }
    }
  }

  lemma DotSplits(token: string)
    requires var dot := IndexOf(token, '.'); dot < |token| && dot != 0 && dot + 1 != |token|
    ensures SplitsInto(token, token[..IndexOf(token, '.')], token[IndexOf(token, '.') + 1..])
  {
    hide IndexOf;
    CutAtDot(token, IndexOf(token, '.'));
  }

  lemma SplitsAtDot(token: string, a: string, b: string)
    ensures SplitsInto(token, a, b) <==>
      var dot := IndexOf(token, '.');
      dot < |token| && dot != 0 && dot + 1 != |token| && a == token[..dot] && b == token[dot + 1..]
  {
    var dot := IndexOf(token, '.');
    if SplitsInto(token, a, b) {
      SplitMeetsDot(token, a, b);
    }
    hide SplitsInto, IndexOf;
    if dot < |token| && dot != 0 && dot + 1 != |token| {
      DotSplits(token);
    }
  }

  /** What a token must be to validate: two parts, the second the signature of the first, which decodes
      to claims made out to guests that have not run out. */
  ghost predicate Genuine(p: Primitives, token: string, c: Claims, now: int) {
    exists a, b ::
      && SplitsInto(token, a, b)
      && p.decode(b) == Some(p.sign(a))
      && p.decode(a).Some? && p.unmarshal(p.decode(a).value) == Some(c)
      && c.audience == "qr-dining-guest" && now / 1_000_000_000 < c.expiresAt
  }

  /** Nothing validates without the service's own signature, and everything that has it does until it
      expires. */
  lemma ValidExactly(p: Primitives, token: string, c: Claims, now: int)
    ensures Validate(p, token, now) == Valid(c) <==> Genuine(p, token, c, now)
  {
    var dot := IndexOf(token, '.');
    forall a, b ensures SplitsInto(token, a, b) <==>
                        dot < |token| && dot != 0 && dot + 1 != |token| && a == token[..dot] && b == token[dot + 1..]
    {
      SplitsAtDot(token, a, b);
    }
    hide SplitsInto;
    if Validate(p, token, now) == Valid(c) {
      var a, b := token[..dot], token[dot + 1..];
      assert SplitsInto(token, a, b);
      assert p.decode(b) == Some(p.sign(a));
    }
  }

  /** A token in two decodable parts is called invalid exactly when the second is not the signature of the
      first or the claims are made out to others, and expired exactly when only time speaks against it. */
  lemma FailuresExactly(p: Primitives, token: string, a: string, b: string, now: int)
    requires SplitsInto(token, a, b) && p.decode(b).Some?
    ensures var signed := p.decode(b).value == p.sign(a);
      var claims := if p.decode(a).Some? then p.unmarshal(p.decode(a).value) else None;
      && (Validate(p, token, now) == Failed(Invalid) <==>
            !signed || (claims.Some? && claims.value.audience != "qr-dining-guest"))
      && (Validate(p, token, now) == Failed(Malformed) <==> signed && claims.None?)
      && (Validate(p, token, now) == Failed(Expired) <==>
            && signed && claims.Some? && claims.value.audience == "qr-dining-guest"
            && claims.value.expiresAt <= now / 1_000_000_000)
  {
    SplitsAtDot(token, a, b);
  }

  /** Without two parts, or with a second one that does not decode, a token is malformed. */
  lemma MalformedTokens(p: Primitives, token: string, now: int)
    requires forall a, b :: SplitsInto(token, a, b) ==> p.decode(b) == None
    ensures Validate(p, token, now) == Failed(Malformed)
  {
    var dot := IndexOf(token, '.');
    if dot < |token| {
      SplitsAtDot(token, token[..dot], token[dot + 1..]);
    }
  }

  // ---------------------------------------------------------------- the handler's check

  datatype Participant = Participant(sessionId: string, credentialVersion: int, revoked: bool)

  datatype Request = Request(authorization: string, headerParticipant: Option<int>, sessionId: string,
                             legacyParticipant: int)

  datatype Verdict =
    | Accepted(participant: int)
    | Unauthorized(credentialRevoked: bool)
    | Forbidden

  /** A verdict, and the slug under which a failure is counted. */
  datatype Decision = Decision(verdict: Verdict, slug: Option<string>)

  const BEARER := "Bearer "

  function BearerToken(authorization: string): string {
    if BEARER <= authorization then authorization[|BEARER|..] else ""
  }

  function ReasonSlug(e: TokenError): string {
    match e
    case Malformed => "malformed"
    case Expired => "expired"
    case Invalid => "invalid"
  }

  function Member(participants: map<int, Participant>, id: int, session: string): bool {
    id in participants && participants[id].sessionId == session
  }

  function DecideAnonymous(r: Request, participants: map<int, Participant>, required: bool): Decision {
    var id := if r.legacyParticipant == 0 && r.headerParticipant.Some?
              then r.headerParticipant.value else r.legacyParticipant;
    if required then Decision(Unauthorized(false), None)
    else if id != 0 && !Member(participants, id, r.sessionId)
      then Decision(Forbidden, Some("legacy_participant_mismatch"))
    else Decision(Accepted(id), None)
  }

  function DecideClaims(c: Claims, r: Request, participants: map<int, Participant>): Decision {
    if c.sessionId != r.sessionId then Decision(Forbidden, Some("session_mismatch"))
    else if r.legacyParticipant != 0 && c.participantId != r.legacyParticipant
      then Decision(Forbidden, Some("participant_mismatch"))
    else if !Member(participants, c.participantId, r.sessionId)
      then Decision(Unauthorized(false), Some("stale_credential"))
    else if participants[c.participantId].credentialVersion != c.credentialVersion
      then Decision(Unauthorized(true), Some("stale_credential"))
    else if participants[c.participantId].revoked then Decision(Unauthorized(true), Some("revoked"))
    else Decision(Accepted(c.participantId), None)
  }

  function Decide(p: Primitives, r: Request, participants: map<int, Participant>, required: bool, now: int): Decision {
    var token := BearerToken(r.authorization);
    if token == "" then DecideAnonymous(r, participants, required)
    else
      match Validate(p, token, now)
      case Failed(e) => Decision(Unauthorized(false), Some(ReasonSlug(e)))
      case Valid(c) => DecideClaims(c, r, participants)
  }

  class GuestGate {
    var failures: map<string, nat>

    constructor ()
      ensures failures == map[]
    {
      failures := map[];
    }

    function Count(reason: string): nat
      reads this
    {
      if reason in failures then failures[reason] else 0
    }

    method RecordFailure(reason: string)
      modifies this
      ensures failures == old(failures)[reason := old(Count(reason)) + 1]
    {
      failures := failures[reason := Count(reason) + 1];
    }

    method GuestParticipantID(p: Primitives, r: Request, participants: map<int, Participant>, required: bool, now: int)
      returns (verdict: Verdict)
      modifies this
      ensures var d := Decide(p, r, participants, required, now);
        && verdict == d.verdict
        && (d.slug.None? ==> failures == old(failures))
        && (d.slug.Some? ==>
              failures == old(failures)[d.slug.value := old(Count(d.slug.value)) + 1])
    {
      hide Validate, BearerToken, ReasonSlug;
      var token := BearerToken(r.authorization);
      if token == "" {
        var legacyParticipantID := r.legacyParticipant;
        if legacyParticipantID == 0 && r.headerParticipant.Some? {
          legacyParticipantID := r.headerParticipant.value;
        }
        if required {
          return Unauthorized(false);
        }
        if legacyParticipantID != 0 {
          if legacyParticipantID !in participants || participants[legacyParticipantID].sessionId != r.sessionId {
            RecordFailure("legacy_participant_mismatch");
            return Forbidden;
          }
        }
        return Accepted(legacyParticipantID);
      }
      var validation := Validate(p, token, now);
      if validation.Failed? {
        RecordFailure(ReasonSlug(validation.error));
        return Unauthorized(false);
      }
      var claims := validation.claims;
      if claims.sessionId != r.sessionId {
        RecordFailure("session_mismatch");
        return Forbidden;
      }
      if r.legacyParticipant != 0 && claims.participantId != r.legacyParticipant {
        RecordFailure("participant_mismatch");
        return Forbidden;
      }
      if claims.participantId !in participants || participants[claims.participantId].sessionId != r.sessionId {
        RecordFailure("stale_credential");
        return Unauthorized(false);
      }
      var participant := participants[claims.participantId];
      if participant.credentialVersion != claims.credentialVersion {
        RecordFailure("stale_credential");
        return Unauthorized(true);
      }
      if participant.revoked {
        RecordFailure("revoked");
        return Unauthorized(true);
      }
      return Accepted(claims.participantId);
    }
  }

  /** The token is what follows "Bearer " in the header; any other header carries none. */
  lemma BearerExactly(authorization: string, token: string)
    ensures BearerToken("Bearer " + token) == token
    ensures token != "" ==> (BearerToken(authorization) == token <==> authorization == "Bearer " + token)
  {
    if BEARER <= authorization {
      assert authorization == BEARER + authorization[|BEARER|..];
    }
  }

  /** Every refusal of a presented token has one cause, which its label names; foreign sessions and
      foreign participants are forbidden, everything else unauthorized, and the client is told its
      credential was revoked exactly when a member's version moved on or it was revoked. */
  lemma RefusalReasons(p: Primitives, r: Request, participants: map<int, Participant>, required: bool, now: int,
                       c: Claims)
    requires BearerToken(r.authorization) != "" && Validate(p, BearerToken(r.authorization), now) == Valid(c)
    ensures var d := Decide(p, r, participants, required, now);
      var member := c.participantId in participants && participants[c.participantId].sessionId == r.sessionId;
      var named := r.legacyParticipant == 0 || r.legacyParticipant == c.participantId;
      && (d.slug == Some("session_mismatch") <==> c.sessionId != r.sessionId)
      && (d.slug == Some("participant_mismatch") <==> c.sessionId == r.sessionId && !named)
      && (d.slug == Some("stale_credential") <==>
            && c.sessionId == r.sessionId && named
            && (!member || participants[c.participantId].credentialVersion != c.credentialVersion))
      && (d.slug == Some("revoked") <==>
            && c.sessionId == r.sessionId && named && member
            && participants[c.participantId].credentialVersion == c.credentialVersion
            && participants[c.participantId].revoked)
      && (d.slug == None <==> d.verdict == Accepted(c.participantId))
      && (d.verdict == Forbidden <==> d.slug in {Some("session_mismatch"), Some("participant_mismatch")})
      && (d.verdict == Unauthorized(true) <==>
            d.slug == Some("revoked") || (d.slug == Some("stale_credential") && member))
      && (d.verdict == Unauthorized(false) <==> d.slug == Some("stale_credential") && !member)
  {}

  /** A presented token that does not validate is always refused, under the name of what is wrong with it. */
  lemma BrokenTokensAreRefused(p: Primitives, r: Request, participants: map<int, Participant>, required: bool, now: int)
    requires BearerToken(r.authorization) != "" && Validate(p, BearerToken(r.authorization), now).Failed?
    ensures var error := Validate(p, BearerToken(r.authorization), now).error;
      Decide(p, r, participants, required, now) ==
      Decision(Unauthorized(false),
               Some(if error == Malformed then "malformed" else if error == Expired then "expired" else "invalid"))
  {}

  /** Without a token: refused where one is required; else the participant named in the request, or in the
      header if the request names none, is let in if it is a member or nobody. */
  lemma WithoutToken(p: Primitives, r: Request, participants: map<int, Participant>, required: bool, now: int)
    requires BearerToken(r.authorization) == ""
    ensures var d := Decide(p, r, participants, required, now);
      var id := if r.legacyParticipant != 0 then r.legacyParticipant
                else if r.headerParticipant.Some? then r.headerParticipant.value else 0;
      var member := id in participants && participants[id].sessionId == r.sessionId;
      && (d == Decision(Unauthorized(false), None) <==> required)
      && (d == Decision(Accepted(id), None) <==> !required && (id == 0 || member))
      && (d == Decision(Forbidden, Some("legacy_participant_mismatch")) <==> !required && id != 0 && !member)
  {}

  /** Nobody crosses sessions: an accepted participant is a member of the session, and being let in
      as nobody (participant 0, in no table) takes a request without any token while tokens are optional. */
  lemma AcceptedIsMember(p: Primitives, r: Request, participants: map<int, Participant>, required: bool, now: int)
    requires 0 !in participants
    requires Decide(p, r, participants, required, now).verdict.Accepted?
    ensures var id := Decide(p, r, participants, required, now).verdict.participant;
      && (id != 0 ==> Member(participants, id, r.sessionId))
      && (id == 0 ==> BearerToken(r.authorization) == "" && !required)
      && (BearerToken(r.authorization) != "" || required ==>
            Validate(p, BearerToken(r.authorization), now).Valid? && !participants[id].revoked)
  {}

  // ---------------------------------------------------------------- runs

  /** Time in nanoseconds, the participants table, and the claims of every token issued so far. */
  datatype World = World(now: int, participants: map<int, Participant>, issued: seq<Claims>)

  /** An issue works from a participant row read at some earlier moment, hence `seenVersion`. */
  datatype Event =
    | Elapse(nanoseconds: nat)
    | Join(id: int, session: string)
    | IssueToken(id: int, seenVersion: int, host: bool, branchId: int, tableId: int, organizationId: int, jti: string)
    | Revoke(session: string)
    | Rotate(session: string)

  function Revoked(participants: map<int, Participant>, session: string): map<int, Participant> {
    map id | id in participants ::
      if participants[id].sessionId == session then participants[id].(revoked := true) else participants[id]
  }

  function Rotated(participants: map<int, Participant>, session: string): map<int, Participant> {
    map id | id in participants ::
      if participants[id].sessionId == session
      then participants[id].(credentialVersion := participants[id].credentialVersion + 1)
      else participants[id]
  }

  /** The claims the session handler asks for. */
  function Template(row: Participant, e: Event): Claims
    requires e.IssueToken?
  {
    Claims("", row.sessionId, e.branchId, e.tableId, e.organizationId, if e.host then "host" else "guest", e.id,
           e.seenVersion, 0, 0, "", "")
  }

  function Step(w: World, ttl: int, e: Event): World {
    match e
    case Elapse(d) => w.(now := w.now + d)
    case Join(id, s) =>
      if id in w.participants then w else w.(participants := w.participants[id := Participant(s, 1, false)])
    case IssueToken(id, v, _, _, _, _, jti) =>
      if id in w.participants && v <= w.participants[id].credentialVersion
      then w.(issued := w.issued + [Filled(Template(w.participants[id], e), w.now, ttl, jti)])
      else w
    case Revoke(s) => w.(participants := Revoked(w.participants, s))
    case Rotate(s) => w.(participants := Rotated(w.participants, s))
  }

  function Run(w: World, ttl: int, events: seq<Event>): World
    decreases |events|
  {
    if events == [] then w else Run(Step(w, ttl, events[0]), ttl, events[1..])
  }

  function Start(now: int): World {
    World(now, map[], [])
  }

  /** Every issued token names a participant of its session, at a version not newer than the row's. */
  predicate Coherent(w: World) {
    forall c | c in w.issued ::
      && c.audience == GUEST_AUDIENCE
      && Member(w.participants, c.participantId, c.sessionId)
      && c.credentialVersion <= w.participants[c.participantId].credentialVersion
  }

  lemma {:induction false} RunsStayCoherent(w: World, ttl: int, events: seq<Event>)
    requires Coherent(w)
    ensures Coherent(Run(w, ttl, events))
    decreases |events|
  {
    if events == [] {
    } else {
      RunsStayCoherent(Step(w, ttl, events[0]), ttl, events[1..]);
    }
  }

  /** In every run, a request with an issued token is accepted exactly when the token has not expired
      and was issued for the session asked for, the request names its participant or nobody, and that
      participant is unrevoked and still at the token's version. */
  lemma IssuedTokenAccepted(p: Primitives, start: int, ttl: int, events: seq<Event>, c: Claims, r: Request,
                            required: bool)
    requires Lawful(p) && c in Run(Start(start), ttl, events).issued
    requires r.authorization == "Bearer " + Seal(p, c)
    ensures var w := Run(Start(start), ttl, events);
      && Member(w.participants, c.participantId, c.sessionId)
      && (Decide(p, r, w.participants, required, w.now).verdict == Accepted(c.participantId)
          <==>
          && w.now / 1_000_000_000 < c.expiresAt
          && c.sessionId == r.sessionId
          && r.legacyParticipant in {0, c.participantId}
          && !w.participants[c.participantId].revoked
          && w.participants[c.participantId].credentialVersion == c.credentialVersion)
      && (Decide(p, r, w.participants, required, w.now).verdict.Accepted? ==>
            Decide(p, r, w.participants, required, w.now).verdict == Accepted(c.participantId))
  {
    RunsStayCoherent(Start(start), ttl, events);
    SealRoundTrip(p, c, Run(Start(start), ttl, events).now);
    BearerExactly(r.authorization, Seal(p, c));
    assert Seal(p, c) != "";
  }

  /** Versions never go back and revocation is never undone. */
  lemma {:induction false} VersionsOnlyGrow(w: World, ttl: int, events: seq<Event>, id: int)
    requires id in w.participants
    ensures var after := Run(w, ttl, events);
      && Member(after.participants, id, w.participants[id].sessionId)
      && w.participants[id].credentialVersion <= after.participants[id].credentialVersion
      && (w.participants[id].revoked ==> after.participants[id].revoked)
      && w.now <= after.now
    decreases |events|
  {
    if events == [] {
    } else {
      VersionsOnlyGrow(Step(w, ttl, events[0]), ttl, events[1..], id);
    }
  }

  lemma {:induction false} RunAppend(w: World, ttl: int, a: seq<Event>, b: seq<Event>)
    ensures Run(w, ttl, a + b) == Run(Run(w, ttl, a), ttl, b)
    decreases |a|
  {
    if a == [] {
      assert a + b == b;
    } else {
      assert (a + b)[1..] == a[1..] + b;
      RunAppend(Step(w, ttl, a[0]), ttl, a[1..], b);
    }
  }

  /** No token issued for a session before a rotation is accepted by anyone after it, whatever
      happens next; while unexpired it is answered as a revoked credential. */
  lemma RotationInvalidates(p: Primitives, start: int, ttl: int, before: seq<Event>, session: string, after: seq<Event>,
                            c: Claims, r: Request, required: bool)
    requires Lawful(p) && c in Run(Start(start), ttl, before).issued && c.sessionId == session
    requires BearerToken(r.authorization) == Seal(p, c)
    ensures var w := Run(Start(start), ttl, before + [Rotate(session)] + after);
      var d := Decide(p, r, w.participants, required, w.now);
      && !d.verdict.Accepted?
      && (Unix(w.now) < c.expiresAt && r.sessionId == session && r.legacyParticipant in {0, c.participantId} ==>
            d == Decision(Unauthorized(true), Some("stale_credential")))
  {
    var w0 := Run(Start(start), ttl, before);
    var w1 := Step(w0, ttl, Rotate(session));
    RunsStayCoherent(Start(start), ttl, before);
    RunAppend(Start(start), ttl, before, [Rotate(session)]);
    RunAppend(Start(start), ttl, before + [Rotate(session)], after);
    assert Run(w0, ttl, [Rotate(session)]) == Run(w1, ttl, []) == w1;
    VersionsOnlyGrow(w1, ttl, after, c.participantId);
    SealRoundTrip(p, c, Run(w1, ttl, after).now);
    assert Seal(p, c) != "";
  }

  /** No token issued for a session is accepted by anyone after the session's participants were revoked,
      whatever happens next. */
  lemma RevocationInvalidates(p: Primitives, start: int, ttl: int, before: seq<Event>, session: string,
                              after: seq<Event>, c: Claims, r: Request, required: bool)
    requires Lawful(p) && c in Run(Start(start), ttl, before).issued && c.sessionId == session
    requires r.authorization == "Bearer " + Seal(p, c)
    ensures var w := Run(Start(start), ttl, before + [Revoke(session)] + after);
      !Decide(p, r, w.participants, required, w.now).verdict.Accepted?
  {
    var w0 := Run(Start(start), ttl, before);
    var w1 := Step(w0, ttl, Revoke(session));
    RunsStayCoherent(Start(start), ttl, before);
    RunAppend(Start(start), ttl, before, [Revoke(session)]);
    RunAppend(Start(start), ttl, before + [Revoke(session)], after);
    assert Run(w0, ttl, [Revoke(session)]) == Run(w1, ttl, []) == w1;
    VersionsOnlyGrow(w1, ttl, after, c.participantId);
    SealRoundTrip(p, c, Run(w1, ttl, after).now);
    BearerExactly(r.authorization, Seal(p, c));
    assert Seal(p, c) != "";
  }
}

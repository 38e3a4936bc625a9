// The central policy for staff actions and its two modes: enforcing it, or in shadow mode only
// recording what enforcement would have refused.
module Authorization {
  import opened Wrappers

  type Role = string

  const OWNER: Role := "owner"
  const MANAGER: Role := "manager"
  const WAITER: Role := "waiter"
  const KITCHEN: Role := "kitchen"

  const STAFF := "staff"

  datatype Action =
    | OrganizationRead | OrganizationUpdate | BranchRead | BranchUpdateSettings
    | StaffCreate | StaffUpdateRole | StaffDeactivate | StaffPinUpdate | StaffPinReset | StaffListRead
    | MenuItemUpdate | MenuItemToggleAvailable | MenuCategoryUpdate | MenuModifierUpdate
    | OrderStatusUpdate | OrderMarkServed | AssistanceAck | AssistanceResolve
    | PaymentSettleStaff | PaymentCancelStaff | SessionForceClose
    | PromoCreate | PromoDeactivate | AuditReadBranch | CustomerHistory | CustomerDelete
    | Unlisted(name: string)

  /** `ofSession` says whether a session id is set. */
  datatype Scope = Scope(organizationId: int, branchId: int, ofSession: bool)
  datatype Actor = Actor(kind: string, id: int, role: Role, scope: Scope)

  datatype Reason = UnsupportedActor | OtherBranch | OtherOrganization | RoleNotAllowed | Fine

  datatype Decision = Decision(allowed: bool, reason: Reason, scopeViolation: bool)

  predicate SameBranch(a: Scope, b: Scope) {
    a.branchId != 0 && a.branchId == b.branchId
  }

  predicate SameOrganization(a: Scope, b: Scope) {
    a.organizationId != 0 && a.organizationId == b.organizationId
  }

  predicate RequiresSameBranch(action: Action) {
    match action
    case OrderStatusUpdate | OrderMarkServed | AssistanceAck | AssistanceResolve => true
    case MenuItemUpdate | MenuItemToggleAvailable | MenuCategoryUpdate | MenuModifierUpdate => true
    case PromoCreate | PromoDeactivate => true
    case PaymentSettleStaff | PaymentCancelStaff | SessionForceClose => true
    case StaffCreate | StaffUpdateRole | StaffDeactivate | StaffPinUpdate | StaffPinReset | StaffListRead => true
    case BranchRead | BranchUpdateSettings | AuditReadBranch => true
    case _ => false
  }

  predicate RequiresSameOrganization(action: Action) {
    match action
    case OrganizationRead | OrganizationUpdate | CustomerHistory | CustomerDelete => true
    case _ => false
  }

  predicate RoleAllowed(role: Role, action: Action) {
    match action
    case OrderStatusUpdate | AssistanceAck | AssistanceResolve => role in {OWNER, MANAGER, WAITER, KITCHEN}
    case OrderMarkServed => role in {OWNER, MANAGER, WAITER}
    case MenuItemUpdate | MenuItemToggleAvailable | MenuCategoryUpdate | MenuModifierUpdate => role in {OWNER, MANAGER}
    case PromoCreate | PromoDeactivate | CustomerDelete => role in {OWNER, MANAGER}
    case CustomerHistory => role in {OWNER, MANAGER, WAITER, KITCHEN}
    case StaffCreate | StaffUpdateRole | StaffDeactivate => role == OWNER
    case StaffPinUpdate => role in {OWNER, MANAGER, WAITER, KITCHEN}
    case StaffPinReset | StaffListRead => role in {OWNER, MANAGER}
    case BranchRead => role != ""
    case AuditReadBranch => role in {OWNER, MANAGER}
    case PaymentSettleStaff | PaymentCancelStaff => role in {OWNER, MANAGER, WAITER}
    case SessionForceClose => role in {OWNER, MANAGER}
    case BranchUpdateSettings | OrganizationRead | OrganizationUpdate => role in {OWNER, MANAGER}
    case Unlisted(_) => false
  }

  /** The action's tenant boundary lies between the actor and the resource. */
  predicate CrossesTenant(actor: Actor, action: Action, resource: Scope) {
    || (RequiresSameBranch(action) && !SameBranch(actor.scope, resource))
    || (RequiresSameOrganization(action) && !SameOrganization(actor.scope, resource))
  }

  predicate Permitted(actor: Actor, action: Action, resource: Scope) {
    actor.kind == STAFF && !CrossesTenant(actor, action, resource) && RoleAllowed(actor.role, action)
  }

  method Authorize(actor: Actor, action: Action, resource: Scope) returns (decision: Decision)
    ensures decision.allowed <==> Permitted(actor, action, resource)
    ensures decision.scopeViolation <==> actor.kind == STAFF && CrossesTenant(actor, action, resource)
    ensures decision.reason == Fine <==> decision.allowed
    ensures decision.reason == UnsupportedActor <==> actor.kind != STAFF
    ensures decision.reason == OtherBranch <==>
      actor.kind == STAFF && RequiresSameBranch(action) && !SameBranch(actor.scope, resource)
    ensures decision.reason == OtherOrganization <==>
      actor.kind == STAFF && RequiresSameOrganization(action) && !SameOrganization(actor.scope, resource)
  {
    decision := Decision(false, Fine, false);
    if actor.kind != STAFF {
      return decision.(reason := UnsupportedActor);
    }
    if RequiresSameBranch(action) && !SameBranch(actor.scope, resource) {
      decision := decision.(reason := OtherBranch);
      return decision.(scopeViolation := true);
    }
    if RequiresSameOrganization(action) && !SameOrganization(actor.scope, resource) {
      decision := decision.(reason := OtherOrganization);
      return decision.(scopeViolation := true);
    }
    if !RoleAllowed(actor.role, action) {
      return decision.(reason := RoleNotAllowed);
    }
    decision := decision.(allowed := true);
    return decision.(reason := Fine);
  }

  /** Every listed action has exactly one tenant boundary; a name outside the list is never permitted. */
  lemma EveryActionIsScoped(actor: Actor, action: Action, resource: Scope)
    ensures action.Unlisted? ==> !Permitted(actor, action, resource)
    ensures !action.Unlisted? ==> (RequiresSameBranch(action) <==> !RequiresSameOrganization(action))
  {}

  /** Kitchen, waiter, manager, owner: each role may do all that the one before may. */
  lemma RolesAreNested(action: Action)
    ensures RoleAllowed(KITCHEN, action) ==> RoleAllowed(WAITER, action)
    ensures RoleAllowed(WAITER, action) ==> RoleAllowed(MANAGER, action)
    ensures RoleAllowed(MANAGER, action) ==> RoleAllowed(OWNER, action)
  {}

  /** What each role may do, role by role. */
  lemma RoleTable(role: Role, action: Action)
    ensures RoleAllowed("kitchen", action) <==>
      action in {OrderStatusUpdate, AssistanceAck, AssistanceResolve, CustomerHistory, StaffPinUpdate, BranchRead}
    ensures RoleAllowed("waiter", action) <==>
      RoleAllowed("kitchen", action) || action in {OrderMarkServed, PaymentSettleStaff, PaymentCancelStaff}
    ensures RoleAllowed("manager", action) <==>
      !action.Unlisted? && action !in {StaffCreate, StaffUpdateRole, StaffDeactivate}
    ensures RoleAllowed("owner", action) <==> !action.Unlisted?
    ensures role !in {"kitchen", "waiter", "manager", "owner"} ==>
      (RoleAllowed(role, action) <==> role != "" && action == BranchRead)
  {}

  /** Four actions stay within an organization, every other listed one within a branch. */
  lemma BoundaryTable(action: Action)
    ensures var organizational := {OrganizationRead, OrganizationUpdate, CustomerHistory, CustomerDelete};
      && (RequiresSameOrganization(action) <==> action in organizational)
      && (RequiresSameBranch(action) <==> !action.Unlisted? && action !in organizational)
  {}

  /** A permitted actor is staff, and its branch or organization is the resource's own. */
  lemma PermittedExactly(actor: Actor, action: Action, resource: Scope)
    ensures Permitted(actor, action, resource) <==>
      && actor.kind == "staff" && RoleAllowed(actor.role, action)
      && (RequiresSameBranch(action) ==> actor.scope.branchId == resource.branchId && resource.branchId != 0)
      && (RequiresSameOrganization(action) ==>
            actor.scope.organizationId == resource.organizationId && resource.organizationId != 0)
  {}

  // ---------------------------------------------------------------- the two modes

  datatype Request = Request(actor: Actor, action: Action, resource: Scope)

  /** Whether a refusal by the policy blocks the request: tenant boundaries always do. */
  predicate Blocks(enforce: bool, r: Request) {
    && !Permitted(r.actor, r.action, r.resource)
    && (enforce || (r.actor.kind == STAFF && CrossesTenant(r.actor, r.action, r.resource)))
  }

  predicate Passes(enforce: bool, r: Request) {
    !Blocks(enforce, r)
  }

  datatype AuditRow = AuditRow(request: Request, enforced: bool)

  /** The counters of the rollout, the audit rows, and the AUTHZ_DENIED entries of the event log. */
  datatype Ledger = Ledger(bypasses: nat, shadowMismatches: nat, denials: nat, audit: seq<AuditRow>, log: seq<Request>)

  /** The event log takes a denial that belongs to a branch or a session. */
  predicate Loggable(resource: Scope) {
    resource.branchId != 0 || resource.ofSession
  }

  function Recorded(l: Ledger, enforce: bool, auditing: bool, r: Request): Ledger {
    if Permitted(r.actor, r.action, r.resource) then l
    else
      var logged := if Loggable(r.resource) then l.(log := l.log + [r]) else l;
      var audited := if auditing then logged.(audit := l.audit + [AuditRow(r, Blocks(enforce, r))]) else logged;
      if Blocks(enforce, r) then audited.(denials := l.denials + 1)
      else audited.(bypasses := l.bypasses + 1, shadowMismatches := l.shadowMismatches + 1)
  }

  class Gatekeeper {
    const enforce: bool
    const auditing: bool
    var legacyAuthzBypassTotal: nat
    var policyShadowMismatchTotal: nat
    var authzDeniedTotal: nat
    var auditRows: seq<AuditRow>
    var eventLog: seq<Request>

    constructor (enforce: bool, auditing: bool)
      ensures this.enforce == enforce && this.auditing == auditing && Value() == Ledger(0, 0, 0, [], [])
    {
      this.enforce, this.auditing := enforce, auditing;
      legacyAuthzBypassTotal, policyShadowMismatchTotal, authzDeniedTotal := 0, 0, 0;
      auditRows, eventLog := [], [];
    }

    function Value(): Ledger
      reads this
    {
      Ledger(legacyAuthzBypassTotal, policyShadowMismatchTotal, authzDeniedTotal, auditRows, eventLog)
    }

    method LogAuthzDenied(r: Request)
      modifies this`eventLog
      ensures eventLog == old(eventLog) + if Loggable(r.resource) then [r] else []
    {
      if r.resource.branchId == 0 && !r.resource.ofSession {
        return;
      }
      eventLog := eventLog + [r];
    }

    method RequireAuthorized(actor: Actor, action: Action, resource: Scope) returns (ok: bool)
      modifies this
      ensures ok == Passes(enforce, Request(actor, action, resource))
      ensures Value() == Recorded(old(Value()), enforce, auditing, Request(actor, action, resource))
      ensures ok <==> Permitted(actor, action, resource) ||
                      (!enforce && !(actor.kind == "staff" && CrossesTenant(actor, action, resource)))
      ensures var denied := !Permitted(actor, action, resource);
        && auditRows == old(auditRows) +
                        (if denied && auditing then [AuditRow(Request(actor, action, resource), !ok)] else [])
        && eventLog == old(eventLog) +
                       (if denied && (resource.branchId != 0 || resource.ofSession)
                        then [Request(actor, action, resource)] else [])
        && authzDeniedTotal == old(authzDeniedTotal) + (if ok then 0 else 1)
        && policyShadowMismatchTotal == old(policyShadowMismatchTotal) + (if ok && denied then 1 else 0)
        && legacyAuthzBypassTotal == old(legacyAuthzBypassTotal) + (if ok && denied then 1 else 0)
    {
      var decision := Authorize(actor, action, resource);
      if decision.allowed {
        return true;
      }
      LogAuthzDenied(Request(actor, action, resource));
      var enforced := enforce || decision.scopeViolation;
      if auditing {
        auditRows := auditRows + [AuditRow(Request(actor, action, resource), enforced)];
      }
      if !enforced {
        legacyAuthzBypassTotal := legacyAuthzBypassTotal + 1;
        policyShadowMismatchTotal := policyShadowMismatchTotal + 1;
        return true;
      }
      authzDeniedTotal := authzDeniedTotal + 1;
      return false;
    }
  }

  /** The backstop behind the policy on routes that name a resource of a branch. */
  predicate RequireActorBranch(staffBranch: int, resourceBranch: int) {
    staffBranch != 0 && staffBranch == resourceBranch
  }

  // ---------------------------------------------------------------- what the rollout measures

  function LedgerAfter(l: Ledger, enforce: bool, auditing: bool, requests: seq<Request>): Ledger
    decreases |requests|
  {
    if requests == [] then l
    else LedgerAfter(Recorded(l, enforce, auditing, requests[0]), enforce, auditing, requests[1..])
  }

  /** How many requests a switch to enforcement would turn from passed to refused. */
  function Flipped(requests: seq<Request>): nat {
    if requests == [] then 0
    else (if Passes(false, requests[0]) && !Passes(true, requests[0]) then 1 else 0) + Flipped(requests[1..])
  }

  function Blocked(enforce: bool, requests: seq<Request>): nat {
    if requests == [] then 0 else (if Blocks(enforce, requests[0]) then 1 else 0) + Blocked(enforce, requests[1..])
  }

  /** How many requests the policy does not permit and the event log takes. */
  function Denied(requests: seq<Request>): nat {
    if requests == [] then 0
    else
      var r := requests[0];
      (if !Permitted(r.actor, r.action, r.resource) && Loggable(r.resource) then 1 else 0) + Denied(requests[1..])
  }

  /** Over any trace of requests in shadow mode, the mismatch counter rises by exactly the number of
      requests enforcement would flip; in enforcing mode it never moves. The denial counter counts
      the refused requests in both modes, and the event log takes the same number in both. */
  lemma {:induction false} CountersMeasureTheFlip(l: Ledger, enforce: bool, auditing: bool, requests: seq<Request>)
    ensures var after := LedgerAfter(l, enforce, auditing, requests);
      && after.shadowMismatches == l.shadowMismatches + (if enforce then 0 else Flipped(requests))
      && after.bypasses - l.bypasses == after.shadowMismatches - l.shadowMismatches
      && after.denials == l.denials + Blocked(enforce, requests)
      && |after.log| == |l.log| + Denied(requests)
    decreases |requests|
  {
    if requests == [] {
    } else {
      CountersMeasureTheFlip(Recorded(l, enforce, auditing, requests[0]), enforce, auditing, requests[1..]);
    }
  }

  /** Enforcement only takes approvals away, and what it takes away is what shadow mode counted. */
  lemma {:induction false} EnforcementOnlyRemoves(requests: seq<Request>)
    ensures forall r :: Passes(true, r) ==> Passes(false, r)
    ensures Blocked(true, requests) == Blocked(false, requests) + Flipped(requests)
  {
    if requests == [] {
    } else {
      EnforcementOnlyRemoves(requests[1..]);
    }
  }

  /** A branch-scoped action is approved only inside the actor's own branch, for every resource,
      exactly when the policy is enforced or the actor is staff. */
  lemma OwnBranchOnly(enforce: bool, actor: Actor, action: Action)
    requires RequiresSameBranch(action)
    ensures (forall resource ::
               Passes(enforce, Request(actor, action, resource)) ==>
                 actor.scope.branchId == resource.branchId && resource.branchId != 0)
            <==> enforce || actor.kind == "staff"
  {
    if !enforce && actor.kind != STAFF {
      var elsewhere := Scope(actor.scope.organizationId, actor.scope.branchId + 1, false);
      assert Passes(enforce, Request(actor, action, elsewhere)) && !SameBranch(actor.scope, elsewhere);
    }
  }

  /** The same for the actions scoped to an organization. */
  lemma OwnOrganizationOnly(enforce: bool, actor: Actor, action: Action)
    requires RequiresSameOrganization(action)
    ensures (forall resource ::
               Passes(enforce, Request(actor, action, resource)) ==>
                 actor.scope.organizationId == resource.organizationId && resource.organizationId != 0)
            <==> enforce || actor.kind == "staff"
  {
    if !enforce && actor.kind != STAFF {
      var elsewhere := Scope(actor.scope.organizationId + 1, actor.scope.branchId, false);
      assert Passes(enforce, Request(actor, action, elsewhere)) && !SameOrganization(actor.scope, elsewhere);
    }
  }
}

// The status tables of orders, sessions, assistance requests and payments, and what
// every run that respects them can and cannot do.
module Lifecycle {

  datatype OrderStatus =
    | OrderPending | OrderConfirmed | OrderPreparing | OrderReady | OrderServed | OrderCancelled

  datatype SessionStatus =
    | SessionActive | SessionPaymentPending | SessionAwaitingReactivation
    | SessionClosed | SessionAbandoned | SessionExpired

  datatype AssistanceStatus = AssistancePending | AssistanceAcknowledged | AssistanceResolved

  datatype PaymentStatus =
    | PaymentPending | PaymentRequested | PaymentProviderPending | PaymentRequiresStaffConfirmation
    | PaymentCompleted | PaymentFailed | PaymentCancelled | PaymentRefunded | PaymentPartiallyRefunded

  const ORDER_TRANSITIONS: map<OrderStatus, seq<OrderStatus>> := map[
    OrderPending := [OrderConfirmed, OrderCancelled],
    OrderConfirmed := [OrderPreparing, OrderCancelled],
    OrderPreparing := [OrderReady, OrderCancelled],
    OrderReady := [OrderServed],
    OrderServed := [],
    OrderCancelled := []
  ]

  const SESSION_TRANSITIONS: map<SessionStatus, seq<SessionStatus>> := map[
    SessionActive := [SessionPaymentPending, SessionAwaitingReactivation, SessionClosed, SessionAbandoned,
                      SessionExpired],
    SessionPaymentPending := [SessionActive, SessionAwaitingReactivation, SessionClosed, SessionAbandoned,
                              SessionExpired],
    SessionAwaitingReactivation := [SessionActive, SessionPaymentPending, SessionAbandoned, SessionExpired,
                                    SessionClosed],
    SessionClosed := [],
    SessionAbandoned := [],
    SessionExpired := []
  ]

  const ASSISTANCE_TRANSITIONS: map<AssistanceStatus, seq<AssistanceStatus>> := map[
    AssistancePending := [AssistanceAcknowledged, AssistanceResolved],
    AssistanceAcknowledged := [AssistanceResolved],
    AssistanceResolved := []
  ]

  const PAYMENT_TRANSITIONS: map<PaymentStatus, seq<PaymentStatus>> := map[
    PaymentPending := [PaymentCompleted, PaymentFailed, PaymentProviderPending, PaymentRequiresStaffConfirmation],
    PaymentRequested := [PaymentProviderPending, PaymentRequiresStaffConfirmation, PaymentCancelled, PaymentFailed],
    PaymentProviderPending := [PaymentCompleted, PaymentFailed, PaymentCancelled],
    PaymentRequiresStaffConfirmation := [PaymentCompleted, PaymentFailed, PaymentCancelled],
    PaymentCompleted := [PaymentRefunded, PaymentPartiallyRefunded],
    PaymentPartiallyRefunded := [PaymentRefunded],
    PaymentFailed := [PaymentPending, PaymentRequested],
    PaymentCancelled := [],
    PaymentRefunded := []
  ]

  /** The table lists `to` among the statuses reachable from `from` in one step. */
  predicate Permits<T(==)>(table: map<T, seq<T>>, from: T, to: T) {
    from in table && to in table[from]
  }

  /** The scan behind the four Validate*Transition functions; false stands for the sentinel error. */
  method ValidateTransition<T(==)>(from: T, to: T, table: map<T, seq<T>>) returns (ok: bool)
    ensures ok <==> Permits(table, from, to)
  {
    if from !in table {
      return false;
    }
    var allowed := table[from];
    for i := 0 to |allowed|
      invariant to !in allowed[..i]
    {
      if allowed[i] == to {
        return true;
      }
    }
    return false;
  }

  /** Orders go down one line, and may be cancelled before they are ready. */
  lemma OrderMovesExactly(s: OrderStatus, t: OrderStatus)
    ensures Permits(ORDER_TRANSITIONS, s, t) <==>
      || (s == OrderPending && t == OrderConfirmed)
      || (s == OrderConfirmed && t == OrderPreparing)
      || (s == OrderPreparing && t == OrderReady)
      || (s == OrderReady && t == OrderServed)
      || (s in {OrderPending, OrderConfirmed, OrderPreparing} && t == OrderCancelled)
  {}

  /** An open session may become anything else, a terminal one nothing. */
  lemma SessionMovesExactly(s: SessionStatus, t: SessionStatus)
    ensures Permits(SESSION_TRANSITIONS, s, t) <==> s !in {SessionClosed, SessionAbandoned, SessionExpired} && s != t
  {}

  /** From where each payment status is reached. */
  lemma PaymentMovesExactly(s: PaymentStatus, t: PaymentStatus)
    ensures Permits(PAYMENT_TRANSITIONS, s, t) <==>
      match t
      case PaymentPending | PaymentRequested => s == PaymentFailed
      case PaymentProviderPending | PaymentRequiresStaffConfirmation => s in {PaymentPending, PaymentRequested}
      case PaymentCompleted => s in {PaymentPending, PaymentProviderPending, PaymentRequiresStaffConfirmation}
      case PaymentFailed =>
        s in {PaymentPending, PaymentRequested, PaymentProviderPending, PaymentRequiresStaffConfirmation}
      case PaymentCancelled => s in {PaymentRequested, PaymentProviderPending, PaymentRequiresStaffConfirmation}
      case PaymentPartiallyRefunded => s == PaymentCompleted
      case PaymentRefunded => s in {PaymentCompleted, PaymentPartiallyRefunded}
  {}

  predicate IsSessionTerminal(s: SessionStatus) {
    match s
    case SessionClosed | SessionAbandoned | SessionExpired => true
    case _ => false
  }

  /** A run visits one status after another, each step permitted by the table. */
  ghost predicate ValidRun<T(!new)>(table: map<T, seq<T>>, run: seq<T>) {
    |run| > 0 && forall i {:trigger run[i]} | 0 <= i < |run| - 1 :: Permits(table, run[i], run[i + 1])
  }

  /** A set of statuses that no permitted step leaves. */
  ghost predicate Closed<T(!new)>(table: map<T, seq<T>>, inside: set<T>) {
    forall s, t | s in inside && Permits(table, s, t) :: t in inside
  }

  lemma {:induction false} RunStaysInside<T(!new)>(table: map<T, seq<T>>, run: seq<T>, inside: set<T>, i: nat, j: nat)
    requires ValidRun(table, run) && Closed(table, inside)
    requires i <= j < |run| && run[i] in inside
    ensures run[j] in inside
  {
    if i < j {
      RunStaysInside(table, run, inside, i, j - 1);
      assert Permits(table, run[j - 1], run[j]);
    }
  }

  // ---------------------------------------------------------------- sessions

  lemma OneStepMore(run: seq<SessionStatus>, i: nat, t: SessionStatus)
    requires ValidRun(SESSION_TRANSITIONS, run) && i < |run| && Permits(SESSION_TRANSITIONS, run[i], t)
    ensures ValidRun(SESSION_TRANSITIONS, run[..i + 1] + [t])
  {
    var longer := run[..i + 1] + [t];
    hide Permits;
    forall k | 0 <= k < |longer| - 1 ensures Permits(SESSION_TRANSITIONS, longer[k], longer[k + 1]) {
      if k < i {
        assert longer[k] == run[k] && longer[k + 1] == run[k + 1];
      }
    }
  }

  lemma WaysOut(s: SessionStatus)
    ensures IsSessionTerminal(s) <==> forall t :: !Permits(SESSION_TRANSITIONS, s, t)
    ensures !IsSessionTerminal(s) ==> forall t | IsSessionTerminal(t) :: Permits(SESSION_TRANSITIONS, s, t)
  {
    if !IsSessionTerminal(s) {
      assert Permits(SESSION_TRANSITIONS, s, SessionClosed);
    }
  }

  /** The terminal statuses are exactly those with nowhere to go, and a run can only end in one. */
  lemma SessionTerminalEndsRun(run: seq<SessionStatus>, i: nat)
    requires ValidRun(SESSION_TRANSITIONS, run) && i < |run|
    ensures IsSessionTerminal(run[i]) <==> forall t :: !Permits(SESSION_TRANSITIONS, run[i], t)
    ensures IsSessionTerminal(run[i]) ==> i == |run| - 1
    ensures !IsSessionTerminal(run[i]) ==>
      forall t | IsSessionTerminal(t) :: ValidRun(SESSION_TRANSITIONS, run[..i + 1] + [t])
  {
    WaysOut(run[i]);
    assert i < |run| - 1 ==> Permits(SESSION_TRANSITIONS, run[i], run[i + 1]);
    hide Permits, ValidRun, IsSessionTerminal;
    if !IsSessionTerminal(run[i]) {
      forall t | IsSessionTerminal(t) ensures ValidRun(SESSION_TRANSITIONS, run[..i + 1] + [t]) {
        OneStepMore(run, i, t);
      }
    }
  }

  // ---------------------------------------------------------------- assistance requests

  function Stage(s: AssistanceStatus): nat {
    match s
    case AssistancePending => 0
    case AssistanceAcknowledged => 1
    case AssistanceResolved => 2
  }

  /** An assistance request only moves forward, so no run of it takes more than two steps, and one
      that was resolved is over. */
  lemma AssistanceOnlyAdvances(run: seq<AssistanceStatus>, i: nat)
    requires ValidRun(ASSISTANCE_TRANSITIONS, run) && i < |run|
    ensures i <= Stage(run[i])
    ensures |run| <= 3 && (run[i] == AssistanceResolved ==> i == |run| - 1)
  {
    AssistanceStage(run, |run| - 1);
    AssistanceStage(run, i);
    if i < |run| - 1 {
      assert Permits(ASSISTANCE_TRANSITIONS, run[i], run[i + 1]);
    }
  }

  /** A request moves to any later stage, and only there. */
  lemma AssistanceMovesExactly(s: AssistanceStatus, t: AssistanceStatus)
    ensures Permits(ASSISTANCE_TRANSITIONS, s, t) <==> Stage(s) < Stage(t)
  {}

  lemma {:induction false} AssistanceStage(run: seq<AssistanceStatus>, i: nat)
    requires ValidRun(ASSISTANCE_TRANSITIONS, run) && i < |run|
    ensures i <= Stage(run[i])
  {
    if i == 0 {
    } else {
      AssistanceStage(run, i - 1);
      assert Permits(ASSISTANCE_TRANSITIONS, run[i - 1], run[i]);
    }
  }

  // ---------------------------------------------------------------- payments

  /** How many steps of a run enter the failed status. */
  ghost function FailedEntries(run: seq<PaymentStatus>): nat {
    if |run| <= 1 then 0
    else (if run[1] == PaymentFailed then 1 else 0) + FailedEntries(run[1..])
  }

  /** Steps still available before a run must end or fail again. */
  ghost function Potential(s: PaymentStatus): nat {
    match s
    case PaymentFailed => 5
    case PaymentPending => 4
    case PaymentRequested => 4
    case PaymentProviderPending => 3
    case PaymentRequiresStaffConfirmation => 3
    case PaymentCompleted => 2
    case PaymentPartiallyRefunded => 1
    case PaymentRefunded => 0
    case PaymentCancelled => 0
  }

  lemma {:induction false} RunSpendsPotential(run: seq<PaymentStatus>)
    requires ValidRun(PAYMENT_TRANSITIONS, run)
    ensures |run| - 1 + Potential(run[|run| - 1]) <= 3 * FailedEntries(run) + Potential(run[0])
  {
    if |run| > 1 {
      assert Permits(PAYMENT_TRANSITIONS, run[0], run[1]);
      var rest := run[1..];
      forall i | 0 <= i < |rest| - 1
        ensures Permits(PAYMENT_TRANSITIONS, rest[i], rest[i + 1])
      {
        assert rest[i] == run[i + 1] && rest[i + 1] == run[i + 2];
      }
      RunSpendsPotential(rest);
    }
  }

  /** A payment that starts fresh and fails k times is over within 3k + 4 steps. */
  lemma PaymentRunBound(run: seq<PaymentStatus>)
    requires ValidRun(PAYMENT_TRANSITIONS, run)
    requires run[0] == PaymentPending || run[0] == PaymentRequested
    ensures |run| - 1 <= 3 * FailedEntries(run) + 4
  {
    RunSpendsPotential(run);
  }

  ghost function LongestRun(k: nat): (run: seq<PaymentStatus>)
    ensures |run| > 0
  {
    if k == 0 then
      [PaymentPending] + ([PaymentProviderPending]
                          + ([PaymentCompleted] + ([PaymentPartiallyRefunded] + [PaymentRefunded])))
    else
      [PaymentPending] + ([PaymentProviderPending] + ([PaymentFailed] + LongestRun(k - 1)))
  }

  lemma PrependStep(s: PaymentStatus, rest: seq<PaymentStatus>) returns (run: seq<PaymentStatus>)
    requires ValidRun(PAYMENT_TRANSITIONS, rest) && Permits(PAYMENT_TRANSITIONS, s, rest[0])
    ensures run == [s] + rest && run[0] == s && |run| == |rest| + 1
    ensures ValidRun(PAYMENT_TRANSITIONS, run)
    ensures FailedEntries(run) == FailedEntries(rest) + if rest[0] == PaymentFailed then 1 else 0
  {
    run := [s] + rest;
    assert run[1..] == rest;
    forall i | 0 <= i < |run| - 1
      ensures Permits(PAYMENT_TRANSITIONS, run[i], run[i + 1])
    {
      if i > 0 {
        assert run[i] == rest[i - 1] && run[i + 1] == rest[i];
      }
    }
  }

  lemma UnfailedRun()
    ensures var run := LongestRun(0);
      ValidRun(PAYMENT_TRANSITIONS, run) && run[0] == PaymentPending && FailedEntries(run) == 0 && |run| == 5
  {
    var r := PrependStep(PaymentPartiallyRefunded, [PaymentRefunded]);
    r := PrependStep(PaymentCompleted, r);
    r := PrependStep(PaymentProviderPending, r);
    r := PrependStep(PaymentPending, r);
  }

  /** A failed attempt in front of a run that starts pending. */
  lemma FailedAttempt(rest: seq<PaymentStatus>) returns (run: seq<PaymentStatus>)
    requires ValidRun(PAYMENT_TRANSITIONS, rest) && rest[0] == PaymentPending
    ensures run == [PaymentPending] + ([PaymentProviderPending] + ([PaymentFailed] + rest))
    ensures ValidRun(PAYMENT_TRANSITIONS, run) && run[0] == PaymentPending
    ensures |run| == |rest| + 3 && FailedEntries(run) == FailedEntries(rest) + 1
  {
    hide ValidRun, FailedEntries;
    AttemptSteps();
    var failed := PrependStep(PaymentFailed, rest);
    var asked := PrependStep(PaymentProviderPending, failed);
    run := PrependStep(PaymentPending, asked);
  }

  lemma AttemptSteps()
    ensures Permits(PAYMENT_TRANSITIONS, PaymentFailed, PaymentPending)
    ensures Permits(PAYMENT_TRANSITIONS, PaymentProviderPending, PaymentFailed)
    ensures Permits(PAYMENT_TRANSITIONS, PaymentPending, PaymentProviderPending)
  {}

  /** The bound is exact: for every k some run with k failures takes 3k + 4 steps. */
  lemma {:induction false} PaymentRunBoundIsTight(k: nat)
    ensures var run := LongestRun(k);
      ValidRun(PAYMENT_TRANSITIONS, run) && run[0] == PaymentPending &&
      FailedEntries(run) == k && |run| - 1 == 3 * k + 4
  {
    if k == 0 {
      UnfailedRun();
    } else {
      hide ValidRun, FailedEntries;
      PaymentRunBoundIsTight(k - 1);
      var r := FailedAttempt(LongestRun(k - 1));
    }
  }

  const PAID: set<PaymentStatus> := {PaymentCompleted, PaymentPartiallyRefunded, PaymentRefunded}

  /** Money once taken stays taken or refunded. */
  lemma PaidStaysPaid(run: seq<PaymentStatus>, i: nat, j: nat)
    requires ValidRun(PAYMENT_TRANSITIONS, run) && i <= j < |run|
    requires run[i] == PaymentCompleted
    ensures run[j] in PAID
  {
    RunStaysInside(PAYMENT_TRANSITIONS, run, PAID, i, j);
  }

  /** No refund without a completed payment before it. */
  lemma {:induction false} RefundPassesCompleted(run: seq<PaymentStatus>, j: nat)
    requires ValidRun(PAYMENT_TRANSITIONS, run) && j < |run|
    requires run[0] !in PAID
    requires run[j] == PaymentRefunded || run[j] == PaymentPartiallyRefunded
    ensures exists i :: 0 < i < j && run[i] == PaymentCompleted
  {
    assert Permits(PAYMENT_TRANSITIONS, run[j - 1], run[j]);
    if run[j - 1] != PaymentCompleted {
      RefundPassesCompleted(run, j - 1);
    }
  }
}

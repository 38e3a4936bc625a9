# A verified model of QR dining

The system serves restaurant tables: a guest scans a QR code, joins a table session in the browser,
orders, asks for assistance and pays; staff move orders along and settle payments. This project models
the parts of it where state, order of events or arithmetic make mistakes easy, and proves what those
parts are meant to guarantee, for every input, every run and every interleaving.

`dafny verify dfyconfig.toml` checks the whole project.

## What is modelled

* **The guest client as a replica** (`ClientState`, `Effects`, `Stores`, `SessionFields`,
  `Convergence`, `OrderReplay`, `HostCoherence`, `CursorReplay`, `Publishing`). Each WebSocket event is a step on the session, orders
  and assistance stores. The stores are classes updated in place and every method is tied to a value-level
  step; the theorems are about sequences of such steps. The publisher appends to a durable log and then
  sends, both halves can fail and calls interleave, so live delivery loses, repeats and reorders. Replaying
  a log absorbs any live deliveries drawn from it: exactly for the session and assistance stores, and for
  orders exactly when the log is *settled*, which every log that places each order once and before its
  status events is. The client asks for events past the highest sequence number it has seen, so an event
  lost below that cursor is never replayed; without a cursor nothing is, and past it at most 500 events are.
  The snapshot that comes with the replay repairs everything but three session fields. For those the
  project states exactly when they are right, with a clock reading of its own for every handled event, and
  gives the runs in which a completed payment is never shown, however often the client reconnects, and an
  expiry deadline drifts.
* **Audit redaction** (`SnakeCase`, `Redaction`, `SensitiveNames`, `RedactionText`). The in-place walk over a parsed tree
  refines a recursive function on JSON values, whatever order map keys come in. The proof follows the heap
  from the parser's fresh tree to the printed text. Of the JSON library it assumes only that a redacted
  object or array can be printed and reads back; `PinCodecIsLawful` gives a codec that does so.
* **The bill and its payment** (`Billing`, `BillLaws`, `Payments`). Money is a real number of rupees and
  arithmetic is exact. In exact arithmetic three of the four layers of rounding do nothing, which is
  what the refinement of the program's loops by `BillOf` says.
* **Guest credentials** (`GuestStorage`, `GuestTokens`). One browser with any number of tabs, and the
  server's issue, validate, revoke and rotate cycle.
* **Lifecycles and staff authorization** (`Lifecycle`, `Authorization`, `OrderDesk`). Status tables, the
  policy with its shadow and enforcing modes, and the status endpoint with its conditional write, where
  requests interleave between check and write.
* **One-time codes and tenant hosts** (`Totp`, `TenantHost`, with `Bits` and `Text`). Codes follow section 5.3 of
  RFC 4226 and sections 4.2 and 5.2 of RFC 6238.

## Where a promise does not hold as stated

* Orders do not converge after every log: a status event ahead of its placement in the log is lost on plain
  replay (`OrderReplay.OvertakingStatusDiverges`). `OrdersConvergeExactly` gives the exact condition. The
  position in the list is not always repaired either (`ListPositionNotRepaired`): after given live deliveries
  it is exactly when they brought in new orders in the log's own order from its first one on
  (`PositionsConvergeExactly`), and after all of them exactly when the log is settled and places at most one
  unlisted order (`ListConvergesExactly`).
* Replay from the client's own cursor does not repair losses below the cursor
  (`CursorReplay.LostPaymentStaysLost`), and an expiry warning without a date is stamped with the moment it is
  handled, so a replayed one gives a later deadline (`UndatedWarningDrifts`). `CursorReplayExact` gives the
  exact condition.
* The CamelCase round trip of key names fails for a one-letter word before a word whose second character
  is not a letter (`SnakeCase.SwallowedBoundary`; exact condition in `CamelRoundTrip`).
* A bill that a promo brings to zero cannot be settled by any whole number of cents
  (`Payments.FreeBillTakesOnlyDust`; some whole number of cents settles a bill exactly when something is due,
  `PayableExactly`).
* In shadow mode kitchen staff can serve (`OrderDesk.KitchenServesInShadowMode`; `FrontOfHouseServesExactly`
  is the equivalence). The policy would also approve an actor that is not staff across branches, which is
  why `Authorization.OwnBranchOnly` is an equivalence; every caller in the program builds a staff actor, so
  that half concerns no request it makes.
* When localStorage does not answer, clearing leaves the rejoin copy behind
  (`GuestStorage.SkippedClearIsRemembered`; exact condition in `ClearsForgetExactly`).
* The comment on `Redact` says input that is not an object is returned unchanged; an array is rewritten and
  printed again, and the model does what the code does. The comment on `VerifyTOTP` speaks of whitespace
  and dashes; the code drops every character that is not a digit, and so does the model.

## Model

| member | source | states |
|---|---|---|
| Stores.SessionStore.SetSession | frontend/store/session.ts:41-48 | session, own participant, host flag and a list of one are set, the other four fields stay |
| Stores.SessionStore.SetFromSnapshot | frontend/store/session.ts:56-66 | the rows are the snapshot's, the own participant is its first entry in the list or stays, the host flag follows it, and the pause flag says whether the session awaits reactivation |
| Stores.SessionStore.AddParticipant | frontend/store/session.ts:68-70 | the participant stands last, and before it are exactly the earlier entries with other ids, in their old order; no other field changes |
| Stores.SessionStore.RemoveParticipant | frontend/hooks/useWebSocket.ts:84-89 | exactly the entries with other ids remain, in their old order; no other field changes |
| Stores.SessionStore.ApplyHostChanged | frontend/store/session.ts:72-83 | every entry is flagged exactly when it has the new host's id, the own participant and the host flag follow, the session names the new host |
| Stores.SessionStore.MarkPaused | frontend/store/session.ts:85-90 | the session, if there is one, awaits reactivation and keeps the rest of its row; the pause flag is set |
| Stores.SessionStore.ApplyReactivated | frontend/store/session.ts:92-94 | the session is replaced, the pause flag and the deadline are cleared |
| Stores.SessionStore.ApplyPaymentCancelled | frontend/store/session.ts:106-111 | the payment is kept, and the session, if there is one, takes the status, if there is one |
| Stores.SessionStore.MarkClosed | frontend/store/session.ts:117-123 | the session, if there is one, is closed and keeps the rest of its row; deadline and pause flag are cleared |
| Stores.SessionStore.Clear | frontend/store/session.ts:125-127 | every field is empty again |
| Stores.OrdersStore.AddOrder | frontend/store/orders.ts:19-25 | afterwards the order's id is listed, an entry that was listed keeps its content and its place, and a list without duplicates stays one |
| Stores.OrdersStore.UpdateStatus | frontend/store/orders.ts:27-33 | entry by entry: the status of the one with that id changes, every other entry and every place stays |
| Stores.AssistanceStore.AddRequest | frontend/store/assistance.ts:20-24 | the request stands first, and behind it are exactly the earlier requests with other ids, in their old order |
| Stores.AssistanceStore.UpdateStatus | frontend/store/assistance.ts:26-30 | entry by entry: the status of the one with that id changes, every other entry and every place stays |
| Stores.GuestClient.Dispatch | frontend/hooks/useWebSocket.ts:22-170 | what each event's handler leaves in the three stores, field by field and with its early returns, and that this is the replica step the convergence theorems are about |
| Stores.GuestClient.HandleEnvelope | frontend/lib/ws/connection.ts:209-217 | the cursor is the highest sequence number seen and the handler's step is applied whatever the number is |
| Stores.GuestClient.ReconcileSnapshot | frontend/lib/ws/reconciliation.ts:8-14 | all three stores are replaced from the snapshot and the connection is untouched |
| Stores.GuestClient.ScheduleReconnect | frontend/lib/ws/connection.ts:116-127 | after ten attempts the connection is failed, before that one more attempt is counted |
| Stores.GuestClient.Reconnect | frontend/lib/ws/connection.ts:129-182 | field by field: a terminal snapshot closes the session and stops for good, a paused one marks it paused and tries again, a failed fetch tries again, a live one is replayed or, when authoritative, adopted with the highest number in it as the cursor |
| Stores.RetriesAreBounded | frontend/lib/ws/connection.ts:116-127 | n failed fetches after a connection opened leave it on its n-th attempt up to the tenth and failed from then on, and nothing else changed |
| Effects.EventEffects | frontend/hooks/useWebSocket.ts:22-170 | what every event leaves in the session, orders and assistance stores, written out field by field |
| Effects.SnapshotEffects | frontend/store/session.ts:56-66 | what a snapshot leaves in the session store, written out field by field |
| SessionFields.FieldsAfterDeliveries | frontend/hooks/useWebSocket.ts:22-107 | after any deliveries the session row keeps id and details and has the last status and host written, the pause flag is the last one written, and the client is host exactly as the last change of host says |
| SessionFields.ClosedStaysClosed | frontend/store/session.ts:106-123 | a session whose closing was delivered stays closed and unpaused, whatever came before and whatever comes after, unless a withdrawn payment reports a status |
| Convergence.SessionAbsorb | frontend/hooks/useWebSocket.ts:22-107 | applying a session event again after any one event wipes out the effect of its first delivery |
| Convergence.AssistanceAbsorb | frontend/hooks/useWebSocket.ts:156-169 | the same for assistance events, although requests are reordered by moving to the front |
| Convergence.ReplayMerges | frontend/hooks/useWebSocket.ts:22-170 | two clients that one event would make equal are equal after any log holding that event |
| Convergence.ReplayAbsorbsLive | frontend/hooks/useWebSocket.ts:22-170 | live deliveries drawn from a log, lost, repeated or reordered, leave no trace after the log is replayed |
| Convergence.ReplayConverges | frontend/hooks/useWebSocket.ts:22-170 | for any logs A and B and deliveries D drawn from B, folding A, D, B and folding A, B give equal session and assistance stores |
| OrderReplay.SameEntriesSameOrders | frontend/store/orders.ts:19-33 | order lists with distinct ids are permutations of one another exactly when they agree id by id |
| OrderReplay.UnlistedOrderArrives | frontend/store/orders.ts:19-33 | an order not yet listed ends as its first placement in the log with the last status after that placement |
| OrderReplay.OrdersConvergeExactly | frontend/hooks/useWebSocket.ts:118-154 | replay repairs the orders after every live history if and only if the log is settled |
| OrderReplay.ServerLogsAreSettled | frontend/hooks/useWebSocket.ts:118-154 | a log that places each order once and before its status events is settled |
| OrderReplay.OrdersConverge | frontend/hooks/useWebSocket.ts:118-154 | so such logs converge, up to list position, on every prior state |
| OrderReplay.PositionsConvergeExactly | frontend/store/orders.ts:19-25 | where replay repairs the orders, it repairs their places in the list if and only if the unlisted orders the live deliveries brought in, by first placement, are a prefix of those the log brings in |
| OrderReplay.PlacesKeptExactly | frontend/store/orders.ts:19-25 | the same for the listed ids alone, for any list, any live deliveries and any log |
| OrderReplay.ListConvergesExactly | frontend/hooks/useWebSocket.ts:118-154 | the list with its places is repaired after every live history if and only if the log is settled and places at most one unlisted order |
| OrderReplay.OvertakingStatusDiverges | frontend/hooks/useWebSocket.ts:126-130 | a log in which a status precedes its placement is not settled |
| HostCoherence.ActKeepsCoherence | frontend/store/session.ts:41-127 | every store action keeps the host flag equal to the own participant's flag and ids distinct |
| HostCoherence.EveryReachableState | frontend/store/session.ts:31-128 | so does every sequence of actions from an empty store, given snapshots without duplicates |
| HostCoherence.FlaggedAreTheNewHost | frontend/store/session.ts:72-83 | after a change of host the same people are listed and the flagged ones are exactly those with the new host's id |
| HostCoherence.OnlyOwnJoinSplits | frontend/store/session.ts:68-83 | the list and the own participant come to disagree exactly on a join event for oneself with the other flag |
| HostCoherence.SnapshotRestoresAgreement | frontend/store/session.ts:56-66 | a snapshot makes them agree again |
| CursorReplay.CursorTracksHighest | frontend/lib/ws/connection.ts:209-212 | after any deliveries the cursor is the highest number among them and where it was |
| CursorReplay.CursorReplayExact | frontend/lib/ws/connection.ts:129-182 | after replay from the cursor a register holds what a client that missed nothing holds if and only if the log's last write past the cursor was replayed and is dated or was handled at the same moment, or, beyond the server's limit or without such a write, the last earlier write left the same |
| CursorReplay.LostPaymentStaysLost | frontend/lib/ws/connection.ts:163-174 | a completed payment lost below the cursor is not shown after any later deliveries and reconnects, with no other payment completed, while a client that heard everything shows it |
| CursorReplay.NeverShown | frontend/lib/ws/connection.ts:129-217 | a client whose cursor is past every completed payment and that shows none never shows one, whatever arrives from the rest of the log and however often it reconnects |
| CursorReplay.UndatedWarningDrifts | frontend/hooks/useWebSocket.ts:35-41 | an expiry warning without a date, as the presence worker sends it, gives a later deadline when it is replayed than when it is heard |
| CursorReplay.ReconnectedReplica | frontend/lib/ws/connection.ts:129-182 | after a reconnect the whole replica equals that of a client that missed nothing and took the same snapshot, if and only if all three registers meet that condition |
| CursorReplay.ReconnectHeals | frontend/lib/ws/reconciliation.ts:8-14 | two clients of one listed guest agree after a reconnect on everything but three registers, whatever each had lost |
| Publishing.Publisher.Publish | backend/internal/events/events.go:48-84 | one call is an append and then a send of what was appended; without a Redis client nothing happens, without a store nothing is logged, and the outcome is counted |
| Publishing.SentIsLogged | backend/internal/events/events.go:64-83 | in every interleaving, with both halves failing at will, sent envelopes are distinct members of the log, and each logged one is sent once, lost once or waiting |
| Publishing.SendsCanOvertake | backend/internal/events/events.go:64-83 | sends can leave in another order than the log |
| Publishing.SentIsNumbered | backend/internal/repository/session.go:216-233 | whatever clients receive of what was sent carries its place in the log as its number |
| Publishing.PublisherToReconnectedClient | backend/internal/services/session.go:739-774 | after any run of publishers, a client that received any of what was sent and reconnects with its own cursor, getting what the server replays past it up to the limit, holds what a client that missed nothing holds, if and only if the three registers meet the condition |
| SnakeCase.SnakeCaseKey | backend/internal/audit/redaction.go:91-112 | the scanner, which looks at its own output, follows a rule local to three neighbouring characters |
| SnakeCase.ScannerOnlyInserts | backend/internal/audit/redaction.go:88-112 | the result is the key lowercased, in order, with underscores inserted before former capitals, never first and never next to another |
| SnakeCase.InsertedExactly | backend/internal/audit/redaction.go:91-112 | an underscore goes between two neighbours exactly when the second is a capital after something that is neither an underscore nor, unless a small letter follows, a capital; every character is kept, capitals lowered |
| SnakeCase.NoCapitalsUnchanged | backend/internal/audit/redaction.go:88-90 | a key without capitals is returned as it is |
| SnakeCase.CamelRoundTrip | backend/internal/audit/redaction.go:88-112 | scanning the CamelCase join of words gives their underscore join if and only if the start of every word is visible, as it is for words of two or more characters |
| SnakeCase.SwallowedBoundary | backend/internal/audit/redaction.go:91-112 | a join for which it does not |
| SnakeCase.MatchesSensitive | backend/internal/audit/redaction.go:74-86 | true exactly for a listed key or one containing a listed substring; which these are is spelled out in `SensitiveNames.MatchesExactly` |
| SnakeCase.IsSensitive | backend/internal/audit/redaction.go:50-71 | true exactly when the lowercase or the snake_case form matches |
| SnakeCase.CamelOfSensitive | backend/internal/audit/redaction.go:55-60 | the CamelCase form of a matching underscore name is sensitive |
| SnakeCase.SnakeKeysClassifiedDirectly | backend/internal/audit/redaction.go:64-67 | the second form never changes the class of a key without capitals |
| SensitiveNames.MatchesExactly | backend/internal/audit/redaction.go:8-48 | the two rules hold of exactly the 31 names and the texts containing one of the eleven needles, all spelled out |
| SensitiveNames.HiddenExactly | backend/internal/audit/redaction.go:50-71 | an object's content under a key becomes the placeholder exactly when the key in lower case or in snake_case is such a name or contains a needle, and is redacted in its turn otherwise |
| SensitiveNames.NeedleHides | backend/internal/audit/redaction.go:79-85 | a needle anywhere in a key, in any case, hides what is stored under it |
| SensitiveNames.CamelNeedleHides | backend/internal/audit/redaction.go:55-69 | so does a needle in the underscored form of a CamelCase key |
| SensitiveNames.NameHides | backend/internal/audit/redaction.go:74-78 | so do the names, in any case or in CamelCase |
| Redaction.RedactionKernel | backend/internal/audit/redaction.go:154-182 | two values redact to the same value if and only if they agree everywhere outside values under sensitive keys |
| Redaction.RedactedIsClean | backend/internal/audit/redaction.go:154-182 | afterwards every sensitive key at any depth holds the placeholder, and key sets and lengths are kept |
| Redaction.FixedPoints | backend/internal/audit/redaction.go:154-182 | a value is left alone if and only if it is already clean |
| Redaction.Idempotent | backend/internal/audit/redaction.go:128-130 | a second pass changes nothing |
| Redaction.RedactValue | backend/internal/audit/redaction.go:154-170 | the walk updates a tree in place to hold the redaction of what it held, returns the same reference and reports objects and arrays as changed |
| Redaction.RedactItems | backend/internal/audit/redaction.go:159-166 | the loop over an array does so for the array |
| Redaction.RedactMap | backend/internal/audit/redaction.go:172-182 | the loop over an object does so in whatever order the keys come |
| Redaction.RedactField | backend/internal/audit/redaction.go:173-181 | one turn of that loop changes one field, to the placeholder or to its redaction |
| RedactionText.Build | backend/internal/audit/redaction.go:139-142 | the parsed tree is fresh, reads as the parsed value and shares no node |
| RedactionText.ReadValue | backend/internal/audit/redaction.go:147-150 | what is handed to the printer is the value the tree reads as |
| RedactionText.RedactJSON | backend/internal/audit/redaction.go:135-152 | parse, walk and print together: empty, unparsable, scalar and unprintable inputs come back as they were, others as the print of the redacted value |
| RedactionText.ReplacedExactly | backend/internal/audit/redaction.go:135-152 | a text is replaced exactly when it parses to an object or an array whose redaction prints, and then by that print |
| RedactionText.TextIsRedacted | backend/internal/audit/redaction.go:128-152 | for every library whose prints of redacted values read back, a text that parses comes back as a text of the same shape that is clean, any other text unchanged |
| RedactionText.TextIdempotent | backend/internal/audit/redaction.go:128-130 | for every such library, redacting a text twice is redacting it once, character for character |
| Billing.Round2Error | backend/internal/handlers/billing.go:67-69 | rounding moves an amount by at most half a cent, to a whole number of cents |
| Billing.Round2OfCents | backend/internal/handlers/billing.go:67-69 | whole cents are left alone |
| Billing.HalvesAwayFromZero | backend/internal/handlers/billing.go:67-69 | half cents go away from zero, on both sides |
| Billing.CollectActive | backend/internal/handlers/billing.go:128-143 | exactly the orders that are not cancelled are kept, in sequence |
| Billing.TotalLines | backend/internal/handlers/billing.go:162-195 | the loops over lines and modifiers give each line a whole number of cents within half a cent of its quantity times its price with modifiers, and the plain sum of them |
| Billing.Itemize | backend/internal/handlers/billing.go:153-217 | the loop over orders computes the printed orders, with unrounded order totals, the sum of all line totals and the sum of the discounts |
| Billing.ComputeBill | backend/internal/handlers/billing.go:92-233 | the program's loops with four layers of rounding compute the bill with one rounding per line and one per charge and discount, everything else being plain sums |
| Billing.BillIsCents | backend/internal/handlers/billing.go:219-228 | every amount of the bill is a whole number of cents |
| BillLaws.OneMoreUnit | backend/internal/handlers/billing.go:178-185 | one more unit of a line costs, before rounding, one more price with all its modifiers |
| BillLaws.PrintedOrders | backend/internal/handlers/billing.go:153-211 | the bill prints exactly the orders that are not cancelled, in sequence, each with its own lines' prices |
| BillLaws.PartsAccuracy | backend/internal/handlers/billing.go:165-228 | subtotal, tax, service and discount each against the exact amount of its own: goods at their prices, the two rates on the subtotal, the discounts granted; no tax when it is in the prices |
| BillLaws.NothingLostBetweenLines | backend/internal/handlers/billing.go:165-220 | subtotal, sum of order totals and sum of line totals are the same number |
| BillLaws.BillAccuracy | backend/internal/handlers/billing.go:165-228 | the total is within 0.005·(n(1+t+s)+3) of the unrounded bill of the n lines of the orders not cancelled, computed from prices, quantities, modifiers, discounts and rates alone, with t zero when tax is included in prices |
| BillLaws.SequenceDoesNotMatter | backend/internal/handlers/billing.go:131-228 | the money is the same for any two sequences with the same active orders |
| BillLaws.CancelledOrdersAreFree | backend/internal/handlers/billing.go:131-134 | a cancelled order anywhere changes nothing in the bill |
| BillLaws.OneMoreOrderNeverCheapens | backend/internal/handlers/billing.go:131-228 | an order whose whole-cent discount is at most its own worth never lowers the total, wherever it stands, if and only if it does not take the discounts across zero between half-cents while adding nothing else |
| BillLaws.OneMoreOrderChange | backend/internal/handlers/billing.go:197-228 | the exact change of the total: the order's worth less its discount, the growth of tax and service, and a cent when the discounts cross zero between half-cents |
| BillLaws.StoredOrdersNeverCheapen | backend/migrations/000015_promos.up.sql:35-37 | with discounts of two decimals, as they are stored, the change is worth less discount plus growth of tax and service, and an order with a discount within its worth never lowers the total |
| Payments.BillSnapshotInputFromBill | backend/internal/handlers/payment.go:458-476 | the snapshot carries the bill's amounts and the order ids that parse, in sequence |
| Payments.InitiatePayment | backend/internal/handlers/payment.go:79-169 | exactly when each of the seven outcomes is the answer, in the handler's order of checks, and the snapshot the service gets, with a promo folded in |
| Payments.SnapshotAddsUp | backend/internal/handlers/payment.go:118-140 | what is due is subtotal, tax and service minus all discounts, cut off at zero under a promo |
| Payments.ExactAmountOnly | backend/internal/handlers/payment.go:65-149 | what is due is a whole number of cents, and a whole-cent amount is accepted if and only if it equals what is due and that is positive |
| Payments.PayableExactly | backend/internal/handlers/payment.go:118-149 | some whole number of cents is accepted if and only if something is due |
| Payments.FreeBillTakesOnlyDust | backend/internal/handlers/payment.go:65-149 | when nothing is due the accepted amounts are those above zero up to half a cent, none of them whole cents |
| Payments.SnapshotNamesActiveOrders | backend/internal/handlers/payment.go:458-464 | the snapshot's order ids are exactly those of the orders that are not cancelled, in sequence |
| GuestStorage.PersistGuestCreds | frontend/lib/guest-session.ts:17-38 | the tab's three keys are the fresh credentials, whatever was there; the shared slot takes them only from its first claimant, and no other slot changes |
| GuestStorage.RecoverGuestCreds | frontend/lib/guest-session.ts:46-68 | the tab's own keys answer first, else a usable slot if localStorage works; after an answer the tab's three keys hold it, without one they are as before |
| GuestStorage.ClearGuestCreds | frontend/lib/guest-session.ts:82-97 | the tab's keys go only if it is on that session, the slot goes if localStorage answers |
| GuestStorage.RecoveredWasPersisted | frontend/lib/guest-session.ts:17-68 | in every interleaving over any tabs, recovered credentials were persisted as that pair for that same session |
| GuestStorage.FirstClaimantKeepsSlot | frontend/lib/guest-session.ts:23-34 | the shared slot exists if and only if the session was claimed since its last clear, and holds the first claimant since then with that claimant's latest token |
| GuestStorage.TabKeepsItsIdentity | frontend/lib/guest-session.ts:40-52 | a tab recovers exactly what it persisted, whatever other tabs do, including clearing the same session |
| GuestStorage.RecoveredStays | frontend/lib/guest-session.ts:46-68 | a tab that recovered credentials has them in its own keys and answers with them from then on, whether or not localStorage works and whatever other tabs clear; one that recovered nothing is unchanged |
| GuestStorage.ClearIsLocal | frontend/lib/guest-session.ts:79-97 | clearing one session changes nothing for a tab on another, nor what that tab recovers for any other session |
| GuestStorage.ClearedEverywhereIsForgotten | frontend/lib/guest-session.ts:71-97 | once every tab on a session cleared it, nobody recovers it until it is persisted again, in any continuation |
| GuestStorage.ClearsForgetExactly | frontend/lib/guest-session.ts:82-97 | clearing a session in any tabs, with localStorage answering or not each time, forgets it for every tab and continuation if and only if no other tab holds its credentials and one clear was answered or the slot held nothing usable |
| GuestStorage.ForgottenExactly | frontend/lib/guest-session.ts:46-68 | nobody will recover a session before it is persisted again, in any continuation, if and only if neither a tab nor the slot holds usable credentials now |
| GuestTokens.Issue | backend/internal/auth/guest.go:50-80 | fails only without a random id; otherwise the token seals the claims with every open field filled in |
| GuestTokens.SealRoundTrip | backend/internal/auth/guest.go:50-112 | a sealed token validates to its own claims, or fails as invalid or expired, and never as malformed |
| GuestTokens.ValidExactly | backend/internal/auth/guest.go:82-112 | for any text at all: it validates to given claims if and only if it is two parts around a dot, the second the encoded signature of the first, which decodes to those claims, made out to guests and not run out |
| GuestTokens.FailuresExactly | backend/internal/auth/guest.go:91-111 | which error a two-part token fails with, and exactly when |
| GuestTokens.MalformedTokens | backend/internal/auth/guest.go:83-90 | anything else is malformed |
| GuestTokens.TokenLifetime | backend/internal/auth/guest.go:50-112 | an issued token is valid for exactly the service's lifetime and gives back what the caller asked for, with subject, audience, times and id filled in where left open |
| GuestTokens.GuestGate.GuestParticipantID | backend/internal/handlers/guest_auth.go:34-116 | the verdict and the one failure counter it moves, check by check in order |
| GuestTokens.BearerExactly | backend/internal/handlers/guest_auth.go:25-32 | the token is what follows the Bearer prefix, and any other header carries none |
| GuestTokens.RefusalReasons | backend/internal/handlers/guest_auth.go:78-115 | every refusal of a valid token has one cause, named by its label, and which answers are forbidden, unauthorized or terminal |
| GuestTokens.BrokenTokensAreRefused | backend/internal/handlers/guest_auth.go:67-77 | a presented token that does not validate is always refused, under the name of its error |
| GuestTokens.WithoutToken | backend/internal/handlers/guest_auth.go:43-65 | without a token: refused where one is required, else the named participant is let in if a member or nobody |
| GuestTokens.AcceptedIsMember | backend/internal/handlers/guest_auth.go:43-115 | an accepted participant is a member of the session; participant 0 takes a request without a token while tokens are optional; a presented token never falls through |
| GuestTokens.IssuedTokenAccepted | backend/internal/handlers/guest_auth.go:67-115 | in every run, any request with an issued token is accepted if and only if the token is unexpired and was issued for the session asked for, the request names its participant or nobody, and that participant is unrevoked and at the token's version |
| GuestTokens.VersionsOnlyGrow | backend/internal/db/sqlc/sessions.sql.go:27-31 | participants stay, versions never go back, revocation is never undone |
| GuestTokens.RotationInvalidates | backend/internal/services/session.go:283-291 | nothing issued for a session before a rotation is accepted after it, in any continuation and for any request; while unexpired it is answered as a revoked credential |
| GuestTokens.RevocationInvalidates | backend/internal/services/session.go:283-291 | nothing issued for a session before its participants were revoked is accepted after it, in any continuation |
| Lifecycle.ValidateTransition | backend/internal/domain/statemachine.go:143-154 | the scan accepts exactly the pairs the table lists |
| Lifecycle.OrderMovesExactly | backend/internal/domain/statemachine.go:73-80 | orders go down one line and may be cancelled before they are ready |
| Lifecycle.SessionMovesExactly | backend/internal/domain/statemachine.go:82-107 | an open session may become anything else, a terminal one nothing |
| Lifecycle.PaymentMovesExactly | backend/internal/domain/statemachine.go:115-125 | from which statuses each payment status is reached |
| Lifecycle.AssistanceMovesExactly | backend/internal/domain/statemachine.go:109-113 | a request moves to any later stage and only there |
| Lifecycle.SessionTerminalEndsRun | backend/internal/domain/statemachine.go:34-107 | the terminal statuses are exactly those with nowhere to go, a run can only end in one, and from any other status each is one step away |
| Lifecycle.AssistanceOnlyAdvances | backend/internal/domain/statemachine.go:109-113 | an assistance run takes at most two steps, each forward, and ends once resolved |
| Lifecycle.RunSpendsPotential | backend/internal/domain/statemachine.go:115-125 | every step of a payment run is paid for by a potential that only failing refills |
| Lifecycle.PaymentRunBound | backend/internal/domain/statemachine.go:115-125 | a run with k entries into failed has at most 3k+4 steps |
| Lifecycle.PaymentRunBoundIsTight | backend/internal/domain/statemachine.go:115-125 | for every k some run takes exactly that many |
| Lifecycle.PaidStaysPaid | backend/internal/domain/statemachine.go:115-125 | after completed a payment stays completed, partially refunded or refunded |
| Lifecycle.RefundPassesCompleted | backend/internal/domain/statemachine.go:115-125 | no refund is reached without passing completed |
| Authorization.Authorize | backend/internal/authz/policy.go:48-80 | allowed exactly for staff inside the tenant boundary with an allowed role; a scope violation exactly for staff outside it; the reason says which |
| Authorization.PermittedExactly | backend/internal/authz/policy.go:48-80 | permitted is staff with an allowed role, in the resource's own nonzero branch or organization where the action asks for it |
| Authorization.RoleTable | backend/internal/authz/policy.go:121-160 | what each role may do, role by role; any other role may at most read its branch |
| Authorization.BoundaryTable | backend/internal/authz/policy.go:82-119 | four actions stay within an organization, every other listed one within a branch |
| Authorization.EveryActionIsScoped | backend/internal/authz/policy.go:82-119 | every listed action has exactly one tenant boundary, and an unlisted one is never permitted |
| Authorization.RolesAreNested | backend/internal/authz/policy.go:121-160 | kitchen, waiter, manager, owner: each may do all that the one before may |
| Authorization.Gatekeeper.RequireAuthorized | backend/internal/handlers/authz.go:48-104 | whether the request passes, and exactly which counters, audit rows and AUTHZ_DENIED log entries it leaves in each mode |
| Authorization.Gatekeeper.LogAuthzDenied | backend/internal/repository/event_log.go:48-78 | a denial enters the event log exactly when its resource belongs to a branch or a session |
| Authorization.CountersMeasureTheFlip | backend/internal/handlers/authz.go:85-101 | over any trace in shadow mode the mismatch counter rises by exactly the number of requests enforcement would flip; denials count the refused, and the event log takes the same number of entries in both modes |
| Authorization.EnforcementOnlyRemoves | backend/internal/handlers/authz.go:48-104 | enforcement only takes approvals away, as many as shadow mode counted |
| Authorization.OwnBranchOnly | backend/internal/handlers/authz.go:54-58 | a branch-scoped action is approved only in the actor's own branch, for every resource, if and only if the policy is enforced or the actor is staff |
| Authorization.OwnOrganizationOnly | backend/internal/handlers/authz.go:54-58 | the same for organizations |
| OrderDesk.Desk.UpdateOrderStatusExpected | backend/internal/repository/order.go:118-129 | the write happens exactly on the expected branch and status and changes one order's status |
| OrderDesk.Desk.UpdateOrderStatus | backend/internal/services/order.go:357-381 | the change is applied and journalled exactly when the table permits it |
| OrderDesk.Desk.UpdateStatus | backend/internal/handlers/order.go:150-209 | the endpoint updates exactly when the request, the staff session, the order, both organizations, the policy, the branch and the table all agree; an update gives that one order the status whose name was sent and journals it; otherwise orders and journal are untouched, each refusal has its own cause, the policy's counters, audit rows and log record the question that was asked, and the whole is one check and one write of the interleaving |
| OrderDesk.TextNamesStatus | backend/internal/domain/statemachine.go:10-17 | a text asks for a status exactly when it is that status's name, and any other text for none |
| OrderDesk.QuestionAsked | backend/internal/handlers/order.go:180-190 | the policy is asked about a staff actor of the session's branch and organization and about the order's own branch, and serving is an action of its own |
| OrderDesk.Desk.UpdateAuthorized | backend/internal/handlers/order.go:186-209 | for an order that was found: denied exactly by the policy or outside the own branch, an invalid transition exactly off the table, else applied and journalled |
| OrderDesk.UndisturbedRequest | backend/internal/handlers/order.go:150-209 | a check directly followed by its write applies the change when every check agrees, and is nothing otherwise |
| OrderDesk.OnlyOneWins | backend/internal/services/order.go:363-371 | of two requests checked against the same status, once one has written the other changes nothing |
| OrderDesk.ServedByTheExactPath | backend/internal/handlers/order.go:163-196 | in every interleaving a served order went through confirmed, preparing, ready, served, each step by staff of its own branch, under enforcement the last by an owner, manager or waiter |
| OrderDesk.ReadyIsNeverCancelled | backend/internal/domain/statemachine.go:73-80 | in every interleaving a ready order is later ready or served, and served and cancelled orders never change |
| OrderDesk.KitchenServesInShadowMode | backend/internal/handlers/authz.go:85-101 | from an empty desk a cook alone takes an order to served in shadow mode, and to ready under enforcement |
| OrderDesk.FrontOfHouseServesExactly | backend/internal/handlers/authz.go:49-104 | in every run from an empty desk orders are served by an owner, a manager or a waiter, if and only if the policy is enforced |
| Totp.PutUint64 | backend/internal/crypto/totp.go:78-79 | the buffer holds the counter's eight bytes, most significant first |
| Totp.CounterMessage | backend/internal/crypto/totp.go:78-79 | those bytes read as the counter modulo 2^64, negative counters included |
| Totp.TruncationBits | backend/internal/crypto/totp.go:83-87 | for any 20-byte hash the offset is in bounds and masks and shifts give the big-endian word modulo 2^31 |
| Totp.TotpAt | backend/internal/crypto/totp.go:77-93 | computes the code of a counter |
| Totp.CodeIsSixDigits | backend/internal/crypto/totp.go:88-92 | a code is exactly six digits whose number is the truncated hash modulo a million |
| Totp.VerifyTOTP | backend/internal/crypto/totp.go:53-75 | accepts exactly when the cleaned input has six digits, the secret decodes and one of three step codes equals it |
| Totp.StepsAreHalfMinutes | backend/internal/crypto/totp.go:67 | a step is the thirty seconds a time falls in, truncated toward zero before the epoch |
| Totp.AcceptedNumbers | backend/internal/crypto/totp.go:53-93 | so what is accepted are the six-digit strings whose number is a truncated hash of one of three steps modulo a million |
| Totp.CodesLiveThirtySeconds | backend/internal/crypto/totp.go:67-73 | a code made at one second is accepted at every second at most thirty away |
| Totp.WindowIsUnderAMinute | backend/internal/crypto/totp.go:67-73 | the window never reaches a full minute |
| Totp.JunkChangesNothing | backend/internal/crypto/totp.go:54-62 | inserting anything but digits anywhere does not change the verdict |
| TenantHost.Middleware | frontend/middleware.ts:22-37 | the header names a tenant if and only if the request's host is that tenant's, and is left out if and only if it is nobody's |
| TenantHost.SlugExactly | frontend/middleware.ts:6-20 | a slug is returned if and only if it is nonempty, holds no dot, and the host without port is slug, dot, base |
| TenantHost.HostRoundTrip | frontend/middleware.ts:6-20 | printing and parsing, with a port or without, gives the slug back if and only if neither part is empty or holds a colon and the slug holds no dot |
| TenantHost.ColonInBaseResolvesNothing | frontend/middleware.ts:9-14 | a base domain with a colon never resolves |
| TenantHost.QRLinkResolves | frontend/lib/qr.ts:11-16 | the host of a tenant's QR link parses back to the tenant and the link ends in the table's token |
| TenantHost.LinkWithoutTenant | frontend/lib/qr.ts:5-16 | without a tenant the link starts at the configured guest origin, and a slash at its end is not doubled |
| TenantHost.LinkWithoutOrigin | frontend/lib/qr.ts:5-9 | without a configured origin the link starts where the page was served, and outside a browser at the local server |
| TenantHost.BothOrNeither | frontend/lib/qr.ts:11-16 | without a slug or without a base domain the link is the plain one |

## Left out

- Floating point: the bill and the payment check are in exact arithmetic, where the program uses 64-bit floats.
- Integer widths: ids, versions, sequence numbers and quantities do not wrap.
- The menu and cart stores, toasts, analytics calls and `updated_at` stamps of the client.
- Socket opening, ping and backoff timers; the branch of `reconnect` for a status that is neither terminal, paused nor live, which the status enumeration rules out; the `table_identifier` copied by `reconcileSnapshot`.
- Stores.GuestClient.Reconnect: the snapshot fetch is a parameter.
- Publishing.PublisherToScreen: it replays the whole log, which the server does for no client; `PublisherToReconnectedClient` is about the replay it does.
- Publishing.PublisherToReconnectedClient: the log is not pruned, so a gap at its start, which makes a snapshot authoritative, does not occur.
- Handlers that throw on a malformed payload; payloads are well formed apart from the cases the handlers test for.
- JSON text, base64url and base32: parsing and printing are parameters, assumed to undo each other where a lemma says so.
- HMAC, SHA-1, SHA-256 and random ids: parameters; only the length of a result is assumed, and forging is not modelled.
- SnakeCase.IsSensitive: lowercasing is ASCII only, where the program folds all letters.
- Redaction.RedactValue: the program's one recursive pair of functions is split so that each loop body is a method of its own; numbers are reals.
- Billing.ComputeBill: the program's one function is split into a method per loop; item names, modifier labels, order numbers, placement times, the tip (always zero) and the repository errors are left out.
- Payments.InitiatePayment: promo validation, idempotency and session state belong to services that are not part of this model; promo validation is a parameter.
- GuestStorage.PersistGuestCreds: a sessionStorage write that throws is not modelled; localStorage either answers during a whole call or not at all.
- GuestTokens.Issue: encoding failures of the claims are not modelled.
- GuestTokens.GuestGate.GuestParticipantID: a repository error other than a missing participant is treated as a missing one, as the handler does; response bodies are reduced to status and reason.
- OrderDesk.Desk.UpdateStatus: its second half is a method of its own; database failures, the event published afterwards and duration metrics are left out; the journal entry is written together with the status.
- Authorization.Gatekeeper.RequireAuthorized: counters are totals, without their labels; the audit row keeps the request and whether it was enforced.
- The constant-time comparison of codes and signatures, which is not a functional property.
- Subscription and invoice billing, loyalty, host reassignment, table reconciliation and the other services: not part of this model.

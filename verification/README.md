# PIX bank: verification model

A Dafny model of the bank's core and proofs about it. Money is in integer cents, time in integer
seconds or minutes. `dafny verify dfyconfig.toml` checks everything.

| part | files | source |
|---|---|---|
| PIX money machine | `PixModel` (steps as functions), `PixDatabase` (the tables as objects, changed in place), `PixAnswers` (what each request is answered and the tables it leaves, column by column), `PixHolds`, `PixLifecycle`, `PixConservation`, `PixLimits`, `PixWebhooks`, `Fees`, `Sums` | `app/pix/service.py`, `app/pix/router.py`, `app/pix/internal_transfer.py`, `app/core/matrix.py`, `app/core/fees.py` |
| Balance audit | `Audit`, `AuditWorker`, `AuditSchedule`, `PixAudit` (runs in which requests, deliveries and audit cycles alternate, against the gateway's own book) | `app/core/audit_worker.py` |
| BR Code | `Crc`, `CrcText`, `CrcCheck`, `CrcSteer`, `Tlv`, `BrCode`, `RouterEmv`, `BrCodeRoundTrip`, `PayloadLocation`, `ParserAgreement`, `Text` | `app/core/pix_emv.py`, `app/pix/router.py` |
| From scan to payment | `QrPayment` (the search for the charge a payload names, and a charge from its payload to its payment), `ChargeSearch` (what that search gives, way by way) | `app/pix/router.py` |
| LLM stream | `Thinking`, `Probe`, `Race` | `app/ia/router.py` |
| Small machines | `RateLimit`, `CircuitBreaker`, `Subscription`, `Amortization`, `Boleto` | `app/web_routes.py`, `app/auth/router.py`, `app/adapters/asaas_adapter.py`, `app/minha_conta/service.py`, `app/parcelamento/service.py`, `app/boleto/service.py` |

How it is built. `PixModel.Step` is one request or one gateway delivery, an atomic step over the
tables; `PixModel.Run` is any finite interleaving of them. The methods of `PixDatabase.Database` do
the same work on `User`, `PixTransaction` and `LedgerEntry` objects held in maps, so that the matrix
account and a sender or receiver can be one object, and each is proved to change the abstract state
exactly as its step function says. The theorems are about the step functions and their runs. What the
gateway answers, fresh ids, and the account a key or an inbound payment resolves to are inputs.

## What the proofs found

Places where a property one would expect needs a condition. Each condition is proved exact, in both
directions, unless the text says otherwise.

- A PAYMENT_RECEIVED or PAYMENT_CONFIRMED delivery credits whatever transaction it names without
  looking at its kind (app/pix/router.py:2293-2635). Aimed at a send in flight it leaves that send's
  hold pending for ever: `PixHolds.HoldsSurviveExactly`.
- Internal transfers and internal QR payments test the raw balance, not the available one, so they can
  spend money that is on hold: `PixHolds.SolvencySurvivesExactly`. The debit of an audit cycle does the
  same to the matrix account: `PixAudit.CycleSolvencyExactly`.
- A send by key keeps the id drawn by the bank, while TRANSFER_DONE and TRANSFER_FAILED look the
  transaction up by primary key (app/pix/router.py:2099-2105). A send is in flight after a run if and only
  if no delivery of the run names it by that key: `PixLifecycle.FlightLastsExactly`.
- The audit collects exactly 1.00 per confirmed send if and only if what the bank booked and what the
  gateway's own book says differ by nothing, net: `PixAudit.AuditCollectsTheSurplus`; with shortfalls
  only, that is when both books agree entry by entry: `PixAudit.MatchedExactlyWhenBooksAgree`. The
  difference is the sum of one gap for each turn: `PixAudit.UnmatchedIsSumOfGaps`. The gap is stated for
  each kind of turn. A delivered payment leaves one unless it is booked as what arrived, so for a charge
  of another value, a row that is confirmed already and a deposit that is booked for nobody; a payout
  reported done, unless it names a send in flight of that value, so always under the gateway's own id; a
  confirmation by id, when nobody paid; the payment of one's own charge; and a QR payment that the gateway
  has made and the bank turns down. The others leave none: `PixAudit.DeliveredPaymentGap`,
  `PixAudit.ReportedPayoutGap`, `PixAudit.ConfirmationGap`, `PixAudit.OwnChargeGap`,
  `PixAudit.RefusedPayoutGap`, `PixAudit.AskedConfirmationGap`, `PixAudit.OtherTurnsLeaveNoGap`.
- The payment of one's own charge records no idempotency key; any other request that inserts a row
  does, accepted or not: `PixLifecycle.AcceptedRecordsKey`, `PixLifecycle.InsertedRecordsKeyExactly`.
- When a cycle levels bank and gateway, and when it does nothing, is stated exactly; a divergence of one
  cent is never corrected: `Audit.LevelAfterCycleExactly`, `Audit.CycleIsIdleExactly`.
- A generated payload passes the CRC check unless its checksum happens to spell `6304`:
  `CrcCheck.SealedPassesExactly`. For every key there is a merchant name of four ASCII
  characters whose payload does not: `CrcSteer.SomeNameIsRejected`.
- An edit ahead of the CRC tag passes if and only if the changed beginning leaves the same register:
  `CrcCheck.EditPassesExactly`. A change of one or two ASCII characters that leaves the first character
  visible never does: `CrcCheck.ShortEditIsRejected`. One that turns the first two into blanks, which are
  stripped, can: `CrcCheck.BlankEditCanPass`.
- The two BR Code parsers read the same amount, under every way of reading decimals, if and only if the
  first field 54 of the whole text and the last one ahead of the CRC field hold the same text. They find
  the same location if and only if neither has an account to take it from, or both have and these hold
  the same location: the first account with a location of the whole text, and, among the accounts ahead of
  the CRC field whose tag does not come again, the one with the smallest tag. Both hold for every text:
  `ParserAgreement.AmountsAgreeExactly`, `ParserAgreement.UrlsAgreeExactly`. There are payloads on which
  they differ: `ParserAgreement.RepeatedAmountDisagrees`, `ParserAgreement.DescendingAccountsDisagree`,
  `ParserAgreement.RepeatedAccountDisagrees`.
- What becomes of every list of tokens in the thinking filter is stated exactly:
  `Thinking.AnswerExactly`. Thinking is hidden when it opens the answer, and an interrupted stream shows
  none of it either. After visible text in an earlier token it is shown; thinking that is never closed is
  shown whole; and visible text in the token that completes the opening tag is dropped once a closing
  tag follows: `Thinking.VisibleTextFirstShowsAll`, `Thinking.UntaggedIsPushedWhole`,
  `Thinking.VisibleTextIsKeptExactly`.
- A model that ends without any text ends the race for all of them, if and only if its end is the first
  item that is neither an error nor a timeout: `Race.EmptyAnswerExactly`.
- Opening the chat on an overdue plan expires it without the renewal a poll would have made; whether a
  plan is ever renewed is decided by the first visit after its expiry date:
  `Subscription.FirstLateVisitDecides`, `Subscription.ChatFirstMattersExactly`.
- A request that the circuit breaker rejects is tried again like a network error, and leaves no trace
  while the breaker is shut: `CircuitBreaker.ShutSendsNothing`.
- In the Price table a plan with small instalments is cleared early, and its principals then add up to
  more than the value: `Amortization.PrincipalsAddUpExactly`.
- A bank barcode whose first digit is changed to 8 is always accepted:
  `Boleto.BarcodeNoticesChangeExactly`.
- The docstrings of app/core/fees.py name other fee floors than its code; the model follows the code
  (3.00 network fee and 1.00 maintenance fee, 4.00 in all).

## Model

| member | source | states |
|---|---|---|
| PixDatabase.Database.GetAvailableBalance | app/pix/service.py:42-64 | the loop over transactions gives the balance less value and fee of every send in flight |
| PixDatabase.Database.AddEntry | app/pix/service.py:67-87 | appends one ledger entry and changes nothing else |
| PixDatabase.Database.SettleLedgerEntries | app/pix/service.py:90-101 | the loop settles every pending entry of one transaction and no other |
| PixDatabase.Database.ReverseLedgerEntries | app/pix/service.py:104-115 | the loop reverses every pending entry of one transaction and no other |
| PixDatabase.Database.CreditPixReceipt | app/pix/service.py:124-195 | credits net of fee, raises the limit up to its cap and credits the fee to the matrix account, in that order on possibly the same object |
| PixDatabase.Database.CreatePix | app/pix/service.py:198-404 | a send by key: refusals, scheduling, internal transfer or external send, as the step function says; a repeated key is answered from the row that holds it |
| PixDatabase.Database.SendThroughGateway | app/pix/service.py:256-375 | an external send is tested against the available balance and goes in flight with a pending debit of value and fee; a refusal leaves a FAILED row and no hold |
| PixDatabase.Database.CancelPix | app/pix/service.py:443-479 | only a scheduled transaction of its owner is canceled |
| PixDatabase.Database.ExecuteInternalTransfer | app/pix/internal_transfer.py:70-180 | both rows and both balances change, or nothing does |
| PixDatabase.Database.CreditFeeToMatrix | app/core/matrix.py:22-37 | a positive fee is added to the matrix account when there is one |
| PixDatabase.Database.CreateCharge | app/pix/router.py:1029-1150 | a charge is recorded as CREATED under the gateway's id, or under a local id when the gateway gives none or its insert clashes |
| PixDatabase.Database.ConfirmReceipt | app/pix/router.py:1156-1215 | a CREATED charge is confirmed and credited; any other status is refused |
| PixDatabase.Database.VerifyCharge | app/pix/router.py:1218-1280 | the owner's own CREATED charge is confirmed and credited when the gateway says it is paid |
| PixDatabase.Database.RefreshCharge | app/pix/router.py:690-740 | reading an unpaid charge confirms and credits it when the gateway says it is paid |
| PixDatabase.Database.PayPixQrCode | app/pix/router.py:1613-1994 | a QR payment behind the CRC check and the charge search: duplicates by key and by payload answered from their row, internal charge or gateway |
| PixDatabase.Database.PayCharge | app/pix/router.py:1656-1751 | an internal charge: payer pays value and 1.00, owner is credited, the fee goes to the matrix account; a self-paid charge is a deposit |
| PixDatabase.Database.PayThroughGateway | app/pix/router.py:1820-1994 | an external QR payment goes in flight with its hold under the gateway's payment id, or is refused |
| PixDatabase.Database.TransferDelivered | app/pix/router.py:2098-2278 | TRANSFER_DONE debits and settles, TRANSFER_FAILED reverses, both only from PROCESSING |
| PixDatabase.Database.ChargeDelivered | app/pix/router.py:2280-2635 | a payment delivery confirms and credits the transaction it names, or books an inbound deposit once |
| PixAnswers.EarlySendAnswer | app/pix/service.py:210-217 | which sends are turned away or answered from an existing row before anything else is looked at |
| PixAnswers.ScheduledSendAnswer | app/pix/service.py:223-226 | a scheduled send leaves its row with no fee and moves nothing |
| PixAnswers.ExternalSendAnswer | app/pix/service.py:256-375 | in every state, an external send is accepted if and only if the free balance covers value and outbound fee and the gateway does not reject it; exactly which row, ledger entry or FAILED row is left |
| PixAnswers.ExternalSendHolds | app/pix/service.py:42-64 | only an accepted one holds money, value and fee of its sender |
| PixAnswers.InternalSendAnswer | app/pix/internal_transfer.py:70-180 | in every state, when a send inside the bank is refused and why, and both rows and balances when it is not |
| PixAnswers.CancelAnswer | app/pix/service.py:443-479 | only the owner's scheduled send becomes CANCELED |
| PixAnswers.EarlyPayAnswer | app/pix/router.py:1613-1655 | which QR payments are turned away or answered from an existing row |
| PixAnswers.ChargePaymentAnswer | app/pix/router.py:1656-1751 | when another account's charge is paid, both rows, and 1.00 and the value on every balance |
| PixAnswers.OwnChargeAnswer | app/pix/router.py:1656-1751 | one's own charge is confirmed and credited |
| PixAnswers.OrphanChargeAnswer | app/pix/router.py:1656-1751 | a charge whose owner has no account is paid by nobody |
| PixAnswers.ReplayAnswer | app/pix/router.py:1617-1655 | which rows answer a repeated payment: the one under its header key, or else a row of the user for the payload that is paid or in flight |
| PixAnswers.ReplayHasRow | app/pix/router.py:1617-1655 | a payment answered from an existing row has such a row |
| PixAnswers.UnpaidQrAnswer | app/pix/router.py:1757-1896 | in every state, why an external QR payment stops before the gateway has paid, and the row a rejection leaves |
| PixAnswers.PaidQrAnswer | app/pix/router.py:1897-1994 | in every state, what the bank does once the gateway has paid: amount and fee of the row are the gateway's amount, or field 54, and its fee |
| PixAnswers.ClientValueIsNotPaid | app/pix/router.py:1899-1911 | two accepted external payments that differ only in the client's amount are the same payment |
| PixAnswers.ChargeAnswer | app/pix/router.py:1029-1150 | a charge is recorded unpaid with exactly its value, under the gateway's id or a local one |
| PixAnswers.NoChargeAnswer | app/pix/router.py:1029-1050 | a charge without a positive value or a known user is refused |
| PixAnswers.ReceiptAnswer | app/pix/router.py:1156-1215 | confirmation by id credits a CREATED charge, and nothing else changes anything |
| PixAnswers.VerifyAnswer | app/pix/router.py:1218-1280 | verification credits if and only if the gateway says paid and the charge is the user's own and CREATED |
| PixAnswers.RefreshAnswer | app/pix/router.py:690-740 | so does reading it, for a received one |
| PixAnswers.UnpaidIsNotCredited | app/pix/router.py:1254-1273 | neither route changes anything when the gateway says the charge is not paid |
| PixAnswers.PaymentAnswer | app/pix/router.py:2280-2635 | in every state, the row and balance a payment delivery changes |
| PixAnswers.TransferAnswer | app/pix/router.py:2098-2278 | in every state, the row, ledger entries and balances a transfer delivery changes |
| PixHolds.HoldsSurviveExactly | app/pix/router.py:2293-2635 | ledger and sends in flight stay matched through a step if and only if it is not a charge confirmation that names a send in flight |
| PixHolds.RunKeepsHolds | app/pix/service.py:42-115 | over every run without such a confirmation, each send in flight holds exactly its value and fee, and pending debits equal the holds of each account |
| PixHolds.TransferPassesExactly | app/pix/internal_transfer.py:70-154 | an internal transfer is accepted if and only if value, key, parties, raw balance and unique columns pass their guards |
| PixHolds.ChargePaymentPassesExactly | app/pix/router.py:1613-1751 | so is the payment of an internal charge |
| PixHolds.SolvencySurvivesExactly | app/pix/internal_transfer.py:102-154 | every account keeps covering its holds through a step if and only if the step is not an internal payment whose guards pass and whose debit exceeds the available balance |
| PixHolds.RunStaysSolvent | app/pix/service.py:256-375 | over every run without such a payment, balance, pending debits and holds of each account satisfy balance >= debits == holds >= 0 |
| PixHolds.InternalTransferCanOverspend | app/pix/internal_transfer.py:102-154 | a concrete internal transfer leaves an account unable to cover its hold |
| PixHolds.MisdirectedConfirmationBreaksHolds | app/pix/router.py:2293-2635 | a concrete charge confirmation breaks the match of ledger and sends |
| PixHolds.DispatchKeepsHolds | app/pix/service.py:364-375 | dispatching a send raises its owner's hold by value and fee and no other hold |
| PixHolds.LandKeepsHolds | app/pix/service.py:90-115 | a send that lands lowers its owner's hold by value and fee and no other hold |
| PixLifecycle.RunEvolves | app/pix/router.py:2098-2144 | over every run no transaction disappears, only its status changes, and CONFIRMED is final |
| PixLifecycle.FlightLastsExactly | app/pix/router.py:2099-2144 | after any run a send is still in flight, its row unchanged, if and only if no delivery came under its own primary key |
| PixLifecycle.AcceptedRecordsKey | app/pix/router.py:1613-1622 | an accepted request records its idempotency key if and only if it is not the payment of one's own charge |
| PixLifecycle.InsertedRecordsKeyExactly | app/pix/service.py:292-345 | a request with a new key records it if and only if it inserts a row, refused by the gateway or not |
| PixLifecycle.RepeatChangesNothing | app/pix/service.py:210-217 | after any first request that leaves its key in a row, and any run, a request with the same key changes nothing at all |
| PixLifecycle.RunKeepsUnique | app/pix/service.py:210-217 | over every run no two rows share a key, or an owner and a payload |
| PixLifecycle.ReplayFindsFirstRow | app/pix/service.py:210-217 | over every run a row stays the only one under its key, so it answers every repetition |
| PixConservation.LimitRises | app/pix/service.py:118-195 | a receipt raises the credit limit by half its gross, to half a cent, never beyond the cap |
| PixLimits.StepMovesLimit | app/pix/service.py:124-195 | every step moves the credit limit of exactly the account it credits a receipt to |
| PixLimits.LimitFollowsReceipts | app/pix/service.py:118-195 | over every run a limit is what crediting the account's receipts one after the other makes of it |
| PixLimits.RunRaisesLimits | app/pix/service.py:118-195 | over every run no limit falls or passes the cap, and short of the cap it rises by half of what the account received, to half a cent for each receipt |
| PixConservation.ReceiptSplitsGross | app/pix/service.py:124-195 | a receipt adds exactly its gross to the total, split between receiver and matrix account |
| PixConservation.InternalTransferTotal | app/pix/internal_transfer.py:102-154 | an internal transfer leaves the total unchanged, whoever the parties are |
| PixConservation.InternalChargeTotal | app/pix/router.py:1656-1751 | an internal QR payment leaves the total unchanged if and only if the matrix account exists |
| PixConservation.TransferTotal | app/pix/router.py:2146-2175 | a confirmed send takes value and 3.00 out of the total, a failed one nothing |
| PixConservation.StepTotal | app/core/matrix.py:22-37 | every step changes the total by exactly the amount it settles |
| PixConservation.ConfirmedNeverSettlesAgain | app/pix/router.py:2114-2144 | a confirmed transaction settles nothing again in any later run, by any route |
| PixConservation.RunConserves | app/pix/router.py:2146-2175 | over every run the total is the initial total plus one signed amount for each settled transaction |
| PixConservation.StepKeepsRows | app/pix/service.py:198-404 | every step keeps transactions well formed and accounts in place |
| PixWebhooks.DeliveriesLand | app/pix/router.py:2098-2278 | any list of transfer deliveries, duplicated and reordered, ends in the closed form of the first verdict on each send in flight |
| PixWebhooks.DeliveriesConfluent | app/pix/router.py:2098-2278 | two lists with the same first verdict on each send in flight end in the same balances, statuses and ledger |
| PixWebhooks.RedeliveryIsIdle | app/pix/router.py:2114-2144 | delivering a batch again in any order and number changes nothing |
| Fees.OutboundFeeShape | app/core/fees.py:147-165 | the outbound fee is monotone, at least 4.00, above the floor within half a cent of 0.80%, and above the floor exactly for large business amounts |
| Fees.BusinessFeeBounds | app/core/fees.py:147-165 | half-up rounding moves a business fee by at most half a cent |
| Fees.RawDigitsCount | app/core/fees.py:126-136 | the digits of a document are counted wherever they stand |
| Fees.FeesInCents | app/core/fees.py:91-165 | 4.00, or for fourteen digits 0.80% rounded half up but at least 4.00; nothing for receiving or inside the bank |
| Fees.SplittingGainsLessThanRounding | app/core/fees.py:120-165 | splitting an amount into n parts lowers the total fee by less than (n+1)/2 cents |
| AuditWorker.MeasureBank | app/core/audit_worker.py:152-165 | the loop over customers and the matrix account measure the total of all balances |
| AuditWorker.RunCorrection | app/core/audit_worker.py:200-317 | the correction changes the live tables exactly as the cycle function says |
| Audit.CustomersUntouched | app/core/audit_worker.py:213-307 | a cycle never changes a customer, a transaction or a ledger entry, whatever was measured |
| Audit.MatrixStaysNonNegative | app/core/audit_worker.py:223-227 | a cycle never takes the matrix account below zero, even on a stale measurement |
| Audit.CycleIsCorrection | app/core/audit_worker.py:206-307 | a cycle adds one signed correction to the matrix account and changes nothing else |
| Audit.CycleTotal | app/core/audit_worker.py:206-307 | a cycle changes the total by exactly that correction |
| Audit.CycleCredit | app/core/audit_worker.py:268-302 | a surplus at the gateway is credited in full, and only a surplus is credited |
| Audit.ResidualAfterCycle | app/core/audit_worker.py:206-317 | afterwards bank and gateway are level, or a cent apart, or beyond the cap and untouched, or the matrix account is empty |
| Audit.LevelAfterCycleExactly | app/core/audit_worker.py:206-317 | when a cycle leaves bank and gateway level, for every divergence, with or without a matrix account |
| Audit.CycleIsIdleExactly | app/core/audit_worker.py:206-317 | when a cycle changes nothing, a divergence of one cent among the cases |
| Audit.VerdictExactly | app/core/audit_worker.py:200-317 | what a cycle reports, by the divergence in cents and the matrix account |
| Audit.CycleIsIdempotent | app/core/audit_worker.py:206-317 | a second cycle against the same gateway balance changes nothing |
| Audit.StaleMeasurement | app/core/audit_worker.py:150-231 | a full correction leaves the gap that arose between measurement and correction, no more and no less |
| AuditSchedule.RunLoop | app/core/audit_worker.py:476-494 | the loop sweeps on the days that the schedule function gives |
| AuditSchedule.SweptOnceWhenPossible | app/core/audit_worker.py:476-494 | a day is swept if and only if one of its turns can do it, and never twice |
| PixAudit.CycleKeepsHolds | app/core/audit_worker.py:213-307 | a cycle moves no hold |
| PixAudit.CycleSolvencyExactly | app/core/audit_worker.py:223-231 | a cycle keeps every account covering its holds if and only if its debit fits into the available balance of the matrix account |
| PixAudit.PlayStaysSolvent | app/core/audit_worker.py:213-307 | over every run with audit cycles in between, without such debits and payments, accounts cover their holds |
| PixAudit.PlayConserves | app/core/audit_worker.py:200-317 | over every run with audit cycles, the total is the initial one plus receipts, minus value and 3.00 for each confirmed send, plus the corrections |
| PixAudit.PlaySurplus | app/core/fees.py:95-124 | from a level start, and for any book of the gateway, the gateway ends ahead by 1.00 for each confirmed send, less what is unmatched and what audits have taken in |
| PixAudit.MatchedExactlyWhenBooksAgree | app/core/audit_worker.py:150-206 | when no payment brought more than was booked and no payout cost less, nothing is unmatched if and only if the books agree entry by entry |
| PixAudit.AuditCollectsTheSurplus | app/core/audit_worker.py:268-302 | after any run, audits included, the next cycle credits exactly 1.00 for each confirmed send less earlier corrections if and only if nothing is unmatched, whenever that is two cents or more, and then levels bank and gateway |
| PixAudit.CorrectionsAddUp | app/core/audit_worker.py:200-317 | whenever a run ends level, the corrections of all its cycles add up to 1.00 for each confirmed send, less what is unmatched |
| PixAudit.UnmatchedIsSumOfGaps | app/core/audit_worker.py:150-206 | over every run, and however the gateway's entries are shared out among the turns, what is unmatched is the sum of one gap for each turn |
| PixAudit.OneTurnGap | app/core/audit_worker.py:150-206 | a gap is what is unmatched after the turn alone |
| PixAudit.DeliveredPaymentGap | app/pix/router.py:2280-2635 | in every state, a delivered payment leaves what is credited less what arrived |
| PixAudit.ReportedPayoutGap | app/pix/router.py:2098-2175 | in every state, a payout reported done leaves its cost unless it names a send in flight, and then the difference in value |
| PixAudit.ConfirmationGap | app/pix/router.py:1156-1215 | a confirmation by id leaves the charge's value when nobody paid it, and nothing when the value arrived |
| PixAudit.AskedConfirmationGap | app/pix/router.py:1218-1280 | a confirmation the gateway answers for leaves nothing when the value arrived |
| PixAudit.OwnChargeGap | app/pix/router.py:1656-1751 | paying one's own charge leaves its value |
| PixAudit.TurnedDownIsRefused | app/pix/router.py:1900-1994 | a payment made by the gateway is refused if and only if it has no value, is not covered, or its id is taken |
| PixAudit.RefusedPayoutGap | app/pix/router.py:1900-1994 | a QR payment made by the gateway and then refused leaves its cost |
| PixAudit.OtherTurnsLeaveNoGap | app/pix/service.py:198-404 | sends, charges made, cancellations, failed transfers, cycles, payments between accounts and whatever is not accepted leave nothing |
| Crc.BlockIsBits | app/core/pix_emv.py:19-23 | adding a block to the register and shifting equals feeding its bits one by one |
| Crc.MeetingAgrees | app/core/pix_emv.py:18-23 | registers that meet after k bits agreed on all but their first k bits |
| Crc.BurstDetected | app/core/pix_emv.py:12-24 | two messages of equal length that differ only within 16 bits leave different registers |
| CrcText.ByteStep | app/core/pix_emv.py:20-23 | the inner loop over eight shifts feeds the bits of one byte |
| CrcText.ComputeCrc16 | app/core/pix_emv.py:12-24 | the loop over bytes gives the register over all bits of the UTF-8 form, in four hexadecimal digits |
| CrcText.HexInjective | app/core/pix_emv.py:24 | different registers print differently |
| CrcText.EncodeInjective | app/core/pix_emv.py:19 | different texts have different UTF-8 bytes |
| CrcText.EncodedCharReadsBack | app/core/pix_emv.py:19 | the bytes of a character read back by the rule of UTF-8, as few as it takes |
| CrcText.ShortEditChangesCrc | app/core/pix_emv.py:12-24 | replacing at most two bytes of a text by as many others changes the checksum |
| Text.SpacesExactly | app/pix/router.py:209 | the characters that stripping takes away, one by one |
| Text.CapitalsExactly | app/pix/router.py:215 | the capital of each small letter, and that nothing else changes |
| CrcCheck.UntaggedPasses | app/pix/router.py:210-212 | a text without the tag passes |
| CrcCheck.CheckedExactly | app/pix/router.py:213-216 | any other passes if and only if what follows its last tag is, in capitals or not, the checksum of everything up to the tag |
| CrcCheck.SealedPassesExactly | app/pix/router.py:200-216 | a payload with its checksum appended is accepted if and only if the checksum is not 6304 |
| CrcCheck.ShortEditIsRejected | app/pix/router.py:200-216 | ahead of the CRC tag, changing one or two ASCII characters of an accepted payload makes it rejected, whatever blanks surround it |
| CrcCheck.EditPassesExactly | app/pix/router.py:200-216 | ahead of the CRC tag, any edit of an accepted payload is accepted if and only if both beginnings leave the same register, whatever blanks surround them |
| CrcCheck.BlankEditCanPass | app/pix/router.py:200-216 | an edit of the first two characters into blanks that goes unnoticed |
| CrcCheck.KnownChecksum | app/core/pix_emv.py:12-24 | the checksum of the letter A is B915 |
| CrcSteer.SomeTextGivesCrc | app/core/pix_emv.py:12-24 | between any two texts some four ASCII characters give the whole any checksum one likes |
| CrcSteer.SomeNameIsRejected | app/pix/router.py:200-216 | for every key some merchant name of four ASCII characters gives a generated payload that the CRC check rejects |
| Tlv.Walk | app/core/pix_emv.py:122-138 | the walk yields the fields up to the first malformed one |
| Tlv.WalkOfConcat | app/core/pix_emv.py:27-29 | for every list of two-character tags and values of at most 99 characters, the walk of the printed fields is that list |
| Tlv.PrintedComesBackExactly | app/core/pix_emv.py:27-29 | a printed field comes back alone if and only if its value has at most 99 characters |
| Tlv.WalkStopsWhereBroken | app/core/pix_emv.py:122-138 | whatever breaks off the text (too short, a length that is no number, a value cut off), every field printed ahead of it is read and nothing else |
| Tlv.FillDictionary | app/pix/router.py:282-296 | the loop fills a dictionary in which the last field with a tag wins |
| BrCode.FindPayloadUrl | app/core/pix_emv.py:206-247 | the loop finds the location in the first merchant account, in text order, that has one |
| PayloadLocation.LocationExactly | app/core/pix_emv.py:141-157 | a value is a location if and only if it has one of three schemes, or is a letter, host characters, a dot, two letters or more, a slash and anything |
| PayloadLocation.NormalisedExactly | app/core/pix_emv.py:160-166 | the normalised form of every location, with any blanks around it |
| PayloadLocation.AccountExactly | app/core/pix_emv.py:230-247 | for every account, which of its sub-fields is the location, if any, and that it must name the arrangement, in capitals or not |
| PayloadLocation.BareAccountHasNone | app/core/pix_emv.py:230-247 | an account without these sub-fields has no location |
| BrCodeRoundTrip.FieldsOfPayload | app/core/pix_emv.py:32-104 | the fields of a generated payload are those it was built from, and the checksum |
| BrCodeRoundTrip.KeyComesBack | app/core/pix_emv.py:169-203 | for every key of at most 77 characters a generated payload gives the key and its kind back, unless the key reads as a location |
| BrCodeRoundTrip.AmountTextOfPayload | app/core/pix_emv.py:71-104 | the amount text comes back, and is absent when none was given |
| BrCodeRoundTrip.AmountReadsBack | app/core/pix_emv.py:51-52 | the decimal of a number of cents reads back as that amount |
| BrCodeRoundTrip.TxIdComesBack | app/pix/router.py:219-246 | the router reads back the hyphen-stripped 25-character transaction id, and none when it is blank |
| BrCodeRoundTrip.TxIdExactly | app/core/pix_emv.py:50-58 | the transaction id of a key without hyphens, and of a UUID: the first 25 characters without hyphens |
| BrCodeRoundTrip.ChargeComesBack | app/core/pix_emv.py:32-68 | for every hexadecimal charge id of at most 77 characters and every amount, key, amount, transaction id and checksum all read back |
| BrCodeRoundTrip.MerchantComesBack | app/pix/router.py:143-145 | the router reads the merchant name back, stripped |
| BrCodeRoundTrip.NoAmountComesBack | app/core/pix_emv.py:71-104 | a payload without an amount gives back its key and name, and no amount in either parser |
| BrCodeRoundTrip.UuidIsRandomKey | app/core/pix_emv.py:189-202 | a charge id as long as a UUID reads back as a random key |
| BrCodeRoundTrip.KindExactly | app/core/pix_emv.py:189-202 | what every key is taken for |
| BrCodeRoundTrip.PayloadText | app/core/pix_emv.py:32-68 | a charge's payload character by character: tags, lengths, constants and the checksum of all that precedes it |
| BrCodeRoundTrip.NormaliseIsIdempotent | app/core/pix_emv.py:160-166 | a normalised location starts with http and stays as it is |
| QrPayment.FindInternalCharge | app/pix/router.py:445-523 | the search finds an unpaid charge by id, by stored payload or by the UUIDs in stored payloads, tried in order, then a paid one |
| ChargeSearch.UuidExactly | app/pix/router.py:62-65 | a UUID is five groups of 8, 4, 4, 4 and 12 hexadecimal digits with hyphens between |
| ChargeSearch.UuidsInOrder | app/pix/router.py:62-65 | the UUIDs of a text are the leftmost one and then those of what follows it |
| ChargeSearch.NoUuids | app/pix/router.py:62-65 | and none, if there is none |
| ChargeSearch.PayIdsInOrder | app/pix/router.py:66 | so it is with payment ids of the gateway, each as long as letters and digits go |
| ChargeSearch.NoPayIds | app/pix/router.py:66 | and none, if there is none |
| ChargeSearch.FoundById | app/pix/router.py:455-475 | when an id of the text is an unpaid charge, the search gives the first such and nothing else |
| ChargeSearch.FoundByText | app/pix/router.py:477-486 | otherwise, exactly an unpaid charge that is stored with the first 200 characters of the text, if there is one |
| ChargeSearch.FoundByUuid | app/pix/router.py:488-502 | otherwise, for a text of the gateway, exactly an unpaid charge stored with the first UUID that any is stored with |
| ChargeSearch.PaidFoundById | app/pix/router.py:504-513 | only then, the first id of the text that is a paid charge |
| ChargeSearch.PaidFoundByUuid | app/pix/router.py:515-523 | and last, for a text of the gateway, a paid charge stored with one of its UUIDs |
| ChargeSearch.NothingFound | app/pix/router.py:525 | and none, if every way fails |
| ChargeSearch.EarlyScanAnswer | app/pix/router.py:1579-1611 | a value that is not positive, or an unknown user, is refused whatever the text |
| ChargeSearch.DamagedScanIsRefused | app/pix/router.py:1605-1611 | a text that differs from an accepted payload in one or two characters ahead of the checksum pays nothing |
| ChargeSearch.StoppedScanIsIdle | app/pix/router.py:1605-1655 | the scan of a charge payload that fails any check on the way changes nothing |
| QrPayment.PayloadNamesOnlyItsCharge | app/pix/router.py:62-66 | the only id in the payload of a charge, blanks around it included, is the charge's own |
| QrPayment.SearchFindsItsCharge | app/pix/router.py:445-523 | the search on that payload finds the charge while it is unpaid and, once it is paid, if and only if no other unpaid charge is stored under the text |
| QrPayment.ScannedRequest | app/pix/router.py:1605-1655 | the request of a scanned charge payload holds the amount it was made for, the digest of the stripped payload and the client's data |
| QrPayment.ScanPaysItsCharge | app/pix/router.py:1605-1751 | scanning the payload of an unpaid charge pays that charge at its own value, whatever the payload or the client names |
| QrPayment.PaidChargeIsNotPaidAgain | app/pix/router.py:501-523 | after any run, scanning the payload of a paid charge leaves its row as it is, whoever scans, and changes nothing at all unless another unpaid charge is stored under the text |
| QrPayment.LocalChargeStays | app/pix/router.py:1107-1134 | over every run a charge made here stays the same charge, unpaid or paid |
| QrPayment.ChargePaymentExactly | app/pix/router.py:1656-1751 | paying another account's charge is accepted if and only if value and 1.00 are covered and no unique column clashes, and what it then moves on every account |
| QrPayment.ChargeIsPaidByScan | app/pix/router.py:1605-1751 | a charge made for a user and scanned after any run by someone else is paid if and only if the payer covers value and 1.00 and the row does not clash; payer, user and matrix account get exactly their parts |
| RouterEmv.ParseTopLevel | app/pix/router.py:102-129 | the loop keeps the last value of each tag ahead of the first CRC field |
| RouterEmv.FindTxId | app/pix/router.py:219-246 | the loop finds the first sub-field 05 of field 62, stripped |
| RouterEmv.FindPixUrl | app/pix/router.py:253-331 | the loop over tags 26 to 51 finds the location with the smallest tag |
| ParserAgreement.AmountsAgreeExactly | app/pix/router.py:132-140 | for every text, both parsers read the same amount under every reading of decimals if and only if the first amount text of one is the last of the other |
| ParserAgreement.AmountsAgree | app/pix/router.py:132-140 | they do on trimmed text with distinct tags and nothing after the CRC |
| ParserAgreement.UrlsAgreeExactly | app/pix/router.py:253-331 | for every text, both find the same location if and only if neither has an account to take it from, or both have and these hold the same one |
| ParserAgreement.DistinctUrlsAgreeExactly | app/pix/router.py:253-331 | with distinct locations, where stripping changes no field: if and only if the first account with a location is the one the router takes |
| ParserAgreement.UrlsAgree | app/pix/router.py:253-331 | they do on trimmed text with distinct tags and nothing after the CRC when the account tags ascend |
| ParserAgreement.RepeatedAmountDisagrees | app/core/pix_emv.py:250-261 | a repeated amount is read differently |
| ParserAgreement.DescendingAccountsDisagree | app/core/pix_emv.py:220-247 | two accounts out of order give different locations |
| ParserAgreement.RepeatedAccountDisagrees | app/pix/router.py:102-129 | an account that comes again without a location hides the first one's from the router |
| Thinking.AnswerExactly | app/ia/router.py:368-420 | for every list of tokens, what is pushed: the text, the text after the first closing tag, or the text without complete blocks |
| Thinking.ThinkingIsHidden | app/ia/router.py:368-420 | however blanks, a thinking block and any rest are cut into tokens, what is pushed is the rest, or the rest without complete blocks if no token follows the one that completes the opening tag |
| Thinking.PlainRestIsShown | app/ia/router.py:368-420 | a rest without a complete block comes out the same either way |
| Thinking.InterruptedShowsOnlyRest | app/ia/router.py:402-420 | after any part of such a text nothing has been pushed but a start of the rest |
| Thinking.VisibleTextIsKeptExactly | app/ia/router.py:400-418 | text ahead of the opening tag in the token that completes it is kept if and only if no later token shows a closing tag |
| Thinking.TextAheadOfTagIsLost | app/ia/router.py:400-418 | two tokens, the second with the closing tag, show only what follows that tag |
| Thinking.UntaggedIsPushedWhole | app/ia/router.py:380-409 | text without an opening or without a closing tag is pushed whole, up to surrounding blanks |
| Thinking.VisibleTextFirstShowsAll | app/ia/router.py:402-420 | once a first token shows visible text everything is pushed as it comes |
| Thinking.FirstTokenShownExactly | app/ia/router.py:395-409 | a first token without the tag is held back if and only if it is blank, or begins with a bracket and is short or begins like the tag |
| Probe.Run | app/ia/router.py:372-420 | what reaches the queue is a function of the joined text, whatever the chunks |
| Probe.StreamFiltersTokens | app/ia/router.py:374-420 | the stream is the filter over the decoded tokens, flushed at the end marker |
| Probe.LinesExactly | app/ia/router.py:372-376 | a line is what comes ahead of a line break, and an unfinished one is not looked at |
| Probe.EndLine | app/ia/router.py:377-387 | the line data: [DONE] flushes the filter and ends the stream |
| Probe.TokenLine | app/ia/router.py:388-395 | a data line hands the token of its payload to the filter, or does nothing |
| Probe.OtherLine | app/ia/router.py:374-378 | any other line does nothing, and after the end no line does |
| Probe.UnfinishedThoughtIsShown | app/ia/router.py:377-387 | a stream of one unfinished thought and the end marker shows the thought and ends |
| Probe.StreamHidesThinking | app/ia/router.py:368-420 | a stream that ends delivers the rest after a thinking block, with or without its complete blocks as the cut into tokens decides |
| Probe.InterruptedStreamHidesThinking | app/ia/router.py:368-420 | a stream that stops without an end marker has pushed nothing, or a start of the rest |
| Probe.StreamPushesText | app/ia/router.py:382-420 | no empty text is ever pushed |
| Race.RaceStream | app/ia/router.py:431-499 | the nested loops yield what the state machine over queue items yields |
| Race.OneModelWins | app/ia/router.py:463-499 | for every interleaving over all waves the texts yielded are a prefix of one model's texts in order; the failure is yielded alone |
| Race.NoWaveAfterText | app/ia/router.py:494-496 | once a text was yielded no further wave starts |
| Race.AnswerIsOneStream | app/ia/router.py:330-499 | the answer is a prefix of what one model's own stream pushes |
| Race.FailureAfterAllModelsExactly | app/ia/router.py:463-499 | when only errors arrive, the failure is yielded if and only if every model of every wave has failed |
| Race.FailureAfterTimeoutsExactly | app/ia/router.py:437-462 | when only timeouts happen, each gives up four models, and the failure is yielded if and only if that uses them up |
| Race.RaceOutcomeExactly | app/ia/router.py:431-499 | for every interleaving, the whole outcome: decided by the first item that is neither an error nor a timeout, and then by the winner's own items |
| Race.TextIsShownExactly | app/ia/router.py:463-499 | a text is shown if and only if that first item is a text and some model is left by then |
| Race.EmptyAnswerExactly | app/ia/router.py:473-487 | an end without text is the whole answer if and only if that first item is that model's end |
| Race.EmptyAnswerEndsRace | app/ia/router.py:473-487 | a model that ends without text ends the race, after any errors and timeouts that leave a model |
| Race.EmptyTextDoesNotWin | app/ia/router.py:473-490 | an empty text is yielded and the race goes on as if it had not been there |
| RateLimit.Limiter.Check | app/web_routes.py:28-42 | admits if and only if fewer than max admissions of that client lie in the closed window that ends now; other clients are untouched |
| RateLimit.EvictFront | app/auth/router.py:50-52 | the loop drops exactly the expired front |
| RateLimit.EvictedAreOutside | app/web_routes.py:34-37 | the evicted queue counts the admissions in the window |
| RateLimit.AdmissionKeepsLimit | app/auth/router.py:45-58 | an admission keeps every closed interval of window length at or below max |
| RateLimit.Limiter.NeverMoreThanMax | app/web_routes.py:28-42 | no closed interval of window length ever holds more than max admissions |
| CircuitBreaker.Breaker.State | app/adapters/asaas_adapter.py:42-47 | reading the state opens the way to half open once the recovery time has passed |
| CircuitBreaker.Breaker.AllowRequest | app/adapters/asaas_adapter.py:49-55 | allows if and only if the failures in a row are none or below the threshold, or the recovery time has passed since the last |
| CircuitBreaker.Breaker.RecordSuccess | app/adapters/asaas_adapter.py:57-59 | adds a success to the history the promise is about |
| CircuitBreaker.Breaker.RecordFailure | app/adapters/asaas_adapter.py:61-69 | adds a failure at a time to the history the promise is about |
| CircuitBreaker.Breaker.Attempt | app/adapters/asaas_adapter.py:199-261 | an attempt reaches the gateway if and only if permitted, and is recorded by its outcome |
| CircuitBreaker.Breaker.Request | app/adapters/asaas_adapter.py:193-261 | a request makes three attempts at most, going on after a rejection, a timeout or a network error |
| CircuitBreaker.ShutSendsNothing | app/adapters/asaas_adapter.py:193-221 | a request made while the breaker is shut reaches nothing and records no failure, however often it is tried again |
| CircuitBreaker.RequestCounts | app/adapters/asaas_adapter.py:193-261 | the failures in a row after a request, by how it ended |
| CircuitBreaker.AttemptsAreQueries | app/adapters/asaas_adapter.py:193-221 | a request asks the breaker once for each attempt |
| CircuitBreaker.SecondAttemptExactly | app/adapters/asaas_adapter.py:193-198 | a second attempt follows if and only if the first was rejected, timed out or met a network error |
| CircuitBreaker.LastAttemptDecides | app/adapters/asaas_adapter.py:193-261 | a request ends as its last attempt did |
| CircuitBreaker.BelowThresholdPermits | app/adapters/asaas_adapter.py:49-69 | below the threshold everything is permitted |
| CircuitBreaker.SuccessStartsAfresh | app/adapters/asaas_adapter.py:57-59 | after a success the breaker permits what a new one would that saw only what came since |
| CircuitBreaker.ShutExactlyDuringRecovery | app/adapters/asaas_adapter.py:42-69 | at the threshold, a failure shuts the breaker exactly until the recovery time has passed |
| CircuitBreaker.QueriesDoNotCount | app/adapters/asaas_adapter.py:42-55 | any number of queries leaves what is permitted unchanged |
| Subscription.UserSubscription.CheckExpiry | app/minha_conta/service.py:37-72 | an overdue plan is renewed from the balance if it can be, else expires |
| Subscription.UserSubscription.RequireActive | app/ia/router.py:38-56 | lets through exactly active plans that are not overdue, and expires overdue ones |
| Subscription.UserSubscription.SubscribeWithBalance | app/minha_conta/service.py:84-104 | takes 9.90 and activates for 30 days, or refuses |
| Subscription.UserSubscription.SubscribeWithCard | app/minha_conta/service.py:129-152 | activates for 30 days with a usable card |
| Subscription.UserSubscription.CancelSubscription | app/minha_conta/service.py:172-178 | stops the renewal of an active plan |
| Subscription.UserSubscription.ActivateTrial | app/minha_conta/service.py:196-215 | starts the 24-hour trial if it was never used and no plan is active |
| Subscription.UserSubscription.AdminGrant | app/minha_conta/service.py:230-243 | activates for 30 days without renewal |
| Subscription.ExpiryNeverMovesBack | app/minha_conta/service.py:37-72 | over every run the expiry date never moves back |
| Subscription.RenewalsAreFarApart | app/minha_conta/service.py:37-72 | successive automatic charges are more than 30 days apart, however often the plan is polled |
| Subscription.TrialStartsOnce | app/minha_conta/service.py:196-215 | the trial starts at most once in any run |
| Subscription.BalancePaysForCharges | app/minha_conta/service.py:50-51 | the balance falls by exactly 9.90 for each paid activation and renewal, and never below zero |
| Subscription.PaidPlan | app/minha_conta/service.py:84-104 | a plan paid from the balance costs 9.90, renews itself and lets its user in until thirty days later; without the money nothing happens |
| Subscription.CardPlan | app/minha_conta/service.py:129-152 | a plan paid by card does the same without the balance |
| Subscription.FreePlans | app/minha_conta/service.py:196-243 | trial and grant are free and do not renew; a day, once, and thirty days |
| Subscription.VisitAnswer | app/minha_conta/service.py:37-72 | what a poll and the chat do to every plan |
| Subscription.CancelKeepsPeriod | app/minha_conta/service.py:172-178 | cancelling keeps the period and stops the renewal |
| Subscription.ChatPreventsRenewal | app/ia/router.py:47-56 | opening the chat on an overdue plan ends it, where a poll would have renewed it |
| Subscription.ChatMattersExactly | app/ia/router.py:47-56 | a chat right before a poll makes a difference if and only if the poll would renew |
| Subscription.FirstLateVisitDecides | app/minha_conta/service.py:37-72 | over every run of visits and deposits a plan is renewed if and only if the first visit after its expiry date is a poll that the balance of that moment covers |
| Subscription.ChatFirstMattersExactly | app/ia/router.py:47-56 | opening the chat ahead of such a run takes renewals away if and only if the plan is overdue by then and that first visit would have renewed it |
| Amortization.CalculateInstallments | app/parcelamento/service.py:24-47 | the loop builds the table of the recurrence |
| Amortization.ClosedForm | app/parcelamento/service.py:18-35 | before clamping, the balance after month k is PV((1+i)^n - (1+i)^k)/((1+i)^n - 1) |
| Amortization.ColumnFallsToZero | app/parcelamento/service.py:32-39 | the balance column never rises, is never negative and ends at zero |
| Amortization.PrincipalsAddUpExactly | app/parcelamento/service.py:33-47 | the principals add up to the value if and only if there is one instalment or it is at least 0.01(1+i); otherwise to more |
| Amortization.PaymentsAreValueAndInterest | app/parcelamento/service.py:33-50 | the payments are value plus interest under the same condition |
| Boleto.ComputeMod10 | app/boleto/service.py:21-29 | the loop computes the modulo-10 digit |
| Boleto.Mod10DetectsChange | app/boleto/service.py:21-29 | modulo 10 detects every change of one digit, at any length |
| Boleto.Mod10DetectsSwapExactly | app/boleto/service.py:21-29 | modulo 10 misses a swap of neighbours if and only if they are equal or are 0 and 9 |
| Boleto.Mod10Completes | app/boleto/service.py:21-29 | the modulo-10 digit is the only digit that completes the sum to a multiple of ten |
| Boleto.ComputeMod11 | app/boleto/service.py:32-41 | the loop computes the modulo-11 digit |
| Boleto.Mod11DetectsChangeExactly | app/boleto/service.py:32-41 | modulo 11 misses a change of one digit if and only if both remainders are among 0, 1 and 10 |
| Boleto.Mod11Completes | app/boleto/service.py:32-41 | the modulo-11 digit completes the sum to a multiple of eleven, or is 1 where no digit from 2 to 9 does |
| Boleto.ValidateBarcode | app/boleto/service.py:44-93 | the method decides validity by length, first digit and check digits |
| Boleto.AcceptedExactly | app/boleto/service.py:44-93 | which digits are accepted, by length, first digit and the sums over each block with its check digit |
| Boleto.LineNoticesChangeExactly | app/boleto/service.py:58-70 | in a valid 47-digit line a change of one digit is rejected if and only if it is among the first 32 |
| Boleto.ConvenioNoticesChange | app/boleto/service.py:79-86 | in a valid 48-digit line every change of one digit is rejected |
| Boleto.BarcodeNoticesChangeExactly | app/boleto/service.py:73-91 | which changes of one digit a valid 44-digit bank barcode misses |

## Left out

- HTTP, authentication, templates, e-mail, metrics, SQLAlchemy sessions and row locks: each request is one atomic step.
- Sub-cent amounts and binary floating point: amounts are integer cents, amortization is over exact reals, displayed values are not rounded.
- Antifraud screening and the withdrawal validation webhook, which refuse requests before any of the modelled state changes.
- The account an inbound payment or a key resolves to is an input.
- The `pix_key` column is not part of `PixModel.Tx`: where `QrPayment` needs it, it is a map beside the tables. LIKE is taken as a case-sensitive search, and the payload digest as an arbitrary function.
- PixDatabase.Database.PayPixQrCode: starts behind the CRC check and the charge search, which `QrPayment` puts in front of its step function; the amount of field 54 arrives in cents.
- The routes /transacoes/confirmar, /payments/execute, /charges/{id}/sync and /deposito/verificar, which change statuses by other rules or match deposits by heuristics; the run theorems are about the other routes.
- PixDatabase.Database.PayThroughGateway: replacing the provisional id by the gateway's payment id, an update of a primary key in place, is modelled as dropping the row and inserting it under the new id; sandbox mode and a missing gateway are one answer.
- Timestamps, descriptions and correlation ids of transactions, apart from the keys made of them.
- The rounding of balances in the end-of-day reconciliation, which is the identity on cents; the audit report's texts.
- Length fields and tag numbers that int() accepts beyond two ASCII digits, non-ASCII digits in barcodes and keys, and upper case beyond the letters a to z.
- BrCodeRoundTrip.AmountReadsBack: reads a plain decimal with two places; other spellings that float() accepts matter only to `ParserAgreement`, which speaks of every reading of decimals that rejects the empty text.
- Race.RaceStream: model names within a wave are taken as distinct, as they are in the list; a run may stop at any point of the queue.
- Probe.Run: HTTP errors, timeouts and cancellation enter the race as queue items; the JSON payload is decoded by an arbitrary function.
- CircuitBreaker.Breaker.Request: the waiting times between attempts are not modelled; attempts follow one another in time.
- CET, growth and revenue projections, the balance effect of paying a boleto, cards, profile scores, CPF and CNPJ validators: easy members or floating point.

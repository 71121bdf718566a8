# Escrow platform: ledger, mirror and protocols

A Dafny model of a freelance-escrow platform. Clients deposit lamports for a job, the platform locks
them when a freelancer is hired, and releases or refunds them at the end. An off-chain service
shadows the chain in database rows, and a handful of message protocols tie the services together.

| file | what it models |
|---|---|
| `Common.dfy` | results, sums, and the total of a finite map |
| `Ledger.dfy` | the seven lamport-moving instructions as functions on a chain value, and whole runs of them |
| `Journal.dfy` | sums over the journal of accepted instructions; the checked fee; transfers |
| `JobBooks.dfy` | the life of one job: settlement, the 5% bound, one life per job |
| `Solvency.dfy` | conservation, solvency of every vault, isolation, exactly which instructions are accepted |
| `Outcomes.dfy` | what each instruction does to every balance and record, which error it stops with, and who pays in a whole run |
| `EscrowProgram.dfy` | the handlers as they are written, assigning fields and moving lamports in place, under a runtime that undoes a failed instruction |
| `Transactions.dfy` | the accounts each instruction demands, and the account lists the service writes for its transactions |
| `EscrowService.dfy` | the service's job and milestone operations over its tables, and the lock-on-hire handler |
| `MirrorLag.dfy` | the same operations cut into guard read, broadcast and row write, interleaved at will |
| `Borsh.dfy`, `AccountLayout.dfy` | the Borsh encodings, the two account layouts and the service's readers |
| `InstructionData.dfy` | the service's instruction encoders against the program's decoder |
| `ContractProgram.dfy` | the on-chain contract record |
| `RequestResponse.dfy`, `Consumers.dfy`, `Conversations.dfy`, `Hiring.dfy` | RPC over the broker, consumers across reconnects, race-safe conversations, the two-party hire |

## How it is put together

`Ledger.Exec` says what one instruction does: its checks in the program's order, the lamports it
moves, the record it leaves, or the error. `EscrowProgram.Program` has one method per handler that
works the way the handler does (a status is written before the transfer it announces, a top-up
writes its sums after its transfers), and each is proved to do what `Exec` says. `Process` is the
runtime: when a handler stops half way, everything it wrote is restored. The theorems about runs are
stated over `Ledger.Run`, any sequence of instructions for any jobs by anyone, accepted or rejected,
with plain lamport transfers from outside among them; `Process` ties the class to them by
`History() == Advance(old(History()), s)`.

`Outcomes` says the same once more without `Exec`'s words: every balance and record after an accepted
instruction, and the error of a refused one, cause by cause.

A run starts at a genesis: no escrows, any balances, and a lamport supply that fits in a u64. Wallets
are keys, never program-derived addresses, when they sign. The freelancer named at the lock may be any
address at all, a vault included; lamports that reach a vault that way are counted as strays, so the
equalities need no assumption about it.

In a job's book, `A` is the sum of its deposits and `F` the sum of their fees, each rounded down on
its own.

## Where the code and its descriptions differ

The model follows the code.

- The program's integration test expects a release to pay the freelancer the whole principal
  (`programs/mint-jobs-escrow/tests/mint-jobs-escrow.ts:208`); the handler keeps a fortieth.
- `programs/mint-jobs-escrow/ESCROW.md:47` gives the escrow account 152 bytes with a 36-byte job id;
  the code stores a 32-byte hash and a deferred fee, 156 bytes in all.
- The fee withdrawal is described as the authority's; its handler checks the amount only, so its
  theorem holds for any signer.
- The service's guard lets a job whose row says REFUNDED be funded again; the chain never does
  (`EscrowService.Service.FundJob`).
- A milestone top-up is sent without the fee vault account the program demands, so it never lands
  (`Transactions.MilestoneTopUpTransaction`, `EscrowService.Service.TopUpMilestone`); the lists of all
  other operations are admitted.

## Properties that hold only under a condition

Each is stated with the exact condition.

- *A locked escrow can be released.* Not always: several deposits that each pass the overflow check of
  the fee can add up to a principal that does not. Release works exactly while 250 times the
  principal fits in a u64 (`Solvency.ReleaseAcceptedIff`, with a concrete run in
  `Solvency.ReleaseCanOverflow`). A refund always works.
- *The row agrees with the chain after a confirmation.* A job's does exactly when the chain could be
  read, the job has an escrow or gets one by the transaction confirmed, and the transaction was not
  really for another escrow with a row of its own (`EscrowService.Service.ConfirmJob`). A milestone's
  fallback keeps the row's amount, so without a read it still agrees for a first deposit of just that
  amount, and, when the transaction was not its own, if the row was FUNDED already
  (`EscrowService.Service.ConfirmMilestone`). A pending milestone confirmed with an older signature is
  the failing case (`EscrowService.ConfirmedForNothing`).
- *The database is never ahead of the chain.* At every moment of a run it is not, if and only if every
  confirmation that saw no escrow, and then writes FUNDED into a row all the same, writes it when the
  escrow exists (`MirrorLag.AlwaysBehindIff`). Stale guards, late and lost writes and transactions
  from outside do no harm. It is enough that confirmations are asked for escrows that exist, whether
  or not the read succeeds (`MirrorLag.AlwaysBehind`). One run of two parts breaks it, and the same
  run with the deposit in between does not (`MirrorLag.ConfirmedTooEarly`,
  `MirrorLag.ConfirmedInTime`).
- *After a hire every funded milestone is locked.* The event fails as a whole, before any milestone is
  tried, exactly when the freelancer has a wallet, an authority key is configured, and the job has a
  readable Funded escrow of its own whose lock is lost or which names another authority. Otherwise a
  funded milestone ends locked to that wallet exactly when an authority key is configured, its own
  transaction gets through, and its escrow names that authority; failures of single milestones are
  reported and stop nothing (`EscrowService.Service.HandleProposalHired`, with a failing state in
  `EscrowService.HireStopsEarly`).
- *The authority can refund a live milestone through the service.* On chain it always can; the service
  can exactly while the milestone's row holds the client's own wallet, which a confirmation may
  overwrite with another (`EscrowService.Service.RefundMilestone`, `EscrowService.RefundOutOfReach`).
- *A new conversation gets exactly one welcome.* It has at most one at any time, and has it exactly when
  the caller that created it has returned. When that caller stops after its insert, the row stays,
  everyone after it is told that the conversation existed, and the welcome never comes
  (`Conversations.OneWelcome`, `Conversations.NeverWelcomed`).
- *A caller that inserts finds a row.* Unless a soft-deleted row holds the pair's place in the unique
  index; nothing in the repository soft-deletes a conversation (`Conversations.NextStepIff`).
- *Timestamps survive the reader.* Exactly those with at most 53 significant bits, among them all up to
  2^53; 2^53 + 1 is the first that does not (`AccountLayout.NumberIsExactIff`,
  `AccountLayout.FirstInexact`).
- *A gateway process can make requests.* At any moment of any run it can, if and only if its first
  subscription attempt has succeeded by then; the promise of a failed one is kept and never retried
  (`RequestResponse.RequestGoesOutIff`, with the failing runs in `RequestResponse.FailedForGood`).

## Model

| member | source | states |
|---|---|---|
| EscrowProgram.Program.Process | programs/mint-jobs-escrow/programs/mint-jobs-escrow/src/instructions/release.rs:85-121 | One instruction under the runtime: the whole state and journal move to exactly what the specification says, and any error, even after fields were written and lamports sent, leaves the state as it was; every job's book and every vault stay in order |
| EscrowProgram.Program.Send | programs/mint-jobs-escrow/programs/mint-jobs-escrow/src/instructions/withdraw_fees.rs:34-44 | A system transfer debits then credits, or fails with the specified error when the source is short or the target would overflow |
| EscrowProgram.Program.InitializeHandler | programs/mint-jobs-escrow/programs/mint-jobs-escrow/src/instructions/initialize.rs:45-92 | First deposit: a new Funded record with its deferred fee, principal and fee moved to the vault, or the first failing check's error; never a second time for a job |
| EscrowProgram.Program.TopUpHandler | programs/mint-jobs-escrow/programs/mint-jobs-escrow/src/instructions/top_up.rs:49-146 | A deposit before the lock defers its fee in the vault, one after the lock sends it to the fee vault at once; sums checked after the transfers |
| EscrowProgram.Program.WithdrawHandler | programs/mint-jobs-escrow/programs/mint-jobs-escrow/src/instructions/withdraw.rs:38-81 | The client takes principal and fee back before hire; the record ends Refunded and empty |
| EscrowProgram.Program.LockHandler | programs/mint-jobs-escrow/programs/mint-jobs-escrow/src/instructions/lock.rs:47-87 | The authority records the freelancer and the deferred fee is swept to the fee vault; the principal stays |
| EscrowProgram.Program.ReleaseHandler | programs/mint-jobs-escrow/programs/mint-jobs-escrow/src/instructions/release.rs:51-128 | Client or authority pays the recorded freelancer the principal less its fee, and the fee vault the fee; the record ends Released and empty |
| EscrowProgram.Program.RefundHandler | programs/mint-jobs-escrow/programs/mint-jobs-escrow/src/instructions/refund.rs:52-110 | The authority returns principal and fee before hire, principal alone after it; the record ends Refunded and empty |
| EscrowProgram.Program.WithdrawFeesHandler | programs/mint-jobs-escrow/programs/mint-jobs-escrow/src/instructions/withdraw_fees.rs:26-51 | Any positive amount the fee vault holds goes to the signer |
| Journal.FeeIsFortieth | programs/mint-jobs-escrow/programs/mint-jobs-escrow/src/state.rs:4-6 | The checked 2.5% fee succeeds exactly while 250 times the amount fits in a u64, and is then one fortieth rounded down |
| Journal.TransferBooks | programs/mint-jobs-escrow/programs/mint-jobs-escrow/src/instructions/initialize.rs:75-85 | A transfer conserves the total and changes its two ends only, by the amount sent, also when both ends are one account |
| Journal.TransferSucceedsIff | programs/mint-jobs-escrow/programs/mint-jobs-escrow/src/instructions/withdraw_fees.rs:34-44 | While the supply fits in a u64 a transfer fails only for an overdrawn source |
| JobBooks.BooksKept | programs/mint-jobs-escrow/programs/mint-jobs-escrow/src/instructions/top_up.rs:71-143 | After every run, a job's record and the sums of its journal (deposits, charges, fees, payouts, returns, counts of instructions) stand in the relation its status demands |
| JobBooks.Settlement | programs/mint-jobs-escrow/programs/mint-jobs-escrow/src/instructions/release.rs:72-121 | Whole-life settlement: Released has paid A - A/40 and earned the platform F + A/40; Refunded has returned everything if never locked and A if locked; at every moment charged = paid + fees + returned + still held |
| JobBooks.FivePercent | programs/mint-jobs-escrow/programs/mint-jobs-escrow/src/state.rs:4-6 | The platform's take from a released job is at most A/20 and more than A/20 - (n+1) for n deposits, with the tight bound, wherever the lock fell among them |
| JobBooks.FeesOfDeposits | programs/mint-jobs-escrow/programs/mint-jobs-escrow/src/instructions/initialize.rs:49-55 | Rounding deposit by deposit loses at most 39/40 of a lamport each |
| JobBooks.OneLife | programs/mint-jobs-escrow/programs/mint-jobs-escrow/src/instructions/initialize.rs:16-23 | Each job is initialised, locked and closed at most once in any run; closed records are empty, live ones hold at least 40, the freelancer is unset before the lock |
| JobBooks.StepEvolves | programs/mint-jobs-escrow/programs/mint-jobs-escrow/src/instructions/lock.rs:47-60 | One instruction keeps client, authority and job id, changes the freelancer only by a lock and the status only by a lock or a closing, upwards; closed records are final |
| JobBooks.RunEvolves | programs/mint-jobs-escrow/programs/mint-jobs-escrow/src/instructions/refund.rs:52-77 | The same from any moment to any later one |
| Solvency.Conservation | programs/mint-jobs-escrow/programs/mint-jobs-escrow/src/instructions/release.rs:95-121 | In every run lamports are neither made nor lost, and every address holds what it had, plus receipts, less payments |
| Solvency.AlwaysSolvent | programs/mint-jobs-escrow/programs/mint-jobs-escrow/src/instructions/top_up.rs:71-143 | In every run each vault holds exactly amount + platform_fee + its opening balance + strays, and the fee vault all fees collected less all withdrawn (plus its own strays) |
| Solvency.VaultCovers | programs/mint-jobs-escrow/programs/mint-jobs-escrow/src/instructions/release.rs:85-121 | A vault always covers its job, is exactly even if and only if nothing came from outside, and then is empty once the job is closed |
| Solvency.EveryMoveRouted | programs/mint-jobs-escrow/programs/mint-jobs-escrow/src/instructions/release.rs:110-121 | Every lamport ever moved went where its label says: deposits from the job's client, fees to the fee vault, payouts to the recorded freelancer of a Released job, returns to the client of a Refunded one |
| Solvency.Isolation | programs/mint-jobs-escrow/programs/mint-jobs-escrow/src/instructions/release.rs:17-37 | An instruction for another job leaves this job's record alone and takes nothing from its vault |
| Solvency.ReachableIsSound | programs/mint-jobs-escrow/programs/mint-jobs-escrow/src/instructions/refund.rs:68-77 | Every reachable chain satisfies the facts progress rests on |
| Solvency.SoundStep | programs/mint-jobs-escrow/programs/mint-jobs-escrow/src/instructions/top_up.rs:71-143 | Those facts are kept by every accepted instruction, from any state that has them |
| Solvency.InitializeAcceptedIff | programs/mint-jobs-escrow/programs/mint-jobs-escrow/src/instructions/initialize.rs:45-85 | A first deposit is accepted exactly for a fresh 36-byte job id, at least 40 lamports, no overflow of the fee, and the price in the wallet |
| Solvency.TopUpAcceptedIff | programs/mint-jobs-escrow/programs/mint-jobs-escrow/src/instructions/top_up.rs:49-94 | A top-up is accepted exactly for the client of a live escrow with the same amount conditions; the checked sums never overflow on a reachable chain |
| Solvency.WithdrawAcceptedIff | programs/mint-jobs-escrow/programs/mint-jobs-escrow/src/instructions/withdraw.rs:38-70 | A withdrawal is accepted exactly for the client of a Funded escrow |
| Solvency.LockAcceptedIff | programs/mint-jobs-escrow/programs/mint-jobs-escrow/src/instructions/lock.rs:47-80 | A lock is accepted exactly for the authority of a Funded escrow |
| Solvency.ReleaseAcceptedIff | programs/mint-jobs-escrow/programs/mint-jobs-escrow/src/instructions/release.rs:54-83 | A release is accepted exactly for client or authority of a Locked escrow, its recorded freelancer, and 250 times the principal within u64 |
| Solvency.RefundAcceptedIff | programs/mint-jobs-escrow/programs/mint-jobs-escrow/src/instructions/refund.rs:52-77 | A refund is accepted exactly for the authority of a Funded or Locked escrow and its client's account |
| Solvency.WithdrawFeesAcceptedIff | programs/mint-jobs-escrow/programs/mint-jobs-escrow/src/instructions/withdraw_fees.rs:26-44 | Any signer can withdraw any positive amount the fee vault holds, and no more |
| Solvency.NoStuckFunds | programs/mint-jobs-escrow/programs/mint-jobs-escrow/src/instructions/refund.rs:68-77 | After any run: withdraw works exactly from Funded, refund exactly from Funded or Locked, release exactly from Locked while the fee does not overflow |
| Solvency.ReleaseCanOverflow | programs/mint-jobs-escrow/programs/mint-jobs-escrow/src/instructions/release.rs:74-79 | A concrete run, two deposits and a lock, whose release fails with Overflow |
| Outcomes.RunJoins | programs/mint-jobs-escrow/programs/mint-jobs-escrow/src/instructions/top_up.rs:49-146 | A run may be cut anywhere: the same instructions one after the other come to the same chain and journal |
| Outcomes.InitializeOutcome | programs/mint-jobs-escrow/programs/mint-jobs-escrow/src/instructions/initialize.rs:63-85 | The record an accepted first deposit leaves, field by field, and every balance after it: price from client to vault, no other touched |
| Outcomes.TopUpOutcome | programs/mint-jobs-escrow/programs/mint-jobs-escrow/src/instructions/top_up.rs:71-143 | Likewise for a top-up, before the lock and after it |
| Outcomes.WithdrawOutcome | programs/mint-jobs-escrow/programs/mint-jobs-escrow/src/instructions/withdraw.rs:44-75 | Likewise for a withdrawal: principal and fee from vault to client |
| Outcomes.LockOutcome | programs/mint-jobs-escrow/programs/mint-jobs-escrow/src/instructions/lock.rs:55-80 | Likewise for a lock: the deferred fee from vault to fee vault |
| Outcomes.ReleaseOutcome | programs/mint-jobs-escrow/programs/mint-jobs-escrow/src/instructions/release.rs:72-121 | Likewise for a release: a fortieth to the fee vault, the rest to the recorded freelancer |
| Outcomes.RefundOutcome | programs/mint-jobs-escrow/programs/mint-jobs-escrow/src/instructions/refund.rs:67-104 | Likewise for a refund: principal, and before the lock the fee, from vault to the recorded client |
| Outcomes.WithdrawFeesOutcome | programs/mint-jobs-escrow/programs/mint-jobs-escrow/src/instructions/withdraw_fees.rs:34-44 | Exactly the amount asked goes from the fee vault to the signer, and no other balance or record changes |
| Outcomes.InitializeRefused | programs/mint-jobs-escrow/programs/mint-jobs-escrow/src/instructions/initialize.rs:45-85 | Which error a first deposit stops with, for every cause in the order of the checks, and success otherwise |
| Outcomes.TopUpRefused | programs/mint-jobs-escrow/programs/mint-jobs-escrow/src/instructions/top_up.rs:19-69 | Likewise for a top-up |
| Outcomes.WithdrawRefused | programs/mint-jobs-escrow/programs/mint-jobs-escrow/src/instructions/withdraw.rs:13-48 | Likewise for a withdrawal |
| Outcomes.LockRefused | programs/mint-jobs-escrow/programs/mint-jobs-escrow/src/instructions/lock.rs:14-53 | Likewise for a lock |
| Outcomes.ReleaseRefused | programs/mint-jobs-escrow/programs/mint-jobs-escrow/src/instructions/release.rs:54-83 | Likewise for a release |
| Outcomes.RefundRefused | programs/mint-jobs-escrow/programs/mint-jobs-escrow/src/instructions/refund.rs:14-66 | Likewise for a refund |
| Outcomes.WithdrawFeesRefused | programs/mint-jobs-escrow/programs/mint-jobs-escrow/src/instructions/withdraw_fees.rs:26-44 | Likewise for a fee withdrawal |
| Outcomes.NobodyPaysUnasked | programs/mint-jobs-escrow/programs/mint-jobs-escrow/src/instructions/release.rs:95-121 | In every run: a wallet pays only under its own signature, a vault only in an instruction for its own job, the fee vault only to the signer who asked and what he asked |
| EscrowService.OneRecord | programs/mint-jobs-escrow/programs/mint-jobs-escrow/src/instructions/initialize.rs:63-70 | An accepted instruction changes the record of its own job only, in the way the service relies on |
| EscrowService.JobWritten | apps/escrow-service/src/escrow.service.ts:778-792 | After an operation on one job escrow all tables mirror the chain if and only if that job's row does |
| EscrowService.MilestoneWritten | apps/escrow-service/src/escrow.service.ts:810-815 | After an operation on one milestone all tables and activity flags are right if and only if its own row is |
| EscrowService.Service.Broadcast | apps/escrow-service/src/escrow.service.ts:264-287 | Succeeds exactly when the transaction is sent, its account list admitted and its instruction accepted, and then the chain is the result; otherwise nothing changes, with the error that says why |
| EscrowService.Service.Execute | apps/escrow-service/src/escrow.service.ts:264-287 | An instruction that reaches the chain has exactly its specified result, on its own escrow only |
| EscrowService.RowLeftBehind | apps/escrow-service/src/escrow.service.ts:341-344 | An accepted instruction always makes a row left as it was wrong |
| EscrowService.JobConfirmed | apps/escrow-service/src/escrow.service.ts:763-792 | After any landed instruction and one job row written, the mirror holds if and only if that row agrees and the instruction was not for another escrow with a row |
| EscrowService.MilestoneConfirmed | apps/escrow-service/src/escrow.service.ts:1146-1171 | The same for one milestone row written |
| EscrowService.ConfirmsRightlyIff | apps/escrow-service/src/escrow.service.ts:1152-1165 | The milestone row a confirmation writes agrees with the chain if and only if a condition known before the call holds |
| EscrowService.Service.FundJob | apps/escrow-service/src/escrow.service.ts:296-358 | Succeeds exactly when sent and the chain accepts the deposit; the escrow names the client, the amount and the configured authority; FUNDED row, flag raised; never for a job that has a row, REFUNDED included; each error for its cause |
| EscrowService.Service.Guard | apps/escrow-service/src/escrow.service.ts:379-395 | The chain decides the status when it can be read, the row otherwise; a missing row is NotFound |
| EscrowService.Service.TopUpJob | apps/escrow-service/src/escrow.service.ts:367-429 | Succeeds exactly when sent, accepted and something could be read; the row's amount keeps pace with the principal |
| EscrowService.Service.WithdrawJob | apps/escrow-service/src/escrow.service.ts:436-492 | Succeeds exactly when sent, accepted and something could be read; row REFUNDED, flag lowered |
| EscrowService.Service.ReleaseJob | apps/escrow-service/src/escrow.service.ts:499-568 | Succeeds exactly when sent, the recorded freelancer can be paid and his key is known from chain or row; row RELEASED |
| EscrowService.Service.LockFunds | apps/escrow-service/src/escrow.service.ts:574-646 | Quiet when there is nothing to lock; otherwise succeeds exactly when sent and accepted, and row and chain name the freelancer |
| EscrowService.Service.RefundFunds | apps/escrow-service/src/escrow.service.ts:652-712 | Succeeds exactly when sent and the authority's refund of the readable escrow is accepted; row REFUNDED with amount 0, flag lowered |
| EscrowService.Service.ConfirmJob | apps/escrow-service/src/escrow.service.ts:718-805 | For any signature, of this call's transaction or an older one, for this job or another: what row and flag are written, and the mirror survives if and only if the chain could be read, the job has or gets an escrow, and no other row was the subject |
| EscrowService.Service.UpdateJobActiveFromMilestones | apps/escrow-service/src/escrow.service.ts:810-815 | Publishes exactly whether some milestone of the job is funded or locked |
| EscrowService.Service.CreateMilestone | apps/escrow-service/src/escrow.service.ts:819-834 | A pending milestone, which claims nothing of the chain |
| EscrowService.Service.FundMilestone | apps/escrow-service/src/escrow.service.ts:858-914 | Succeeds exactly when sent, for a known milestone whose deposit the chain accepts, at the amount fixed on creation and under the configured authority; row FUNDED, flag raised; each error for its cause |
| EscrowService.Service.WithdrawMilestone | apps/escrow-service/src/escrow.service.ts:919-962 | Succeeds exactly when sent, known and accepted; row REFUNDED, flag set to whether a live milestone remains |
| EscrowService.Service.ReleaseMilestone | apps/escrow-service/src/escrow.service.ts:967-1016 | Succeeds exactly when sent, a freelancer is recorded, and the freelancer on chain can be paid, who is the one recorded; row RELEASED |
| EscrowService.Service.RefundMilestone | apps/escrow-service/src/escrow.service.ts:1021-1066 | Succeeds exactly when sent, for a live milestone whose escrow names this authority and whose row holds the client's own wallet; row REFUNDED, flag recomputed |
| EscrowService.Service.TopUpMilestone | apps/escrow-service/src/escrow.service.ts:1072-1116 | Never succeeds and changes nothing: the account list it sends is refused, whatever the amount and the chain |
| EscrowService.Service.ConfirmMilestone | apps/escrow-service/src/escrow.service.ts:1121-1175 | For any signature: what row and flag are written, and the mirror survives if and only if a condition known before the call holds; the transaction has landed even when the row is missing |
| EscrowService.JobRecorded | apps/escrow-service/src/escrow.service.ts:763-797 | Row and flag as a job's confirmation writes them keep the mirror if and only if a condition known before the call holds |
| EscrowService.MilestoneRecorded | apps/escrow-service/src/escrow.service.ts:1146-1171 | Row and flag as a milestone's confirmation writes them keep the mirror if and only if a condition known before the call holds |
| EscrowService.Service.LockMilestone | apps/escrow-service/src/escrow.service.ts:1181-1231 | Quiet when there is nothing to lock; otherwise succeeds exactly when sent and the escrow names this authority; row and chain name the freelancer; no other escrow changes |
| EscrowService.Service.TryLock | apps/escrow-service/src/escrow.message-handler.ts:94-106 | One turn of the loop: locked in row and chain, or untouched and noted as failed |
| EscrowService.Service.LockFundedMilestones | apps/escrow-service/src/escrow.message-handler.ts:90-106 | After the loop every milestone that was funded for the job is locked to the wallet in row and chain, or its own attempt failed; nothing else moved |
| EscrowService.Service.HandleProposalHired | apps/escrow-service/src/escrow.message-handler.ts:78-110 | The whole event: fails exactly when the job's own lock fails; each funded milestone ends locked if and only if a condition known before the event holds for it; other jobs untouched; a second delivery after full success changes nothing |
| EscrowService.FundedForHire | apps/escrow-service/src/escrow.service.ts:308-327 | After a successful deposit with an authority configured, a lock by that authority, or its refund to the client, succeeds if and only if it is sent |
| EscrowService.HireStopsEarly | apps/escrow-service/src/escrow.message-handler.ts:94-98 | A concrete state in step with the chain whose hire event locks nothing, although the milestone's own lock would be accepted |
| EscrowService.ConfirmedForNothing | apps/escrow-service/src/escrow.service.ts:1152-1165 | Every pending milestone confirmed with an older signature is shown as funded without an escrow, whatever flag is published |
| EscrowService.ConfirmedForNothingAtOnce | apps/escrow-service/src/escrow.service.ts:1152-1165 | Such a state, concretely |
| EscrowService.RefundOutOfReach | apps/escrow-service/src/escrow.service.ts:1034-1038 | A concrete live milestone whose row agrees with the chain and whose refund is refused for the wallet in the row, accepted for the client's |
| MirrorLag.ChainMovesOn | programs/mint-jobs-escrow/programs/mint-jobs-escrow/src/instructions/withdraw.rs:38-62 | What a row claims stays reachable whatever the chain does next |
| MirrorLag.LandingClosesLag | apps/escrow-service/src/escrow.service.ts:436-492 | However stale its guard was, an operation whose instruction is accepted leaves its row with the chain's own status, creating a missing row just where the service upserts; a top-up and a refused instruction leave the rows alone |
| MirrorLag.OperationClosesLag | apps/escrow-service/src/escrow.service.ts:436-492 | The same from beginning to end: refused by its guard it leaves no trace, otherwise row and chain agree |
| MirrorLag.ConfirmationCopies | apps/escrow-service/src/escrow.service.ts:766-792 | A confirmation copies what it sees, and shows FUNDED when it sees nothing |
| MirrorLag.AbandonedForGood | apps/escrow-service/src/escrow.service.ts:280-286 | An abandoned operation does nothing more; a milestone is created once, and claims nothing |
| MirrorLag.GuardIsExact | apps/escrow-service/src/escrow.service.ts:446-463 | A guard that sees the chain as it is refuses nothing the chain would have accepted and passes nothing the chain refuses for its status, but for a second deposit of a REFUNDED job |
| MirrorLag.GuardWithoutTheChain | apps/escrow-service/src/escrow.service.ts:519-533 | Which rows let a job operation pass when the chain cannot be read; a lock or refund gives up |
| MirrorLag.StepStaysBehindIff | apps/escrow-service/src/escrow.service.ts:264-287 | One part of an operation, client-signed transaction or failure keeps every row behind the chain if and only if it does not write a guess about an escrow that does not exist |
| MirrorLag.AlwaysBehindIff | apps/escrow-service/src/escrow.service.ts:296-805 | In every interleaving: the on-chain status is reachable from every row's at every moment, if and only if every guess written is of an escrow that exists by then |
| MirrorLag.AlwaysBehind | apps/escrow-service/src/escrow.service.ts:296-805 | So it is in every interleaving whose confirmations are asked for existing escrows |
| MirrorLag.ConfirmedTooEarly | apps/escrow-service/src/escrow.service.ts:775-792 | A concrete run that puts the row ahead of the chain |
| MirrorLag.ConfirmedInTime | apps/escrow-service/src/escrow.service.ts:775-792 | The same confirmation with the deposit landing in between, which does not |
| MirrorLag.LoadsIff | apps/escrow-service/src/escrow.service.ts:1089-1094 | Of all the operations' transactions, exactly a milestone's top-up never loads |
| MirrorLag.MilestoneTopUpNeverLands | apps/escrow-service/src/escrow.service.ts:1072-1116 | A milestone top-up past its guard ends without touching chain or rows, whatever it carries |
| Transactions.FundTransaction | apps/escrow-service/src/escrow.service.ts:320-327 | The account list of a deposit is admitted and amounts to just that instruction |
| Transactions.TopUpTransaction | apps/escrow-service/src/escrow.service.ts:397-403 | Likewise for a job's top-up |
| Transactions.MilestoneTopUpTransaction | apps/escrow-service/src/escrow.service.ts:1089-1094 | The account list of a milestone's top-up is refused, whatever its arguments |
| Transactions.OnlyTheFeeVaultIsMissing | programs/mint-jobs-escrow/programs/mint-jobs-escrow/src/instructions/top_up.rs:37-44 | With the fee vault put in its place the same transaction loads |
| Transactions.AccountsCover | programs/mint-jobs-escrow/programs/mint-jobs-escrow/src/instructions/lock.rs:14-45 | Whatever list loads: every account the instruction writes is listed as writable, every wallet that pays has signed, and the system program is there when lamports move |
| Transactions.WithdrawTransaction | apps/escrow-service/src/escrow.service.ts:465-470 | Admitted, and amounts to just the withdrawal |
| Transactions.LockTransaction | apps/escrow-service/src/escrow.service.ts:604-610 | Admitted, and amounts to just the lock |
| Transactions.ReleaseTransaction | apps/escrow-service/src/escrow.service.ts:537-544 | Admitted, and amounts to the release to the freelancer listed |
| Transactions.RefundTransaction | apps/escrow-service/src/escrow.service.ts:667-674 | Admitted, and amounts to the refund to the client listed |
| Transactions.CollectFeesTransaction | apps/escrow-service/src/escrow.service.ts:1241-1245 | Admitted, and amounts to just the fee withdrawal |
| Transactions.CreateContractTransaction | apps/escrow-service/src/escrow.service.ts:1318-1322 | Admitted |
| Transactions.CompleteContractTransaction | apps/escrow-service/src/escrow.service.ts:1278-1281 | Admitted |
| Borsh.IntegerRoundTrip | apps/escrow-service/src/escrow.service.ts:204-208 | Little-endian decoding inverts encoding for every value that fits |
| Borsh.ByteAt | apps/escrow-service/src/escrow.service.ts:204-208 | Byte k is the k-th from the low end: n / 256^k mod 256 |
| Borsh.BytesRoundTrip | apps/escrow-service/src/escrow.service.ts:253-254 | Every byte string is the encoding of what it decodes to |
| Borsh.SignedRoundTrip | apps/escrow-service/src/escrow.service.ts:165-165 | Two's complement survives for every i64 |
| Borsh.FieldReadsBack | apps/escrow-service/src/escrow.service.ts:247-259 | Any field of any struct is read back at its offset, whatever follows |
| AccountLayout.DeserializeEscrow | apps/escrow-service/src/escrow.service.ts:247-260 | The moving-offset reader returns the fields at their places, or throws exactly when the account is too short |
| AccountLayout.EscrowRoundTrip | programs/mint-jobs-escrow/programs/mint-jobs-escrow/src/state.rs:17-45 | Every escrow is exactly LEN bytes and its fields are at their places, whatever follows; the status map gives back the stored status, and the guards' 0 and 1 mean Funded and Locked |
| AccountLayout.ContractSize | programs/mint-jobs-escrow/programs/mint-jobs-escrow/src/state.rs:57-98 | A contract's exact size, at most LEN when both URIs are within bounds |
| AccountLayout.ContractReads | apps/escrow-service/src/escrow.service.ts:153-180 | Every read the service makes of a stored contract gives the stored value |
| AccountLayout.ContractSkips | programs/mint-jobs-escrow/programs/mint-jobs-escrow/src/state.rs:57-83 | The discriminator, the job's hash and the bump, which the reader skips, stand in their places |
| AccountLayout.NumberIsExactIff | apps/escrow-service/src/escrow.service.ts:165-165 | A timestamp survives conversion to a double if and only if it has at most 53 significant bits, as all up to 2^53 have |
| AccountLayout.FirstInexact | apps/escrow-service/src/escrow.service.ts:165-165 | 2^53 + 1 is shown as 2^53 |
| AccountLayout.NumberIsNearest | apps/escrow-service/src/escrow.service.ts:165-165 | What is shown is a double, and no double is nearer to the timestamp |
| AccountLayout.GetOnChainContract | apps/escrow-service/src/escrow.service.ts:136-188 | For every contract and whatever follows it in the account, the reader returns each stored field; it throws exactly for an account too short for the lengths it declares |
| ContractProgram.Contracts.CreateContract | programs/mint-jobs-escrow/programs/mint-jobs-escrow/src/instructions/create_contract.rs:28-58 | Created exactly once per job, for a 36-byte id and a bounded URI, Active with an empty completion part; each error for its case |
| ContractProgram.Contracts.CompleteContract | programs/mint-jobs-escrow/programs/mint-jobs-escrow/src/instructions/complete_contract.rs:25-53 | Completed exactly once, by its authority, with a bounded URI; the hire part is never rewritten |
| ContractProgram.Contracts.ReadBack | apps/escrow-service/src/escrow.service.ts:136-188 | Every contract reachable through create and complete is read back from its account as stored |
| ContractProgram.StoredFits | programs/mint-jobs-escrow/programs/mint-jobs-escrow/src/state.rs:85-98 | Every reachable contract fits its account |
| InstructionData.StringTaken | apps/escrow-service/src/escrow.service.ts:197-202 | The program takes back exactly the string the service wrote, and leaves the rest |
| InstructionData.ArgumentsTaken | apps/escrow-service/src/escrow.service.ts:1314-1333 | For each instruction the decoder takes back the arguments the encoder wrote |
| InstructionData.DispatchFinds | apps/escrow-service/src/escrow.service.ts:192-195 | The nine discriminators are distinct |
| InstructionData.InstructionRoundTrip | apps/escrow-service/src/escrow.service.ts:192-208 | Bytes are built exactly for calls whose values fit, and decode to the same call whatever follows |
| InstructionData.WireFormat | apps/escrow-service/src/escrow.service.ts:1326-1333 | The exact bytes of all nine instructions: discriminator, then the arguments in the program's order |
| InstructionData.NoCollision | apps/escrow-service/src/escrow.service.ts:192-208 | No built instruction is a prefix of one for a different call |
| RequestResponse.RequestResponseService.EnterRequest | libs/messaging/src/request-response.service.ts:48-56 | Only the first caller starts the subscription |
| RequestResponse.RequestResponseService.Request | libs/messaging/src/request-response.service.ts:58-113 | A request is stored with its timer and published, or settled at once as failed with nothing left behind |
| RequestResponse.RequestResponseService.OnResponse | libs/messaging/src/request-response.service.ts:261-290 | A response settles a pending request and clears entry and timer; an unknown or repeated one does nothing |
| RequestResponse.RequestResponseService.OnTimer | libs/messaging/src/request-response.service.ts:69-76 | A timer settles its request only if it is still pending |
| RequestResponse.SettlesExactlyOnce | libs/messaging/src/request-response.service.ts:61-113 | Any number of processes, any order and duplication of responses and timers: an id is pending exactly where it was issued and while unsettled, settles at most once, and only by its own response, timer or publish failure |
| RequestResponse.StepCounted | libs/messaging/src/request-response.service.ts:66-113 | One event keeps pending and settled in step for every id in every process |
| RequestResponse.ReactCounted | libs/messaging/src/request-response.service.ts:66-113 | What one event does to one id in one process |
| RequestResponse.AttemptDecides | libs/messaging/src/request-response.service.ts:48-56 | In every run a process's subscription is the outcome of its first attempt, told from the history alone, and only a process whose attempt succeeded ever issued a request |
| RequestResponse.RequestGoesOutIff | libs/messaging/src/request-response.service.ts:48-56 | At any moment of any run a request goes out if and only if the first attempt has succeeded by then |
| RequestResponse.FailedForGood | libs/messaging/src/request-response.service.ts:50-56 | Two events that shut a process up for good, whatever follows |
| Consumers.ConsumerService.RunSetup | libs/messaging/src/consumer.service.ts:56-106 | One setup adds its bindings, and a consumer exactly if it is the queue's first |
| Consumers.ConsumerService.Subscribe | libs/messaging/src/consumer.service.ts:46-112 | After any subscribe, each subscribed queue has exactly one consumer on a live channel and all patterns ever passed for it |
| Consumers.ConsumerService.Reconnect | libs/messaging/src/consumer.service.ts:14-20 | The same on every new channel, even to a broker that lost its bindings |
| Consumers.AllRan | libs/messaging/src/consumer.service.ts:53-106 | Re-running all setups on a new channel serves every queue exactly once |
| Conversations.AlwaysKept | apps/chat-service/src/chat.service.ts:39-83 | In every interleaving rows are never replaced, each new row is some caller's own, and each caller's view is right |
| Conversations.RaceSafe | apps/chat-service/src/chat.service.ts:39-83 | Callers for one pair get the same id, and at most one is told it created the conversation |
| Conversations.OneWelcome | apps/chat-service/src/chat.service.ts:66-83 | At any moment of any run, whoever has stopped: no welcome for an older conversation, at most one for a new one, and it is there exactly when the creator has returned |
| Conversations.WelcomedInTheEnd | apps/chat-service/src/chat.service.ts:66-83 | When the callers of a pair have all returned, the conversation they created has its one welcome |
| Conversations.NeverWelcomed | apps/chat-service/src/chat.service.ts:55-75 | A concrete run whose conversation stays without a welcome while a later caller is told it existed |
| Conversations.NextStepIff | apps/chat-service/src/chat.service.ts:63-64 | An unfinished caller can take its next step if and only if it is not at the second fetch of a soft-deleted row |
| Conversations.FourTurnsAreEnough | apps/chat-service/src/chat.service.ts:39-83 | However the others are scheduled and wherever they stop, four turns bring a caller to its return, unless its conversation was soft-deleted |
| Hiring.HireMessageInjective | apps/job-service/src/proposal/proposal.service.ts:287-287 | A hire message is the fixed prefix and the proposal's id, so it belongs to one proposal |
| Hiring.ProposalService.UpdateStatus | apps/job-service/src/proposal/proposal.service.ts:244-299 | Exactly who may move a proposal where; an offer needs a signature that verifies over this proposal's message; REJECTED is final |
| Hiring.ProposalService.AcceptProposal | apps/job-service/src/proposal/proposal.service.ts:301-331 | Accepted exactly by the applicant of an offered proposal with a verifying signature; a hired proposal carries both signatures |
| Hiring.ProposalService.HandleAcceptProposal | apps/job-service/src/proposal/proposal.message-handler.ts:226-296 | Exactly when the acceptance succeeds, what is stored, and that PROPOSAL_HIRED goes out only then, for a proposal not published before |

## Left out

- EscrowService.Service.Broadcast: a transaction that lands although its sender sees an error is not an outcome of this call; in `MirrorLag` it is an operation abandoned after it landed.
- EscrowService.Service.ConfirmMilestone: like every operation with a `sent` flag, it has one error, Unreachable, for all failures of transport, among them a signature the chain does not know.
- EscrowService.Service.CreateMilestone: one milestone a call, with a fresh id; title, description and order are not modelled.
- EscrowService.Service.FundJob: rows keep wallets, amount and status; user ids, PDA columns, the platform-fee column and transaction signatures are not modelled.
- AccountLayout.DeserializeEscrow: the 32-byte job hash is kept as bytes, not passed through the lossy UTF-8 conversion the service applies to it and never uses.
- AccountLayout.GetOnChainContract: keys, hashes and URIs are compared as bytes; base58, hex and UTF-8 text conversion are not modelled.
- ContractProgram.Contracts.ReadBack: the clock and the bump are parameters of the two instructions.
- Conversations.OneWelcome: storing the welcome message and returning are one step; a caller that dies between the two has given its welcome without saying so. The second argument pair (job and proposal id) is not stored.
- RequestResponse.SettlesExactlyOnce: the call to publish is not awaited, so a request is stored and handed over (or the call throws) in one step; a publish that is rejected later leaves the request to its timer, like one whose response is lost. Message bodies are reduced to the success flag.
- Consumers.ConsumerService.Subscribe: the message loop, its handlers and acknowledgements are not modelled; that the connection manager runs every setup in order on each new channel is taken as given.
- Hiring.ProposalService.UpdateStatus: only the status values the endpoint admits; one call is one step, since two concurrent calls on one proposal are serialised by nothing but the database.
- MirrorLag.AlwaysBehind: rows are reduced to their status; amounts are covered by the sequential model, since a lagging write can leave any older amount behind.
- InstructionData.DispatchFinds: the eight discriminator bytes of each instruction are constants, computed outside the model with SHA-256; so are the two account discriminators.
- SHA-256 of a job id is taken to be injective, so records and vaults are keyed by the job id itself; PDA derivation, bumps, account rent, transaction fees and compute limits are platform behaviour.
- Signing through the wallet provider, blockhash retries, and the building of unsigned transactions for client-side signing; a broadcast is taken to return normally only for an accepted instruction.
- Ed25519 verification is an arbitrary predicate on wallet, message and signature; the key wrapping around it is not modelled.
- Job ids and milestone ids are UUIDs, never equal to each other.
- Publications of the service are taken to arrive; the flag `active` is the last one sent.
- Services with no state worth an invariant: profiles, follows, direct messages, notifications, job listings and drafts, token launch, uploads, contract PDFs, the API gateway and its DTOs.

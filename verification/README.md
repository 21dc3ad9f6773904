# Deskhand, modelled and proved in Dafny

Deskhand runs an agent whose position lives only in database rows. Any worker may die at any commit,
people approve irreversible calls, and a finished run can be walked back. This project models that
runtime as state machines whose steps are committed transactions, and proves properties of every
reachable state and of whole runs. `dafny verify dfyconfig.toml` (Dafny 4.11) checks all of it.

## How it is laid out

The specification and its proofs:

- `Transcript`, `Runtime`, `Policy`, `Desk`, `Wording`: the step log and the conversation rebuilt from
  it, the loop as a transition system (claims, leases, crashes, decisions, expiry, clock ticks), the
  tighten-only lattice, the merchant's records and handlers. The model is a function of the messages,
  the registry and the wording are parameters, and arguments are carried as their canonical text, so
  equal texts are equal argument hashes.
- `Limits`, `Commits`, `Lease`, `Expiry`, `Handlers`, `Walks`, `PortCommits`: what each transaction and each
  handler does, said by the columns of the rows it finds: ceilings and rulings, what becomes of a call, a reply
  and an answer, who may take a run, which requests expire, what a refund checks.
- `Safety`, `Structure`, `Progress`, `Conversation`, `Endings`: invariants over every schedule (ledger and
  world, consent, refusals, wake-ups, bounds, what the model is told, why a run ended).
- `Refinement`, `Race`: the crash-free run, and exactly when every schedule of crashes and answers leaves
  what it leaves.
- `WalkBack`, `Compensation`, `Bystanders`, `Recovery`: why newest first restores, the walk-back as a state
  machine, the same with other writers at work, and all of it joined to the ledger of any run.
- `Port`, `Retry`, `Agreement`: the version that keeps its position in variables and is retried from
  the top, its agreement with the first, and where the two part.
- `Payouts`: refund transactions interleaved statement by statement under row locks.
- `Fence`, `Canonical`, `Reconcile`, `Adapter`: the fence, the canonical text consent is bound to, the
  search behind the approval card, the other provider's message shape.

Where the source updates rows step by step, the model has that form too: `DeskRows.Tables` (the
handlers and `apply_inverse`), `RunRows.Store` (runs, approvals, invoke, settle, advance),
`CompensationRows.Store` and `PortRows.Store` are classes whose fields are the columns, and each method
is proved to commit exactly a transition of the specification.

Every lemma switches Dafny's automatic induction off; the inductions are the ones written.

## Where the code and its own words differ

- The refinement claim of `README.md:277-292` (any crash schedule leaves the world and trajectory of the
  uncrashed run) has an exact condition. The step cap is checked before the notice is written, and the
  notice is committed before the model is asked. If the notice takes row number `max_steps`, a worker that
  dies before the reply is recorded leaves a run that stops where a clean run asks the model
  (`Refinement.CrashesLeaveNoTraceExactly`, `Refinement.OneStepCapLeavesATrace`).
- The same claim also fails when a turn opens two questions at once: whenever the crash-free run waits with
  two requests open, a schedule from the start of the run, with a person who answers as always, picks the run
  up between the answers and writes a row the crash-free run never writes there
  (`Races.TwoOpenQuestionsRace`). With both conditions the claim is exact
  (`Races.NothingLeavesATraceExactly`).
- Answering the questions of a turn in order and picking the run up in between is harmless
  (`Refinement.Calm`), with one exception: of two questions about the same call, the first runs before the
  second is declined, while with both answers in it is refused (`Races.FirstThenSecond`).
- `tests/fingerprint.py:31-35` says a resumed run sets `replayed`. It never does in the Python loop: a step
  and its ledger row are committed together, so the next step number is never on the ledger
  (`Safety.LedgerAlwaysSound`).
- `deskhand/tools/irreversible.py:81-94` argues that `FOR NO KEY UPDATE` makes payouts free of deadlock. That
  holds with one payout in a transaction. `_settle` runs a whole turn in one transaction, so a turn with two
  approved refunds locks an order while it holds the merchant, and two runs of one merchant reach a cycle
  (`Payouts.DeadlockExactly`).
- A turn in which a call follows one that needs a person is settled in another order by the port: the
  row-based loop runs the call while the person is thinking, the port waits (`Agreement.LedgersDiffer`).
- `deskhand/runtime/transcript.py:57-61` gives the missing angle brackets as the reason why no marker can span
  the placeholder. It also takes that a token cannot contain the placeholder, which holds because a
  token is hexadecimal; the lemmas ask for that.
- An approved twin of a declined call is still refused, because `DENY` is looked at before an existing approval
  (`deskhand/runtime/loop.py:472` before `:503`); the model keeps that order.

## Model

| member | source | states |
|---|---|---|
| Policy.Evaluate | deskhand/runtime/policy.py:148-167 | the loop over the rules returns the tighten-only fold of the floor and the opinions |
| Policy.StrictestIsMaximum | deskhand/runtime/policy.py:148-167 | the ruling is one that was offered, nothing offered is stricter, and on a tie with the floor the floor is kept |
| Policy.VerdictIgnoresOrder | deskhand/runtime/policy.py:145-167 | the verdict does not depend on the order or repetition of the rules |
| Policy.MoreRulesOnlyTighten | deskhand/runtime/policy.py:145-167 | adding rules never relaxes the verdict |
| Transcript.RebuildRows | deskhand/runtime/transcript.py:80-175 | the pass over the rows with its pending list equals the recursive reading of the log |
| Safety.RulingFloor | deskhand/runtime/policy.py:60-142 | irreversible calls, and writes after text addressed to the agent, are never let run; a call is denied exactly when the same call was declined under another id |
| Safety.LedgerAlwaysSound | deskhand/tools/invoke.py:106-210 | at every commit of every schedule the world is the fold of the succeeded ledger rows in step order, every row repeats the step under its number, no step was answered from the ledger, and the next step number is free |
| Safety.SettleOneKeepsConsent | deskhand/runtime/loop.py:499-631 | settling any call whatever, also one whose arguments were rewritten after the decision, runs nothing that needs a person without a grant for that id, tool and arguments |
| Safety.ConsentAlwaysHolds | deskhand/runtime/loop.py:470-631 | over every schedule, every irreversible ledger row, and every write after text addressed to the agent, has a person's grant for its tool_use id, tool and arguments |
| Safety.DeclinedStaysDeclined | deskhand/runtime/policy.py:117-142 | once a call is declined, no later transaction runs a call with the same tool and arguments or opens a request for it |
| Safety.DecisionsAreFinal | deskhand/runtime/approvals.py:132-179 | no schedule ever changes a decided or expired approval, or what a request was for |
| Limits.RulingExactly | deskhand/runtime/policy.py:60-142 | the ruling of a call, verdict, rule and reason: denied exactly if declined under another id, else asked exactly if irreversible or a write after a result addressed to the agent, else run |
| Limits.BoundExactly | deskhand/runtime/loop.py:84-229 | a run is stopped for a reason exactly if that ceiling is the first it has reached, by rows, clock and bills, and by none exactly with room under each and no call repeated up to the threshold |
| Limits.NoticeExactly | deskhand/runtime/loop.py:148-205 | which notice is due and the number in it: half the rows left, seconds left, or most of the money; none exactly if it was told or nothing is close |
| Commits.CallExactly | deskhand/runtime/loop.py:414-689 | what becomes of a call by what is registered and on file about it: failed unasked, run with its effect, row and ledger entry together, filed as a request, left waiting, ended as expired or as granted for another call, or declined with the reason given |
| Commits.ReplyExactly | deskhand/runtime/loop.py:343-411 | the rows a reply adds, what it costs, and that it ends the run exactly as a refusal or with its summary when it has no tool_use block |
| Commits.AskExactly | deskhand/runtime/loop.py:270-340 | with nothing to settle the owner's run is over for the ceiling it reached, or the rows with the notice due are sent and the lease is renewed |
| Commits.AnswerExactly | deskhand/runtime/approvals.py:132-162 | an answer counts exactly before the expiry of a pending request; then that request alone changes, as answered, and a waiting run is queued with its deadline later by the wait |
| Endings.EveryEndingIsTrue | deskhand/runtime/runs.py:258-272 | over every schedule a run has a reason exactly if it is over, and the other rows bear the reason out: the summary, the refusal, a request of the last turn that expired or was granted for another call, or the ceiling reached and none checked before it |
| Leases.ClaimTakesExactly | deskhand/runtime/runs.py:97-127 | a claim takes exactly a run that is queued, overdue, or woken by an expired request, and otherwise changes neither owner, lease nor attempt |
| Leases.LeaseProtects | deskhand/runtime/runs.py:97-127 | while the lease of a running run lasts no claim changes owner, attempt or status, or lets the claimer in |
| Leases.NeverReplaced | deskhand/runtime/runs.py:130-143 | over every schedule a worker whose transactions are at most a lease apart stays the owner, in the same attempt, for as long as the run goes on |
| Leases.DeadWorkerIsReplaced | deskhand/runtime/runs.py:97-127 | after the lease of a worker that stopped, the next idle worker to claim takes the run, and the old one writes nothing more |
| Expiries.SweepExpiresExactly | deskhand/runtime/approvals.py:165-179 | the sweep, alone or at the head of a claim, expires exactly the pending requests at or past their own expiry and changes no other |
| Expiries.SettleSweepsExactly | deskhand/runtime/loop.py:414-689 | a settle changes no request on file, or ends the run as expired and expires exactly those at or past their own expiry |
| Expiries.NothingExpiresEarly | deskhand/runtime/approvals.py:32-75 | over every schedule no request expires before the time it was given, which is the time to live after it was made |
| Structure.SettleCompletes | deskhand/runtime/loop.py:414-689 | a settle that does not end the run waits for nobody exactly when every call has its row, and every call without a row has a pending request |
| Structure.SettleAllProgress | deskhand/runtime/loop.py:414-689 | a settle adds at most one row for each call, all of them answers to calls of the turn, and loses no pending request unless it ends the run |
| Progress.AlwaysCoherent | deskhand/runtime/loop.py:283-340 | every recorded turn is the model's answer to exactly the conversation of the rows before it; a reply that can still be recorded is for the rows as they are; a suspended run has a pending request |
| Progress.NoLostWakeUp | deskhand/runtime/approvals.py:132-179 | in every reachable suspended state a request of the current turn is pending; deciding any pending one in time, or sweeping it after, requeues the run |
| Progress.RunIsBounded | deskhand/runtime/loop.py:84-205 | at most max_steps model calls, one notice, max_steps + 1 + max(1, width) rows, spend and tokens below the cap plus one call, over any schedule |
| Progress.DeadlineMovesByTheWait | deskhand/runtime/runs.py:215-255 | the deadline is the one set at creation plus exactly the seconds spent suspended |
| Refinement.EveryCalmRunTracks | deskhand/runtime/loop.py:270-340 | under any crashes, lease expiries and handovers, with the answers coming in any order that is acted on in the order of the calls, the rows are those of a point of the crash-free run with some calls of its turn settled |
| Refinement.RequestsAreClean | README.md:277-292 | every conversation sent by a worker that may still write is one the crash-free run sends, over the same rows |
| Refinement.CrashesLeaveNoTraceExactly | README.md:277-292 | on every calm schedule each row so far is one the crash-free run writes in that place, and a finished run leaves its log, ledger, world and ending, if and only if the crash-free run never writes its notice on the last row the step cap allows |
| Refinement.CrashAfterTheNotice | deskhand/runtime/loop.py:298-325 | the schedule that shows it: a worker dies between the notice and the reply and the next one stops at the step cap |
| Refinement.OneStepCapLeavesATrace | deskhand/runtime/loop.py:84-97 | a run allowed one step is an instance where the claim fails |
| Refinement.DriveTo | deskhand/runtime/loop.py:270-340 | every point of the crash-free run is reached by a schedule with a single worker, so the comparison is with a real run |
| Refinement.CleanRunFinishes | deskhand/runtime/loop.py:270-340 | with a bounded model whose questions get answered the crash-free run comes to an end |
| Races.NothingLeavesATraceExactly | README.md:277-292 | with no assumption on when the answers come: every schedule that follows the person's answers stays on the crash-free run's rows, and ends as it does, if and only if the notice never takes the last row and the crash-free run never waits with two requests open |
| Races.OneQuestionLeavesNoTrace | README.md:277-292 | one half of that, for any ids whatever |
| Races.TwoOpenQuestionsRace | deskhand/runtime/loop.py:438-689 | from the start of the run, whenever the crash-free run waits with two requests open: a schedule that answers one, claims and settles writes a row the crash-free run never has there |
| Races.EarlyAnswerDiffers | deskhand/runtime/loop.py:438-689 | which of the two is answered first and what differs: the later call's row comes first, or a twin is declined where it would be refused, or runs where it would be refused |
| Races.OneCallAtATimeNeverRaces | deskhand/runtime/loop.py:414-689 | a model with at most one call a turn never waits with two requests open |
| Conversations.AlwaysInOrder | deskhand/runtime/loop.py:242-340 | over every schedule the rows of a turn answer each of its calls at most once, a notice comes after all answers, and another model call only after every answer |
| Conversations.RequestsOnlyGrow | deskhand/runtime/transcript.py:80-175 | each request is the previous one, the reply verbatim, and one user message that answers every call of the turn exactly once, results before any notice |
| Conversations.NothingAfterSummary | deskhand/runtime/loop.py:399-411 | nothing is ever written after a summary |
| Conversations.Diverge | deskhand/replay.py:263-328 | the step reported is the first whose calls differ in number, name or arguments, with both decisions; none is reported only if every compared turn makes the same calls; and how many turns agreed of how many |
| Conversations.SignatureIsCalls | deskhand/replay.py:60-71 | two replies have the same signature exactly when they make the same calls: as many, and at each place the same name and arguments |
| Conversations.SameModelNeverDiverges | deskhand/replay.py:263-328 | replayed against the model that produced it, no run of any schedule diverges at any turn |
| RunRows.Store.ClaimNext | deskhand/runtime/runs.py:97-127 | takes the run exactly if it is queued, or running with its lease before now, or waiting with a pending request at or past its expiry; the row is the swept one with owner, lease and attempt set |
| RunRows.Store.DecideApproval | deskhand/runtime/approvals.py:132-162 | accepts exactly a pending request before its expiry, and requeues a suspended run with it, its deadline moved by the measured wait |
| RunRows.Store.SweepApprovals | deskhand/runtime/approvals.py:165-179 | request by request: expired exactly if pending and at or past its own expiry, every other one as it was; the run is requeued as if once, however many there are |
| RunRows.Store.InvokeTool | deskhand/tools/invoke.py:106-210 | the recorded result, or the handler's effect and its ledger row together, or a failed row and no effect |
| RunRows.Store.SettlePending | deskhand/runtime/loop.py:414-689 | the loop over the turn's calls with its early exits commits exactly the settle transition |
| RunRows.Store.RecordReply | deskhand/runtime/loop.py:343-411 | the reply's row, the usage, and the ending for a refusal or a turn without calls |
| RunRows.Store.Advance | deskhand/runtime/loop.py:270-340 | driven by one worker the loop always comes back, ended or suspended, and everything it committed is a run of the transition system |
| WalkBack.InverseCancels | deskhand/tools/reversible.py:51-314 | applying a recorded inverse right after its call restores the world exactly, and a reversible handler that records none changed nothing |
| WalkBack.OthersCommute | deskhand/tools/reversible.py:51-106 | an irreversible call or a read does the same before and after any inverse |
| WalkBack.NewestFirstRestores | deskhand/runtime/compensation.py:24-31 | for any mix and length of calls, with unrelated writes in between, applying the inverses newest first never fails and leaves the world of the same history without the reversible calls |
| WalkBack.OldestFirstIsWrong | deskhand/runtime/compensation.py:24-31 | of two priority changes, oldest first leaves the priority set in between |
| Recovery.Plan | deskhand/runtime/compensation.py:80-136 | the pass over the ledger, newest first, lists exactly the rows not yet reverted, in order |
| Recovery.PlanExactly | deskhand/runtime/compensation.py:80-136 | the plan lists, newest first, exactly the succeeded irreversible calls and the succeeded reversible ones that left an inverse |
| Compensations.CreateExactly | deskhand/runtime/compensation.py:191-285 | a request writes a compensation exactly under those conditions, and its lines are the plan, all waiting |
| Compensations.EveryPlanWasShown | deskhand/runtime/compensation.py:191-285 | over every schedule the lines of each compensation are, place for place, a plan that was shown to whoever asked |
| Walks.TakeExactly | deskhand/runtime/compensation.py:323-351 | a compensation is taken exactly if it is queued, or running with its lease before now |
| Walks.LeaseProtects | deskhand/runtime/compensation.py:323-366 | while the lease lasts no other worker takes the walk-back or changes anything of it |
| Walks.DriveExactly | deskhand/runtime/compensation.py:369-457 | one iteration by what it finds: attempts used up, complete or partial, a line reported, a line failed with the rest left out, or one inverse in effect and its line reverted in the same commit |
| Compensations.EachInverseOnceInOrder | deskhand/runtime/compensation.py:369-457 | across crashes, leases, faults and successive compensations the committed inverses are a prefix of the plan, each at most once, and a new plan is the rest in the same order |
| Compensations.FinishedWalkRestores | deskhand/runtime/compensation.py:191-285 | once a compensation finishes, the world is where all the inverses lead, it stays so, nothing more can be requested, and `partial` means exactly that an irreversible act is in the plan |
| Compensations.OnlyFaultsBlock | deskhand/runtime/compensation.py:420-443 | without database errors no compensation is blocked by an inverse that does not apply |
| Compensations.CanBeFinished | deskhand/runtime/compensation.py:528-558 | whenever a walk-back stopped with something left, asking again and one worker that stays up finish it and restore |
| CompensationRows.Store.AlreadyReverted | deskhand/runtime/compensation.py:119-121 | the steps reverted by any earlier compensation of the run |
| CompensationRows.Store.Create | deskhand/runtime/compensation.py:191-285 | creates exactly if none is in flight, some item has an inverse, and the plan shown has the length of the plan now and its step and treatment at every place |
| CompensationRows.Store.Advance | deskhand/runtime/compensation.py:369-457 | with database errors at any iterations the loop of one commit per item ends, what it commits is that many transitions of the state machine, and it says how it ended: blocked for attempts or a failed inverse, finished with every line handled, or the lease lost |
| Recovery.WalkedBackRun | deskhand/runtime/compensation.py:80-136 | for any schedule of the run and of its walk-back, with any writes by others in between that leave alone what the plan restores: a finished compensation leaves the world of the same history with only the irreversible calls, later writes on top, `partial` exactly if there was one |
| Recovery.RunTellsHistory | deskhand/tools/invoke.py:106-210 | over any schedule with other writers the succeeded ledger rows in step order and those writes are a history that leads to the world as it is, and the plan's inverses are its recorded ones |
| Bystanders.WalkCommutes | deskhand/runtime/compensation.py:369-457 | a walk-back with other writers at work is the walk-back alone with their writes made on top |
| Recovery.TicketsAsFound | deskhand/tools/reversible.py:1-27 | that world has every ticket as the run found it, every message that was there, and no note of the run, if nobody else touched them |
| DeskRows.Tables.TagTicket | deskhand/tools/reversible.py:114-130 | adds the tags not yet carried and records the old ones; nothing to add is no change and no inverse; an unknown reference raises and changes nothing |
| DeskRows.Tables.SetTicketStatus | deskhand/tools/reversible.py:203-218 | as specified for the status, with the old value recorded only when it changes |
| DeskRows.Tables.AssignTicket | deskhand/tools/reversible.py:244-270 | assigns a colleague of the merchant and always records the previous assignee |
| DeskRows.Tables.AddInternalNote | deskhand/tools/reversible.py:296-314 | inserts one internal message and records its deletion |
| DeskRows.Tables.ApplyInverse | deskhand/tools/reversible.py:51-106 | one scoped statement per kind of inverse; touching no row raises and changes nothing |
| DeskRows.Tables.IssueRefund | deskhand/tools/irreversible.py:131-181 | the loop over the refund rows and the three checks commit exactly the payout that `Handlers.RefundPaidExactly` characterises, or raise |
| Handlers.RefundPaidExactly | deskhand/tools/irreversible.py:56-181 | pays exactly when order, run and day have room, and then all three sums stay within their bounds and one row with org, order, run, day, amount and reason is added |
| Handlers.StatementsAreTheHandler | deskhand/tools/irreversible.py:131-181 | a payout that nobody interrupts, statement by statement under its locks, leaves the refunds the handler leaves |
| Handlers.TagAdds | deskhand/tools/reversible.py:114-130 | afterwards the ticket carries what it carried, in place, and then what was asked for and missing; nothing else changes |
| Handlers.InverseExactly | deskhand/tools/reversible.py:51-106 | an inverse applies exactly if its row is the merchant's, and then puts back one column of one ticket or removes one message |
| Payouts.CeilingsHold | deskhand/tools/irreversible.py:56-181 | for any interleaving of statements of any transactions, runs and orders, committed refunds stay within every order's total, run's cap and merchant's daily cap, also if any open transaction commits now |
| Payouts.WaitingIsHeldUp | deskhand/tools/irreversible.py:96-96 | a statement is held up exactly when its transaction waits for another's conflicting lock |
| Payouts.NoDeadlock | deskhand/tools/irreversible.py:81-96 | one payout per transaction and an org lock that does not conflict with a KEY SHARE already held: no circular wait among any set of payouts |
| Payouts.UpgradesDeadlock | deskhand/tools/irreversible.py:81-89 | FOR UPDATE over a KEY SHARE already held: payouts of two runs of one merchant reach a circular wait |
| Payouts.SecondPayoutDeadlocks | deskhand/runtime/loop.py:438-689 | two payouts in one transaction: two runs of one merchant reach a circular wait in either lock mode |
| Payouts.DeadlockExactly | deskhand/tools/irreversible.py:73-96 | where two runs of a merchant can refund two orders, payouts can deadlock exactly when a transaction may pay twice, or FOR UPDATE upgrades a KEY SHARE, also with every transaction holding its run's row first |
| Port.EachKeyOnce | trigger/src/invoke.ts:92-226 | with any model and any retries, each step number takes effect at most once, whatever call comes under it later, no ledger row is rewritten, and the world is the effects in the order they happened |
| Port.ConsentAlwaysHolds | trigger/src/consent.ts:184-190 | with any model and any retries, every irreversible call that took effect has, under its own tool_use id, an approved request for the same tool and arguments to which a person said yes |
| Port.StepsAddUpToTheBill | trigger/src/runs.ts:155-218 | under any retries the usage on the steps adds up to the usage on the run |
| PortCommits.CallExactly | trigger/src/loop.ts:205-361 | what becomes of a call in the port: failed unasked, run or answered from the ledger under its step number, or put to a person once for its id |
| PortCommits.ActExactly | trigger/src/loop.ts:205-361 | what the answer of the token leads to: the run expired, the call declined with the reason, run for the call on file, or the run ended where the call on file is another |
| Retries.RetriesLeaveAPrefix | trigger/src/loop.ts:102-369 | with a model that is a function of its messages, however often the attempt is cut off and whatever the deadline and other runs' bills are meanwhile, ledger and world are those of some point of the uninterrupted run |
| Retries.FinishedRetryIsComplete | trigger/src/loop.ts:102-369 | an attempt that returns otherwise than at a bound leaves the whole ledger and world of the uninterrupted run |
| Retries.StopsNoLater | trigger/src/bounds.ts:61-130 | with more spent and more on the ledger, and any deadline and bills around it, a bound that stops the uninterrupted run stops the retry too |
| Retries.VariablesMatchRows | trigger/src/loop.ts:110-113 | with any model and any retries, the conversation in the variables is what rebuilding the attempt's rows would give |
| PortRows.Store.AskHuman | trigger/src/loop.ts:404-461 | the request is made once for an id, the answer is the token's, and only a pending row records it |
| PortRows.Store.SettleCall | trigger/src/loop.ts:205-361 | one call of the turn commits exactly its transitions and gives its result, or ends the run |
| PortRows.Store.Advance | trigger/src/loop.ts:102-369 | the loop over variables comes to an end, all of its bounds included, and what it commits is that many transitions from the top |
| Agreement.AgreeToTheEnd | trigger/src/loop.ts:102-369 | when the crash-free run of the row-based loop ends, the uninterrupted run of the port ends the same way with the same rows, for turns of any length in which no call that needs nobody follows one that needs a person |
| Agreement.DesignsAgree | trigger/src/loop.ts:1-36 | for such runs, any calm crash schedule of the one and any retries of the other, when both finish, leave the same ledger, world and ending |
| Agreement.LedgersDiffer | trigger/src/loop.ts:205-361 | once a turn runs a call past a question, no later point of the crash-free run has the ledger of any point of the port's run |
| Canonical.ParseUndoesStringify | trigger/src/tools/registry.ts:204-212 | a parser recovers from the text of either serialiser the value with keys sorted and `undefined` dropped |
| Canonical.StringifyIsInjective | trigger/src/tools/registry.ts:204-212 | two values give the same text, in either serialiser, exactly when they are equal up to key order at every depth |
| Canonical.HashBindsTheCall | deskhand/tools/base.py:292-302 | with a digest that does not collide, hashes of either implementation are equal exactly for the same tool and the same arguments |
| Canonical.PythonOrdersByCodePoint | deskhand/tools/base.py:292-302 | Python's order of keys is the lexicographic order of the code points they spell |
| Canonical.PythonWritesAscii | deskhand/tools/base.py:292-302 | what Python writes of a string is printable ASCII |
| Fence.FencedOnce | deskhand/runtime/transcript.py:40-77 | fenced text has exactly one opener, at the start, and exactly one closer, at the end, whatever the body |
| Fence.BodyRecovered | deskhand/runtime/transcript.py:40-77 | a body without markers is recovered exactly |
| Fence.MarkersTellTheToken | deskhand/runtime/transcript.py:40-77 | markers of different tokens differ, and no opener is a closer |
| Fence.PassRemovesAll | deskhand/runtime/transcript.py:57-61 | one pass leaves none of the marker it replaces |
| Fence.DeletingSpellsTheCloser | deskhand/runtime/transcript.py:50-58 | a pass that deletes the closer from the documented body returns the closer |
| Fence.BothFencesAgree | trigger/src/fence.ts:62-68 | splitting and joining gives the same fenced text |
| Reconciliation.ReconcileIsExact | deskhand/tools/irreversible.py:190-206 | nothing is offered exactly when no units within the quantities make up the amount; otherwise the offer does, with as few units as any |
| Reconciliation.OffersTheFirst | deskhand/tools/irreversible.py:190-206 | of the ways with as few units, the offer is the first in the order of the enumeration |
| Adapter.ToOpenAiRows | deskhand/providers.py:320-382 | the pass with its two lists equals the message by message translation |
| Adapter.BlocksBack | deskhand/providers.py:385-419 | the reply translation undoes the assistant half of the request translation on everything it can emit |
| Adapter.ThinkingStaysBehind | deskhand/providers.py:320-382 | no thinking block changes what the other provider is sent, and its calls are those of the turn, one for one |
| Adapter.OneToolMessagePerCall | deskhand/providers.py:320-382 | a user turn becomes one tool message for each call of the turn, none for anything else, then the text |
| Adapter.RequestsRegroup | deskhand/providers.py:320-419 | every request of every run, regrouped from the other shape, is the request again up to the error flag |

## Left out

- Refinement.CrashesLeaveNoTraceExactly: on calm schedules: the person answers as one fixed oracle, a turn is settled with answers that reach its calls in order, no request lapses, and neither the clock nor other runs' bills stop or warn the run; `Races.NothingLeavesATraceExactly` drops the condition on the order.
- Races.NothingLeavesATraceExactly: for runs whose tool_use ids are nonempty, distinct within a turn and not answered before, and for an oracle that gives an id one answer; no request lapses, and neither the clock nor other runs' bills stop or warn the run.
- Conversations.RequestsOnlyGrow: for runs whose tool_use ids are nonempty, distinct within a turn and not answered before; the loop matches answers by id, so it needs that.
- Progress.RunIsBounded: for a model with nonempty ids and a bound on calls, cost and tokens of one reply.
- Recovery.WalkedBackRun: writers that touch what the plan restores, or use the ids under which the run's messages are written, are excluded.
- Compensations.EachInverseOnceInOrder: `_fail` is committed while the lease is still held; the window between its rollback and its commit is not modelled.
- Agreement.DesignsAgree: for runs on which no notice falls due, ids are fresh, no rule tightens the registry's verdict and no token times out: the port has neither notices nor rules.
- Fence.FencedOnce: for hexadecimal tokens, which is what `fence_token` gives.
- Agreement.LedgersDiffer: for a turn whose calls before the first question need nobody and run plainly; a call after a question that fails its validation or is not registered leaves no ledger row, and is not covered.
- Canonical.StringifyIsInjective: a finite number is its numeral, a string the UTF-16 code units it spells (Python writes two lone surrogates in a row as the pair they spell); `NaN`, functions, symbols and `default=str` are not modelled.
- RunRows.Store.Advance: one worker that is not interrupted; crashes and handovers are in the transition system.
- PortRows.Store.Advance: one attempt that is not cut off; cuts are in the state machine. The audit rows are left out.
- DeskRows.Tables.IssueRefund: one statement after another without interleaving; locks and interleaving are in `Payouts`.
- Reconciliation.ReconcileIsExact: the limit on the number of combinations belongs to the caller, `_refund_basis`, which is left out.
- Statement-level interleavings of a decision with a settle: each transaction is one step, except for payouts.
- The exception handler of the worker and the cancel endpoint, which call `runs.finish` without looking at the status: a crash is the death of the process.
- SHA-256 (equal texts stand for equal hashes, or the digest is a collision-free parameter), JSON Schema validation, the regular expression for text addressed to the agent, and the rendered text of results: parameters.
- Latency, tracing, audit rows, approval previews and support checks, the loop detector's wording, and the pricing table.
- The ceiling checks that read other runs' bills and the clock are inputs of a transition.
- Live providers, the scripted providers, fault injection, the HTTP interface, the front end, migrations and evaluation scripts.
- The registries' write-once tables: the registry is a fixed map.

# AgentRelay: a verified model

AgentRelay runs a workflow of agent tasks, collects the evidence they report, and executes the protected actions they
propose once a person has approved them. This project models the parts of its server that carry its guarantees and
proves them for every input, every interleaving and every run.

- **Protected execution** (`Protocol`, `ProtocolInvariants`, `ProtocolTheorems`, `ProtocolDecisions`, `ProtocolSteps`,
  `ProtocolUnsent`, `ProtocolWitnesses`). One step function over the durable ledger, receipts, approvals and sessions
  and over any number of `run` calls, executor attempts and approval decisions in flight. Every await is a point
  between two steps; an attempt that timed out lives on as an orphan; any write may fail and the process may die
  anywhere. A history records what the outside world accepted. `ProtocolSteps` says in full what each step does;
  `ProtocolDecisions` follows approval decisions from the choice to the close of the session. `ExecutionLedger`,
  `EmailService`, `Recovery` and `ExecutionService` hold the same services as classes and methods, taken one call at a
  time.
- **Canonical text and approvals** (`JsonText`, `CanonicalJson`, `JsonReader`, `JsonRoundTrip`, `Actions`,
  `ApprovalService`). The key-sorting serializer over UTF-16 code units and exact decimal numbers, a reader for the
  grammar of RFC 8259 that inverts it, the hash that binds an approval to content, and the approval machine
  characterised by its call history. Keys sort by code unit as in section 3.2.3 of RFC 8785; strings are escaped as in
  section 7 of RFC 8259.
- **Workflow graphs and the coordinator** (`TaskGraph`, `TaskDefinitions`, `DagValidator`, `TopologicalOrder`,
  `TaskLifecycle`, `CapabilityRouter`, `Scheduler`, `CoordinatorRun`, `CoordinatorTheorems`, `CoordinatorCalls`,
  `CoordinatorTears`, `CoordinatorWaves`, `Coordinator`). The worklist validator, the lifecycle table, routing,
  readiness, and the tick loop with retries and coalesced calls, with a bound on every run and a description of where
  it ends. A tick that rejects may leave its tasks, or its tasks and session, beside the snapshot of the tick before;
  the theorems say what holds then, and exactly when the next tick undoes something.
- **Evidence** (`AccessGrants`, `ResourceGateway`, `EvidenceAcceptance`, `Provenance`, `ProvenanceTheorems`,
  `ReadAccounting`, `EvidenceSelection`, `FrozenContext`, `GrantScope`, `UndisturbedAttempt`, `CoordinatedSessions`).
  Grants, protected reads, attempts and queued saves of one session as a step machine, next to arbitrary activity of
  other sessions. An attempt may begin only when all dependencies are completed and the task was not;
  `CoordinatedSessions` runs the machine from the coordinator and derives both.
- **Stores and resource paths** (`DurableStore`, `RelayStore`, `PercentDecoding`, `LogicalPaths`, `ToolPolicy`).
  Queued copy, mutate, write, publish with crashes; keyed lists; the exact language of logical resources and their
  containment in scopes. Percent decoding follows section 2.1 of RFC 3986.
- `AutomationPolicy` is the policy on proposed actions, `PolicyOutcome` the status a session gets from it; `Sequences` and `Wrappers` are shared helpers.

A step that is not enabled changes nothing, so every sequence of steps is a run, and a theorem about all sequences is a
theorem about all runs. Where a method and a function describe the same code, the function is the specification and the
method is proved to compute it.

Where the code and its comments disagree, the model follows the code. The validator's comment says that ties keep
definition order (`apps/server/src/application/dag-validator.ts:25`). Read as tasks of equal depth it does not hold:
`TopologicalOrder.TiesLeaveDefinitionOrder` is an input, and `TopologicalOrder.TiesKeepDefinitionOrderExactly` says when it
does. Read as tasks released by the same task it is true: that is part of the release order in the contract of
`DagValidator.ValidateTaskDag`, and `TopologicalOrder.SameDependenciesKeepOrder` states it for tasks with the same
dependencies.

A tick that rejects after it has replaced the tasks leaves a snapshot behind that no longer shows them, and the next tick
works from it (`apps/server/src/application/coordinator.ts:81`). `CoordinatorTears.TornTickRunsACompletedTask` and
`CoordinatorTears.TornTickFlipsTheSession` are inputs. Until such a next tick everything holds that holds of settled ticks
(`CoordinatorCalls.CallsCoalesce` and the `Orderly` lemmas), and the service never makes one (`Coordinators.RunCoordinator`).

## Model

| member | source | states |
|---|---|---|
| ProtocolTheorems.NextKeepsInv | apps/server/src/application/execution-service.ts:55-129 | Every step of every in-flight `run`, attempt, decision, crash or restart keeps the joint invariant of ledger, receipts, accepted emails, approvals and sessions. |
| ProtocolTheorems.AtMostOnePerKey | apps/server/src/application/execution-service.ts:82-119 | In every reachable state the outside world accepted at most one email per (session, action, hash) key, only for claimed keys, and a key is in the ledger exactly when one single caller ever won its claim. |
| ProtocolTheorems.AtMostOnePerAction | apps/server/src/adapters/mock-protected-email-service.ts:59-79 | Even across keys, at most one email is ever accepted for one action of one session, through orphaned attempts, retries and restarts. |
| ProtocolTheorems.EveryAcceptedEmailWasApproved | apps/server/src/application/relay-workflow-service.ts:162-202 | Every email ever accepted carries, up to key order, the content of an action whose pending approval a decision moved to approved. |
| ProtocolDecisions.DecisionsFitTheirChoice | apps/server/src/application/relay-workflow-service.ts:156-190 | In every state of every run, each decision in flight was begun with exactly one choice, by the last call that found none in flight, and has come to nothing that does not fit it: a denial never to a grant, a run, a race or a close, an approval never to degrading the session. |
| ProtocolDecisions.GrantsWereChosen | apps/server/src/application/relay-workflow-service.ts:162-182 | In every run an action is granted only by saving a decision that was begun as an approval, on a pending approval, for content whose present hash is the approval's, and together with that approval. |
| ProtocolDecisions.GrantsArePendingApprovals | apps/server/src/application/relay-workflow-service.ts:162-182 | A grant is recorded exactly by saving a pending approval as approved, one action at a time, for an action whose present hash is the approval's. |
| ProtocolDecisions.DenialsLaunchNothing | apps/server/src/application/relay-workflow-service.ts:175-180 | However a run goes on, a decision begun as a denial never holds a grant, never launches a call and never closes a session. |
| ProtocolDecisions.ApprovalsAreDecided | apps/server/src/application/relay-workflow-service.ts:162-182 | A stored approval changes only when the decision on it is saved: from pending to invalidated exactly when the action read has another hash, else to denied or approved as was chosen when the decision was begun. |
| ProtocolDecisions.UndisturbedDecision | apps/server/src/application/relay-workflow-service.ts:156-190 | One call from start to grant that nothing disturbs: a changed action invalidates the approval under either choice; else a denial denies it, degrades the session and runs nothing; and an approval grants exactly the stored action under the approved hash and its own key. |
| ProtocolDecisions.RefusedDecision | apps/server/src/application/relay-workflow-service.ts:157-168 | A call for an approval that is missing or not pending, a session that is missing or over, or an action that is gone leaves everything as it was. |
| ProtocolDecisions.SessionsChangeByTheseSteps | apps/server/src/application/relay-workflow-service.ts:74-224 | The only steps that change the status of a session, and from what to what: opening, the end of policy, a denial, the close of a decision, and a new process, in which a running session has failed and one awaiting an approval already given is completed or failed by its receipts. |
| ProtocolDecisions.DecisionsConclude | apps/server/src/application/relay-workflow-service.ts:202-213 | A decision that waits for its run completes the session when the run was told of a delivery, fails it when the run gave up or threw, leaves it alone when another call holds the claim, and waits on otherwise. |
| ProtocolDecisions.RacesConclude | apps/server/src/application/relay-workflow-service.ts:191-195 | A race completes its session once all its calls have ended, however they ended, and not before. |
| ProtocolDecisions.ErrorsFailTheSession | apps/server/src/application/relay-workflow-service.ts:214-221 | An error between the grant and the close fails the session and ends the decision. |
| ProtocolDecisions.UndisturbedApprovalDelivers | apps/server/src/application/relay-workflow-service.ts:156-213 | From the pending approval to the last save with nothing in between: the approval is approved, exactly one email is accepted for the action, receipt and record carry its message id, and the session is completed. |
| ProtocolTheorems.TerminalRecordsAreImmutable | apps/server/src/adapters/json-execution-store.ts:72-102 | A succeeded or failed ledger record is the same in every later state, across calls, orphans, crashes and reloads. |
| ProtocolTheorems.SucceededMeansAcceptedOnce | apps/server/src/application/execution-service.ts:110-119 | A succeeded record carries the message id of the one email accepted for its key, which is also the stored receipt's, and no other key of the action has one. |
| ProtocolTheorems.ReceiptMeansAcceptedOnce | apps/server/src/application/email-executor.ts:34-41 | A stored receipt is backed by exactly one accepted email of its key, under its message id. |
| ProtocolTheorems.LaterCallsReturnTheStoredResult | apps/server/src/application/execution-service.ts:55-98 | Once a key has succeeded, a call made later never has an attempt. If decision, idempotency key and content are in order it can end only with the stored result or an exception, since the approval of a succeeded key stands forever; if they are not, it never reaches the claim and ends only with the refusal by one of these three checks or an exception. |
| ProtocolTheorems.SucceededIsSettled | apps/server/src/application/relay-approval-verifier.ts:16-27 | In every state the approval of a key that has succeeded is stored as approved with the key's hash, so no later call for it is refused for its approval. |
| ProtocolTheorems.CompletedSessionsWereDelivered | apps/server/src/application/relay-workflow-service.ts:198-213 | A session that left for completed, other than by the duplicate race, has a stored receipt backed by exactly one accepted email. |
| ProtocolTheorems.SessionsCompleteWhenDelivered | apps/server/src/application/relay-workflow-service.ts:74-224 | Whatever step moves a session to completed from any other status, a receipt of the session is stored and backed by exactly one accepted email, unless the step is the end of a policy run on a session that awaits nothing, or the end of a duplicate race. |
| ProtocolTheorems.RestartReconciles | apps/server/src/application/relay-workflow-service.ts:74-97 | After a restart every session that was running has failed, every ledger record is terminal, and an awaiting session whose first action is approved is completed if and only if a receipt is stored, else failed; the others keep their status. |
| ProtocolTheorems.RaceReportsOneSend | apps/server/src/application/relay-workflow-service.ts:298-313 | However many calls race for a key, the summary, which reads the ledger first and the receipts in any later state, counts at most one send, and exactly one whenever it counts a claim as won. |
| ProtocolTheorems.RaceIsDeliveredExactly | apps/server/src/application/relay-workflow-service.ts:309-312 | The raced action was delivered, with a stored receipt backed by exactly one accepted email, if and only if the summary counts one send. |
| ProtocolTheorems.DeliveredCallHasReceipt | apps/server/src/application/relay-workflow-service.ts:305-308 | One call of the race that was told of a delivery suffices for that. |
| ProtocolWitnesses.RaceCompletesUndelivered | apps/server/src/application/relay-workflow-service.ts:190-195 | The exception is real: for any number of racing calls there is a run in which the awaiting session is completed although nothing was ever accepted. |
| ProtocolWitnesses.ReasonsThatMeanUnsent | apps/server/src/application/recovery-service.ts:33-59 | For any limit on attempts above zero, a failed record means that nothing was ever sent for its key if and only if its reason is not an unknown error, exhausted retries or an interruption: each of these three stands beside an accepted email in some reachable state, and no other reason ever does. Errors queued by hand into the mock service as authorization errors are left aside. |
| ProtocolWitnesses.RecordedReasons | apps/server/src/application/recovery-service.ts:33-59 | The ledger holds failures for exactly five reasons: the three above, a rejected token and an invalid action; each occurs. |
| ProtocolWitnesses.QueuedErrorHidesASend | apps/server/src/adapters/mock-protected-email-service.ts:42-44 | With an authorization error queued by hand and two attempts allowed, a record that failed for its token can stand beside an accepted email too. |
| ProtocolUnsent.UnauthorizedMeansUnsent | apps/server/src/adapters/mock-action-executor.ts:61-72 | A record that failed for its token means that nothing was sent for its key: the token is one for a whole process, and what a process with the wrong one claims, no other ever sends. |
| ProtocolTheorems.FailedDoesNotMeanUnsent | apps/server/src/adapters/json-execution-store.ts:65-84 | Whenever the service would accept an attempt, a crash before the write-back leaves a failed record next to an accepted email. |
| ProtocolUnsent.InvalidMeansUnsent | apps/server/src/adapters/mock-action-executor.ts:46-74 | A record that failed as an invalid action does mean it: no email was ever accepted for its key, by any attempt or orphan, before or after a crash, and no receipt is stored. |
| EmailService.ParsesAlike | apps/server/src/adapters/mock-action-executor.ts:51-62 | Whether the strict schema accepts a payload, and what it reads from it, does not depend on the order of keys. |
| ProtocolTheorems.UndisturbedRunDelivers | apps/server/src/application/execution-service.ts:82-128 | A cleared run that meets no fault sends exactly one email, stores its receipt and records and returns success with its message id. |
| ProtocolSteps.RunsEnd | apps/server/src/application/execution-service.ts:55-129 | However the steps interleave and however often attempts time out, between two crashes the phase of a call changes at most 2 * maxAttempts + 6 times, and when none is left it has returned or thrown. |
| ProtocolSteps.RunsCanGoOn | apps/server/src/application/recovery-service.ts:28-59 | In every reachable state a call that has not ended has a step that takes it further; an attempt that never settles does not hold it up, since its timer can fire. |
| ProtocolSteps.DeliversExactly | apps/server/src/adapters/mock-action-executor.ts:46-74 | A delivery, in the order of its checks, with the whole new state of the attempt, the service and the log of accepted emails. |
| ProtocolSteps.RecordsExactly | apps/server/src/application/execution-service.ts:110-128 | The write-back stores one attempt, the outcome's result and whether it failed, and returns the outcome; if it fails the call throws and the ledger stays. |
| ProtocolSteps.CrashKeepsFiles | apps/server/src/adapters/json-execution-store.ts:40-84 | A crash loses what is in memory and nothing else; the next process finds finished records as they were and every other one failed as interrupted. |
| ExecutionServices.ExecutionService.Run | apps/server/src/application/execution-service.ts:55-129 | One `run` from start to end: the executor is reached only by a cleared action with an unclaimed key; the ledger gets exactly the outcome's record; losers are told what is stored; each failing write leaves the stated ledger. |
| ExecutionServices.ExecutionService.Claim | apps/server/src/application/execution-service.ts:82-128 | What follows for a cleared action: only the winner of the claim makes attempts, and its record holds exactly its outcome. |
| ExecutionServices.ClearedExactly | apps/server/src/application/relay-approval-verifier.ts:16-27 | A protected action is cleared if and only if approval is required, its own key agrees, and a stored approval is approved with the recomputed hash, which is also the action's. |
| ExecutionServices.RefusalsExactly | apps/server/src/application/execution-service.ts:55-81 | Each reason for which `run` turns a call away, and each way in which it throws before the claim, by the decision, the key and the status and hash of the stored approval, as if-and-only-ifs. |
| ExecutionServices.RecordedIsReturned | apps/server/src/application/execution-service.ts:89-98 | What one caller writes back is exactly what every later caller for the key is told. |
| ExecutionServices.MockEmailExecutor.Execute | apps/server/src/application/email-executor.ts:34-51 | Nothing is sent for an invalid action or one with a stored receipt; success always leaves a stored receipt; after a send the attempt succeeds if and only if the receipt could be stored. |
| ExecutionServices.MockEmailExecutor.Deliver | apps/server/src/adapters/mock-action-executor.ts:46-74 | The strict schema decides whether the service is called, and the service's errors become authorization, transient or validation failures. |
| Recovery.Run | apps/server/src/application/recovery-service.ts:28-59 | The retry loop stops at the first attempt that does not fail transiently, makes at most `maxAttempts`, and its outcome is that attempt's. |
| ExecutionLedger.JsonExecutionStore.Load | apps/server/src/adapters/json-execution-store.ts:40-63 | Loading reclaims every interrupted record and rewrites the file only if one changed. |
| ExecutionLedger.JsonExecutionStore.ReclaimInterrupted | apps/server/src/adapters/json-execution-store.ts:72-84 | The loop turns exactly the executing and pending records into failed ones and reports whether there was one. |
| ExecutionLedger.JsonExecutionStore.Claim | apps/server/src/adapters/json-execution-store.ts:92-102 | Compare-and-set: an existing record is never touched, and a failed write changes neither memory nor file. |
| ExecutionLedger.JsonExecutionStore.Update | apps/server/src/adapters/json-execution-store.ts:104-112 | One record is replaced in memory and file, or in neither. |
| ExecutionLedger.InMemoryExecutionStore.Claim | apps/server/src/adapters/in-memory-execution-store.ts:24-33 | The store without a file makes the same claim on the same abstract ledger. |
| ExecutionLedger.ReclaimSettles | apps/server/src/adapters/json-execution-store.ts:72-84 | After a reload every record is terminal, terminal ones are unchanged, and a second reload changes nothing. |
| EmailService.MockProtectedEmailService.Send | apps/server/src/adapters/mock-protected-email-service.ts:55-80 | One send in the order of its checks: a token other than the expected one, or none, is an authorization error and changes nothing; a repeated request gets its receipt; then queued errors and failures are used up, one each; else the request is accepted, logged once and receipted under the next number. |
| EmailService.MockProtectedEmailService.FailNextSends | apps/server/src/adapters/mock-protected-email-service.ts:37-39 | So many sends will fail, none for a negative count; receipts, queued errors and log stay. |
| EmailService.MockProtectedEmailService.FailNextSendWith | apps/server/src/adapters/mock-protected-email-service.ts:42-44 | The error is queued behind those queued before; receipts, failure count and log stay. |
| EmailService.SentKeepsReceipts | apps/server/src/adapters/mock-protected-email-service.ts:59-79 | Receipts are never lost or changed, and one is added exactly by an accepting send. |
| EmailService.CompleteExactly | apps/server/src/application/email-executor.ts:44-51 | A payload is complete if and only if its recipient, its subject and its body are each a text with something other than white space in it. |
| EmailService.ParsedExactly | apps/server/src/adapters/mock-action-executor.ts:51-62 | The strict schema reads an email if and only if its three texts are the payload's only fields and none of them is empty. |
| EmailService.ParsedPayloadIsSame | apps/server/src/adapters/mock-action-executor.ts:51-62 | The payload the schema rebuilds is the approved payload up to key order. |
| JsonRoundTrip.CanonicalTextReadsBack | apps/server/src/application/approval-service.ts:91-103 | What is written is a JSON text of the value: a reader written from the grammar of RFC 8259 alone gives back the value up to key order, with every object's keys in the order of section 3.2.3 of RFC 8785. |
| JsonRoundTrip.CanonicalTextInjective | apps/server/src/application/approval-service.ts:91-103 | Two values that can be serialized have equal canonical text if and only if they are equal after reordering keys at every depth. |
| JsonRoundTrip.ValueReadsBack | apps/server/src/application/approval-service.ts:91-103 | In place, too: followed by nothing, or by a comma or closing bracket and anything after it, the text reads back as its value and leaves exactly what follows. |
| JsonRoundTrip.BeforeExactly | apps/server/src/application/approval-service.ts:100-100 | One key is sorted before another if and only if it is a proper prefix of it or has the smaller code unit at the first difference. |
| CanonicalJson.SameValueSameText | apps/server/src/application/approval-service.ts:98-101 | Reordering keys at any depth does not change the text. |
| CanonicalJson.WrittenExactlyWhenSerializable | apps/server/src/application/approval-service.ts:91-103 | Text is produced exactly for values without a non-finite number or unsupported part. |
| JsonRoundTrip.QuotedReadsBack | apps/server/src/application/approval-service.ts:92-92 | A written string, over arbitrary UTF-16 code units, reads back by the rules of section 7 of RFC 8259 and ends where it was closed; lone surrogates come back from escapes. |
| JsonRoundTrip.EscapedIsShortest | apps/server/src/application/approval-service.ts:92-92 | No other way to write the string within its quotes is shorter, so the two-unit escapes are used where there are some and nothing else is escaped. |
| JsonRoundTrip.EscapesAreLowerCase | apps/server/src/application/approval-service.ts:92-92 | Escapes by number use small letters. |
| JsonRoundTrip.NumberReadsBack | apps/server/src/application/approval-service.ts:93-96 | A written number reads back by section 6 of RFC 8259 as exactly that number, 0 and -0 being one. |
| JsonRoundTrip.NumberTextForm | apps/server/src/application/approval-service.ts:93-96 | It has an exponent if and only if the number is 1e21 or more or below 1e-6 in magnitude, and in each form the length of its shortest digits. |
| JsonRoundTrip.NumberTextInjective | apps/server/src/application/approval-service.ts:93-96 | Two finite numbers have the same text exactly when they are equal, 0 and -0 being one. |
| Actions.HashBindsContent | apps/server/src/application/approval-service.ts:86-89 | Two actions have the same payload hash if and only if type, target and payload agree up to key order. |
| ApprovalService.InMemoryApprovalService.RegisterAction | apps/server/src/application/approval-service.ts:27-41 | A first registration stores a pending record bound to the content; a repeated one changes nothing. |
| ApprovalService.InMemoryApprovalService.ApproveAction | apps/server/src/application/approval-service.ts:43-48 | Only a pending record becomes approved; an unknown or decided id is an error and changes nothing. |
| ApprovalService.InMemoryApprovalService.DenyAction | apps/server/src/application/approval-service.ts:50-55 | Only a pending record becomes denied; an unknown or decided id is an error and changes nothing. |
| ApprovalService.InMemoryApprovalService.Authorize | apps/server/src/application/approval-service.ts:62-75 | The answer and the new table are those of the abstract machine, a differing content invalidating an approved record. |
| ApprovalService.RecordsAreExplained | apps/server/src/application/approval-service.ts:27-82 | After any history the stored record is explained by its first registration, its first decision and the first contradicting authorization. |
| ApprovalService.ExecutableExactlyWhenApproved | apps/server/src/application/approval-service.ts:27-82 | An action is executable if and only if its id was first registered with the same content, then approved, and no authorization since carried other content. |
| ApprovalService.AnswersExactly | apps/server/src/application/approval-service.ts:62-75 | What `authorize` answers for each stored status, and for content that has changed or cannot be hashed. |
| ApprovalService.MismatchDisablesForever | apps/server/src/application/approval-service.ts:69-73 | After one mismatch on an approved id nothing is ever executable under it again. |
| TaskDefinitions.StaticErrorsAreFaults | apps/server/src/application/dag-validator.ts:34-73 | The error list of the first passes names every repeated id, unknown capability, self-dependency and unknown dependency, and nothing else. |
| TaskDefinitions.NoStaticErrors | apps/server/src/application/dag-validator.ts:75-75 | No error is reported exactly for well-formed definitions. |
| TaskDefinitions.RepetitionsAreCounted | apps/server/src/application/dag-validator.ts:34-44 | An id that is defined n times is reported n - 1 times. |
| DagValidator.CollectErrors | apps/server/src/application/dag-validator.ts:31-73 | The two loops report exactly those errors, in that order. |
| DagValidator.CountDependencies | apps/server/src/application/dag-validator.ts:77-87 | The loops fill the table of dependents and the counts, repeated entries included. |
| DagValidator.DependentsCount | apps/server/src/application/dag-validator.ts:83-87 | A task stands among the dependents of another as often as it lists it. |
| DagValidator.FifoOrder | apps/server/src/application/dag-validator.ts:89-103 | The growing worklist terminates with distinct tasks, each after its dependencies and in order of release, and whatever is left out waits for something left out. |
| DagValidator.ValidateTaskDag | apps/server/src/application/dag-validator.ts:27-122 | Accepted if and only if the definitions are well formed and the graph has no cycle; the order is complete; a rejection names every static error, or exactly the tasks on or behind a cycle, in definition order. |
| TaskGraph.CompleteExactlyWhenAcyclic | apps/server/src/application/dag-validator.ts:105-111 | A worklist order that leaves out only tasks still waiting is complete if and only if there is no cycle, and leaves out exactly the tasks on or behind one. |
| TopologicalOrder.FifoIsUnique | apps/server/src/application/dag-validator.ts:89-103 | The order of release is determined by the definitions: two complete ones are equal. |
| TaskGraph.DepthIsUnique | apps/server/src/application/dag-validator.ts:94-103 | The depth of a task, the length of its longest dependency chain, is well defined. |
| TopologicalOrder.SortedByDepth | apps/server/src/application/dag-validator.ts:94-103 | The order is sorted by the length of the longest dependency chain. |
| TopologicalOrder.TiesKeepDefinitionOrderExactly | apps/server/src/application/dag-validator.ts:23-26 | Tasks of equal depth come out in definition order, at every depth, if and only if at every depth the tasks are defined in the order of their last-defined deepest dependencies. |
| TopologicalOrder.SameDependenciesKeepOrder | apps/server/src/application/dag-validator.ts:94-103 | Tasks that wait for the same dependencies come out in definition order. |
| TopologicalOrder.TiesLeaveDefinitionOrder | apps/server/src/application/dag-validator.ts:23-26 | An input that fails the condition: two tasks of equal depth come out in the reverse of their definition order. |
| TaskLifecycle.RequestsAreBounded | apps/server/src/application/task-lifecycle.ts:18-74 | Over any requests a final task never changes, the attempt counter counts the starts, and no attempt starts beyond the limit. |
| TaskLifecycle.TransitionsExactly | apps/server/src/application/task-lifecycle.ts:18-74 | The allowed moves of a task's status, and which of the two refusals a request meets, as if-and-only-ifs. |
| CapabilityRouter.RoutesToFirstEligible | apps/server/src/application/capability-router.ts:17-41 | A task goes to the first eligible agent in registry order, and is unassigned, with the stated reason, exactly when there is none. |
| Scheduler.ReportsAreExact | apps/server/src/application/scheduler.ts:16-47 | The reported ids are exactly those of the ready tasks, and of the blocked tasks with a failed or unassigned dependency. |
| CoordinatorTheorems.FailureBlocksForever | apps/server/src/application/scheduler.ts:8-9 | A blocked task with a failed or unassigned dependency is blocked in every later state. |
| Scheduler.ReschedulingIsStable | apps/server/src/application/scheduler.ts:16-47 | Rescheduling changes no final status, and a second time nothing at all. |
| CoordinatorRun.RunInv | apps/server/src/application/coordinator.ts:72-130 | In every state of every run of settled ticks: a task is not blocked exactly when all its dependencies are completed, attempts stay within the limit, and a failed task has used them all. |
| CoordinatorRun.TickSteps | apps/server/src/application/coordinator.ts:80-86 | One settled tick: final tasks are untouched, ready ones are executed, blocked ones become ready exactly when all dependencies are completed. |
| CoordinatorRun.ExecutedByRoutedAgent | apps/server/src/application/coordinator.ts:88-130 | An executed task carries the id of the first eligible agent, counts the attempt and ends completed, ready or failed by its outcome and its limit; without an eligible agent it becomes unassigned and is otherwise unchanged. |
| CoordinatorRun.DoneTasksNeverChange | apps/server/src/application/coordinator.ts:80-86 | A completed, failed or unassigned task is the same after any further settled ticks. |
| CoordinatorRun.SessionNeverFlips | apps/server/src/application/coordinator.ts:198-208 | Over settled ticks the session is completed only when all tasks are, failed only when one failed or is unassigned, and a final status never changes. |
| CoordinatorTheorems.CallsFollowDependencies | apps/server/src/application/coordinator.ts:88-98 | Whenever a tick after settled ticks would call the executor, the task has an attempt left and all its dependencies are completed. |
| CoordinatorTheorems.ReadyIsPaidFor | apps/server/src/application/coordinator.ts:80-130 | After n settled ticks, every ready task ends a dependency chain whose used attempts account for all n. |
| CoordinatorTheorems.CriticalPathBound | apps/server/src/application/coordinator.ts:80-130 | With at least one attempt per task, nothing is ready after as many ticks as the attempts along the heaviest chain, whatever fails. |
| CoordinatorTheorems.NoAttemptsNoProgress | apps/server/src/application/task-lifecycle.ts:54-63 | The condition is needed: an assignable root without an attempt stays ready forever. |
| CoordinatorTheorems.SalesRunFitsTheCap | apps/server/src/application/relay-workflow-service.ts:229-233 | The fixed workflow is at rest after six ticks, so the cap of twelve never cuts it off. |
| CoordinatorTheorems.SalesChainWeight | apps/server/src/domain/demo-workflow.ts:8-41 | No chain of the fixed workflow allows more than six attempts. |
| CoordinatorTheorems.Quiescence | apps/server/src/application/scheduler.ts:23-39 | When nothing is ready, every task is completed, failed, unassigned, or blocked behind a failed or unassigned transitive dependency, and the session of a non-empty workflow is completed exactly when all tasks are, else failed. |
| CoordinatorCalls.CallsCoalesce | apps/server/src/application/coordinator.ts:72-86 | However calls of `tick` overlap and wherever ticks reject, until a tick is started after one that rejected with the tasks already replaced: tasks, session and snapshot are each those of the ticks that left them, one after the other, and differ by at most that one tick. |
| CoordinatorCalls.AttemptsAreBounded | apps/server/src/application/coordinator.ts:72-130 | Over all events the executor is called at most `maxAttempts` times per task, at most once per attempt and for no attempt beyond the limit, plus at most once for every tick that was started after one that called the executor and rejected; a rejected tick that none follows adds nothing. |
| CoordinatorCalls.RepeatsExactly | apps/server/src/application/coordinator.ts:80-86 | In any state, the next tick can call the executor again for the same attempt if and only if a tick that was rejected since the last one settled called it for that task. |
| CoordinatorCalls.RejectedTickRepeatsTheCall | apps/server/src/application/coordinator.ts:80-86 | The extra call is real: after a tick that rejected, wherever it did, every task it called is called again for the same attempt. |
| CoordinatorTears.OrderlyTasks | apps/server/src/application/coordinator.ts:184-196 | Until a tick is started after such a rejection, the tasks satisfy the invariant of runs of settled ticks. |
| CoordinatorTears.OrderlyRunsKeepResults | apps/server/src/application/coordinator.ts:184-208 | Until then, a completed, failed or unassigned task never changes and a final session status never flips, over all overlapping calls and rejections. |
| CoordinatorTears.OrderlyCallsFollowDependencies | apps/server/src/application/coordinator.ts:88-98 | Until then, the executor is called only for a task with an attempt left whose dependencies are all completed. |
| CoordinatorTears.CoalescesExactly | apps/server/src/application/coordinator.ts:80-86 | In any state, the next tick does what a tick on the present tasks would do, whatever the outcomes, if and only if the snapshot it works from shows every task as it is. |
| CoordinatorTears.DoneStaysExactly | apps/server/src/application/coordinator.ts:80-86 | In any state, the next tick leaves all completed, failed and unassigned tasks alone, whatever the outcomes, if and only if the snapshot shows no completed or failed task as ready. |
| CoordinatorTears.FlipsExactly | apps/server/src/application/coordinator.ts:198-208 | In any state, the next tick can change a final session status if and only if it is completed and some task can fail again, or failed and every task can complete. |
| CoordinatorTears.TornTickRunsACompletedTask | apps/server/src/application/coordinator.ts:184-196 | An input: after a failed save of the reconciled tasks, the next tick runs a completed task again, which fails with its dependent ready behind it. |
| CoordinatorTears.TornTickFlipsTheSession | apps/server/src/application/coordinator.ts:198-208 | An input: after a failed save of the completed session, the next tick runs its task again and the session turns failed. |
| CoordinatorWaves.WavesFollowDepth | apps/server/src/application/coordinator.ts:80-86 | When every task is assigned and succeeds at once, after k ticks exactly the tasks of depth below k are completed, those of depth k ready, the rest blocked. |
| CoordinatorWaves.TickCallsOneDepth | apps/server/src/application/scheduler.ts:23-39 | Tick k + 1 of such a run calls the executor for exactly the tasks of depth k. |
| Coordinators.MergingIsOverlaying | apps/server/src/application/coordinator.ts:81-84 | Executing the snapshot's ready tasks apart and merging the results into the tasks by id replaces exactly those tasks, in their places. |
| Coordinators.Coordinator.Start | apps/server/src/application/coordinator.ts:51-64 | Starts exactly the workflows the validator accepts, with all roots ready; a refused one changes nothing and returns the validator's errors; a start whose saves fail leaves the stated part and the old snapshot. |
| Coordinators.Coordinator.Tick | apps/server/src/application/coordinator.ts:72-78 | A call during a tick joins it; otherwise the tick executes the ready tasks of the latest snapshot. |
| Coordinators.Coordinator.EndTick | apps/server/src/application/coordinator.ts:80-86 | However far the tick in flight gets, the fields afterwards are those of the step function: nothing but the calls when executing throws, the tasks, then the session, then the snapshot as the saves succeed. |
| Coordinators.Coordinator.ReconcileReadiness | apps/server/src/application/coordinator.ts:184-196 | The tasks are replaced before they are saved, the session before it is saved, and the snapshot only when every save has succeeded. |
| Coordinators.Coordinator.UpdateSessionStatus | apps/server/src/application/coordinator.ts:198-208 | The session becomes completed when all tasks of a non-empty list are, else failed when one failed or is unassigned, else stays. |
| Coordinators.RunCoordinator | apps/server/src/application/relay-workflow-service.ts:227-240 | The capped loop stops when nothing is ready or a tick rejects and never ticks after a rejection; what it leaves is that of the settled ticks in order; for the fixed workflow, unless a tick rejects, nothing is ready after at most six; and however it ends, the executor was called at most `maxAttempts` times per task and once per attempt. |
| AutomationPolicy.DecidedExactly | apps/server/src/application/automation-decision-service.ts:24-57 | Approval is asked if and only if the action is an email by a registered agent with the permission on accepted, uncontradicted evidence; only drafts run by themselves, under the like conditions; a price change is never more than recommended. |
| PolicyOutcome.PolicyStatusExactly | apps/server/src/application/relay-workflow-service.ts:242-297 | Under that policy, and while no approval of the actions' contents stands, the order of the actions never matters, in the bypass scenario too: the gravest effect decides, a bypassed action counting as a denied one. |
| PolicyOutcome.DecisionsDecideStatus | apps/server/src/application/relay-workflow-service.ts:242-289 | Outside the bypass scenario the saved status follows from the decisions alone, under any policy: awaiting if and only if some action requires approval, else degraded if and only if some is denied, else recommending if and only if some is only recommended, else finished. |
| PolicyOutcome.BypassDecidesStatus | apps/server/src/application/relay-workflow-service.ts:242-289 | In the bypass scenario, under the policy of the source and while no approval of the actions' contents stands: degraded if and only if some action requires approval or is denied, else recommending or finished. |
| PolicyOutcome.PolicyEffects | apps/server/src/application/relay-workflow-service.ts:254-276 | Under that policy no approval is asked beside a bypass, and no bypass is executed. |
| PolicyOutcome.PolicyDesk.ApplyPolicy | apps/server/src/application/relay-workflow-service.ts:242-297 | Exactly the actions that need approval get a pending one bound to their present hash, and the session is saved once: outside the bypass scenario as awaiting, degraded, recommending or finished by the gravest decision. It throws, with no status saved, exactly when a hash fails, an approval, a ledger record or the status cannot be written. A bypassed action goes through the execution service itself; approvals and ledger records of other actions are not touched. |
| PolicyOutcome.PolicyDesk.ConcludeSession | apps/server/src/application/relay-workflow-service.ts:227-240 | Whatever throws while policy is applied fails the session, as far as that can be saved. |
| PolicyOutcome.PolicyDesk.AttackExecutor | apps/server/src/application/relay-workflow-service.ts:254-266 | The attack with an empty idempotency key ends as refused, whatever its attempts do, unless an approval of exactly this content stands and the ledger holds the key as other than failed; it throws exactly when it gets as far as a write that fails. |
| PolicyOutcome.UnapprovedIsRefused | apps/server/src/application/relay-workflow-service.ts:262-267 | Without a stored approval of its content the attack is always refused, and never gets as far as a write. |
| PolicyOutcome.GravestEffectDecides | apps/server/src/application/relay-workflow-service.ts:248-296 | Outside the bypass scenario the order of the actions is irrelevant: the gravest effect decides the status. |
| PolicyOutcome.LastBypassDecides | apps/server/src/application/relay-workflow-service.ts:248-296 | For any list of effects with a bypass, whatever the policy: the last bypass and what follows it decide the status, and nothing before it counts. |
| PolicyOutcome.BrokenExactly | apps/server/src/application/relay-workflow-service.ts:267-271 | For any list of effects: the status of an executed bypass survives if and only if no refused bypass, approval request or denial follows the last executed one. |
| PolicyOutcome.OrderIsIrrelevantExactly | apps/server/src/application/relay-workflow-service.ts:248-296 | For any list of effects: the order does not matter if and only if nothing is bypassed, or no approval is asked and the bypasses end alike, with no denial beside an executed one. |
| PolicyOutcome.BypassDependsOnOrder | apps/server/src/application/relay-workflow-service.ts:254-276 | A policy that asked for approval of an unprotected action too would make the order matter. |
| EvidenceAcceptance.AssessEvidence | apps/server/src/application/evidence-acceptance.ts:8-25 | Every defect is named once and nothing else is; a record is accepted exactly when none is. |
| EvidenceAcceptance.VerdictExactly | apps/server/src/application/evidence-acceptance.ts:13-24 | Accepted if and only if origin, claim and sources are all in order. |
| AccessGrants.GrantLifetime | apps/server/src/application/access-grant-service.ts:8-15 | A grant is exactly what was issued under its token, active until its first revocation and never again. |
| AccessGrants.AccessGrantService.IssueGrant | apps/server/src/application/access-grant-service.ts:8-13 | A fresh token gets an active grant with the agent's own tools and scopes. |
| AccessGrants.AccessGrantService.RevokeGrant | apps/server/src/application/access-grant-service.ts:15-15 | Only the named grant changes, to revoked. |
| ResourceGateway.ResourceGatewayService.ReadResource | apps/server/src/application/resource-gateway-service.ts:13-30 | A source reference is recorded, for the holder of the grant, exactly when the policy allows the read and the file is found. |
| ResourceGateway.ResourceGatewayService.ListAuthorizedSourceRefs | apps/server/src/application/resource-gateway-service.ts:32-34 | Exactly the references recorded for the holder, none for an unknown one. |
| ProvenanceTheorems.ProvenanceClosure | apps/server/src/application/coordinator.ts:143-170 | In every reachable state each source of an accepted record was returned by an allowed read in the same session under an issued grant of the record's task or of a transitive dependency. |
| ProvenanceTheorems.StepKeepsGateway | apps/server/src/application/resource-gateway-service.ts:13-38 | Every step keeps that all grants were issued, all reads were allowed, and all recorded references were read by their holder. |
| ReadAccounting.RecordsAreReads | apps/server/src/application/resource-gateway-service.ts:13-38 | In every state the sources recorded for a holder are exactly those of the reads that ended for it in the present process: none is missing and none is left from before a crash. |
| ReadAccounting.ReadsAreConserved | apps/server/src/application/resource-gateway-service.ts:13-38 | Only a lookup of a known grant adds a read; each is evaluated once and ends once, and what ended stays in the history. |
| ReadAccounting.CrashForgets | apps/server/src/application/resource-gateway-service.ts:13-38 | A crash ends every read and attempt under way and forgets grants and recorded sources; what is stored stays. |
| ProvenanceTheorems.StepKeepsEvidence | apps/server/src/application/coordinator.ts:143-160 | Every step keeps that stored, queued and collected sources have such an origin. |
| ProvenanceTheorems.SubmittedExactly | apps/server/src/application/coordinator.ts:155-162 | A reported item is accepted if and only if it makes a claim and names only sources the task read itself or inherited from accepted evidence of its dependencies. |
| FrozenContext.PassedEvidenceIsFrozen | apps/server/src/application/relay-workflow-service.ts:377-409 | What was passed to the executor, on any attempt, equals record for record and in order what the dashboard computes for the task in any later state, which is every accepted record of the session from a task it depends on, in the order of the list. |
| FrozenContext.AcceptedFromDependencies | apps/server/src/application/coordinator.ts:143-162 | In every reachable state before a submission: an item will be accepted if and only if it makes a claim and names sources, each of which the task has read itself or a stored accepted record of one of its dependencies names. |
| EvidenceSelection.DependencyEvidenceExactly | apps/server/src/application/coordinator.ts:132-141 | From the stored list alone: the evidence passed and shown is what stands at the positions of exactly the records that belong to the session, are accepted and come from a task depended on, each once and in order. |
| EvidenceSelection.SelectedExactly | apps/server/src/application/relay-store.ts:80-90 | A record is among them if and only if some item holds it and it qualifies. |
| EvidenceSelection.InheritedExactly | apps/server/src/application/coordinator.ts:143-150 | A source is inherited if and only if some qualifying record of the list names it. |
| CoordinatedSessions.BeginMeetsGuards | apps/server/src/application/coordinator.ts:88-98 | What the session machine asks of an attempt that begins is derived from the coordinator: when the tick in flight executes a task, all its dependencies are completed, and it was never completed and is not at work. |
| CoordinatedSessions.SessionRuns | apps/server/src/application/coordinator.ts:72-130 | In every joint run of coordinator and session in which no tick is started after a rejected one, what the session goes through is a run of the session machine. |
| CoordinatedSessions.DrivenSessionsKeepEvidence | apps/server/src/application/coordinator.ts:132-170 | So in every state of such a run all passed contexts equal the dashboard's and all accepted sources have their origin. |
| FrozenContext.StepKeepsFrozen | apps/server/src/application/coordinator.ts:132-141 | Every step keeps the passed evidence equal to the dependencies' accepted evidence in the store. |
| EvidenceSelection.CapsuleIsDependencyEvidence | apps/server/src/application/relay-workflow-service.ts:383-397 | The dashboard's filter and the coordinator's select the same records in the same order. |
| GrantScope.GrantEndsWithAttempt | apps/server/src/application/coordinator.ts:107-111 | Once the executor has returned or thrown, in every later state the reads under the attempt's grant are those allowed before and those that had fetched their copy of it before; with none pending there is never another. |
| GrantScope.PendingReadOutlivesGrant | apps/server/src/application/resource-gateway-service.ts:14-17 | The exception is real: a read that fetched its copy of the grant before the attempt ended is allowed after the revocation, whenever the copy is active, in time and admits it. |
| GrantScope.StepsKeepEnded | apps/server/src/application/access-grant-service.ts:15-15 | A revoked grant never becomes active again, in any later state, in no session and across crashes. |
| GrantScope.EarlyFailureKeepsGrant | apps/server/src/application/coordinator.ts:102-111 | An attempt that throws before the executor is called leaves its grant behind: a read it allowed stays allowed in every later state, exactly until its time is up, someone revokes the grant by its id, or the process dies. |
| UndisturbedAttempt.UndisturbedAttemptCompletes | apps/server/src/application/coordinator.ts:88-117 | An attempt that may begin and that nothing disturbs completes its task, and each reported item is then stored, accepted exactly when its sources are the task's own reads or inherited. |
| UndisturbedAttempt.AttemptsKeepOrder | apps/server/src/application/coordinator.ts:88-171 | Whatever else happens, an attempt begins only for a running task with its agent, when all dependencies are completed and the task is not, goes from its grant through call, return, collection and submission one by one, and a task becomes completed only by an attempt that has handed over its records, when none of them is waiting to be stored. |
| UndisturbedAttempt.SpoofedIsStoredRejected | apps/server/src/application/recording-agent-executor.ts:66-90 | The record that the controlled scenario files in another agent's name reaches the store under its own id, as rejected. |
| DurableStore.FileAndMemoryAreTheAppliedJobs | apps/server/src/adapters/json-execution-store.ts:118-138 | In every state the file is the fold of the applied mutations in queue order, memory lacks at most the one being published, acknowledged mutations are applied and failed ones are not. |
| DurableStore.AcknowledgedSurvivesCrashes | apps/server/src/application/relay-store.ts:115-130 | Reloading after a crash brings back every mutation that was ever acknowledged. |
| DurableStore.FailuresDoNotBlock | apps/server/src/application/relay-store.ts:115-124 | Carrying out the queue applies exactly the mutations that neither throw nor fail to be written; a failing one changes nothing and blocks none behind it. |
| DurableStore.EveryCallIsAnswered | apps/server/src/application/relay-store.ts:115-124 | While the process lives no call is forgotten: each was answered with success or with failure, never both, or its mutation is still queued. |
| DurableStore.AppliedOnlyGrows | apps/server/src/application/relay-store.ts:115-130 | What reached the file stays part of it through later failures and crashes. |
| RelayStore.ListsAreOrderedMaps | apps/server/src/application/relay-store.ts:105-113 | A keyed list is an insertion-ordered map: one item per key, in order of first save, with the value saved last. |
| RelayStore.RelayJsonStore.Upsert | apps/server/src/application/relay-store.ts:105-124 | One item is replaced in its place or appended, in memory and file, or nothing changes. |
| RelayStore.RelayJsonStore.ResetDemo | apps/server/src/application/relay-store.ts:70-74 | Every collection is emptied, in memory and file, or nothing changes. |
| RelayStore.RelayJsonStore.Find | apps/server/src/application/relay-store.ts:82-98 | The item stored under the key, and none exactly when there is none. |
| RelayStore.OuterPartsSuffice | apps/server/src/application/execution-service.ts:70-70 | A key joined by bars names its parts if and only if they agree, when the first and last avoid the bar, whatever the action id. |
| RelayStore.FirstPartsSuffice | apps/server/src/application/resource-gateway-service.ts:36-38 | A key joined by colons names its parts when the first two avoid the colon, whatever the agent id. |
| RelayStore.PartsCanCollide | apps/server/src/application/execution-service.ts:70-70 | Without such a condition different parts share a key. |
| PercentDecoding.DecodeEncoded | apps/server/src/application/tool-policy-service.ts:5-6 | Decoding undoes the percent-encoding of the UTF-8 octets of any text. |
| PercentDecoding.PointOfEncoded | apps/server/src/application/tool-policy-service.ts:5-6 | Every Unicode scalar value decodes from its encoding whatever follows. |
| PercentDecoding.DecodesExactly | apps/server/src/application/tool-policy-service.ts:5-6 | A text decodes if and only if it is made of units other than a percent sign and of percent-encoded UTF-8 of scalar values in digits of either case, and then to exactly what these pieces stand for. |
| LogicalPaths.CleanIsNormal | apps/server/src/application/tool-policy-service.ts:8-9 | A clean relative path is its own normal form and does not lead upwards. |
| LogicalPaths.NormalIsClean | apps/server/src/application/tool-policy-service.ts:8-9 | A normal relative path that does not lead upwards is clean or names the root. |
| LogicalPaths.ResolveKeepsMeaning | apps/server/src/application/tool-policy-service.ts:8-9 | Resolving dot segments keeps the meaning of a path: from whatever directory it is followed, it leads where the path leads, with nothing above the root. |
| ToolPolicy.NormalizeAcceptsExactly | apps/server/src/application/tool-policy-service.ts:4-11 | A resource is accepted if and only if it decodes to `.`, `./` or a clean relative path without backslash, NUL or percent sign, and it stands for that text. |
| ToolPolicy.NormalizeIsIdempotent | apps/server/src/application/tool-policy-service.ts:4-11 | An accepted resource is accepted again and stands for itself. |
| ToolPolicy.AllowedExactly | apps/server/src/application/tool-policy-service.ts:15-26 | A read is allowed if and only if the named grant is active and in time, permits the tool, and the first scope covering the normalised resource permits the operation. |
| ToolPolicy.MatchesExactly | apps/server/src/application/tool-policy-service.ts:22-24 | A pattern that ends in slash and star covers exactly the resources that begin with what stands before the star; any other covers exactly the resource it names. |
| ToolPolicy.DenialsExactly | apps/server/src/application/tool-policy-service.ts:15-26 | Which reason a denial gives, in the order in which grant, time, tool and resource are looked at. |
| ToolPolicy.NewGrantAllowsExactly | apps/server/src/application/access-grant-service.ts:7-13 | A new grant names its session, task and agent and allows, for fifteen minutes and to whoever names it, exactly the tools and scopes of the agent. |
| ToolPolicy.GuardFiresExactly | apps/server/src/application/fixture-resource-store.ts:7-14 | The store's prefix check refuses an accepted resource exactly when it names the root, or the root is that of the file system; else it reads the file at the resource's segments below the root. |
| ToolPolicy.AllowedReadsStayInScope | apps/server/src/application/fixture-resource-store.ts:7-14 | A resource allowed by the scope of everything below `p` is never refused by that check and is `p` in the root or below it. |

## Left out

- HTTP routes, authentication, the dashboard, process spawning and workspace files: plumbing around the modelled state.
- Agent runners: an attempt of a task is an arbitrary outcome; an attempt of the executor may settle, fail or never settle.
- `ResendEmailExecutor`: its guarantee rests on a provider's header that is not visible in the repository.
- Trace events, redaction, timestamps and durations: best effort by design, and nothing modelled depends on them. A grant's expiry is kept, over an integer clock.
- SHA-256: a digest is identified with the text it digests, that is, taken to be free of collisions.
- Joined string keys are kept as tuples; `RelayStore.OuterPartsSuffice` and `RelayStore.FirstPartsSuffice` say when that is the same.
- The reasons that `decideAutomation` gives beside its decision, and the reversibility in the risk registry, which nothing reads.
- The concurrency of `ExecutionService`, the executor and `decideApproval` is modelled on values, as the step function `Protocol.Next`, because their interleavings share one state; the classes of the same services are not interleaved.
- The protocol asks for the approval of an action once, as the service does within one run; a second policy run over the same session is not modelled there. `PolicyOutcome` models one policy run in full.
- `resetDemo` is modelled on the store only: it would empty the stores in the middle of the protocol and of a session's evidence.
- The session status `cancelled`, which no modelled code sets, and `recommend_only` in the protocol, which treats it as it treats degraded.
- `assertNoPayloadLeak`: a defensive check on records that `run` never triggers.
- In `DurableStore` the temporary file is not represented: writing it fails or succeeds, and renaming it is atomic.
- The coordinator's persisted copies of tasks: lifecycle facts are about its `tasks` field. When saving evidence throws after the completed save, the stored task can go from completed back to ready.
- Several workflows in one coordinator object, and events between the awaits of one tick: `Coordinator.Start` requires that no tick is in flight, as the service starts each coordinator once, before its first tick. When one attempt of a tick throws, the others of that tick go on in the original; their calls are counted with the tick.
- `Provenance` takes the attempts of one task to be one after the other. A rejected tick followed by another could make them overlap, but the service never ticks after a rejection, and `CoordinatedSessions` needs no more than that.
- `Provenance` covers one session in full and other sessions as arbitrary grants, revocations, reads and saves; ids of evidence are kept as their parts.
- `buildContextCapsules` for tasks without dependencies or without evidence: they are not shown, and `FrozenContext` is about the evidence of those that are.
- `AgentService`, `DemoRelaySessionService`, the policy simulator, view projections and the Gemini adapter: views or reshaping that add no state of their own.
- `path.posix` and `decodeURIComponent` are modelled from their documented behaviour; symbolic links below the protected root are not.

# Verified models of the Mythos Aegis backend

A Dafny model of the decision-making kernels of the backend, with proofs about whole runs,
whole queries and whole logs. `dafny verify dfyconfig.toml` checks the project.

| file | models |
|---|---|
| `SqlAirlock.dfy` | the SELECT-tree rewriter, and a three-valued meaning of WHERE (SQL-92, section 8.12) |
| `Templates.dfy`, `PyText.dfy` | the `{{ path }}` scanner, the path walk, `resolve_dict`; Python string operations |
| `WorkflowEngine.dfy` | sequential steps, dependency gate, retries with back-off, audit records, growing context |
| `RateLimiter.dfy` | the INCR/EXPIRE/TTL script on a shared store under a moving millisecond clock |
| `JwtValidation.dfy`, `KeyRotation.dfy` | the verification key loop (RFC 7519, sections 4.1.4 and 7.2) and timed rotation schedules |
| `Chunker.dfy` | whitespace normalisation and overlapping windows |
| `VectorSearch.dfy` | cosine scores over the reals, stable descending order, first k rows |
| `Billing.dfy`, `UsageLedger.dfy`, `Quota.dfy` | subscription rows and invoices against the provider, usage counters, the request quota |
| `AgentReply.dfy`, `AgentRuntime.dfy` | the two patterns of the ReAct protocol, and its loop |
| `ConversationMemory.dfy`, `AgentOrchestrator.dfy` | the stored history and its window, a session turn and runs of turns |
| `OrderCancellation.dfy` | CANCEL_ORDER as a transactional step |
| `Wrappers.dfy`, `Sequences.dfy` | Option and Result; clamped slices and filters |

State that the source updates in place is held by classes (`SelectNode`, `Engine`, `StepExecution`,
`Limiter`, `KeyRotationService`, `MockBillingProvider`, `BillingService`, `UsageRecord`,
`UsageRepository`, `Backend`, `Memory`, `OrderTable`). Their methods are proved equal to functions of the old
state or of a ghost log, and the properties are lemmas about those functions over every run. The
outside world is a parameter: the database's reading of opaque predicates, the step executor, the
model and its tools, a clock that does not run backwards, and the answer of an ordered query. Any
behaviour of the step executor or the model during one run is a table indexed by step, attempt or
call number and by what it was shown, so quantifying over such tables covers them all.

## Where the code and its documentation differ

The model follows the code.

- A retried step whose successful attempt returns an empty dict is recorded as failed, although the
  engine's documentation promises a retry until success (`EmptyOutputAfterRetryFails`). It takes an
  injected executor: no step type shipped both raises a retryable error and returns nothing.
- `promote_new_key` alone does not keep outstanding tokens valid: a second promotion within one token
  lifetime rejects tokens of the first key. `ZeroDowntimeIffDisciplined` gives the exact condition on
  a schedule; the documented protocol meets it.
- The definition validators accept a dependency on a later step, which can never complete
  (`ValidatorsAcceptAForwardReference`, `CompletableIffListedInOrder`).
- The seconds a refused caller is told to wait come from Redis's rounded TTL reply. In a window's
  last half second the reply is 0 and the caller is told a whole window (`ToldTooLong`); with a
  fraction below one half it is told too little and refused again (`ToldTooShort`).
  `RetryAfterIsAccurateIff` and `WaitingAsToldIsEnoughIff` give the exact conditions.
- A negative `overlap` is accepted and leaves gaps, and it lets a size that is not positive through,
  whose chunks never cover the text (`HalfTheTextIsLost`). They cover it exactly when the overlap is
  not negative or the text fits into one chunk (`ChunksCoverIff`).
- An activation while a subscription is current replaces the row but never cancels the provider's
  entry, which stays active for good; a later cancellation ends only the newest
  (`UpgradeThenCancelLeavesOneActive`; in general `ReplacedSubscriptionsStayActive` and
  `CancellationIsCompleteIff`).
- A tool call printed over several lines is cut at the first inner line that ends in a closing
  brace, and unless the part decodes the user is given the raw reply (`PrintedActionDecides`,
  `PrettyPrintedCallIsCutShort`); one on a single line is never cut.
- `resolve_dict` is documented to resolve all string values but leaves strings in dicts and lists
  below a list item alone (`NestedReferenceIsNotResolved`). It resolves every string in every context
  exactly when no such nested item contains a reference (`ResolvesAllStringsIff`).
- A workflow step may pass a negative iteration limit to the agent, which reports it as its iteration
  count; the count is right exactly for limits that are not negative (`IterationsCountToolCallsIff`).
- History is documented as chronological, but messages are stamped with the time of the transaction,
  so all messages of one session turn tie. A later turn may read the answer before its question
  (`AnswerMayPrecedeItsQuestion`); the order is determined only while a session has no turn
  (`ChronologicalIffNoTurn`, from the general `HistoryOrderIsDeterminedIff`). What remains
  guaranteed is the order of whole turns (`HistoryIsTurnByTurnIff`), so the user message just
  stored is always last.
- A LIMIT whose operand is a string literal such as '-5' is read as a negative integer, kept, and left
  for the database to reject; every other operand that is not an integer text becomes 100.

## Model

| member | source | states |
|---|---|---|
| SqlAirlock.StripRefusesIff | app/pathways/sql_airlock/rewriter.py:17-55 | stripping raises if and only if some path through the tree reaches a column called user_id, in either case, by way of a conjunct that is not an equality with a user_id column |
| SqlAirlock.MentionsUserIdIff | app/pathways/sql_airlock/rewriter.py:47-53 | the search below a conjunct finds a user_id column exactly when some path leads to one |
| SqlAirlock.StripKeepsTheOtherConjuncts | app/pathways/sql_airlock/rewriter.py:26-45 | otherwise it leaves precisely the other conjuncts, in order |
| SqlAirlock.StripIsCleanAndFixed | app/pathways/sql_airlock/rewriter.py:26-55 | from a stripped tree no path leads to a user_id column, and it strips to itself |
| SqlAirlock.TrueIffConjunctsTrue | app/pathways/sql_airlock/rewriter.py:36-45 | in three-valued logic an AND tree is true exactly when all its conjuncts are |
| SqlAirlock.RewriteRefusesIff | app/pathways/sql_airlock/rewriter.py:47-84 | the rewrite refuses a query if and only if some path in its WHERE reaches a user_id column through another conjunct than a user_id equality |
| SqlAirlock.RewrittenConjuncts | app/pathways/sql_airlock/rewriter.py:58-109 | the rewritten WHERE has the kept conjuncts and then the session's own equality, the limit is the capped one, and nothing else is touched |
| SqlAirlock.RewrittenWhereKeepsExactly | app/pathways/sql_airlock/rewriter.py:58-84 | a row passes the rewritten WHERE if and only if it is the session user's and makes every other conjunct true |
| SqlAirlock.RewrittenQueryReturnsOwnMatchingRows | app/pathways/sql_airlock/rewriter.py:58-109 | the rewritten query returns the first min(limit, 100) of exactly those rows, after the offset, in the database's order |
| SqlAirlock.NoForeignRowIsReturned | app/pathways/sql_airlock/rewriter.py:58-109 | at most 100 rows come back and all belong to the session user |
| SqlAirlock.RewriteLoosensByTheRemovedConjuncts | app/pathways/sql_airlock/rewriter.py:58-84 | on the user's own rows the original WHERE is the rewritten one and the removed user_id conjuncts, so no own match is dropped |
| SqlAirlock.RewriteIsIdempotent | app/pathways/sql_airlock/rewriter.py:58-116 | rewriting a rewritten tree changes nothing |
| SqlAirlock.SelectNode.InjectTenantFilter | app/pathways/sql_airlock/rewriter.py:58-84 | copies the node, never changes the one passed in, and sets the where slot to the injected condition |
| SqlAirlock.SelectNode.EnforceLimit | app/pathways/sql_airlock/rewriter.py:87-109 | copies the node and keeps an integer limit of at most 100, or sets 100 |
| SqlAirlock.SelectNode.RewriteNode | app/pathways/sql_airlock/rewriter.py:112-116 | both steps together produce a fresh tree equal to the rewrite of the original |
| Templates.MatchPrefixIsThePattern | app/workflow/templates.py:20 | the scanner matches exactly when a parse of the pattern exists and takes the preferred one: most leading padding, then the shortest group |
| Templates.MatchOfReference | app/workflow/templates.py:20-37 | a printed reference is matched exactly, whatever text follows it |
| Templates.ResolveOfPrint | app/workflow/templates.py:23-37 | resolving printed literals and padded references yields the literals and looked-up values in order; inserted values are never rescanned |
| Templates.ReferenceBecomes | app/workflow/templates.py:25-35 | a reference becomes the text of the value its keys lead to, and nothing for None or keys that lead nowhere |
| Templates.BlankReferenceReadsTheEmptyKey | app/workflow/templates.py:20-29 | a reference to nothing but blanks reads the empty key, because the group is stripped |
| Templates.WalkPath | app/workflow/templates.py:26-35 | the path loop returns the value the dotted path denotes, the empty string once it leaves the nested dicts |
| Templates.LookupFollowsTheKeys | app/workflow/templates.py:26-35 | a dotted path reads the value its keys lead to, and the empty string if they lead nowhere |
| Templates.ResolveText | app/workflow/templates.py:23-37 | left-to-right substitution over the whole template |
| Templates.ResolveList | app/workflow/templates.py:48-51 | list items are resolved one level deep, only if they are strings |
| Templates.ResolveDict | app/workflow/templates.py:40-54 | the recursive loop that fills the result dict computes the resolution of every entry |
| Templates.ResolutionKeepsEveryPath | app/workflow/templates.py:40-54 | every key path leads somewhere after resolution exactly when it did before, to the same value with its string, or the strings directly in its list, resolved once and all else unchanged |
| Templates.ResolveOfTemplateFree | app/workflow/templates.py:40-54 | a config without an opening brace pair in its scanned strings is returned unchanged |
| Templates.ResolvesAllStringsIff | app/workflow/templates.py:40-54 | all strings at every depth are resolved, whatever the context, if and only if no list or dict that is a list item contains a reference |
| Templates.NestedReferenceIsNotResolved | app/workflow/templates.py:48-51 | a printed reference in a dict inside a list stays as it is in every context |
| PyText.SplitOfJoin | app/workflow/templates.py:29 | splitting a dotted path undoes joining dot-free names |
| PyText.StripRemovesOuterWhitespace | app/workflow/templates.py:27 | strip removes whitespace at both ends and nothing else |
| PyText.IsSpaceIff | app/workflow/templates.py:20 | whitespace is these 29 characters |
| WorkflowEngine.Engine.RunAttempts | app/workflow/engine.py:175-240 | the retry loop leaves the record the attempts call for, and the recorded attempt number is the number of executor calls |
| WorkflowEngine.Engine.RunStep | app/workflow/engine.py:143-240 | an unmet dependency leaves no record; otherwise exactly one new record, and the outcome follows its status |
| WorkflowEngine.Engine.Execute | app/workflow/engine.py:68-141 | status, output, error and the whole audit trail of an execution are those of the run |
| WorkflowEngine.StepCompletesIffItSucceeds | app/workflow/engine.py:179-225 | a step completes if and only if some attempt returns after raising ones only, with a non-empty output if it was retried |
| WorkflowEngine.RecordedAttempts | app/workflow/engine.py:179-209 | attempts stay within the limit, all before the last raised, each followed by one wait |
| WorkflowEngine.EmptyOutputAfterRetryFails | app/workflow/engine.py:211-222 | with an injected executor, a retry that succeeds with an empty dict fails the step, with the earlier error |
| WorkflowEngine.BackoffSchedule | app/workflow/engine.py:177-209 | wait k is initial * multiplier^k while that is at most the maximal delay and the maximal delay after that, waits never shrink, and their sum is at most one maximal delay each |
| WorkflowEngine.StepWaitsAreBounded | app/workflow/models.py:28-32 | a step waits at most max_attempts - 1 times, for at most that many maximal delays |
| WorkflowEngine.MissingIsEmptyIff | app/workflow/engine.py:154-158 | the reported missing dependencies are exactly those not completed, in order |
| WorkflowEngine.RunIsExactlyDetermined | app/workflow/engine.py:93-141 | a run completes if and only if every step depends on earlier ids only and succeeds; otherwise it fails at the first bad step with its error, with one completed record per earlier step, a failed one if its dependencies were met, and nothing later |
| WorkflowEngine.CompletedRunOrdersDependencies | app/workflow/engine.py:154-158 | with unique ids, a completed run has every dependency edge pointing to a smaller index |
| WorkflowEngine.CyclicWorkflowFails | app/workflow/engine.py:93-108 | a definition with a dependency cycle, self-loops included, fails whatever the executor does |
| WorkflowEngine.ForwardReferenceFails | app/workflow/engine.py:154-158 | so does any dependency on the step itself or a later one |
| WorkflowEngine.ValidatorsAcceptIff | app/workflow/models.py:61-80 | the validators accept exactly definitions without repeated ids and without dependencies on no step |
| WorkflowEngine.ValidatorsAcceptAForwardReference | app/workflow/models.py:61-80 | the validators accept a definition that fails under every executor |
| WorkflowEngine.CompletableIffListedInOrder | app/workflow/engine.py:3-6 | some executor completes the workflow if and only if every dependency names an earlier step |
| WorkflowEngine.LaterStepReadsEarlierOutput | app/workflow/engine.py:87-108 | a template reading steps.id.output.key in a later step yields what the step with that id returned under the key |
| WorkflowEngine.EveryStepReadsTheInput | app/workflow/engine.py:87-90 | a template reading input.key yields the run's input in every step |
| WorkflowEngine.StatusIsVisibleAfterwards | app/workflow/engine.py:104-108 | a template reading steps.id.status yields "completed" after that step and nothing before |
| WorkflowEngine.CompletedRunReturnsLastOutput | app/workflow/engine.py:110-115 | a completed run has one record per step and returns the last step's output |
| RateLimiter.Limiter.CheckRateLimit | app/rate_limit/limiter.py:88-119 | each call extends the served log by itself and answers as the run of that log does, whether or not Redis is reached or its reply comes back |
| RateLimiter.KeysAreDistinct | app/rate_limit/limiter.py:99-100 | different policy and identifier pairs never share a counter |
| RateLimiter.StoreHoldsTheWindow | app/rate_limit/limiter.py:30-37 | after any log a key's counter is the rank of its last call in its window, and its expiry is that window's end |
| RateLimiter.RunDecidesPerKey | app/rate_limit/limiter.py:95-119 | every answer is the reference decision on the calls that have reached Redis on its own key, so other keys change nothing; a call without a reply is allowed |
| RateLimiter.WindowsAreDisjoint | app/rate_limit/limiter.py:27-33 | a window starts where the previous one ended or later |
| RateLimiter.WindowAdmits | app/rate_limit/limiter.py:104-113 | a window admits as many calls as it has seen, up to the quota |
| RateLimiter.RefusalMeansQuotaSpent | app/rate_limit/limiter.py:106-108 | a call is refused only after exactly the quota was admitted in its window |
| RateLimiter.AdmittedOnceTheWindowIsOver | app/rate_limit/limiter.py:104-113 | after a refusal the first call past the window's last millisecond is the next one admitted |
| RateLimiter.RetryAfterIsAccurateIff | app/rate_limit/limiter.py:105-107 | retry_after is within half a second of the time left if and only if half a second or more is left; otherwise it is a whole window |
| RateLimiter.WaitingAsToldIsEnoughIff | app/rate_limit/limiter.py:105-107 | a caller who waits exactly retry_after is admitted if and only if the time left was rounded up or the whole window was answered |
| RateLimiter.ToldTooShort | app/rate_limit/limiter.py:105-107 | under every policy of two seconds or more a caller told to wait one second is refused again after it |
| RateLimiter.ToldTooLong | app/rate_limit/limiter.py:105-107 | under every policy a caller is told a whole window although 401 milliseconds are enough |
| RateLimiter.AtMostTwiceTheQuota | app/rate_limit/limiter.py:95-113 | an interval as long as a window admits at most twice the quota |
| RateLimiter.OneLessThanTwiceTheQuota | app/rate_limit/limiter.py:95-113 | a shorter one admits at least one call less |
| RateLimiter.BoundsAreReached | app/rate_limit/limiter.py:95-113 | under every policy some schedule reaches both bounds, the smaller one within two milliseconds |
| RateLimiter.NoKeyExceedsTwiceItsQuota | app/rate_limit/limiter.py:88-119 | over whole logs with any mix of keys and any outages, within window_seconds a key is allowed less than twice its quota, not counting calls Redis did not answer |
| RateLimiter.CallsPerMinute | app/rate_limit/policies.py:27-33 | the bound in figures for each policy: at most 59, 239, 119, 39 or 29 calls in any minute |
| RateLimiter.FirstMinute | app/rate_limit/limiter.py:99-113 | on a fresh key the calls of one instant are admitted with one less left each time, up to the policy's figure, then told to wait a minute |
| JwtValidation.TryKeys | app/auth/jwt.py:115-154 | the key loop equals its specification: some retained key signed the token and its claims decide the rest |
| JwtValidation.AcceptedIff | app/auth/jwt.py:90-154 | a token is accepted if and only if a retained key signed it and all claims hold now; it is reported as expired exactly when a retained key signed it, nothing checked earlier fails and its expiry has come; the order of keys never matters |
| JwtValidation.VerifiedClaimsAreTheTokens | app/auth/jwt.py:162-191 | accepted claims are the token's identifiers and the string items of its role and permission lists |
| KeyRotation.KeyRotationService.Create | app/secrets/rotation.py:39-47 | the service starts with the given keys; an empty current key is refused |
| KeyRotation.KeyRotationService.PromoteNewKey | app/secrets/rotation.py:68-84 | the new key becomes current and the old current previous; an empty key changes nothing |
| KeyRotation.KeyRotationService.RetireOldKey | app/secrets/rotation.py:86-101 | the previous key is dropped and the current kept |
| KeyRotation.KeyRotationService.ValidateToken | app/auth/jwt.py:115-154 | the verdict on the current and previous keys |
| KeyRotation.PreviousIsTheReplacedKey | app/secrets/rotation.py:68-84 | after any schedule a retained previous key is the one the last promotion replaced |
| KeyRotation.RetainedIff | app/secrets/rotation.py:68-101 | after any schedule a key is in use if and only if it is the last promoted one, or the one that promotion replaced with nothing retired since |
| KeyRotation.RetiredKeyIsRejected | app/secrets/rotation.py:86-101 | after a retirement and until the next promotion only tokens of the key in force are accepted |
| KeyRotation.KeyOutlivesItsTokens | app/secrets/rotation.py:5-14 | in a disciplined schedule a signing key is retained until every token it signed has expired |
| KeyRotation.EarlyForgettingLosesAToken | app/secrets/rotation.py:86-94 | dropping a key sooner than one lifetime after its replacement rejects a token that is still valid |
| KeyRotation.ZeroDowntimeIffDisciplined | app/secrets/rotation.py:5-14 | every issued token is accepted until it expires if and only if no key is dropped sooner than one lifetime after the promotion that replaced it |
| KeyRotation.ProtocolHasZeroDowntime | app/secrets/rotation.py:5-14 | promote, wait, retire has zero downtime over whole schedules |
| KeyRotation.SecondPromotionTooSoonLosesTokens | app/secrets/rotation.py:68-84 | two promotions within one lifetime do not |
| KeyRotation.HeldKeyZeroDowntimeIff | app/secrets/rotation.py:39-47 | a service started with a previous key loses no token, its own or one of that key, if and only if no key is forgotten sooner than one lifetime after it was replaced |
| KeyRotation.ProtocolHonoursHeldTokens | app/secrets/rotation.py:5-14 | the protocol keeps that key's tokens too if it starts one lifetime after the key was replaced |
| Chunker.ChunkText | app/rag/chunker.py:83-119 | the loop returns the windows of the normalised text, or the error for its arguments |
| Chunker.RefusedIff | app/rag/chunker.py:98-109 | a call is refused for its sizes if and only if the size is not above the overlap, and otherwise if and only if the text is all whitespace |
| Chunker.NormalizeIsNormal | app/rag/chunker.py:105-106 | normalised text has single plain spaces only, none leading or trailing |
| Chunker.NormalizeKeepsWords | app/rag/chunker.py:105-106 | normalisation keeps every word of the text in order and adds none |
| Chunker.NormalizeJoinsTheWords | app/rag/chunker.py:105-106 | normalised text is its words joined by single spaces |
| Chunker.NoChunkIsBlank | app/rag/chunker.py:114-116 | the blank filter never drops a chunk |
| Chunker.ChunksAreTheWindows | app/rag/chunker.py:101-119 | for every accepted call the chunks are the non-blank ones of exactly ceil(n / stride) windows, window i at i * stride; with a positive size none is dropped |
| Chunker.ChunksReconstructTheText | app/rag/chunker.py:98-119 | the first chunk and the later ones without their overlap are the text, and so are the first stride characters of every chunk |
| Chunker.ChunksCoverIff | app/rag/chunker.py:98-119 | for every accepted call the chunks cover the text if and only if the overlap is not negative or the text fits into one chunk |
| Chunker.HalfTheTextIsLost | app/rag/chunker.py:98-119 | two accepted calls, one with gaps and one with a negative size, that lose half of every eight-character text without whitespace |
| VectorSearch.SearchNumpy | app/rag/repository.py:160-202 | the result lists rows of the table in scope, at most k, in order of score and then of position, each before every row in scope that is left out, and none is left out before k are listed; a zero query keeps table order; it fails exactly on a row in scope that does not fit the query |
| VectorSearch.CauchySchwarz | app/rag/repository.py:198 | the squared dot product is at most the product of the sums of squares |
| VectorSearch.ScoreIsCosine | app/rag/repository.py:192-199 | a score times both norms is the sum of products, and a zero embedding scores 0 |
| VectorSearch.ParallelScores | app/rag/repository.py:198 | an embedding in the query's direction scores 1, one in the opposite direction -1 |
| VectorSearch.ScoreInRange | app/rag/repository.py:192-199 | every score lies in [-1, 1] |
| VectorSearch.RankingIsStableAndDescending | app/rag/repository.py:201 | the order lists every row once, each beating all that follow, ties in row order |
| VectorSearch.PositionCountsBeaters | app/rag/repository.py:201-202 | a row's position is the number of rows that beat it |
| VectorSearch.RankedInTopKIff | app/rag/repository.py:201-202 | a row is among the first k if and only if fewer than k rows beat it; min(k, n) rows are returned |
| VectorSearch.ScalingTheQueryChangesNothing | app/rag/repository.py:186-202 | a positive factor on the query leaves the result unchanged |
| Billing.MockBillingProvider.ActivateSubscription | app/billing/providers/mock.py:68-99 | an unknown session is refused; otherwise a new id gets an active entry and an empty invoice list |
| Billing.MockBillingProvider.CancelSubscription | app/billing/providers/mock.py:101-111 | only status and cancel flag of the entry change |
| Billing.MockBillingProvider.CreateInvoice | app/billing/providers/mock.py:118-143 | the entry's list grows by one new invoice |
| Billing.BillingService.ActivateSubscription | app/billing/service.py:92-110 | provider entry and the tenant's row change together, and the invariant is kept |
| Billing.BillingService.CancelSubscription | app/billing/service.py:116-129 | row and entry are cancelled together, or an error changes nothing |
| Billing.BillingService.InvoiceTenant | app/billing/service.py:133-148 | provider and table gain the same invoice at the row's plan price |
| Billing.ActivateKeepsConsistent | app/billing/service.py:219-256 | activation keeps rows, ids and invoices in agreement with the log |
| Billing.CancelKeepsConsistent | app/billing/service.py:116-129 | so does cancellation |
| Billing.InvoiceKeepsConsistent | app/billing/service.py:133-148 | so does invoicing |
| Billing.ConsistentStateFollowsTheLog | app/billing/quota.py:36-52 | the enforced plan is that of the last activation unless a cancellation followed, else Free; cancelling and invoicing succeed exactly while there is one |
| Billing.EveryRunIsConsistent | app/billing/service.py:92-148 | every sequence of calls keeps the invariant |
| Billing.BooksBalance | app/billing/service.py:202-276 | after any sequence: one row per tenant, each repeating the entry it names, stored invoices equal to the provider's lists and to what the log bills, and the enforced plan |
| Billing.ReplacedSubscriptionsStayActive | app/billing/service.py:92-129 | after any sequence a tenant's active provider entries are exactly its subscriptions no cancellation ended: the current one and one per activation that replaced a current one |
| Billing.CancellationIsCompleteIff | app/billing/service.py:92-129 | a tenant that has cancelled has no active provider entry left if and only if no activation replaced a current subscription |
| Billing.UpgradeThenCancelLeavesOneActive | app/billing/service.py:92-129 | two activations and a cancellation leave no subscription, the free plan, and one active provider entry |
| Billing.FirstInvoice | app/billing/service.py:133-148 | the first invoice of a new subscription bills the plan's price, in figures |
| Billing.CancellableUnlessCancelled | app/billing/service.py:202-217 | a known subscription can be cancelled and invoiced in every status but cancelled, and its plan is enforced only while it is active |
| Billing.DanglingRowIsRefused | app/billing/service.py:116-140 | a row without a provider subscription, or with one the provider does not know, is refused with that error |
| UsageLedger.UsageRepository.Find | app/saas/repository.py:288-295 | finds the record of a key, or shows there is none |
| UsageLedger.UsageRepository.GetOrCreate | app/saas/repository.py:280-304 | returns the key's only record, inserting a zero one if needed; a missing tenant is refused |
| UsageLedger.UsageRepository.IncrementUsage | app/saas/repository.py:306-329 | afterwards each record holds, in all five counters, the sum of its key's logged deltas |
| UsageLedger.UsageRepository.MonthlyRequests | app/billing/quota.py:54-62 | the summed records equal the requests logged for the tenant and period over all projects |
| UsageLedger.TotalsAreSums | app/saas/repository.py:318-329 | each of the five counters is the sum of its own logged deltas |
| UsageLedger.RecordsAccountForTheLog | app/billing/quota.py:54-62 | distinct records that cover the log account for every logged request once |
| Quota.QuotaEnforcer.CheckApiRequest | app/billing/quota.py:64-83 | the verdict is decided by the billing log's plan and the usage log's count: refused from 1000, 50000 or 500000 requests on, never on the largest plan |
| AgentReply.FindActionIsThePattern | app/agent/runtime.py:32-34 | the scanner finds an action exactly when the pattern matches somewhere, and then the leftmost match with the shortest object |
| AgentReply.PrintedActionIsCapturedIff | app/agent/runtime.py:32-34 | an object printed after ACTION: is captured up to its first closing brace at a line end, so whole if and only if no line inside it ends in one |
| AgentReply.OneLineObjectIsWhole | app/agent/runtime.py:32-34 | an object on one line is never cut, whatever it contains |
| AgentReply.PrintedActionIsExecuted | app/agent/runtime.py:60-78 | a one-line object after the first ACTION: is the tool call, even if it or the rest contains ANSWER:, unless an ANSWER: precedes it |
| AgentReply.PrintedActionDecides | app/agent/runtime.py:60-78 | in a reply without ANSWER: the captured part of a printed action is the tool call if it decodes, otherwise the whole reply is the answer |
| AgentReply.ReplyWithoutAnswer | app/agent/runtime.py:60-78 | a reply without ANSWER: is itself the answer if and only if its first action, if it has any, does not decode; otherwise that action is the tool call |
| AgentReply.PrettyPrintedCallIsCutShort | app/agent/runtime.py:60-78 | a valid call printed over several lines is captured only up to its params, and unless that part decodes the user is given the raw reply |
| AgentReply.PrintedAnswerIsReturnedIff | app/agent/runtime.py:60-78 | the line after the first ANSWER: is the answer if and only if the reply's first action does not both come before it and decode; otherwise that action is the tool call |
| AgentReply.EitherCaseMatches | app/agent/runtime.py:32-37 | of the ASCII characters exactly the two cases of a letter match it |
| AgentRuntime.Backend.Chat | app/agent/runtime.py:98 | the model's answer to a prompt, which is kept |
| AgentRuntime.RunTurn | app/agent/runtime.py:82-196 | the result is that of a turn, and exactly that turn's prompts were sent and its tool calls requested, each once and in order |
| AgentRuntime.TranscriptFollowsTheRecords | app/agent/runtime.py:93-196 | on every exit the transcript is the initial messages, for each record in order the reply naming its tool and the rendering of its outcome (a success exactly when the tool exists, did not raise and said so), and the limit message if forced; the model was shown each prefix once and the whole last, so at most limit + 1 prompts |
| AgentRuntime.TurnEndsAs | app/agent/runtime.py:98-196 | where the answer of a turn comes from on every exit, and the fixed texts used when the model is unavailable |
| AgentRuntime.TurnIsDetermined | app/agent/runtime.py:93-196 | that description leaves one possible turn for given model and tools |
| AgentRuntime.IterationsCountToolCallsIff | app/agent/runtime.py:102-195 | iterations are the tool calls plus one for an answer in the loop, exactly when the limit is not negative |
| ConversationMemory.Memory.AddMessage | app/agent/memory.py:34-61 | the store grows by the message |
| ConversationMemory.Memory.GetMessages | app/agent/memory.py:63-93 | the reverse loop keeps a window of the history |
| ConversationMemory.Memory.ToLlmMessages | app/agent/memory.py:95-110 | the window as chat messages, with no tool role |
| ConversationMemory.WindowIsTheLongestFittingSuffix | app/agent/memory.py:86-93 | the text of a suffix fits the budget if and only if the suffix is no longer than the window |
| ConversationMemory.NewestComesLast | app/agent/memory.py:73-81 | a message stamped later than all others comes last in every answer |
| ConversationMemory.AlwaysLastIffStrictlyNewest | app/db/models/agent_message.py:38-42 | coming last in every answer the database may give is exactly being strictly newest |
| ConversationMemory.HistoryOrderIsDeterminedIff | app/agent/memory.py:68-81 | the history is read back in stored order whatever the database answers if and only if every message carries a later stamp than each message before it or is an identical copy of it |
| AgentOrchestrator.RunInSession | app/agent/orchestrator.py:104-142 | the user message is stored before the history is read, the turn runs on it, then tool results and answer are stored in order |
| AgentOrchestrator.TurnStores | app/agent/orchestrator.py:114-135 | a turn stores the question, a rendering without data of every tool-call record in order, and the answer |
| AgentOrchestrator.HistoryIsTurnByTurnIff | app/agent/memory.py:73-81 | after any run of turns stamped one after another, the possible answers to the history query are exactly the turns in order, each turn's messages in any order |
| AgentOrchestrator.AnswerMayPrecedeItsQuestion | app/agent/memory.py:68-81 | after any run of turns and for each of them, some answer shows the assistant's message before the question |
| AgentOrchestrator.ChronologicalIffNoTurn | app/agent/memory.py:68-81 | stored order is the only order a session can be read back in if and only if it has no turn |
| AgentOrchestrator.UserMessageIsShownLast | app/agent/orchestrator.py:104-121 | after any run of turns whose session's stamps increase, the first prompt of the next turn is the system prompt, history without tool roles and the request's message, followed by nothing unless no round is allowed |
| OrderCancellation.OrderTable.ExecuteCancelOrder | app/pathways/write/service.py:48-131 | the first failing check, lookup or MFA call decides, a failed commit is rolled back, and success changes one order's status and timestamp |
| OrderCancellation.GrantedIff | app/pathways/write/service.py:31-110 | a request is granted if and only if the caller is known, the order is its own, pending or confirmed and in time, MFA verifies and the database works |
| OrderCancellation.RefusedBecause | app/pathways/write/service.py:31-131 | each error is returned under exactly its circumstances |
| OrderCancellation.OrdersAreCancelledAtMostOnce | app/pathways/write/service.py:60-131 | over any run each order is cancelled at most once, from pending or confirmed, and otherwise unchanged |
| OrderCancellation.OnlyTheOwnersOrderChanges | app/pathways/write/service.py:68-80 | a call changes only an order of its caller in the caller's tenant |

## Left out

- SQL text: parsing and printing are not modelled, so nothing is said about how an OR operand under the injected AND is printed; joins, aggregates and subqueries count only as nodes that may contain a user_id column.
- Column names are compared with ASCII lower-casing; no other character lower-cases into a letter of user_id.
- Python's int() on a LIMIT operand is represented by its outcome, an integer or none.
- Templates: str() of lists and dicts is a parameter.
- WorkflowEngine: exceptions outside the two caught kinds, unparseable JSON, names, types and timestamps of records, and metrics; back-off is over the reals.
- RateLimiter: IP hashing and the client's connection set-up. Redis itself is taken to keep a key through the millisecond of its expiry time and to round TTL replies to the nearest second.
- JwtValidation: HMAC and PyJWT internals; a signature verifies under a key exactly when the token was signed with it. Clock leeway is zero.
- KeyRotation: tokens of keys older than the previous key the service starts with.
- VectorSearch: floating point and the pgvector query; the norm is any non-negative function squaring to the sum of squares, and top_k is a natural number (requests allow 1 to 20).
- Billing: rows are values in a table rather than shared objects, ids are fresh numbers, statuses and plans are typed (so the fallback for an unknown plan string cannot occur), webhooks and the Stripe provider are not modelled.
- UsageLedger: concurrent increments; each call is one atomic step.
- Quota: feature and project limits, each settled by one comparison.
- AgentReply: JSON decoding of a captured object is a parameter.
- AgentRuntime: tool-result rendering and the wording of an unknown-tool error are parameters.
- ConversationMemory: the database's answer is a parameter, any ordering by creation time; message ids and tool columns are not modelled.
- AgentOrchestrator: concurrent turns in one session; runs assume a session's turns are stamped one after another.
- OrderCancellation: audit records and the MFA provider's internals; its verdict or exception is a parameter.
- HTTP routes, middleware, permissions, intent rules, document extraction, providers, metrics, migrations and the admin application are wrappers around these kernels.

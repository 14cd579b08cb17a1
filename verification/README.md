# Verified models of ToolHive's authentication and audit core

This project models, in Dafny, the parts of ToolHive whose behaviour is hardest to see from the code, and
proves what they promise.

- **The monitored token source** (`pkg/auth/monitored_token_source.go`). One background monitor and any
  number of request-path `Token()` callers share the AuthRetrying window, a stop channel that is closed once,
  and two once gates; status writes happen outside the mutex. `RetryMachine` is the transition system, with a
  program counter for each thread and separate steps for the gate check, the field write, the close, the
  clear, each status write and the warning. `RetrySafety`, `RetryConservation`, `RetryFinality`,
  `RetryCeiling`, `RetryStop`, `RetryDecisions` and `RetryProvenance` prove what every interleaving keeps. `MonitoredSource` is
  the object itself, with its methods and its monitor loop; `SequentialLaws` holds the laws of calls that do
  not overlap, and `RetryRefinement` shows that each such call is a run of the transition system.
  `StatusLanguage` is the language of statuses both views share.
- **Token-endpoint errors** (`TokenErrors`): Go error trees, the transient and permanent classifiers, and how
  wrapping preserves their verdicts.
- **Lazy discovery and key lookup** (`pkg/auth/token.go`). `JwksMachine` and `JwksSafety` treat the
  interleavings of `ValidateToken` calls over two mutexes and a URL that the key path reads without a lock;
  `TokenValidator` is the object, with its histories of calls and its refinement to the machine.
- **The WWW-Authenticate challenge** (`Challenge`): printer, parser and round trip, with the exact set of
  values for which the output is within the grammar.
- **Audit** (`pkg/audit/auditor.go`, `pkg/auth/context.go`). `ResponseCapture` and `StreamOpen` are the two
  response writers, `ErrorDetection` says which errors in a response are reported, `IdentityFlow` is the
  mutable identity holder, `Delegation` the two-stage bounded parse of nested `act` claims.

Outcomes of the network, the token source, the key cache and the clock are parameters or part of an event.
A step of a machine names the thread and the answer the environment gives; theorems about runs quantify over
all sequences of such events. `Runs` and `Options` hold what the modules share.

## Where the code and its comments differ

The model follows the code in each case.

- A token without expiry is meant to leave no window without a monitor (monitored_token_source.go:512-520).
  The window is cleared before the channel is closed, so a caller can enter in between; the window then stays
  open for good. `ZeroExpiryStop` gives the exact condition, `ZeroExpiryAbandons` a run, `AbandonedForever`
  the consequence.
- `isPermanentTokenEndpointError` is described as the strict inverse of the transient rule on the
  `RetrieveError` branch (monitored_token_source.go:658-660). `InverseOnRetrieve` says exactly when it is,
  `NeitherVerdictExactly` which errors get no verdict; `NoResponseIsNeither` and `CancelledAnswerIsNeither`
  give inputs of both classes.
- A 408 answer is listed among those that are not permanent (monitored_token_source.go:661-664). The code has
  no rule for it, so with an error code it is permanent like any other client error: `EndpointVerdicts`.
- Discovery is described as retried on each call until it succeeds (token.go:796-798). That holds exactly
  without a local key provider: `WhichDiscoveryCounts`, `FailureIsRetried`, `LatchIsPermanent`.
- The capture buffer drops a write that does not fit but may still take a later, smaller one
  (auditor.go:131-136), so the recorded response can have a gap, and error detection then reads across it.
  `CaptureIsPrefixExactly` and `ModesAgreeExactly` give the exact conditions, on the lengths of the writes;
  `CaptureGap` and `CaptureHidesError` give inputs.
- A small prefix of a response is called sufficient to find a JSON-RPC error (auditor.go:102-105). The parser
  reads complete values only (pkg/mcp/response.go:48-51), so an error whose object ends beyond the prefix is
  missed: `ErrorIsReportedExactly` gives the condition, `LongErrorIsMissed` inputs.
- The comment on late status writes names AuthRetrying after Unauthenticated (monitored_token_source.go:867-870).
  AuthRetrying after Running happens too and needs no mark: `StaleAfterRecovery` is a run, `LogTellsExactly` and
  `InOrderExactly` say when the log can be trusted, `DecisionLanguage` what holds always.
- A terminating slash of the resource path is said to be removed (token.go:1162); only a path that is nothing
  but that slash loses it: `SlashStaysExactly`.
- Nested auditors share one identity holder (auditor.go:183, 191-194), so an inner auditor can report an
  identity attached on a context it does not derive from. `OwnIdentityExactly` says for which chains none
  does, `InnerReportsSibling` gives one where it happens.

## Model

| member | source | states |
|---|---|---|
| `TokenErrors.PermanentNeverTransient` | pkg/auth/monitored_token_source.go:610-722 | no error is classified both permanent and transient, and a cancelled or timed-out context is never transient |
| `TokenErrors.FindIsFirst` | pkg/auth/monitored_token_source.go:610-649 | the search through an error tree finds the first node of a kind, each node before its causes and the first cause before the second |
| `TokenErrors.ContextExactly` | pkg/auth/monitored_token_source.go:611-614 | a context error is one with a cancellation or an exceeded deadline anywhere in its tree |
| `TokenErrors.TransientRules` | pkg/auth/monitored_token_source.go:610-649 | for every error tree: an ended context is not transient; else an answer decides by status and code; else an unreadable answer or a name lookup anywhere in the tree is transient; else the first failed operation decides by an operating-system error in it; else the first network error by its timeout |
| `TokenErrors.InverseOnRetrieve` | pkg/auth/monitored_token_source.go:651-674 | on a token-endpoint error, permanent is the negation of transient if and only if a response is attached and the error is not a context error around a transient response |
| `TokenErrors.NeitherVerdictExactly` | pkg/auth/monitored_token_source.go:651-696 | a token-endpoint error gets neither verdict if and only if it has no response or is a context error around a transient response |
| `TokenErrors.NoResponseIsNeither` | pkg/auth/monitored_token_source.go:668-696 | every error whose first endpoint node has no response gets neither verdict |
| `TokenErrors.CancelledAnswerIsNeither` | pkg/auth/monitored_token_source.go:610-618 | a cancelled wait joined with a transient answer gets neither verdict, though the answer alone is transient |
| `TokenErrors.EndpointVerdicts` | pkg/auth/monitored_token_source.go:676-722 | under any wrapping, 5xx, 429 and answers without an error code are transient and not permanent; every other answer is permanent and not transient |
| `TokenErrors.NetworkVerdicts` | pkg/auth/monitored_token_source.go:591-649 | under any wrapping, name lookups, timeouts and failed operations with an operating-system error anywhere in their tree of causes are transient; other network errors and operations are not, unless some text spells a parse-error marker |
| `TokenErrors.ErrorfVerdicts` | pkg/auth/monitored_token_source.go:610-737 | one `%w` wrapper of any text keeps permanence and context errors both ways and keeps transience; it changes a verdict if and only if no earlier rule decides and the texts together spell a parse-error marker |
| `TokenErrors.RewrapKeepsClass` | pkg/auth/monitored_token_source.go:610-737 | so does any number of wrappers, and if none of their texts can start a marker every verdict is kept in both directions |
| `TokenErrors.FastFailKeepsClass` | pkg/auth/monitored_token_source.go:828-845 | the error handed to a fast-failed caller keeps permanence and transience for any stamp, and every verdict for a stamp that cannot start a marker |
| `TokenErrors.FastFailSays` | pkg/auth/monitored_token_source.go:828-845 | the text of a fast failure, and that it unwraps to the cached error |
| `RetrySafety.StepKeepsSafe` | pkg/auth/monitored_token_source.go:392-579 | each step of each thread keeps mutual exclusion, the coupling of the window fields, the once gates and the justification of every mark |
| `RetrySafety.ReachableIsSafe` | pkg/auth/monitored_token_source.go:294-306 | these hold in every state of every interleaving |
| `RetryConservation.StatusWritesConserved` | pkg/auth/monitored_token_source.go:772-934 | for each status, writes done plus writes owed equal the decisions taken; windows entered equal windows exited, windows a mark cleared, and the open one; permanent verdicts in the log equal the marks that have passed the warning's gate and those about to |
| `RetryFinality.ClearIsFinal` | pkg/auth/monitored_token_source.go:752-785 | after a mark has cleared the window under the mutex, nothing opens it again in any continuation, the threads owing AuthRetrying or Running writes only become fewer, and each such write that lands pays off one of them |
| `RetryFinality.OnceGates` | pkg/auth/monitored_token_source.go:280-286 | the channel is closed at most once; the remediation warning is emitted once if there is a client id and the log holds more permanent verdicts than threads on their way to the warning, otherwise never; with no thread on its way, once exactly if the log holds a permanent verdict |
| `RetryFinality.FastFailIsTransient` | pkg/auth/monitored_token_source.go:828-845 | in every reachable state the cached error exists exactly while the window is open, and what a caller receives is transient and not permanent |
| `RetryFinality.OnlyTheCeilingGivesUp` | pkg/auth/monitored_token_source.go:402-441 | if all failures are transient or the end of the context in the short retry, Unauthenticated is written at most once, without a warning, and only for an age that was seen: at some point of the run the window was open since the recorded start while the clock stood at the recorded time, more than the ceiling later |
| `RetryProvenance.RefusalsAreEarned` | pkg/auth/monitored_token_source.go:402-441 | in every interleaving each Unauthenticated status that is not for age carries the verdict on an error that some event of the run brought, not transient and not the end of the short retry's context |
| `RetryProvenance.CachedIsLatest` | pkg/auth/monitored_token_source.go:871-885 | over any run the cached error, if there is one, is the one entered last |
| `RetryCeiling.CeilingBound` | pkg/auth/monitored_token_source.go:535-546 | at most ceiling / tick + 1 checks of one window stay silent, none of them on a window older than the ceiling |
| `RetryCeiling.WindowKeepsStart` | pkg/auth/monitored_token_source.go:871-885 | across any run without a new entry, a window that is open at the end has the start time it had |
| `RetryStop.ExitLeavesStopped` | pkg/auth/monitored_token_source.go:453-472 | the step that ends the monitor leaves the channel closed if and only if it was closed or the step is neither the end of the monitoring context nor a short retry that fails with a context error |
| `RetryStop.ExitWithoutStop` | pkg/auth/monitored_token_source.go:565-567 | a run in which a cancelled refresh ends the monitor with the channel open |
| `RetryStop.ZeroExpiryStop` | pkg/auth/monitored_token_source.go:511-522 | after the close for a token without expiry, and as long as no mark clears, the window ends up open if and only if it was open or the mutex was held at the instant of the close |
| `RetryStop.ZeroExpiryAbandons` | pkg/auth/monitored_token_source.go:511-522 | for every transient error there is a run that leaves an open window with the monitor gone and no call in progress |
| `RetryStop.AbandonedForever` | pkg/auth/monitored_token_source.go:393-395 | from such a state, every continuation leaves window, log and channel as they are |
| `RetryStop.LateWrite` | pkg/auth/monitored_token_source.go:864-870 | a run whose log shows AuthRetrying after Unauthenticated while the window is closed |
| `RetryStop.StaleAfterRecovery` | pkg/auth/monitored_token_source.go:886-934 | a run without any mark whose log shows AuthRetrying after Running while the window is closed, the monitor waits and no call is in progress |
| `RetryDecisions.DecisionLanguage` | pkg/auth/monitored_token_source.go:392-579 | in every interleaving the statuses decided under the mutex lie in (AuthRetrying Running)* AuthRetrying? Unauthenticated*, and the last one tells whether the window is open |
| `RetryDecisions.InOrderExactly` | pkg/auth/monitored_token_source.go:858-934 | in every run that ends with no write owed, the writes landed in the order of the decisions if and only if each was made by the thread that had owed one longest |
| `RetryDecisions.InOrderLog` | pkg/auth/monitored_token_source.go:858-934 | then the log is the sequence of decisions, lies in the language and tells the window |
| `RetryDecisions.SerialIsInOrder` | pkg/auth/monitored_token_source.go:858-934 | that is so in particular when nothing is decided while a write is owed |
| `RetryDecisions.LogTellsExactly` | pkg/auth/monitored_token_source.go:858-934 | in every run that ends with no write owed, the last status in the log tells whether the window is open if and only if the write that landed last agreed with the window at that moment |
| `RetryDecisions.StaysUntilDecision` | pkg/auth/monitored_token_source.go:858-934 | with no write owed, log and window stay as they are until something is decided |
| `RetryRefinement.MarkRun` | pkg/auth/monitored_token_source.go:772-814 | the steps of a mark, uninterrupted, have the effect of the object's method |
| `RetryRefinement.EnterRun` | pkg/auth/monitored_token_source.go:871-908 | likewise for entering the window |
| `RetryRefinement.GrantRun` | pkg/auth/monitored_token_source.go:510-525 | likewise for a granted token on the monitor |
| `RetryRefinement.TokenCallIsARun` | pkg/auth/monitored_token_source.go:392-442 | a `Token()` call without interference is a run of the machine with the sequential effect |
| `RetryRefinement.TickIsARun` | pkg/auth/monitored_token_source.go:504-579 | so is a tick, and the loop waits again exactly as long as `onTick` asks |
| `RetryRefinement.LoopIsARun` | pkg/auth/monitored_token_source.go:453-486 | so is the whole monitor loop over any wake-ups, with the same memory, timer and exit |
| `RetryMachine.UntilExpiry` | pkg/auth/monitored_token_source.go:581-589 | the wait is the shortest that reaches the expiry and is at least one second |
| `MonitoredSource.MonitoredTokenSource.constructor` | pkg/auth/monitored_token_source.go:335-355 | the object starts outside the window with an empty log and the timer armed for a millisecond |
| `MonitoredSource.MonitoredTokenSource.StopMonitoringOnce` | pkg/auth/monitored_token_source.go:746-750 | only the channel is closed |
| `MonitoredSource.MonitoredTokenSource.MarkAsUnauthenticated` | pkg/auth/monitored_token_source.go:772-814 | channel closed, window cleared, one Unauthenticated write, and the warning when permanent, identified and not yet given |
| `MonitoredSource.MonitoredTokenSource.EnterAuthRetrying` | pkg/auth/monitored_token_source.go:871-908 | nothing once stopped; otherwise the error is cached and only a first entry sets the start and writes the status |
| `MonitoredSource.MonitoredTokenSource.ExitAuthRetrying` | pkg/auth/monitored_token_source.go:913-934 | an open window is cleared with one Running write, otherwise nothing changes |
| `MonitoredSource.MonitoredTokenSource.FastFailIfAuthRetrying` | pkg/auth/monitored_token_source.go:828-845 | an error exactly inside the window |
| `MonitoredSource.MonitoredTokenSource.CeilingExceeded` | pkg/auth/monitored_token_source.go:850-857 | true exactly when a window is open and older than the ceiling |
| `MonitoredSource.MonitoredTokenSource.Token` | pkg/auth/monitored_token_source.go:392-442 | the new state for every outcome; no error exactly when a token is returned; inside the window an error that wraps the cached one, outside it the one the call ended with; and a status only for the error returned |
| `MonitoredSource.MonitoredTokenSource.Grant` | pkg/auth/monitored_token_source.go:510-525 | recovery, and the stop for a token without expiry |
| `MonitoredSource.MonitoredTokenSource.OnTick` | pkg/auth/monitored_token_source.go:504-589 | the new state and the next delay for every outcome |
| `MonitoredSource.MonitoredTokenSource.MonitorLoop` | pkg/auth/monitored_token_source.go:453-486 | the loop over any wake-ups leaves the state, the timer and the exit that handling them in turn leaves |
| `SequentialLaws.StatusLogLanguage` | pkg/auth/monitored_token_source.go:392-579 | for every sequence of non-overlapping calls the status log lies in (AuthRetrying Running)* AuthRetrying? Unauthenticated*, and its last entry tells whether the window is open |
| `SequentialLaws.CallEffect` | pkg/auth/monitored_token_source.go:392-442 | what a request-path call changes, by the answer that settles it: nothing for a token, a cancelled retry or inside the window; a mark for a refusal; an opened window with the error cached for a transient failure |
| `SequentialLaws.GrantedTick` | pkg/auth/monitored_token_source.go:510-525 | a token on a tick closes the window with one Running write and sets the wait for its expiry, or stops monitoring without one |
| `SequentialLaws.RefusedTick` | pkg/auth/monitored_token_source.go:526-533 | a refusal on a tick gives the workload up with the endpoint's verdict and ends monitoring |
| `SequentialLaws.CancelledTick` | pkg/auth/monitored_token_source.go:565-567 | the end of the context during the short retry changes nothing and ends monitoring |
| `SequentialLaws.TransientTick` | pkg/auth/monitored_token_source.go:535-579 | a lasting failure gives up a window older than the ceiling; otherwise the window keeps its start or opens now, the newest error is cached, and the next tick comes after one interval |
| `SequentialLaws.LoopHeeds` | pkg/auth/monitored_token_source.go:457-462 | the end of the context or a closed stop channel among the wake-ups ends the loop |
| `SequentialLaws.LeavesExactly` | pkg/auth/monitored_token_source.go:453-472 | the loop is left if and only if some wake-up, after those before it, is the end of the context, a closed stop channel, or a due tick that asks for no delay |
| `SequentialLaws.WindowEnds` | pkg/auth/monitored_token_source.go:535-546 | inside a window, a lasting outage ends with exactly one write, for a window older than the ceiling |
| `SequentialLaws.OutageIsGivenUp` | pkg/auth/monitored_token_source.go:453-546 | however wake-ups fall, an outage reaching past the ceiling and one tick has made the monitor leave after exactly AuthRetrying and Unauthenticated |
| `JwksSafety.StepKeepsSafe` | pkg/auth/token.go:727-873 | each step of each call keeps the lock discipline, the single URL write and registration before lookup, and disturbs the other calls only within a stated guarantee |
| `JwksSafety.ConstructorAccepts` | pkg/auth/token.go:590-627 | a configuration is accepted if and only if there is a URL, an issuer whose discovery is not skipped, or, with neither, a local key provider |
| `JwksSafety.UrlIsFilledOnce` | pkg/auth/token.go:856-859 | over any run the URL changes exactly by its one write, from empty to non-empty, and stays registered once it is |
| `JwksSafety.LookupIsRegistered` | pkg/auth/token.go:948-960 | a lookup always uses a registered, non-empty URL although the flag may have been reset |
| `JwksSafety.KeyPathHasUrl` | pkg/auth/token.go:938-946 | without a local key provider the key path never sees an empty URL |
| `JwksSafety.NoDeadlock` | pkg/auth/token.go:860-865 | whenever a call is in progress, some call in progress can go on |
| `JwksSafety.EveryStepCounts` | pkg/auth/token.go:1090-1110 | each step of a call brings it closer to its end |
| `JwksSafety.CallIsBounded` | pkg/auth/token.go:1090-1121 | in any run a call takes at most 18 steps, however other calls are interleaved |
| `JwksSafety.FailureIsRetried` | pkg/auth/token.go:845-854 | without a provider, a call that finds the URL missing starts a discovery of its own |
| `JwksSafety.LatchIsPermanent` | pkg/auth/token.go:1096-1105 | a discovery marked as done without a URL needs a provider, and no later call attempts it |
| `JwksSafety.FailureLatches` | pkg/auth/token.go:1096-1105 | with a provider one failed discovery reaches that state |
| `TokenValidator.Validator.constructor` | pkg/auth/token.go:686-703 | the validator starts with the configured URL, both flags down and nothing registered |
| `TokenValidator.Validator.EnsureOIDCDiscovered` | pkg/auth/token.go:799-873 | fails exactly when a discovery is due and finds nothing, and then changes nothing |
| `TokenValidator.Validator.EnsureJWKSRegistered` | pkg/auth/token.go:727-772 | succeeds exactly when the URL is registered afterwards |
| `TokenValidator.Validator.GetKeyFromLocalProvider` | pkg/auth/token.go:881-922 | refuses a bad header; finds a key exactly when the provider has one with the token's id, and then the first such key; otherwise falls back |
| `TokenValidator.LocalKeyIsFirst` | pkg/auth/token.go:897-922 | the same of the specification, with the exact condition for a refused header |
| `TokenValidator.LocalKeyFirst` | pkg/auth/token.go:926-935 | a local key settles the matter before URL and registration, and nothing changes |
| `TokenValidator.KeyVerdicts` | pkg/auth/token.go:925-979 | each verdict of the key path with its exact condition; a lookup uses the registered URL and the token's id; registration comes before the header test |
| `TokenValidator.CallVerdicts` | pkg/auth/token.go:1090-1110 | a call ends in discovery exactly when one is due, finds nothing and there is no provider, and what it leaves for the key path otherwise |
| `TokenValidator.Validator.GetKeyFromJWKS` | pkg/auth/token.go:925-979 | the verdict and the new state for every combination of answers |
| `TokenValidator.Validator.ValidateToken` | pkg/auth/token.go:1090-1121 | the same for a whole call, with the fallback that marks discovery as done |
| `TokenValidator.WhichDiscoveryCounts` | pkg/auth/token.go:791-798 | over any history the URL is the first one found, or, with a provider, the one of the first call only |
| `TokenValidator.ValidateIsARun` | pkg/auth/token.go:1090-1121 | a call without interference is a run of the machine with the sequential effect and reaches the lookup exactly when the method looks up |
| `Challenge.EscapeIsPerChar` | pkg/auth/utils.go:98-102 | the two replacement passes equal one escape per character |
| `Challenge.QuotedRoundTrip` | pkg/auth/utils.go:98-102 | unescaping inverts the escape and stops exactly at the closing quote; the strict reading fails exactly on control characters |
| `Challenge.BuildWWWAuthenticate` | pkg/auth/token.go:1148-1190 | the header built part by part is the printed parameter list; read back it carries the code as error, the description as error_description if both are there, the issuer as realm, the scopes joined by spaces and the metadata URL |
| `Challenge.ChallengeRoundTrip` | pkg/auth/token.go:1144-1190 | for arbitrary strings, parsing gives back the ordered names and original values; the header is within the strict grammar if and only if no value holds a control character |
| `Challenge.ChallengeIsInjective` | pkg/auth/token.go:1144-1190 | equal headers mean equal parameters |
| `Challenge.ErrorValues` | pkg/auth/token.go:1181-1188 | error and error_description have the code and the description as values, exactly when these are given |
| `Challenge.ValidatorValues` | pkg/auth/token.go:1151-1179 | realm comes first with the issuer; scope and resource_metadata have the configured values, exactly when configured |
| `Challenge.ParamsOrdered` | pkg/auth/token.go:1148-1190 | the parameters come in one fixed order and no name comes twice |
| `Challenge.SlashStaysExactly` | pkg/auth/token.go:1162-1172 | the metadata URL ends in a slash if and only if the path does and is longer than that slash |
| `Delegation.ContractCanBeMet` | pkg/auth/context.go:220-231 | the contract assumed of the external parser has a model |
| `Delegation.CopyClaims` | pkg/auth/context.go:243-246 | the key-by-key copy is the map, in whatever order the keys come |
| `Delegation.DeleteKeys` | pkg/auth/context.go:247-249 | deleting any list of keys one by one removes exactly those keys |
| `Delegation.FilterInternalClaims` | pkg/auth/context.go:236-251 | the copy holds every claim except the token session id |
| `Delegation.MakeIdentity` | pkg/auth/context.go:189-234 | the identity made step by step with the filtered claims |
| `Delegation.IdentityHolds` | pkg/auth/context.go:189-234 | an identity is made exactly for a non-empty subject; it carries the subject, every claim but the token session id, and the chain parsed ten deep unless that has neither hops nor a defect |
| `Delegation.TwoStagesAreOne` | pkg/audit/auditor.go:550-571 | for every nesting and every depth, extraction from an identity parsed at depth 10 equals a direct parse at the wanted depth |
| `Delegation.NoClaimNoChain` | pkg/auth/context.go:226-231 | an absent or null claim yields no chain at any depth |
| `Delegation.LateParse` | pkg/audit/auditor.go:560-566 | an identity with the claim but no parsed chain is parsed at the wanted depth, for any parser; an answer without hops or defect yields nothing |
| `Delegation.NeverNarrowed` | pkg/audit/auditor.go:543-571 | for any claim and any parser a chain with hops or a defect is kept and not cut below the configured depth; the raw claim has a say only when a truncated chain is to widen, and exactly when it then yields no fewer hops |
| `Delegation.RebindConserves` | pkg/audit/auditor.go:573-589 | retained plus omitted hops are conserved, the result is a prefix within the depth with the current actor first, marked truncated exactly when something was cut |
| `Delegation.RebindComposes` | pkg/audit/auditor.go:573-589 | rebinding twice is rebinding once at the smaller depth, in either order |
| `ResponseCapture.ResponseWriter.constructor` | pkg/audit/auditor.go:247-263 | the buffers present for each configuration |
| `ResponseCapture.ResponseWriter.WriteHeader` | pkg/audit/auditor.go:124-127 | the status is recorded and passed on |
| `ResponseCapture.ResponseWriter.Write` | pkg/audit/auditor.go:129-147 | what one write adds to each buffer and forwards |
| `ResponseCapture.ResponseWriter.DetectionPrefix` | pkg/audit/auditor.go:448-457 | which buffer is inspected and how much of it |
| `ResponseCapture.ResponseWriter.DetectApplicationError` | pkg/audit/auditor.go:448-462 | the bytes handed to the JSON-RPC parser |
| `ResponseCapture.ResponseWriter.SettleOutcome` | pkg/audit/auditor.go:281-300 | the body is looked at only when detection is on and status and denial mark mean success; an error found there replaces the outcome |
| `ResponseCapture.Handle` | pkg/audit/auditor.go:124-147 | all operations of a handler: each is passed on as it came, the buffers hold the folded captures, the status is the one set last |
| `ResponseCapture.ServeResponse` | pkg/audit/auditor.go:247-300 | for every sequence of operations, configuration, denial mark and parser: what the client receives, what the parser is handed and which outcome is reported |
| `ResponseCapture.LastStatusIsLast` | pkg/audit/auditor.go:124-127 | the recorded status is that of the last header written, else the default |
| `ResponseCapture.OutcomeClasses` | pkg/audit/auditor.go:281-290 | which statuses stand for denial, failure, error and success, each exactly, with the denial mark above them |
| `ResponseCapture.StatusStands` | pkg/audit/auditor.go:292-300 | with detection off, a denial mark or an error status nothing is handed to the parser and the status decides |
| `ResponseCapture.DetectionIsPrefix` | pkg/audit/auditor.go:137-145 | the detection buffer is the first 512 bytes of the response however it is cut |
| `ResponseCapture.CaptureIsWhole` | pkg/audit/auditor.go:130-136 | the capture never exceeds the limit and is the whole response exactly when that fits |
| `ResponseCapture.CaptureIsPrefixExactly` | pkg/audit/auditor.go:130-136 | the capture is a prefix whatever the bytes exactly when, after the first write that does not fit, every later write is empty or does not fit either |
| `ResponseCapture.CaptureGap` | pkg/audit/auditor.go:130-136 | two bytes are dropped and the byte after them is kept |
| `ErrorDetection.AnswersCanBeRead` | pkg/mcp/response.go:39-62 | the contract assumed of the response parser has a model |
| `ErrorDetection.ErrorIsReportedExactly` | pkg/audit/auditor.go:445-462 | an error answer that is recorded whole is reported if and only if it starts with its brace and only blanks lie beyond the first 512 bytes |
| `ErrorDetection.LongErrorIsMissed` | pkg/audit/auditor.go:102-106 | error answers whose last brace lies beyond the prefix, reported as success in either mode |
| `ErrorDetection.ModesAgreeExactly` | pkg/audit/auditor.go:258-300 | for every parser that meets the contract, with and without capture the same outcome is reported whatever the bytes if and only if the status or the denial mark rules success out, the response is shorter than any error, it fits, or the first write that does not fit lies past the detection prefix |
| `ErrorDetection.CaptureHidesError` | pkg/audit/auditor.go:130-136 | every error answer that fits the prefix and not the capture, sent in one write, is reported without capture and taken for a success with it |
| `IdentityFlow.WithIdentity` | pkg/auth/context.go:55-66 | publishes to the holder and derives; nothing for a nil identity |
| `IdentityFlow.EnsureAuditContext` | pkg/audit/auditor.go:184-207 | a fresh empty holder is injected exactly when none is there |
| `IdentityFlow.Serve` | pkg/audit/auditor.go:210-274 | running any nesting on real contexts and holders leaves the events and the holder of the specification |
| `IdentityFlow.HolderReportsLast` | pkg/auth/context.go:41-50 | the holder ends with the identity attached last, on whatever derived context |
| `IdentityFlow.EveryAuditorReports` | pkg/audit/auditor.go:591-603 | every auditor in any nesting reports its context's identity, else the last one attached inside it, else what the shared holder held |
| `IdentityFlow.OwnIdentityExactly` | pkg/audit/auditor.go:177-194 | for every chain, all its auditors report only identities of their own context or attached inside them if and only if no auditor without either comes after an attachment under the same outermost auditor |
| `IdentityFlow.OutermostReports` | pkg/audit/auditor.go:591-603 | the outermost auditor always does |
| `IdentityFlow.InnerReportsSibling` | pkg/audit/auditor.go:177-194 | a nesting in which an inner auditor does not, and which is not self-contained |
| `StreamOpen.StreamOpenWriter.constructor` | pkg/audit/auditor.go:219-220 | nothing logged yet |
| `StreamOpen.StreamOpenWriter.LogOnce` | pkg/audit/auditor.go:787-795 | the first call logs, with the identity known then, and no later one does |
| `StreamOpen.StreamOpenWriter.DoWriteHeader` | pkg/audit/auditor.go:754-761 | an informational status does not log, any other does unless one was logged |
| `StreamOpen.StreamOpenWriter.DoWrite` | pkg/audit/auditor.go:763-767 | a write counts as status 200 |
| `StreamOpen.StreamOpenWriter.DoFlush` | pkg/audit/auditor.go:774-779 | so does a flush |
| `StreamOpen.ServeStream` | pkg/audit/auditor.go:214-229 | for every sequence of operations, up to the return or the panic that ends it, exactly one event with the status of the first committing operation reached, else 200, and the identity known at that moment; a panic goes on to the caller |
| `StreamOpen.ConnectionStatus` | pkg/audit/auditor.go:754-779 | the reported status is that of the first final WriteHeader, or 200 for a write or flush before it or for none; informational statuses count for nothing; the identity is the context's, else the last attached by then, else the holder's |
| `StreamOpen.LastIdentityIsLast` | pkg/audit/auditor.go:591-603 | the identity attached last is the one after which none is attached |

## Left out

- Name, email, token and token type of an identity: an identity is its subject, its claims and its chain.
- HTTP calls, JSON decoding, JWT parsing and signatures, URL parsing and the inside of the key cache: each is an answer of the environment. A registration that reports success, not ready yet or already there counts as registered.
- `backoff.Retry` and `singleflight`: a refresh is one step that ends in a token or in any error.
- `coreaudit.ParseDelegationChain` is not part of this model; `MeetsContract` states what is assumed of it for well-formed nesting, and malformed claims are outside the equality theorem.
- Real clocks, time formatting and environment variables: time is a natural number in nanoseconds, the stamp in an error text is any text, the two durations are positive constants.
- The Go memory model: an unlocked read or write of the JWKS URL is one step.
- Starting the background monitor twice: there is one monitor thread.
- `validateClaims`, the introspection providers and the acceptance of claims: each is settled by reading one branch.
- A response writer whose underlying write fails or is short, and negative size limits, which configuration validation refuses.
- The content of audit events (source, target, metadata) and the event-type filter: an event is modelled as handed to the auditor.
- The inside of `mcp.ParseMCPResponse`: what it finds is a parameter of `ServeResponse`, and `ReadsAnswers` states what `ErrorDetection` uses of it. Code and message of the error are not modelled.
- A handler that panics outside a stream open: no event is logged for it.
- The other carriers an auditor injects (backend info, parsed request; the denial mark is a parameter), and a nil identity stored in a context without going through `WithIdentity`.
- Logging, `pkg/authserver`, `pkg/api`, the command-line programs and the workflow auditor.

# Liminal Rail Metro: a verified model

This project models the protocol core of Liminal Rail Metro in Dafny and proves
what its design promises. It covers six components.

* **Durable adaptive learner** (`Bandit`, `ContextPolicy`, `Journal`, `JournalRuns`,
  `DurableLearner`). A UCB1 policy per runtime context, taught by rewards that are first
  appended to a hash-chained journal. Reopening the journal rebuilds the memory after any
  mixture of accepted, duplicate and rejected measurements, crashes between append and
  update, and reopens; the journal head commits to the whole history.
* **Authority over the learner** (`Authority`, `SignedAuthority`, `ChainedLearner`).
  Allow-lists, signed grants, rotations anchored to the journal they close, and the
  learner that runs under a chain of them.
* **Multiplexed stations and admission** (`Bridge`, `Multiplex`, `MultiplexRuns`,
  `AdmissionPool`, `AdmissionPoolRuns`). The mutex sections as a class, and every
  interleaving of callers, reader, timeouts, write failures and Close as a transition
  system over the same step functions; a load-aware pool on top.
* **Policy authority** (`TrustPolicy`, `PolicyManifest`, `PolicyRotation`, `PolicyHead`,
  `PolicyPrefix`, `PolicyGate`). Signed manifests linked by rotations that must announce what they
  weaken, a stored head that resists rollback and forks, and the gate that runs a
  registered handler.
* **Decision plane** (`DecisionPlane`, `DecisionGate`, with `Ranking`). Validation of a
  probability distribution, the routing gate, and the deterministic provider.
* **Mirror proof boundary** (`Metro`, `ProofAuthority`, `ProofEnvelopes`,
  `EvidenceBundles`, `EvidenceCas`) and the two Unicode-escape scanners (`EscapeScan`).

`Common`, `Ordering` and `Signatures` hold the vocabulary they share.

## How the model reads the program

* A SHA-256 hex digest of a document is `Sha256(document)`: injective and never empty.
  The other constructors of `Digest` are what an untrusted document may carry in its
  place. Where the bytes themselves are stored (the mirror store) the digest is taken of
  a text, and each document has a writer and a reader with reading undoing writing.
* A signature scheme is a parameter (`Signatures.Scheme`), so every statement holds for
  all schemes; statements about what signing produces ask that the scheme be lawful.
* Floating-point numbers are exact reals. The exploration bonus of UCB1 is an arbitrary
  function of two positive counts. Tolerances (`10^-9`, `10^-6`) are kept as written.
* Time stamps are parameters. A timeout is a step that may happen at any moment.
* Go maps iterate in an arbitrary order; the loops here pick an arbitrary key.

## Where the code does less than its documentation suggests

* After `Close` has marked a station closed, a later fatal reader error returns early and
  drains nothing, so a caller can wait for a message nobody will send until its own
  deadline (`MultiplexRuns.CloseCanStrandACaller`). The drain is proved for the fatal
  path on an open station. `StoppedReaderLeavesNoOneWaiting` says exactly which waiting
  callers have no message when the reader has stopped, those whose request is still
  pending, and `PendingAfterStopIsStranded` that they never get one.
* `metro.Verify` never compares the route's action id with the packet's, so an envelope can
  be built under a route for another action (`ProofEnvelopes.UnboundRouteBuilds`).
  `ReplayExact` gives the exact condition under which a built envelope replays.
* `VerifyAuthorization` does not recompute the operation descriptor, so an authorization
  with the inputs of one operation and the descriptor of another verifies
  (`PolicyGate.DescriptorIsNotChecked`). `ResolvedIff` gives the two hashes a caller must
  compare to know that a verified authorization was built for its own operation; the
  resolver and the gate always build such ones.
* Two chains that share an accepted policy head share that manifest, the rotation into it
  and the manifest before it (`PolicyHead.SharedHeadSharedEnds`), but what lies earlier can
  be replaced and the store still opens the result (`PolicyPrefix.PrefixCanBeSwapped`).
  `PrefixIffRotationHashes` says exactly when the whole prefix is the same.
* Rotating a chained learner does not close the old one, which may go on learning. Its file
  keeps matching the anchor exactly while nothing is tried that it would have accepted at the
  rotation (`ChainedLearner.GrownJournalMissesAnchor`), and it can always outgrow it by a
  measurement its own grant authorises (`AnchorCanBeOutgrown`).
* The margin test of the decision gate is dead under the default policy. It can stop a valid
  decision exactly under the policies whose minimal margin exceeds twice the confidence
  threshold less one and the tolerance (`DecisionGate.MarginNeverTooSmall`,
  `MarginCanBeTooSmall`).

## Model

| member | source | states |
|---|---|---|
| `Metro.Contains` | internal/metro/metro.go:189-196 | the search finds a target exactly when the list holds it |
| `Metro.VerifiedReceiptPinsResult` | internal/metro/metro.go:148-178 | one receipt verifies for one result, one set of inputs, one action id, one route id and one target, which both packets allow |
| `Metro.IssuedReceiptVerifies` | internal/metro/metro.go:114-146 | a success receipt is issued exactly when the route is bound to the packet and its target allowed, and then verifies |
| `Bridge.UniqueNonEmpty` | internal/lifetrabridge/bridge.go:159-171 | true exactly for lists without an empty or repeated entry |
| `Bridge.DecisionToPacket` | internal/lifetrabridge/bridge.go:88-148 | refuses with the first failing check, and otherwise carries over every field, the receipt link and the context references in order |
| `Bridge.BindsIffAnswers` | internal/lifetrastation/process.go:78-106 | a decision binds exactly when protocol, observation, action and receipt are the request's and it is either a complete ALLOW with a fresh action and distinct targets, or an approval or block that carries no authority and no action |
| `Bridge.BindingSeparatesRequests` | internal/lifetrastation/process.go:78-106 | one decision binds to at most one request |
| `Multiplex.DeliveredIsBound` | internal/lifetrastation/multiplex.go:245-320 | a line yields a decision exactly when it is a well-formed response under its own id and answers the waiting request |
| `Multiplex.FailureIs` | internal/lifetrastation/multiplex.go:276-319 | a line without a decision becomes the error it reports, a default text for an empty one, or the reason it is none |
| `Multiplex.RefusalsInOrder` | internal/lifetrastation/multiplex.go:159-188 | why a call is refused: the first condition that holds, in order |
| `Multiplex.MultiplexProcess.Start` | internal/lifetrastation/multiplex.go:97-143 | refuses an empty command, a second start and a failed launch, in that order and without a change; otherwise starts with empty maps |
| `Multiplex.MultiplexProcess.Register` | internal/lifetrastation/multiplex.go:159-188 | why a call is refused, in order; an admitted id becomes seen and pending with an empty channel, a refused one changes nothing |
| `Multiplex.MultiplexProcess.RemovePending` | internal/lifetrastation/multiplex.go:322-331 | takes a pending request out, remembering it as abandoned only on expiry |
| `Multiplex.MultiplexProcess.DispatchLine` | internal/lifetrastation/multiplex.go:245-320 | classification of a line and the new maps, for every state of the station |
| `Multiplex.MultiplexProcess.FailFatal` | internal/lifetrastation/multiplex.go:333-352 | an open station closes once and each pending channel receives the error exactly once; a closed station is left alone |
| `Multiplex.MultiplexProcess.Close` | internal/lifetrastation/multiplex.go:354-390 | only the closed mark is set; pending requests stay |
| `MultiplexRuns.ReachableInv` | internal/lifetrastation/multiplex.go:154-352 | every reachable state satisfies the invariant |
| `MultiplexRuns.AdmittedIffNew` | internal/lifetrastation/multiplex.go:159-188 | in every reachable state a call is admitted exactly when it is valid, the station open and its id non-empty and never used |
| `MultiplexRuns.FatalIffUnexpected` | internal/lifetrastation/multiplex.go:245-275 | a line is fatal exactly when garbled or when its id is neither awaited nor abandoned, so for an empty or never used id; on an open station the close takes every pending request |
| `MultiplexRuns.AnswerReachesCaller` | internal/lifetrastation/multiplex.go:159-320 | a well-formed answer to a waiting caller is read, sent and received by it, each step enabled in turn |
| `MultiplexRuns.ExpiredIsTolerated` | internal/lifetrastation/multiplex.go:190-275 | the response to a call that expired is dropped and reading goes on; the response to a call whose write failed is fatal |
| `MultiplexRuns.NoReaderSendBlocks` | internal/lifetrastation/multiplex.go:218-352 | in every reachable state pending and abandoned are disjoint subsets of seen, each request is sent at most one message in its life, and the next send finds room |
| `MultiplexRuns.ReturnedDecisionIsCallersOwn` | internal/lifetrastation/multiplex.go:218-320 | a decision returned by Evaluate came from a line with the caller's own id and answers the caller's own request |
| `MultiplexRuns.LateResponseDropped` | internal/lifetrastation/multiplex.go:245-331 | a late answer to an abandoned request changes nothing but the abandoned set |
| `MultiplexRuns.SettledForEver` | internal/lifetrastation/multiplex.go:245-331 | a used id that is neither pending nor abandoned stays so in every continuation |
| `MultiplexRuns.SecondLateResponseIsFatal` | internal/lifetrastation/multiplex.go:245-331 | a second line with an abandoned id is fatal, however much later it comes |
| `MultiplexRuns.FatalCloseDrains` | internal/lifetrastation/multiplex.go:333-352 | after a fatal close of an open station no call is admitted, pending is empty for ever, and once the reader stops every request then pending has been sent exactly that error |
| `MultiplexRuns.DrainCompletes` | internal/lifetrastation/multiplex.go:333-352 | from any point of a drain the reader can go on until it has stopped |
| `MultiplexRuns.StoppedReaderLeavesNoOneWaiting` | internal/lifetrastation/multiplex.go:154-390 | after the reader stopped, a waiting caller finds a message exactly when its request is no longer pending; the reader's own close leaves none pending |
| `MultiplexRuns.PendingAfterStopIsStranded` | internal/lifetrastation/multiplex.go:227-390 | a request still pending when the reader has stopped never has a message to receive, in any continuation |
| `MultiplexRuns.CloseCanStrandACaller` | internal/lifetrastation/multiplex.go:333-390 | a reachable state in which Close came first and a waiting caller never finds a message, whatever steps follow |
| `AdmissionPool.Normalized` | internal/lifetrastation/adaptive.go:41-55 | the configuration in force is always within its bounds and keeps every usable setting |
| `AdmissionPool.AdaptivePool.ChooseStation` | internal/lifetrastation/adaptive.go:186-215 | the station chosen is the first idle unmeasured one from the cursor, else the first of least estimated delay; none exactly when all are full |
| `AdmissionPool.AdaptivePool.Reserve` | internal/lifetrastation/adaptive.go:163-184 | refusal or the full new state: one more in flight on the chosen station, the id remembered, the cursor moved past it |
| `AdmissionPool.AdaptivePool.ReportBackpressure` | internal/lifetrastation/adaptive.go:225-246 | totals over the stations and the least estimated wait |
| `AdmissionPool.AdaptivePool.Finish` | internal/lifetrastation/adaptive.go:248-267 | one fewer in flight and the truncated moving average, on that station only |
| `AdmissionPoolRuns.ChoiceUnique` | internal/lifetrastation/adaptive.go:186-215 | and only one |
| `AdmissionPoolRuns.ChoiceMeans` | internal/lifetrastation/adaptive.go:186-223 | the choice is an idle unmeasured station if there is one, else one with room whose load plus one times its average, or the configured latency when unmeasured, no other with room undercuts |
| `AdmissionPoolRuns.FasterOrLessLoaded` | internal/lifetrastation/adaptive.go:186-223 | of two measured stations with equal load the chosen one has no greater average, with equal averages no greater load |
| `AdmissionPoolRuns.AverageWeighs` | internal/lifetrastation/adaptive.go:248-267 | the average weighs the newest time with alpha and the running one with the rest, less a fraction of a nanosecond |
| `AdmissionPoolRuns.FinishMeans` | internal/lifetrastation/adaptive.go:248-267 | a finished reservation frees its place and is counted, as an error exactly when it failed; the first time is the average and later ones are weighed in |
| `AdmissionPoolRuns.AverageStaysWithin` | internal/lifetrastation/adaptive.go:248-267 | folding one more time into the average keeps it between the least and greatest time seen, truncation included |
| `AdmissionPoolRuns.LoadIsExact` | internal/lifetrastation/adaptive.go:163-267 | in every run each station is within 0..cap, the loads sum to the unfinished reservations, and a finishing station is never at zero |
| `AdmissionPoolRuns.AverageWithinObserved` | internal/lifetrastation/adaptive.go:248-267 | each average lies between the least and greatest time finished on its station |
| `AdmissionPoolRuns.AdmittedIffRoom` | internal/lifetrastation/adaptive.go:163-215 | a reservation is admitted exactly when its id is new and the total load is below the sum of caps; otherwise nothing changes, so a refused id stays usable |
| `AdmissionPoolRuns.AdmittedOnce` | internal/lifetrastation/adaptive.go:163-184 | no id is admitted twice in any run |
| `AdmissionPoolRuns.RoundRobinFromFresh` | internal/lifetrastation/adaptive.go:163-223 | from a fresh pool, reservation k goes to station k mod n, so the loads differ by at most one |
| `AdmissionPoolRuns.FirstPicksDistinct` | internal/lifetrastation/adaptive.go:163-223 | the first n picks fall on n different stations |
| `Bandit.UCB1Policy.CheckActions` | internal/adaptive/policy.go:35-63 | a policy exists exactly for a non-empty list of distinct non-empty actions and a non-negative exploration |
| `Bandit.UCB1Policy.Choose` | internal/adaptive/policy.go:67-96 | the first untested action in construction order, or the first of maximal score when all are tested |
| `Bandit.UCB1Policy.BestScore` | internal/adaptive/policy.go:67-96 | the first index of maximal score, with every division defined, and all scores reported |
| `Bandit.UCB1Policy.Observe` | internal/adaptive/policy.go:99-116 | the one action's count and running mean and the total change; an unlisted action changes nothing |
| `Bandit.UCB1Policy.BestObserved` | internal/adaptive/policy.go:127-148 | the tested action of highest mean, ties to the least name; found exactly when something was tested |
| `Bandit.BestUnique` | internal/adaptive/policy.go:127-148 | there is one best tested action only, and none has a higher mean |
| `Bandit.OpeningRounds` | internal/adaptive/policy.go:67-116 | the first n rounds of choosing and observing try the n actions once each, in construction order |
| `Bandit.LaterRoundsPickBest` | internal/adaptive/policy.go:67-96 | every later pick is the first action of maximal score |
| `Bandit.GreedyPick` | internal/adaptive/policy.go:67-96 | without exploration, or with equal counts, the pick has the highest mean, the first of them |
| `Bandit.RarerPick` | internal/adaptive/policy.go:67-96 | of two actions with one mean, exploration prefers the one tried less, for every bonus that falls with the count |
| `ContextPolicy.ContextualUCB1Policy.PolicyFor` | internal/adaptive/context.go:135-151 | one policy for each context key, created on first sight without teaching anything |
| `ContextPolicy.ContextualUCB1Policy.SnapshotContext` | internal/adaptive/context.go:120-126 | an unseen context reads as zero statistics, and reading changes nothing learned |
| `ContextPolicy.ContextualUCB1Policy.Choose` | internal/adaptive/context.go:106-112 | the key, the pick, the scores and the statistics, all of this context's own table; nothing learned changes |
| `ContextPolicy.ContextualUCB1Policy.Observe` | internal/adaptive/context.go:113-119 | exactly one table changes, the one of this context's key |
| `ContextPolicy.ObservedElsewhere` | internal/adaptive/context.go:113-119 | observing in one context leaves every context with another key as it was |
| `ContextPolicy.ContextsAreIndependent` | internal/adaptive/context.go:106-119 | what one context has learned is the result of its own turns alone, however contexts alternate |
| `ContextPolicy.OpeningInEveryContext` | internal/adaptive/context.go:106-119 | in every context the first n turns pick the n actions once each, in construction order |
| `ContextPolicy.LaterTurnsPickBest` | internal/adaptive/context.go:106-112 | every later turn picks the first action of maximal score, judged by that context's rewards |
| `Journal.ReceiptPinsMeasurement` | internal/adaptive/durable.go:263-321 | evidence accepted under one receipt has one result, experience id, action, context key and unit, and rewards that agree with the one reported |
| `Journal.EvidencePassesIff` | internal/adaptive/durable.go:263-321 | a measurement passes exactly when receipt, experience and result each say what is listed, condition by condition |
| `Journal.AlmostEqualIs` | internal/adaptive/durable.go:367-370 | equal up to one part in 10^9 of 1 or of either magnitude, whichever is most |
| `Journal.ReplayEntry` | internal/adaptive/durable.go:185-261 | a line is accepted exactly when no check fails, and then teaches the memory and advances the sequence by one |
| `Journal.Replay` | internal/adaptive/durable.go:185-261 | an accepted journal rebuilds a sound memory whose sequence is the number of entries |
| `Journal.AcceptedEntryReplays` | internal/adaptive/durable.go:112-261 | the entry Apply appends passes every replay check and replays to the memory Apply computes |
| `DurableLearner.DurableLearner.Open` | internal/adaptive/durable.go:52-71 | opening succeeds exactly when there is a path, the settings are valid and the file replays, and gives the replayed memory |
| `DurableLearner.DurableLearner.ReplayLine` | internal/adaptive/durable.go:185-261 | one turn of replay: the first failing check, or the taught memory |
| `DurableLearner.DurableLearner.CheckLine` | internal/adaptive/durable.go:185-261 | the checks of a line, in order, without changing what is learned |
| `DurableLearner.DurableLearner.CheckTransition` | internal/adaptive/durable.go:97-183 | claimed statistics before and after against the memory's own |
| `DurableLearner.DurableLearner.Apply` | internal/adaptive/durable.go:112-183 | the new file and memory for accepted, duplicate and rejected measurements; the two errors after the append are never returned; file and memory stay in sync |
| `DurableLearner.DurableLearner.Commit` | internal/adaptive/durable.go:168-182 | observing after the append always agrees with the prediction made before it |
| `DurableLearner.DurableLearner.JudgeMeasurement` | internal/adaptive/durable.go:116-147 | the verdict, changing nothing learned |
| `DurableLearner.DurableLearner.Record` | internal/adaptive/durable.go:348-352 | the three identity maps, the sequence and the head |
| `DurableLearner.ReplayStopsAt` | internal/adaptive/durable.go:185-261 | one refused line makes the whole file unreadable |
| `JournalRuns.CrashIsCompletion` | internal/adaptive/durable.go:112-261 | a crash right after the append is indistinguishable, after reopening, from a completed call |
| `JournalRuns.ReopenRebuildsMemory` | internal/adaptive/durable.go:112-261 | after any history of applies, crashes and reopens, replay gives the live sequence, head, identity maps and statistics |
| `JournalRuns.UnchangedIffNothingAccepted` | internal/adaptive/durable.go:112-183 | a history leaves the learner unchanged exactly when none of its events would have been accepted at its start |
| `JournalRuns.RunKeepsIdentities` | internal/adaptive/durable.go:112-183 | recorded identities are never changed or forgotten |
| `JournalRuns.AcceptedStaysDuplicate` | internal/adaptive/durable.go:112-147 | an accepted measurement is a duplicate for ever after, and applying it again changes nothing |
| `JournalRuns.ConflictStaysRejected` | internal/adaptive/durable.go:112-147 | other evidence under any identity already used is rejected for ever |
| `JournalRuns.HeadCommitsToHistory` | internal/adaptive/durable.go:185-261 | two journals that replay to the same head are equal entry by entry, even under different settings |
| `JournalRuns.StatsAreTheJournals` | internal/adaptive/durable.go:97-183 | the count is the number of entries for that context and action, and count times mean is the sum of their rewards |
| `JournalRuns.TotalsAreTheSequence` | internal/adaptive/durable.go:97-183 | the totals over all contexts add up to the sequence number |
| `JournalRuns.EveryEntryIsMeasured` | internal/adaptive/durable.go:185-321 | every entry of a journal that replays is a succeeded, hashed measurement of an allowed action, at its own place in the sequence |
| `JournalRuns.ClaimsAreTheJournals` | internal/adaptive/durable.go:134-261 | the statistics each entry claims before and after it are the counts and averages of the journal up to it, counts exactly and averages up to the tolerance |
| `Authority.CanonicalActions` | internal/adaptive/authority.go:106-121 | exactly the non-empty lists of distinct non-empty actions have a canonical form, which is sorted and holds the same actions |
| `Authority.Validate` | internal/adaptive/authority.go:56-83 | accepts exactly the grants in strict lexical order with the hash of their own content |
| `Authority.NewGrant` | internal/adaptive/authority.go:35-54 | when a grant can be made, and that it validates over the same actions |
| `Authority.ValidGrantIff` | internal/adaptive/authority.go:56-83 | a grant is valid exactly when hashed, named, and listing non-empty actions in strict order |
| `Authority.GrantIgnoresOrder` | internal/adaptive/authority.go:35-54 | identity, epoch and the set of actions determine the grant and its hash |
| `Ordering.SearchStrings` | internal/adaptive/authority.go:85-91 | binary search on a sorted list splits it into what is below and what is not below the name |
| `Authority.Allows` | internal/adaptive/authority.go:85-91 | never allows an unlisted action; on a canonical list allows every listed one |
| `Authority.ValidateEvidence` | internal/adaptive/authority.go:187-201 | accepts only measurements that name the grant and an allowed action, and on a valid grant all of them |
| `SignedAuthority.SignedRotationVerifies` | internal/adaptive/signed_authority.go:279-382 | whenever the current issuer may sign a rotation, what it signs verifies |
| `SignedAuthority.SelfVerifiedIff` | internal/adaptive/signed_authority.go:55-145 | a signed grant verifies exactly when it is the record signing writes for its grant, issuer, key and time, with a signature that verifies under that key |
| `SignedAuthority.RotationVerifiedIff` | internal/adaptive/signed_authority.go:279-382 | a rotation verifies exactly when it is the record signing writes for two epochs of one authority at a legal anchor, signed with the current key |
| `SignedAuthority.SignsGrantIff` | internal/adaptive/signed_authority.go:55-89 | a grant is signed exactly when valid, by a named issuer with a usable key |
| `SignedAuthority.SignsRotationIff` | internal/adaptive/signed_authority.go:279-330 | a rotation is signed exactly between two epochs of one authority, at a legal anchor, with the current key |
| `SignedAuthority.VerifiedChainIff` | internal/adaptive/signed_authority.go:426-459 | a chain verifies exactly when its root is the record of its first grant and verified rotations lead on |
| `SignedAuthority.SignableIffVerifiable` | internal/adaptive/signed_authority.go:279-382 | the holder of the current key may sign a step at an anchor exactly when some rotation for it verifies |
| `SignedAuthority.GrantsVerified` | internal/adaptive/signed_authority.go:426-459 | each grant of a verified chain verifies by itself and keeps the root's authority id |
| `SignedAuthority.EveryGrantEndorsed` | internal/adaptive/signed_authority.go:426-459 | each grant is signed by the key it names; the first key is the pinned one and each later one was named by a rotation the previous key signed |
| `SignedAuthority.Verify` | internal/adaptive/signed_authority.go:426-459 | the loop accepts exactly the chains that start at the pinned grant and step by verified rotations |
| `SignedAuthority.ExtendedVerified` | internal/adaptive/signed_authority.go:562-586 | a verified chain extended by one grant verifies exactly when the new rotation does |
| `SignedAuthority.RootChainVerifies` | internal/adaptive/signed_authority.go:55-89 | a freshly signed grant verifies and is the root of a verified chain |
| `SignedAuthority.RootAndRotationsFixChain` | internal/adaptive/signed_authority.go:426-459 | the pinned root and the rotation hashes determine every grant and rotation of a verified chain |
| `SignedAuthority.ValidateSignedEvidence` | internal/adaptive/signed_authority.go:493-507 | accepts exactly the measurements bound to this verified signed grant |
| `SignedAuthority.BoundResultAuthorised` | internal/adaptive/signed_authority.go:478-491 | binding a result authorises it exactly when it reports an allowed action, and leaves all other fields alone |
| `SignedAuthority.AuthorisedIffBound` | internal/adaptive/signed_authority.go:478-507 | a measurement is authorised exactly when it reports an allowed action and binding its result again changes nothing |
| `SignedAuthority.AuthorisedByOne` | internal/adaptive/signed_authority.go:493-507 | no measurement is authorised under two different signed grants |
| `ChainedLearner.ChainedAuthorityLearner.ValidateJournal` | internal/adaptive/signed_authority.go:588-615 | accepts a file exactly when each row is bound to the current signed grant |
| `ChainedLearner.ChainedAuthorityLearner.Open` | internal/adaptive/signed_authority.go:518-534 | opens exactly when the chain verifies, all rows are authorised and the file replays |
| `ChainedLearner.ChainedAuthorityLearner.Apply` | internal/adaptive/signed_authority.go:551-557 | an unauthorised measurement changes nothing; any other has the durable learner's effect; the file stays openable under the same chain |
| `ChainedLearner.ChainedAuthorityLearner.Rotate` | internal/adaptive/signed_authority.go:562-586 | opens the next epoch: extends the chain by exactly one grant, anchored to this journal's length and head, on another path; with a lawful scheme, exactly when the listed conditions hold |
| `ChainedLearner.JournalHeadAnchors` | internal/adaptive/signed_authority.go:392-403 | the length and head of any replayable journal are a legal anchor |
| `ChainedLearner.FreshLearnerOpens` | internal/adaptive/signed_authority.go:518-534 | a verified chain can always be opened on an empty file |
| `ChainedLearner.RotationClosesJournal` | internal/adaptive/signed_authority.go:562-586 | rotating adds the journal, as it then stands, to the history the chain commits to |
| `ChainedLearner.RotationFixesJournal` | internal/adaptive/signed_authority.go:562-586 | one rotation fixes the full journal of the epoch it closes |
| `ChainedLearner.GrownJournalMissesAnchor` | internal/adaptive/signed_authority.go:551-586 | the old learner may go on after a rotation; its later journal matches the anchor exactly when no later event is one it would have accepted at the rotation |
| `ChainedLearner.AnyMeasurementIsPossible` | internal/adaptive/signed_authority.go:551-557 | whatever a learner holds, each allowed action can be measured with any reward in any complete context so that the grant authorises it and the learner accepts it |
| `ChainedLearner.AnchorCanBeOutgrown` | internal/adaptive/signed_authority.go:551-586 | after every rotation some measurement authorised by the old grant is accepted and takes the old file past its anchor |
| `ChainedLearner.ChainFixesHistory` | internal/adaptive/signed_authority.go:426-586 | root and rotation hashes fix every grant, rotation and closed journal |
| `TrustPolicy.AllowedIffProven` | internal/trustpolicy/policy.go:201-235 | a decision allows exactly when the evidence proves every requirement |
| `TrustPolicy.AllowsIff` | internal/trustpolicy/policy.go:201-235 | a decision exists exactly for valid policy and evidence, and allows exactly when each required thing was verified |
| `TrustPolicy.ValidPolicyIff` | internal/trustpolicy/policy.go:37-75 | a policy is valid exactly when NewPolicy makes it, which it does for a named one that asks no attestation without hardware |
| `TrustPolicy.ValidEvidenceIff` | internal/trustpolicy/policy.go:149-180 | evidence is valid exactly when hashed, sourced, and claiming no attestation without hardware |
| `TrustPolicy.UnmetNames` | internal/trustpolicy/policy.go:201-222 | the reasons given name exactly the requirements the evidence does not prove, each once |
| `TrustPolicy.VerifiedIffEvaluated` | internal/trustpolicy/policy.go:261-273 | comparing hashes is enough: a decision verifies exactly when evaluation returns it |
| `TrustPolicy.DecisionPinsInputs` | internal/trustpolicy/policy.go:261-273 | a verified decision belongs to one policy and one piece of evidence |
| `TrustPolicy.WeakerPolicyAllows` | internal/trustpolicy/policy.go:201-235 | evidence allowed under a policy is allowed under every policy that demands no more |
| `PolicyManifest.CanonicalBindings` | internal/policyauthority/manifest.go:231-257 | exactly the complete lists with distinct classes and contracts have a canonical form, a reordering of them |
| `PolicyManifest.CanonicalUnique` | internal/policyauthority/manifest.go:231-257 | the canonical form of a set of bindings is unique |
| `PolicyManifest.NewManifest` | internal/policyauthority/manifest.go:64-83 | when a manifest can be made, and that it validates over the same bindings |
| `PolicyManifest.ValidManifestIff` | internal/policyauthority/manifest.go:64-124 | a manifest is valid exactly when hashed, named, and binding complete operations in strict class order with distinct contracts |
| `PolicyManifest.Validate` | internal/policyauthority/manifest.go:94-124 | comparing classes and policy hashes with the recomputed list accepts exactly the canonical manifests |
| `PolicyManifest.Resolve` | internal/policyauthority/manifest.go:126-138 | binary search returns what a linear scan returns |
| `PolicyManifest.DescriptorPinsOperation` | internal/policyauthority/manifest.go:159-224 | a descriptor verifies for its own contract and inputs and for no others |
| `PolicyManifest.DescriptorVerifiedIff` | internal/policyauthority/manifest.go:185-224 | a descriptor verifies exactly when it is the hashed record of a class, the contract and the inputs |
| `PolicyManifest.DescribedIffComplete` | internal/policyauthority/manifest.go:159-183 | an operation is described exactly when its binding is complete, under the binding's own class |
| `PolicyManifest.ResolveOperation` | internal/policyauthority/manifest.go:140-157 | resolves exactly the contracts that are bound, to their one binding, with a verifying descriptor |
| `PolicyRotation.SelfVerify` | internal/policyauthority/signed.go:85-124 | accepts exactly the signed manifests whose content, key, signature and hash agree |
| `PolicyRotation.SelfVerifiedIff` | internal/policyauthority/signed.go:38-124 | a signed manifest verifies exactly when it is the record signing writes for its manifest, issuer, key and time, with a signature that verifies under that key |
| `PolicyRotation.SignedManifestVerifies` | internal/policyauthority/signed.go:38-71 | what SignManifest signs verifies under a lawful scheme and carries the signer's key |
| `PolicyRotation.SignsManifestIff` | internal/policyauthority/signed.go:38-71 | a manifest is signed exactly when valid, by a named issuer with a usable key |
| `PolicyRotation.SignedHashFixesManifest` | internal/policyauthority/signed.go:85-124 | the signed hash determines the signed manifest |
| `PolicyRotation.WeakenedExact` | internal/policyauthority/rotation.go:195-222 | the weakening list names a class exactly when its binding is not kept |
| `PolicyRotation.KeptIffNoLoss` | internal/policyauthority/rotation.go:195-229 | for complete bindings, kept means the same class and contract and that all evidence the new policy allows was allowed by the old one |
| `PolicyRotation.StrengthenedIsNotListed` | internal/policyauthority/rotation.go:195-229 | a class that keeps its contract and only gains requirements is never listed |
| `PolicyRotation.WeakenedOperations` | internal/policyauthority/rotation.go:195-222 | the loop and the final sort compute exactly the classes not kept, for two valid manifests |
| `PolicyRotation.VerifyRotation` | internal/policyauthority/rotation.go:138-193 | accepts exactly the verified rotations; the wrapping generation check cannot be fooled |
| `PolicyRotation.SignRotation` | internal/policyauthority/rotation.go:81-136 | signs exactly when issuer, generation and the weakening flag permit, and what it signs verifies |
| `PolicyRotation.RotationVerifiedIff` | internal/policyauthority/rotation.go:81-193 | a rotation verifies exactly when it is the record signing writes for the next generation of the same authority, announcing what it weakens, signed with the current key |
| `PolicyRotation.SignableIffVerifiable` | internal/policyauthority/rotation.go:81-193 | the holder of the current key may sign a step exactly when some rotation for it verifies |
| `PolicyRotation.VerifyChain` | internal/policyauthority/resolver.go:90-113 | accepts exactly the chains that start at the pinned manifest and step by verified rotations |
| `PolicyRotation.VerifiedChainIff` | internal/policyauthority/resolver.go:90-113 | a chain verifies exactly when its root is the record of its first manifest and verified rotations lead on |
| `PolicyRotation.GenerationAt` | internal/policyauthority/resolver.go:90-113 | the generation at index i is the root's plus i, with no wrap, and the authority id never changes |
| `PolicyRotation.EveryManifestEndorsed` | internal/policyauthority/resolver.go:90-113 | each manifest is signed by the key it names; the first key is the pinned one and each later one was named by a rotation the previous key signed |
| `PolicyRotation.UnlistedStaysKept` | internal/policyauthority/rotation.go:138-229 | and so across any number of rotations |
| `PolicyRotation.NoSilentWeakening` | internal/policyauthority/rotation.go:138-229 | a class never listed between i and j has the same contract at j, and evidence allowed at j is allowed at i |
| `PolicyRotation.LossWasAnnounced` | internal/policyauthority/rotation.go:138-229 | a class unbound, bound to another contract or to a policy that lets more through at j was listed by a rotation that allows weakening |
| `PolicyRotation.ListedIsLost` | internal/policyauthority/rotation.go:195-222 | a verified rotation lists exactly the classes that become unbound, change contract or let more through |
| `PolicyHead.ChainContainsHead` | internal/policyauthority/head.go:130-155 | the first-match loop decides whether any index of the chain has the accepted head |
| `PolicyHead.HeadStore.Accept` | internal/policyauthority/head.go:97-128 | the answer and the stored head in every case; the same-generation fork error cannot occur once the chain contains the accepted head |
| `PolicyHead.HeadStore.Open` | internal/policyauthority/head.go:83-95 | opens exactly a verified chain when nothing was accepted before or the chain contains what was; then its head is stored, otherwise nothing changes |
| `PolicyHead.OpensIff` | internal/policyauthority/head.go:83-128 | a verified chain opens exactly when nothing was accepted before or it contains the accepted head |
| `PolicyHead.WhyRefused` | internal/policyauthority/head.go:97-128 | which refusal is given: a broken stored head, a foreign authority, an older chain, or one that lacks the accepted head |
| `PolicyHead.ValidHeadIff` | internal/policyauthority/head.go:40-58 | a stored head is readable exactly when hashed, named and referring to a manifest by hash |
| `PolicyHead.GrownChainOpens` | internal/policyauthority/head.go:83-128 | a verified extension of the accepted chain always opens and its head is stored |
| `PolicyHead.OpenAdvances` | internal/policyauthority/head.go:83-128 | a failed open leaves the file; a successful one leaves the chain's head, and that chain contains the head it replaced |
| `PolicyHead.AcceptedNeverRollsBack` | internal/policyauthority/head.go:97-128 | along any sequence of opens the accepted generation never falls, and equal generations mean identical heads |
| `PolicyHead.SharedHeadSharedEnds` | internal/policyauthority/head.go:130-155 | two verified chains with a common head agree on that manifest, the rotation into it and its predecessor |
| `PolicyPrefix.PrefixIffRotationHashes` | internal/policyauthority/resolver.go:90-113 | two verified chains under one root are the same up to any index, every manifest and rotation, exactly when their rotation hashes up to it are |
| `PolicyPrefix.AcceptedChainRepeatedIff` | internal/policyauthority/head.go:97-155 | a chain opened after another was accepted repeats all of it exactly when each of its rotation hashes recurs |
| `PolicyPrefix.PrefixCanBeSwapped` | internal/policyauthority/head.go:97-155 | under every lawful scheme with a usable key, two verified chains with one root and one head that differ in their second manifest, and the store that accepted the first opens the second |
| `PolicyPrefix.PrefixSwapExists` | internal/policyauthority/head.go:97-155 | such a scheme and such chains exist |
| `PolicyHead.NextOpenExtends` | internal/policyauthority/head.go:97-155 | while a chain's head is stored, only chains that repeat its end can be opened, at the same index under the same root |
| `PolicyGate.VerifyAuthorization` | internal/policyauthority/resolver.go:144-175 | accepts exactly what some binding of the current manifest authorises, whatever the input and descriptor digests |
| `PolicyGate.AuthorizationNamesOneBinding` | internal/policyauthority/resolver.go:144-175 | a verified authorization names one binding and so one policy |
| `PolicyGate.DescriptorIsNotChecked` | internal/policyauthority/resolver.go:144-175 | an authorization with the input hash of one operation and the descriptor hash of another verifies |
| `PolicyGate.ResolvedIff` | internal/policyauthority/resolver.go:115-175 | a verified authorization is the one built for some inputs exactly when its input and descriptor hashes are those of the inputs and of the operation's own descriptor; it is built for at most one set of inputs |
| `PolicyGate.ResolveCurrent` | internal/policyauthority/resolver.go:115-142 | fails only when no binding has the contract; the authorization always passes its own verification and commits to exactly these inputs and their descriptor |
| `PolicyGate.NewRuntime` | internal/adaptive/policy_authority_runtime.go:26-45 | the handler table holds exactly the registered contracts; incomplete or repeated registrations are refused |
| `PolicyGate.RequestedIsBound` | internal/policyauthority/resolver.go:184-195 | a requested policy passes exactly when it is the binding's own |
| `PolicyGate.NewGate` | internal/adaptive/policy_authority_gate.go:55-93 | a gate exists exactly when the contract is bound, the caller's claims match, a handler is registered and the evidence is valid; its authorization commits to its own inputs and descriptor |
| `PolicyGate.Execute` | internal/adaptive/policy_authority_gate.go:129-149 | a handler runs exactly when the evidence proves every requirement of the current binding, and it is the one registered for its contract |
| `DecisionPlane.NewRequest` | internal/decisionplane/decision.go:91-145 | when a request can be made, and that it is bound to packet, state and choices |
| `DecisionPlane.Pigeonhole` | internal/decisionplane/decision.go:184-286 | as many distinct known entries as choices leaves no choice out and no choice id repeated |
| `DecisionPlane.ChoicesAndProbabilitiesMatch` | internal/decisionplane/decision.go:184-286 | in a valid decision choices and probabilities correspond one to one |
| `DecisionPlane.DecisionPinsRequest` | internal/decisionplane/decision.go:184-234 | a decision is valid for one packet, one request id, one state and one set of choices only |
| `DecisionPlane.TallyProbabilities` | internal/decisionplane/decision.go:253-275 | passes exactly for distinct known entries in [0,1], with their sum, the selected probability and the maximum |
| `DecisionPlane.ValidateDecision` | internal/decisionplane/decision.go:184-286 | accepts exactly the bound decisions that carry a distribution over all choices and select an allowed maximal one |
| `DecisionPlane.BoundToIff` | internal/decisionplane/decision.go:184-234 | bound exactly when request and decision are the records made for this packet, state and choices |
| `DecisionPlane.ValidDecisionIff` | internal/decisionplane/decision.go:184-286 | valid exactly when bound, with one probability in range for each choice, adding up to 1, and an allowed selection that no choice beats, up to 10^-6 |
| `DecisionGate.VerdictDefined` | internal/decisionplane/decision.go:288-359 | after validation no lookup fails: the gate always answers |
| `DecisionGate.SelectedStats` | internal/decisionplane/decision.go:361-381 | one pass finds the selected probability and the largest other one |
| `DecisionGate.ApplyDecision` | internal/decisionplane/decision.go:288-359 | answers exactly for valid decisions under a sensible policy, with that verdict |
| `DecisionGate.VerdictCases` | internal/decisionplane/decision.go:303-359 | approval exactly for a side effect under a policy that asks for it; otherwise escalation exactly on low confidence, probability or margin; otherwise routing |
| `DecisionGate.TopMarginIs` | internal/decisionplane/decision.go:361-381 | the margin is the least lead of the selected probability over any other one, or over 0 |
| `DecisionGate.AutoRouteIsFaithful` | internal/decisionplane/decision.go:328-359 | the route's target is allowed and selected; each choice is a candidate with its own probability; best first |
| `DecisionGate.MarginBound` | internal/decisionplane/decision.go:303-325 | a selected probability of at least c means a margin of at least 2c - 1 - 0.000001 |
| `DecisionGate.MarginNeverTooSmall` | internal/decisionplane/decision.go:74-81 | under the default policy, and every policy whose threshold implies its margin, the margin branch is unreachable |
| `DecisionGate.MarginCanBeTooSmall` | internal/decisionplane/decision.go:312-325 | under every other policy some valid decision on an accepted request is stopped by its margin alone |
| `DecisionGate.Decide` | internal/decisionplane/static_provider.go:15-51 | decides exactly when there is an id, a choice and positive mass, with proportional weights and the top one selected |
| `DecisionGate.ProviderShares` | internal/decisionplane/static_provider.go:15-51 | each choice's probability is its score's share of the total, and the selected one has the largest |
| `DecisionGate.ProviderDecisionValid` | internal/decisionplane/static_provider.go:15-51 | on a bound request the provider's decision always passes validation |
| `DecisionGate.AutoRouteIff` | internal/decisionplane/decision.go:312-325 | under a policy whose threshold implies its margin a valid decision is routed exactly when no approval is due and confidence and probability reach the threshold |
| `DecisionGate.ProviderAutoRoutesIff` | internal/decisionplane/static_provider.go:15-51 | under the default policy the provider auto-routes exactly when there is no side effect and the top score is at least 0.98 of the total |
| `ProofAuthority.Authorize` | internal/mirror/authority_policy.go:47-70 | allows exactly the listed executor of the action; everything else is denied |
| `ProofAuthority.ProvesIffListed` | internal/mirror/authority_policy.go:74-109 | a proof is issued exactly when the policy is complete and lists the executor for the action, and names policy, hash, action and executor |
| `ProofAuthority.CanonicalRule` | internal/mirror/authority_policy.go:134-145 | sorted, without repetition; refused exactly on an empty name |
| `ProofAuthority.Canonicalise` | internal/mirror/authority_policy.go:111-161 | the canonical policy, whatever order the rules are visited in |
| `ProofAuthority.CanonicalKeepsAuthority` | internal/mirror/authority_policy.go:111-161 | canonicalising keeps who is authorised and is idempotent |
| `ProofAuthority.CanonicalIffSameAuthority` | internal/mirror/authority_policy.go:111-161 | two policies have one canonical form exactly when they have the same name and authorise the same executors |
| `ProofAuthority.CanonicalProvesTheSame` | internal/mirror/authority_policy.go:74-106 | the canonical policy issues the same authority proofs |
| `ProofAuthority.PolicyHashFixesAuthority` | internal/mirror/authority_policy.go:92-106 | a policy hash fixes who was authorised |
| `ProofEnvelopes.Replay` | internal/mirror/replay_verifier.go:38-129 | accepts exactly when every step holds, and otherwise reports exactly the steps taken up to the first failure |
| `ProofEnvelopes.ReplayExact` | internal/mirror/replay_verifier.go:38-155 | replay accepts an envelope exactly when building it from the same sources gives that envelope and packet and route carry their protocols and one action id |
| `ProofEnvelopes.BuildsIff` | internal/mirror/metro_adapter.go:25-85 | an envelope is built exactly for a succeeded receipt of a listed executor on the routed, allowed target whose result is the claimed value |
| `ProofEnvelopes.ReplayedExecutorIsListed` | internal/mirror/replay_verifier.go:38-129 | whatever replay accepts was certified by an executor the policy lists for the envelope's action |
| `ProofEnvelopes.ReplayDeterminesEnvelope` | internal/mirror/proof_envelope.go:48-133 | the sources and the claim's name determine the envelope that replays |
| `ProofEnvelopes.UnboundRouteBuilds` | internal/mirror/metro_adapter.go:25-85 | an envelope can be built under a route for another action, and does not replay |
| `ProofEnvelopes.CanonicalReplaysTheSame` | internal/mirror/replay_verifier.go:117-124 | replaying against the canonical policy gives the same outcome |
| `EvidenceBundles.Validate` | internal/mirror/evidence_bundle.go:130-177 | accepts exactly the bundles with each required kind once and the hash of those digests |
| `EvidenceBundles.ValidBundleIff` | internal/mirror/evidence_bundle.go:130-180 | a bundle is valid exactly when named, hashed, and made of one hashed artifact of each of the seven kinds |
| `EvidenceBundles.BundleSays` | internal/mirror/evidence_bundle.go:57-128 | a bundle names the claim and its action and holds the digests of the sources, the envelope and its report, each under its kind |
| `EvidenceBundles.OrderDoesNotMatter` | internal/mirror/evidence_bundle.go:228-245 | reordering the artifacts changes neither hash nor validity |
| `EvidenceBundles.HashFixesArtifacts` | internal/mirror/evidence_bundle.go:228-245 | equal bundle hashes mean the same artifacts up to order |
| `EvidenceBundles.SameArtifactSet` | internal/mirror/evidence_bundle.go:247-261 | true exactly when the lists are equally long and each right artifact is the last of its kind on the left; without repeated or empty kinds that is having the same artifacts |
| `EvidenceBundles.Build` | internal/mirror/evidence_bundle.go:57-127 | a bundle exactly for a reproducible proof |
| `EvidenceBundles.Verify` | internal/mirror/evidence_bundle.go:181-204 | accepts exactly a valid bundle with the rebuilt hash; the artifact comparison after it cannot fail |
| `EvidenceBundles.VerifiedIffReordered` | internal/mirror/evidence_bundle.go:181-204 | what verifies is the bundle of the reproduced proof with its artifacts in any order, and nothing else |
| `EvidenceCas.MemoryCAS.Put` | internal/mirror/cas.go:35-51 | one object more, under its own digest |
| `EvidenceCas.MemoryCAS.Resolve` | internal/mirror/cas.go:53-75 | the one content whose digest the reference names, and nothing exactly when that is not held |
| `EvidenceCas.PutsKeep` | internal/mirror/cas.go:35-75 | a reference that resolves once resolves to the same content after any further puts |
| `EvidenceCas.StoreEvidenceBundle` | internal/mirror/evidence_bundle_cas.go:16-75 | stores exactly the artifacts of a reproducible proof and nothing otherwise; no reference ever disagrees with its digest |
| `EvidenceCas.ResolveAll` | internal/mirror/evidence_bundle_cas.go:89-100 | every reference resolves, or nothing is returned; what comes back is fixed by the digests alone |
| `EvidenceCas.VerifyFromCas` | internal/mirror/evidence_bundle_cas.go:81-144 | the store decides only whether references resolve; the outcome is a function of the bundle |
| `EvidenceCas.CasRoundTrip` | internal/mirror/evidence_bundle_cas.go:16-144 | what was stored is reproduced from the references alone, after any further puts and on top of any earlier content |
| `EvidenceCas.AcceptedBundleIsGenuine` | internal/mirror/evidence_bundle_cas.go:81-144 | an accepted bundle is, up to order, the bundle of some reproducible proof |
| `EscapeScan.OneReading` | internal/codexadapter/json.go:118-150 | valid JSON text splits into units in one way only |
| `EscapeScan.ValidEscapes` | internal/codexadapter/json.go:118-150 | no index out of range; accepts exactly the texts whose surrogate escapes are adjacent high/low pairs |
| `EscapeScan.AgentIdEscapes` | integrations/moltbook/identity_http.go:305-329 | the same decision on every string literal, with the other loop's bounds and jumps |
| `EscapeScan.ScannersAgree` | integrations/moltbook/identity_http.go:305-329 | a literal is such a text and its quotes change no pairing, so the two scanners agree |
| `EscapeScan.WrittenReads` | internal/codexadapter/json.go:118-150 | reading the four digits of a code, each in either case, gives the code, and it is a high or low half exactly in the standard's ranges |
| `EscapeScan.CharactersArePaired` | internal/codexadapter/json.go:118-150 | any characters written as UTF-16 escapes are well paired, so no scanner refuses them |
| `EscapeScan.LoneSurrogateRefused` | internal/codexadapter/json.go:118-150 | a surrogate escape with no escape beside it is never well paired |

## Left out

- Floating-point rounding, NaN and infinities: exact reals stand in for float64, so the checks that refuse NaN or Inf have no counterpart.
- Integer widths other than policy generations: journal sequence numbers, counters and durations are unbounded integers, so overflow after 2^63 steps is not modelled.
- SHA-256, Ed25519, base64 and hex decoding: replaced by an injective digest and an arbitrary signature scheme; nothing is said about forgery.
- JSON text: number re-encoding, blank lines, unknown fields and nil-against-empty maps are not modelled beyond an absent decision state.
- File and process I/O: appends and head writes are atomic, torn writes, fsync and the scanner's buffer limit do not occur, and one path is opened by one process at a time.
- Journal.PredictStatsAfter: asks for a non-negative count, which every stored table has; the Go function would also accept a negative one.
- Bandit.Score: the square root of log(total)/count is an arbitrary function of two positive counts, so nothing is said about how exploration decays; RarerPick assumes only that it falls with the count.
- Bandit.UCB1Policy.BestScore: the second loop of Choose as a method of its own.
- Multiplex.MultiplexProcess.Register: whether the station request itself validates is an input of the call.
- Multiplex.MultiplexProcess.Close: waiting for the process to exit and its error are not modelled.
- PolicyHead.HeadStore.Accept: stated for a verified chain, which OpenDurableResolver has established before the call; so is PolicyHead.ChainContainsHead.
- PolicyGate.VerifyAuthorization: stated for a resolver whose chain was verified, the only kind openVerifiedResolver returns; so are the other members of the gate.
- EscapeScan.ValidEscapes: stated for text whose JSON syntax has been checked, as the caller does; the lexical units are a ghost argument.
- ProofEnvelopes.Replay: the report keeps the steps and the status, but not the text of the rejection reason, which is the error message of the failed step.
- Rejection reasons: most validations answer only whether they pass, or group several reasons under one.
- ChainedLearner.ChainedAuthorityLearner: the unsigned AuthorityLearner it wraps is folded into it, since the signed checks include the unsigned ones.
- Policy-authority decision binding: BindDecisionResult, ValidateDecisionResultBinding and Learn of the gate copy or compare fields one by one.
- NewTrustRoot, NewEvidence and NewPolicy: constructors whose checks are those of the validators modelled here.
- The filesystem store, device sensing, attestation discovery, HTTP clients and servers, the Moltbook station, the coding workflow, the command-line tools and demos: wrappers around what is modelled.
- The token-stream check of duplicate and unknown JSON keys beside validEscapes: it walks a decoder that is not part of this model.

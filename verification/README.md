# Parking controller: verified model

The system turns noisy plate reads into at most one barrier command. This project models that chain and proves what it
promises:

- plate text: normalisation, edit distance and similarity, OCR lookalike spellings, country correction;
- one lane: temporal consensus over a sliding window of reads, with visits, voting, publication and hold;
- one camera: fusion of camera and local readings, with a duplicate window that stands for the whole decision history;
- the barriers: entry and exit submissions as concurrent tasks over shared session rows, with a claimed command id;
- durable delivery: the SQLite outbox, its idempotency marks and the captures it creates, across crashes;
- the live picture: the incremental MJPEG reader, under every cutting of the stream into chunks;
- the recognition worker: the dictionaries of running and retiring camera tasks.

Code that updates state in place is a class with the same fields or a method with the same loops, proved equal to a
function of the old state; what the system promises is then proved of those functions over whole runs. The gate
protocols are step machines: one step goes from one database call to the next, every task keeps its own, possibly stale,
copy of a row, and any task may stop anywhere. Text is ASCII, confidence and time are reals, ids are numbers with 0 for
the empty text. Answers from outside (clock, database lookups of other tables, printer, sensors, opener, uuid, policy)
are parameters.

## Files

| module | subject |
|---|---|
| PlateText, EditDistance, PlateSimilarity, Lookalikes, PlatePolicy, TanzaniaPolicy | plate text algebra |
| TextOrder, Voting, Consensus, ConsensusRuns, LocalReads | reads of one lane |
| Fusion, Hybrid, HybridRuns, HybridLedger | fusion of two providers |
| ExitGate, ExitProgress, ExitLane, ExitPayments, ExitEvents, ExitTakeover, EntryGate, EntryProgress | barrier protocols |
| Outbox, OutboxRuns, OutboxDelivery | durable delivery |
| Mjpeg, MjpegStream, MjpegComplete, MjpegExact | live picture |
| Supervisor, CameraSets | camera tasks |
| Options | the optional value used above |

## Where the code and its words differ

- The consensus docstring (app/core/consensus.py:112-115) says a plate is published once per visit. Only the last
  published plate is remembered, so `OncePerVisitFails` publishes one plate twice in one visit. `PublishedExactly` says
  exactly when a read publishes; `TwiceInOneVisit` derives what must lie between two publications of one plate in one
  visit: a publication of another plate, or a release.
- An operator's correction is held again when the two providers disagree (app/core/fusion.py:84-86):
  `OperatorAcceptance` gives the exact condition.
- The corrected plate can depend on the order in which a Python set is walked. `AnswerIsUnique` splits the question:
  the answer is free of order when the read is registered, or exactly one registered plate is among its spellings, or
  none is and the policy's shapes leave one answer. `CountryAnswerIsUnique` and `TanzanianAnswerIsUnique` say when they
  do, on the read's characters. For Kenya always. South Africa and the Emirates leave two answers for a read off their
  shape that one swap mends while one more character could be swapped, the third of seven or the first: AB0120D, BO1234.
  Tanzania keeps one answer for T and five to eight more characters; other reads can have several, such as 00123.
- One exit event can open two sessions when two submissions hold copies of one session at once, although each of them
  checks the owner of the session: `OverlapLetsOneEventOpenTwo`, from any point of any run. A submission goes on from
  the copy it read before the locking query, which does not refresh a row already loaded (sessions keep their objects
  across commits, app/db.py:47), and writes its own event over the one put there meanwhile. `OneSessionPerEvent`
  proves the promise for every run in which no two submissions overlap on one session, however many overlap on
  different ones; `SecondOpeningNeedsOverlap` finds the overlap before every second opening.
- A gate retry opens the entry barrier for any session not yet opened, whether or not its receipt was taken:
  `RetryOpensWithoutReceipt`.
- A processed mark lasts seven days, not for good, and is only removed by a later acknowledgement: `ProcessedExactly` says
  exactly which keys count as processed, `ReachesPersistenceExactly` which delivered items reach persistence.
- The live reader can drop a complete frame that no newer one replaces. `DeliveredExactly` says exactly when, for every
  cutting of a stream of JPEG bodies: the body was reached without its boundary, because a chunk ended inside that
  boundary or the buffer grew too long, and the next boundary was already there to be found first. Any body but the last
  can be lost that way: `AnyBodyCanBeLost`.

## Model

| member | source | states |
|---|---|---|
| PlateText.NormalizeIdempotent | app/core/plate.py:33-41 | normalising twice is normalising once, so stored plates compare as they are |
| PlateText.NormalizeOne | app/core/plate.py:33-41 | one character: capitals and digits stay, small letters become capital, all else is dropped |
| PlateText.NormalizeConcat | app/core/plate.py:33-41 | texts are normalised piece by piece, so the result is all their letters and digits in order |
| EditDistance.DistanceIsLeastEdits | app/core/plate.py:44-60 | the distance is reached by a chain of that many single insertions, deletions and substitutions, and by no shorter chain |
| EditDistance.DistanceIsMetric | app/core/plate.py:44-60 | zero exactly on equal texts, symmetric, triangle inequality, between length difference and longer length |
| EditDistance.EvaluateEditDistance | tools/evaluate_alpr.py:25-31 | the one-row evaluation program returns that same distance |
| PlateSimilarity.ComputeSimilarity | app/core/plate.py:44-60 | the two-row program returns the similarity made from the distance, with its special cases for equal and empty plates |
| PlateSimilarity.SimilarityLaws | app/core/plate.py:44-60 | similarity is symmetric, within 0 and 1, and 1 exactly for equal non-blank plates |
| PlateSimilarity.SimilarityZero | app/core/plate.py:44-60 | similarity is 0 exactly when a plate is blank or the distance is the longer length |
| PlateSimilarity.SimilarityCountsEdits | app/core/plate.py:44-60 | each edit costs one part in the longer plate's length |
| Lookalikes.WithinMeaning | app/core/plate.py:101-120 | the spellings within r swaps are exactly the lookalikes that differ in at most r places |
| Lookalikes.WithinSymmetric | app/core/plate.py:101-120 | being a spelling within r swaps is symmetric |
| Lookalikes.TwoSwapCount | app/core/plate.py:101-120 | k confusable characters give 1 + k + k(k-1)/2 distinct spellings within two swaps |
| Lookalikes.BothRoundsRun | app/core/plate.py:101-120 | the breadth-first search runs both its rounds exactly when fewer than 64 characters are confusable |
| Lookalikes.SwapEachPosition | app/core/plate.py:101-120 | one round on one text yields exactly the texts one lookalike swap away |
| Lookalikes.ConfusionVariants | app/core/plate.py:101-120 | the search returns exactly the spellings within as many swaps as rounds run, nothing for a blank plate |
| Lookalikes.ForceTzPositions | app/core/plate.py:135-147 | the in-place edit forces digits then letters, and leaves other texts alone |
| Lookalikes.StandardSpellingIsForced | app/core/plate.py:135-147 | whatever standard spelling a read could stand for, forcing finds it, so there is at most one |
| PlatePolicy.NeutralCorrect | app/core/plate_policy.py:26-39 | a registered plate is kept, otherwise some registered lookalike replaces the read, otherwise it stays |
| PlatePolicy.PatternCorrect | app/core/plate_policy.py:47-62 | the answer matches the country's shape whenever the read or some spelling does |
| PlatePolicy.PickBestShape | app/core/plate_policy.py:78-88 | the loop keeps a spelling of the best shape, and the read itself unless some spelling beats it, whatever the order |
| PlatePolicy.TzCorrect | app/core/plate_policy.py:70-90 | the program answers by known plates first, otherwise by the best shape among read, spellings and forced text |
| PlatePolicy.TzCorrectionIsComplete | app/core/plate_policy.py:70-90 | the answer is a standard plate exactly when some spelling at any number of swaps is, is then that one spelling, and otherwise a lookalike of no worse shape |
| PlatePolicy.AnswerIsUnique | app/core/plate_policy.py:26-90 | under every policy the answer is free of set order exactly when the read is registered, or one registered spelling exists, or none does and the policy's shapes leave one answer (made a condition on characters by the rows below) |
| PlatePolicy.ShapeIsUnique | app/core/plate_policy.py:47-62 | a read off the country's shape has at most one spelling of that shape exactly when its characters leave no second swap; for Kenya always |
| PlatePolicy.CountryAnswerIsUnique | app/core/plate_policy.py:93-106 | so, per country, the exact condition on registered plates and on the read's own characters |
| PlatePolicy.EmiratesReadWithTwoAnswers | app/core/plate_policy.py:55-61 | BO1234 has two Emirates answers |
| PlatePolicy.SouthAfricanReadWithTwoAnswers | app/core/plate_policy.py:55-61 | AB0120D has two South African answers |
| TanzaniaPolicy.ForeignIsUnique | app/core/plate.py:90-98 | a read has as many spellings of a Kenyan or South African shape as there are such shapes it mends to with at most two swaps of misfits |
| TanzaniaPolicy.MixIsUnique | app/core/plate.py:84-98 | an all-digit or nearly all-letter read has at most one spelling that mixes letters and digits exactly under a bound on its confusable characters |
| TanzaniaPolicy.TanzanianShapeIsUnique | app/core/plate_policy.py:70-90 | the shape scores leave one answer exactly when the read's characters settle it, level by level |
| TanzaniaPolicy.TanzanianAnswerIsUnique | app/core/plate_policy.py:65-90 | so, for every read and every set of registered plates, the exact condition for an answer free of set order |
| TanzaniaPolicy.TanzanianReadWithTwoAnswers | app/core/plate_policy.py:76-81 | 00123 has two Tanzanian answers |
| TanzaniaPolicy.TanzanianShape | app/core/plate.py:10 | T, three digits, two to four letters |
| TanzaniaPolicy.KenyanShape | app/core/plate.py:11 | K, two letters, three digits, a letter |
| TanzaniaPolicy.SouthAfricanShape | app/core/plate.py:12 | the four letter-digit patterns of a South African plate |
| TanzaniaPolicy.EmiratesShape | app/core/plate.py:13 | at most one letter, then one to six digits |
| Voting.ScoreAtMostTotal | app/core/consensus.py:170-182 | no candidate scores more than the total weight |
| Voting.CapIsIdle | app/core/consensus.py:184 | the cap at 1 never changes a share |
| Voting.SupportedShare | app/core/consensus.py:170-184 | reads all similar to a candidate give it at least the similarity threshold as share |
| Voting.OneMoreReadForTheWinner | app/core/consensus.py:170-184 | one more read of the winner neither unseats it nor lowers its share |
| Voting.OneMoreReading | app/core/consensus.py:170-181 | a reading adds its confidence to its own text, nothing to an unlike one, and to a similar one its confidence in proportion, strictly less |
| TextOrder.AtMostMeaning | app/core/consensus.py:182 | the last tie-break: a prefix, or the smaller character where the texts first differ |
| Voting.WinnerIsBest | app/core/consensus.py:182 | the winner has the best score, then the most readings, then the last text |
| Voting.WinnerIsUnique | app/core/consensus.py:182 | ties are broken completely, so the winner does not depend on dictionary order |
| Voting.Tally | app/core/consensus.py:171-181 | the voting loops give every candidate its score |
| Voting.PickWinner | app/core/consensus.py:182 | the maximum by score, then count, then text |
| Consensus.ConsensusTrack.Observe | app/core/consensus.py:143-212 | one observation moves the track exactly as the rules say: empty lane, visit, window, vote, publication, hold |
| Consensus.ConsensusTrack.ReleaseHold | app/core/consensus.py:214-218 | forgets the last publication and nothing else |
| ConsensusRuns.WindowIsExact | app/core/consensus.py:158-168 | under a clock that never runs back the kept readings are the last max_reads reads of the visit within the window, over the whole history |
| ConsensusRuns.EmptyReadForgets | app/core/consensus.py:147-157 | an empty read makes the track forget readings and publication exactly when some empty read lies the reset time back with no plate since |
| ConsensusRuns.ArrivalStartsVisit | app/core/consensus.py:159-160 | a read starts a visit exactly when the read before it, empty or not, came more than the window ago or later |
| ConsensusRuns.VisitIsKept | app/core/consensus.py:138-160 | so the track's visit is the one that events and times alone define, under any clock |
| ConsensusRuns.StreakIsKept | app/core/consensus.py:155-163 | the streak counts the reads in a row of one plate within one visit |
| ConsensusRuns.DecisionReports | app/core/consensus.py:183-188 | a decision reports how many readings there are, how many name the winner, and their mean confidence, between any bounds on them |
| ConsensusRuns.PublicationIsJustified | app/core/consensus.py:182-212 | every publication names a plate of that window with the best score and enough share, on enough reads with enough of that plate, or one allowed strong one |
| ConsensusRuns.RepublicationIsHeld | app/core/consensus.py:200-209 | two publications of one plate with no other publication and no release between them are in different visits and at least hold_seconds apart |
| ConsensusRuns.PublishedExactly | app/core/consensus.py:182-212 | a read publishes its winner exactly when the readings convince and no remembered publication of that plate lies in the same visit or within the hold; visits and forgetting are read off events and times |
| ConsensusRuns.ReasonsSayWhy | app/core/consensus.py:190-209 | every held decision says why: exactly when evidence lacks, the share is too small, the plate was published in this visit, or within the hold |
| ConsensusRuns.TwiceInOneVisit | app/core/consensus.py:200-209 | a plate is published twice in one visit only around a publication of another plate or a release |
| ConsensusRuns.OncePerVisitFails | app/core/consensus.py:112-115 | for any two unlike plates, in either order, a run of five reads publishes the first one twice in one visit |
| ConsensusRuns.EmptyLaneClears | app/core/consensus.py:147-158 | a lane without a plate read for the reset time, releases or not, has forgotten readings and hold |
| LocalReads.ResolveLocalReads | app/core/consensus.py:39-70 | accepted exactly with one strong read or enough identical ones; which read is named, how many agree, and that its confidence is the highest of its plate |
| LocalReads.MostCommon | app/core/consensus.py:63-64 | the counter's choice: most frequent, first seen on ties |
| LocalReads.CountIsPlaces | app/core/consensus.py:56-62 | the count of a plate is the number of its frames |
| LocalReads.DefaultTakesTwo | app/core/consensus.py:56-70 | without a setting of its own a lane accepts exactly two equal frames or one strong one |
| LocalReads.CleanedNext | app/core/consensus.py:47-52 | frames without a plate go, the others stay normalised, in order |
| LocalReads.MoreReadsKeepAcceptance | app/core/consensus.py:39-70 | another frame never turns acceptance into a hold |
| Fusion.HybridAcceptance | app/core/fusion.py:93-175 | a HYBRID reading is accepted exactly when providers agree or one read alone suffices, and what an accepted reading carries |
| Fusion.ReadingIsShown | app/core/fusion.py:129-145 | held or accepted, a lone or agreeing reading shows its normalised plate with its best confidence |
| Fusion.OperatorAcceptance | app/core/fusion.py:74-116 | an operator's plate has at least full confidence and is accepted exactly when the providers did not read two different plates and the site minimum is met |
| Fusion.OperatorCorrectionOfDisagreementIsHeld | app/core/fusion.py:84-86 | with default settings every correction of a disagreement is held |
| Fusion.SingleProviderAcceptance | app/core/fusion.py:117-128 | native and local modes accept exactly on their own provider's read |
| Fusion.SingleProviderShows | app/core/fusion.py:117-128 | native mode shows the camera's plate or, held, the local one; local mode the local one; and how it was found |
| Fusion.HybridMonotone | app/core/fusion.py:74-175 | raising confidences never turns an accepted reading into a held one |
| Fusion.DisagreementShowsTheMoreConfident | app/core/fusion.py:141-175 | a disagreement is held and shows the more confident reading, exactly unless a negative margin favours a weaker local one; on a tie the one the thresholds name; the method says whose it is |
| Hybrid.FusionCoordinator.FindDuplicate | app/core/hybrid.py:96-101 | prunes the accepted list to the hold and finds the first equal or similar plate |
| Hybrid.FusionCoordinator.DecideLane | app/core/hybrid.py:103-134 | empties both slots and concludes with the resolved decision |
| Hybrid.FusionCoordinator.OfferCandidate | app/core/hybrid.py:136-170 | an offer does to its camera what the lane rules say, and nothing to any other |
| Hybrid.FusionCoordinator.FlushWaiting | app/core/hybrid.py:172-180 | a flush does to every lane what the lane rules say, in any order of lanes |
| Hybrid.FusionCoordinator.ResetCamera | app/core/hybrid.py:182-186 | forgets one camera |
| Hybrid.FusionCoordinator.ResetEverything | app/core/hybrid.py:182-186 | forgets all cameras |
| HybridRuns.CamerasDoNotInterfere | app/core/hybrid.py:89-186 | a camera's outcomes in any interleaved run are those of its own events and the site-wide ones alone |
| HybridRuns.SuppressionIsExact | app/core/hybrid.py:96-134 | suppressed exactly when an accepted similar plate lies less than the hold back in the unpruned history |
| HybridRuns.AcceptedPlatesAreSpaced | app/core/hybrid.py:96-134 | no two accepted similar plates lie within the hold |
| HybridRuns.AcceptedOutcomesAreSound | app/core/hybrid.py:103-134 | every accepted outcome carries the plate of each candidate it used, confident enough |
| HybridRuns.SuppressionOverRuns | app/core/hybrid.py:96-134 | the exact suppression rule on the outcomes of every run of the coordinator, cameras interleaved |
| HybridRuns.SpacingOverRuns | app/core/hybrid.py:96-134 | so is the spacing of accepted similar plates |
| HybridRuns.SoundnessOverRuns | app/core/hybrid.py:103-134 | so is what every accepted outcome carries |
| HybridLedger.OfferShape | app/core/hybrid.py:136-161 | an offer yields at most two outcomes and pairs only readings within the pair window |
| HybridLedger.OfferDecides | app/core/hybrid.py:136-161 | exactly which candidates an offer decides: a stale one alone, the new one with a fresh one of the other source, or alone without a counterpart; and what waits afterwards |
| HybridLedger.FlushShape | app/core/hybrid.py:172-180 | after a flush nothing has waited out its time |
| HybridLedger.FlushDecides | app/core/hybrid.py:172-180 | a flush decides the pending candidate alone exactly when it has waited its time |
| HybridLedger.AlwaysSettled | app/core/hybrid.py:136-186 | every reachable lane has at most one pending candidate |
| HybridLedger.OffersOverRuns | app/core/hybrid.py:136-161 | both hold of every offer in every run of the coordinator |
| HybridLedger.FlushesOverRuns | app/core/hybrid.py:172-180 | and both of every flush |
| HybridLedger.CandidatesAreConserved | app/core/hybrid.py:136-180 | each candidate offered is in exactly one outcome, pending, or replaced by a later one |
| HybridLedger.ConservationOverRuns | app/core/hybrid.py:136-180 | so in every run of the coordinator, since the camera's last reset |
| ExitGate.OneOpeningPerSession | app/application/exit_lane.py:334-369 | in every interleaving, tasks stopping anywhere, the opener runs at most once per session, always with the id the session carries from then on |
| ExitGate.TurnKeepsClaims | app/application/exit_lane.py:137-400 | every single step of every task keeps the claim invariant |
| ExitProgress.UndisturbedPlateRead | app/application/exit_lane.py:137-400 | from any point of any run, one undisturbed plate read of an event no session carries ends in the state that one look at session, payment and gate tells |
| ExitProgress.UndisturbedQrScan | app/application/exit_lane.py:191-400 | so does a scanned receipt |
| ExitProgress.UndisturbedRedelivery | app/services/parking_sessions.py:535-543 | a read delivered again judges the session its event is bound to |
| ExitProgress.UndisturbedReplay | app/application/exit_lane.py:164-171 | one whose event already has a command or a closed session changes nothing |
| ExitProgress.ClosedSinceReadStaysClosed | app/services/parking_sessions.py:66-92 | in any interleaving no turn reopens a session that was closed since its task read it, nor closes one whose life goes on |
| ExitProgress.PassageCloses | app/services/parking_sessions.py:497-507 | the passage sensor closes a session in two commits |
| ExitProgress.PaidDriverGetsOut | app/services/parking_sessions.py:580-610 | a session denied before, by whatever event, or stopped at any stage, opens the barrier once it is paid |
| ExitProgress.UnpaidDriverIsDenied | app/services/parking_sessions.py:580-610 | an unpaid one is denied and nothing opens |
| ExitPayments.EveryOpeningIsPaid | app/services/parking_sessions.py:603-610 | in every interleaving each single opening is preceded by a price query that found a stay of that session's plate paid |
| ExitEvents.UniqueAlways | app/models.py:344-351 | no two sessions ever carry one event, given the refused commit of the unique index |
| ExitEvents.TwoSessionsNeedATakeover | app/application/exit_lane.py:166-173 | an event that opened two sessions has been replaced on one of them |
| ExitEvents.OneSessionPerEvent | app/application/exit_lane.py:259-272 | unless two submissions have held copies of one session at once, one event opens at most one session, and that session keeps it |
| ExitEvents.SecondOpeningNeedsOverlap | app/application/exit_lane.py:259-272 | every second opening of one event comes after such an overlap, at a point where it had not happened yet |
| ExitTakeover.OverlapLetsOneEventOpenTwo | app/services/parking_sessions.py:541-582 | from any point of any run with two parked sessions, an overlap on the first lets one event open both |
| ExitLane.ExitController.StartExit | app/services/parking_sessions.py:518-610 | the program leaves an owned session alone and otherwise binds it and decides it by payment, and all of it is a run of the protocol |
| ExitLane.ExitController.ClaimBarrier | app/application/exit_lane.py:337-350 | wins exactly on an empty command id and then stores its own |
| ExitLane.ExitController.OpenAuthorized | app/application/exit_lane.py:314-400 | calls the opener exactly for a cleared session, once, and leaves the row as the opener's answer and the passage policy say |
| ExitLane.ExitController.SubmitPlateRead | app/application/exit_lane.py:137-189 | a whole plate submission leaves exactly the state the undisturbed protocol reaches; a replayed event changes nothing |
| ExitLane.ExitController.SubmitQrScan | app/application/exit_lane.py:191-219 | so does a whole QR submission |
| ExitLane.ProgramOpensOnce | app/application/exit_lane.py:334-369 | so the program opens at most once per session |
| EntryGate.OneOpeningPerSession | app/application/entry_lane.py:286-375 | in every interleaving the non-retry paths call the opener at most once per session, and the command id is never emptied |
| EntryGate.ReceiptBeforeOpening | app/application/entry_lane.py:170-247 | a session that needs its receipt is opened before the receipt is stored as taken only by a retry |
| EntryProgress.UndisturbedEntry | app/application/entry_lane.py:78-247 | from any point of any run, one undisturbed submission of a new session ends in the state that one look at needs, printer, sensor and gate tells |
| EntryProgress.UndisturbedConfirmation | app/application/entry_lane.py:225-247 | so does a receipt confirmation |
| EntryProgress.UndisturbedRetry | app/application/entry_lane.py:249-265 | so does a gate retry |
| EntryProgress.PassageOrDeparture | app/application/entry_lane.py:267-284 | a vehicle may leave exactly before its receipt is taken, which cancels the session; passage makes an open one active |
| EntryProgress.EntryWithoutReceiptOpens | app/application/entry_lane.py:286-375 | a vehicle that needs no receipt gets in on its first submission |
| EntryProgress.ConfirmedReceiptOpens | app/application/entry_lane.py:225-247 | once the sensor confirms, the barrier opens with the receipt stored |
| EntryProgress.WaitingForTheReceipt | app/application/entry_lane.py:225-247 | without the sensor nothing changes |
| EntryProgress.RetryOpensWithoutReceipt | app/application/entry_lane.py:249-265 | a retry opens any session not yet opened, its receipt taken or not |
| EntryGate.TurnKeepsGood | app/application/entry_lane.py:78-429 | every single step keeps claim and receipt invariants |
| Outbox.ParkingOutbox.EnqueueItem | app/services/queues.py:186-200 | a second publication of one identity adds nothing |
| Outbox.ParkingOutbox.AckItem | app/services/queues.py:207-215 | deletes the row, marks the key and purges old marks at once |
| Outbox.ParkingOutbox.PersistCapture | app/services/captures.py:502-606 | creates a capture unless one of the visit or event is there or policy refuses |
| Outbox.ParkingOutbox.HandleItem | app/api_main.py:4009-4100 | one item is handled by the branches of the loop, failing before or after its work |
| Outbox.ParkingOutbox.RunPass | app/api_main.py:4002-4104 | a pass handles the oldest twenty in order and ends at the first failure |
| OutboxDelivery.PublicationAdds | app/services/queues.py:186-200 | over every run a publication adds one row at the end, unless its kind and identity were published before; then it adds nothing |
| OutboxDelivery.SecondPublicationAddsNothing | app/services/queues.py:193-196 | so of two publications of one kind and identity the second changes nothing |
| OutboxDelivery.DeliveryDecides | app/api_main.py:4009-4100 | over every run, exactly which row a delivery removes, which capture it creates and which mark it sets |
| OutboxRuns.PassIsARun | app/api_main.py:4002-4104 | a pass is the handling of its batch in order up to the first failure, as part of a run |
| OutboxRuns.OneCapturePerEvent | app/api_main.py:4016-4040 | over any run with failures, redeliveries and repeated publications, one consumer creates at most one capture per event |
| OutboxRuns.RowsLeaveByAck | app/services/queues.py:186-215 | every row was enqueued once and either waits or was acknowledged once |
| OutboxRuns.ProcessedExactly | app/services/queues.py:207-224 | over every run a key counts as processed exactly when some mark of it has no later mark of any key more than seven days after it |
| OutboxRuns.ReachesPersistenceExactly | app/api_main.py:4009-4060 | a delivered item reaches persistence exactly when it is recognised, not so marked, not captured yet, and the switches route it there |
| OutboxRuns.MarkBlocksPersistence | app/services/queues.py:207-224 | so an event marked processed does not reach persistence for the seven days of the mark |
| OutboxRuns.MarkWearsOut | app/services/queues.py:207-215 | afterwards it can, and becomes a capture |
| Mjpeg.PopRawJpegs | app/desktop/streams.py:115-125 | the raw loop returns the last complete SOI-EOI frame and the unfinished rest |
| Mjpeg.PopLatestMjpeg | app/desktop/streams.py:78-112 | the part loop returns the newest part's body or raw frame and the rest, in positions of the buffer |
| Mjpeg.ReadContentLength | app/desktop/streams.py:90-98 | the first Content-Length line decides |
| Mjpeg.MjpegReader.Feed | app/desktop/streams.py:53-60 | one chunk: append, trim an overlong buffer at its last SOI, pop |
| Mjpeg.TrimmedMeaning | app/desktop/streams.py:53-56 | an overlong buffer is kept from its last SOI on, or its last 120 000 bytes |
| MjpegStream.LengthRoundTrip | app/services/preview.py:486-491 | the length read from the headers is the length written into them |
| MjpegStream.NumberForms | app/desktop/streams.py:93-96 | white space around a number and a sign before it are read as Python's int() reads them |
| MjpegStream.AfterDigits | app/desktop/streams.py:93-96 | so are underscores, and any other text after a digit is no number |
| MjpegStream.AnnouncedLengthDecides | app/desktop/streams.py:99-108 | a part of 1 to 2 500 000 bytes is taken whole or waited for; any other announced length is not trusted and the markers are searched |
| MjpegStream.FramesAreBodiesInOrder | app/desktop/streams.py:53-125 | for every cutting of the stream each frame is exactly one sent body, in strictly increasing order |
| MjpegStream.KeptIsSuffix | app/desktop/streams.py:53-125 | for any input at all the kept remainder is the end of what was received |
| MjpegStream.WholePartsYieldTheLast | app/desktop/streams.py:78-112 | a chunk of whole parts with bodies of any content yields the last body and leaves nothing over |
| MjpegStream.AlignedChunksYieldTheirLast | app/desktop/streams.py:53-112 | so a stream cut between parts yields each chunk's newest frame |
| MjpegComplete.NewestCompletedIsYielded | app/desktop/streams.py:53-112 | for bodies of any content, cut outside the boundary texts and within the buffer limit, each chunk yields exactly the newest body completed in it |
| MjpegExact.DeliveredExactly | app/desktop/streams.py:53-125 | for every cutting of a stream of JPEG bodies, overlong buffers included, each chunk yields the newest body completed in it, and None exactly when there is none or that body is passed over |
| MjpegExact.CutBoundaryLosesAFrame | app/desktop/streams.py:78-125 | in every run, a chunk that ends inside a boundary and a next one that holds the following boundary lose the body between them |
| MjpegExact.AnyBodyCanBeLost | app/desktop/streams.py:78-125 | two chunks are enough to lose any body but the last |
| Supervisor.RecognitionSupervisor.Cycle | app/recognition_worker.py:828-871 | drops finished retired tasks, retires what must stop, starts what is wanted and free |
| Supervisor.StopKeepsConsistent | app/recognition_worker.py:834-855 | retiring a task overwrites no retiring one |
| Supervisor.OneUnfinishedTaskPerCamera | app/recognition_worker.py:828-871 | over every run no camera has two unfinished tasks; tasks and configurations have the same cameras, none retiring |
| Supervisor.CycleMeetsTheWish | app/recognition_worker.py:832-871 | after a cycle exactly the wanted cameras that are not retiring run, each with its wanted settings |
| Supervisor.CycleDecides | app/recognition_worker.py:828-871 | exactly which task goes on, is retired, let go of or started, camera by camera |

## Left out

- Unicode: plates are ASCII after normalisation; case folding, the Chinese no-plate phrases and plate validation (app/core/plate.py:63-81, 150-237) are not modelled.
- Floating point: similarity, weights, shares and times are reals; rounding in reports and the payment tolerance are not modelled.
- Reason texts, audit dictionaries and snapshots: outcomes carry an enumerated reason at most.
- Mode, source and event-type names are enumerated; reading them from text is not modelled.
- ConsensusRuns.TwiceInOneVisit: assumes times from 0 on, as a monotonic clock gives them, because a new track marks its visit with -1.
- Hybrid: lanes are values in the camera dictionary, so aliasing of a lane object is not captured; the order of a flush's outcomes between cameras is left open.
- ExitGate and EntryGate: modelled on values as step machines, since other tasks run between any two commits; ExitLane is the exit program of one task while the others wait. The row lock of the locking query is not modelled, which only adds interleavings; the run of `OverlapLetsOneEventOpenTwo` respects it.
- ExitGate: whether a stay is paid is an outside answer; tariffs, grace periods and entitlements are not modelled, nor is the creation of sessions beyond their arrival.
- EntryGate: the lane's policy is fixed per session, and plate deduplication of entries is not modelled: a submission that does not create its session ends at once.
- Outbox: session handling after a capture is not modelled (a crash after the capture commit is acknowledged without it); captures are never deleted; there is one consumer, and captures made through its hybrid route do not count among its own captures.
- Mjpeg: `DeliveredExactly` is for bodies with one SOI, one EOI, no boundary text and a usable size; for other bodies completeness is claimed only without cut boundaries and within the buffer limit. Numbers of more than 4300 digits, stop requests and timeouts are not modelled.
- Supervisor: warm-up, health reports and the shutdown path are not modelled; which lanes stall is an outside answer.
- Camera drivers, decoding, OCR, printers, payments, HTTP routes, authentication, desktop widgets and deployment: plumbing around the core, without invariants of this depth.
- Liveness under interference (every paid exit opens, every event gets a session): the code does not guarantee it; a failed exit opening keeps its claim. What one undisturbed submission reaches is proved: `PaidDriverGetsOut`, `EntryWithoutReceiptOpens`.

# FinalWeave: a verified model of its protocol core and servers

This project models the parts of FinalWeave that everything else relies on, and proves what they
promise. `dafny verify dfyconfig.toml` checks all of it with Dafny 4.11.

Two kinds of code are modelled. The consensus, filter, execution and accumulator algorithms are models
of the normative step-by-step algorithms in `doc/protocol/`; no node implements them yet. The quorum
parameters, the header-size fold and the two server lifecycles are models of the Go code.

| files | what they hold |
|---|---|
| `Wrappers`, `Channels` | an optional value; channels and contexts of the servers |
| `Quorum`, `Schedule` | the n/f/q/k tuple and quorum intersection; proposers and slot order |
| `Dag`, `SupportSearch`, `Certificates` | vertices, causal past and support; the search with its visited set; certificate patterns and direct decisions |
| `Decider`, `DeciderAgreement` | TryDecide; agreement between any two views and over any series of calls |
| `DecisionMeaning`, `SilentProposer` | what each decision says about the DAG; a run in which a slot is skipped |
| `Drainage`, `FastPath`, `LockstepRuns` | when everything is decided; how an honest proposal commits; DAGs in which all of it happens, with and without equivocation |
| `Linearisation`, `TotalOrder` | vertex order of a commit; the end-to-end order of two nodes |
| `PrefilterBudget`, `OccurrenceFilter`, `FilterPass` | the work budget; the pass as functions; the pass as a loop over mutable variables |
| `FilterRecovery`, `FilterInvariants` | crash and restart; what every state keeps |
| `FilterResults`, `FilterVerdicts` | what the pass achieves; the exact mark of every occurrence |
| `Execution`, `DependencyGraph`, `ParallelExecution` | serial meaning; the conflict graph; parallel and versioned runs |
| `PrefixCertification`, `ScheduledCertification` | certification and fallback; what a schedule's results certify, and what a version must hold |
| `BlockMmr`, `OrderedMerkle` | the mountain range over blocks; the count-bound list tree |
| `GrpcLifecycle`, `GrpcInterleavings` | the gRPC server and its health bridge; all interleavings |
| `HttpLifecycle`, `HttpInterleavings` | the HTTP server; all interleavings |
| `HeaderSize` | the saturating metadata size |

## How the model is set up

- **DAG.** One global DAG holds every valid signed vertex, equivocations included. At most f authors are
  faulty; an honest author has one vertex per round and follows its own parent. A node's view is any
  causally closed part of it. Vertex IDs stand for collision-free hashes.
- **Execution.** A transaction is a deterministic function of the keys it reads. Serial execution is the
  definition; graph, versions and speculation are proved against it.
- **Filter.** One step is one change that a checkpoint may record. A machine works, persists and crashes in
  any order.
- **Servers.** A critical section, a channel operation or a library call is one step of one call. A world
  holds any number of calls, and a run is any sequence of enabled steps. The classes are the objects with
  their field updates and their `Valid()`; the transition systems run the same functions, and every
  section is entered with the object's precondition met.
- **Hashes** are injective constructors.

## What the proofs say about the text and the code

- `BuildDependencyGraph` as written draws a self edge for a transaction that reads and writes one key,
  because it adds j to the readers before it visits them
  (doc/protocol/04-finality-execution-and-epochs.md:665-674). `IncrementHasASelfEdge` is the smallest
  case, and by `EdgesPointUpwardsExactly` the rule that edges point from a smaller to a larger index
  (line 650) holds exactly when no transaction reads and writes one key. The model keeps the self
  edges, and ordering ignores them.
- The text does not say what `exact_read_versions` records. By `WriterIndexIsEnoughExactly` the index of
  the writer is not enough once a writer may be retried
  (doc/protocol/04-finality-execution-and-epochs.md:707-717); `RetriedWriterIsMissedByItsIndex` is a
  block of three transactions. In the model a version is the index and the value.
- In `FirstAnchorAfter` the test for direct decision other than SKIP is redundant
  (doc/protocol/03-finaldag-consensus.md:252): a direct decision is final.
- The HTTP `Shutdown` can report a stopped server while `Serve` still runs
  (pkg/api/httpserver/server.go:282-289), as in `ServeMayOutliveShutdown`. `GivingUpIsExact` gives the
  condition: the draining call took the deadline branch of its wait while `serveDone` was open. The
  gRPC `Shutdown` cannot.

## Main results

- `DeciderAgreement.Agreement` and `NeverHalts`: any two local views decide a slot alike, and never halt.
- `DeciderAgreement.IncrementalLogIsFromScratch` and `TotalOrder.StreamsAreComparable`: incremental
  output is output from scratch, and of the vertex streams of two nodes one is a prefix of the other.
- `DecisionMeaning.DecisionIsExact`: when a slot is skipped, committed or open, said of the DAG alone.
- `FastPath.TimelyPrimariesDecideEverything`: no slot stays undecided beyond its horizon.
- `SupportSearch.FindSupportedProposal`: the search with a visited set is the naive ordered search.
- `FilterResults.RecoveryNeverFindsCorruption` and `FilterRecovery.CrashesAreInvisible`: the filter over
  all runs with crashes.
- `FilterVerdicts.MarkIsExact`, `FilterResults.NothingIsChargedTwice`, `SponsorsAreIsolated`,
  `NoncesAreContiguous`: its verdicts, charges, fairness and winners.
- `DependencyGraph.PathsAreExactlyConflictChains` and `ParallelExecution.LinearExtensionsAreSerial`: the
  graph orders what it must, and any order along it is serial.
- `PrefixCertification.CertifyPrefix`, `ExecuteBlock` and `ScheduledCertification.GraphScheduledResultsCertify`:
  certification stops at the first result that is not serial, speculation is invisible, and a schedule
  along the graph never falls back.
- `BlockMmr.OnlyGeneratedProofsVerify`, `RootBindsHistory` and `OrderedMerkle.ProofsVerifyExactlyForRealItems`.
- `GrpcInterleavings.ExpiryIsReported`, `ServeResultIsExact`, `HealthStaysDown`,
  `FinishedRunsAreComplete` and `HttpInterleavings.ShutdownResult`, `GivingUpIsExact`,
  `PendingShutdownsAreNeverStuck`.
- `Quorum.QuorumsShareAnHonestMember` and `HeaderSize.MetadataSize`.

## Model

| member | source | states |
|---|---|---|
| `Quorum.NewQuorumParameters` | pkg/types/quorum.go:40-65 | accepts exactly the counts 3f+1 with f from 1 to 84 and returns the valid tuple for that count |
| `Quorum.ValidExactlyWhenConstructed` | pkg/types/quorum.go:100-108 | the tuples that pass mustBeValid are exactly those the constructor makes |
| `Quorum.Parameters.MinimumQuorumIntersection` | pkg/types/quorum.go:93-98 | panics exactly on invalid tuples and otherwise equals the recovery threshold k |
| `Quorum.QuorumsShareAnHonestMember` | pkg/types/quorum.go:93-98 | any two validator sets of size q share at least the returned bound, hence a member outside any set of f |
| `Quorum.IntersectionBoundIsAttained` | pkg/types/quorum.go:93-98 | for every valid n two quorums share exactly the bound, so it cannot be raised |
| `Quorum.QuorumContainsHonestRecoverySet` | pkg/types/quorum.go:86-91 | any q signers hold k that are outside any set of f |
| `Quorum.OneMoreByzantineBreaksIntersection` | pkg/types/quorum.go:73-84 | with f+1 faulty members two quorums may share faulty members only, so f is the exact limit |
| `Schedule.ProposersOfARoundDiffer` | doc/protocol/03-finaldag-consensus.md:91 | the proposers of one round are different validators |
| `Schedule.PrimaryIsPermutationEntry` | doc/protocol/03-finaldag-consensus.md:76-89 | round i of a cycle has entry i of that cycle's permutation as primary |
| `Schedule.ProposerIsShiftedEntry` | doc/protocol/03-finaldag-consensus.md:79-89 | the proposer of rank j in round i of a cycle is entry i+j of that cycle's permutation, wrapping at its end |
| `Schedule.PrimaryExactlyOncePerCycle` | doc/protocol/03-finaldag-consensus.md:91 | in every aligned cycle of n rounds each validator is primary in exactly one round |
| `Dag.Past` | doc/protocol/03-finaldag-consensus.md:115-121 | the causal past holds the vertex itself and otherwise only vertices of lower rounds |
| `Dag.PastIsClosed` | doc/protocol/03-finaldag-consensus.md:115-125 | the past of a member of the past is inside the past |
| `Dag.NoSupportMeansNoProposalBelow` | doc/protocol/03-finaldag-consensus.md:129-148 | the search returns nothing exactly when no vertex strictly below belongs to the slot |
| `Dag.OwnParentDecides` | doc/protocol/03-finaldag-consensus.md:107-115 | what lies at or below the own parent is the support, whatever the other parents would give |
| `Dag.VisitOrder` | doc/protocol/03-finaldag-consensus.md:109-115 | otherwise the first strong parent in author order below which the slot has a vertex decides, and only then the first weak one |
| `Dag.SupportIsSticky` | doc/protocol/03-finaldag-consensus.md:152-156 | along own parents a later vertex finds the very proposal an earlier one found |
| `Dag.HonestSupportNeverSwitches` | doc/protocol/03-finaldag-consensus.md:152-156 | an honest author that has not rejoined never changes the proposal it supports for a slot |
| `Dag.ViewSupport` | doc/protocol/03-finaldag-consensus.md:150-156 | a causally closed local view computes the same support as the global DAG |
| `SupportSearch.FindSupportedProposal` | doc/protocol/03-finaldag-consensus.md:131-143 | the search returns the supported proposal and expands no vertex twice |
| `Certificates.CertificateIsUnique` | doc/protocol/03-finaldag-consensus.md:176 | two certificate patterns for one slot certify the same proposal, whatever the faulty authors equivocate |
| `Certificates.SkipExcludesCertificate` | doc/protocol/03-finaldag-consensus.md:529-531 | a direct skip of a slot rules out every certificate for it, now and later in the DAG |
| `Certificates.DirectDecisionsAgree` | doc/protocol/03-finaldag-consensus.md:214-228 | direct commit and direct skip exclude each other and a direct commit is unique, so the order of the two tests does not matter |
| `Certificates.DirectCommitIsBelowEveryLaterVertex` | doc/protocol/03-finaldag-consensus.md:533-535 | three rounds above a directly committed proposal every vertex, honest or not, has a certificate for it in its past |
| `Certificates.DirectCommitFixesCandidates` | doc/protocol/03-finaldag-consensus.md:263-276 | for every such anchor the certified candidates are exactly the committed proposal |
| `Certificates.DirectSkipLeavesNoCandidate` | doc/protocol/03-finaldag-consensus.md:263-276 | for every anchor a directly skipped slot has no certified candidate |
| `Certificates.AtMostOneCandidate` | doc/protocol/03-finaldag-consensus.md:276 | no anchor ever has two certified candidates for one slot |
| `Decider.TryDecide` | doc/protocol/03-finaldag-consensus.md:317-351 | returns exactly the decided prefix after the last emitted slot, unless a safety halt is due; what the prefix holds is `PrefixIsConsecutive` and `DecisionIsExact` |
| `DeciderAgreement.DirectCommitIsReturned` | doc/protocol/03-finaldag-consensus.md:216-226 | when a view holds a direct commit the direct decider returns it and no other proposal |
| `DeciderAgreement.DirectSkipTestIsRedundant` | doc/protocol/03-finaldag-consensus.md:252 | requiring direct decision other than SKIP as well as a final decision UNDECIDED or COMMIT is the same as a final decision other than SKIP |
| `DeciderAgreement.AnchorIsNearest` | doc/protocol/03-finaldag-consensus.md:242-252 | the anchor found is eligible and every nearer slot above the bound is not; none is found exactly when no slot is eligible |
| `DeciderAgreement.IndirectUsesNearestAnchor` | doc/protocol/03-finaldag-consensus.md:280-301 | an indirect decision comes from the candidates of the nearest eligible anchor, which is committed |
| `DeciderAgreement.NeverHalts` | doc/protocol/03-finaldag-consensus.md:276 | no view of a DAG with at most f faulty authors reaches the safety halt |
| `DeciderAgreement.AnchorsMatch` | doc/protocol/03-finaldag-consensus.md:242-252 | two views that decide a slot indirectly use the same anchor slot |
| `DeciderAgreement.Agreement` | doc/protocol/03-finaldag-consensus.md:541-543 | any two views that decide a slot decide it alike: the same skip or a commit of the same proposal |
| `DeciderAgreement.DecisionSurvivesGrowth` | doc/protocol/03-finaldag-consensus.md:353 | a decision stays when the view and its complete rounds grow |
| `DeciderAgreement.PrefixGrows` | doc/protocol/03-finaldag-consensus.md:353 | the decided prefix of a view is a prefix of the one after it has grown |
| `DeciderAgreement.PrefixesAreComparable` | doc/protocol/03-finaldag-consensus.md:541-543 | of the decided prefixes of any two views one is a prefix of the other |
| `DeciderAgreement.ResumeGivesRemainder` | doc/protocol/03-finaldag-consensus.md:314-351 | starting after any emitted part gives exactly the remainder of a run from the first slot |
| `DeciderAgreement.IncrementalLogIsFromScratch` | doc/protocol/03-finaldag-consensus.md:353 | the concatenated outputs of any series of calls equal one run from the first slot on the last view |
| `DeciderAgreement.LogsAreComparable` | doc/protocol/03-finaldag-consensus.md:541-543 | of the logs two nodes have output, over whatever calls, one is a prefix of the other |
| `DecisionMeaning.UnseenSlotIsSkipped` | doc/protocol/03-finaldag-consensus.md:204-219 | when vertices of q authors in the next round have no vertex of the slot in their strict past, the slot is decided SKIP |
| `DecisionMeaning.SupportedSlotIsCommitted` | doc/protocol/03-finaldag-consensus.md:182-226 | when vertices of q authors two rounds above each have strong parents of q authors that support one proposal, it is committed |
| `DecisionMeaning.NoAnchorLeavesOpen` | doc/protocol/03-finaldag-consensus.md:280-286 | without either pattern and without a slot that could serve as anchor, the slot is undecided |
| `DecisionMeaning.OpenAnchorLeavesOpen` | doc/protocol/03-finaldag-consensus.md:252-289 | without either pattern, while the nearest slot above that is not skipped is undecided, the slot is undecided, however many farther slots are committed |
| `DecisionMeaning.CommittedAnchorDecides` | doc/protocol/03-finaldag-consensus.md:256-301 | without either pattern a committed nearest anchor commits what is certified in its past and skips the slot exactly when nothing is |
| `DecisionMeaning.DecisionIsExact` | doc/protocol/03-finaldag-consensus.md:200-301 | the decision of any slot in any view: SKIP and COMMIT of p each hold if and only if their patterns on the DAG do |
| `DecisionMeaning.PrefixIsConsecutive` | doc/protocol/03-finaldag-consensus.md:338-351 | the decided prefix is the decisions of consecutive slots from the start, none of them open, and it ends before an open slot or behind the highest round |
| `SilentProposer.SilentProposerIsSkipped` | doc/protocol/03-finaldag-consensus.md:200-226 | a proposer signs nothing: after two complete rounds its slot is output as skipped, and alone if the round has no other slot |
| `Drainage.EarlierRoundsAreComplete` | doc/protocol/03-finaldag-consensus.md:307-314 | below any vertex every round has vertices of q authors |
| `Drainage.ThreeCommittedPrimariesDrain` | doc/protocol/03-finaldag-consensus.md:512-517 | three directly committed primaries in a row decide every slot of every earlier round, all ranks included |
| `Drainage.CycleHasQuorumOfHonestPrimaries` | doc/protocol/03-finaldag-consensus.md:91 | every aligned cycle has at least q rounds with an honest primary |
| `Drainage.ThreeCyclesContainAnHonestTriple` | doc/protocol/03-finaldag-consensus.md:510 | three aligned cycles contain three consecutive rounds with honest primaries |
| `Drainage.HorizonIsNear` | doc/protocol/03-finaldag-consensus.md:502-519 | the horizon is three cycles and a round behind the first aligned cycle from x on, and at most 4n rounds behind x |
| `Drainage.DecidedByHorizon` | doc/protocol/03-finaldag-consensus.md:502-517 | once honest primaries commit, every slot is decided when the highest complete round reaches its horizon |
| `FastPath.TimelyHonestProposalCommits` | doc/protocol/03-finaldag-consensus.md:490-496 | q such vertices commit the proposal directly |
| `FastPath.TimelyPrimariesDecideEverything` | doc/protocol/03-finaldag-consensus.md:498-517 | when every honest primary is referenced in time from some round on, no slot is undecided beyond its horizon |
| `LockstepRuns.LockstepCommits` | doc/protocol/03-finaldag-consensus.md:191-197 | for every valid epoch and any number of rounds there is a fault-free DAG in which every slot is committed two rounds later |
| `LockstepRuns.LockstepMeetsTheHorizonPremises` | doc/protocol/03-finaldag-consensus.md:498-517 | such a DAG meets the premises of the horizon and drainage results, whichever f authors are distrusted |
| `LockstepRuns.EquivocatingProposerCommits` | doc/protocol/03-finaldag-consensus.md:303 | a proposer signs two vertices for its slot, both find support, and exactly one of them is committed |
| `LockstepRuns.EveryTupleHasAnEpoch` | doc/protocol/03-finaldag-consensus.md:76-97 | every valid tuple and every number of slots up to q has a valid schedule |
| `Linearisation.SortedIsAscending` | doc/protocol/03-finaldag-consensus.md:363-369 | a delta is ordered by round, author and vertex ID |
| `Linearisation.AscendingListingIsUnique` | doc/protocol/03-finaldag-consensus.md:363-369 | that order is the only one, so a set of vertices has one listing |
| `Linearisation.DeltaIsOrdered` | doc/protocol/03-finaldag-consensus.md:357-369 | of two vertices that one commit adds the earlier has the lower round, then the lower author, then the lower vertex ID, and both are in its past and in no past committed before |
| `Linearisation.Emitter.EmitCommit` | doc/protocol/03-finaldag-consensus.md:357-369 | a commit appends the sorted part of its past that was not emitted before and marks all of it emitted |
| `Linearisation.OutputEmitsEachVertexOnce` | doc/protocol/03-finaldag-consensus.md:357-369 | each vertex of the committed pasts is output exactly once |
| `Linearisation.ParentsComeFirst` | doc/protocol/03-finaldag-consensus.md:369 | every parent of an output vertex is output before it |
| `Linearisation.OutputIsViewIndependent` | doc/protocol/03-finaldag-consensus.md:355-371 | the output depends on the committed vertices and not on what else a node holds |
| `TotalOrder.CommitsKeepLogOrder` | doc/protocol/03-finaldag-consensus.md:357-375 | the commits of the log are emitted in log order, and a skip adds nothing |
| `TotalOrder.StreamIsTheCommittedPasts` | doc/protocol/03-finaldag-consensus.md:355-375 | a node's stream holds exactly the vertices of the pasts its log committed, each once |
| `TotalOrder.StreamsAreComparable` | doc/protocol/03-finaldag-consensus.md:355-375 | end to end: of the vertex streams that two nodes output, over whatever calls on whatever views, one is a prefix of the other |
| `DependencyGraph.BuildDependencyGraph` | doc/protocol/04-finality-execution-and-epochs.md:656-680 | the loop over last readers and last writers outputs exactly the edges that the access sets define |
| `DependencyGraph.EdgesAreConflicts` | doc/protocol/04-finality-execution-and-epochs.md:638-650 | an edge never points backwards, and between different transactions it is a conflict |
| `DependencyGraph.EdgesJoinNearestAccesses` | doc/protocol/04-finality-execution-and-epochs.md:656-680 | two transactions are joined exactly if they share sender or system resource, or touch a key that one of them writes and nobody in between writes |
| `DependencyGraph.SelfEdgesAreReadModifyWrites` | doc/protocol/04-finality-execution-and-epochs.md:665-674 | a self edge is drawn exactly for a transaction that reads and writes one key |
| `DependencyGraph.EdgesPointUpwardsExactly` | doc/protocol/04-finality-execution-and-epochs.md:650 | all edges point from a smaller to a larger index exactly when no transaction reads and writes one key |
| `DependencyGraph.IncrementHasASelfEdge` | doc/protocol/04-finality-execution-and-epochs.md:665-674 | one transaction that reads and writes a key: the output is the edge from it to itself |
| `DependencyGraph.ConflictsAreReached` | doc/protocol/04-finality-execution-and-epochs.md:638-650 | every conflict is still ordered by a path although reader sets are cleared |
| `DependencyGraph.PathsAreExactlyConflictChains` | doc/protocol/04-finality-execution-and-epochs.md:683 | paths of the graph are exactly the chains of conflicts, so the transitive meaning is that of section 5.2 |
| `ParallelExecution.ReadsAreSerial` | doc/protocol/04-finality-execution-and-epochs.md:599-618 | a transaction that runs after its conflicting predecessors sees what it sees serially and does the same |
| `ParallelExecution.LinearExtensionsAreSerial` | doc/protocol/04-finality-execution-and-epochs.md:595-650 | every linear extension of the graph gives the serial outcomes and the serial final state |
| `ParallelExecution.ChosenWriterIsACompletedAncestor` | doc/protocol/04-finality-execution-and-epochs.md:699-705 | the version read is that of the last serial writer below the reader, a completed ancestor in the graph, and the parent state is read exactly when there is none |
| `ParallelExecution.ConcurrentRunsAreSerial` | doc/protocol/04-finality-execution-and-epochs.md:685-705 | every outcome of any overlapping schedule that waits for graph ancestors is the serial outcome |
| `ParallelExecution.ConcurrentBlockIsSerial` | doc/protocol/04-finality-execution-and-epochs.md:685-705 | when all transactions have completed the versions give the serial final state |
| `PrefixCertification.ValidatedExactlyWhenSerial` | doc/protocol/04-finality-execution-and-epochs.md:740-751 | for arbitrary results, behind a certified prefix a result passes the conditions of section 7.1 exactly when it is the serial one with the serial versions, in scope and with its access foreseen or run at a barrier |
| `PrefixCertification.CurrentVersionsMakeItSerial` | doc/protocol/04-finality-execution-and-epochs.md:742-747 | what any run produced on any state is the serial outcome as soon as its recorded versions are the latest, without running it again |
| `PrefixCertification.CertifyPrefix` | doc/protocol/04-finality-execution-and-epochs.md:754-775 | the loop stops at the first failure with the serial state; there is one checkpoint for every completed window, for its last index and with its serial state; it halts exactly when a window end overflows |
| `PrefixCertification.AuthoritativeFallback` | doc/protocol/04-finality-execution-and-epochs.md:777-790 | the fallback runs each suffix index once, in order, and ends in the serial state and receipts |
| `PrefixCertification.ExecuteBlock` | doc/protocol/04-finality-execution-and-epochs.md:736-797 | whatever was speculated, certification and at most one fallback give exactly the serial state and receipts |
| `ScheduledCertification.GraphScheduledResultsCertify` | doc/protocol/04-finality-execution-and-epochs.md:685-747 | whatever overlapping schedule waits for its graph ancestors, what its workers record is certified to the last transaction |
| `ScheduledCertification.ExecuteScheduledBlock` | doc/protocol/04-finality-execution-and-epochs.md:736-797 | such a block ends in the serial state and receipts and executes nothing again |
| `ScheduledCertification.WriterIndexIsEnoughExactly` | doc/protocol/04-finality-execution-and-epochs.md:742-747 | comparing writer indices alone is safe for every transaction exactly when each value read is still what its writer's present result holds |
| `ScheduledCertification.RetriedWriterIsMissedByItsIndex` | doc/protocol/04-finality-execution-and-epochs.md:707-717 | a block with one retried writer whose reader has the latest index, a stale value and not the serial outcome |
| `BlockMmr.Mmr.Append` | doc/protocol/01-data-model-and-cryptography.md:1956-1975 | appending keeps the peaks the perfect-tree hashes of consecutive intervals of the history, or refuses a wrong height and changes nothing |
| `BlockMmr.LevelsAreBinaryDigits` | doc/protocol/01-data-model-and-cryptography.md:1956-1977 | strictly decreasing levels are the binary digits of the number of leaves they cover |
| `BlockMmr.PeaksFollowLeafCount` | doc/protocol/01-data-model-and-cryptography.md:1977 | after any appends the peak levels strictly decrease and are the binary digits of leaf_count |
| `BlockMmr.PeaksAreDetermined` | doc/protocol/01-data-model-and-cryptography.md:1977 | the peaks over a history are unique |
| `BlockMmr.ProofsAreSound` | doc/protocol/01-data-model-and-cryptography.md:1988-2000 | a proof that verifies names the leaf count and the very block at its height |
| `BlockMmr.EveryBlockHasAProof` | doc/protocol/01-data-model-and-cryptography.md:1988-2000 | the generated proof of every block of the history verifies |
| `BlockMmr.OnlyGeneratedProofsVerify` | doc/protocol/01-data-model-and-cryptography.md:1988-2000 | a proof verifies exactly when it is the generated one: no other siblings, sides, levels or peaks pass |
| `BlockMmr.RootBindsHistory` | doc/protocol/01-data-model-and-cryptography.md:1979-1986 | roots are equal exactly when the histories are |
| `OrderedMerkle.GeneratedProofsVerify` | doc/protocol/01-data-model-and-cryptography.md:1863-1875 | every generated proof has the exact length and verifies |
| `OrderedMerkle.ProofsVerifyExactlyForRealItems` | doc/protocol/01-data-model-and-cryptography.md:1863-1875 | a proof verifies exactly when it is the generated proof of the item at its index |
| `OrderedMerkle.RootsBindLists` | doc/protocol/01-data-model-and-cryptography.md:1865-1873 | roots are equal exactly when the lists are, in spite of the duplicated last node |
| `OrderedMerkle.NodesArePaired` | doc/protocol/01-data-model-and-cryptography.md:1873 | each level pairs its nodes from the left, and an odd last node is paired with itself |
| `PrefilterBudget.MaximumCoversEveryItem` | doc/protocol/04-finality-execution-and-epochs.md:148-162 | the three templates cover both charges of every item within the configured limits |
| `PrefilterBudget.MaximumIsAttained` | doc/protocol/04-finality-execution-and-epochs.md:148-162 | some item within the limits costs the maximum, so a smaller reserve would not do |
| `PrefilterBudget.TryChargePrefilter` | doc/protocol/04-finality-execution-and-epochs.md:164 | fails exactly when reserve and shared pool together cannot pay, takes the whole cost otherwise, and touches the shared pool only when the reserve is used up |
| `FilterPass.Filter.FilterOccurrences` | doc/protocol/04-finality-execution-and-epochs.md:230-426 | the loop, from any checkpoint, ends in the state that the specification of its body gives; the marks of that state are `MarkIsExact` |
| `FilterPass.RestartFilter` | doc/protocol/04-finality-execution-and-epochs.md:224-228 | restarting the loop from any state a crash may leave durable gives the outcome of the uninterrupted pass |
| `FilterRecovery.ResumingGivesTheSame` | doc/protocol/04-finality-execution-and-epochs.md:224-228 | executing the body again from the state after any charge or result gives what it gave before: nothing is charged or decided twice |
| `FilterRecovery.CrashesAreInvisible` | doc/protocol/04-finality-execution-and-epochs.md:224-228 | any run that ends, ends with exactly the winners, budgets, attempts and marks of the crash-free pass |
| `FilterRecovery.WorkReachesTheEnd` | doc/protocol/04-finality-execution-and-epochs.md:230-426 | from any state of the machine a bounded amount of work reaches the end |
| `FilterInvariants.StepStays` | doc/protocol/04-finality-execution-and-epochs.md:222-228 | every step keeps the books, the records, the winners' rules and sponsor isolation, and stops only over an invalid causal source |
| `FilterResults.RecoveryNeverFindsCorruption` | doc/protocol/04-finality-execution-and-epochs.md:222-297 | over every run with crashes the durable state passes the recovery checks, and neither RECOVERY_STATE_CORRUPT nor EXECUTION_HALT is reached |
| `FilterResults.PassSucceeds` | doc/protocol/04-finality-execution-and-epochs.md:230-426 | over valid sources the pass ends with every occurrence marked and nothing left in flight or started |
| `FilterResults.InvalidSourceRejectsCandidate` | doc/protocol/04-finality-execution-and-epochs.md:249-257 | one occurrence whose source does not verify makes the candidate invalid, wherever it is |
| `FilterResults.NothingIsChargedTwice` | doc/protocol/04-finality-execution-and-epochs.md:224 | every pool's spend is completed scans plus suffix receipts, and all scans together cost what the unrefused occurrences cost, each once |
| `FilterResults.SuffixReceiptsAreGenuine` | doc/protocol/04-finality-execution-and-epochs.md:222-228 | a suffix receipt is for the exact cost, paid by the author of the carrying vertex, with the result verification gives |
| `FilterResults.SponsorsAreIsolated` | doc/protocol/04-finality-execution-and-epochs.md:164 | no item is capped while its sponsor's own work fits its reserve, whatever the other sponsors do |
| `FilterResults.UntouchedReserveIsNeverCapped` | doc/protocol/04-finality-execution-and-epochs.md:164 | in any state a sponsor whose reserve is untouched gets one item of the largest legal size through |
| `FilterVerdicts.MarkIsExact` | doc/protocol/04-finality-execution-and-epochs.md:274-423 | the mark of every occurrence of the pass, exactly: each mark has its own condition on the occurrence, the parent state, the winners before it and what its sponsor can pay, and is given if and only if that holds |
| `FilterVerdicts.OneMarkIsDeserved` | doc/protocol/04-finality-execution-and-epochs.md:274-423 | the conditions of two different marks exclude each other |
| `FilterVerdicts.HonestOccurrenceWins` | doc/protocol/04-finality-execution-and-epochs.md:228-423 | while a sponsor's work fits its reserve an occurrence wins exactly if it is well formed, in its window, new to the block, backed by its account, next in line, within count and gas, accepted by the preparation, and verified |
| `FilterVerdicts.SourceChecksAreExact` | doc/protocol/04-finality-execution-and-epochs.md:250-279 | the candidate is invalid exactly over an unverified source, an index out of range, a foreign sponsor, or differing bytes where the scan cannot be paid |
| `FilterVerdicts.ForeignScanIsCorruption` | doc/protocol/04-finality-execution-and-epochs.md:290-297 | a restart finds the scan record corrupt exactly if some field is not that of the verified source |
| `FilterVerdicts.ForeignAttemptIsCorruption` | doc/protocol/04-finality-execution-and-epochs.md:394-398 | a started suffix record is corrupt exactly if another cursor or sponsor started it |
| `FilterResults.WinnersAreSound` | doc/protocol/04-finality-execution-and-epochs.md:305-423 | the winners are a subsequence with distinct IDs, all in their window and under the active policy, within count and gas |
| `FilterResults.WinnersAreVerified` | doc/protocol/04-finality-execution-and-epochs.md:394-405 | every winner's own envelope passed the charged verification |
| `FilterResults.NoncesAreContiguous` | doc/protocol/04-finality-execution-and-epochs.md:336-346 | each sender's winners carry the nonces from the parent's next one on without gap, and the next nonce never passes UINT64_MAX |
| `FilterResults.NewAccountsActOnce` | doc/protocol/04-finality-execution-and-epochs.md:319-334 | an account that the block creates has no second winner in it |
| `GrpcLifecycle.HealthBridge.Refresh` | pkg/api/grpcserver/health.go:25-37 | the section under the bridge's mutex, given a snapshot taken before it |
| `GrpcLifecycle.HealthBridge.Shutdown` | pkg/api/grpcserver/health.go:39-47 | stops the bridge once and publishes NOT_SERVING |
| `GrpcLifecycle.Server.ServeEnter` | pkg/api/grpcserver/server.go:139-160 | the entry section of Serve, case by case |
| `GrpcLifecycle.Server.ServeExit` | pkg/api/grpcserver/server.go:164-178 | the closing section of Serve and what Serve returns |
| `GrpcLifecycle.Server.ShutdownBegin` | pkg/api/grpcserver/server.go:192-211 | the first section of Shutdown, case by case |
| `GrpcLifecycle.Server.ShutdownFinish` | pkg/api/grpcserver/server.go:244-251 | stores the error, stops and releases the waiters |
| `GrpcInterleavings.StepKeepsInv` | pkg/api/grpcserver/server.go:133-259 | every step of every call keeps the inductive invariant |
| `GrpcInterleavings.SectionsMeetTheirPreconditions` | pkg/api/grpcserver/server.go:139-251 | in every reachable world each section of the server object is entered with its precondition met |
| `GrpcInterleavings.LifecycleIsSafe` | pkg/api/grpcserver/server.go:133-251 | over every interleaving at most one call enters the library, no channel is closed twice or while nil, the error is written at most once, and stopped after serving means serveDone is closed |
| `GrpcInterleavings.RolesAreHeldOnce` | pkg/api/grpcserver/server.go:139-162 | at most one call is past the entry section, drains, or holds the mutex |
| `GrpcInterleavings.ShutdownsAgree` | pkg/api/grpcserver/server.go:181-259 | every Shutdown past its context checks returns one and the same value |
| `GrpcInterleavings.ShutdownResult` | pkg/api/grpcserver/server.go:203-240 | that value is the context's error exactly if the library was stopped by force, and nil otherwise; nil after a drain means that the graceful stop had ended |
| `GrpcInterleavings.ExpiryIsReported` | pkg/api/grpcserver/server.go:212-240 | an expiry that the drain sees, before, during or after the graceful stop, is what every Shutdown returns in every continuation; a drain that ended in time gives nil |
| `GrpcInterleavings.ServeResultIsExact` | pkg/api/grpcserver/server.go:162-178 | Serve returns the library's error unchanged unless a Shutdown drains; then nil exactly for nil and the library's stop error, and any other error still comes back |
| `GrpcInterleavings.LibraryErrorComesBack` | pkg/api/grpcserver/server.go:162-178 | over every run, what the library returned to Serve is what Serve returns in the end, or nil for a stop that was asked for |
| `GrpcInterleavings.EntryIsExact` | pkg/api/grpcserver/server.go:139-160 | which refusal a late Serve gets, from the state it meets and from how its listener closes |
| `GrpcInterleavings.RefusalsHaveReasons` | pkg/api/grpcserver/server.go:134-160 | every refused Serve has one of four errors, each with its reason in the state |
| `GrpcInterleavings.ArgumentsAreChecked` | pkg/api/grpcserver/server.go:134-190 | over every run a nil listener and a nil or unbounded context give their own error and nothing else |
| `GrpcInterleavings.RefreshPublishesItsSnapshot` | pkg/api/grpcserver/health.go:25-37 | a refresh publishes the snapshot it took unless the bridge was stopped in between, and touches nothing else |
| `GrpcInterleavings.HealthFollowsState` | pkg/api/grpcserver/server.go:194-211 | outside sections health is stopped exactly when the server is stopping or stopped, and the library is asked to stop only after NOT_SERVING |
| `GrpcInterleavings.RunsAdvance` | pkg/api/grpcserver/server.go:42-62 | state and channels never go back and the stored error never changes once its waiters are released |
| `GrpcInterleavings.HealthStaysDown` | pkg/api/grpcserver/health.go:25-47 | after the first section of Shutdown no run shows SERVING again, stale refreshes included |
| `GrpcInterleavings.PendingShutdownsAreNeverStuck` | pkg/api/grpcserver/server.go:183-259 | no reachable world holds up a Shutdown, given that Stop makes the library return |
| `GrpcInterleavings.RunsAreBounded` | pkg/api/grpcserver/server.go:133-259 | every run ends |
| `GrpcInterleavings.FinishedRunsAreComplete` | pkg/api/grpcserver/server.go:133-259 | a run that can go no further has no pending Shutdown, and no pending Serve if one Shutdown succeeded |
| `HttpLifecycle.Server.ServeEnter` | pkg/api/httpserver/server.go:159-176 | the entry section of Serve, case by case |
| `HttpLifecycle.Server.BeforeServeFunc` | pkg/api/httpserver/server.go:181-193 | lets the library serve only while the server is starting |
| `HttpLifecycle.Server.ServeExit` | pkg/api/httpserver/server.go:196-209 | the closing section of Serve and what Serve returns |
| `HttpLifecycle.Server.ShutdownBegin` | pkg/api/httpserver/server.go:224-252 | the first section of Shutdown, case by case |
| `HttpLifecycle.Server.ShutdownFinish` | pkg/api/httpserver/server.go:265-272 | stores the error, stops and releases the waiters |
| `HttpInterleavings.StepKeepsInv` | pkg/api/httpserver/server.go:154-289 | every step of every call keeps the inductive invariant |
| `HttpInterleavings.SectionsMeetTheirPreconditions` | pkg/api/httpserver/server.go:159-272 | in every reachable world each section of the server object is entered with its precondition met |
| `HttpInterleavings.LifecycleIsSafe` | pkg/api/httpserver/server.go:154-272 | no channel is closed twice or while nil, the library serves at most once, the error is written at most once, and starting or serving means listener and open channels |
| `HttpInterleavings.RolesAreHeldOnce` | pkg/api/httpserver/server.go:159-176 | at most one call is past the entry section and at most one drains |
| `HttpInterleavings.ShutdownWhileStartingPreventsServing` | pkg/api/httpserver/server.go:238-248 | a Shutdown that found the server starting keeps serving from ever being entered |
| `HttpInterleavings.ShutdownsAgree` | pkg/api/httpserver/server.go:212-280 | every Shutdown past its context checks returns one and the same value, its own deadline or not |
| `HttpInterleavings.ShutdownResult` | pkg/api/httpserver/server.go:244-289 | that value is nil exactly if the wait for Serve was not cut short and what the listener or the library answered is nil or forgiven; otherwise the answer and the expired deadline, and nothing else, are found in it |
| `HttpInterleavings.DrainIsRecorded` | pkg/api/httpserver/server.go:244-289 | the answer and the deadline meant there are those of the drain's own steps |
| `HttpInterleavings.ServeResultIsExact` | pkg/api/httpserver/server.go:196-209 | Serve returns the library's error unchanged unless a Shutdown drains; then nil exactly for nil and the errors of a stopped server |
| `HttpInterleavings.LibraryErrorComesBack` | pkg/api/httpserver/server.go:178-209 | over every run, what the library returned to Serve is what Serve returns in the end, or nil for a stop that was asked for |
| `HttpInterleavings.EntryIsExact` | pkg/api/httpserver/server.go:159-174 | which refusal a late Serve gets, from the state it meets |
| `HttpInterleavings.RefusalsHaveReasons` | pkg/api/httpserver/server.go:155-174 | every refused Serve has one of three errors, each with its reason in the state |
| `HttpInterleavings.ArgumentsAreChecked` | pkg/api/httpserver/server.go:155-221 | over every run a nil listener and a nil or unbounded context give their own error and nothing else |
| `HttpInterleavings.ServeOutlivesOnlyIfGivenUp` | pkg/api/httpserver/server.go:265-289 | under a stopped server Serve is in progress only if the draining call took its deadline while serveDone was open |
| `HttpInterleavings.GivingUpIsExact` | pkg/api/httpserver/server.go:282-289 | where the drain waits, finishing leaves Serve in progress exactly when the deadline branch was taken with Serve in progress |
| `HttpInterleavings.ShutdownMeansServeExited` | pkg/api/httpserver/server.go:254-289 | a returned Shutdown means that Serve exited unless the drain gave up; nil means that it did not give up |
| `HttpInterleavings.ServeMayOutliveShutdown` | pkg/api/httpserver/server.go:282-289 | a reachable world in which the server is stopped while Serve still runs |
| `HttpInterleavings.LateServeExit` | pkg/api/httpserver/server.go:196-209 | a Serve that outlives the Shutdown closes serveDone, leaves the rest alone and returns nil if it was only stopped |
| `HttpInterleavings.RunsAdvance` | pkg/api/httpserver/server.go:94-102 | state and channels never go back and the stored error never changes once its waiters are released |
| `HttpInterleavings.PendingShutdownsAreNeverStuck` | pkg/api/httpserver/server.go:215-289 | no reachable world holds up a Shutdown, whatever the library and Serve do |
| `HttpInterleavings.RunsAreBounded` | pkg/api/httpserver/server.go:154-289 | every run ends |
| `HttpInterleavings.FinishedRunsHaveNoPendingShutdown` | pkg/api/httpserver/server.go:215-289 | a run that can go no further has no pending Shutdown, even if Serve never returns |
| `HeaderSize.SaturatingAdd` | pkg/api/grpcserver/interceptors.go:228-234 | the wrap-around test computes the smaller of the sum and 2^64-1 |
| `HeaderSize.TotalSizeTakesAnyOrder` | pkg/api/grpcserver/interceptors.go:215-224 | the unbounded total is the same in whatever order the fields are visited |
| `HeaderSize.MetadataSize` | pkg/api/grpcserver/interceptors.go:209-226 | for every iteration order the fold gives the smaller of the true total and 2^64-1 |
| `HeaderSize.ExceedsLimit` | pkg/api/grpcserver/interceptors.go:77-79 | the limit test agrees with the unbounded total |

## Left out

- Signatures, SHA-256, CBOR bytes and key checks: hashes are injective constructors and vertices are already validated.
- Rejoin checkpoints and restricted jumps: a vertex without own parent above round 1 is allowed, but sticky support is claimed only along own parents.
- Pacemaker timers and message delay: that honest primaries are referenced in time after stabilisation is the hypothesis of `FastPath.TimelyPrimariesDecideEverything`; what follows from it is proved.
- DAG commit witnesses, synchronisation and quarantine: they carry the same facts to other nodes.
- Reed-Solomon coding, availability certificates and storage records: byte-level detail.
- The emitted-vertex accumulator and its durable generations: the model keeps the exact set.
- OccurrenceFilter.Cheap: the payload checks and the block reservation are one deterministic function of reservation, transaction and index, because their tables belong to other documents.
- OccurrenceFilter.RunSuffix: the expensive verification is one deterministic predicate of the transaction; a pause of its worker is a crash of the machine.
- OccurrenceFilter.BindingOf: the binding stands for its hash, and byte offsets of the cursor are folded into its position.
- Cross-ledger overlay of the filter: the second, per-proof scheduler follows the pattern of the first.
- PrefilterBudget.ExpensiveWorkCost: sums are unbounded, because the maximal templates keep every legal sum far below 2^64.
- Execution.Tx: gas, events and error codes, a scope violation among them, are part of one receipt value; system conflicts are overlaps of system key sets.
- ParallelExecution.Schedule: version, byte and retry limits of the store are not modelled; reaching one is a failed result, which `PrefixCertification` covers.
- OrderedMerkle.Root: the six tree kinds differ only in their domain, so one kind is modelled.
- Sparse Merkle tree and snapshots: separate structures.
- grpc-go, Fiber, listeners and contexts: their calls return at any time with any error, within the limits stated at the top of the two interleaving modules.
- HttpLifecycle.Is: error identity on the errors named here, not on arbitrary chains.
- Interceptors, routes, logging, configuration checks and request IDs: single-branch facts.
- Freshness of the health status: nothing is claimed about how the published status and the newest snapshot relate.

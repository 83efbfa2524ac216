# AstrContinuum, verified

AstrContinuum keeps a durable journal of chat events, compacts it in the background through leased and fenced jobs,
and assembles a bounded context for every request. This project models five parts of it in Dafny and proves what they
promise, for every input, every run and every reachable state.

1. **Journal, jobs and publication** (`Store*`, `PublicationGate`, `GateReport`, `Repository`). Every public repository method is
   one atomic transaction over sessions, journal, capsules, snapshots, active pointer and jobs. `Store` gives each
   transaction as a function to a committed store or an abort. `StoreCalls.Execute` runs any callers in any order with
   any clocks, including shared worker names and tokens held too long; a crash before commit is an abort. The class
   `Repository.Repository` has the tables as fields that its methods rewrite in place, with explicit rollback, and each
   method is proved against the transaction.
2. **Sparse context solver** (`Vectors` to `ContextEngine`), over exact reals and any dimension: CSR construction,
   the propagation operator, union-find constraint compilation, KKT assembly, Schur elimination with reconstruction,
   and Gaussian elimination with partial pivoting. The end result does not mention matrices: the engine's answer is
   the one vector that meets the constraint rows and minimises the graph's energy against the query, whichever
   coordinates were retained; and with a backend that solves every regular system it answers, within its capacity
   limits, exactly when the regularisation is positive and the rows are well formed and satisfiable. Whatever the backend
   is, a served result holds up to the certificate's limit.
3. **Budgeted assembly** (`Blocks` to `Live`): dependency components, least closed supersets, normal and emergency
   selection, exact trimming, and the wrapper round an untrusted engine. Which request succeeds, with which error it
   fails, and when the engine's choice replaces the plain assembly are all stated exactly.
4. **Tool loop, segmenter and fitting** (`ToolLoop`, `Segmenter`, `Fitting`): the parser that cuts a journal into
   indivisible units, and two later passes that never split one.
5. **Reversible projection** (`Projection`): a message list of object identities rewritten in place and put back.

What is worth knowing before reading the proofs:

- The pointer compare-and-swap of `publish_snapshot` can never lose and `claim_job` can never cancel: in every
  reachable state a session has at most one open job, and its frozen base is the active snapshot. A publication is
  superseded exactly when the candidate's snapshot id or a capsule id collides; when the session has no snapshot yet,
  that same collision aborts the transaction and the job stays as it was.
- `guard_projection` compares only the total number of occurrences of the preserved objects, so a repeated object can
  hide a missing one (`Projection.GuardCountsOnlyTheTotal`). `restore` then refuses, and accepts exactly when the
  current objects occur as often as there are of them.
- `restore` returns the native list plus the appended delta exactly when no system object follows the last current
  object in the native list. A system object there is taken for delta and doubled
  (`Projection.TrailingSystemIsDoubled`), and `verify_native` still holds, because it compares against that same delta.
- `assemble` can fail although everything required fits together. It takes three things: the normal mode leaves a
  required block out, because components before it in candidate order used up the budget; the emergency mode takes
  over; and the blocks of a raw slot have a gap, so that it keeps only the contiguous tail. `RawGaps` exhibits such a
  request. For an additive counter and raw blocks that are required and companions of nothing, `assemble` succeeds
  exactly when the required components fit jointly and either the raw slots have no gaps or the normal mode misses
  nothing.
- `select_live_context` fails open for everything the engine does, but not for the tokenizer: a TokenizerError of the
  final assembly leaves the function, although the plain assembly has already succeeded. A request succeeds exactly when
  the plain assembly does and no certified choice of the engine leads to a final text that the tokenizer refuses;
  `RefusedChoice` exhibits a refused choice. With a tokenizer that never refuses, no engine can make a request fail.
- The reference backend reports SINGULAR exactly when some column has no pivot candidate above ε·‖M‖·n. That includes
  every singular matrix and also regular ones, such as the diagonal matrix of 1 and 2⁻⁶⁰ (`TinyPivot`); with tolerance
  zero it would be exactly the singular ones. A matrix it refuses is always within the tolerance of singular: it maps a
  vector with a component 1 to components of at most ε·‖M‖·n.

Numbers are exact reals and unbounded integers, ids and texts are strings ordered by code point, times are integers.
Fingerprints, token counters, prompt costs and linear solves are function arguments. A linear backend is `Exact` when
each solution it reports solves the system it was given; `Backend.SolveReference` is proved to meet that. It is
`Complete` when it solves every square system whose matrix has no kernel; the reference backend is not, for its tolerance.

## Model

| member | source | states |
|---|---|---|
| PublicationGate.PassedIff | astrcontinuum/domain/validation.py:122-307 | a submission passes the permanent gate iff its shape, grounding of every cited source, continuity of items and anchors, declared quality and token cost are all right |
| GateReport.CodesMean | astrcontinuum/domain/validation.py:152-298 | each failure code is reported iff what it stands for is the case, said of the capsules, events and snapshots field by field |
| GateReport.ReportMeans | astrcontinuum/domain/validation.py:233-307 | the reported coverage and recall are the shares of evidenced provenance lists and kept anchors, lowered to the least declared value, and the reported counts are those of lists without evidence and of missing events, raised to the declared sums |
| Repository.Repository.constructor | astrcontinuum/storage/repository.py:226-243 | a new repository holds the empty store |
| Repository.Repository.Capture | astrcontinuum/storage/repository.py:1684-1828 | the tables after a capture, and its reply, are those of the capture transaction: replay, conflict or the next sequence |
| Repository.Repository.Raise | astrcontinuum/storage/repository.py:844-968 | raising an intent folds it into the open job, inserts one, or reports that it is covered, exactly as the transaction says |
| Repository.Repository.ScanEligible | astrcontinuum/storage/repository.py:986-1000 | the scan finds the first eligible row of the claim order |
| Repository.Repository.Claim | astrcontinuum/storage/repository.py:970-1056 | the cancelling claim loop ends in the state and reply of the claim transaction |
| Repository.Repository.Transition | astrcontinuum/storage/repository.py:1058-1118 | a fenced state change writes exactly one row or nothing |
| Repository.Repository.Renew | astrcontinuum/storage/repository.py:1120-1167 | a fenced renewal only extends the lease |
| Repository.Repository.Fail | astrcontinuum/storage/repository.py:1169-1262 | a fenced failure ends the job or schedules its retry |
| Repository.Repository.Recover | astrcontinuum/storage/repository.py:1264-1315 | the sweep returns every expired lease to PENDING, keeping all other rows, and returns the recovered rows of the sweep transaction |
| Repository.Repository.InsertCapsuleRows | astrcontinuum/storage/repository.py:2267-2344 | capsule rows are inserted or verified one by one, or a conflict is reported |
| Repository.Repository.TryInsert | astrcontinuum/storage/repository.py:1417-1523 | the savepoint either inserts the whole candidate and moves the pointer or leaves the tables as they were |
| Repository.Repository.PreserveFollowUp | astrcontinuum/storage/repository.py:2506-2589 | an uncovered intent is folded into the open job or becomes a new job |
| Repository.Repository.FinishJob | astrcontinuum/storage/repository.py:2464-2504 | the terminal transition and the follow-up happen together or not at all |
| Repository.Repository.Publish | astrcontinuum/storage/repository.py:1317-1577 | a publication leaves the tables and reply of the publication transaction, with every rollback |
| StoreInvariant.ClaimLeasesFirst | astrcontinuum/storage/repository.py:970-1056 | under the invariant a claim never cancels: it leases the first eligible row |
| StoreInvariant.EventsBetweenComplete | astrcontinuum/storage/repository.py:2242-2265 | the journal slice of a covered range has every sequence once, one session, and cites exactly that range |
| StoreGrowth.CaptureKeeps | astrcontinuum/storage/repository.py:1684-1828 | a capture keeps the whole invariant, sources, chains and jobs included |
| StorePublication.InsertCapsulesMeaning | astrcontinuum/storage/repository.py:2267-2344 | inserting capsules fails iff one of them is refused; otherwise old rows stay, all are stored and nothing else appears |
| StorePublication.AdmissionMeans | astrcontinuum/storage/repository.py:1338-1416 | every admitted candidate continues its session's chain: base, coverage, sources, anchors and items |
| StoreOutcome.SavepointIff | astrcontinuum/storage/repository.py:1417-1523 | the savepoint rolls back exactly on an identity collision |
| StoreOutcome.AdmittedOutcomes | astrcontinuum/storage/repository.py:1417-1577 | an admitted publication is superseded iff it collides, aborts only for want of a winner or of a fresh follow-up id, and keeps the invariant |
| StoreRuns.ReachableInv | astrcontinuum/storage/repository.py:844-1577 | every state of every run from the empty store satisfies the invariant |
| StoreRuns.OpenJobs | astrcontinuum/storage/migrations.py:330-339 | in every reachable state a session has at most one open job, its base and version are the active ones, its target and intent exceed the coverage, its compare-and-swap would win, and every row is well formed |
| StoreRuns.SupersededIff | astrcontinuum/storage/repository.py:1417-1577 | in every reachable state SUPERSEDED arises exactly from a collision, never from a lost pointer race |
| StoreRuns.CommitAdvances | astrcontinuum/storage/repository.py:2412-2462 | a committed publication makes the candidate active one version on, covering exactly the job's target, for its own session only; a superseded one changes no table |
| StoreRuns.NeverCorrupt | astrcontinuum/storage/repository.py:2002-2100 | no call on a reachable store finds its rows inconsistent |
| StoreHistory.ReachableShape | astrcontinuum/storage/repository.py:1684-1828 | journal sequences are exactly 1 to next-1, snapshots form one base-linked chain of growing coverage, and the pointer is its end at version equal to its length |
| StoreHistory.ViewsAreAccepted | astrcontinuum/runtime/read_view.py:26-73 | every request view is the last stored snapshot row with its stored capsules plus a gap-free delta to the high-water mark and passes the reader's checks, or the digest belongs to another identity |
| StoreHistory.CompactionViewsAreAccepted | astrcontinuum/storage/repository.py:461-540 | a worker with a live lease always gets the stored row of its job's frozen base, with its stored capsules, and exactly the journal events from there to its target |
| StoreHistory.AnchorsAreForever | astrcontinuum/domain/validation.py:188-249 | an anchor active in a committed snapshot is active, field for field, in every later one |
| StoreHistory.SemanticsLeaveOnlyByDelta | astrcontinuum/domain/validation.py:188-249 | an active item leaves the active set only at a step with a superseded or retracted record that cites an event of that step's delta |
| StoreHistory.SourcesAreCovered | astrcontinuum/storage/repository.py:1378-1407 | every source cited by an active item, an active anchor or a capsule names a journal event of the session within the coverage |
| StoreFencing.ApplyRows | astrcontinuum/storage/repository.py:844-1577 | no call ever lowers an epoch or an intent, renames a row, or changes a terminal one |
| StoreFencing.TerminalIsFinal | astrcontinuum/storage/repository.py:1058-1315 | a terminal job is never changed again by any continuation |
| StoreFencing.EpochGrantedOnce | astrcontinuum/storage/repository.py:970-1056 | along any run a (job, epoch) pair is granted by at most one claim |
| StoreFencing.OldEpochsAreInert | astrcontinuum/storage/repository.py:2102-2128 | once a higher epoch is granted, no call with an older one changes any row, whatever the clocks and owner names |
| StoreFencing.PublishesOnce | astrcontinuum/storage/repository.py:2464-2504 | after a job's publication every call with its token is inert, so a job publishes at most once |
| StoreFencing.ClaimTakesOldest | astrcontinuum/storage/repository.py:986-1056 | a claim takes the oldest eligible job, freezes its whole intent and the active base under a new epoch, changes no other row, and takes none only if none is eligible |
| StoreFencing.FirstEligibleIsLeast | astrcontinuum/storage/repository.py:986-1000 | every other eligible row comes after the one the scan picks |
| StoreFencing.SweepReturnsInOrder | astrcontinuum/storage/repository.py:1273-1315 | the sweep returns exactly the rows whose lease had expired, in claim order |
| StoreIntents.RaiseHonours | astrcontinuum/storage/repository.py:887-968 | an accepted intent is at once covered, or the open job of its session has at least that intent |
| StoreIntents.IntentIsNeverLost | astrcontinuum/storage/repository.py:2506-2589 | at every later point of any run the coverage reaches the intent, or the row descended from the very job that carried it at the raise has at least that intent and is open or, after the raise, failed |
| StoreEffects.CaptureMeans | astrcontinuum/storage/repository.py:1684-1828 | a request whose session, type and idempotency key are journaled changes nothing and gets the stored event iff every field agrees, else a conflict; otherwise it commits iff its event id is unused and its texts can be stored, appending exactly one event with every field of the request at the next sequence |
| StoreEffects.TuplesAreUnique | astrcontinuum/storage/migrations.py:123 | no two journal rows of a session share type and idempotency key in any reachable store |
| StoreEffects.RowsAreShaped | astrcontinuum/domain/jobs.py:63-103 | in every reachable store each row has exactly what its state calls for: lease, candidate, error tuple, retry time and commit time |
| StoreEffects.RowsReadBack | astrcontinuum/storage/repository.py:2691-2834 | in every reachable store each snapshot row is committed and lists exactly the ids of its stored capsules, which are of its session, and of their active anchors |
| StoreEffects.RaiseMeans | astrcontinuum/storage/repository.py:844-968 | each refusal in its case; a covered intent changes nothing; a larger one raises the intent of the open row only; without an open row a fresh one is added, every field given |
| StoreEffects.ClaimMeans | astrcontinuum/storage/repository.py:970-1056 | a claim is refused exactly for a blank worker or a lease that ends by now; otherwise it rewrites exactly the oldest waiting row, field by field, or there is none |
| StoreEffects.MoveMeans | astrcontinuum/storage/repository.py:1058-1118 | a move by the holder writes state and candidate of its row iff the move is legal and a candidate is named for READY_TO_COMMIT only; without a live lease it is stale |
| StoreEffects.RenewMeans | astrcontinuum/storage/repository.py:1120-1167 | a renewal by the holder writes the later expiry and nothing else |
| StoreEffects.FailMeans | astrcontinuum/storage/repository.py:1169-1262 | a failure by the holder releases its row as FAILED, or as RETRY_WAIT that can be claimed from the given time on, with the error as given and a preserved attempt taken back |
| StoreEffects.SweepMeans | astrcontinuum/storage/repository.py:1264-1315 | exactly the rows whose lease has run out go back to PENDING, where they can be claimed at once |
| StoreEffects.CallsMean | astrcontinuum/storage/repository.py:844-1315 | in every reachable store each of these calls has exactly that effect or that error |
| StorePublished.AdmissionIs | astrcontinuum/storage/repository.py:1338-1416 | a publication is admitted, or refused with the error of the first failing check, each check and each reported failure code spelled out |
| StorePublished.FinishLeaves | astrcontinuum/storage/repository.py:2464-2589 | the terminal row, all other rows, the follow-up row and the reply of either branch, field by field; it aborts iff a follow-up is needed and its id cannot be used |
| StorePublished.PublicationsMean | astrcontinuum/storage/repository.py:1317-1577 | in every reachable store an admitted publication is COMMITTED with commit time over exactly the tables with its row, capsules and pointer added, or, when an identity is taken, SUPERSEDED without commit time by the active snapshot, if there is one |
| Entries.SameForm | astrcontinuum/context_graph/matrix.py:95-138 | lists of the same matrix have the same bilinear form |
| SparseMatrix.FromEntries | astrcontinuum/context_graph/matrix.py:95-138 | the CSR matrix of a coordinate list has exactly its sums as elements, in row-major order without zeros; refused iff a coordinate does not fit |
| SparseMatrix.Pack | astrcontinuum/context_graph/matrix.py:123-138 | the cursor walk stores exactly the ordered entries and passes the constructor's checks |
| SparseMatrix.StoredRowMajor | astrcontinuum/context_graph/matrix.py:24-67 | the constructor's checks make each coordinate stored once, in order |
| SparseMatrix.MatVec | astrcontinuum/context_graph/matrix.py:146-159 | the product with any vector of the right length |
| SparseMatrix.TransposeMatVec | astrcontinuum/context_graph/matrix.py:161-172 | the product of the transposed matrix |
| SparseMatrix.Submatrix | astrcontinuum/context_graph/matrix.py:174-196 | the elements at the listed rows and columns, refused iff indices repeat or do not fit |
| SparseMatrix.ToDense | astrcontinuum/context_graph/matrix.py:198-215 | the dense rows are the matrix rows |
| Propagation.BuildOperator | astrcontinuum/context_graph/matrix.py:218-244 | the operator is the sum of the diagonal and relation entries, refused iff the regularisation is not positive |
| Propagation.OperatorEnergy | astrcontinuum/context_graph/matrix.py:218-244 | the operator's bilinear form is the graph's energy: regularised diagonal plus weighted products of the relations |
| Propagation.OperatorSymmetric | astrcontinuum/context_graph/matrix.py:218-244 | the operator is symmetric |
| Propagation.OperatorBound | astrcontinuum/context_graph/matrix.py:218-244 | xᵀMx is at least the regularisation times the squared norm |
| DisjointSets.DisjointSet.constructor | astrcontinuum/context_graph/constraints.py:58-60 | every value starts as its own representative |
| DisjointSets.DisjointSet.Find | astrcontinuum/context_graph/constraints.py:62-66 | find returns the representative; compression changes links but no representative |
| DisjointSets.DisjointSet.Union | astrcontinuum/context_graph/constraints.py:68-72 | union joins exactly two classes under the left representative |
| Constraints.ClassifyMeans | astrcontinuum/context_graph/constraints.py:75-85 | a classified row has the meaning of the original row |
| Constraints.EchelonIsIndependent | astrcontinuum/context_graph/constraints.py:138-152 | rows with a pivot column unused by later rows are linearly independent |
| ConstraintMerging.ClassVectorHolds | astrcontinuum/context_graph/constraints.py:118-131 | when all pins agree, some vector satisfies every row |
| ConstraintCompiler.ReadRows | astrcontinuum/context_graph/constraints.py:107-116 | rows are classified in order, the first bad one decides the error, and the certificate entries are the rows as written |
| ConstraintCompiler.CollectPins | astrcontinuum/context_graph/constraints.py:123-131 | either every fix is recorded for its class, or no vector satisfies the rows |
| ConstraintCompiler.WriteRows | astrcontinuum/context_graph/constraints.py:138-152 | the entry loop writes exactly the rows of the groups |
| ConstraintCompiler.Compile | astrcontinuum/context_graph/constraints.py:88-167 | the compiled and the certificate system hold for a vector iff every original row does, each certificate row is the original row, compiled rows are independent, columns lie in the support; it is refused for a coordinate without a name or a name given twice, then by the first row that names something unknown or neither fixes a coordinate to 0 or 1 nor sets two equal, and then as CONTRADICTORY iff no vector satisfies the rows |
| Elimination.PivotRow | astrcontinuum/context_graph/backends.py:206-207 | the first row of largest magnitude |
| Elimination.Triangularise | astrcontinuum/context_graph/backends.py:206-224 | the loop computes the elimination of the specification, swaps and updates keep the solution set, pivots exceed the tolerance, and nothing is left below the diagonal |
| Elimination.StuckIsNearlySingular | astrcontinuum/context_graph/backends.py:206-210 | elimination gives up only if the matrix as given maps some vector with a component 1 to components within the tolerance |
| Elimination.KernelGetsStuck | astrcontinuum/context_graph/backends.py:206-210 | a singular matrix is refused at every tolerance |
| Elimination.StuckIffSingular | astrcontinuum/context_graph/backends.py:206-210 | without a tolerance elimination gives up exactly on the singular matrices |
| Elimination.RegularIsSolvable | astrcontinuum/context_graph/backends.py:206-232 | a square system whose matrix has no kernel has a solution |
| Elimination.BackSubstitute | astrcontinuum/context_graph/backends.py:226-232 | back substitution solves the triangular system |
| Elimination.SolutionIsUnique | astrcontinuum/context_graph/backends.py:206-232 | a triangular system with nonzero pivots has at most one solution |
| Backend.InfinityNorm | astrcontinuum/context_graph/matrix.py:247-254 | the largest absolute row sum, attained |
| Backend.SolveReference | astrcontinuum/context_graph/backends.py:175-254 | whatever vector is returned solves the given system and is its only solution; every status arises exactly in its case, and a solution is withheld exactly when elimination finds no pivot or the pivots spread beyond the failure bound |
| Backend.RefusedIsNearlySingular | astrcontinuum/context_graph/backends.py:200-210 | a matrix refused as singular is within ε·‖M‖·n of one, and a singular one is always refused |
| TinyPivot.RegularYetRefused | astrcontinuum/context_graph/backends.py:203-210 | the diagonal matrix of 1 and 2⁻⁶⁰ is regular and finds no second pivot |
| TinyPivot.SolveScaled | astrcontinuum/context_graph/backends.py:175-210 | the backend answers SINGULAR for that matrix and any right-hand side |
| Backend.IdealIsExactAndComplete | astrcontinuum/context_graph/backends.py:175-254 | backends that are exact and solve every regular system exist |
| ConstrainedSolver.SolveConstrained | astrcontinuum/context_graph/solver.py:27-90 | the reply is the backend's answer to the bordered system, cut in two; with an exact backend the parts satisfy Mx + Cᵀu = q and Cx = d, and a complete one answers whenever only zero solves the homogeneous system |
| ConstrainedSolver.KktUnique | astrcontinuum/context_graph/solver.py:66-90 | for a coercive operator and independent rows the system has at most one solution |
| ConstrainedSolver.KktExists | astrcontinuum/context_graph/solver.py:66-90 | and it has one, whatever the right-hand sides |
| Reduction.ReconstructionSolves | astrcontinuum/context_graph/reduction.py:213-289 | a solution of the reduced system, reconstructed, solves the full one with the same multipliers |
| Reduction.ReducedOnlyZero | astrcontinuum/context_graph/reduction.py:84-210 | if only zero solves the full homogeneous system, only zero solves the reduced one |
| StateReducer.PrincipalRegular | astrcontinuum/context_graph/reduction.py:120-176 | the eliminated block of an operator for which only zero has no energy is regular |
| StateReducer.SchurEntries | astrcontinuum/context_graph/reduction.py:178-187 | the corrected entries are M_RR minus M_RE times the solved columns |
| StateReducer.ProjectConstraints | astrcontinuum/context_graph/reduction.py:65-81 | projected constraints are the retained columns with the same right-hand side |
| StateReducer.ReduceState | astrcontinuum/context_graph/reduction.py:84-210 | with an exact backend the reduction satisfies the elimination and Schur equations; argument errors are raised exactly in their cases, and no elimination solve fails with a complete backend and a definite operator |
| StateReducer.ReconstructionHasNoError | astrcontinuum/context_graph/reduction.py:267-289 | the eliminated rows hold exactly for a reconstructed solution of a faithful reduction |
| StateReducer.SolveProjected | astrcontinuum/context_graph/reduction.py:213-289 | status and multipliers are those of the reduced system's answer, and one too short to reconstruct from is an exception; the reported error is the normalised residual of the eliminated rows; with an exact backend the projected path solves the full constrained system without that error, and with a complete one it answers when the reduced system is regular |
| PropagationEngine.KktMinimises | astrcontinuum/context_graph/solver.py:66-90 | every vector that meets the constraints costs the solution's cost plus the energy of the difference |
| PropagationEngine.MinimiserIsUnique | astrcontinuum/context_graph/engine.py:189-236 | the constrained minimiser is unique |
| PropagationEngine.PathsAgree | astrcontinuum/context_graph/engine.py:189-236 | for the engine's operator and compiled rows the reduced and the full path give the same scores and multipliers |
| PropagationEngine.MinimiserExists | astrcontinuum/context_graph/engine.py:172-236 | a compiled problem has a constrained minimiser, whatever the query |
| PropagationEngine.Propagate | astrcontinuum/context_graph/engine.py:172-251 | with an exact backend the answer meets every constraint row and beats every other vector that does, whichever coordinates are retained; with an exact and complete one the solve, which the engine enters only within its capacity limits, answers iff the regularisation is positive and the rows are well formed and satisfiable |
| Certificates.NormalizedMeans | astrcontinuum/context_graph/engine.py:27-35 | an error within the limit bounds every component of the residual by the limit times the scale, and a vanishing residual has error zero |
| Certificates.StationarityError | astrcontinuum/context_graph/engine.py:38-60 | the largest component of Mx - q + Cᵀu over its scale, none when a length does not fit or it is infinite |
| Certificates.RowsError | astrcontinuum/context_graph/engine.py:63-74 | the largest component of Ax - b over its scale, none when a length does not fit or it is infinite |
| Certificates.KktHasNoError | astrcontinuum/context_graph/engine.py:38-60 | a solution of the constrained system has stationarity error zero |
| ContextEngine.ExpansionExceeds | astrcontinuum/context_graph/engine.py:77-88 | the loop that divides instead of squaring answers whether the squares of the relation sizes sum up to more than the limit |
| ContextEngine.RowsAccurate | astrcontinuum/context_graph/engine.py:63-74 | an accepted constraint error bounds the defect of every original row |
| ContextEngine.MinimiserIsOptimal | astrcontinuum/context_graph/engine.py:183-187 | the minimiser for the query costs less than every other vector that meets the rows, where the cost is the energy minus twice the sum of score times value over the activated coordinates |
| ContextEngine.KeptMeans | astrcontinuum/context_graph/engine.py:188-203 | eliminated are exactly the coordinates not retained, not required and in no constraint row, and none when nothing is named to retain |
| ContextEngine.Judge | astrcontinuum/context_graph/engine.py:253-355 | the reply to a solution is served iff the three errors exist and are within the limit, every required candidate reaches the threshold and every selected source is known; ACTIVE selects the candidates at the threshold in coordinate order, SHADOW none; a degraded reply says what failed |
| ContextEngine.Solve | astrcontinuum/context_graph/engine.py:136-355 | the reply in every mode and case; for any backend, a served result is within capacity and satisfies stationarity for the activated scores, every constraint row, and the reconstruction of what was eliminated up to the limit; with an exact one its scores are the one optimum for the activation; with an exact and complete one it is served iff capacity, activation and rows are right and the optimum passes the gates |
| Closure.CompanionsMean | astrcontinuum/context_graph/closure.py:20-29 | two blocks are companions iff one of them is a dependency and they come from one capsule or cite a common event |
| Closure.DependencyGroups | astrcontinuum/context_graph/closure.py:31-58 | the groups are exactly the connected components of the companion relation, members in list order, groups by first member; refused iff ids repeat |
| Closure.ClosureIsLeast | astrcontinuum/context_graph/closure.py:71-110 | the closure holds its seed, is closed, and lies in every closed superset |
| Closure.ClosureIsUnion | astrcontinuum/context_graph/closure.py:71-110 | the closure is the union of the components it touches |
| ClosureLoop.RemovableGroups | astrcontinuum/context_graph/closure.py:61-68 | exactly components without required blocks; if there are none, every block's component holds a required one |
| ClosureLoop.CloseDependencies | astrcontinuum/context_graph/closure.py:71-110 | the loop ends in the least closed superset of selected and required blocks, and the capacity error is raised iff that set exceeds the bound |
| ClosureLoop.ValidateClosure | astrcontinuum/context_graph/closure.py:113-130 | a pack validates iff it is its own closure in list order, holds the required blocks and fits the bound |
| BlockOrder.OrderedIsSorted | astrcontinuum/runtime/budget.py:66-95 | the order never puts a later key first and is a permutation |
| BlockOrder.OrderedMeans | astrcontinuum/runtime/budget.py:66-95 | no block directly precedes one of an earlier slot, or in its slot one with a smaller sequence or higher score, then by id and the remaining fields |
| BlockOrder.FirstsMean | astrcontinuum/runtime/budget.py:118-130 | of each id exactly the first block is kept, in order |
| BlockOrder.Deduplicate | astrcontinuum/runtime/budget.py:118-130 | canonical blocks and repeats together are the input |
| BlockOrder.CanonicalMeans | astrcontinuum/runtime/budget.py:133-139 | canonical candidates have each id once, all ids, and only input blocks |
| NormalSelection.SelectNormal | astrcontinuum/runtime/budget.py:208-254 | the normal mode is the greedy pass over components in candidate order, handles every block once, stays within the budget, and says exactly whether a required block is missing |
| EmergencySelection.ContiguousTail | astrcontinuum/runtime/budget.py:257-274 | the longest suffix of the sequenced blocks without a gap: each begins as many sequences after the one before as that one has sources |
| EmergencySelection.LongestSuffix | astrcontinuum/runtime/budget.py:277-306 | the longest suffix that fits beside the critical blocks |
| EmergencySelection.SelectEmergency | astrcontinuum/runtime/budget.py:309-433 | the emergency mode is the slot-by-slot pass: shared components first, then of the tail behind the last gap the longest suffix that fits; it handles every block once and stays within the budget; when raw blocks are required and companions of nothing, it selects all required blocks iff the needed components fit and the raw slots have no gaps, and then exactly those components |
| Budget.JoinedCost | astrcontinuum/runtime/budget.py:177-187 | for an additive counter the exact cost of a projection is its estimate |
| Budget.LowestPriority | astrcontinuum/runtime/budget.py:436-449 | the removable group whose first block comes last |
| Budget.NextIsUnique | astrcontinuum/runtime/budget.py:436-449 | there is never a choice which component goes next |
| Budget.InputBudgetIs | astrcontinuum/runtime/budget.py:577-581 | the input budget is the one number within target, ceiling and what the context leaves beside the reserved output that meets one of the three |
| Budget.TrimExactly | astrcontinuum/runtime/budget.py:452-482 | the trimming loop ends, removes the removable component whose first block comes last until the exact count fits, keeps required blocks and whole components, fails exactly when a count fails or nothing removable is left, and accounts for every removal |
| Budget.NeverInternal | astrcontinuum/runtime/budget.py:142-153 | the internal checks for repeated ids and for the total never fire |
| Budget.NeverRefused | astrcontinuum/runtime/budget.py:52-65 | only a tokenizer that refuses some text makes a request fail as refused |
| Budget.Assemble | astrcontinuum/runtime/budget.py:553-656 | success, the error in the order of the checks, mode, selected blocks and reported rejections are exactly those of counting, choosing and trimming; every total is at most the target and the ceiling and, with the reserved output, at most the context limit, and the reported budget is the greatest number of which that is true; every assembly holds all required blocks and whole components and accounts for every input candidate once; in the favourable case it succeeds iff the needed components jointly fit and the raw slots have no gaps or the normal mode misses nothing, and then trims nothing |
| RawGaps.FirstTakesAll | astrcontinuum/runtime/budget.py:208-254 | when the first of candidates without companions takes the whole budget, the normal mode misses every required block behind it |
| RawGaps.GapDefeatsRequest | astrcontinuum/runtime/budget.py:257-274 | required blocks of 4 of 10 tokens with a gap between two raw ones are infeasible behind an optional goal of 10; every block and the configuration meet their constructors' demands |
| RawGaps.AssembleAcrossGap | astrcontinuum/runtime/budget.py:553-656 | that request fails although its joint cost is within the budget |
| Live.ScoreForPack | astrcontinuum/context_graph/live.py:147-170 | scoring fails iff an optional block has no usable count; it changes only score and reason, and no required block, and an optional score times its tokens, at least one, is the positive part of the activation |
| Live.Consult | astrcontinuum/context_graph/live.py:259-272 | the engine is asked once, and once more with every coordinate exactly when its first answer asks for it; the last reply counts, an exception as no answer |
| Live.FinalPack | astrcontinuum/context_graph/live.py:327-383 | a pack is accepted iff the choice passes the gates before the assembly and the assembly keeps the whole least closed set over the engine's and the required blocks, and is then safe; a tokenizer refusal passes through, iff the assembly is reached and ends in one |
| Live.EngineCannotStop | astrcontinuum/context_graph/live.py:368-369 | with a tokenizer that never refuses after the engine was asked, no engine leads to a refused assembly |
| Live.AskEngine | astrcontinuum/context_graph/live.py:206-397 | what follows the plain assembly keeps it, replaces it or stops, each in exactly its case, with the trace of that case |
| Live.SelectLive | astrcontinuum/context_graph/live.py:173-397 | the request succeeds iff the plain assembly of its canonical candidates does and no certified choice of the engine ends in a tokenizer refusal, and the error is exact; whatever the engine returns or raises, the assembly fits, holds every required candidate and is dependency-closed; it is ACTIVE iff the last reply is certified and its exact closure survives every gate, and the plain assembly otherwise; the trace names the outcome, the error and the retries of each case |
| RefusedChoice.ChoiceRefused | astrcontinuum/context_graph/live.py:338-369 | three candidates that the plain assembly takes, and a certified choice of two whose joined text the tokenizer refuses, throughout or only after the engine was asked |
| RefusedChoice.SelectRefused | astrcontinuum/context_graph/live.py:173-369 | that request fails with the refusal |
| ToolLoop.UnitsIff | astrcontinuum/runtime/tool_loop.py:276-293 | parsing succeeds with some units iff the events are contiguous and those units split them into non-tool singletons and closed rounds, so the split is unique and rejoins to the input |
| ToolLoop.UnitsAppend | astrcontinuum/runtime/tool_loop.py:276-293 | after a stable prefix the units are the prefix's units followed by the rest's |
| ToolLoop.InvalidPrefix | astrcontinuum/runtime/tool_loop.py:169-259 | an invalid prefix makes every extension invalid |
| ToolLoop.Advance | astrcontinuum/runtime/tool_loop.py:208-253 | each branch of the loop body is the transition of the machine |
| ToolLoop.ParseEvents | astrcontinuum/runtime/tool_loop.py:169-259 | the one-pass loop computes state, pending multiset and units of the machine, and refuses gaps and mixed sessions |
| Segmenter.ValidateEvents | astrcontinuum/compaction/segmenter.py:80-90 | accepted iff nonempty, one session and contiguous; otherwise the first event out of line decides the error |
| Segmenter.SegmentUnits | astrcontinuum/compaction/segmenter.py:32-77 | the loop cuts only between units; each run ends as soon as it has to, after an oversized unit, at the end, at a limit, after a unit with a preferred sequence, or when the next unit does not fit, and its reason says which of these came first |
| Segmenter.RunsAreUnique | astrcontinuum/compaction/segmenter.py:32-77 | the runs and their reasons are determined by that |
| Segmenter.PreferredEndsMean | astrcontinuum/compaction/segmenter.py:93-108 | the preferred sequences are those of the first given ones, up to the limit, that lie within the events and before the last |
| Segmenter.GrownIsLegal | astrcontinuum/compaction/segmenter.py:51-75 | each such run is admissible, and without preferred sequences, when every unit costs a token, could not take one more unit |
| Segmenter.MaximalIsLeast | astrcontinuum/compaction/segmenter.py:51-75 | such a partition has the fewest segments of all admissible ones |
| Segmenter.SegmentJournal | astrcontinuum/compaction/segmenter.py:11-77 | segmentation succeeds iff events, metrics and tool loops are valid, each error in its case, with segments that are such runs |
| Segmenter.SegmentationPromises | astrcontinuum/compaction/segmenter.py:11-77 | segments rejoin to the source, hold whole units with their range and cost, obey both limits unless one unit alone, and are fewest without preferred boundaries when every unit costs a token |
| Fitting.Normalise | astrcontinuum/compaction/astrbot_backend.py:656-692 | whatever the segments, a run of units ends exactly where it passes the end of a given segment, with the reason of the last one passed, or at the end of the input; segments already cut between units are returned unchanged |
| Fitting.SegmentThenNormalise | astrcontinuum/compaction/astrbot_backend.py:656-692 | the segmenter's output, which exists iff the input is valid, rejoins to it and is unchanged by normalising |
| Fitting.SplitRun | astrcontinuum/compaction/astrbot_backend.py:592-637 | a segment is regrouped at unit boundaries into pieces that grew within the limit and could not take the next unit, the last one with the given reason, or one unit alone exceeds the limit |
| Fitting.FitSegments | astrcontinuum/compaction/astrbot_backend.py:560-590 | fitted pieces rejoin to the source events, none included, hold whole units and are within the limit, each a whole normalised segment or such a piece of one that exceeds it; too-large is raised only if one unit alone exceeds it, and whenever one does if more events never cost less |
| Projection.GuardProjection | astrcontinuum/runtime/projection.py:128-176 | the guard captures list, preserved objects and history, which is the list without them in order; each refusal in its case: nothing current or an object listed twice, or occurrences that do not add up |
| Projection.Project | astrcontinuum/runtime/projection.py:179-231 | the list becomes what is not history, in order, with the projection before the first occurrence of the first current object, or stays unchanged, with each refusal in its case |
| Projection.Restore | astrcontinuum/runtime/projection.py:234-286 | the list becomes the pre-projection objects plus what follows the last current object, or stays unchanged, with each refusal in its case |
| Projection.AscendingIffInOrder | astrcontinuum/runtime/projection.py:97-125 | the position test holds iff the objects appear in the listed order |
| Projection.RestoreAdmitted | astrcontinuum/runtime/projection.py:234-286 | after any rewrite before the current objects and any appended delta, restore is accepted iff the native list held the current objects as often as there are of them |
| Projection.RoundTrip | astrcontinuum/runtime/projection.py:128-296 | the restored list is native plus the system objects behind the last current one plus the delta, hence native plus delta iff there are none, and the native check holds |
| Projection.TrailingSystemIsDoubled | astrcontinuum/runtime/projection.py:274-286 | a guarded and projected list of a current and a system object comes back with the system object twice |
| Projection.GuardCountsOnlyTheTotal | astrcontinuum/runtime/projection.py:60-61 | a list the guard accepts although a current object is missing |

## Left out

- Encryption, key handling and rekeying of stored values: rows hold plaintext, ids are arbitrary strings that may collide.
- SQLite mechanics, busy retries and migrations: only atomicity, savepoint rollback and the uniqueness and check constraints are kept; a repeated WHERE on the row a transaction has just read is one check.
- Token metrics, metric backfill and canonical observations of the repository: separate tables that carry no protocol state.
- Reorganization record rows: their checks and their quality floor are modelled, the ledger table itself is not.
- Worker loops, heartbeats and the scheduler: replaced by arbitrary callers of the transactions.
- Floating-point rounding, finiteness checks, backward errors and the numpy and scipy backends: arithmetic is exact, so residuals are zero and nothing is non-finite.
- Backend.SolveReference: the backward error that the source also checks, which is zero for an exact solution.
- StateReducer.ReduceState: retained indices are naturals; the source rejects negative ones like those out of range.
- ContextEngine.Solve: error codes other than whether they allow a retry, and the checks for infinite numbers beyond a vanishing scale.
- Closure.DependencyGroups: the set of pending neighbours is visited in index order; the source leaves that order open and the result does not depend on it.
- Budget.Assemble: the sort order of the rejection list and the per-slot totals of the trace.
- Live.SelectLive: building the graph and the completeness check of required sources are inputs, and replies are well typed; within each of the two assemblies the counter is a function, which may be another one after the engine was asked; the engine's own error codes are not carried into the trace.
- ToolLoop.ParseEvents: fingerprints are an argument, so JSON parsing and lossy-marker detection are not modelled.
- Fitting.FitSegments: tokenizer fallback and the prompt text; the cost of a prompt is an arbitrary function of the segment's events.
- Projection.Project: the request object is a number and non-list arguments are excluded by types.
- Common.Blank: white space is ASCII white space, while `str.strip()` also removes the rest of Unicode's.
- Lexical scoring and retrieval of candidates, which decide which blocks reach the assembly; LLM extraction and parsing of capsules; host hooks and status commands, which call the modelled operations; and the early scaffold that the durable core replaces.

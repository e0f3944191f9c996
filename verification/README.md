# The authority engine, verified

A Dafny model of the authority engine and of its predecessor, with proofs about every input, every
run and every reachable state. `dafny verify dfyconfig.toml` checks the whole project.

The engine decides whether a principal may use a capability, issues receipts for its decisions and
executes one kind of mutation; the predecessor is a session and authority store over SQLite.

| part | files | what is modelled |
|---|---|---|
| bounded JSON scanner | Utf8, JsonGrammar, ScannerSpec, ScannerStrings, ScannerTheorems, ScannerBounds, Scanner | a recursive-descent acceptor with a cursor and running budgets (class `Scanner`), specified by functions on positions, which are proved sound and complete for derivation trees of RFC 8259 sections 2 to 7 and RFC 3629 section 4 |
| delegation | Delegation | the depth-bounded traversal with branch-local active sets (classes `TraversalState`, `DelegationGraph`) against the set of all walks |
| authority lattice | Lattice | the eleven comparisons and the cutover test, with their meaning as permitted uses |
| policy, dependencies, receipts | Policy, PolicyDecoder, Dependency, Receipt, Bytes, Order | compilers and encoders, whose bytes determine what was encoded, and a reader that gives a policy back from its bytes |
| decision pipeline | Selection, Evidence, Evaluation, Pipeline, PipelineTheorems, PipelineOrder | when a decision allows, what it names, and exactly when the order of its rows does not matter |
| finalizer runtime | Runtime, RuntimeTheorems | one mutex-protected state (class `AuthorityRuntime`); every interleaving of threads is a sequence of atomic steps |
| money and leases | Money, Vault | exact decimals over 128-bit integers, rotation over saturating 64-bit time |
| predecessor store | StoreTables, StoreRegistry, StoreSpec, StoreInvariants, StoreProofs, StoreForward, StoreTheorems, StoreRoundTrips, Store | twenty-six linked tables, thirty-two operations as atomic steps, and the class `AnarCoreStore` that runs them statement by statement with rollback |

Stateful code is a class whose methods are proved against a transition function; runs are sequences
of steps, and the theorems speak about the state after any run. SHA-256 is a parameter: every
theorem holds for every function from bytes to 32-byte digests, and the claim that needs
collision freedom names the two strings that would collide.

Where the code and what one might expect of it part, the code is followed:

- `finalize` takes both sequence numbers before the second is checked and before issuing, so a failed call can skip numbers; `RuntimeTheorems.FailedFinalizeSkipsNumbers` says exactly when.
- `install_mutation_grant` and `AssetRegistry::insert` replace the stored row before they report a duplicate; that a revocation happens once rests on the membership status alone.
- `execute_membership_revocation` overwrites the epoch copy in the live vector instead of incrementing it; `RuntimeTheorems.EpochCopyMovesByOneIff` gives the exact condition for it to move by one.
- An invalid time window is incomparable even with itself, so an envelope is a safe cutover for itself only if its window is valid; `Lattice.SelfCutover` states both directions.
- `finalize` compares a repeated call with the stored receipt on its material and five fields of the candidate, and not on outcome, reasons, capability or holder; `RuntimeTheorems.ReceiptSharedIff` and `RuntimeTheorems.OutcomeIsNotCompared` say which candidates share a receipt.
- The pipeline looks a selected assertion up again by id and cites the first row with that id, acceptable or not. Which ids are selected never depends on the order of rows, but which row is cited does; `PipelineOrder.EveryOrderSameIff` gives the exact condition, and `PipelineOrder.SharedIdChangesBytes` and `PipelineOrder.SelectedIsNotCited` are the instances. For bindings and trust facts distinct ids are assumed.
- `issue_invitation` keeps repeated references, and each of them is inserted once under a UNIQUE constraint when the invitation is redeemed. So an invitation that repeats one is accepted, never used up and never redeemable; `StoreRoundTrips.RedeemsIff` and `StoreRoundTrips.RepeatedReferenceIsIssued` say so.
- No statement of the store ever deactivates a definition, a grant or a binding, so the definition checks of a projection cannot fail in a reachable state; `StoreRegistry.SoundHasNoError` is the reason.
- Several checks can never fail on reachable states (the second grant check, the surrogate and UTF-8 checks inside strings, the fraction overflow checks, the graph checks behind an active session); the theorems that show it are in the table.

## Model

| member | source | states |
|---|---|---|
| ScannerTheorems.AcceptsExactlyBoundedJson | crates/anar-core-types/src/parser.rs:168-192 | `validate_bounded_json` accepts a byte string iff its size is within the limit and it is white space, one derivation of the RFC 8259 grammar with distinct decoded core keys and properly paired surrogates, and white space, whose depth, counts, lengths and running totals are within the limits; every accepted text is valid UTF-8 |
| ScannerTheorems.AcceptanceMonotone | crates/anar-core-types/src/parser.rs:168-192 | raising any limit keeps every accepted text accepted |
| ScannerTheorems.SoundValue | crates/anar-core-types/src/parser.rs:205-218 | a value the scanner reads is a derivation spelled at the cursor, costs exactly what the counters grew by, and fits the limits |
| ScannerTheorems.CompleteValue | crates/anar-core-types/src/parser.rs:205-218 | every derivation that fits the limits is read to its last byte, whatever stands behind it that cannot continue it |
| ScannerStrings.SoundString | crates/anar-core-types/src/parser.rs:285-356 | a string the scanner reads is a derivable string within its raw limit, and what is returned is its declarative unescaping |
| ScannerStrings.CompleteString | crates/anar-core-types/src/parser.rs:285-356 | every derivable string within the raw, total and escape limits is read, with its declarative unescaping |
| ScannerStrings.SoundEscape | crates/anar-core-types/src/parser.rs:358-406 | an accepted escape is a short escape, a scalar `\u` escape or a proper surrogate pair, and decodes to that character |
| ScannerStrings.SoundNumber | crates/anar-core-types/src/parser.rs:408-450 | an accepted number is a derivation of the RFC 8259 number grammar within the length limit |
| ScannerStrings.DecodedIsText | crates/anar-core-types/src/parser.rs:285-356 | the decoded form of any string derivation is valid UTF-8 and no longer than its text |
| ScannerBounds.ParsedStringIsText | crates/anar-core-types/src/parser.rs:285-356 | a parsed string is valid UTF-8, no longer than the text between its quotes, and the unescaping of that text: the final UTF-8 check is dead |
| ScannerBounds.ErrorPriority | crates/anar-core-types/src/parser.rs:168-192 | the size error is reported iff the text is too large, the UTF-8 error iff it fits and is not UTF-8; the scanner itself reports neither |
| ScannerBounds.ValueUsageUnder | crates/anar-core-types/src/parser.rs:194-203 | tokens, keys, decoded bytes and escapes of a value are each at most the length of its text, so the checked additions cannot overflow first |
| ScannerBounds.AcceptedCountersBounded | crates/anar-core-types/src/parser.rs:168-192 | when a text is accepted, each of the four counters the run ends with is at most the length of the text, whatever the limits |
| JsonGrammar.PairScalar | crates/anar-core-types/src/parser.rs:371-384 | a high and a low surrogate always combine to a scalar in 0x10000..0x10FFFF, so the conversion to a character never fails |
| Utf8.EncodeUtf8 | crates/anar-core-types/src/parser.rs:285-391 | the encoding of any scalar value is one well-formed UTF-8 character of one to four bytes, three at most below 0x10000 |
| Scanner.Scanner.SkipWhitespace | crates/anar-core-types/src/parser.rs:480-487 | moves the cursor to the first byte that is not white space |
| Scanner.Scanner.ConsumeIf | crates/anar-core-types/src/parser.rs:497-504 | advances over one given byte, or not at all |
| Scanner.Scanner.RequireByte | crates/anar-core-types/src/parser.rs:489-495 | advances over the given byte or reports malformed JSON |
| Scanner.Scanner.ConsumeLiteral | crates/anar-core-types/src/parser.rs:452-458 | advances over the literal iff its bytes stand at the cursor |
| Scanner.Scanner.ParseNumber | crates/anar-core-types/src/parser.rs:408-450 | reads the number the specification reads, with its error |
| Scanner.Scanner.ReadHexQuad | crates/anar-core-types/src/parser.rs:393-406 | reads the value of four hexadecimal digits; the 16-bit accumulator never wraps |
| Scanner.Scanner.DecodeEscape | crates/anar-core-types/src/parser.rs:358-391 | appends the bytes the escape stands for, pairing surrogates |
| Scanner.Scanner.ParseString | crates/anar-core-types/src/parser.rs:285-356 | returns the decoded string, cursor and totals of the specification, or its error |
| Scanner.Scanner.ParseArray | crates/anar-core-types/src/parser.rs:260-283 | reads the array the specification reads, with its counters or its error |
| Scanner.Scanner.ParseObject | crates/anar-core-types/src/parser.rs:220-258 | reads the object the specification reads, detecting duplicates on decoded keys |
| Scanner.Scanner.ParseKey | crates/anar-core-types/src/parser.rs:233-246 | reads a key, checks its form, its novelty and the key budgets in the source order |
| Scanner.Scanner.ParseValue | crates/anar-core-types/src/parser.rs:205-218 | reads one value exactly as specified, terminating on the remaining input |
| Scanner.ValidateBoundedJson | crates/anar-core-types/src/parser.rs:168-192 | the imperative scanner computes exactly the specified verdict on every input |
| Delegation.ValidateIffAllLegal | crates/anar-core-engine/src/delegation.rs:46-90 | `validate_from` succeeds iff every walk from the start is within the depth, crosses organizations only where authorized, never widens, and repeats no node, delegation id or frame |
| Delegation.ValidateReachesExactly | crates/anar-core-engine/src/delegation.rs:46-90 | on success the result is exactly the set of nodes reachable by one or more edges |
| Delegation.ValidateErrorHasWitness | crates/anar-core-engine/src/delegation.rs:63-90 | every failure is the first refusal at the end of some legal walk of the graph; `TraversalStateCorrupted` is never returned |
| Delegation.VisitSound | crates/anar-core-engine/src/delegation.rs:63-90 | a successful visit implies every continuation of the current path is legal and its end collected |
| Delegation.VisitComplete | crates/anar-core-engine/src/delegation.rs:63-90 | a failed visit has a legal continuation followed by an edge that is refused with that error |
| Delegation.TraversalState.Enter | crates/anar-core-engine/src/delegation.rs:112-131 | entering an edge either refuses it and leaves the active sets of the current path, or describes the path extended by it |
| Delegation.TraversalState.Leave | crates/anar-core-engine/src/delegation.rs:132-155 | leaving restores the active sets and depth of the path before the edge, so the cleanliness check cannot fail |
| Delegation.DelegationGraph.AddEdge | crates/anar-core-engine/src/delegation.rs:39-44 | appends the edge to its source and changes no other node |
| Delegation.DelegationGraph.ValidateFrom | crates/anar-core-engine/src/delegation.rs:46-61 | the traversal with branch-local state computes the specified verdict |
| Delegation.DelegationGraph.VisitNode | crates/anar-core-engine/src/delegation.rs:63-90 | the loop over outgoing edges computes the specified visit and restores the traversal state on every outcome, refusals included |
| Dependency.SucceedsIffConsistent | crates/anar-core-types/src/dependency.rs:121-158 | `canonicalize` succeeds iff no generation is negative and equal keys mean equal records |
| Dependency.CanonicalHolds | crates/anar-core-types/src/dependency.rs:121-158 | the canonical vector holds exactly the given records, strictly sorted by key |
| Dependency.CanonicalDependsOnElements | crates/anar-core-types/src/dependency.rs:121-158 | reordering and exact duplication do not change the canonical vector |
| Dependency.OutcomeDependsOnElements | crates/anar-core-types/src/dependency.rs:121-158 | whether canonicalization succeeds, and the bundle it gives, depend only on the set of records |
| Dependency.BytesAreTheSet | crates/anar-core-types/src/dependency.rs:121-158 | below 2^32 records two successful inputs have equal canonical bytes iff they are equal as sets |
| Dependency.EncodeInjective | crates/anar-core-types/src/dependency.rs:78-111 | a record can be read back from its bytes |
| Dependency.RecordsInjective | crates/anar-core-types/src/dependency.rs:144-150 | framed records of two vectors of one length are equal only for equal vectors |
| Dependency.Canonicalize | crates/anar-core-types/src/dependency.rs:121-158 | the two loops compute the specified bundle or the first refusal in input order |
| Dependency.CollectUnique | crates/anar-core-types/src/dependency.rs:125-143 | the first loop files each record under its key, or stops at the first negative or conflicting record |
| Dependency.EncodeAll | crates/anar-core-types/src/dependency.rs:144-150 | the second loop appends the count and every framed record |
| Lattice.RelationDual | crates/anar-core-types/src/lattice.rs:50-343 | on all eleven dimensions the relation of b to a is the mirror image of that of a to b |
| Lattice.RelationTransitive | crates/anar-core-types/src/lattice.rs:50-343 | equal-or-narrower is transitive on all eleven dimensions |
| Lattice.SafeCutoversCompose | crates/anar-core-types/src/lattice.rs:417-426 | two safe cutovers in a row make a safe cutover |
| Lattice.SelfCutover | crates/anar-core-types/src/lattice.rs:126-135 | an envelope is a safe cutover for itself iff its time window is valid |
| Lattice.SafeBothWays | crates/anar-core-types/src/lattice.rs:417-426 | two envelopes can each replace the other iff every dimension is equal |
| Lattice.SafeIffNothingBlocks | crates/anar-core-types/src/lattice.rs:421-440 | a comparison is safe iff it lists no blocking dimension |
| Lattice.BlockingExact | crates/anar-core-types/src/lattice.rs:428-440 | the blocking list names exactly the dimensions that are wider or incomparable, in order |
| Lattice.SafeCutoverPermitsNoMore | crates/anar-core-types/src/lattice.rs:361-426 | a safe cutover permits no use (target, effect, instant, count, amounts, evidence, risk, offline) the legacy envelope did not |
| Lattice.WindowIsInclusion | crates/anar-core-types/src/lattice.rs:126-151 | for valid windows equal-or-narrower is inclusion of instants, exactly |
| Policy.NoErrorIffAcceptable | crates/anar-core-engine/src/policy.rs:107-127 | a program compiles iff version, rule count, default effect, rule ids, tree shapes, heights and the total node count are in order |
| Policy.CheckExact | crates/anar-core-engine/src/policy.rs:183-207 | a predicate passes iff its tree, on top of the nodes counted so far, is shaped, not too high and within the node budget |
| Policy.CheckRulesExact | crates/anar-core-engine/src/policy.rs:114-120 | the rule loop passes iff ids are distinct and all trees together are within the bounds |
| Policy.ValidatePredicate | crates/anar-core-engine/src/policy.rs:183-207 | the recursive check with its shared counter computes the specified count or error |
| Policy.Compile | crates/anar-core-engine/src/policy.rs:107-127 | compiling accepts exactly the acceptable programs, hashes their encoding, and reports the first error otherwise |
| Policy.Evaluate | crates/anar-core-engine/src/policy.rs:133-148 | the outcome is that of the first rule whose condition matches, the default when none does |
| Policy.EncodedSize | crates/anar-core-engine/src/policy.rs:257-323 | the encoding of a tree is at most a constant times its node count |
| Policy.LengthsNeverTruncate | crates/anar-core-engine/src/policy.rs:315-328 | within the node budget no 32-bit length field of an encoded tree truncates |
| PolicyDecoder.DecodeInvertsEncode | crates/anar-core-engine/src/policy.rs:243-255 | a recursive reader of the bytes gives back every accepted program from its encoding |
| PolicyDecoder.DecodesPredicate | crates/anar-core-engine/src/policy.rs:257-323 | the reader takes an encoded tree off the front of the bytes, whatever follows, and leaves exactly what follows |
| PolicyDecoder.DecodedIsEncoding | crates/anar-core-engine/src/policy.rs:243-255 | whatever bytes the reader accepts are the encoding of the program it reads, so each program has one encoding |
| PolicyDecoder.CancelPredicate | crates/anar-core-engine/src/policy.rs:257-323 | an encoded tree followed by anything determines the tree and the rest, for arbitrary trees within the budget |
| PolicyDecoder.ProgramBytesInjective | crates/anar-core-engine/src/policy.rs:243-255 | two accepted programs with equal bytes are the same program |
| Policy.EncodeProgramBytes | crates/anar-core-engine/src/policy.rs:243-255 | the appending encoder writes the specified bytes |
| Evaluation.AllowIff | crates/anar-core-engine/src/evaluation.rs:181-307 | the core allows iff the dependency vector is conflict-free, every base check holds and the binding allows |
| Evaluation.NoObstacleIffBaseChecks | crates/anar-core-engine/src/evaluation.rs:196-290 | the chain of early returns finds nothing iff one declarative statement about the snapshot holds |
| Evaluation.AllowedEnvelopeIsSafe | crates/anar-core-engine/src/evaluation.rs:272-315 | an ALLOW carries the requested envelope, which is a safe cutover for the binding in every dimension |
| Evaluation.FailsClosed | crates/anar-core-engine/src/evaluation.rs:181-307 | every decision has one reason and one of three outcomes, and only ALLOW carries an envelope |
| Evaluation.EvaluateDependsOnElements | crates/anar-core-engine/src/evaluation.rs:181-195 | the decision depends on the dependency vector only as a set |
| Evaluation.GenerationsInjective | crates/anar-core-engine/src/evaluation.rs:36-50 | a generation vector can be read back from its 64 bytes |
| Evidence.CollectExact | crates/anar-core-engine/src/evidence.rs:43-83 | the selection succeeds iff every requirement has an acceptable assertion and no two requirements contradict, and selects the one with the lowest id for each |
| Evidence.VerifyRequiredEvidence | crates/anar-core-engine/src/evidence.rs:43-105 | the two loops compute the specified selection, its ids, types and hash, or the first refusal |
| Evidence.VerificationOrderIndependent | crates/anar-core-engine/src/evidence.rs:43-105 | with distinct assertion ids, permuting assertions or requirements changes neither success nor result |
| Evidence.ResolvesIff | crates/anar-core-engine/src/evidence.rs:124-183 | resolution succeeds iff no revocation is effective for the query and every required type has a current fact |
| Evidence.ResolveTrustAndRevocation | crates/anar-core-engine/src/evidence.rs:124-183 | the resolver computes the specified facts and watermark, or the specified error |
| Evidence.ResolutionOrderIndependent | crates/anar-core-engine/src/evidence.rs:124-183 | with distinct ids, permuting facts and revocations does not change the result |
| Evidence.SelectionOrderIndependent | crates/anar-core-engine/src/evidence.rs:43-105 | whatever ids repeat, success, the selected ids and the evidence types do not depend on the order of assertions or requirements |
| Evidence.SharedIdsMakeOrderMatter | crates/anar-core-engine/src/evidence.rs:62-83 | of two different acceptable assertions with one id the first one is the row that is chosen |
| Evidence.EvidenceIssuerAllowlist.Allow | crates/anar-core-engine/src/evidence.rs:22-27 | adds the class to the type and reports whether it was new |
| PipelineTheorems.DecidesAllowIff | crates/anar-core-engine/src/pipeline.rs:33-145 | the pipeline allows iff the policy digest matches, the revocation snapshot is complete, every entitlement, evidence and trust requirement has a current match, no revocation is effective, the first matching rule allows, every base check holds and the gathered dependencies are conflict-free |
| PipelineTheorems.DecidesAllowIffOnInput | crates/anar-core-engine/src/pipeline.rs:33-145 | with distinct ids the same equivalence with the last condition on the input: the initial vector is conflict-free and names no selected row, nor the watermark, differently |
| PipelineTheorems.ConflictFreeIff | crates/anar-core-engine/src/pipeline.rs:45-118 | with distinct ids the gathered vector is conflict-free iff the initial one is and clashes with no selected reference |
| PipelineOrder.DecisionOrderIndependent | crates/anar-core-engine/src/pipeline.rs:33-145 | with distinct binding and fact ids, and assertions that share a selected id cited alike, the whole decision, bundle bytes and denial reason included, is unchanged by permuting bindings, assertions, requirements, facts, revocations and initial dependencies |
| PipelineOrder.DecisionsSameIff | crates/anar-core-engine/src/pipeline.rs:33-145 | two orders of the same assertions, whatever ids they share, lead to the same decision iff no row is looked at, or every selected id is cited alike in both (or both citations stand in the initial vector), or both gathered vectors conflict |
| PipelineOrder.EveryOrderSameIff | crates/anar-core-engine/src/pipeline.rs:33-145 | a decision that reaches its assertions, without conflict and without an initial reference to one of them, is the same in every order of the assertions iff rows that share a selected id carry the same organization and payload digest |
| PipelineOrder.SharedIdChangesBytes | crates/anar-core-engine/src/pipeline.rs:79-90 | of two acceptable assertions with one id and different payload digests the first is cited, so the two orders give different dependency bytes |
| PipelineOrder.SelectedIsNotCited | crates/anar-core-engine/src/pipeline.rs:79-90 | of an unacceptable and an acceptable assertion with one id the second is selected and the first is cited: the decision allows as if the first were absent, and its bundle names only the first |
| PipelineTheorems.AllowedBundleNamesEveryRow | crates/anar-core-engine/src/pipeline.rs:33-145 | with distinct ids the bundle of an ALLOW holds the initial dependencies, a reference to every selected row and the watermark, and nothing else |
| PipelineTheorems.GatherCompletesIff | crates/anar-core-engine/src/pipeline.rs:45-118 | the gathering stages complete iff entitlements, evidence and trust are all held |
| PipelineTheorems.SelectedAssertionsFound | crates/anar-core-engine/src/pipeline.rs:79-90 | looking the selected assertions up again by id never fails |
| PipelineTheorems.SelectedFactsFound | crates/anar-core-engine/src/pipeline.rs:96-110 | looking the selected facts up again by id never fails |
| Pipeline.EvaluateAuthorityPipeline | crates/anar-core-engine/src/pipeline.rs:33-145 | the imperative pipeline, which pushes onto its own input, computes the specified decision |
| Receipt.EncodeInjective | crates/anar-core-engine/src/receipt.rs:156-209 | receipts with equal bytes agree in every encoded field, below 2^32 reasons |
| Receipt.HashIdentifiesReceipt | crates/anar-core-engine/src/receipt.rs:146-154 | two verified receipts with one hash are equal, or the two strings hashed for them differ and collide under the hash function |
| Receipt.IssuedVerifies | crates/anar-core-engine/src/receipt.rs:69-154 | what `issue` returns always verifies |
| Receipt.IssueSucceedsIff | crates/anar-core-engine/src/receipt.rs:69-110 | `issue` succeeds iff the finalization state is the one evaluated, no number is negative, the window is not empty and ALLOW alone carries a capability hash |
| Receipt.ReasonsInjective | crates/anar-core-engine/src/receipt.rs:172-175 | two reason lists of one length with equal framed names are equal |
| Receipt.NamedByItsName | crates/anar-core-engine/src/evaluation.rs:130-157 | the 24 reason names are told apart by their bytes |
| Receipt.EncodeReceipt | crates/anar-core-engine/src/receipt.rs:156-209 | the appending encoder with its loop over reasons writes the specified bytes |
| Receipt.Issue | crates/anar-core-engine/src/receipt.rs:69-144 | runs the checks in order and fills in bytes and hash |
| Receipt.Verify | crates/anar-core-engine/src/receipt.rs:146-154 | reports a mismatch iff bytes or hash differ from the recomputed ones |
| RuntimeTheorems.AtMostOneRevocation | crates/anar-core-runtime/src/finalizer.rs:178-268 | in every run at most one revocation succeeds; none leaves status, generations and epoch initial, one moves each number by exactly one and records an event resting on a stored ALLOW receipt |
| RuntimeTheorems.GrantedRevocationSucceeds | crates/anar-core-runtime/src/finalizer.rs:118-268 | finalizing an ALLOW, installing the grant that fits it and executing the revocation succeeds from every reachable active state with numbers left |
| RuntimeTheorems.RefusedRevocationChangesNothing | crates/anar-core-runtime/src/finalizer.rs:178-268 | a refused revocation leaves the state as it was |
| RuntimeTheorems.NoReceiptAfterRevocation | crates/anar-core-runtime/src/finalizer.rs:304-321 | after a revocation no run finalizes a new receipt |
| RuntimeTheorems.EpochCopyMovesByOneIff | crates/anar-core-runtime/src/finalizer.rs:229-237 | in every run with a revocation the epoch copy in the live vector moves by one iff it started equal to the organization epoch |
| RuntimeTheorems.EpochsApart | crates/anar-core-runtime/src/finalizer.rs:229-237 | an accepted initial state whose two epochs differ, and a run from it that revokes and moves the copy from 5 to 1 |
| RuntimeTheorems.RevocationPossibleIff | crates/anar-core-runtime/src/finalizer.rs:118-268 | some run from an accepted initial state revokes iff the membership starts active and a number of each of the four kinds is left |
| RuntimeTheorems.ReceiptSharedIff | crates/anar-core-runtime/src/finalizer.rs:323-342 | after a receipt is stored, and any further run, a call with its id gets that receipt iff its material is the same and its candidate agrees on request id, request hash, snapshot hash, policy hash and dependency digest; otherwise it reports a conflict |
| RuntimeTheorems.OutcomeIsNotCompared | crates/anar-core-runtime/src/finalizer.rs:323-342 | a candidate with another outcome, reasons, capability, holder or generations is answered with the stored receipt, whose outcome is not its own |
| RuntimeTheorems.ReplayIsIdentical | crates/anar-core-runtime/src/finalizer.rs:118-160 | the same finalize call made again after any further run returns the identical receipt and changes nothing |
| RuntimeTheorems.ReceiptsGrow | crates/anar-core-runtime/src/finalizer.rs:118-160 | no run alters or removes a stored receipt |
| RuntimeTheorems.StoredReceiptsSound | crates/anar-core-runtime/src/finalizer.rs:118-160 | every stored receipt sits under its own id, verifies, and binds the initial identity and live generations |
| RuntimeTheorems.CountersGrow | crates/anar-core-runtime/src/finalizer.rs:138-141 | both sequences stay within range and never decrease |
| RuntimeTheorems.NewReceiptIsLater | crates/anar-core-runtime/src/finalizer.rs:138-160 | a new receipt carries larger numbers of both kinds than every stored one |
| RuntimeTheorems.ReceiptNumbersDistinct | crates/anar-core-runtime/src/finalizer.rs:138-160 | no two stored receipts share a number of either kind, and both kinds order them alike |
| RuntimeTheorems.FailedFinalizeSkipsNumbers | crates/anar-core-runtime/src/finalizer.rs:138-155 | a failed finalize changes nothing but counters, and exactly when it skips a number of each kind |
| RuntimeTheorems.IssueFailsOnlyFor | crates/anar-core-runtime/src/finalizer.rs:130-155 | after the runtime checks pass, issuing fails only for the validity window or the two capability-hash rules, each exactly characterized |
| RuntimeTheorems.FinalizesIff | crates/anar-core-runtime/src/finalizer.rs:118-160 | in a reachable state a new receipt is finalized iff the candidate binds the current identity, generations and an active membership, every dependency is present and unchanged, numbers are left, the window is not empty and ALLOW alone carries a capability hash |
| RuntimeTheorems.RunKeeps | crates/anar-core-runtime/src/finalizer.rs:84-268 | identity, counters, phase, receipts and numbering stay in order over every run from every accepted initial state |
| Runtime.AuthorityRuntime.New | crates/anar-core-runtime/src/finalizer.rs:84-106 | accepts exactly the states with non-negative generations and numbers in range, and starts empty |
| Runtime.AuthorityRuntime.SetDependencyState | crates/anar-core-runtime/src/finalizer.rs:108-116 | replaces the state filed under the dependency key |
| Runtime.AuthorityRuntime.FinalizeDecision | crates/anar-core-runtime/src/finalizer.rs:118-160 | takes both counters before the second is checked and before issuing; replies and changes state as one step |
| Runtime.AuthorityRuntime.CheckDependencies | crates/anar-core-runtime/src/finalizer.rs:130-136 | finds the first dependency that is missing or has changed |
| Runtime.AuthorityRuntime.InstallMutationGrant | crates/anar-core-runtime/src/finalizer.rs:162-176 | replaces the grant even where it reports a conflict |
| Runtime.AuthorityRuntime.ExecuteMembershipRevocation | crates/anar-core-runtime/src/finalizer.rs:178-268 | performs the revocation as one step; the second check of the grant cannot refuse |
| Money.AcceptsIff | crates/anar-core-types/src/money.rs:77-130 | for scale at most 38 a text parses to a value iff it is a canonical numeral with at most scale fraction digits whose exact amount is that value and fits 128 bits |
| Money.ParsesExactly | crates/anar-core-types/src/money.rs:77-130 | for scale at most 38, exactly which error every other text gets |
| Money.FractionFits | crates/anar-core-types/src/money.rs:107-124 | for scale at most 38 the three overflow checks on the fraction never fail |
| Money.PrintThenParse | crates/anar-core-types/src/money.rs:77-130 | printing any 128-bit amount with its fraction digits and parsing it gives it back |
| Money.AssetRegistry.Insert | crates/anar-core-types/src/money.rs:24-32 | replaces the stored specification even where it reports a duplicate; every stored one has scale at most 38 |
| Money.AssetRegistry.Get | crates/anar-core-types/src/money.rs:34-43 | finds exactly the active assets, and tells inactive from unsupported |
| Money.AssetRegistry.ParseLimit | crates/anar-core-types/src/money.rs:55-74 | a limit is the exact amount of a canonical numeral, within the maximum of an active asset in the stated version; otherwise the first error |
| Vault.EveryNumberOnce | crates/anar-core-runtime/src/vault.rs:128-282 | after any run each number below the next one belongs to exactly one generation, in order |
| Vault.ClosedIsFinal | crates/anar-core-runtime/src/vault.rs:225-242 | in every run retired generations keep their place and identity, and a closed one never changes |
| Vault.ClosedMeansExpired | crates/anar-core-runtime/src/vault.rs:225-242 | in every run a generation is closed only by a hard drain at or after its own expiry |
| Vault.DrainClosesExpired | crates/anar-core-runtime/src/vault.rs:225-242 | after a hard drain every expired generation is closed, and what is granted expires later |
| Vault.RunConserves | crates/anar-core-runtime/src/vault.rs:128-282 | numbering, states, bounded expiries and `no active generation means not ready` hold over every run |
| Vault.GrantedDeadlineIsSafe | crates/anar-core-runtime/src/vault.rs:199-223 | a granted deadline is strictly before hard expiry, by the full margin unless the subtraction saturates |
| Vault.RetryIsInTime | crates/anar-core-runtime/src/vault.rs:187-197 | a retry time is not in the past and strictly before hard expiry, even where addition saturates |
| Vault.HealthImpliesActive | crates/anar-core-runtime/src/vault.rs:199-213 | a ready or degraded supervisor has an active generation |
| Vault.RotationSupervisor.New | crates/anar-core-runtime/src/vault.rs:129-140 | needs a positive margin and starts without a generation |
| Vault.RotationSupervisor.GenerationFrom | crates/anar-core-runtime/src/vault.rs:256-281 | takes a number only when every check has passed |
| Vault.RotationSupervisor.Activate | crates/anar-core-runtime/src/vault.rs:142-154 | activates a first generation, refused while one is active |
| Vault.RotationSupervisor.Rotate | crates/anar-core-runtime/src/vault.rs:156-168 | replaces the active generation and retires it to the end of the draining list |
| Vault.RotationSupervisor.FailRotation | crates/anar-core-runtime/src/vault.rs:170-185 | sets the health that the time left until hard expiry implies |
| Vault.RotationSupervisor.NextRetryAt | crates/anar-core-runtime/src/vault.rs:187-197 | returns the specified retry time |
| Vault.RotationSupervisor.Acquire | crates/anar-core-runtime/src/vault.rs:199-223 | grants the specified lease or refusal |
| Vault.RotationSupervisor.DrainHard | crates/anar-core-runtime/src/vault.rs:225-242 | closes every expired generation, the active one included |
| Bytes.HashInputInjective | crates/anar-core-types/src/canonical.rs:66-78 | what is fed to the hash determines the domain and the part |
| StoreTheorems.ActiveHandoffIsBacked | legacy/predecessor/anar-core-master/anar_core/store.py:4272-4413 | in every reachable state an active handoff stands on an active session with its holder and version, an active membership and an active account session with the current credential revision |
| StoreTheorems.ActiveSessionIsBacked | legacy/predecessor/anar-core-master/anar_core/store.py:3550-3645 | in every reachable state an active organization session has an active membership and an active account session that does not expire before it |
| StoreTheorems.ActiveLoginIsCurrent | legacy/predecessor/anar-core-master/anar_core/store.py:1214-1313 | in every reachable state an active account session carries the current credential revision |
| StoreTheorems.ActiveStepUpIsBacked | legacy/predecessor/anar-core-master/anar_core/store.py:2012-2054 | in every reachable state an active step-up belongs to the account of an active session |
| StoreTheorems.OnePerAccount | legacy/predecessor/anar-core-master/anar_core/store.py:1692-2126 | in every reachable state an account has at most one active reset, one active email change and one authenticator that is not revoked |
| StoreTheorems.TokensAreSingleUse | legacy/predecessor/anar-core-master/anar_core/store.py:1124-4674 | after an operation has consumed a token, no operation that needs the token ever succeeds again |
| StoreTheorems.SuccessSpends | legacy/predecessor/anar-core-master/anar_core/store.py:1124-4674 | the tokens an operation consumes were unspent before it and are spent after it |
| StoreTheorems.BehindNeverAuthenticates | legacy/predecessor/anar-core-master/anar_core/store.py:3884-4013 | a session behind its membership version stays behind and never authenticates |
| StoreTheorems.GrantOutdatesSessions | legacy/predecessor/anar-core-master/anar_core/store.py:3426-3547 | granting an adapter operation puts every earlier session of the membership behind for ever |
| StoreTheorems.EndedMembershipStaysEnded | legacy/predecessor/anar-core-master/anar_core/store.py:4153-4269 | a membership that ended is never active again, and none of its sessions and handoffs is |
| StoreTheorems.ReplacementCutsOff | legacy/predecessor/anar-core-master/anar_core/store.py:1444-1909 | replacing a password or address ends every account session, organization session, handoff and step-up of the account |
| StoreTheorems.AuthenticatesIff | legacy/predecessor/anar-core-master/anar_core/store.py:3660-4147 | in a reachable state a session authenticates iff it is active, unexpired, presented with its bearer, and level with its membership: every other check of its graph, definitions, grants and bindings included, is redundant |
| StoreTheorems.ConsumesHandoffIff | legacy/predecessor/anar-core-master/anar_core/store.py:4416-4674 | in a reachable state a handoff is consumed iff it is active and unexpired, its session is unexpired and level, and its consumer presents it |
| StoreForward.RunForward | legacy/predecessor/anar-core-master/anar_core/store.py:991-4703 | no run makes a consumed or revoked row active again or changes another column of a token, session or handoff |
| StoreProofs.RunKeeps | legacy/predecessor/anar-core-master/anar_core/store.py:991-4703 | all cross-table invariants hold after every run from the empty store |
| StoreProofs.EndAccountAuthorityKeeps | legacy/predecessor/anar-core-master/anar_core/store.py:1444-1556 | the account cascade restores every invariant that a new credential revision breaks |
| StoreRoundTrips.SignupThenVerify | legacy/predecessor/anar-core-master/anar_core/store.py:991-1211 | the verification token of a new account works exactly until it expires and confirms that address |
| StoreRoundTrips.LoginIsGood | legacy/predecessor/anar-core-master/anar_core/store.py:1214-1330 | the owner of a verified address logs in with the right password, and the session is good exactly until it expires |
| StoreRoundTrips.IssueThenReset | legacy/predecessor/anar-core-master/anar_core/store.py:1692-1909 | a reset token resets the password exactly until it expires |
| StoreRoundTrips.RequestThenChange | legacy/predecessor/anar-core-master/anar_core/store.py:2632-2896 | an email-change token moves the account to the proposed address exactly until it expires |
| StoreRoundTrips.ExchangeThenStepUp | legacy/predecessor/anar-core-master/anar_core/store.py:2363-2629 | a minted step-up authorizes its purpose on its session exactly until it expires |
| StoreRoundTrips.DeriveThenAuthenticate | legacy/predecessor/anar-core-master/anar_core/store.py:3550-3694 | a derived session authenticates exactly until the earlier of its own expiry and its parent's |
| StoreRoundTrips.IssueThenConsumeHandoff | legacy/predecessor/anar-core-master/anar_core/store.py:4272-4674 | a handoff is consumed exactly until it or its session expires |
| StoreRoundTrips.RedeemsIff | legacy/predecessor/anar-core-master/anar_core/store.py:3299-3423 | in every reachable state an existing identity redeems an invitation iff it is active and unexpired, the identity has no current membership there, and neither of its reference lists repeats a reference |
| StoreRoundTrips.InviteThenRedeem | legacy/predecessor/anar-core-master/anar_core/store.py:3178-3423 | a new invitation admits an identity without a current membership exactly until it expires, if neither reference list repeats a reference and never otherwise; the new membership holds exactly the named roles and entitlements and nobody else gains or loses |
| StoreRoundTrips.RepeatedNeverAdmits | legacy/predecessor/anar-core-master/anar_core/store.py:3178-3423 | an invitation that repeats a reference stays active as it was issued through every run, and every redemption of it is refused |
| StoreRoundTrips.RepeatedReferenceIsIssued | legacy/predecessor/anar-core-master/anar_core/store.py:3178-3296 | the store issues an invitation that names one role twice, and after any further run redeeming it fails |
| StoreRoundTrips.EndThenRejoin | legacy/predecessor/anar-core-master/anar_core/store.py:4197-4269 | suspending and leaving need an active membership, revoking an active or suspended one; only that row moves, and the identity can join again unless only suspended |
| StoreRegistry.SoundHasNoError | legacy/predecessor/anar-core-master/anar_core/store.py:4015-4105 | where everything is active and every binding rests on what its membership holds, as in every reachable state, no projection finds a role, entitlement or binding inactive |
| StoreRegistry.AddHoldingsIff | legacy/predecessor/anar-core-master/anar_core/store.py:3364-3404 | for a membership that holds nothing yet and references to existing definitions the insert loop succeeds iff no reference is repeated |
| StoreRegistry.AddHoldingsAdds | legacy/predecessor/anar-core-master/anar_core/store.py:3364-3404 | the insert loop adds exactly the named holdings of that membership and takes nothing away |
| StoreRegistry.AddBindingKeeps | legacy/predecessor/anar-core-master/anar_core/store.py:3426-3547 | a granted binding rests on an active policy, a held entitlement and an operation of its adapter, and every older binding still does |
| Store.AnarCoreStore.Signup | legacy/predecessor/anar-core-master/anar_core/store.py:991-1121 | the five inserts commit together or not at all |
| Store.AnarCoreStore.VerifyEmail | legacy/predecessor/anar-core-master/anar_core/store.py:1124-1211 | address and challenge change together, or the first refusal applies and nothing changes |
| Store.AnarCoreStore.Login | legacy/predecessor/anar-core-master/anar_core/store.py:1214-1313 | adds one account session with the current revision, or refuses |
| Store.AnarCoreStore.Signout | legacy/predecessor/anar-core-master/anar_core/store.py:1333-1402 | ends the account session and everything derived from it |
| Store.AnarCoreStore.RevokeAccountAuthority | legacy/predecessor/anar-core-master/anar_core/store.py:1444-1518 | the loop over parents ends the same sessions and handoffs as one cascade over all of them |
| Store.AnarCoreStore.RevokeMembershipSessions | legacy/predecessor/anar-core-master/anar_core/store.py:4153-4194 | ends the sessions of a membership and the handoffs of those |
| Store.AnarCoreStore.ChangePassword | legacy/predecessor/anar-core-master/anar_core/store.py:1559-1689 | step-up, credential, resets and cascade commit together |
| Store.AnarCoreStore.IssuePasswordReset | legacy/predecessor/anar-core-master/anar_core/store.py:1692-1765 | replaces the active reset of the account |
| Store.AnarCoreStore.ConsumePasswordReset | legacy/predecessor/anar-core-master/anar_core/store.py:1768-1909 | credential, resets and cascade commit together |
| Store.AnarCoreStore.RequestEmailChange | legacy/predecessor/anar-core-master/anar_core/store.py:2632-2776 | consumes a step-up where one is due and replaces the pending change; a refused insert takes the step-up back |
| Store.AnarCoreStore.ConsumeEmailChange | legacy/predecessor/anar-core-master/anar_core/store.py:2779-2896 | address, challenges and cascade commit together |
| Store.AnarCoreStore.BeginTotpEnrollment | legacy/predecessor/anar-core-master/anar_core/store.py:2057-2126 | replaces the pending authenticator |
| Store.AnarCoreStore.CompleteTotpEnrollment | legacy/predecessor/anar-core-master/anar_core/store.py:2129-2202 | attestation and authenticator change together |
| Store.AnarCoreStore.IssueMfaRecoveryCodes | legacy/predecessor/anar-core-master/anar_core/store.py:2205-2360 | replaces all codes, with a step-up where codes exist; one refused insert rolls everything back |
| Store.AnarCoreStore.ExchangeMfaBrokerAttestation | legacy/predecessor/anar-core-master/anar_core/store.py:2363-2421 | consuming the attestation and minting the step-up commit together |
| Store.AnarCoreStore.ExchangeMfaRecoveryCode | legacy/predecessor/anar-core-master/anar_core/store.py:2424-2514 | consuming the code and minting the step-up commit together |
| Store.AnarCoreStore.ConsumeMfaStepUp | legacy/predecessor/anar-core-master/anar_core/store.py:2600-2629 | consumes the step-up or refuses |
| Store.AnarCoreStore.DefineRole | legacy/predecessor/anar-core-master/anar_core/store.py:3017-3059 | adds one active role, or refuses |
| Store.AnarCoreStore.DefinePolicy | legacy/predecessor/anar-core-master/anar_core/store.py:3062-3095 | adds one active policy, or refuses |
| Store.AnarCoreStore.DefineEntitlement | legacy/predecessor/anar-core-master/anar_core/store.py:3098-3128 | adds one active entitlement, or refuses |
| Store.AnarCoreStore.DefineAdapter | legacy/predecessor/anar-core-master/anar_core/store.py:3131-3146 | adds one active adapter under a new name, or refuses |
| Store.AnarCoreStore.DefineOperation | legacy/predecessor/anar-core-master/anar_core/store.py:3149-3175 | adds one active operation of an adapter, or refuses |
| Store.AnarCoreStore.IssueInvitation | legacy/predecessor/anar-core-master/anar_core/store.py:3178-3296 | looks every reference up, keeps repetitions, and adds one active invitation |
| Store.AnarCoreStore.RedeemInvitation | legacy/predecessor/anar-core-master/anar_core/store.py:3299-3423 | membership, one assignment per role, one grant per entitlement and the invitation commit together; one refused insert rolls everything back |
| Store.AnarCoreStore.GrantAdapterOperation | legacy/predecessor/anar-core-master/anar_core/store.py:3426-3547 | policy, entitlement and operation checks in order, then the binding and the new authorization version commit together |
| Store.AnarCoreStore.DeriveOrganizationSession | legacy/predecessor/anar-core-master/anar_core/store.py:3550-3645 | adds a session bounded by its parent |
| Store.AnarCoreStore.SuspendMembership | legacy/predecessor/anar-core-master/anar_core/store.py:4197-4219 | ends an active membership with its sessions and handoffs |
| Store.AnarCoreStore.LeaveMembership | legacy/predecessor/anar-core-master/anar_core/store.py:4222-4244 | ends an active membership with its sessions and handoffs |
| Store.AnarCoreStore.RevokeMembership | legacy/predecessor/anar-core-master/anar_core/store.py:4247-4269 | ends an active or suspended membership with its sessions and handoffs |
| Store.AnarCoreStore.IssueConsumerHandoff | legacy/predecessor/anar-core-master/anar_core/store.py:4272-4413 | adds a handoff that repeats the session it comes from |
| Store.AnarCoreStore.ConsumeConsumerHandoff | legacy/predecessor/anar-core-master/anar_core/store.py:4416-4674 | consumes the handoff after all graph checks, in their order |
| Store.AnarCoreStore.RevokeConsumerHandoff | legacy/predecessor/anar-core-master/anar_core/store.py:4678-4703 | revokes a live handoff |
| Store.InsertHoldings | legacy/predecessor/anar-core-master/anar_core/store.py:3364-3404 | the insert loop computes the specified holdings or the first refusal |
| Store.AllActive | legacy/predecessor/anar-core-master/anar_core/store.py:3231-3265 | the lookup loop tells whether every reference is to an active definition |

## Left out

- ScannerBounds.AcceptedCountersBounded: counters are unbounded naturals instead of `usize`; `ScannerBounds.ValueUsageUnder` shows they never exceed the length of the text, so the checked additions cannot overflow first.
- Delegation.DelegationGraph.ValidateFrom: the depth is an unbounded natural instead of `u16`; it never passes the given maximum. Panics inside a frame (`catch_unwind`) are not modelled, only normal and error returns.
- Policy.Evaluate: the counts of a compiled policy are unbounded naturals; the compiled bounds keep them far below machine limits.
- PolicyDecoder.ProgramBytesInjective: the program is accepted by the compiler, as every encoded program is; beyond 2^32 bytes the length fields would truncate.
- Receipt.EncodeInjective: fewer than 2^32 reasons, past which the source truncates the count.
- Money.AcceptsIff: scale at most 38, which every registered asset has; a text is its bytes.
- Money.AssetRegistry.ParseLimit: the text is a byte string instead of a Rust `str`; the ASCII check of the source makes them agree on what is accepted.
- PipelineTheorems.DecidesAllowIff: the policy denies by default, which compiling guarantees.
- Runtime.AuthorityRuntime.FinalizeDecision: a poisoned lock and the two read-only snapshots are not modelled.
- Store.AnarCoreStore.Login: the rehash of an old password hash changes no modelled column; password hashes, hashing and verification are boolean parameters.
- Store.AnarCoreStore.Signup: identifiers, token digests and clock readings are parameters, so a call returns only success or the refusal; address and symbol normalization and the prefix check of typed ids are not modelled.
- Store.AnarCoreStore.DefineRole: names, grants and prohibitions of roles, and names of entitlements and policies, are not modelled; a policy id is a parameter instead of a hash of its name.
- Store.AnarCoreStore.GrantAdapterOperation: the resource scope and policy text of a binding, and the surrogate ids of assignments and grants, are not modelled.
- Store.AnarCoreStore.ConsumeConsumerHandoff: the hydration references it returns are not modelled.
- StoreTheorems.ConsumesHandoffIff: a single insert refused outside a transaction leaves SQLite's implicit transaction open, and a later method that opens with BEGIN IMMEDIATE then raises before its `try`. In such a state this equivalence, `StoreRoundTrips.RedeemsIff` and the other round trips fail from right to left; the model only says that the refused insert changed no row.
- Broker attestations are filed by an external broker; the model lets it insert any row the foreign keys allow.
- The table migration of the predecessor, Cloud-Spine bootstrap, display names and races between processes: one store under its lock, starting empty.
- The typed decoding of requests after the scan, and the limits that only it reads: library behaviour.
- Hash functions, password hashing, UUIDs and token generation: parameters.
- The PostgreSQL runtime, its migrations and row policies: the stored procedures it calls are not part of this model.
- Shadow batch counters, telemetry, deferred actions, secret redaction and hex text: easy members over what is modelled.
- In `evaluate`, the check for an empty capability id: no registered identifier is empty.

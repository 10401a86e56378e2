# Verification of the cell directory and the interest verifier

This project models the parts of the repository that decide who is where and who may see it, and
proves what they promise over every input and every run.

* **The cell directory** (`CellDirectory`, `DirectoryInvariant`, `DirectorySteps`, `DirectoryRuns`,
  `DirectoryHistory`, `DirectoryProgress`, `DirectoryRetries`, `DirectoryDeadEnds`, `DirectoryCalls`,
  `LocalCellDirectory`, `CellIdentity`): the authority that moves one aggregate between two cells.
  `LocalCellDirectory.LocalCellDirectory` is the object: one `document` field, thirteen guarded steps, each installed as a whole with a revision bump by a
  write that may fail. What a step proposes is the function named after it (`ClaimPlan` and so on);
  runs are arbitrary sequences of calls with arbitrary arguments and arbitrary write failures.
* **Bundled placement** (`BundledPlacement`): a grid and its riders moved as one unit.
* **The staged interest verifier** (`InterestModel`, `EntityDelta`, `PrivateLinkage`,
  `InterestFrames`, `InterestAcceptance`, `InterestDecisions`, `InterestVerifier`, `InterestCalls`,
  `InterestRuns`): stage, commit, discard and reset of one connection, baselines, contiguous deltas over an ordered entity map, recovery baselines and
  handoffs.
* **Exact addresses in two implementations** (`Decimal`, `Address`, `Separation`,
  `CelestialParents`, `FieldMemberships`): hierarchical addresses, canonical decimals and the checked 128-bit distance
  comparisons of the server and of the verifier.
* **Canonical text** (`Canonical`), **contact aggregation** (`ContactAggregation`) and the **frame
  bridge** of the browser worker (`FrameBridge`, `FrameLedger`).
* `Prelude` and `Order` hold the machine integers and the theory of ordered maps the rest uses.

Code that works step by step in the source is a method or a class here, proved equal to a function
of the inputs or of the old state; the properties are proved about those functions. What each of
those functions decides is stated a second time and independently: when a call is accepted, what it
writes and which error it gives otherwise, on the records themselves (`DirectoryCalls`,
`InterestAcceptance`, `InterestDecisions`, `InterestCalls`, `FrameLedger`). Machine
integers are explicit (`u32`, `u64`, `i128`, checked 128-bit sums); hashes, cell ids, JSON text and
the celestial documents are uninterpreted functions passed as parameters, assumed injective only in
the lemmas that say so.

Three properties the code does not have, each with the exact condition under which it does:

* `request_abort` accepts a prepared transfer that has no source prepare proof, but
  `validate_document` (lines 1851-1855) rejects an aborting transfer without one. Five ordinary
  calls on a fresh directory leave a document that does not open
  (`DirectoryDeadEnds.UnopenableRun`). That call is the only one that can do it
  (`DirectoryProgress.OnlyProoflessAbortBreaks`), and a reachable document opens exactly when no
  abort is in progress without the proof (`DirectoryRuns.ReachableReopens`).
* An imported transfer can be finalized by some run if and only if its aggregate still has the
  generation it landed at and enough revisions are left for the calls it needs, at most five
  (`DirectoryDeadEnds.FinalizableExactly`). If the aggregate was only prepared again, aborting that
  second transfer clears the way; if it was committed again, the first transfer stays imported forever
  and pins both its cells (`DirectoryProgress.StrandedForever`). Twelve ordinary calls on a fresh
  directory get there (`DirectoryDeadEnds.StrandedRun`). Every other live transfer has an acceptable
  next call (`DirectoryProgress.LiveTransferProgresses`).
* The server accepts a pair of bodies as soon as one axis is far apart; the verifier always squares
  and refuses a pair whose squared distance exceeds 128 bits (`Separation.FarPairDisagrees`). The two
  agree exactly under the condition of `Separation.SeparationAgreement`.

## Model

| member | source | states |
|---|---|---|
| Decimal.ParseUndoesPrint | crates/verse-interest-verifier/src/registry.rs:704-725 | parsing a printed `i128` gives the number back, for every value |
| Prelude.TextsByCode | crates/verse-simulation/src/cell_directory.rs:1894-1915 | a stable id is one to 128 bytes of its alphabet by code, a hash exactly 64 lower-case hexadecimal digits |
| Decimal.SectorChecksAgree | crates/verse-simulation/src/celestial.rs:295-304 | the server's parse-and-reprint check and the verifier's shape-and-parse check accept the same strings with the same values, and these are exactly the printed `i128` values |
| Address.NormalizeAxisCanonical | crates/verse-simulation/src/celestial.rs:159-185 | a normalized axis keeps its position and is the only in-range representation of it |
| Address.NormalizeAxisFinds | crates/verse-simulation/src/celestial.rs:159-185 | a position that has an in-range representation is normalized to it if and only if the two intermediate sums fit `i128` |
| Address.NormalizeAxisFits | crates/verse-simulation/src/celestial.rs:159-185 | normalizing succeeds if and only if the shifted local coordinate, the carried cell and the sector of the position fit `i128` |
| Address.ShiftAxisFits | crates/verse-simulation/src/celestial.rs:325-366 | an axis moves if and only if the two local sums and the sector it lands in fit `i128` |
| Address.AxisDifferenceFits | crates/verse-simulation/src/celestial.rs:368-403 | an axis difference is formed if and only if the differences in whole sectors, in whole cells and in full fit `i128` |
| Address.AddressFromOriginOffset | crates/verse-simulation/src/celestial.rs:325-366 | the axis loop moves all three axes or fails with the right error |
| Address.RelativeOffset | crates/verse-simulation/src/celestial.rs:368-403 | the axis loop gives the three checked differences or fails with the right error |
| Address.NeighborCellKey | crates/verse-simulation/src/celestial.rs:243-275 | the axis loop gives the key of the neighbouring cell or fails with the right error |
| Address.ShiftIsExact | crates/verse-simulation/src/celestial.rs:325-366 | a moved address is valid and every axis is the origin's position plus the offset |
| Address.DifferenceIsExact | crates/verse-simulation/src/celestial.rs:368-403 | a relative offset is the exact difference of the positions on every axis |
| Address.ValidAddressUnique | crates/verse-simulation/src/celestial.rs:286-323 | two valid addresses with the same three positions are the same address, text included |
| Address.OffsetRoundTrip | crates/verse-simulation/src/celestial.rs:325-403 | offset to address and back is the identity whenever both calls succeed |
| Address.AddressRoundTrip | crates/verse-simulation/src/celestial.rs:325-403 | address to offset and back is the address itself, and the second call fails exactly when a local sum leaves `i128` |
| Address.OffsetsCompose | crates/verse-simulation/src/celestial.rs:325-366 | two shifts in a row equal the shift by the sum whenever the calls succeed |
| Address.ModerateOffsetsRoundTrip | crates/verse-simulation/src/celestial.rs:325-403 | with origin sectors and offsets of magnitude at most 2^126 both calls succeed and undo each other |
| Address.NeighborsUndo | crates/verse-simulation/src/celestial.rs:243-275 | the opposite neighbour step always succeeds and returns the first key |
| Address.NeighborAxisFits | crates/verse-simulation/src/celestial.rs:243-275 | one axis of a neighbour step succeeds if and only if the sector it lands in fits, and always a few million sectors short of the ends |
| Address.NeighborIsExact | crates/verse-simulation/src/celestial.rs:243-275 | a neighbour step succeeds exactly when every axis does, and lands on a valid key of the same universe exactly the given number of cells away |
| Separation.ServerVerdictIsExact | crates/verse-simulation/src/celestial.rs:830-864 | stopping at a far axis never changes the exact squared-distance verdict; an overflow means a position or three times the squared threshold does not fit |
| Separation.ServerDecides | crates/verse-simulation/src/celestial.rs:830-864 | on the exact distance: accepted exactly when both positions fit, the distance reaches the threshold and an axis is far or the square fits; violated exactly when the positions and the squared threshold fit and the distance is smaller |
| Separation.AddressDistanceSquared | crates/verse-interest-verifier/src/registry.rs:610-647 | under any valid manifest dimensions the checked axis loop yields the exact squared distance if and only if that fits `u128`, and an overflow otherwise |
| Address.AddressChecksAgree | crates/verse-interest-verifier/src/registry.rs:656-694 | with the server's edge lengths the verifier's address check accepts exactly the server's valid addresses and means the same positions |
| Separation.ExactForServer | crates/verse-interest-verifier/src/registry.rs:610-647 | with the server's edge lengths the verifier's exact distance is the distance between the server's positions |
| Separation.ComparePair | crates/verse-interest-verifier/src/registry.rs:579-605 | the verdict on one pair from the exact squared distance |
| Separation.VerifierDecides | crates/verse-interest-verifier/src/registry.rs:579-605 | accepted exactly when the exact squared distance reaches the squared threshold and fits, violated exactly when it does not reach a threshold that fits |
| Separation.PairVerdictSymmetric | crates/verse-interest-verifier/src/registry.rs:564-605 | the verdict on a pair, exemption included, does not depend on which body comes first |
| Separation.ValidateSeparation | crates/verse-interest-verifier/src/registry.rs:564-608 | all pairs but a field and its own members are compared in order: accepted if and only if every pair is, otherwise the verdict of the first refused pair |
| Separation.SectorsDecideFit | crates/verse-simulation/src/celestial.rs:760-768 | the server's position fits `i128` for every sector of magnitude up to 8507059173023461586584364 and for none of magnitude more than one above |
| Separation.SeparationAgreement | crates/verse-interest-verifier/src/registry.rs:564-608 | under the server's radius bounds the two verdicts coincide if and only if the pair is too close, or the server's positions fit exactly when the verifier's square fits |
| Separation.NearPairsAgree | crates/verse-simulation/src/celestial.rs:830-864 | for axis distances up to 10^19 the verifier cannot overflow, and the verdicts coincide when the server's positions fit |
| Separation.FarPairDisagrees | crates/verse-interest-verifier/src/registry.rs:610-647 | a concrete far pair that the server accepts and the verifier refuses |
| Separation.ContainmentImplied | crates/verse-simulation/src/celestial.rs:793-828 | a field that contains an asteroid for the server contains it for the verifier |
| Separation.VerifierContainsExactly | crates/verse-interest-verifier/src/registry.rs:537-562 | accepted exactly when the member's exclusion radius is no larger than the field's and the exact squared distance is at most the square of the difference; an overflow exactly when that distance does not fit |
| Separation.ValidateFieldContainment | crates/verse-interest-verifier/src/registry.rs:537-562 | the checked steps give that verdict |
| Separation.ServerContainsExactly | crates/verse-simulation/src/celestial.rs:793-828 | a violation for an asteroid larger than its field, an overflow when a position or the distance does not fit, and otherwise accepted exactly when the squared distance is at most that of the difference of the radii |
| FieldMemberships.ValidateFieldMemberships | crates/verse-interest-verifier/src/registry.rs:476-535 | the loop accepts exactly when every body names no field, its own or, for an asteroid, one that contains it, and collects the pairs of asteroid and field |
| FieldMemberships.ValidateLayout | crates/verse-interest-verifier/src/registry.rs:217-219 | memberships and separation together accept exactly the registries in which every asteroid that names a field lies inside it and every other pair of bodies keeps its distance |
| CelestialParents.ValidateParents | crates/verse-interest-verifier/src/registry.rs:430-470 | accepted if and only if every parent is lawful and every ancestry ends |
| CelestialParents.AncestryEnds | crates/verse-interest-verifier/src/registry.rs:458-467 | the cursor walk with its visited set decides whether the ancestry ends, and itself ends |
| CelestialParents.LawfulParentsNeverCycle | crates/verse-interest-verifier/src/registry.rs:401-424 | after the check on kinds lawful parents alone bound every ancestry, so the cycle check never fires |
| CelestialParents.ParentRuleByKind | crates/verse-interest-verifier/src/registry.rs:430-470 | with distinct ids the lawful parents are a planet of the registry for a moon and none for any other body |
| LocalCellDirectory.CanonicalAssignments | crates/verse-simulation/src/cell_directory.rs:1549-1585 | succeeds exactly for two distinct valid cells of the universe and gives both fresh |
| LocalCellDirectory.CanonicalSetting | crates/verse-simulation/src/cell_directory.rs:1549-1585 | with an injective cell hash the canonical assignments are a setting in which every run theorem applies |
| LocalCellDirectory.LocalCellDirectory.Open | crates/verse-simulation/src/cell_directory.rs:692-752 | opens exactly the stored documents the validator accepts, or a fresh one; which error otherwise; a fresh document, and a stored one that a run left, satisfies the invariant |
| LocalCellDirectory.LocalCellDirectory.CommitDocument | crates/verse-simulation/src/cell_directory.rs:1521-1533 | one revision bump and one write that happens entirely or not at all |
| LocalCellDirectory.LocalCellDirectory.Claim | crates/verse-simulation/src/cell_directory.rs:770-820 | new document and result are those of `ClaimPlan`; the invariant is kept |
| LocalCellDirectory.LocalCellDirectory.Release | crates/verse-simulation/src/cell_directory.rs:823-868 | new document and result are those of `ReleasePlan`; the invariant is kept |
| LocalCellDirectory.LocalCellDirectory.RecoverAssignment | crates/verse-simulation/src/cell_directory.rs:870-913 | new document and result are those of `RecoverPlan`; the invariant is kept |
| LocalCellDirectory.LocalCellDirectory.RegisterPlacement | crates/verse-simulation/src/cell_directory.rs:936-968 | new document and result are those of `RegisterPlan`; the invariant is kept |
| LocalCellDirectory.LocalCellDirectory.PrepareTransfer | crates/verse-simulation/src/cell_directory.rs:970-1055 | new document and result are those of `PreparePlan`, whose record `DirectoryCalls.PrepareCall` states field by field; the invariant is kept |
| LocalCellDirectory.LocalCellDirectory.RecordSourcePrepared | crates/verse-simulation/src/cell_directory.rs:1057-1101 | new document and result are those of `SourcePreparedPlan`; the invariant is kept |
| LocalCellDirectory.LocalCellDirectory.RecordQuarantine | crates/verse-simulation/src/cell_directory.rs:1103-1170 | new document and result are those of `QuarantinePlan`; the invariant is kept |
| LocalCellDirectory.LocalCellDirectory.CommitTransfer | crates/verse-simulation/src/cell_directory.rs:1172-1240 | new document and result are those of `CommitPlan`; the invariant is kept |
| LocalCellDirectory.LocalCellDirectory.RecordImported | crates/verse-simulation/src/cell_directory.rs:1242-1302 | new document and result are those of `ImportPlan`; the invariant is kept |
| LocalCellDirectory.LocalCellDirectory.FinalizeTransfer | crates/verse-simulation/src/cell_directory.rs:1304-1359 | new document and result are those of `FinalizePlan`; the invariant is kept |
| LocalCellDirectory.LocalCellDirectory.RequestAbort | crates/verse-simulation/src/cell_directory.rs:1361-1401 | new document and result are those of `RequestAbortPlan`; the invariant is kept |
| LocalCellDirectory.LocalCellDirectory.RecordAbortCleanup | crates/verse-simulation/src/cell_directory.rs:1403-1466 | new document and result are those of `AbortCleanupPlan`; the invariant is kept |
| LocalCellDirectory.LocalCellDirectory.FinalizeAbort | crates/verse-simulation/src/cell_directory.rs:1468-1511 | new document and result are those of `FinalizeAbortPlan`; the invariant is kept |
| DirectoryInvariant.HistoryIncreases | crates/verse-simulation/src/cell_directory.rs:1587-1892 | along a cell's fencing history a later generation has a strictly larger fence |
| DirectorySteps.ClaimKeeps | crates/verse-simulation/src/cell_directory.rs:770-820 | an accepted claim keeps everything the validator checks, the placement-to-transfer link and the generation chain |
| DirectorySteps.ReleaseKeeps | crates/verse-simulation/src/cell_directory.rs:823-868 | an accepted release keeps the same invariant: no live transfer loses a cell |
| DirectorySteps.RecoverKeeps | crates/verse-simulation/src/cell_directory.rs:870-913 | an accepted recovery keeps the same invariant, stored proofs included |
| DirectorySteps.RegisterKeeps | crates/verse-simulation/src/cell_directory.rs:936-968 | an accepted registration keeps the same invariant |
| DirectorySteps.PrepareKeeps | crates/verse-simulation/src/cell_directory.rs:970-1055 | an accepted prepare keeps the same invariant |
| DirectorySteps.SourcePreparedKeeps | crates/verse-simulation/src/cell_directory.rs:1057-1101 | an accepted source prepare proof keeps the same invariant |
| DirectorySteps.QuarantineKeeps | crates/verse-simulation/src/cell_directory.rs:1103-1170 | an accepted quarantine keeps the same invariant |
| DirectorySteps.CommitKeeps | crates/verse-simulation/src/cell_directory.rs:1172-1240 | an accepted commit keeps the same invariant: the chain grows by one generation from the current cell |
| DirectorySteps.ImportKeeps | crates/verse-simulation/src/cell_directory.rs:1242-1302 | an accepted import keeps the same invariant |
| DirectorySteps.FinalizeKeeps | crates/verse-simulation/src/cell_directory.rs:1304-1359 | an accepted finalization keeps the same invariant |
| DirectorySteps.RequestAbortKeeps | crates/verse-simulation/src/cell_directory.rs:1361-1401 | an accepted abort request keeps the same invariant, which allows an abort without source prepare proof |
| DirectorySteps.AbortCleanupKeeps | crates/verse-simulation/src/cell_directory.rs:1403-1466 | an accepted abort cleanup proof keeps the same invariant |
| DirectorySteps.FinalizeAbortKeeps | crates/verse-simulation/src/cell_directory.rs:1468-1511 | an accepted abort completion keeps the same invariant |
| DirectoryRuns.StepKeeps | crates/verse-simulation/src/cell_directory.rs:770-1511 | every call, with any arguments and any write failure, keeps the invariant |
| DirectoryRuns.RunKeeps | crates/verse-simulation/src/cell_directory.rs:770-1511 | every run keeps the invariant |
| DirectoryRuns.InitialHolds | crates/verse-simulation/src/cell_directory.rs:692-752 | a directory opened for the first time satisfies the invariant |
| DirectoryRuns.ReachableReopens | crates/verse-simulation/src/cell_directory.rs:1587-1892 | a reachable document passes `validate_document` if and only if no abort is in progress without its source prepare proof |
| DirectoryProgress.OnlyProoflessAbortBreaks | crates/verse-simulation/src/cell_directory.rs:1361-1401 | from an openable document a call leads to an unopenable one if and only if it is a written abort of a prepared transfer without source prepare proof |
| DirectoryDeadEnds.UnopenableRun | crates/verse-simulation/src/cell_directory.rs:1851-1855 | five ordinary calls on any fresh directory end in a document the validator rejects |
| DirectoryHistory.RunEvolves | crates/verse-simulation/src/cell_directory.rs:770-1511 | in every run revisions and generations never fall, fencing histories only grow, nothing is removed, transfers follow their paths with fixed binding and write-once proofs |
| DirectoryHistory.NeverCommitsAndAborts | crates/verse-simulation/src/cell_directory.rs:1177-1239 | no transfer is ever seen both on the commit side and on the abort side of any run |
| DirectoryHistory.ActiveTransferExactly | crates/verse-simulation/src/cell_directory.rs:1004-1054 | a placement's active transfer is Some(t) exactly when t is its aggregate's transfer in Prepared, Quarantined, Aborting or Committed |
| DirectoryHistory.GenerationChain | crates/verse-simulation/src/cell_directory.rs:1209-1236 | the landed transfers of an aggregate are one for each generation from 2 to the placement's, each leaving where the one before arrived, the last at the current cell |
| DirectoryHistory.TransferProposal | crates/verse-simulation/src/cell_directory.rs:1057-1511 | a call that edits a stored transfer moves it strictly closer to a terminal phase and touches no other transfer, placement or assignment |
| DirectoryProgress.ChangesBounded | crates/verse-simulation/src/cell_directory.rs:1057-1511 | in any run at most six calls change a transfer after its prepare |
| DirectoryProgress.LiveTransferPins | crates/verse-simulation/src/cell_directory.rs:852-862 | both cells of a live transfer stay assigned and cannot be released, and the commit's assignment guard never refuses a quarantined transfer |
| DirectoryProgress.LiveTransferProgresses | crates/verse-simulation/src/cell_directory.rs:1326-1341 | every live transfer that was not overtaken has an acceptable next call that moves it on |
| DirectoryProgress.OvertakenIsStuck | crates/verse-simulation/src/cell_directory.rs:1326-1341 | no call with any arguments changes an imported transfer whose aggregate has moved on |
| DirectoryProgress.StrandedForever | crates/verse-simulation/src/cell_directory.rs:1326-1341 | once the aggregate has a newer generation the imported transfer stays imported and keeps both cells assigned in every later run (the converse is `DirectoryDeadEnds.FinalizableExactly`) |
| DirectoryDeadEnds.FinalizableExactly | crates/verse-simulation/src/cell_directory.rs:1326-1341 | some run finalizes an imported transfer if and only if its aggregate has no newer generation and the revisions left cover the calls it needs, five at most |
| DirectoryDeadEnds.FinalizesInTime | crates/verse-simulation/src/cell_directory.rs:1361-1511 | at its own generation an imported transfer is finalized by aborting whatever was prepared since, in as many calls as it has left |
| DirectoryDeadEnds.RunNeedsCalls | crates/verse-simulation/src/cell_directory.rs:1304-1511 | no run finalizes it with fewer revisions |
| DirectoryDeadEnds.CanStrand | crates/verse-simulation/src/cell_directory.rs:994-1054 | four accepted calls lead from any imported transfer that could finalize now to a stranded one |
| DirectoryDeadEnds.StrandedRun | crates/verse-simulation/src/cell_directory.rs:770-1302 | twelve ordinary calls lead from any fresh directory to an imported transfer that no later run finalizes |
| DirectoryProgress.FenceResolves | crates/verse-simulation/src/cell_directory.rs:2017-2042 | a recorded fence resolves to its own generation and no other, claimed or not |
| DirectoryRetries.FenceMeansOneGeneration | crates/verse-simulation/src/cell_directory.rs:2017-2062 | a recorded fence keeps its generation in every later document and no other generation ever gets it |
| DirectoryRetries.StoredProofsAreFenced | crates/verse-simulation/src/cell_directory.rs:2044-2062 | every stored proof carries a fence at least as large as that of the generation its transfer is bound to; `DirectoryCalls.FencedSincePrepare` says that this is the fence in force at prepare |
| DirectoryRetries.PrepareRetry | crates/verse-simulation/src/cell_directory.rs:976-992 | a prepare resubmitted in any later document returns the stored transfer, and other material under the id is refused |
| DirectoryRetries.SourcePreparedRetry | crates/verse-simulation/src/cell_directory.rs:1071-1074 | a resubmitted source prepare proof returns the stored record and changes nothing, in any later document where its cell is assigned |
| DirectoryRetries.QuarantineRetry | crates/verse-simulation/src/cell_directory.rs:1132-1137 | the same for the quarantine proof while the transfer is quarantined |
| DirectoryRetries.ImportRetry | crates/verse-simulation/src/cell_directory.rs:1255-1261 | the same for the import proof |
| DirectoryRetries.FinalizationRetry | crates/verse-simulation/src/cell_directory.rs:1317-1320 | the same for the finalization proof |
| DirectoryRetries.AbortCleanupRetry | crates/verse-simulation/src/cell_directory.rs:1437-1440 | the same for the abort cleanup proofs while the transfer is aborting |
| DirectoryCalls.ResolvesExactly | crates/verse-simulation/src/cell_directory.rs:2017-2042 | a fence resolves to a generation if and only if the cell is assigned, gave that generation this fence, and the claim is zero or the same generation |
| DirectoryCalls.HistoryExactly | crates/verse-simulation/src/cell_directory.rs:1637-1661 | the validator accepts exactly the histories with one strictly larger positive fence for each generation from one to the current one, ending in the fence in force |
| DirectoryCalls.AssignmentAccepted | crates/verse-simulation/src/cell_directory.rs:1607-1661 | the validator accepts an assignment exactly asleep without holder, or held by someone at a generation really given, each with such a history |
| DirectoryCalls.TerminalsRest | crates/verse-simulation/src/cell_directory.rs:1817-1839 | a landed aggregate still at the generation a transfer gave it is at that transfer's destination, one still at the generation an aborted transfer left it at is at the source |
| DirectoryCalls.ClaimCall | crates/verse-simulation/src/cell_directory.rs:770-820 | accepted exactly for a sleeping cell at the expected generation under a larger fence; which error otherwise; the record and nothing else written |
| DirectoryCalls.RecoverCall | crates/verse-simulation/src/cell_directory.rs:870-913 | the same for an assigned cell |
| DirectoryCalls.ReleaseCall | crates/verse-simulation/src/cell_directory.rs:823-868 | accepted exactly for the holder of the current generation of a cell that no unfinished transfer leaves or enters; returned as it is when asleep |
| DirectoryCalls.RegisterCall | crates/verse-simulation/src/cell_directory.rs:936-968 | a fresh placement at generation one is written, found again, or in conflict |
| DirectoryCalls.PrepareCall | crates/verse-simulation/src/cell_directory.rs:994-1055 | accepted exactly for an aggregate resting at the expected generation in an assigned cell and bound for another assigned one; the record binds the generations both cells have now and every other field; only the placement and the record change |
| DirectoryCalls.PrepareArguments | crates/verse-simulation/src/cell_directory.rs:970-975 | a malformed id or hash is refused before any record is looked at |
| DirectoryCalls.FencedSincePrepare | crates/verse-simulation/src/cell_directory.rs:1029-1030 | in every run after an installed prepare each proof stored for that transfer carries a fence at least as new as the one in force at its cell when the prepare was accepted |
| DirectoryCalls.SourcePreparedCall | crates/verse-simulation/src/cell_directory.rs:1057-1101 | for a fence that resolves, accepted exactly for a prepared transfer without this proof when the hashes are well formed and the proof names the transfer; repeated or refused otherwise, with the error; only the proof is written |
| DirectoryCalls.QuarantineCall | crates/verse-simulation/src/cell_directory.rs:1103-1170 | the same for the quarantine proof of a prepared transfer with a source proof |
| DirectoryCalls.CommitCall | crates/verse-simulation/src/cell_directory.rs:1172-1240 | accepted exactly when quarantined and named with its prior generation; the placement moves to the destination one generation up |
| DirectoryCalls.ImportCall | crates/verse-simulation/src/cell_directory.rs:1242-1302 | the same as for the source proof, for a committed transfer; the placement comes to rest |
| DirectoryCalls.FinalizeCall | crates/verse-simulation/src/cell_directory.rs:1304-1359 | the same for an imported transfer whose aggregate rests where it landed |
| DirectoryCalls.RequestAbortCall | crates/verse-simulation/src/cell_directory.rs:1361-1401 | the outcome depends on the phase alone |
| DirectoryCalls.AbortCleanupCall | crates/verse-simulation/src/cell_directory.rs:1403-1466 | the same as for the source proof, for the role's own cell and proof of an aborting transfer |
| DirectoryCalls.FinalizeAbortCall | crates/verse-simulation/src/cell_directory.rs:1468-1511 | accepted exactly when aborting with both cleanup proofs; the placement comes to rest at the source |
| DirectoryCalls.OneWrite | crates/verse-simulation/src/cell_directory.rs:1521-1533 | a refusal and a stored record write nothing; a proposal is installed whole with the revision raised by one, or not at all with the error that stopped it |
| DirectoryCalls.ProofsByPhase | crates/verse-simulation/src/cell_directory.rs:1841-1885 | the validator's clauses on the presence of proofs are one table by phase |
| DirectoryCalls.DocumentAccepted | crates/verse-simulation/src/cell_directory.rs:1587-1611 | the validator's count and lookup of cells together say that the cells are exactly the expected ones |
| DirectoryCalls.ValidatorMatchesRegister | crates/verse-simulation/src/cell_directory.rs:1664-1694 | a resident placement of generation one is accepted exactly when a registration would write it |
| DirectoryCalls.ValidatorMatchesPrepare | crates/verse-simulation/src/cell_directory.rs:1695-1840 | a transfer without proofs under the generations in force is accepted exactly when a prepare would write it |
| CellIdentity.CellTextIsInjective | crates/verse-simulation/src/celestial.rs:277-284 | the canonical text that a cell id digests determines the cell key |
| CellIdentity.CellTextIs | crates/verse-simulation/src/celestial.rs:277-284 | the digested text, field by field in the order of the names |
| CellIdentity.CellIdsInjective | crates/verse-simulation/src/celestial.rs:277-284 | cell ids are injective whenever the digest is |
| CellIdentity.ProofKeysAreNeighbours | crates/verse-simulation/src/cell_directory.rs:1542-1547 | the eastern neighbour of the origin cell is the second proof cell |
| CellIdentity.ProofSetting | crates/verse-simulation/src/cell_directory.rs:1549-1585 | the two proof cells and any injective digest satisfy every assumption of the run theorems |
| BundledPlacement.Validate | crates/verse-simulation/src/cell_directory.rs:174-228 | the member loop accepts exactly the plans in strict id order, each member one generation up, one grid root, the rest player riders, committed to by the root |
| BundledPlacement.Stage | crates/verse-simulation/src/cell_directory.rs:236-328 | a transition moves every member and nothing else, or is refused with the error of the first failing check: plan, member root, foreign active placement, first absent or unready member |
| BundledPlacement.CheckMembers | crates/verse-simulation/src/cell_directory.rs:262-302 | the first loop accepts exactly when every member is ready and otherwise names the first that is not |
| BundledPlacement.MoveMembers | crates/verse-simulation/src/cell_directory.rs:304-327 | the second loop edits exactly the members |
| BundledPlacement.BundleMovesAsOne | crates/verse-simulation/src/cell_directory.rs:236-328 | in every run of any bundles the placements active under a transfer id are none or exactly the plan's members, all in one phase |
| BundledPlacement.RootBindsPlan | crates/verse-simulation/src/cell_directory.rs:154-172 | with an injective root hash a member root belongs to one plan |
| BundledPlacement.OneRecordPerPhase | crates/verse-simulation/src/cell_directory.rs:262-327 | each transition accepts exactly one record of a member and leaves exactly one |
| BundledPlacement.PlanCrosses | crates/verse-simulation/src/cell_directory.rs:174-200 | a valid plan leads between two different valid cells of one universe, named by their ids, under stable names |
| BundledPlacement.PrepareAbortIsIdentity | crates/verse-simulation/src/cell_directory.rs:236-328 | an abort is always accepted after a prepare and restores every placement |
| BundledPlacement.BundleArrives | crates/verse-simulation/src/cell_directory.rs:236-328 | prepare, commit and import accept one another and leave every member resident at the destination one generation up, all else untouched |
| BundledPlacement.RootOnlyAgrees | crates/verse-simulation/src/cell_directory.rs:1043-1050 | a bundle of the root alone is accepted whenever the single-transfer step is, with the same effect on the placements |
| Order.ListsUnique | crates/verse-interest-verifier/src/lib.rs:816 | an ordered map has one list of entries, so iterating it is well defined |
| Order.AscendingIsSorted | crates/verse-interest-verifier/src/lib.rs:1667-1682 | the check on neighbouring keys orders every pair, so accepted keys are distinct |
| Order.LexLessMeans | crates/verse-interest-verifier/src/lib.rs:1667-1682 | one text comes before another exactly when it ends first or has the smaller character at the first difference |
| EntityDelta.ValidateDisjoint | crates/verse-interest-verifier/src/lib.rs:1713-1749 | the set-filling loop accepts exactly the deltas within the limit whose three operations name distinct identities |
| EntityDelta.ApplyOperations | crates/verse-interest-verifier/src/lib.rs:741-793 | the four loops over the ordered map accept exactly when entered identities are absent, replaced ones present and older, removed ones present, and the result fits |
| EntityDelta.DeltaIsMapAlgebra | crates/verse-interest-verifier/src/lib.rs:741-816 | an accepted delta gives exactly (entities + entered, overridden by replaced) minus removed, in canonical order |
| EntityDelta.OrderOfOperationsIrrelevant | crates/verse-interest-verifier/src/lib.rs:741-793 | carrying out the three operations in any other order gives the same vector |
| EntityDelta.DeltaSize | crates/verse-interest-verifier/src/lib.rs:788-793 | the new size is old plus entered minus removed, within `max_entities`, and the vector stays strictly sorted |
| EntityDelta.RevisionsRise | crates/verse-interest-verifier/src/lib.rs:764-773 | an identity that stays visible is unchanged or replaced by a strictly higher revision |
| PrivateLinkage.BuildPublicLinkIndex | crates/verse-interest-verifier/src/lib.rs:1616-1645 | the nested loops build the index in which the last of equal identities wins and every block of every grid is listed |
| PrivateLinkage.CheckInventories | crates/verse-interest-verifier/src/lib.rs:1477-1519 | the inventory loop accepts exactly when every domain is linked and no cargo block is named twice, and counts the carried and collects the dropped ones |
| PrivateLinkage.CheckDrops | crates/verse-interest-verifier/src/lib.rs:1528-1563 | the death-drop loop accepts exactly when every drop is linked and no inventory is named twice |
| PrivateLinkage.CheckQueue | crates/verse-interest-verifier/src/lib.rs:1577-1612 | the job loop accepts exactly when the machine is owned, job ids are distinct and every job matches |
| PrivateLinkage.ValidatePrivateLinkage | crates/verse-interest-verifier/src/lib.rs:1436-1614 | the loops over inventories, drops, masses and queues accept exactly the overlays linked in that index |
| PrivateLinkage.BlocksResolve | crates/verse-interest-verifier/src/lib.rs:1647-1661 | a block is found in the index if and only if it is visible in exactly one place with the right owner and kind |
| PrivateLinkage.LinkageIsReferentialIntegrity | crates/verse-interest-verifier/src/lib.rs:1436-1614 | after the ordering checks acceptance is equivalent to one carried inventory, cargo inventories naming distinct uniquely visible owned cargo blocks, dropped inventories and visible death drops one to one, owned masses, and jobs matching queue, machine and inventories |
| InterestFrames.ValidatePayloadArrays | crates/verse-interest-verifier/src/lib.rs:1684-1711 | the loop accepts a baseline exactly when its four arrays are the payloads of its entities, in order |
| InterestFrames.ValidateBaseline | crates/verse-interest-verifier/src/lib.rs:620-700 | the view or error of `ValidatedBaseline`, decided by the table of `InterestDecisions.BaselineDecided` |
| InterestFrames.BaselineHolds | crates/verse-interest-verifier/src/lib.rs:620-700 | an accepted baseline gives an ordered, bounded, linked view whose hash is the computed one |
| InterestFrames.ValidateDelta | crates/verse-interest-verifier/src/lib.rs:702-838 | the view or error of `ValidatedDelta`, decided by the table of `InterestDecisions.DeltaDecided` |
| InterestFrames.DeltaHolds | crates/verse-interest-verifier/src/lib.rs:795-838 | an accepted delta keeps all that, also with the old private state, names the hash, session, epoch, baseline and observer of the view it extends, and extends the frontier by exactly one |
| InterestFrames.HeldViewsAreLinked | crates/verse-interest-verifier/src/lib.rs:667-671 | an accepted player view has referential integrity; a spectator view has no overlay |
| InterestAcceptance.KeyOrder | crates/verse-interest-verifier/src/lib.rs:1256-1258 | identities are ordered by id as text, then player, grid, voxel chunk, death drop |
| InterestAcceptance.VectorIs | crates/verse-interest-verifier/src/lib.rs:1260-1309 | a vector is refused for its first broken condition: too long, two entities out of order, or an entity with the wrong schema, identity, address, bodies, size or inner order |
| InterestAcceptance.OverlayIs | crates/verse-interest-verifier/src/lib.rs:1362-1413 | a private overlay is refused for its first broken condition: addresses, environment, the count of all records and jobs, or any collection out of order |
| InterestAcceptance.NamesOnceIs | crates/verse-interest-verifier/src/lib.rs:1713-1749 | the set of identities finds a repetition exactly when some identity is named twice by one or by two of the operations |
| InterestAcceptance.CarriedOutIs | crates/verse-interest-verifier/src/lib.rs:741-786 | the loops accept exactly when entered identities are not visible, replaced ones are with a lower revision, and removed ones are |
| InterestDecisions.SealIs | crates/verse-interest-verifier/src/lib.rs:1799-1833 | a view is accepted under the hash the frame carries exactly when that is the well-formed hash of all its fields but event sequence and tick |
| InterestDecisions.DeltaDecided | crates/verse-interest-verifier/src/lib.rs:702-838 | the first broken condition of the whole table decides with its category; if none is broken the result is the sealed next view, field by field, over the map algebra of the entities |
| InterestDecisions.AcceptedDelta | crates/verse-interest-verifier/src/lib.rs:1217-1238 | an accepted delta speaks for this session, registry and universe, continues exactly this view under its hash, and leads to exactly the next view |
| InterestDecisions.OffFrontierRefused | crates/verse-interest-verifier/src/lib.rs:1217-1238 | a delta that is bound but not the next one on exactly this view, for instance without its hash, is refused with `FrontierMismatch` |
| InterestDecisions.BaselineDecided | crates/verse-interest-verifier/src/lib.rs:620-700 | the first broken condition of the whole table decides; if none is broken the result is the sealed first view, field by field |
| InterestDecisions.HandoffOpens | crates/verse-interest-verifier/src/lib.rs:1052-1072 | a handoff opens in its preparing phase for a real transfer to another cell of the universe, and which error otherwise |
| InterestDecisions.HandoffMoves | crates/verse-interest-verifier/src/lib.rs:1074-1091 | an open handoff stays the same transfer and moves by at most one phase, never back |
| InterestDecisions.HandoffEnds | crates/verse-interest-verifier/src/lib.rs:1093-1117 | only the destination baseline of this transfer, one epoch up in the same session, ends a handoff that verifies its destination |
| InterestDecisions.RecoveryIs | crates/verse-interest-verifier/src/lib.rs:1240-1254 | a recovery is a new baseline of a later epoch in the same session with a clock that does not fall back |
| InterestVerifier.InterestVerifier.constructor | crates/verse-interest-verifier/src/lib.rs:259-265 | a new verifier is in the initial state |
| InterestVerifier.InterestVerifier.Stage | crates/verse-interest-verifier/src/lib.rs:269-473 | new state and token or error are those of `Staged` |
| InterestVerifier.InterestVerifier.Commit | crates/verse-interest-verifier/src/lib.rs:505-553 | new state and outcome are those of `CommitStep` |
| InterestVerifier.InterestVerifier.Discard | crates/verse-interest-verifier/src/lib.rs:557-574 | new state and outcome are those of `DiscardStep` |
| InterestVerifier.InterestVerifier.Reset | crates/verse-interest-verifier/src/lib.rs:577-581 | new state is that of `ResetStep` |
| InterestCalls.WelcomeOnce | crates/verse-interest-verifier/src/lib.rs:306-342 | a welcome is accepted once, with exactly this verifier's schemas and configuration |
| InterestCalls.RegistryOnce | crates/verse-interest-verifier/src/lib.rs:343-359 | the registry is accepted once, after the welcome |
| InterestCalls.HandoffHides | crates/verse-interest-verifier/src/lib.rs:360-398 | a player's handoff opens on a view or moves while open; either way nothing is left to present |
| InterestCalls.BaselineInstalls | crates/verse-interest-verifier/src/lib.rs:399-424 | a checked baseline is installed as destination, recovery or first view, and nothing else may name a transfer |
| InterestCalls.DeltaInstalls | crates/verse-interest-verifier/src/lib.rs:425-443 | a checked delta replaces the view it was checked against |
| InterestCalls.OthersKeep | crates/verse-interest-verifier/src/lib.rs:444-456 | receipts need a view, old messages are refused, fatal ones pass, and none changes what is committed |
| InterestCalls.StageCall | crates/verse-interest-verifier/src/lib.rs:269-473 | when staging is refused, and the token, transition and text held when it is not |
| InterestCalls.CommitCall | crates/verse-interest-verifier/src/lib.rs:505-553 | the installed state, the kind, the summary and the acknowledged fields of the view; refused under any other token |
| InterestCalls.DiscardCall | crates/verse-interest-verifier/src/lib.rs:557-585 | discard and reset drop what is pending and move the generation on, wrapping past zero |
| InterestRuns.RunKeeps | crates/verse-interest-verifier/src/lib.rs:269-585 | every run keeps the whole invariant: current pending, coherent committed state, ordered frames, numbered tokens |
| InterestRuns.FrontierOrder | crates/verse-interest-verifier/src/lib.rs:1217-1254 | between resets committed baselines and deltas share one session, their (epoch, sequence) and so the acknowledgements increase strictly, and event sequence and tick fall back only into a handoff's destination |
| InterestRuns.ViewOrHandoff | crates/verse-interest-verifier/src/lib.rs:360-442 | after the first baseline exactly one of view and handoff is present, before it neither |
| InterestRuns.CommittedViewsHold | crates/verse-interest-verifier/src/lib.rs:795-817 | in every run the committed view is ordered, bounded, carries its own hash and is referentially intact |
| InterestRuns.CommitsAreCurrent | crates/verse-interest-verifier/src/lib.rs:459-553 | any pending transition was computed from the present committed state, and only a reset or the commit of that transition changes it |
| InterestRuns.RefusedStage | crates/verse-interest-verifier/src/lib.rs:269-298 | a refused stage changes nothing, except that a preparing handoff has already cleared the pending transition |
| InterestRuns.TokensAreOneUse | crates/verse-interest-verifier/src/lib.rs:459-473 | in a run of at most 2^64 - 1 stagings every token is issued once and accepted at most once |
| InterestRuns.SpentForGood | crates/verse-interest-verifier/src/lib.rs:505-585 | an issued token that is not pending is refused by commit and discard in every later state, without effect |
| InterestRuns.PendingIsSpent | crates/verse-interest-verifier/src/lib.rs:272-297 | commit, discard, reset and any preparing handoff, even a rejected one, spend the pending token |
| InterestRuns.HandoffEndsAtDestination | crates/verse-interest-verifier/src/lib.rs:1074-1117 | while a handoff is open no view is presentable, and the next one committed is the destination baseline that names this transfer, one epoch up in the same session |
| Canonical.Writer.WriteNode | crates/verse-interest-verifier/src/canonical.rs:441-472 | the recursive writer appends exactly the text of the tree |
| Canonical.Writer.WriteString | crates/verse-interest-verifier/src/canonical.rs:474-502 | the character loop appends exactly the quoted text of the escapes, each of which `Canonical.EscapeIsShortest` determines; section 7 of RFC 8259 |
| Canonical.EscapeIsShortest | crates/verse-interest-verifier/src/canonical.rs:474-502 | the escape of a character is the one shortest text without control characters or closing quote that reads back as it |
| Canonical.PlainQuoted | crates/verse-interest-verifier/src/canonical.rs:474-502 | text without quotes, backslashes and control characters is written as it is |
| Canonical.NodeRoundTrip | crates/verse-interest-verifier/src/canonical.rs:441-502 | a parser recovers every tree, up to the integer type, and the rest of the text after it |
| Canonical.UniquelyDecodable | crates/verse-interest-verifier/src/canonical.rs:441-502 | two trees followed by non-digits have the same text if and only if the trees agree up to the integer type and the rests are equal |
| Canonical.FieldOrderIrrelevant | crates/verse-interest-verifier/src/canonical.rs:386-411 | the text of an object depends only on the final map of its fields, and determines it up to the integer type |
| ContactAggregation.AggregateContacts | crates/verse-physics/src/lib.rs:651-672 | one record per key in strict key order, each a contact of the input that no other of its key is preferred to |
| ContactAggregation.PreferenceIsLexicographic | crates/verse-physics/src/lib.rs:674-686 | the preference is the lexicographic order of the ten compared quantities |
| ContactAggregation.PreferredMeans | crates/verse-physics/src/lib.rs:674-693 | a contact is preferred exactly when it has the larger value at the first of the ten quantities on which they differ, a contact that began counting more than one that persisted |
| ContactAggregation.KeyOrderMeans | crates/verse-physics/src/lib.rs:651-672 | records are ordered by body, collider, other body, other collider, each as text |
| ContactAggregation.TiesAreIdentical | crates/verse-physics/src/lib.rs:674-693 | contacts of one key that tie are the same record |
| ContactAggregation.AggregationIgnoresOrder | crates/verse-physics/src/lib.rs:651-672 | inputs with the same contacts, in any order and with any repetition, give the identical output |
| FrameBridge.VerifiedFrameBridge.ReceiveFrame | apps/web-command-center/verifier-worker-core.js:34-49 | new state, outgoing messages included, is that of `Receive` |
| FrameBridge.VerifiedFrameBridge.DrainQueue | apps/web-command-center/verifier-worker-core.js:99-136 | new state is that of `Drain`; it terminates because a mismatch is recovered from at most once |
| FrameBridge.VerifiedFrameBridge.ConfirmPrepared | apps/web-command-center/verifier-worker-core.js:51-66 | new state is that of `Prepared`, which `FrameLedger.PreparedOutcome` states field by field |
| FrameBridge.VerifiedFrameBridge.ConfirmInstalled | apps/web-command-center/verifier-worker-core.js:68-74 | new state is that of `InstalledStep` |
| FrameBridge.VerifiedFrameBridge.RejectFrame | apps/web-command-center/verifier-worker-core.js:76-92 | new state is that of `RejectedStep` |
| FrameBridge.VerifiedFrameBridge.SendClientMessage | apps/web-command-center/verifier-worker-core.js:94-97 | new state is that of `SendStep` |
| FrameBridge.BridgeOrder | apps/web-command-center/verifier-worker-core.js:34-136 | in every run frames reach the verifier in arrival order, `queuedBytes` is the exact sum and both limits hold, all frames but the one in the slot are settled, each as the verifier replied, and the acknowledgements sent are exactly those of installed frames in staging order, each from the reply to that frame's own commit |
| FrameBridge.RunReplies | apps/web-command-center/verifier-worker-core.js:51-74 | every frame's fate is what the verifier replied: the i-th frame the i-th `stage` reply, a committed frame the acknowledgement of a `commit` call of its own for its own stage id, in order |
| FrameBridge.ClosedForGood | apps/web-command-center/verifier-worker-core.js:146-151 | after a close nothing is received or staged; only the frame already in the slot can still be committed, and at most its own acknowledgement is sent |
| FrameLedger.PostsAreLedger | apps/web-command-center/verifier-worker-core.js:51-136 | in every run the main thread is told, in staging order, to prepare each accepted frame with the kind and text of the reply to that frame and to install exactly the committed ones, and of one failure exactly when the bridge closed |
| FrameLedger.FrameOutcome | apps/web-command-center/verifier-worker-core.js:34-49 | what a frame from the socket does to an open bridge: closed with its code, waiting behind a full slot, or handed to the verifier at once |
| FrameLedger.DrainOutcome | apps/web-command-center/verifier-worker-core.js:99-136 | the reply to the head of the queue decides: into the slot, one recovery with a snapshot request, or closed with the verifier's code or the bridge's own |
| FrameLedger.PreparedOutcome | apps/web-command-center/verifier-worker-core.js:51-66 | one commit per presented frame, installed exactly when the reply names the stage in the slot; closed with the right code otherwise |
| FrameLedger.InstalledOutcome | apps/web-command-center/verifier-worker-core.js:68-74 | the slot is freed and exactly the acknowledgement of the frame's own commit is sent |
| FrameLedger.RejectedOutcome | apps/web-command-center/verifier-worker-core.js:76-92 | a rejected frame closes the bridge and is discarded only before its commit |
| FrameLedger.ClientOutcome | apps/web-command-center/verifier-worker-core.js:94-97 | a client message is forwarded exactly while the bridge is open |

## Left out

- Files, locks, fsync and rename, and the frozen-directory reader: a write is one step that happens or not.
- Hash functions, UTF-8, JSON parsing and printing, and the strict parser's limits: parameters, or parsed values; nothing is claimed about collisions.
- `InterestVerifier::new`'s checks on its configuration, and its read-only accessors.
- `validate_documents` as a whole: an uninterpreted function of the registry frame in the verifier runs; its separation, containment, membership, parent and decimal checks are modelled on their own.
- Fields the verifier copies or compares only as a whole (pose, inventory contents, voxel materials, production progress): kept together in one uninterpreted component each.
- Error texts: only the error categories and the identifiers in them are modelled.
- Floating point: `fixed_float` and metre conversion are left out; contacts carry integers ordered as `total_cmp` orders the floats.
- The socket and the main thread of the frame bridge: their messages are recorded in order; closing the socket is the `closed` flag.
- The Jolt interface, scene building, the engine, persistence, `handoff.rs`, the user interface and the wrappers around the verifier.
- DirectoryProgress.LiveTransferProgresses: says that an acceptable call exists when the revision is not exhausted and the write succeeds, not that anyone makes it.
- BundledPlacement.BundleMovesAsOne: assumes that every call under one transfer id passes the same durable member root, as the durable transfer record does; the record itself is not part of this model.
- InterestRuns.TokensAreOneUse: after 2^64 - 1 stagings the sequence wraps and the lemma says nothing.

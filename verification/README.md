# A verified model of the `wf` workflow engine

`wf` drives a piece of work through ordered phases. Everything it knows is an append-only,
hash-chained log of JSON lines; the run snapshot is a cache that must be tellable again from
that log; and a small predicate language decides, from the log, whether a phase may be left.
This project models the engine's core in Dafny and proves what the design promises of it.

## How it is laid out

| modules | what they model |
|---|---|
| `Values`, `Events`, `Sifting` | field values as JSON carries them, events, transitions and updates, lists sifted by a condition |
| `UpdateFolding` | the one-pass construction of effective records, against the meaning of `updates` chains |
| `WorkflowSpec`, `PhaseOrder`, `Extensions` | the specification, its validation, phase order and look-ups, the add-only merge of `contracts.d` |
| `Matching`, `Verdicts`, `CommandIdentity`, `RedGreen`, `Contracts` | the contract language and its evaluator |
| `ItemMeaning`, `ContractMeaning`, `PredicateMeaning`, `ContractTheory` | what the evaluator's answers mean, told by what is on record: when an item counts, what a stage finds, what each predicate asks; and the metatheory of the language |
| `RunState`, `RunTheory`, `RunInvariant`, `RunControl` | the run state machine: its steps, what every step keeps, the imperative commands |
| `RunCommands`, `RunIsolation`, `RunReplay` | when each command goes through and what it then leaves; that a run goes by its own events; what re-derivation reads of a log |
| `RunSafety`, `RunGates`, `RunExplained`, `RunPasses`, `RunApprovals`, `RunCrashes` | what holds over whole runs: agreement of log and snapshot, which command opened each gate, explained bypasses, passes after loops, anchored approvals, commands cut short |
| `LoopTargets`, `ShippedLoops`, `Rederivation`, `SampleRuns` | which loops are safe, the shipped specification's loops, where re-derivation parts from the snapshot, and runs that show it |
| `RunLog`, `RunHistory`, `RunIdentities` | what a command does to the log, histories seen from their end, and why identities in the log stay unique |
| `Lines`, `HashChain`, `Ledger`, `Retention`, `Archive`, `LogLife`, `Persistence` | the log as bytes and lines, the chain report, appends that may stop after any byte, archival, the whole life of a log, and runs kept on files |
| `Ulid` | the identity encoder and the monotonic generator |
| `Approvals`, `Trace`, `TraceMeaning`, `Paths` | approval references and anchors, the close-out trace and what it looks for, path patterns of scope boundaries |

Code that updates state in place is a class or a method with a loop (`FoldedLog`, `Ctl`,
`Store`, `Repository`, `Generator`, `Validate`, `MergeContractsDir`, `VerifyChain`, `RunTrace`,
and others), each proved equal to a function of the old state. The theorems are about those
functions, so they hold of the methods.

## What is assumed

- Each command opens the engine anew and sees contract items, record kinds, roster, verdict
  vocabulary, configuration, files on disk and the answers of the write-time checks as they are
  then (`RunState.Sight`). All of it may change from one command to the next; results about whole
  runs are over any sequence of commands, each in its own sight. Families, intents, phases and
  loops of the specification stay the same during a run.
- Event identities are unique in a log (`UniqueIds`); `RunIdentities.IdentitiesStayUnique` shows
  that every command keeps them so under a steady clock, whether one process stamps the events or
  many, as long as a new process starts in a later millisecond. None is empty where approvals are
  anchored (`AllNamed`): an append gives every event an identity. A new run gets an identity no event
  in the live log carries. One process writes at a time.
- JSON and SHA-256 are abstract (`Codec`). `Lawful` states what is used: a rendered event is a
  non-empty line without line breaks, parses back to the same event, and no proper prefix of it
  parses; what parsed can be rendered; a hash is not the empty string. Where binding is
  concerned, the hash is injective on the lines at hand (`HashInjectiveOn`).
- Of a specification the run theorems ask what `Validate` asks of phases (`PhasesOk`). The rest is
  asked of the commands given (`RunInvariant.Admissible`):
- No run is started in a family with a nameless phase. Such a phase would be taken for the end of
  the run, and a run could lap through it for ever (`LoopTargets.NamelessPhaseLaps`).
- A loop that would be let through is safe (`SafeLoop`): it jumps over no unaccounted phase, and a
  run that is through does not take its exit of the last phase along. `Validate` does not ask this
  of loop targets. `RunTheory.LoopKeepsPlacedIff` shows it is exactly what phase order needs, and
  `LoopTargets` and `ShippedLoops` give runs that lose without it.
- What is recorded is no `run` or `phase` event, and a recorded classification does not change the
  run's family or intent; `RunSafety.AgreementSurvivesRecordIff` shows the latter is exactly what
  re-derivation needs, as long as the write-time checks leave those two fields alone.
- Where runs are kept on files (`Persistence`), every event the commands write has a kind and can
  be rendered.

## What the proofs show about the code

- The log determines the live snapshot in every field (`RunSafety.LogDeterminesRun`), but
  `DeriveRun` gives back the phase only while the run has entered one since it last left one, the
  exits only while no loop re-opened one, and no slips (`Rederivation.RederivedIff`, with a run for
  each difference).
- Wherever a command is cut short between its events, the log tells a run in phase order, with one
  exception: a start cut after its first event is told as a run that is through all its phases and
  left none (`RunCrashes.CrashesKeepPhaseOrder`).
- A family- or intent-correcting classification changes the snapshot and not what the log tells
  (`Rederivation.CorrectionIsNotRederived`).
- Under the shipped specification every loop is safe save one: an assessment, which has no design
  phase, may loop to it. It then leaves it with verify and ship unaccounted and can never close.
- An accepted specification may let a loop lead ahead, or start from a finished run; such a run can
  close past phases it never left.
- Archiving a run identity a second time replaces its first archive: events are conserved exactly
  when no event was archived under that identity before.
- A clean, fully chained log is bound by its last line only up to blank lines anywhere and
  parseable unlinked lines in front: exactly those additions stay unreported
  (`HashChain.FullyChainedBindsIff`).
- Sequence numbers are given once only as long as one process appends; a new one counts from the
  live log alone, without the archives (`LogLife.NewProcessReusesNumbers`).
- Within one process identities grow exactly as long as the clock does not step back and the 80
  random bits do not wrap within one millisecond.

## Model

| member | source | states |
|---|---|---|
| Values.IntFieldIs | engine/internal/contracts/contracts.go:932-945 | A number is read without its fraction, toward zero; what is no number reads as the default. |
| UpdateFolding.FoldedLog.Build | engine/internal/contracts/contracts.go:53-103 | The one-pass construction over three maps leaves tables that answer every look-up as the declarative meaning of the log does, and is kept once built. |
| UpdateFolding.FoldedLog.RecordsOf | engine/internal/contracts/contracts.go:106-109 | Lazily builds and returns the effective records of a kind: each event that opens one, in stream order, overlaid by every event whose backward chain reaches it. |
| UpdateFolding.FoldedLog.ResolveRecordId | engine/internal/contracts/contracts.go:113-117 | Resolves an original or update identity to the original record, or to nothing when the chain is dangling. |
| UpdateFolding.SortedIds | engine/internal/contracts/contracts.go:94-98 | Orders the map's identities by stream position, losing and repeating none. |
| UpdateFolding.OriginIsChain | engine/internal/contracts/contracts.go:61-85 | An event speaks about a record if and only if some backward `updates` chain leads from it to that record, through events that are no moves of the engine. |
| UpdateFolding.ResolvesIff | engine/internal/contracts/contracts.go:113-117 | An identity resolves to a record if and only if some such chain begins with the record and ends in the identity. |
| UpdateFolding.RecordsInStreamOrder | engine/internal/contracts/contracts.go:86-109 | The records of a kind are all and only the opening events of that kind, strictly ordered by position. |
| UpdateFolding.FieldIsLastWrite | engine/internal/contracts/contracts.go:69-84 | Every field holds what the newest event writing it put there; a field nobody wrote is absent. |
| UpdateFolding.UpdatesIsNoField | engine/internal/contracts/contracts.go:74-81 | The `updates` field of an update never reaches the record. |
| UpdateFolding.AutoIffSomeWriteWas | engine/internal/contracts/contracts.go:69-84 | A record counts as captured if and only if some event writing it was captured; one captured update is enough. |
| UpdateFolding.AliasIsIdempotent | engine/internal/contracts/contracts.go:113-117 | Resolving a resolved identity changes nothing. |
| UpdateFolding.ReaimingKeepsMeaning | engine/internal/runctl/runctl.go:436-448 | Rewriting `updates` to the original, as recording does, changes neither the records of any kind nor any resolution. |
| UpdateFolding.AppendOnlyAdds | engine/internal/contracts/contracts.go:53-103 | Appended non-update events leave all records as they were and add exactly their own behind them. |
| UpdateFolding.UpdateSparesField | engine/internal/contracts/contracts.go:69-84 | An update that does not write a field leaves that field of every record alone. |
| CommandIdentity.Head | engine/internal/cmdid/cmdid.go:12-19 | Stripping leading environment assignments yields the join of the remaining tokens. |
| CommandIdentity.PrefixEither | engine/internal/cmdid/cmdid.go:135-149 | The index loop decides whether one token list is a prefix of the other. |
| CommandIdentity.TokensAreHeadFields | engine/internal/cmdid/cmdid.go:12-31 | Joining the head and splitting it again loses nothing: normalising keeps exactly the tokens after the assignments. |
| CommandIdentity.AssignmentsAreDropped | engine/internal/cmdid/cmdid.go:12-19 | Exactly the longest run of leading tokens that assign is dropped. |
| CommandIdentity.LeadingCdIsDropped | engine/internal/cmdid/cmdid.go:21-31 | `cd dir && cmd` counts as `cmd`, for any plain or quoted directory, any spacing and any one-line command. |
| CommandIdentity.TrimIsCore | engine/internal/cmdid/cmdid.go:26-31 | Trimming leaves exactly what lies between the outermost characters that are no white space. |
| CommandIdentity.ClassifyIsSymmetric | engine/internal/cmdid/cmdid.go:118-131 | The pair class does not depend on which command is red and which is green. |
| CommandIdentity.PairsByRunner | engine/internal/cmdid/cmdid.go:118-131 | Two commands pair at all if and only if both are non-empty after normalisation and start with the same token. |
| WorkflowSpec.Validate | engine/internal/spec/spec.go:289-443 | No complaints if and only if the specification is well-formed (unique names, orders a permutation of 1..n, resolvable references, well-typed contract items) and every corpus path is in the bundled reference tree, where there is one. |
| WorkflowSpec.CheckedIffTyped | engine/internal/spec/spec.go:445-572 | The recursive checker has no complaints about an item if and only if every part of it, at the end of any path of nested items, has the parameters its predicate needs. |
| WorkflowSpec.OrderErrors | engine/internal/spec/spec.go:310-346 | Checking only for repeated and missing orders establishes that orders are exactly 1..n. |
| WorkflowSpec.OrdersFill | engine/internal/spec/spec.go:342-346 | Pigeonhole: n distinct orders that include 1..n have none outside. |
| WorkflowSpec.Repetitions | engine/internal/spec/spec.go:310-316 | The growing seen-map reports nothing if and only if the names are distinct. |
| PhaseOrder.PhasesForIsOrdered | engine/internal/spec/spec.go:589-598 | A family's phases are exactly those whose participation is not "none", strictly ascending, none named twice. |
| PhaseOrder.NextIsSuccessor | engine/internal/spec/spec.go:601-609 | The next phase is the successor in the family's order and empty after the last. |
| PhaseOrder.NextOfStranger | engine/internal/spec/spec.go:601-609 | A phase the family does not take part in has no next phase. |
| Extensions.MergeContractsDir | engine/internal/spec/spec.go:225-282 | The merge succeeds if and only if every added name is namespaced, new and not repeated; then it appends all added kinds and items, in file order, and changes nothing else. |
| Extensions.MergeableIff | engine/internal/spec/spec.go:225-282 | The merge is possible if and only if added kinds begin with "x-" and added items with "local." or "lesson.", and none is shipped or added twice. |
| Extensions.AddedInFileOrder | engine/internal/spec/spec.go:225-282 | Files add their kinds and items one after the other. |
| Verdicts.FindEffectiveVerdict | engine/internal/contracts/contracts.go:505-545 | The collect-then-scan loops find the verdict that counts: a manual one never supersedes a failing captured one that is not dispositioned. |
| Verdicts.EffectiveIsDecisive | engine/internal/contracts/contracts.go:505-545 | The verdict that counts is the agent's newest, except that the newest captured one counts where it failed and no disposition names it. |
| Verdicts.VerdictInIff | engine/internal/contracts/contracts.go:463-600 | For any agent, by positions on record: met if and only if the decisive verdict has a listed status, or is risky, allowed to be and dispositioned; and is not by hand for a gating agent while capture is alive and none of the agent's verdicts is dispositioned. |
| Verdicts.VerdictInByNewest | engine/internal/contracts/contracts.go:463-600 | Without dispositions, for a gating agent and statuses that are not failing ones: met if and only if the newest verdict has a listed status and, where capture is alive, is a captured one. |
| Verdicts.ManualVerdictsNeverHelp | engine/internal/contracts/contracts.go:463-600 | No number of manual verdicts, nor any other appended non-update event short of a disposition or captured verdict, turns unmet into met. |
| RedGreen.ClassifyEvidence | engine/internal/contracts/contracts.go:745-791 | The double loop with its early exit returns the class of the specification function. |
| RedGreen.BestIsMaximum | engine/internal/contracts/contracts.go:745-791 | No red-green pair is stronger than the class. |
| RedGreen.BestIsAttained | engine/internal/contracts/contracts.go:745-791 | Every class above "no green" is the class of some pair. |
| RedGreen.PassesIffProven | engine/internal/contracts/contracts.go:793-806 | Passes if and only if a grounded failing run and a later grounded passing one of the tag are on record whose normalised commands start with the same token. |
| RedGreen.ClassNeverDrops | engine/internal/contracts/contracts.go:745-791 | Appending non-update events never lowers the class. |
| ContractMeaning.FailureNamesFirstBroken | engine/internal/contracts/contracts.go:136-160 | Evaluating a stage errs if and only if some item that is due and not passed over breaks, and names the first that does. |
| ContractMeaning.FindingsAreTheGaps | engine/internal/contracts/contracts.go:136-160 | The findings of a stage are exactly its unmet items that are not passed over, each once, in the order of the specification, with what the item says of itself. |
| ContractMeaning.UnwaivableIsFound | engine/internal/contracts/contracts.go:136-160 | An unmet item without the waivable mark whose condition holds is found, whatever waivers are on record. |
| ContractMeaning.FindingsHaveRemedies | engine/internal/spec/spec.go:424-427 | Under an accepted specification every finding of every stage says how to mend it. |
| ItemMeaning.SkippedIff | engine/internal/contracts/contracts.go:136-169 | An item is passed over if and only if its condition fails or it is waivable and a waiver record names it. |
| ItemMeaning.ConditionIff | engine/internal/contracts/contracts.go:171-228 | A condition holds if and only if intent, configuration, raised signals and records on file agree with it, as far as it asks for each. |
| ContractMeaning.ExitAllowedIff | engine/internal/contracts/contracts.go:125-160 | A phase may be left if and only if every exit item due to it and every entry item due to the next is passed over or met. |
| ContractMeaning.EachMeansAll | engine/internal/contracts/contracts.go:642-666 | The element loop is met if and only if all elements are, and errs if and only if one does. |
| ContractMeaning.AnyMeansFirst | engine/internal/contracts/contracts.go:704-728 | Any-of answers as its first alternative that is met or broken, and unmet if and only if all are. |
| PredicateMeaning.RecordExistsIff | engine/internal/contracts/contracts.go:415-437 | Met if and only if enough records fit the filter and their list fields have enough elements between them; never an error. |
| PredicateMeaning.LinkedRecordIff | engine/internal/contracts/contracts.go:451-461 | Met if and only if the element has an identity and some fitting record links to it. |
| PredicateMeaning.ApprovalIff | engine/internal/contracts/contracts.go:602-610 | Met if and only if an approval of the gate is on record. |
| PredicateMeaning.NoOpenIff | engine/internal/contracts/contracts.go:612-630 | Unmet if and only if some fitting record shows an open value in the field. |
| PredicateMeaning.ArtifactPresentIff | engine/internal/contracts/contracts.go:270-307 | Met if and only if some artifact record of the template and role is not marked missing and its file is authored and names what it must. |
| PredicateMeaning.PerEachIff | engine/internal/contracts/contracts.go:632-691 | Met if and only if enough elements are visited and the nested predicate is met for each of them; an error when the nested item names no predicate. |
| PredicateMeaning.AnyOfIff | engine/internal/contracts/contracts.go:704-728 | The first alternative that is met or broken decides; unmet if and only if all are. |
| PredicateMeaning.VerdictIff | engine/internal/contracts/contracts.go:463-500 | The verdict predicate reads agent, scope, statuses and allowance from its parameters and is met as `Verdicts.VerdictInIff` says. |
| PredicateMeaning.RedGreenIff | engine/internal/contracts/contracts.go:793-806 | The red-green predicate is met if and only if such a pair is on record for the element at hand. |
| ItemMeaning.MatchedIsFilter | engine/internal/contracts/contracts.go:876-930 | The matching records are exactly those whose data has every field of the filter with a like value, or one of a list of values. |
| ContractTheory.CheckedPredicateNeverBreaks | engine/internal/contracts/contracts.go:242-264 | A predicate without validation complaints evaluates without error in any environment and context, however deeply nested. |
| ContractTheory.AcceptedSpecNeverBreaks | engine/internal/contracts/contracts.go:125-160 | Type soundness: with an accepted specification no exit or entry contract of any phase ever returns an error. |
| ContractTheory.PositiveIsMonotone | engine/internal/contracts/contracts.go:242-264 | Nested predicates that only ask for evidence stay met when non-update events are appended that open no record a `per-each` ranges over. |
| ContractTheory.BasicEvidenceStays | engine/internal/contracts/contracts.go:415-461 | The same for record-exists, linked-record, approval and red-green, without any condition on the kinds appended. |
| ContractTheory.VocabularySuffices | engine/internal/contracts/contracts.go:242-264 | Evaluation depends on a specification only through its roster and verdict vocabulary. |
| ContractTheory.MergeOnlyAddsFindings | engine/internal/spec/spec.go:225-282 | Under the merged specification each stage reports exactly its shipped findings, followed by those of the added items. |
| ContractTheory.ExtensionsNeverWeaken | engine/internal/spec/spec.go:225-282 | An exit allowed after the merge was allowed before it. |
| ContractTheory.MergedIdsAreUnique | engine/internal/spec/spec.go:225-282 | Shipped items stay an unchanged prefix; item and kind names stay unique. |
| RunControl.Ctl.RunStart | engine/internal/runctl/runctl.go:79-102 | Snapshot, log and reply after the command are those of the start step, refusals included. |
| RunControl.Ctl.NextUnwaivedPhase | engine/internal/runctl/runctl.go:233-239 | The loop over `NextPhase` finds the first unwaived phase after the current one, or none. |
| RunControl.Ctl.PhaseExit | engine/internal/runctl/runctl.go:174-231 | Does the exit step: gaps and broken contracts change nothing; otherwise the exit or force is logged, the phase is marked exited and the next one entered. |
| RunControl.Ctl.ForceEscalation | engine/internal/runctl/runctl.go:243-261 | First force needs a reason, second a cause, third parks; when it lets the force pass it has logged one escape and nothing else. |
| RunControl.Ctl.PhaseWaive | engine/internal/runctl/runctl.go:264-293 | Does the waive step. |
| RunControl.Ctl.Loop | engine/internal/runctl/runctl.go:299-357 | Does the loop step: target by cause, grounds at ship, caps, parking at the run cap. |
| RunControl.Ctl.ShipLoopGrounds | engine/internal/runctl/runctl.go:362-386 | Grounds exist if and only if a trace finding is open or the newest audit on record failed. |
| RunControl.Ctl.Park | engine/internal/runctl/runctl.go:389-405 | Does the park step. |
| RunControl.Ctl.Resume | engine/internal/runctl/runctl.go:407-420 | Does the resume step. |
| RunControl.Ctl.RecordEvent | engine/internal/runctl/runctl.go:427-463 | Does the record step: normalised `updates`, required fields, the write-time checks of the moment on kind, data and capture, validated classifications. |
| RunControl.Ctl.Approve | engine/internal/runctl/runctl.go:798-889 | Does the approve step in the mode the configuration sets: records the approval's data or refuses it. |
| RunControl.Ctl.RunClose | engine/internal/runctl/runctl.go:152-166 | Does the close step: refused until the last phase was exited; then the run's events move to its archive. |
| RunControl.Ctl.DeriveRun | engine/internal/store/store.go:660-706 | The event loop rebuilds the snapshot the log tells. |
| RunTheory.NextUnwaivedSkips | engine/internal/runctl/runctl.go:233-239 | Everything between the current phase and the next unwaived one is waived, and the next one is not. |
| RunCommands.GateOpensIff | engine/internal/runctl/runctl.go:183-206 | The exit gate opens if and only if, by the run's own events, every exit item due to the phase and every entry item due to the next unwaived one is passed over or met. |
| RunCommands.ExitGoesThroughIff | engine/internal/runctl/runctl.go:174-261 | An exit goes through if and only if the run is active and its gate is open or, by force, a reason is given, from the second force on with its cause, and no third. |
| RunCommands.ExitLeaves | engine/internal/runctl/runctl.go:207-230 | It then marks the phase exited, enters the next unwaived one and writes exactly the exit, plain or with its escape, and the entry. |
| RunCommands.ExitReports | engine/internal/runctl/runctl.go:183-203 | What a refused exit reports is what the exit stage found, findings or a broken item, or, where it found nothing, what the next phase's entry stage did. |
| RunCommands.WaiveGoesThroughIff | engine/internal/runctl/runctl.go:264-282 | A phase is waived if and only if the family may, a reason is given and it was not exited, whether the run is parked or not. |
| RunCommands.WaiveLeaves | engine/internal/runctl/runctl.go:280-293 | Waiving adds the phase, moves on where it is the current one, and writes that. |
| RunCommands.LoopGoesThroughIff | engine/internal/runctl/runctl.go:299-357 | A loop goes through if and only if cause and phase lead to a target, from ship with grounds on record, evidence is given, and the caps are not used up. |
| RunCommands.LoopLeaves | engine/internal/runctl/runctl.go:338-357 | It takes the run to the target, counts, takes back the target's exits, and writes the loop with its evidence and the move. |
| RunCommands.RecordGoesThroughIff | engine/internal/runctl/runctl.go:427-480 | A record goes through if and only if its kind is declared, an update's target resolves among the run's own events or all required fields are there, and the checks pass; exactly that is written, and a classification corrects family and intent. |
| RunCommands.StartGoesThroughIff | engine/internal/runctl/runctl.go:79-102 | A run starts if and only if none is active and the specification knows family and intent; it enters the family's first phase. |
| RunCommands.CloseGoesThroughIff | engine/internal/runctl/runctl.go:152-166 | A run closes if and only if the family's last phase was exited; the log with the closing event is split into the run's archive and the live log. |
| RunCommands.ParkGoesThroughIff | engine/internal/runctl/runctl.go:389-420 | Parking asks for a reason and resuming for a parked run; both leave the rest alone. |
| RunCommands.RefusalsChangeNothing | engine/internal/runctl/runctl.go:79-463 | What does not go through changes nothing, except that a third force and a loop beyond the cap park the run and log it. |
| RunIsolation.OwnEventsDecide | engine/internal/runctl/runctl.go:42-49 | Any command on a live run but the start of another gives the same answer, snapshot, archives and, short of closing, the same events on all logs that hold the same events of the run. |
| RunIsolation.StrangersDoNotMatter | engine/internal/runctl/runctl.go:42-49 | An event of another run, inserted anywhere, changes neither the answer nor what the command does to the run. |
| RunReplay.StrangersAreNotTold | engine/internal/store/store.go:660-706 | A record anywhere in the log, or a move of a run other than the one told, changes nothing of what is re-derived. |
| RunReplay.ClosingEnds | engine/internal/store/store.go:678-681 | After the closing event of the run told no run is told; closing another changes nothing. |
| RunReplay.BeginningForgets | engine/internal/store/store.go:670-677 | A start, branch or adoption begins a blank run, whatever was told before. |
| RunTheory.AdvanceKeepsPlaced | engine/internal/runctl/runctl.go:216-230 | Leaving a phase keeps every phase before the new one accounted for. |
| RunTheory.WaiveKeepsPlaced | engine/internal/runctl/runctl.go:283-292 | So does waiving one, the current phase included. |
| RunTheory.LoopKeepsPlacedIff | engine/internal/runctl/runctl.go:299-357 | A loop keeps the run in phase order if and only if it jumps over no unaccounted phase and, from a run that is through, does not leave the last phase exited. |
| RunInvariant.StepKeepsSound | engine/internal/runctl/runctl.go:79-463 | Every command keeps the run placed in phase order, within its caps, and told by its log. |
| RunInvariant.SoundInAnySight | engine/cmd/wf/main.go:201-218 | Soundness of a state does not depend on what a command finds in contracts, configuration or files. |
| RunInvariant.TurnKeepsSound | engine/cmd/wf/main.go:201-218 | A command in whatever sight keeps the run sound for the next one. |
| RunInvariant.RunsAreSound | engine/internal/runctl/runctl.go:79-463 | So does every sequence of commands, with contracts, configuration, files and checks changing in between. |
| RunSafety.SnapshotIsDerivable | engine/internal/store/store.go:660-706 | In every reachable state re-derivation agrees with the snapshot on identity, family, intent, status, loops, forces, waivers and non-empty phase; its exits contain the snapshot's, and equal them without loops. |
| RunSafety.LogDeterminesRun | engine/internal/store/store.go:660-706 | In every reachable state the log determines the whole snapshot: re-derivation with its three omissions mended gives back every field. |
| Rederivation.RederivedIff | engine/internal/store/store.go:660-706 | The derived phase, exits and slips equal the snapshot's exactly unless, in turn, the run left the named phase it was last taken to and entered none, a loop re-opened an exited phase, or a loop was a slip; all else is equal always. |
| Rederivation.DerivedPhaseIsLastTarget | engine/internal/store/store.go:684-696 | The derived phase is where the last entry or loop of the run led. |
| Rederivation.LastExitIsNotRederived | engine/internal/store/store.go:686-699 | A reachable run through both its phases: no phase in the snapshot, the last one re-derived. |
| Rederivation.LoopIsNotRederived | engine/internal/store/store.go:692-696 | A reachable run looped back for a slip: the re-opened exit is re-derived and the slip is not. |
| Rederivation.CorrectionIsNotRederived | engine/internal/runctl/runctl.go:465-480 | A recorded classification that corrects the family: snapshot and log no longer agree. |
| RunSafety.AgreementSurvivesRecordIff | engine/internal/runctl/runctl.go:427-480 | A record keeps the agreement if and only if the data given, where it is a classification, names the family and intent the run already has. |
| RunSafety.EarlierPhasesAreAccounted | engine/internal/runctl/runctl.go:174-357 | In every reachable state each phase before the current one was exited or waived, all of them when none is current. |
| RunSafety.DerivedPhasesAreRecorded | engine/internal/store/store.go:683-701 | Every re-derived exit or waiver is an exit, force or waive event of that run in the log. |
| RunGates.ClosedRunsAreComplete | engine/internal/runctl/runctl.go:152-166 | A run closes only when it has no phase left and every phase of its family is exited or waived, with the log showing a waiver, a force, or an exit written by a command that found the gate open; at most two were forced. |
| RunPasses.StepPasses | engine/internal/runctl/runctl.go:174-463 | Every command keeps: since the last loop, from its target to the current phase, each phase was left or is waived. |
| RunPasses.ReopenedPhasesArePassedAgain | engine/internal/runctl/runctl.go:152-166 | In a run that closes, every phase from the target of its last loop on is waived or was exited or forced after that loop. |
| RunGates.BypassIsBounded | engine/internal/runctl/runctl.go:174-261 | At most two force events; every plain exit was written by a command that found exit items and the next phase's entry items without findings, in what it saw and on the log before the exit. |
| RunGates.OnlyExitsWriteExits | engine/internal/runctl/runctl.go:174-231 | No command but a plain exit through an open gate writes an exit event, and it writes one, for its own phase. |
| RunGates.ExitsWereClear | engine/internal/runctl/runctl.go:183-206 | Each exit of a live run can be traced to the command of the history that found its gate open. |
| RunExplained.StepExplained | engine/internal/runctl/runctl.go:174-420 | Every command leaves each force, waiver and loop of the live run explained in the log. |
| RunExplained.NoSilentBypass | engine/internal/runctl/runctl.go:243-357 | In every reachable state each force follows an escape record with the same non-blank reason, from the second on naming its cause; each waiver has a reason; each loop follows a loop record with evidence. |
| RunSafety.StepProgresses | engine/internal/runctl/runctl.go:174-357 | Every command either stays, moves ahead in the order, or spends one of the loops left. |
| RunSafety.MovesArePaid | engine/internal/runctl/runctl.go:174-420 | From any sound state the phase changes still to come are bounded by loops left times a lap, plus phases left. |
| RunSafety.MovesAreBounded | engine/internal/runctl/runctl.go:174-420 | A run over n phases with at most K loops changes phase at most (K+1)n+K times, however it is parked, resumed, waived or forced. |
| RunSafety.SlipsAreCapped | engine/internal/runctl/runctl.go:332-356 | Slips per criterion never exceed their cap and in total never the loops taken, which never exceed theirs. |
| RunApprovals.ReachableApprovalsAreAnchored | engine/internal/runctl/runctl.go:798-889 | In every reachable state of a run without updates and hand-made approvals, each approval naming an answer names one about its gate or none, after each earlier approval of the gate; if all were hardened or challenged, each names one. |
| RunApprovals.ApproveGoesThroughIff | engine/internal/runctl/runctl.go:798-889 | Under "challenge" an approval goes through if and only if an answer about the gate or none, given since all its approvals, carries the code; under "hardened" if and only if there is such an answer, code or not; under anything else always. |
| RunApprovals.ApproveLeaves | engine/internal/runctl/runctl.go:798-889 | It writes one approval with the gate, the fingerprint of what was presented, the references bound and theirs, and the newest fitting answer, about the gate before about none. |
| RunCrashes.CutShortIsOrdered | engine/internal/runctl/runctl.go:174-463 | Wherever a command on a live run is cut short, the log tells a run in phase order. |
| RunCrashes.CrashesKeepPhaseOrder | engine/internal/runctl/runctl.go:79-463 | From every reachable state a command cut after any of its events leaves a log that tells a run in phase order if and only if it is not a start cut after its first event. |
| RunCrashes.CloseCutShort | engine/internal/store/store.go:678-681 | A close cut after its event, the log not yet split, tells no run; cut before it, the run in phase order. |
| LoopTargets.LeadingBackIsSafe | engine/internal/runctl/runctl.go:299-357 | Where a named loop origin and the ship phase lead only to earlier phases of the family, every loop command is admissible. |
| LoopTargets.LoopAheadSkipsPhases | engine/internal/runctl/runctl.go:299-357 | An accepted specification whose loop leads ahead lets a run close past two phases it never left. |
| LoopTargets.LoopFromNowhereReopens | engine/internal/runctl/runctl.go:312-356 | An accepted specification with an empty loop origin: a finished run loops back over nothing and closes with its first phase neither exited nor waived. |
| LoopTargets.NamelessPhaseLaps | engine/internal/spec/spec.go:309-346 | An accepted specification whose first phase has no name: a started run can be told to exit any number of times and moves each time, so no bound on moves holds. |
| ShippedLoops.ShippedIsOrdered | workflow/workflow.yaml:46-104 | The shipped phases are told apart by name and order, numbered 1..7. |
| ShippedLoops.ShippedIsNamed | workflow/workflow.yaml:58-94 | No shipped family passes a nameless phase. |
| ShippedLoops.ShippedOrder | workflow/workflow.yaml:58-94 | Diff and artifact runs pass seven phases, an assessment six, without design. |
| ShippedLoops.ShippedLoopIsSafeIff | workflow/workflow.yaml:95-104 | A loop the engine would take under the shipped specification is safe if and only if it is not an assessment's loop to design. |
| ShippedLoops.ShippedLoopsAreAdmissible | workflow/workflow.yaml:95-104 | So all results about runs hold of every shipped run that does not make that loop. |
| ShippedLoops.LoopToDesignStrands | engine/internal/runctl/runctl.go:299-357 | An assessment at verify that loops to design and leaves it, plainly or by force, is through with verify and ship unaccounted. |
| ShippedLoops.StrandedNeverCloses | engine/internal/runctl/runctl.go:152-166 | A run that is through without its last exit never closes, whatever is commanded. |
| ShippedLoops.AssessmentStrands | engine/internal/runctl/runctl.go:174-357 | The same from the start: five commands to verify, the loop, one exit. |
| Lines.SplitConcat | engine/internal/store/store.go:377-402 | Bytes written after a newline only add lines behind the old ones. |
| Lines.SplitHealed | engine/internal/store/store.go:219-228 | Ending a torn tail with a newline changes no line. |
| Lines.LastLineIsLast | engine/internal/store/store.go:258-279 | The line an append chains to is the last one a scan yields. |
| HashChain.VerifyChain | engine/internal/store/store.go:595-639 | The one-pass loop computes the report of the specification function. |
| HashChain.NoBreaksIffLinked | engine/internal/store/store.go:582-639 | No breaks if and only if, blank lines aside, every parseable line links to the raw line before it, or is unlinked after none but unlinked ones. |
| HashChain.BreaksAreTheBadLines | engine/internal/store/store.go:612-632 | The breaks reported are, in order and once each, exactly the lines that lack a link after linked ones or link to something else than the line before. |
| HashChain.UnparseableAreCounted | engine/internal/store/store.go:609-614 | The unparseable lines are counted, each once. |
| HashChain.BlankLinesDoNotCount | engine/internal/store/store.go:603-609 | The report on a log is the report on its non-blank lines. |
| HashChain.LastLineBinds | engine/internal/store/store.go:582-639 | Two clean logs with the same last line share everything back to an unlinked line, with none but unlinked lines in front, blank lines aside. |
| HashChain.FullyChainedBindsIff | engine/internal/store/store.go:582-639 | A log ending like a clean, fully chained one is clean if and only if, blank lines aside, it is that log behind parseable unlinked lines. |
| HashChain.FrontIsAccepted | engine/internal/store/store.go:612-632 | Parseable unlinked lines in front of a clean, fully chained log go unreported. |
| HashChain.TamperingShows | engine/internal/store/store.go:582-639 | Changing, emptying or deleting lines of a fully chained log short of its last shows in the report, whatever blank lines are put in. |
| HashChain.ForgeryShows | engine/internal/store/store.go:586-632 | An appended line without a link, in a log that has linked ones, is a break. |
| Ledger.Store.Append | engine/internal/store/store.go:195-242 | Filling in identity and time, healing, numbering, linking and writing leave file, counter and outcome as specified for every number of bytes that reach the disk. |
| Ledger.Store.EndTornTail | engine/internal/store/store.go:219-228 | Ends a torn tail, and only that, if one byte reaches the disk. |
| Ledger.Store.LastSeq | engine/internal/store/store.go:281-290 | The scan yields the highest sequence number on file. |
| Ledger.AttemptKeepsIntact | engine/internal/store/store.go:195-242 | An append cut off after any number of bytes leaves a log that is chained, numbered and reads back as the events that landed. |
| Ledger.CrashTolerantAppend | engine/internal/store/store.go:195-242 | After any history of appends, completed or cut off anywhere, by one process or many: no breaks, a read yields exactly the events whose whole line landed, in order, with strictly increasing numbers. |
| Ledger.NumbersAreDense | engine/internal/store/store.go:206-210 | Numbers start at one and never run ahead of the attempts: where every attempt landed the events are numbered 1, 2, 3 and so on, whichever process wrote them. |
| Ledger.CompletedAppendLands | engine/internal/store/store.go:195-242 | A completed append adds exactly its event, but for number and link, behind all others. |
| Ledger.TamperedHistoryShows | engine/internal/store/store.go:582-639 | A history without torn lines is bound by its last line: any other log that, blank lines aside, is no longer and ends in that line is reported. |
| Retention.LogSplits | engine/internal/store/store.go:495-509 | The log splits into two order-preserving subsequences with nothing lost or doubled. |
| Retention.SplitIsSifted | engine/internal/store/store.go:545-550 | Archive and live log are the log sifted by whether an event is the run's and no open follow-up, each in its old order. |
| Archive.WriteEvents | engine/internal/store/store.go:554-577 | The rewrite loop produces the lines of the re-linked events. |
| Archive.CountLines | engine/internal/store/store.go:641-656 | Counts the non-empty lines. |
| Archive.Repository.ArchiveRun | engine/internal/store/store.go:495-529 | The count always agrees, and live log and archive become the two re-chained parts. |
| Archive.CompactedFile | engine/internal/store/store.go:554-577 | A rewritten file reads back as its events up to links, verifies clean, and is chained. |
| Archive.ArchivalVerifies | engine/internal/store/store.go:495-577 | Both rewritten files verify without breaks and without unparseable lines. |
| Archive.BagOfListing | engine/internal/store/store.go:337-355 | What all events contain does not depend on the order archives are listed in. |
| Archive.ArchiveConservesIff | engine/internal/store/store.go:495-529 | Archival conserves the multiset of all events up to links if and only if no event had been archived under that identity. |
| LogLife.LivesAreIntact | engine/internal/store/store.go:195-577 | Over any life of a log, appends cut off anywhere and archivals interleaved: no breaks, reads yield what landed and was kept, strictly increasing numbers, every archive clean. |
| LogLife.NothingIsLost | engine/internal/store/store.go:195-577 | Over such a life, if no run is archived twice, every event that ever landed is in the live log or exactly one archive, up to its link, and nothing else is. |
| LogLife.NumbersAreNeverReused | engine/internal/store/store.go:195-242 | As long as one process appends, strictly increasing numbers are given over the whole life of a log, cut appends and archivals included. |
| LogLife.NewProcessReusesNumbers | engine/internal/store/store.go:281-290 | A new process counts from the live log alone: after an archival that leaves it empty it gives number one again. |
| Persistence.FilingFollowsStep | engine/internal/runctl/runctl.go:59-69 | Writing a command's events through the ledger, and compacting on close, leaves on file what the step leaves in the log. |
| Persistence.FilesTellTheRun | engine/internal/store/store.go:660-706 | After any commands on any history, the live file verifies without breaks, reads back as the log the commands produced, and re-derives the live run. |
| RunLog.StepsLog | engine/internal/runctl/runctl.go:59-69 | A command only writes behind the log; closing then drops the run's own events. |
| RunLog.StepsStamps | engine/internal/runctl/runctl.go:59-69 | The events a command writes take the stamps that follow, one each. |
| RunIdentities.IdentitiesStayUnique | engine/internal/store/ulid.go:27-76 | With events stamped under a steady clock, by one process or by many started in later milliseconds, identities in the live log stay unique through every command and archival. |
| Ulid.Encode | engine/internal/store/ulid.go:48-76 | The nested bit-packing loop yields the 26 base-32 digits of the 128-bit value. |
| Ulid.EncodingDecodes | engine/internal/store/ulid.go:48-76 | Decoding an encoded identity gives back its 16 bytes. |
| Ulid.EncodingKeepsOrder | engine/internal/store/ulid.go:48-76 | String order of identities is numeric order of their 128 bits. |
| Ulid.Generator.NewAt | engine/internal/store/ulid.go:27-76 | A call moves the generator's time and random part and returns the identity of what they now hold, a failing random source included. |
| Ulid.Generator.Draw | engine/internal/store/ulid.go:38-46 | A new millisecond takes its random part from the source or, should that fail, from the bytes of the time. |
| Ulid.ShiftsAreBytes | engine/internal/store/ulid.go:47-53 | The six shifts spell the low 48 bits of the time, high byte first. |
| Ulid.Generator.Increment | engine/internal/store/ulid.go:31-37 | The carry loop in place increments the random part as specified. |
| Ulid.IncrementCounts | engine/internal/store/ulid.go:31-37 | Incrementing adds one, except from all ones, where it wraps to zero. |
| Ulid.IdentityTells | engine/internal/store/ulid.go:47-76 | An identity tells the millisecond it was made in, and its random part. |
| Ulid.IdentityIsDrawn | engine/internal/store/ulid.go:27-46 | After a call the identity holds its millisecond and, within one millisecond, the random part counted up around, else what the source gave or, should it fail, the bytes of the time over and over. |
| Ulid.NextIsLargerIff | engine/internal/store/ulid.go:27-76 | A call gives a larger identity if and only if the clock moved on, or stood still and the random part had room. |
| Ulid.IdentitiesIncrease | engine/internal/store/ulid.go:27-76 | Over any calls with a steady clock and no wrap, new processes included, every later identity is larger. |
| Approvals.ComposeApproval | engine/internal/runctl/runctl.go:798-889 | The loops over approvals and answers yield the approval's data, or the refusal of hardened or challenge mode. |
| Approvals.NewestCarrying | engine/internal/runctl/runctl.go:855-868 | The search from the newest answer back finds the newest one that carries the code. |
| Approvals.AnchorIsAnswer | engine/internal/runctl/runctl.go:824-880 | An anchor is an answer about the gate or none, given since the gate's last approval; in challenge mode it carries the code. |
| Approvals.AnchorIsFresh | engine/internal/runctl/runctl.go:824-880 | The anchor is an answer about the gate or none, newer than every approval of the gate. |
| Approvals.AnchorsAreFresh | engine/internal/runctl/runctl.go:811-888 | Over any run of answers and approvals, successive anchored approvals of a gate name ever later answers, each given between the two. |
| Approvals.StrictApprovalsAreAnchored | engine/internal/runctl/runctl.go:854-888 | Where approvals are hardened or challenged every recorded one has such an answer. |
| Approvals.AnchorIsNewest | engine/internal/runctl/runctl.go:824-880 | The anchor is the newest fitting answer about the gate since its last approval, one that carries the code where it is asked for; only without one, the newest such about no gate; without either, none. |
| Approvals.RefsAreSortedSet | engine/internal/contracts/contracts.go:814-853 | An approval binds exactly the collected references, each once, in strict order. |
| Approvals.ScopeBindsIff | engine/internal/contracts/contracts.go:814-853 | A scope approval binds exactly the requirements not dropped and the high-risk assumptions. |
| Approvals.PlanBindsIff | engine/internal/contracts/contracts.go:814-853 | A plan approval binds exactly the named tasks and the strategies of acceptance criteria. |
| Approvals.DesignBindsIff | engine/internal/contracts/contracts.go:836-843 | A design approval binds exactly the options selected, each with its stage; gates other than these three bind nothing (`OthersBindNothing`). |
| Trace.RunTrace | engine/internal/views/trace.go:30-189 | Looking category by category and recording what is missing writes one finding per wanted key not on record. |
| TraceMeaning.WantedIff | engine/internal/views/trace.go:30-168 | A finding is wanted if and only if one of nine categories asks for it: a forced exit; an open follow-up, pending deviation or unresolved ambiguity; a reference a gate's newest binding approval did not bind; an edit out of scope; edits after the last gating verdict; frame forced without a risk on record; an invalidated high-risk assumption. |
| TraceMeaning.RecordedIff | engine/internal/views/trace.go:170-189 | A trace records one open, captured finding for every key that is wanted and not on record, and nothing else. |
| Trace.EditsOutOfScope | engine/internal/views/trace.go:97-123 | The three nested loops with their seen-map report each covered edit once. |
| Trace.OutOfScopeIff | engine/internal/views/trace.go:97-123 | An edit is reported if and only if an entry of a recorded boundary covers its path. |
| Paths.CoversIff | engine/internal/views/trace.go:292-320 | By its text, an entry that is no prose covers what lies below a directory, what the glob matches as a whole or in its last element, or else the path itself and what is below it. |
| Paths.BaseIsLast | engine/internal/views/trace.go:312-316 | The last element is what follows the last slash, trailing slashes aside. |
| Paths.CoversBelow | engine/internal/views/trace.go:292-320 | What a path-like entry without wildcards covers it covers with everything below. |
| Trace.WantedKeysDiffer | engine/internal/views/trace.go:30-168 | One trace never wants a key twice, across all nine categories. |
| Trace.EveryWantIsOnRecord | engine/internal/views/trace.go:170-189 | After a trace every key it looked for is on record. |
| Trace.ForcesAreFound | engine/internal/views/trace.go:41-49 | After a trace each forced exit in the log has its finding on record. |
| Trace.KeysStayUnique | engine/internal/views/trace.go:170-189 | However traces interleave with other records, updates of findings included, no two findings share a key. |
| Trace.SecondTraceIsSilent | engine/internal/views/trace.go:170-189 | A trace directly after a trace records nothing. |

## Left out

- Branching and adopting a run as steps: re-derivation resets the run on those events while the live snapshot does not; only their replay is modelled.
- JSON and YAML decoding, SHA-256 itself, file-system errors, `fsync` and the 4 MiB line window: a codec with stated laws, and reads and writes that succeed up to a byte budget.
- A crash inside an archival, and whether the snapshot was saved when a command was cut short; what the log then tells is modelled.
- `Lock` and `Unlock`: one writer at a time.
- Artifact files: whether a file is authored and names what it must are oracles (`World`) that never fail; so is matching a path against a glob (`Wording.glob`).
- RunControl.Ctl.RecordEvent: what the per-kind checks of `validateRecord` answer on the log of the moment is given with each command, as a function of kind, data and capture that may rewrite the data or refuse it.
- Approvals.ComposeApproval: whether an answer carries the challenge code, and the fingerprint of a text, are oracles; minting, showing and clearing the code are not modelled.
- Ledger.Store.Append: sequence numbers are unbounded; the schema field is left out; the identity and the time to fill in are parameters.
- Ulid.Encode: shifts and masks are division and remainder by powers of two; the accumulator stays below 4096, so no width matters. The random source is a parameter.
- WorkflowSpec.Validate: complaints carry a subject and a reason, not the message text; which paths a bundled reference tree holds is a parameter.
- Extensions.MergeContractsDir: reading and decoding the directory; refused keys of a file are outside the type of an extension.
- RunControl.Ctl.RunStart: a family without phases is refused where the code would index out of range; `Started` and `Parent` are not part of the snapshot.
- RunControl.Ctl.PhaseExit: asks for what `Validate` asks of phases; with a repeated name the loop over `NextPhase` need not end.
- UpdateFolding.FoldedLog.Build: asks for unique event identities, as do the look-ups built on it; with a repeated one the construction would drop the earlier record.
- Archive.Repository.ArchiveRun: pruning of local files and clearing of the snapshot file; the run machine's close step clears the snapshot.
- Texts of findings, reports, status lines and hooks, coverage scraping, git calls, code generation, packs and documents.

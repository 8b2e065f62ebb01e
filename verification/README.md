# Verified model of the SourceOS boot state machines

This project models three engines of `sourceos-boot` in Dafny and proves what they promise.

**The A/B dual-slot update machine** (`src/sourceos_boot/ab_update_machine.py`). `AbUpdateMachine.dfy` is
the machine as it is written: a class whose nine event methods rewrite two slot records, append to an attempt
log, look rules up in the indexed transition table and check their own invariants afterwards. Each method is
proved to take the state exactly where `UpdateSpec.Step` says, including when the checks fail: an
InvariantViolation is an answer (`Raised`), with the new state already in place, as in the original.
`UpdateSpec.Step` does not mention the table; `UpdateTable.dfy` proves the two agree. Everything else is proved
about runs of `Step` over every finite sequence of events, legal or not:

- `UpdateRuns.dfy`: the shape of every reachable state, and the exact language of event sequences the machine
  allows;
- `UpdateSafety.dfy`: the good slot, the self-checks, slot selection, the budget, promotion, and both contract
  documents;
- `UpdatePromises.dfy`: what the contracts' field descriptions ask beyond their clauses, and which runs keep it;
- `UpdateChain.dfy`: unbounded chains of transactions, each opened from the slot documents the last one left;
- `Replay.dfy`: the replay command's loop over recorded events.

**The lifecycle promotion engine** (`src/sourceos_boot/lifecycle_state_machine.py`), in `Lifecycle.dfy` (one
transition and its four gates) and `LifecycleRuns.dfy` (what every run must have done).

**The schema checker** (`src/sourceos_boot/validate_trust_chain_boot_verification.py`), in `SchemaCheck.dfy`,
against a position-by-position reading of the JSON Schema Draft 2020-12 subset it supports (Core sections 4.2.2,
10.3.1.2, 10.3.2.1 and 10.3.2.3; Validation sections 6.1.1 to 6.1.3 and 6.5.3).

`RuleIndex.dfy` holds the index both tables are looked up through, for any table. `Slots.dfy` holds the slot
records and documents. `dafny verify dfyconfig.toml` checks the whole project.

## How the model reads the source

- A start is `Constructed` when it passes the constructor's checks and no more. `SafeStart` is what the
  runtime checks need on top: the active slot has a digest and is neither being written nor unbootable, and
  exactly one slot runs. `ConformantStart` is the UpdateSlot contract on both slots and one of them running;
  it implies `SafeStart`. Each theorem names the one it needs.
- Digests are strings, so the empty string behaves as in the source: it is kept in a record and dropped from
  a document.
- A timestamp is the number of the clock reading that produced it, so a theorem about times is also one about
  how often the clock is read.
- Text that only explains (`reason` in a result) is not modelled; `detail` is, where an attempt records it.

## Where promise and code part

The code is followed in each case.

- The machine's checks are stated to guard every transition, but the constructor accepts slot pairs on which
  they fail. `UpdateSafety.NeverRaisesIff` says which starts never raise, and `UpdateSafety.HasRaisedIff` which
  runs of the others have: every run whose transaction is open or, when all that is wrong is an unbootable
  fallback of priority zero, every run that is armed or settled. `UpdateSafety.UnbootableFallbackRaises` is a
  pair that opens and then cannot fall back.
- While a candidate is being written the slot selector's rule picks the fallback exactly if that slot has a
  priority and the trial slot started outranked (`UpdateSafety.SelectorFollowsPhase`);
  `UpdateSafety.HalfWrittenSlotSelected` is a conformant pair where it picks the half-written slot. A settled
  transaction always leaves an outranked trial slot; one abandoned on trial does not unless its tries are spent
  (`UpdateChain.SuccessorOutrankedIff`).
- Promoting an empty digest leaves an active slot whose document has none, and the next transaction raises
  (`UpdateChain.SuccessorSafeIff`, `UpdateChain.EmptyDigestStrands`); from slots that are safe once written out
  nothing else makes a chain raise (`UpdateChain.ChainNeverRaisesIff`).
- The following field descriptions in `schemas/ab-update/` are not what the code does in every run. In
  `UpdateTransaction.json`:
  - `attempts` is described as empty only while the payload is being written. It is empty as long as at most
    four events were allowed: also once the candidate is ready, armed before its first boot, on trial for the
    first time, and rolled back before the first verdict (`UpdatePromises.AttemptsEmptyIff`,
    `UpdatePromises.EmptyOnlyWhileWritingIff`, `UpdatePromises.FirstTrialIsUnlisted`).
  - `startedAt` is described as the moment the bootloader handed over. `boot_attempt` reads no clock; the time
    recorded is read by the event that ends the attempt (`UpdatePromises.StartIsReadAtTheEnd`).
  - `triesRemainingAfter` is described as what the boot left. A watchdog that falls back at once records 0
    (`UpdatePromises.TriesAfterBootIff`, `UpdatePromises.ImmediateFallback`).
  - `outcome` lists a single-attempt policy under rolled-back, which it describes as ending before the budget
    is spent. A failed attempt never rolls back; with a budget of one it is refused
    (`UpdatePromises.OutcomeIff`, `UpdatePromises.FailedAttemptsAreNotRolledBack`,
    `UpdatePromises.SingleAttemptIsRefused`), and aborting the last attempt rolls back with the budget spent
    (`UpdatePromises.LastAttemptAborted`). It describes refused as the budget spent, but a watchdog that falls
    back at once refuses with attempts to spare (`UpdatePromises.ImmediateFallback`).
    `UpdatePromises.OutcomeAndBudget` has the exact runs of both.
  - `rollbackReason` has six values, of which probe-failed and watchdog-expired are never given
    (`UpdatePromises.ReasonsGiven`); nor is write-failed ever the `result` of an attempt
    (`UpdateSafety.LogShapeRun`).
  - `preservedPayloadDigest` is described as matching the active slot after settlement. It does unless another
    payload was promoted (`UpdatePromises.PreservedMatchesActiveIff`, `UpdatePromises.PromotionLeavesPreserved`).
- And in `UpdateSlot.json`:
  - `payloadDigest` is described as the digest of the payload installed. The trial slot's is recorded by `begin`,
    with the reference and version, before anything is written, and stays after a failed or mismatching write
    (`UpdatePromises.RecordedDigestIsObservedIff`, `UpdatePromises.MismatchKeepsDigest`).
  - `state` describes written as not yet booted; it is also the state between two attempts
    (`UpdatePromises.WrittenIsUnbootedIff`, `UpdatePromises.RetriedSlotIsWritten`). It describes unbootable as
    never chosen again; the slot is, once the next transaction arms it (`UpdatePromises.UnbootableUntilArmed`).
  - `lastProbeVerdict` is described as the verdict of the most recent probe run. It says fail where none was run
    exactly when, for the payload begun, a watchdog expired, no probe failed and the events do not promote
    (`UpdatePromises.VerdictIsLastProbeIff`, `UpdatePromises.ImmediateFallback`). A begin clears the verdict on
    the payload before it.
- `SlotState` is documented to mirror an UpdateSlot document field for field and to round-trip through one. It
  has no `installedAt` and no `lastBootedAt`, so both are lost in reading, and empty strings are lost in writing
  (`Slots.DocumentRoundTripIff`, `Slots.RecordRoundTripIff`).
- `apply_transition` documents a missing current state as the initial mint to draft; it is always refused
  (`Lifecycle.MintIsRefused`).
- `TransitionRequest` documents any non-null `approval_ref` as granting approval; an empty one does not
  (`Lifecycle.NonNullApprovalIff`, `Lifecycle.EmptyApprovalIsRefused`).

## Model

| member | source | states |
|---|---|---|
| UpdateSafety.FallbackPreserved | src/sourceos_boot/ab_update_machine.py:14-16 | In every state any events lead to, the fallback slot differs from what it was at construction at most in role, priority and running flag; it loses the active role only by promotion and never a non-zero priority |
| UpdateSafety.InvariantsMean | src/sourceos_boot/ab_update_machine.py:304-347 | Passing the checks means that the preserved payload can be fallen back to, one slot runs and one is active, no active slot is being written, no unbootable slot is bootable, and on trial the fallback is bootable and a bootable candidate is the one selected; and nothing else is checked |
| UpdateSafety.NeverRaisesIff | src/sourceos_boot/ab_update_machine.py:304-347 | No sequence of events, legal or not, ever raises an InvariantViolation if and only if the start is safe |
| UpdateSafety.UnsafeRaises | src/sourceos_boot/ab_update_machine.py:256-271 | Every start that the constructor accepts and that is not safe has a run of at most two events that raises |
| UpdateSafety.HasRaisedIff | src/sourceos_boot/ab_update_machine.py:304-347 | The exact runs in which some event has raised, for every accepted start: none from a safe one; from the others, those that opened the transaction or, for an unbootable fallback of priority zero and nothing else wrong, those that armed or settled it |
| UpdateSafety.UnbootableFallbackRaises | src/sourceos_boot/ab_update_machine.py:632-637 | A concrete accepted pair whose begin succeeds and whose failed write raises |
| UpdateSafety.OnlyAPassCertifies | schemas/ab-update/UpdateSlot.json:124-127 | In any state at all, only a passing probe marks the candidate successful; beginning, arming and giving it up clear the mark, and no event touches the fallback's |
| UpdateRuns.ShapeRun | src/sourceos_boot/ab_update_machine.py:394-645 | In every reachable state the times, the preserved digest, whether there is a reason, and every field of both slot records are those the phase and the attempts dictate; the payload digest, reference and version loaded into the trial slot are left to AllowedTracesAreLegal |
| UpdateRuns.CountsRun | src/sourceos_boot/ab_update_machine.py:482-513 | Budget conservation: attempts logged, the one in progress and tries left add up to max_attempts in armed and in trying |
| UpdateRuns.AllowedTracesAreLegal | src/sourceos_boot/ab_update_machine.py:175-198 | Whatever is offered, the allowed events form a legal trace, and it alone decides the phase, the rollback reason, the digest, reference and version loaded into the trial slot, and the complete attempt log |
| UpdateRuns.LegalTracesAreAllowed | src/sourceos_boot/ab_update_machine.py:350-388 | Conversely every legal trace within the budget is allowed event by event, so the language of the machine is exact |
| UpdateRuns.RefusedEventsVanish | src/sourceos_boot/ab_update_machine.py:368-388 | A run ends in the very state, clock included, that its allowed events alone lead to |
| UpdateRuns.TracesAreBounded | src/sourceos_boot/ab_update_machine.py:186-191 | At most 3 + 2 * max_attempts events are ever allowed, and reaching the bound is terminal |
| UpdateRuns.BoundIsReached | src/sourceos_boot/ab_update_machine.py:186-191 | For every budget and every start a run is allowed that many events: one whose attempts all fail, ending refused |
| UpdateRuns.TerminalAbsorbs | src/sourceos_boot/ab_update_machine.py:377-384 | A terminal machine allows nothing and changes nothing, for any further events |
| UpdateSafety.SelectorFollowsPhase | schemas/ab-update/UpdateSlot.json:112-117 | Which slot the selector's rule picks, in every phase of every run: before begin, the fallback exactly when it is selectable and the trial slot is not or ranks lower; during the write, exactly when it was selectable at all and the trial slot started outranked; armed or promoted, the trial slot; during a trial boot, the candidate exactly while tries remain; given up, the fallback |
| UpdateSafety.HalfWrittenSlotSelected | schemas/ab-update/UpdateSlot.json:112-117 | A concrete conformant pair for which the selector picks the slot still being written |
| UpdateSafety.LogShapeRun | src/sourceos_boot/ab_update_machine.py:610-621 | Every log is numbered from 1 without gaps; a pass stands last and exactly in promoted, an abort last and only in rolled_back; each entry's tries and fallback are right |
| UpdateSafety.BudgetIsSpentInOrder | src/sourceos_boot/ab_update_machine.py:504-507 | Recorded tries strictly decrease, the log never exceeds the budget, and the boot handler's own refusal is unreachable |
| UpdateSafety.PromotedIff | src/sourceos_boot/ab_update_machine.py:184-185 | A run ends promoted if and only if its allowed events are begin(d), write_complete(d), arm, failed attempts with tries to spare, a boot and a pass, within the budget |
| UpdateSafety.PromotionResult | src/sourceos_boot/ab_update_machine.py:520-543 | After that trace the trial slot holds d as the running, active, good slot, and the replaced slot keeps its payload and stays bootable |
| UpdateSafety.TransactionDocumentConforms | schemas/ab-update/UpdateTransaction.json:24-125 | The transaction document can be rendered exactly once an event was allowed, and then meets every conditional clause and numeric range, and the attempt rules on contiguous numbering within the budget, a pass only once and last, and the slot each failure fell back to; the descriptions it does not meet are those of the UpdatePromises rows |
| UpdateSafety.TransactionDocumentTells | src/sourceos_boot/ab_update_machine.py:648-677 | Its slots, digests, outcome, reason, opening and settling times and settled slot are those of the start and of the allowed events, and it has one entry for each attempt logged, equal to it field by field but for an empty detail |
| UpdateSafety.SettledSlotIsActive | schemas/ab-update/UpdateTransaction.json:243-247 | At settlement the slot settled on is the active and running one, and the other slot is neither |
| UpdateSafety.SlotDocumentsTell | src/sourceos_boot/ab_update_machine.py:679-706 | In every reachable state the documents are that of A and then that of B, each with the target and every field of its slot's record, empty strings left out |
| UpdateSafety.SlotDocumentsConform | schemas/ab-update/UpdateSlot.json:21-77 | From a conformant start both slot documents meet the contract in every reachable state and one slot runs, if and only if no empty digest was promoted |
| UpdatePromises.AttemptsEmptyIff | schemas/ab-update/UpdateTransaction.json:199-202 | The attempt list is empty exactly while no boot has been followed by an allowed event, that is, while at most four events were allowed |
| UpdatePromises.EmptyOnlyWhileWritingIff | schemas/ab-update/UpdateTransaction.json:199-202 | The document is empty of attempts only while writing exactly after one allowed event and from the fifth on; in between the phases are those listed |
| UpdatePromises.FirstTrialIsUnlisted | schemas/ab-update/UpdateTransaction.json:199-202 | From every start a run that is on trial and whose document lists no attempt |
| UpdatePromises.StartIsReadAtTheEnd | src/sourceos_boot/ab_update_machine.py:610-621 | For each entry of each run: the boot of that attempt reads no clock, and the start recorded is the first reading of the event that ended it |
| UpdatePromises.TriesAfterBootIff | schemas/ab-update/UpdateTransaction.json:229-234 | Each entry records the tries its boot left exactly unless a watchdog fell back at once with tries to spare |
| UpdatePromises.OutcomeIff | schemas/ab-update/UpdateTransaction.json:181-185 | A run is rolled back exactly when its last allowed event is a failed or mismatching write or an abort, and refused exactly when it failed the last attempt of the budget or was a watchdog that falls back at once |
| UpdatePromises.FailedAttemptsAreNotRolledBack | schemas/ab-update/UpdateTransaction.json:181-185 | A run ending in a failed attempt is never rolled back, and with a budget of one is refused as attempts-exhausted |
| UpdatePromises.SingleAttemptIsRefused | schemas/ab-update/UpdateTransaction.json:181-185 | From every start with a budget of one, a run whose document is refused after a failed probe |
| UpdatePromises.ImmediateFallback | src/sourceos_boot/ab_update_machine.py:548-561 | From every start with more budget, a run refused after one attempt, with tries recorded as 0 that the boot had left and a fail verdict without a probe |
| UpdatePromises.OutcomeAndBudget | schemas/ab-update/UpdateTransaction.json:181-185 | A rolled-back run has attempts to spare exactly unless it aborted the last attempt of the longest possible trace, and a refused one has none exactly unless a watchdog fell back at once before that length |
| UpdatePromises.LastAttemptAborted | schemas/ab-update/UpdateTransaction.json:181-185 | From every start, whatever the budget, a run that is rolled back with every attempt made |
| UpdatePromises.ReasonsGiven | schemas/ab-update/UpdateTransaction.json:186-198 | Each of four reasons is given exactly for its kind of last event, and probe-failed and watchdog-expired never |
| UpdatePromises.PreservedMatchesActiveIff | schemas/ab-update/UpdateTransaction.json:155-159 | Once settled, the preserved digest is still the fallback's, and is the active slot's exactly unless the allowed events are a promotion trace of another digest |
| UpdatePromises.PromotionLeavesPreserved | schemas/ab-update/UpdateTransaction.json:155-159 | From every safe start a promotion after which the active slot does not hold the preserved digest |
| UpdatePromises.WrittenIsUnbootedIff | schemas/ab-update/UpdateSlot.json:107-111 | The written slot has not been booted exactly unless the last allowed event failed an attempt with attempts to spare |
| UpdatePromises.RetriedSlotIsWritten | schemas/ab-update/UpdateSlot.json:107-111 | From every start with more than one attempt, a run whose slot is written after a boot |
| UpdatePromises.RecordedDigestIsObservedIff | schemas/ab-update/UpdateSlot.json:132-136 | The digest the trial slot carries is the one found in it when the write ended exactly after a matching write; told by the allowed events and by the phase |
| UpdatePromises.MismatchKeepsDigest | src/sourceos_boot/ab_update_machine.py:426-448 | From every start a run rolled back for a mismatch whose trial slot still carries the digest of the payload it does not hold |
| UpdatePromises.UnbootableUntilArmed | schemas/ab-update/UpdateSlot.json:107-111 | Over a whole run, a slot left unbootable with priority 0 becomes selectable exactly when an arm is allowed |
| UpdatePromises.VerdictFollowsLog | src/sourceos_boot/ab_update_machine.py:577-595 | The verdict is pass exactly in promoted, and fail exactly when some attempt failed, by probe or by watchdog |
| UpdatePromises.VerdictOfLog | schemas/ab-update/UpdateSlot.json:157-161 | The field is the verdict of the last probe in the log exactly in promoted, or without a watchdog entry, or with a failed-probe entry |
| UpdatePromises.VerdictIsLastProbeIff | schemas/ab-update/UpdateSlot.json:157-161 | The same told by the allowed events: exactly unless a watchdog expired, no probe failed, and they are not a promotion trace |
| UpdateTable.NextIsTable | src/sourceos_boot/ab_update_machine.py:175-198 | In any state an event moves to a phase exactly when a table row for it leads there with its guard holding, a boot without tries apart |
| UpdateTable.ReachableRefusal | src/sourceos_boot/ab_update_machine.py:350-366 | In reachable states the guards of one key are exclusive and exhaustive, and an event is refused exactly when the table has no row for it |
| UpdateTable.ScanFindsRow | src/sourceos_boot/ab_update_machine.py:361-366 | The indexed scan with guards finds the one row that fires, or nothing |
| UpdateTable.AnswersAreTrue | src/sourceos_boot/ab_update_machine.py:206-221 | In every reachable state an event is answered unless it raises, with its true phases, and names a slot fallen back to exactly when the transaction was given up or an attempt failed; that slot is then active and running; from a safe start every event is answered |
| Slots.RecordRoundTripIff | src/sourceos_boot/ab_update_machine.py:102-106 | A record survives being written to a document and read back exactly unless one of its strings is empty |
| Slots.DocumentRoundTripIff | src/sourceos_boot/ab_update_machine.py:747-761 | A document survives being read and written again exactly unless it has an empty string or an installation or boot time |
| UpdateSpec.AcceptedIsConstructed | src/sourceos_boot/ab_update_machine.py:256-271 | The constructor's ordered checks accept exactly the labelled pairs with one active, successful slot and a budget in 1..7 |
| UpdateSpec.RejectionIsFirst | src/sourceos_boot/ab_update_machine.py:256-271 | Each constructor error is raised exactly when its check is the first to fail |
| UpdateSpec.ReopenIff | src/sourceos_boot/ab_update_machine.py:764-788 | Which two documents open a machine and in which state, whichever comes first; and otherwise exactly which check they fail |
| Slots.DocumentRead | src/sourceos_boot/ab_update_machine.py:747-761 | A record read from a document holds its every field |
| UpdateChain.ReopenRoundTrip | src/sourceos_boot/ab_update_machine.py:679-706 | From any reachable state the slot documents open a machine again, with the same records less their empty strings, and it renders the same documents |
| UpdateChain.SuccessorSafeIff | src/sourceos_boot/ab_update_machine.py:764-788 | From any slots that are safe once written out, the machine opened next never raises if and only if no empty digest was promoted; from conformant slots it is then a conformant start, and only then |
| UpdateChain.EmptyDigestStrands | src/sourceos_boot/ab_update_machine.py:697-698 | A concrete run that promotes an empty digest and whose successor raises on begin |
| UpdateChain.SuccessorOutrankedIff | src/sourceos_boot/ab_update_machine.py:632-637 | Exactly when the next write target is outranked: after every settled transaction, and after an unsettled one only as listed |
| UpdateChain.ChainOpens | src/sourceos_boot/ab_update_machine.py:764-788 | Over any chain at all with budgets in 1..7, opening the next machine never fails |
| UpdateChain.ChainProvenance | src/sourceos_boot/ab_update_machine.py:764-788 | From any accepted start, over any number of transactions, settled or abandoned, opening never fails and the active slot's document carries the digest of the last complete promotion trace, or the original one |
| UpdateChain.ChainStands | schemas/ab-update/UpdateSlot.json:21-77 | From a conformant start, as long as no empty digest is promoted, both slots conform after every transaction and the active record holds that digest |
| UpdateChain.ChainNeverRaisesIff | src/sourceos_boot/ab_update_machine.py:94-97 | From any accepted start, no machine opened along a chain, or after it, can ever raise if and only if the starting slots are safe once written out and no transaction of the chain promotes an empty digest |
| UpdateChain.NamedDigestsNeverStrand | src/sourceos_boot/ab_update_machine.py:394-424 | A chain in which no begin, legal or not, carries an empty digest promotes none |
| UpdateChain.PreservedIsSettled | schemas/ab-update/UpdateTransaction.json:155-159 | From any accepted start, each transaction preserves the digest of the slot the one before it settled on, and falls back to that slot |
| UpdateChain.SettledChainSelects | schemas/ab-update/UpdateSlot.json:112-117 | From any accepted start, after any chain whose last transaction was settled, and before the first one if the fallback is selectable and the trial slot outranked, the selector has exactly one choice at every moment of the next transaction, and it is the trial slot exactly in armed, in promoted, and on trial with tries left |
| AbUpdateMachines.AbUpdateMachine.constructor | src/sourceos_boot/ab_update_machine.py:228-271 | An accepted pair gives a machine in the opened idle state |
| AbUpdateMachines.AbUpdateMachine.AssertInvariants | src/sourceos_boot/ab_update_machine.py:304-347 | The check loop passes exactly when the invariants hold of the state |
| AbUpdateMachines.AbUpdateMachine.Resolve | src/sourceos_boot/ab_update_machine.py:361-366 | The loop over the indexed bucket returns the table row that fires, or nothing |
| AbUpdateMachines.AbUpdateMachine.Offer | src/sourceos_boot/ab_update_machine.py:377-388 | Admission finds a rule exactly when the event is allowed, leading where it leads; a terminal phase finds none |
| AbUpdateMachines.AbUpdateMachine.Begin | src/sourceos_boot/ab_update_machine.py:394-424 | Refines Step and AnswerTo for begin in every valid state |
| AbUpdateMachines.AbUpdateMachine.WriteComplete | src/sourceos_boot/ab_update_machine.py:426-448 | Refines Step and AnswerTo for write_complete, both outcomes |
| AbUpdateMachines.AbUpdateMachine.WriteFailed | src/sourceos_boot/ab_update_machine.py:450-459 | Refines Step and AnswerTo for write_failed |
| AbUpdateMachines.AbUpdateMachine.Arm | src/sourceos_boot/ab_update_machine.py:461-491 | Refines Step and AnswerTo for arm |
| AbUpdateMachines.AbUpdateMachine.BootAttempt | src/sourceos_boot/ab_update_machine.py:493-518 | Refines Step and AnswerTo for boot_attempt, its own refusal included |
| AbUpdateMachines.AbUpdateMachine.ProbePass | src/sourceos_boot/ab_update_machine.py:520-543 | Refines Step and AnswerTo for probe_pass through the intermediate states of the role swap |
| AbUpdateMachines.AbUpdateMachine.ProbeFail | src/sourceos_boot/ab_update_machine.py:545-546 | Refines Step and AnswerTo for probe_fail |
| AbUpdateMachines.AbUpdateMachine.WatchdogExpired | src/sourceos_boot/ab_update_machine.py:548-561 | Refines Step and AnswerTo for watchdog_expired, with the tries zeroed before admission only on trial |
| AbUpdateMachines.AbUpdateMachine.OperatorAbort | src/sourceos_boot/ab_update_machine.py:563-574 | Refines Step and AnswerTo for operator_abort |
| AbUpdateMachines.AbUpdateMachine.FailAttempt | src/sourceos_boot/ab_update_machine.py:577-608 | The shared failure path, retry and exhaustion |
| AbUpdateMachines.AbUpdateMachine.RecordAttempt | src/sourceos_boot/ab_update_machine.py:610-621 | Appends the one entry for the attempt in progress |
| AbUpdateMachines.AbUpdateMachine.MarkCandidateUnbootable | src/sourceos_boot/ab_update_machine.py:623-637 | Gives the candidate up and puts the target back on the fallback |
| AbUpdateMachines.AbUpdateMachine.Settle | src/sourceos_boot/ab_update_machine.py:639-645 | Records the terminal phase, reason and time, reading the clock once, and then raises exactly when the checks fail |
| AbUpdateMachines.AbUpdateMachine.ToTransactionDocument | src/sourceos_boot/ab_update_machine.py:648-677 | Renders the transaction document of the state, or nothing when idle |
| AbUpdateMachines.AbUpdateMachine.ToSlotDocuments | src/sourceos_boot/ab_update_machine.py:679-706 | Renders the documents of slots A and B in order |
| AbUpdateMachines.AbUpdateMachine.FromSlotDocuments | src/sourceos_boot/ab_update_machine.py:764-788 | Opens a machine on two documents or reports the first check they fail |
| Replay.Replay | src/sourceos_boot/cli.py:183-212 | The replay loop over a machine computes the fold of the events with its log, documents and errors, as ReplayTells and ReplayFails tell them |
| Replay.Drill | src/sourceos_boot/cli.py:106-139 | Indexing the table, opening the machine and replaying compose to the same |
| Replay.RecordedEventsDecode | src/sourceos_boot/cli.py:86-103 | Round trip: every event of the machine has a recording that the event table reads back as that event |
| Replay.DecodedByName | src/sourceos_boot/cli.py:86-103 | Whatever is read is the event the recording names, and is reported under that name |
| Replay.UnknownIff | src/sourceos_boot/cli.py:190-193 | An event is unknown exactly when it names none of the nine |
| Replay.DecodedDigests | src/sourceos_boot/cli.py:87-92 | A begin reads the payload digest; a write reads the observed digest unless it is absent or empty, then the payload's; without either it is an error |
| Replay.DecodedDefaults | src/sourceos_boot/cli.py:93-102 | The text each event is read with when it records none; a watchdog falls back at once exactly for reboot-to-fallback, reboots for reboot or nothing, and any other action is an error |
| Replay.PlayIsRun | src/sourceos_boot/cli.py:188-194 | From any start the fold is the run, and it stops exactly at an event that cannot be read or that raises |
| Replay.PlayReports | src/sourceos_boot/cli.py:194-203 | Every event, refused ones too, is reported in its place with the answer it got |
| Replay.PlayStopsIff | src/sourceos_boot/cli.py:188-194 | The fold stops at a bad event exactly when that event cannot be read and every one before it could and did not raise |
| Replay.PlayViolatesIff | src/sourceos_boot/cli.py:194 | It stops with a violation exactly when some event raised while all up to it could be read |
| Replay.ReplayTells | src/sourceos_boot/cli.py:205-213 | Whenever the command yields output, its phase is that of the run, its answers are those of the events in their places, its transaction is the run's document, and its slots are the A and B records the run left, rendered with the target |
| Replay.ReplayFails | src/sourceos_boot/cli.py:188-213 | Which error it ends with otherwise: the first bad event with its place, or a violation by an event or for want of a begin |
| Replay.ReplaySucceedsIff | src/sourceos_boot/cli.py:205-213 | The command yields documents if and only if every event can be read, one begins a transaction, and the checks hold to the end, as they always do from a safe start; the transaction document then conforms |
| Replay.RefusedEventsAreInert | src/sourceos_boot/cli.py:176-181 | Replaying only the allowed events gives the same final phase, transaction and slot documents |
| RuleIndex.Build | src/sourceos_boot/ab_update_machine.py:200-203 | For any table the loop files every rule under its key, in table order |
| RuleIndex.BucketScan | src/sourceos_boot/ab_update_machine.py:361-366 | For any table, scanning a bucket answers what scanning the whole table answers |
| RuleIndex.FirstIsLeast | src/sourceos_boot/ab_update_machine.py:363-366 | The scan's answer is the first that holds, and nothing exactly when none does |
| RuleIndex.OnlyAtIsBucket | src/sourceos_boot/lifecycle_state_machine.py:183-187 | For any table, a key carried by one rule only has a bucket of that one rule |
| RuleIndex.BucketIsOnlyAt | src/sourceos_boot/lifecycle_state_machine.py:183-187 | For any table, a bucket of one rule means that rule alone carries the key |
| Lifecycle.Lookup | src/sourceos_boot/lifecycle_state_machine.py:176-191 | The indexed lookup computes Found |
| Lifecycle.PickIsScan | src/sourceos_boot/lifecycle_state_machine.py:176-191 | For any table, lookup without a target answers exactly the unique rule for the key, and with one exactly what a scan of the table answers |
| Lifecycle.FoundIsEdge | src/sourceos_boot/lifecycle_state_machine.py:117-168 | Over the shipped table lookup finds a rule exactly when the edge is legal and settled, and then that edge with the approval and proofs of its name |
| Lifecycle.AllowedIff | src/sourceos_boot/lifecycle_state_machine.py:276-302 | A transition is allowed if and only if the capability is not bottom, the approval its name needs is named by a non-empty reference, every proof its name needs is present, and its edge is legal and settled |
| Lifecycle.RefusalsAreOrdered | src/sourceos_boot/lifecycle_state_machine.py:288-292 | Each refusal reason occurs exactly when its gate is the first to fail, approval when it is needed and the reference is absent or empty; a refused record leads to blocked |
| Lifecycle.RecordTells | src/sourceos_boot/lifecycle_state_machine.py:307-426 | Every other field of a record: its origin, the proofs brought, and the proofs, approval and reference as far as the gates were reached; a record refused for evidence lists what is missing |
| Lifecycle.MissingOneByOne | src/sourceos_boot/lifecycle_state_machine.py:237 | The missing proofs keep the order in which they are required: the list is made one required proof after the other |
| Lifecycle.SideEffectsIff | src/sourceos_boot/lifecycle_state_machine.py:404-411 | Side effects are declared exactly on an allowed execute or rollback: a host mutation writing to disk, no network fetch, and a reboot only on execute |
| Lifecycle.MintIsRefused | src/sourceos_boot/lifecycle_state_machine.py:284-286 | With no current state nothing is allowed: the record leads to blocked and gives bottom capability, or else illegality, as its reason |
| Lifecycle.NonNullApprovalIff | src/sourceos_boot/lifecycle_state_machine.py:202 | With every other gate passed a non-null approval reference admits the transition exactly unless it is empty and approval is needed |
| Lifecycle.EmptyApprovalIsRefused | src/sourceos_boot/lifecycle_state_machine.py:357 | A concrete signing request with every proof and an empty approval reference, refused for want of approval |
| LifecycleRuns.RunsKeepToTheRoad | src/sourceos_boot/lifecycle_state_machine.py:117-168 | In every run from draft the allowed steps follow the one road, each with its gates met, and tell the state reached |
| LifecycleRuns.TheRoadIsOpen | src/sourceos_boot/lifecycle_state_machine.py:117-168 | Conversely every such sequence of steps is allowed |
| LifecycleRuns.HistoryOfExecuted | src/sourceos_boot/lifecycle_state_machine.py:113-168 | A run is at or beyond executed if and only if eight steps were taken, and they are resolve-bom, build, sign, assign, plan, fetch, load-only, execute in order with every proof; sign, assign, execute and any rollback each named a non-empty approval; rolled-back means a rollback later |
| LifecycleRuns.RunsAreBounded | src/sourceos_boot/lifecycle_state_machine.py:272-273 | A run takes at most twelve state-changing steps, declares exactly one host mutation per execute and rollback, at most two, and never enters blocked |
| LifecycleRuns.BoundsAreReached | src/sourceos_boot/lifecycle_state_machine.py:117-168 | A concrete run of twelve steps that ends rolled back with two host mutations |
| LifecycleRuns.MoreEvidenceKeepsAllowed | src/sourceos_boot/lifecycle_state_machine.py:356-380 | Adding proofs or an approval to an allowed request keeps it allowed with the same target |
| SchemaCheck.AcceptsIff | src/sourceos_boot/validate_trust_chain_boot_verification.py:58-92 | The checker accepts a value if and only if it is locally valid at every position reachable through properties, additionalProperties and items |
| SchemaCheck.RejectionIsFounded | src/sourceos_boot/validate_trust_chain_boot_verification.py:58-92 | A rejection names a reachable position and the first check that fails there |
| SchemaCheck.RejectionIsFirst | src/sourceos_boot/validate_trust_chain_boot_verification.py:58-92 | The rejection reported is the first in document order: everything met before it on the walk is valid, and an accepted value is valid along its whole walk |
| SchemaCheck.ObjectEqualityIff | src/sourceos_boot/validate_trust_chain_boot_verification.py:59-62 | The equality const and enum use holds of two objects exactly when they have the same keys, in any order, with equal values |
| SchemaCheck.EqualityIff | src/sourceos_boot/validate_trust_chain_boot_verification.py:59-62 | Of other values it holds exactly of the same scalar, or of arrays of one length with equal items; never of an array and an object |
| SchemaCheck.EqualIffIndistinguishable | src/sourceos_boot/validate_trust_chain_boot_verification.py:59-62 | For values with distinct keys it holds exactly when following any path in both finds the same scalar, length or key set, or nothing in either |
| SchemaCheck.TypeMatchesIff | src/sourceos_boot/validate_trust_chain_boot_verification.py:33-55 | A type keyword matches exactly the values section 6.1.1 of JSON Schema Validation gives that type, integers being numbers too |
| SchemaCheck.LocalFlawIff | src/sourceos_boot/validate_trust_chain_boot_verification.py:59-79 | The ordered local checks find no flaw exactly when const, enum, type, required and the closed-object rule all hold |
| SchemaCheck.LocalFlawIsFirst | src/sourceos_boot/validate_trust_chain_boot_verification.py:59-79 | Which flaw is reported: each of const, enum and type exactly when it is the first to fail, then the first absent required key, then exactly the keys a closed object does not name |
| SchemaCheck.FirstMissingIsMissing | src/sourceos_boot/validate_trust_chain_boot_verification.py:71-74 | The required loop reports a key exactly when one is absent, and then the first absent one |

## Left out

- Argument parsing, file reading, JSON text, printing and exit codes of the command line; the pinned health probe and its digest check before a replay.
- SHA-256, canonical JSON, `probe_definition_digest`, and the URN and digest patterns of the schemas: digests are strings compared for equality.
- Explanatory text (`reason`), document `id`, `type` and `specVersion` constants, and the `_local` sanitiser.
- Slot dictionaries with keys other than A and B, and out-of-set roles, states and labels: the record types have no such values, so the errors raised for them are not modelled.
- Which of several failed checks an InvariantViolation names: the model records that one is raised.
- Changing a machine's `slots` from outside, and calling its private methods: runs consist of the nine public events.
- `lastProbeVerdict` strings outside the contract's set, and the difference between an absent and a null document field.
- Replay.Replay: does not tell a null field of a recorded event from an absent one, because digests and details are strings here as they are annotated in the source. The source passes a null `payloadDigest` on to `begin` and compares it with a null digest of `write_complete`, where `Decode` reports an error; it passes a null `detail` on where `Decode` puts the default text, and refuses a null `expiryAction` where `Decode` takes the default.
- The transaction document's `healthProbeRef` and `healthProbeDigest`, which are copied through, and its `receiptRef`, which the source never writes.
- JSON equality between numbers of different type (`1`, `1.0`, `true`), floats with integral value as integers, and schema keywords the checker ignores (`pattern`, `minLength`, `minItems`).
- Record identifiers, capture times, subject and object references and policy fields of lifecycle records, which are copied through.
- `validate_verified`, `validate_blocked`, `control_plane.py`, `validate_boot_release_set.py`, `adapter.py`: straight-line field checks and record copying.
- `asahi_boot_chain.py`, `rollback_executor.py` and `tools/validate_manifest_declarations.py`: file-system and subprocess work around small selections.

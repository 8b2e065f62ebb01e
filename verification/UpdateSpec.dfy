/** What each event does to an update transaction, as a function on values.

    The state is label-free: `fallback` is the slot that is active when the transaction
    opens, `trial` is the other one. The transition table is not mentioned here. */
module UpdateSpec {
  import opened Options
  import opened Slots

  const ARMED_CANDIDATE_PRIORITY := 15
  const ARMED_ACTIVE_PRIORITY := 14

  datatype Phase = Idle | Writing | CandidateReady | Armed | Trying | Promoted | RolledBack | Refused

  predicate Terminal(p: Phase) {
    p.Promoted? || p.RolledBack? || p.Refused?
  }

  /** The closed set of reasons; `probe-failed` and `watchdog-expired` are in it but never used. */
  datatype Reason =
    ForProbeFailed | ForWatchdogExpired | ForAttemptsExhausted | ForWriteFailed | ForDigestMismatch | ForOperatorAbort

  datatype AttemptResult = Passed | FailedProbe | FailedWatchdog | FailedWrite | Aborted

  /** One trial boot. Timestamps are numbered reads of the clock. */
  datatype Attempt = Attempt(
    attemptNumber: int,
    startedAt: nat,
    result: AttemptResult,
    fellBackTo: Option<Label>,
    triesRemainingAfter: int,
    detail: Option<string>)

  datatype ExpiryAction = Reboot | RebootToFallback

  datatype Event =
    | Begin(payloadDigest: string, payloadRef: Option<string>, version: Option<string>)
    | WriteComplete(observedDigest: string)
    | WriteFailed(why: string)
    | Arm
    | BootAttempt
    | ProbePass(note: Option<string>)
    | ProbeFail(why: string)
    | WatchdogExpired(why: string, action: ExpiryAction)
    | OperatorAbort(why: string)

  datatype Txn = Txn(
    fallback: SlotState,
    trial: SlotState,
    maxAttempts: int,
    phase: Phase,
    preserved: string,
    candidate: string,
    attempts: seq<Attempt>,
    rollbackReason: Option<Reason>,
    openedAt: Option<nat>,
    settledAt: Option<nat>,
    now: nat)

  /** A machine as constructed, before any event. */
  function Fresh(fallback: SlotState, trial: SlotState, maxAttempts: int, now: nat): Txn {
    Txn(fallback, trial, maxAttempts, Idle, "", "", [], None, None, None, now)
  }

  /** What the constructor accepts, and no more. */
  predicate Constructed(o: Txn) {
    && o == Fresh(o.fallback, o.trial, o.maxAttempts, o.now)
    && o.trial.slot == Other(o.fallback.slot)
    && o.fallback.role.Active? && o.trial.role.Candidate?
    && o.fallback.successful
    && 1 <= o.maxAttempts <= 7
  }

  // ── one event ─────────────────────────────────────────────────────────────────

  /** Where a failed attempt leads: back to armed, to refusal, or (with a negative
      count, which no reachable state has) nowhere. */
  function AfterFailure(tries: int): Option<Phase> {
    if tries > 0 then Some(Armed) else if tries == 0 then Some(Refused) else None
  }

  /** The phase an event leads to, or None when it is refused. */
  function Next(s: Txn, e: Event): Option<Phase> {
    match (s.phase, e)
    case (Idle, Begin(_, _, _)) => Some(Phase.Writing)
    case (Writing, WriteComplete(d)) => Some(if d == s.candidate then CandidateReady else RolledBack)
    case (Writing, WriteFailed(_)) => Some(RolledBack)
    case (CandidateReady, Arm) => Some(Armed)
    case (Armed, BootAttempt) => if s.trial.triesRemaining > 0 then Some(Phase.Trying) else None
    case (Trying, ProbePass(_)) => Some(Promoted)
    case (Trying, ProbeFail(_)) => AfterFailure(s.trial.triesRemaining)
    case (Trying, WatchdogExpired(_, a)) =>
      if a.RebootToFallback? then Some(Refused) else AfterFailure(s.trial.triesRemaining)
    case (_, OperatorAbort(_)) => if s.phase.Idle? || Terminal(s.phase) then None else Some(RolledBack)
    case _ => None
  }

  predicate Admits(s: Txn, e: Event) {
    Next(s, e).Some?
  }

  /** The record of the attempt in progress. */
  function AttemptOf(s: Txn, result: AttemptResult, triesAfter: int, detail: Option<string>): Attempt {
    Attempt(|s.attempts| + 1, s.now, result,
            if result.Passed? then None else Some(s.fallback.slot), triesAfter, detail)
  }

  function Logged(s: Txn, a: Attempt): Txn {
    s.(attempts := s.attempts + [a], now := s.now + 1)
  }

  function Settled(s: Txn, p: Phase, reason: Option<Reason>): Txn {
    s.(phase := p, rollbackReason := reason, settledAt := Some(s.now), now := s.now + 1)
  }

  /** The candidate is given up for good and the target is back on the fallback. */
  function GivenUp(s: Txn): Txn {
    s.(fallback := s.fallback.(bootPriority := ARMED_CANDIDATE_PRIORITY, currentlyRunning := true),
       trial := s.trial.(state := Unbootable, bootPriority := 0, triesRemaining := 0, successful := false,
                         currentlyRunning := s.trial.currentlyRunning && s.fallback.currentlyRunning))
  }

  function Abandoned(s: Txn, p: Phase, reason: Reason): Txn {
    Settled(GivenUp(s), p, Some(reason))
  }

  /** A failed attempt: the fallback runs again, and either the candidate waits for its
      next attempt or it is given up. */
  function Failed(s: Txn, p: Phase, a: Attempt): Txn {
    var l := Logged(s, a).(
      fallback := s.fallback.(currentlyRunning := true),
      trial := s.trial.(currentlyRunning := false, state := Written, lastProbeVerdict := Some(Fail)));
    if p.Refused? then Abandoned(l, Refused, ForAttemptsExhausted) else l.(phase := p)
  }

  /** The state after offering `e`; a refused event changes nothing. */
  function Step(s: Txn, e: Event): Txn {
    if Next(s, e).None? then s else
    var p := Next(s, e).value;
    match e
    case Begin(d, ref, version) =>
      s.(phase := p, preserved := s.fallback.payloadDigest.GetOr(""), candidate := d,
         openedAt := Some(s.now), now := s.now + 1,
         trial := s.trial.(state := Condition.Writing, successful := false, payloadDigest := Some(d),
                           payloadRef := ref, version := version, lastProbeVerdict := None))
    case WriteComplete(_) =>
      if p.RolledBack? then Abandoned(s, p, ForDigestMismatch)
      else s.(phase := p, trial := s.trial.(state := Written))
    case WriteFailed(_) => Abandoned(s, p, ForWriteFailed)
    case Arm =>
      s.(phase := p, fallback := s.fallback.(bootPriority := ARMED_ACTIVE_PRIORITY),
         trial := s.trial.(bootPriority := ARMED_CANDIDATE_PRIORITY, triesRemaining := s.maxAttempts,
                           successful := false))
    case BootAttempt =>
      s.(phase := p, fallback := s.fallback.(currentlyRunning := false),
         trial := s.trial.(triesRemaining := s.trial.triesRemaining - 1, state := Condition.Trying,
                           currentlyRunning := true))
    case ProbePass(note) =>
      Settled(Logged(s, AttemptOf(s, Passed, s.trial.triesRemaining, note)).(
        fallback := s.fallback.(role := Candidate, bootPriority := 14),
        trial := s.trial.(role := Active, state := Good, successful := true, bootPriority := 15,
                          triesRemaining := 0, lastProbeVerdict := Some(Pass))), p, None)
    case ProbeFail(why) => Failed(s, p, AttemptOf(s, FailedProbe, s.trial.triesRemaining, Some(why)))
    case WatchdogExpired(why, action) =>
      var left := if action.RebootToFallback? then 0 else s.trial.triesRemaining;
      Failed(s.(trial := s.trial.(triesRemaining := left)), p, AttemptOf(s, FailedWatchdog, left, Some(why)))
    case OperatorAbort(why) =>
      Abandoned(if s.phase.Trying? then Logged(s, AttemptOf(s, Aborted, s.trial.triesRemaining, Some(why))) else s,
                p, ForOperatorAbort)
  }

  lemma StepPhase(s: Txn, e: Event)
    ensures Step(s, e).phase == Next(s, e).GetOr(s.phase)
  {
  }

  /** The checks the machine makes on itself once a transaction is open. */
  predicate Invariants(s: Txn) {
    && s.fallback.payloadDigest == Some(s.preserved)
    && s.fallback.successful
    && s.fallback.currentlyRunning != s.trial.currentlyRunning
    && s.fallback.role != s.trial.role
    && (s.fallback.state.Writing? ==> s.fallback.role.Candidate?)
    && (s.trial.state.Writing? ==> s.trial.role.Candidate?)
    && (s.fallback.state.Unbootable? ==> s.fallback.bootPriority == 0)
    && (s.trial.state.Unbootable? ==> s.trial.bootPriority == 0)
    && (s.phase.Armed? || s.phase.Trying? ==> s.trial.bootPriority > s.fallback.bootPriority >= 1)
  }

  /** Offering `e` ends in an InvariantViolation, with the new state already in place. */
  predicate Raises(s: Txn, e: Event) {
    Admits(s, e) && !Invariants(Step(s, e))
  }

  // ── runs ──────────────────────────────────────────────────────────────────────

  /** The state after offering `es` in order, whatever their legality. */
  function Run(o: Txn, es: seq<Event>): Txn {
    if es == [] then o else Step(Run(o, es[..|es| - 1]), es[|es| - 1])
  }

  /** The events of `es` that were allowed. */
  function Allowed(o: Txn, es: seq<Event>): seq<Event> {
    if es == [] then []
    else
      var init, e := es[..|es| - 1], es[|es| - 1];
      Allowed(o, init) + if Admits(Run(o, init), e) then [e] else []
  }

  // ── the transaction document ──────────────────────────────────────────────────

  datatype Outcome = PendingOutcome | PromotedOutcome | RolledBackOutcome | RefusedOutcome

  function OutcomeOf(p: Phase): Outcome {
    match p
    case Promoted => PromotedOutcome
    case RolledBack => RolledBackOutcome
    case Refused => RefusedOutcome
    case _ => PendingOutcome
  }

  datatype TransactionDocument = TransactionDocument(
    fromSlot: Label,
    toSlot: Label,
    preservedPayloadDigest: string,
    candidatePayloadDigest: string,
    maxAttempts: int,
    outcome: Outcome,
    rollbackReason: Option<Reason>,
    openedAt: Option<nat>,
    settledAt: Option<nat>,
    settledOnSlot: Option<Label>,
    attempts: seq<Attempt>)

  /** An attempt's `detail` is written out only when it is truthy. */
  function AttemptDocuments(attempts: seq<Attempt>): seq<Attempt> {
    seq(|attempts|, i requires 0 <= i < |attempts| => attempts[i].(detail := Truthy(attempts[i].detail)))
  }

  /** The record the target is left running once the transaction is terminal. */
  function SettledOn(s: Txn): SlotState {
    if s.phase.Promoted? then s.trial else s.fallback
  }

  /** Rendering an idle machine is an InvariantViolation: None. */
  function TransactionDocumentOf(s: Txn): Option<TransactionDocument> {
    if s.phase.Idle? then None
    else
      var settled := Terminal(s.phase);
      Some(TransactionDocument(
             s.fallback.slot, s.trial.slot, s.preserved, s.candidate, s.maxAttempts,
             OutcomeOf(s.phase), s.rollbackReason, s.openedAt,
             if settled then s.settledAt else None,
             if settled then Some(SettledOn(s).slot) else None,
             AttemptDocuments(s.attempts)))
  }

  /** The conditional clauses of the UpdateTransaction contract and its numeric ranges; of
      what its field descriptions ask of the attempt list, the contiguous numbering within the
      budget, the single final pass, and the slot each failure fell back to. When the list may
      be empty, `startedAt` and the tries left after the boot are not part of it. */
  ghost predicate TransactionConforms(d: TransactionDocument) {
    var failed := d.outcome.RolledBackOutcome? || d.outcome.RefusedOutcome?;
    && d.fromSlot != d.toSlot
    && d.openedAt.Some?
    && (failed ==> d.rollbackReason.Some? && d.settledAt.Some? && d.settledOnSlot == Some(d.fromSlot))
    && (d.outcome.RefusedOutcome? ==> d.rollbackReason == Some(ForAttemptsExhausted))
    && (d.outcome.PromotedOutcome? ==>
          d.rollbackReason == None && d.settledAt.Some? && d.settledOnSlot == Some(d.toSlot))
    && (d.outcome.PendingOutcome? ==> d.settledAt == None && d.settledOnSlot == None)
    && 1 <= d.maxAttempts <= 7
    && |d.attempts| <= d.maxAttempts
    && forall i :: 0 <= i < |d.attempts| ==> AttemptConforms(d, i)
  }

  ghost predicate AttemptConforms(d: TransactionDocument, i: int)
    requires 0 <= i < |d.attempts|
  {
    var a := d.attempts[i];
    && a.attemptNumber == i + 1
    && 0 <= a.triesRemainingAfter <= 7
    && (a.result.Passed? ==> i == |d.attempts| - 1 && d.outcome.PromotedOutcome?)
    && (d.outcome.PromotedOutcome? && i == |d.attempts| - 1 ==> a.result.Passed?)
    && a.fellBackTo == (if a.result.Passed? then None else Some(d.fromSlot))
    && a.detail != Some("")
  }

  // ── slot documents, and opening a machine on them ─────────────────────────────

  /** The documents of slots A and B, in that order. */
  function SlotDocumentsOf(targetRef: string, s: Txn): seq<SlotDocument> {
    var f, t := ToDocument(targetRef, s.fallback), ToDocument(targetRef, s.trial);
    if s.fallback.slot.A? then [f, t] else [t, f]
  }

  datatype OpenError =
    NotTwoDocuments | MixedTargets | NotTwoSlots | Mislabelled | NotOneActive | NothingKnownGood | BadMaxAttempts

  /** The first constructor check that fails, if any. */
  function Rejection(slots: map<Label, SlotState>, maxAttempts: int): Option<OpenError> {
    if slots.Keys != {A, B} then Some(NotTwoSlots)
    else if slots[A].slot != A || slots[B].slot != B then Some(Mislabelled)
    else if slots[A].role == slots[B].role then Some(NotOneActive)
    else if !(if slots[A].role.Active? then slots[A] else slots[B]).successful then Some(NothingKnownGood)
    else if maxAttempts < 1 || maxAttempts > 7 then Some(BadMaxAttempts)
    else None
  }

  function OpenedOn(slots: map<Label, SlotState>, maxAttempts: int, now: nat): Txn
    requires slots.Keys == {A, B}
  {
    if slots[A].role.Active? then Fresh(slots[A], slots[B], maxAttempts, now)
    else Fresh(slots[B], slots[A], maxAttempts, now)
  }

  /** What the constructor accepts is what `Constructed` says. */
  lemma AcceptedIsConstructed(slots: map<Label, SlotState>, maxAttempts: int, now: nat)
    ensures Rejection(slots, maxAttempts) == None <==>
            && slots.Keys == {A, B} && (forall l :: l in slots ==> slots[l].slot == l)
            && Constructed(OpenedOn(slots, maxAttempts, now))
  {
    if slots.Keys == {A, B} {
      assert A in slots && B in slots;
    }
  }

  /** Which check refuses a pair: the first that fails of two slots, their labels, one active
      role, a known-good active slot, and a budget in 1..7. */
  lemma RejectionIsFirst(slots: map<Label, SlotState>, maxAttempts: int)
    ensures var why := Rejection(slots, maxAttempts);
            if A !in slots || B !in slots then why == Some(NotTwoSlots)
            else
              var a, b := slots[A], slots[B];
              && (why == Some(Mislabelled) <==> a.slot.B? || b.slot.A?)
              && (a.slot.A? && b.slot.B? ==>
                    && (why == Some(NotOneActive) <==>
                        (a.role.Active? && b.role.Active?) || (a.role.Candidate? && b.role.Candidate?))
                    && (why == Some(NothingKnownGood) <==>
                        (a.role.Active? && b.role.Candidate? && !a.successful)
                        || (b.role.Active? && a.role.Candidate? && !b.successful))
                    && (why == Some(BadMaxAttempts) ==> maxAttempts < 1 || maxAttempts > 7)
                    && (why == None ==> 1 <= maxAttempts <= 7))
              && why != Some(NotTwoSlots) && why != Some(NotTwoDocuments) && why != Some(MixedTargets)
  {
    if A in slots && B in slots {
      TwoLabels(slots);
    }
  }

  lemma TwoLabels(slots: map<Label, SlotState>)
    requires A in slots && B in slots
    ensures slots.Keys == {A, B}
  {
    forall l | l in slots.Keys ensures l == A || l == B {
    }
  }

  /** Building a machine from UpdateSlot documents; of two for one label the later counts. */
  function Reopen(docs: seq<SlotDocument>, maxAttempts: int, now: nat): Result<Txn, OpenError> {
    if |docs| != 2 then Err(NotTwoDocuments)
    else if docs[0].targetRef != docs[1].targetRef then Err(MixedTargets)
    else
      var slots := map[docs[0].slot := FromDocument(docs[0])][docs[1].slot := FromDocument(docs[1])];
      match Rejection(slots, maxAttempts)
      case Some(e) => Err(e)
      case None => Ok(OpenedOn(slots, maxAttempts, now))
  }
  /** Which documents open a machine, and in what state; and otherwise which check they fail.
      The active document's slot is the fallback, whichever comes first. */
  lemma ReopenIff(docs: seq<SlotDocument>, maxAttempts: int, now: nat)
    ensures var r := Reopen(docs, maxAttempts, now);
            && (r == Err(NotTwoDocuments) <==> |docs| != 2)
            && (|docs| == 2 ==>
                  var c, d := docs[0], docs[1];
                  && (r == Err(MixedTargets) <==> c.targetRef != d.targetRef)
                  && (c.targetRef == d.targetRef ==>
                        && (r == Err(NotTwoSlots) <==> c.slot == d.slot)
                        && (c.slot != d.slot ==>
                              && (r == Err(NotOneActive) <==> c.role == d.role)
                              && (c.role != d.role ==>
                                    var active, candidate := if c.role.Active? then c else d,
                                                             if c.role.Active? then d else c;
                                    && (r == Err(NothingKnownGood) <==> !active.successful)
                                    && (active.successful ==>
                                          r == if maxAttempts < 1 || maxAttempts > 7 then Err(BadMaxAttempts)
                                               else Ok(Txn(FromDocument(active), FromDocument(candidate),
                                                           maxAttempts, Idle, "", "", [], None, None, None, now)))))))
  {
    if |docs| == 2 && docs[0].slot != docs[1].slot {
      TwoLabels(map[docs[0].slot := FromDocument(docs[0])][docs[1].slot := FromDocument(docs[1])]);
    }
  }
}

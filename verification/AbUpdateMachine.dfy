/** The update machine itself: slots rewritten in place, an append-only attempt log, and one
    method per event. Each method is proved to do to the machine's state exactly what
    `UpdateSpec.Step` says, and to answer what `UpdateTable.AnswerTo` says. */
module AbUpdateMachines {
  import opened Options
  import opened RuleIndex
  import opened Slots
  import opened UpdateSpec
  import opened UpdateTable

  class AbUpdateMachine {
    const targetRef: string
    const maxAttempts: int
    /** The rule index, built once from the transition table. */
    const index: map<(Phase, EventName), seq<Rule>>

    var slots: map<Label, SlotState>
    var phase: Phase
    var fromSlot: Option<Label>
    var toSlot: Option<Label>
    var preservedDigest: string
    var candidateDigest: string
    var attempts: seq<Attempt>
    var rollbackReason: Option<Reason>
    var openedAt: Option<nat>
    var settledAt: Option<nat>
    /** How often the clock has been read; a timestamp is the number of its reading. */
    var clockReads: nat

    /** The slot that is active at construction. */
    ghost const fallback: Label

    /** Two labelled slots, and a transaction over both of them once one is open. */
    ghost predicate Shaped()
      reads this
    {
      && fallback in slots && slots[fallback].slot == fallback
      && Other(fallback) in slots && slots[Other(fallback)].slot == Other(fallback)
      && fromSlot == (if phase.Idle? then None else Some(fallback))
      && toSlot == (if phase.Idle? then None else Some(Other(fallback)))
    }

    /** The active slot is the fallback, and the other one the candidate. */
    ghost predicate RolesInPlace()
      reads this
      requires Shaped()
    {
      slots[fallback].role.Active? && slots[Other(fallback)].role.Candidate?
    }

    /** The machine's state as a value. */
    ghost function State(): Txn
      reads this
      requires Shaped()
    {
      Txn(slots[fallback], slots[Other(fallback)], maxAttempts, phase, preservedDigest, candidateDigest,
          attempts, rollbackReason, openedAt, settledAt, clockReads)
    }

    /** The fallback is the active slot until promotion makes it the candidate. */
    ghost predicate Valid()
      reads this
    {
      && Shaped() && Indexes(index, TABLE, KeyOf)
      && slots[fallback].role == (if phase.Promoted? then Role.Candidate else Role.Active)
      && slots[Other(fallback)].role == (if phase.Promoted? then Role.Active else Role.Candidate)
    }

    constructor (targetRef: string, slots: map<Label, SlotState>, maxAttempts: int, clockReads: nat,
                 index: map<(Phase, EventName), seq<Rule>>)
      requires Rejection(slots, maxAttempts) == None && Indexes(index, TABLE, KeyOf)
      ensures Valid() && this.targetRef == targetRef
      ensures State() == OpenedOn(slots, maxAttempts, clockReads)
    {
      this.targetRef, this.maxAttempts, this.index := targetRef, maxAttempts, index;
      this.slots, phase, fromSlot, toSlot := slots, Idle, None, None;
      preservedDigest, candidateDigest, attempts, rollbackReason := "", "", [], None;
      openedAt, settledAt, this.clockReads := None, None, clockReads;
      fallback := if slots[A].role.Active? then A else B;
      AcceptedIsConstructed(slots, maxAttempts, clockReads);
    }

    // ── read-only views ─────────────────────────────────────────────────────────

    function Active(): SlotState
      reads this
      requires A in slots && B in slots
    {
      if slots[A].role.Active? then slots[A] else slots[B]
    }

    function Candidate(): SlotState
      reads this
      requires A in slots && B in slots
    {
      if slots[A].role.Candidate? then slots[A] else slots[B]
    }

    lemma Views()
      requires Shaped()
      ensures A in slots && B in slots
      ensures RolesInPlace() ==> Active() == slots[fallback] && Candidate() == slots[Other(fallback)]
    {
    }

    // ── invariants, guards, admission ───────────────────────────────────────────

    /** Whether the checks made after every transition pass; the machine raises when not. */
    method AssertInvariants() returns (ok: bool)
      requires Shaped() && fromSlot.Some?
      requires phase.Armed? || phase.Trying? ==> RolesInPlace()
      ensures ok == Invariants(State())
    {
      Views();
      if fromSlot.Some? {
        var preserved := slots[fromSlot.value];
        if preserved.payloadDigest != Some(preservedDigest) || !preserved.successful {
          return false;
        }
      }
      if slots[A].currentlyRunning == slots[B].currentlyRunning || slots[A].role == slots[B].role {
        return false;
      }
      var labels := [A, B];
      for i := 0 to 2
        invariant forall j :: 0 <= j < i ==>
                    && !(slots[labels[j]].state.Writing? && slots[labels[j]].role.Active?)
                    && !(slots[labels[j]].state.Unbootable? && slots[labels[j]].bootPriority != 0)
      {
        var slot := slots[labels[i]];
        if slot.state.Writing? && !slot.role.Candidate? {
          return false;
        }
        if slot.state.Unbootable? && slot.bootPriority != 0 {
          return false;
        }
      }
      assert labels[0] == A && labels[1] == B;
      if phase.Armed? || phase.Trying? {
        if Candidate().bootPriority <= Active().bootPriority || Active().bootPriority < 1 {
          return false;
        }
      }
      return true;
    }

    function Guarded(name: Guard, observedDigest: string): bool
      reads this
      requires A in slots && B in slots
    {
      match name
      case DigestMatches => observedDigest == candidateDigest
      case DigestMismatch => observedDigest != candidateDigest
      case TriesRemain => Candidate().triesRemaining > 0
      case TriesExhausted => Candidate().triesRemaining == 0
    }

    ghost function FactsSeen(observedDigest: string): Facts
      reads this
      requires Shaped()
    {
      Facts(observedDigest, candidateDigest, slots[Other(fallback)].triesRemaining)
    }

    /** The rule an event takes from here, if any: the one row of the table that fires. */
    method Resolve(event: EventName, observedDigest: string) returns (rule: Option<Rule>)
      requires Shaped() && Indexes(index, TABLE, KeyOf) && (!Terminal(phase) ==> RolesInPlace())
      ensures var row := Row(phase, event, FactsSeen(observedDigest));
              rule == if row < 0 then None else Some(TABLE[row])
    {
      Views();
      var candidates := Get(index, (phase, event));
      ghost var f := FactsSeen(observedDigest);
      ghost var admissible := r => Admissible(r, f);
      ScanFindsRow(phase, event, f);
      assert candidates == Bucket(TABLE, KeyOf, (phase, event));
      if Terminal(phase) {
        NoRowsWhenTerminal(phase, event);
      }
      for i := 0 to |candidates|
        invariant First(candidates, admissible) == First(candidates[i..], admissible)
      {
        var r := candidates[i];
        assert candidates[i..][0] == r && candidates[i..][1..] == candidates[i + 1..];
        if r.guard.None? || Guarded(r.guard.value, observedDigest) {
          return Some(r);
        }
      }
      return None;
    }

    static lemma NoRowsWhenTerminal(p: Phase, n: EventName)
      requires Terminal(p)
      ensures Bucket(TABLE, KeyOf, (p, n)) == []
    {
      KeyedRows(p, n, Facts("", "", 0));
    }

    function Refusal(event: EventName): Answer
      reads this
    {
      Returned(TransitionResult(false, event, phase, phase, None))
    }

    /** Every allowed event ends here, directly or by settling: the machine checks itself,
        then answers. */
    method Conclude(event: EventName, fromPhase: Phase, fellBackTo: Option<Label>) returns (r: Answer)
      requires Shaped() && fromSlot.Some?
      requires phase.Armed? || phase.Trying? ==> RolesInPlace()
      ensures r == if Invariants(State()) then Returned(TransitionResult(true, event, fromPhase, phase, fellBackTo))
                   else Raised
    {
      var ok := AssertInvariants();
      r := if ok then Returned(TransitionResult(true, event, fromPhase, phase, fellBackTo)) else Raised;
    }

    /** Fail-closed admission: a terminal phase refuses everything. The rule found leads where
        the event at hand does. */
    method Offer(event: EventName, observedDigest: string, ghost e: Event) returns (rule: Option<Rule>)
      requires Shaped() && Indexes(index, TABLE, KeyOf) && (!Terminal(phase) ==> RolesInPlace())
      requires NameOf(e) == event && FactsOf(State(), e) == FactsSeen(observedDigest)
      ensures !e.BootAttempt? ==> Next(State(), e) == if rule.Some? then Some(rule.value.toPhase) else None
      ensures e.BootAttempt? ==> (rule.Some? <==> phase.Armed?) && (rule.Some? ==> rule.value.toPhase.Trying?)
    {
      if Terminal(phase) {
        return None;
      }
      rule := Resolve(event, observedDigest);
    }

    method SetSlot(l: Label, s: SlotState)
      requires Shaped() && s.slot == l
      modifies this`slots
      ensures Shaped() && slots[l] == s && slots[Other(l)] == old(slots)[Other(l)]
      ensures State() == if l == fallback then old(State()).(fallback := s) else old(State()).(trial := s)
    {
      slots := slots[l := s];
    }

    method ReadClock() returns (now: nat)
      modifies this`clockReads
      ensures now == old(clockReads) && clockReads == old(clockReads) + 1
    {
      now := clockReads;
      clockReads := clockReads + 1;
    }

    // ── shared steps ────────────────────────────────────────────────────────────

    /** Opens the transaction. The write target is derived from the roles, never supplied. */
    method Open(p: Phase, payloadDigest: string)
      requires Valid() && phase.Idle? && !p.Idle?
      modifies this`fromSlot, this`toSlot, this`phase, this`preservedDigest, this`candidateDigest, this`openedAt,
               this`clockReads
      ensures Shaped()
      ensures var was := old(State());
              State() == was.(phase := p, preserved := was.fallback.payloadDigest.GetOr(""),
                              candidate := payloadDigest, openedAt := Some(was.now), now := was.now + 1)
    {
      hide TABLE;
      Views();
      var active, candidate := Active(), Candidate();
      fromSlot, toSlot, phase := Some(active.slot), Some(candidate.slot), p;
      preservedDigest, candidateDigest := active.payloadDigest.GetOr(""), payloadDigest;
      var now := ReadClock();
      openedAt := Some(now);
    }

    method MoveTo(p: Phase)
      requires Shaped() && fromSlot.Some? && !p.Idle?
      modifies this`phase
      ensures Shaped() && State() == old(State()).(phase := p)
    {
      phase := p;
    }

    method RecordAttempt(result: AttemptResult, fellBackTo: Option<Label>, detail: Option<string>)
      requires Shaped() && fromSlot.Some? && RolesInPlace()
      requires fellBackTo == if result.Passed? then None else Some(fallback)
      modifies this`attempts, this`clockReads
      ensures var was := old(State());
              State() == Logged(was, AttemptOf(was, result, was.trial.triesRemaining, detail))
    {
      Views();
      var now := ReadClock();
      attempts := attempts + [Attempt(|attempts| + 1, now, result, fellBackTo, Candidate().triesRemaining, detail)];
    }

    method MarkCandidateUnbootable()
      requires Shaped() && fromSlot.Some?
      modifies this`slots
      ensures Shaped() && State() == GivenUp(old(State()))
    {
      var from, to := fromSlot.value, toSlot.value;
      SetSlot(to, slots[to].(state := Unbootable, bootPriority := 0, triesRemaining := 0, successful := false));
      SetSlot(from, slots[from].(bootPriority := ARMED_CANDIDATE_PRIORITY));
      if !slots[from].currentlyRunning {
        SetSlot(to, slots[to].(currentlyRunning := false));
        SetSlot(from, slots[from].(currentlyRunning := true));
      }
    }

    method SwapRoles()
      requires Shaped() && fromSlot.Some?
      modifies this`slots
      ensures Shaped()
      ensures var was := old(State());
              State() == was.(
                fallback := was.fallback.(role := Role.Candidate, bootPriority := 14),
                trial := was.trial.(role := Role.Active, state := Good, successful := true, bootPriority := 15,
                                    triesRemaining := 0, lastProbeVerdict := Some(Pass)))
    {
      var oldActive, newActive := fromSlot.value, toSlot.value;
      SetSlot(newActive, slots[newActive].(role := Role.Active, state := Good, successful := true, bootPriority := 15,
                                           triesRemaining := 0, lastProbeVerdict := Some(Pass)));
      SetSlot(oldActive, slots[oldActive].(role := Role.Candidate, bootPriority := 14));
    }

    /** Records the terminal phase, then checks and answers like every other event. */
    method Settle(event: EventName, p: Phase, reason: Option<Reason>, fromPhase: Phase, fellBackTo: Option<Label>)
      returns (r: Answer)
      requires Shaped() && fromSlot.Some? && Terminal(p)
      modifies this`phase, this`rollbackReason, this`settledAt, this`clockReads
      ensures Shaped()
      ensures State() == Settled(old(State()), p, reason)
      ensures r == if Invariants(State()) then Returned(TransitionResult(true, event, fromPhase, p, fellBackTo))
                   else Raised
    {
      phase := p;
      rollbackReason := reason;
      var now := ReadClock();
      settledAt := Some(now);
      r := Conclude(event, fromPhase, fellBackTo);
    }

    // ── events ──────────────────────────────────────────────────────────────────

    method Begin(payloadDigest: string, payloadRef: Option<string>, version: Option<string>) returns (r: Answer)
      requires Valid()
      modifies this
      ensures Valid() && State() == Step(old(State()), Event.Begin(payloadDigest, payloadRef, version))
      ensures r == AnswerTo(old(State()), Event.Begin(payloadDigest, payloadRef, version), State())
    {
      var rule := Offer(OnBegin, "", Event.Begin(payloadDigest, payloadRef, version));
      if rule.None? {
        return Refusal(OnBegin);
      }
      Open(rule.value.toPhase, payloadDigest);
      var to := toSlot.value;
      SetSlot(to, slots[to].(state := Condition.Writing, successful := false, payloadDigest := Some(payloadDigest),
                             payloadRef := payloadRef, version := version, lastProbeVerdict := None));
      r := Conclude(OnBegin, Idle, None);
    }

    method WriteComplete(observedDigest: string) returns (r: Answer)
      requires Valid()
      modifies this
      ensures Valid() && State() == Step(old(State()), Event.WriteComplete(observedDigest))
      ensures r == AnswerTo(old(State()), Event.WriteComplete(observedDigest), State())
    {
      var rule := Offer(OnWriteComplete, observedDigest, Event.WriteComplete(observedDigest));
      if rule.None? {
        return Refusal(OnWriteComplete);
      }
      var fromPhase := phase;
      if rule.value.toPhase.RolledBack? {
        MarkCandidateUnbootable();
        r := Settle(OnWriteComplete, RolledBack, Some(ForDigestMismatch), fromPhase, fromSlot);
        return;
      }
      var to := toSlot.value;
      SetSlot(to, slots[to].(state := Written));
      MoveTo(rule.value.toPhase);
      r := Conclude(OnWriteComplete, fromPhase, None);
    }

    method WriteFailed(why: string) returns (r: Answer)
      requires Valid()
      modifies this
      ensures Valid() && State() == Step(old(State()), Event.WriteFailed(why))
      ensures r == AnswerTo(old(State()), Event.WriteFailed(why), State())
    {
      var rule := Offer(OnWriteFailed, "", Event.WriteFailed(why));
      if rule.None? {
        return Refusal(OnWriteFailed);
      }
      var fromPhase := phase;
      MarkCandidateUnbootable();
      r := Settle(OnWriteFailed, RolledBack, Some(ForWriteFailed), fromPhase, fromSlot);
    }

    method Arm() returns (r: Answer)
      requires Valid()
      modifies this
      ensures Valid() && State() == Step(old(State()), Event.Arm)
      ensures r == AnswerTo(old(State()), Event.Arm, State())
    {
      var rule := Offer(OnArm, "", Event.Arm);
      if rule.None? {
        return Refusal(OnArm);
      }
      var fromPhase, from, to := phase, fromSlot.value, toSlot.value;
      SetSlot(from, slots[from].(bootPriority := ARMED_ACTIVE_PRIORITY));
      SetSlot(to, slots[to].(bootPriority := ARMED_CANDIDATE_PRIORITY, triesRemaining := maxAttempts,
                             successful := false));
      MoveTo(rule.value.toPhase);
      r := Conclude(OnArm, fromPhase, None);
    }

    method BootAttempt() returns (r: Answer)
      requires Valid()
      modifies this
      ensures Valid() && State() == Step(old(State()), Event.BootAttempt)
      ensures r == AnswerTo(old(State()), Event.BootAttempt, State())
    {
      var rule := Offer(OnBootAttempt, "", Event.BootAttempt);
      if rule.None? {
        return Refusal(OnBootAttempt);
      }
      Views();
      var fromPhase, candidate := phase, Candidate();
      if candidate.triesRemaining <= 0 {
        return Refusal(OnBootAttempt);
      }
      var from, to := fromSlot.value, toSlot.value;
      SetSlot(to, slots[to].(triesRemaining := candidate.triesRemaining - 1, state := Condition.Trying,
                             currentlyRunning := true));
      SetSlot(from, slots[from].(currentlyRunning := false));
      MoveTo(rule.value.toPhase);
      r := Conclude(OnBootAttempt, fromPhase, None);
    }

    method ProbePass(note: Option<string>) returns (r: Answer)
      requires Valid()
      modifies this
      ensures Valid() && State() == Step(old(State()), Event.ProbePass(note))
      ensures r == AnswerTo(old(State()), Event.ProbePass(note), State())
    {
      hide TABLE;
      var rule := Offer(OnProbePass, "", Event.ProbePass(note));
      if rule.None? {
        return Refusal(OnProbePass);
      }
      var fromPhase := phase;
      RecordAttempt(Passed, None, note);
      SwapRoles();
      r := Settle(OnProbePass, Promoted, None, fromPhase, None);
    }

    method ProbeFail(why: string) returns (r: Answer)
      requires Valid()
      modifies this
      ensures Valid() && State() == Step(old(State()), Event.ProbeFail(why))
      ensures r == AnswerTo(old(State()), Event.ProbeFail(why), State())
    {
      r := FailAttempt(OnProbeFail, FailedProbe, why, Event.ProbeFail(why));
    }

    method WatchdogExpired(why: string, action: ExpiryAction) returns (r: Answer)
      requires Valid()
      modifies this
      ensures Valid() && State() == Step(old(State()), Event.WatchdogExpired(why, action))
      ensures r == AnswerTo(old(State()), Event.WatchdogExpired(why, action), State())
    {
      if action.RebootToFallback? && phase.Trying? {
        var to := toSlot.value;
        SetSlot(to, slots[to].(triesRemaining := 0));
      }
      r := FailAttempt(OnWatchdogExpired, FailedWatchdog, why, Event.WatchdogExpired(why, action));
    }

    method OperatorAbort(why: string) returns (r: Answer)
      requires Valid()
      modifies this
      ensures Valid() && State() == Step(old(State()), Event.OperatorAbort(why))
      ensures r == AnswerTo(old(State()), Event.OperatorAbort(why), State())
    {
      var rule := Offer(OnOperatorAbort, "", Event.OperatorAbort(why));
      if rule.None? {
        return Refusal(OnOperatorAbort);
      }
      var fromPhase := phase;
      if fromPhase.Trying? {
        RecordAttempt(Aborted, fromSlot, Some(why));
      }
      MarkCandidateUnbootable();
      r := Settle(OnOperatorAbort, RolledBack, Some(ForOperatorAbort), fromPhase, fromSlot);
    }

    /** The shared failure path of a failed probe and an expired watchdog. */
    method FailAttempt(event: EventName, result: AttemptResult, why: string, ghost e: Event) returns (r: Answer)
      requires Shaped() && Indexes(index, TABLE, KeyOf) && (!Terminal(phase) ==> RolesInPlace())
      requires e.ProbeFail? || e.WatchdogExpired?
      requires NameOf(e) == event && FactsOf(State(), e) == FactsSeen("") && !result.Passed?
      modifies this`slots, this`phase, this`attempts, this`rollbackReason, this`settledAt, this`clockReads
      ensures Shaped()
      ensures var was := old(State());
              var to := if was.phase.Trying? then AfterFailure(was.trial.triesRemaining) else None;
              match to
              case None => State() == was && r == Returned(TransitionResult(false, event, was.phase, was.phase, None))
              case Some(p) =>
                && State() == Failed(was, p, AttemptOf(was, result, was.trial.triesRemaining, Some(why)))
                && r == if Invariants(State()) then
                          Returned(TransitionResult(true, event, was.phase, p, Some(was.fallback.slot)))
                        else Raised
    {
      var rule := Offer(event, "", e);
      if rule.None? {
        return Refusal(event);
      }
      var fromPhase := phase;
      RecordAttempt(result, fromSlot, Some(why));
      var from, to := fromSlot.value, toSlot.value;
      SetSlot(to, slots[to].(currentlyRunning := false, state := Written, lastProbeVerdict := Some(Fail)));
      SetSlot(from, slots[from].(currentlyRunning := true));
      if rule.value.toPhase.Refused? {
        MarkCandidateUnbootable();
        r := Settle(event, Refused, Some(ForAttemptsExhausted), fromPhase, fromSlot);
        return;
      }
      MoveTo(rule.value.toPhase);
      r := Conclude(event, fromPhase, fromSlot);
    }

    // ── contract documents ──────────────────────────────────────────────────────

    method ToTransactionDocument() returns (d: Option<TransactionDocument>)
      requires Valid()
      ensures d == TransactionDocumentOf(State())
    {
      if phase.Idle? {
        return None;
      }
      var settled := Terminal(phase);
      var on := if phase.Promoted? then toSlot else fromSlot;
      d := Some(TransactionDocument(fromSlot.value, toSlot.value, preservedDigest, candidateDigest, maxAttempts,
                                    OutcomeOf(phase), rollbackReason, openedAt,
                                    if settled then settledAt else None, if settled then on else None,
                                    AttemptDocuments(attempts)));
    }

    method ToSlotDocuments() returns (docs: seq<SlotDocument>)
      requires Valid()
      ensures docs == SlotDocumentsOf(targetRef, State())
    {
      Views();
      docs := [];
      var labels := [A, B];
      for i := 0 to |labels|
        invariant docs == [ToDocument(targetRef, slots[A]), ToDocument(targetRef, slots[B])][..i]
      {
        docs := docs + [ToDocument(targetRef, slots[labels[i]])];
      }
    }

    /** Builds a machine on two UpdateSlot documents, or reports the first check they fail. */
    static method FromSlotDocuments(docs: seq<SlotDocument>, maxAttempts: int, clockReads: nat,
                                    index: map<(Phase, EventName), seq<Rule>>)
      returns (r: Result<AbUpdateMachine, OpenError>)
      requires Indexes(index, TABLE, KeyOf)
      ensures match Reopen(docs, maxAttempts, clockReads)
              case Err(e) => r == Err(e)
              case Ok(o) => r.Ok? && fresh(r.value) && r.value.Valid() && r.value.State() == o
                            && r.value.targetRef == docs[0].targetRef
    {
      if |docs| != 2 {
        return Err(NotTwoDocuments);
      }
      if docs[0].targetRef != docs[1].targetRef {
        return Err(MixedTargets);
      }
      var slots := map[docs[0].slot := FromDocument(docs[0])][docs[1].slot := FromDocument(docs[1])];
      var rejection := Rejection(slots, maxAttempts);
      if rejection.Some? {
        return Err(rejection.value);
      }
      var m := new AbUpdateMachine(docs[0].targetRef, slots, maxAttempts, clockReads, index);
      r := Ok(m);
    }
  }
}

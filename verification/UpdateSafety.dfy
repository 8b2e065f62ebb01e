/** What the A/B contract promises of one transaction, over every sequence of events. */
module UpdateSafety {
  import opened Options
  import opened Slots
  import opened UpdateSpec
  import opened UpdateRuns

  // ── the good slot, and the machine's own checks ───────────────────────────────

  /** The currently-good slot is never overwritten: whatever is offered, the fallback keeps
      its payload, its condition, its tries and its successful mark; only rank, role and the
      running flag ever move, and the role moves on promotion alone. */
  lemma FallbackPreserved(o: Txn, es: seq<Event>)
    requires Constructed(o)
    ensures var f := Run(o, es).fallback;
            && f == o.fallback.(role := f.role, bootPriority := f.bootPriority, currentlyRunning := f.currentlyRunning)
            && (f.role.Active? <==> !Run(o, es).phase.Promoted?)
            && (o.fallback.bootPriority >= 1 ==> f.bootPriority >= 1)
  {
    ShapeRun(o, es);
  }

  /** What a machine must look like at construction for its checks never to fire: the
      fallback holds a payload digest and is neither being written nor unbootable, and
      exactly one slot is running. The constructor does not check any of it. */
  predicate SafeStart(o: Txn) {
    && o.fallback.payloadDigest.Some?
    && !o.fallback.state.Writing? && !o.fallback.state.Unbootable?
    && o.fallback.currentlyRunning != o.trial.currentlyRunning
  }

  function Counted(b: bool): int {
    if b then 1 else 0
  }

  /** What the checks amount to on a target: the fallback can still be fallen back to with the
      payload preserved; one slot runs and one is active; no slot is active while it is being
      written, and none is unbootable and still ranked; and on trial the fallback can be
      selected and every bootable candidate is selected before it. */
  lemma InvariantsMean(s: Txn)
    ensures Invariants(s) ==>
              && s.fallback.payloadDigest == Some(s.preserved) && s.fallback.successful
              && Counted(s.fallback.currentlyRunning) + Counted(s.trial.currentlyRunning) == 1
              && Counted(s.fallback.role.Active?) + Counted(s.trial.role.Active?) == 1
              && (forall slot :: slot in {s.fallback, s.trial} ==>
                    !(slot.role.Active? && slot.state.Writing?) && !(slot.state.Unbootable? && Bootable(slot)))
              && (s.phase.Armed? || s.phase.Trying? ==>
                    Bootable(s.fallback) && (Bootable(s.trial) ==> Selected(s.trial, s.fallback)))
    ensures (&& s.fallback.payloadDigest == Some(s.preserved) && s.fallback.successful
             && Counted(s.fallback.currentlyRunning) + Counted(s.trial.currentlyRunning) == 1
             && Counted(s.fallback.role.Active?) + Counted(s.trial.role.Active?) == 1
             && (forall slot :: slot in {s.fallback, s.trial} ==>
                   && !(slot.role.Active? && slot.state.Writing?)
                   && (slot.state.Unbootable? ==> slot.bootPriority == 0))
             && (s.phase.Armed? || s.phase.Trying? ==> s.trial.bootPriority > s.fallback.bootPriority >= 1)) ==>
              Invariants(s)
  {
  }

  ghost predicate NeverRaises(o: Txn) {
    forall es, e :: !Raises(Run(o, es), e)
  }

  /** A concrete start the constructor accepts and whose machine raises: an unbootable slot
      still marked active and successful. Opening the transaction goes through; the failed
      write that should fall back to it does not. */
  lemma UnbootableFallbackRaises()
    ensures var o := Fresh(SlotState(A, Active, Unbootable, 0, 0, true, true, Some("good"), None, None, None),
                           SlotState(B, Candidate, Empty, 1, 0, false, false, None, None, None, None), 2, 0);
            var begin := Begin("new", None, None);
            Constructed(o) && !Raises(Run(o, []), begin) && Raises(Run(o, [begin]), WriteFailed("no space left"))
  {
    var begin := Begin("new", None, None);
    assert [begin][..0] == [];
  }

  lemma SafeSteps(o: Txn, es: seq<Event>)
    requires Constructed(o) && SafeStart(o) && !Run(o, es).phase.Idle?
    ensures Invariants(Run(o, es))
  {
    ShapeRun(o, es);
  }

  /** From an unsafe start two events are enough: `begin`, and for an unbootable fallback a
      failed write, which restores the priority that makes it selectable again. */
  lemma UnsafeRaises(o: Txn) returns (es: seq<Event>, e: Event)
    requires Constructed(o) && !SafeStart(o)
    ensures Raises(Run(o, es), e)
  {
    var begin := Begin("sha256:candidate", None, None);
    if Raises(o, begin) {
      es, e := [], begin;
    } else {
      es, e := [begin], WriteFailed("write failed");
      assert Run(o, es[..0]) == o;
    }
  }

  /** No sequence of events, legal or not, ever raises an InvariantViolation exactly when
      the start is safe. */
  lemma NeverRaisesIff(o: Txn)
    requires Constructed(o)
    ensures NeverRaises(o) <==> SafeStart(o)
  {
    if SafeStart(o) {
      forall es, e ensures !Raises(Run(o, es), e) {
        if Admits(Run(o, es), e) {
          assert (es + [e])[..|es|] == es;
          assert Run(o, es + [e]) == Step(Run(o, es), e);
          SafeSteps(o, es + [e]);
        }
      }
    } else {
      var es, e := UnsafeRaises(o);
    }
  }

  /** The checks fail as soon as the transaction opens: of the conditions of a safe start,
      everything but an unbootable fallback that still has priority zero. */
  predicate RaisesAtBegin(o: Txn) {
    || o.fallback.payloadDigest.None?
    || o.fallback.state.Writing?
    || (o.fallback.state.Unbootable? && o.fallback.bootPriority != 0)
    || o.fallback.currentlyRunning == o.trial.currentlyRunning
  }

  /** By phase `p` a run from `o` has violated the checks. */
  predicate Violated(o: Txn, p: Phase) {
    && !SafeStart(o)
    && if RaisesAtBegin(o) then !p.Idle? else p.Armed? || p.Trying? || Terminal(p)
  }

  /** Some event of the run raised. */
  ghost predicate HasRaised(o: Txn, es: seq<Event>) {
    exists i :: 0 <= i < |es| && Raises(Run(o, es[..i]), es[i])
  }

  lemma HasRaisedSnoc(o: Txn, es: seq<Event>)
    requires es != []
    ensures var init, e := es[..|es| - 1], es[|es| - 1];
            HasRaised(o, es) <==> HasRaised(o, init) || Raises(Run(o, init), e)
  {
    hide Raises, Run;
    var init := es[..|es| - 1];
    assert forall i :: 0 <= i < |init| ==> init[..i] == es[..i] && init[i] == es[i];
  }

  lemma InvariantsOfShape(o: Txn, s: Txn)
    requires Constructed(o) && Shape(o, s) && !s.phase.Idle?
    ensures s.phase.Writing? || !RaisesAtBegin(o) ==> (Invariants(s) <==> !Violated(o, s.phase))
  {
  }

  lemma ViolatedStep(o: Txn, s: Txn, e: Event)
    requires Constructed(o) && Shape(o, s)
    ensures Violated(o, Step(s, e).phase) <==> Violated(o, s.phase) || Raises(s, e)
  {
    StepPhase(s, e);
    ShapeStep(o, s, e);
    hide Step, Shape, Invariants, SafeStart, RaisesAtBegin;
    if Admits(s, e) {
      InvariantsOfShape(o, Step(s, e));
    }
  }

  /** The exact runs that raise. From a safe start none does. From any other, a run has
      raised once its transaction is open, or, when all that is wrong is an unbootable
      fallback of priority zero, once it is armed or settled. */
  lemma {:induction false} HasRaisedIff(o: Txn, es: seq<Event>)
    requires Constructed(o)
    ensures HasRaised(o, es) <==> Violated(o, Run(o, es).phase)
  {
    if es != [] {
      var init := es[..|es| - 1];
      hide Raises, HasRaised, Shape, Violated;
      HasRaisedIff(o, init);
      HasRaisedSnoc(o, es);
      ShapeRun(o, init);
      ViolatedStep(o, Run(o, init), es[|es| - 1]);
    }
  }

  /** Only a passing probe marks the candidate successful, whatever state it is offered in;
      beginning, arming and giving it up each clear the mark, and nothing clears the
      fallback's. */
  lemma OnlyAPassCertifies(s: Txn, e: Event)
    requires Admits(s, e)
    ensures var after := Step(s, e);
            && after.fallback.successful == s.fallback.successful
            && (e.ProbePass? ==> after.trial.successful)
            && (!e.ProbePass? && after.trial.successful ==> s.trial.successful)
            && (e.Begin? || e.Arm? || after.phase.RolledBack? || after.phase.Refused? ==> !after.trial.successful)
  {
  }

  // ── the slot selector ─────────────────────────────────────────────────────────

  /** The trial slot has no tries left over, or ranks below the fallback. */
  predicate Outranked(o: Txn) {
    o.trial.triesRemaining <= 0 || o.trial.bootPriority < o.fallback.bootPriority
  }

  /** Which slot the bootloader would pick, phase by phase. Before the transaction opens it is
      the fallback exactly if that slot is selectable and the trial slot either is not or
      ranks lower; while the candidate is being written, exactly if the fallback was
      selectable at all and the trial slot started out outranked. */
  lemma SelectorFollowsPhase(o: Txn, es: seq<Event>)
    requires Constructed(o)
    ensures var s := Run(o, es);
            match s.phase
            case Idle =>
              Selected(s.fallback, s.trial) <==>
              && o.fallback.bootPriority >= 1
              && (Bootable(o.trial) ==> o.trial.bootPriority < o.fallback.bootPriority)
            case Writing => Selected(s.fallback, s.trial) <==> o.fallback.bootPriority >= 1 && Outranked(o)
            case CandidateReady => Selected(s.fallback, s.trial) <==> o.fallback.bootPriority >= 1 && Outranked(o)
            case Armed => Selected(s.trial, s.fallback)
            case Trying =>
              && (Selected(s.trial, s.fallback) <==> s.trial.triesRemaining > 0)
              && (Selected(s.fallback, s.trial) <==> s.trial.triesRemaining == 0)
            case Promoted => Selected(s.trial, s.fallback)
            case _ => Selected(s.fallback, s.trial)
  {
    ShapeRun(o, es);
  }

  /** A conformant start that is not outranked: while its payload is still being written,
      the trial slot is the one a power cycle would boot. */
  lemma HalfWrittenSlotSelected()
    ensures var o := Fresh(SlotState(A, Active, Good, 14, 0, true, true, Some("good"), None, None, None),
                           SlotState(B, Candidate, Written, 15, 2, false, false, Some("old"), None, None, None), 2, 0);
            var s := Run(o, [Begin("new", None, None)]);
            Constructed(o) && ConformantStart(o) && s.phase.Writing? && Selected(s.trial, s.fallback)
  {
    var o := Fresh(SlotState(A, Active, Good, 14, 0, true, true, Some("good"), None, None, None),
                   SlotState(B, Candidate, Written, 15, 2, false, false, Some("old"), None, None, None), 2, 0);
    var es := [Begin("new", None, None)];
    assert Run(o, es[..0]) == o;
  }

  // ── the attempt log and the budget ────────────────────────────────────────────

  /** The log entry at `i`, as the state `s` it is read in requires. */
  ghost predicate AttemptShape(o: Txn, s: Txn, i: int)
    requires 0 <= i < |s.attempts|
  {
    var n, a := |s.attempts|, s.attempts[i];
    && a.attemptNumber == i + 1
    && a.startedAt == o.now + 1 + i
    && !a.result.FailedWrite?
    && (a.result.Passed? <==> i == n - 1 && s.phase.Promoted?)
    && (a.result.Aborted? ==> i == n - 1 && s.phase.RolledBack?)
    && a.fellBackTo == (if a.result.Passed? then None else Some(o.fallback.slot))
    && (a.triesRemainingAfter == o.maxAttempts - (i + 1)
        || (a.triesRemainingAfter == 0 && a.result.FailedWatchdog? && i == n - 1 && s.phase.Refused?))
    && (s.phase.Refused? && i == n - 1 ==> a.triesRemainingAfter == 0)
  }

  ghost predicate LogShape(o: Txn, s: Txn) {
    forall i :: 0 <= i < |s.attempts| ==> AttemptShape(o, s, i)
  }

  lemma LogShapeStep(o: Txn, s: Txn, e: Event)
    requires Constructed(o) && Counts(o, s) && LogShape(o, s)
    ensures LogShape(o, Step(s, e))
  {
    var s' := Step(s, e);
    forall i | 0 <= i < |s'.attempts| ensures AttemptShape(o, s', i) {
      if i < |s.attempts| {
        assert AttemptShape(o, s, i);
        assert s'.attempts[i] == s.attempts[i];
      }
    }
  }

  /** In every reachable state the log is numbered from 1 without gaps and timed by the
      clock; a pass stands last and only in promoted, an abort last and only in rolled
      back; and the tries recorded are the budget less the attempts made, save after a
      watchdog that falls back at once, which ends the log with 0. */
  lemma {:induction false} LogShapeRun(o: Txn, es: seq<Event>)
    requires Constructed(o)
    ensures LogShape(o, Run(o, es))
  {
    if es != [] {
      LogShapeRun(o, es[..|es| - 1]);
      CountsRun(o, es[..|es| - 1]);
      LogShapeStep(o, Run(o, es[..|es| - 1]), es[|es| - 1]);
    }
  }

  /** The recorded tries strictly decrease, and a boot offered to an armed machine is never
      refused: the handler's own check for spent tries cannot fire. */
  lemma BudgetIsSpentInOrder(o: Txn, es: seq<Event>)
    requires Constructed(o)
    ensures var s := Run(o, es);
            && (s.phase.Armed? ==> Admits(s, BootAttempt))
            && |s.attempts| <= o.maxAttempts
            && forall i, j :: 0 <= i < j < |s.attempts| ==>
                 s.attempts[j].triesRemainingAfter < s.attempts[i].triesRemainingAfter
  {
    LogShapeRun(o, es);
    ShapeRun(o, es);
    var s := Run(o, es);
    forall i, j | 0 <= i < j < |s.attempts|
      ensures s.attempts[j].triesRemainingAfter < s.attempts[i].triesRemainingAfter
    {
      assert AttemptShape(o, s, i) && AttemptShape(o, s, j);
    }
  }

  // ── promotion ─────────────────────────────────────────────────────────────────

  /** `tr` begins and verifies a write of `d`, arms, fails `k - 1` attempts with tries to
      spare, and passes the `k`th. */
  ghost predicate PromotionTrace(tr: seq<Event>, d: string, k: int) {
    && k >= 1 && |tr| == 3 + 2 * k
    && tr[0].Begin? && tr[0].payloadDigest == d
    && tr[1] == WriteComplete(d)
    && tr[2].Arm?
    && (forall j :: 0 <= j < k ==> tr[3 + 2 * j].BootAttempt?)
    && (forall j :: 0 <= j < k - 1 ==> Retries(tr[4 + 2 * j]))
    && tr[2 + 2 * k].ProbePass?
  }

  lemma PassedTrace(tr: seq<Event>, max: int) returns (k: int)
    requires Legal(tr, max) && tr != [] && tr[|tr| - 1].ProbePass?
    ensures 1 <= k <= max && tr[0].Begin? && PromotionTrace(tr, tr[0].payloadDigest, k)
  {
    var n := |tr|;
    assert LegalAt(tr, n - 1, max);
    k := (n - 3) / 2;
    assert LegalAt(tr, n - 2, max) && LegalAt(tr, 2, max) && LegalAt(tr, 3, max);
    forall j | 0 <= j < k ensures tr[3 + 2 * j].BootAttempt? && (j < k - 1 ==> Retries(tr[4 + 2 * j])) {
      assert LegalAt(tr, 4 + 2 * j, max);
      if j < k - 1 {
        assert LegalAt(tr, 5 + 2 * j, max);
        assert (5 + 2 * j) % 2 == 1;
      }
    }
  }

  ghost predicate IsPromotion(tr: seq<Event>, max: int) {
    exists d, k :: k <= max && PromotionTrace(tr, d, k)
  }

  lemma PromotedTraces(tr: seq<Event>, max: int)
    requires Legal(tr, max)
    ensures PhaseAfter(tr, max).Promoted? <==> IsPromotion(tr, max)
  {
    if PhaseAfter(tr, max).Promoted? {
      var k := PassedTrace(tr, max);
      assert PromotionTrace(tr, tr[0].payloadDigest, k);
    }
  }

  /** A run ends promoted exactly when its allowed events are a promotion trace within the
      budget. */
  lemma PromotedIff(o: Txn, es: seq<Event>)
    requires Constructed(o)
    ensures Run(o, es).phase.Promoted? <==> IsPromotion(Allowed(o, es), o.maxAttempts)
  {
    AllowedTracesAreLegal(o, es);
    PromotedTraces(Allowed(o, es), o.maxAttempts);
  }

  /** After a promotion trace for `d` of `k` attempts, the trial slot holds `d` as the
      running, active, good slot, and the slot it replaced keeps its payload and stays
      bootable as the next write target. */
  lemma PromotionResult(o: Txn, es: seq<Event>, d: string, k: int)
    requires Constructed(o) && PromotionTrace(Allowed(o, es), d, k)
    ensures var s := Run(o, es);
            && s.phase.Promoted? && s.candidate == d && |s.attempts| == k
            && s.trial.payloadDigest == Some(d)
            && s.trial.role.Active? && s.trial.state.Good? && s.trial.successful && s.trial.currentlyRunning
            && s.fallback.role.Candidate? && s.fallback.successful && Bootable(s.fallback)
            && s.fallback.payloadDigest == o.fallback.payloadDigest
  {
    LinkedRun(o, es);
    ShapeRun(o, es);
    assert Run(o, es).phase.Promoted?;
  }

  // ── contract documents ────────────────────────────────────────────────────────

  /** Both slots meet the UpdateSlot contract and exactly one of them is running. */
  predicate ConformantStart(o: Txn) {
    Conformant(o.fallback) && Conformant(o.trial) && o.fallback.currentlyRunning != o.trial.currentlyRunning
  }

  lemma ConformantIsSafe(o: Txn)
    requires Constructed(o) && ConformantStart(o)
    ensures SafeStart(o) && o.fallback.bootPriority >= 1
  {
  }

  lemma AttemptConformsAt(o: Txn, s: Txn, d: TransactionDocument, i: int)
    requires 1 <= o.maxAttempts <= 7 && |s.attempts| <= o.maxAttempts && s.fallback.slot == o.fallback.slot
    requires TransactionDocumentOf(s) == Some(d) && 0 <= i < |d.attempts| && AttemptShape(o, s, i)
    ensures AttemptConforms(d, i)
  {
  }

  lemma AttemptsConform(o: Txn, es: seq<Event>, d: TransactionDocument)
    requires Constructed(o) && TransactionDocumentOf(Run(o, es)) == Some(d)
    ensures forall i :: 0 <= i < |d.attempts| ==> AttemptConforms(d, i)
  {
    var s := Run(o, es);
    LogShapeRun(o, es);
    CountsRun(o, es);
    hide Run, AttemptConforms, AttemptShape, TransactionDocumentOf;
    forall i | 0 <= i < |d.attempts| ensures AttemptConforms(d, i) {
      assert |d.attempts| == |s.attempts| by { AttemptsRendered(s, d); }
      assert AttemptShape(o, s, i);
      AttemptConformsAt(o, s, d, i);
    }
  }

  lemma AttemptsRendered(s: Txn, d: TransactionDocument)
    requires TransactionDocumentOf(s) == Some(d)
    ensures |d.attempts| == |s.attempts|
  {
  }

  lemma OpenIffAllowed(o: Txn, es: seq<Event>)
    requires Constructed(o)
    ensures Run(o, es).phase.Idle? <==> Allowed(o, es) == []
    ensures Run(o, es).phase.Refused? ==> Run(o, es).rollbackReason == Some(ForAttemptsExhausted)
  {
    AllowedTracesAreLegal(o, es);
  }

  /** The transaction document can be rendered exactly once some event has been allowed, and
      then meets every conditional clause and range of the UpdateTransaction contract, and of
      its attempt rules those on numbering, results and fallback. */
  lemma TransactionDocumentConforms(o: Txn, es: seq<Event>)
    requires Constructed(o)
    ensures var d := TransactionDocumentOf(Run(o, es));
            && (d.Some? <==> Allowed(o, es) != [])
            && (d.Some? ==> TransactionConforms(d.value))
  {
    hide Run, Allowed, AttemptConforms;
    OpenIffAllowed(o, es);
    ShapeRun(o, es);
    var d := TransactionDocumentOf(Run(o, es));
    if d.Some? {
      AttemptsConform(o, es, d.value);
    }
  }

  /** Entry `i` of a document is the log's entry, with an empty detail left out. */
  ghost predicate EntryTold(d: TransactionDocument, log: seq<Attempt>, i: int)
    requires 0 <= i < |log| == |d.attempts|
  {
    var told, a := d.attempts[i], log[i];
    && told.attemptNumber == a.attemptNumber && told.startedAt == a.startedAt && told.result == a.result
    && told.fellBackTo == a.fellBackTo && told.triesRemainingAfter == a.triesRemainingAfter
    && told.detail == (if a.detail == Some("") then None else a.detail)
  }

  /** And it tells the transaction's story: the fallback and what it held at opening, what
      was begun, why and when it ended and on which slot, and each attempt the allowed events
      made. */
  lemma TransactionDocumentTells(o: Txn, es: seq<Event>)
    requires Constructed(o) && Allowed(o, es) != []
    ensures Allowed(o, es)[0].Begin? && TransactionDocumentOf(Run(o, es)).Some?
    ensures var tr, d := Allowed(o, es), TransactionDocumentOf(Run(o, es)).value;
            && d.fromSlot == o.fallback.slot && d.toSlot == o.trial.slot
            && d.preservedPayloadDigest ==
               (if o.fallback.payloadDigest.Some? then o.fallback.payloadDigest.value else "")
            && (SafeStart(o) ==> Some(d.preservedPayloadDigest) == o.fallback.payloadDigest)
            && d.candidatePayloadDigest == tr[0].payloadDigest && d.maxAttempts == o.maxAttempts
            && d.rollbackReason == ReasonAfter(tr, o.maxAttempts) && d.openedAt == Some(o.now)
            && |d.attempts| == |LogOf(o, tr)|
            && (forall i :: 0 <= i < |d.attempts| ==> EntryTold(d, LogOf(o, tr), i))
            && (d.outcome.PendingOutcome? <==> !Terminal(PhaseAfter(tr, o.maxAttempts)))
            && (d.outcome.PromotedOutcome? <==> PhaseAfter(tr, o.maxAttempts).Promoted?)
            && (d.outcome.RefusedOutcome? <==> PhaseAfter(tr, o.maxAttempts).Refused?)
            && d.settledAt ==
               (if d.outcome.PendingOutcome? then None else Some((o.now + 1 + |LogOf(o, tr)|) as nat))
            && d.settledOnSlot ==
               (if d.outcome.PendingOutcome? then None
                else Some(if d.outcome.PromotedOutcome? then o.trial.slot else o.fallback.slot))
  {
    hide Legal, LogOf, PhaseAfter;
    LinkedRun(o, es);
    ShapeRun(o, es);
    OpenIffAllowed(o, es);
  }

  /** At settlement the slot the document settles on is active and running, and the other
      slot is neither. */
  lemma SettledSlotIsActive(o: Txn, es: seq<Event>)
    requires Constructed(o) && SafeStart(o) && Terminal(Run(o, es).phase)
    ensures var s := Run(o, es);
            var rest := if s.phase.Promoted? then s.fallback else s.trial;
            && TransactionDocumentOf(s).Some?
            && TransactionDocumentOf(s).value.settledOnSlot == Some(SettledOn(s).slot)
            && SettledOn(s).role.Active? && SettledOn(s).currentlyRunning
            && rest.slot == Other(SettledOn(s).slot) && rest.role.Candidate? && !rest.currentlyRunning
  {
    ShapeRun(o, es);
  }

  /** Document `d` tells record `s` of target `targetRef`, an empty string being left out. */
  ghost predicate RecordTold(d: SlotDocument, targetRef: string, s: SlotState) {
    && d.targetRef == targetRef && d.slot == s.slot && d.role == s.role && d.state == s.state
    && d.bootPriority == s.bootPriority && d.triesRemaining == s.triesRemaining
    && d.successful == s.successful && d.currentlyRunning == s.currentlyRunning
    && d.lastProbeVerdict == s.lastProbeVerdict
    && d.payloadDigest == (if s.payloadDigest == Some("") then None else s.payloadDigest)
    && d.payloadRef == (if s.payloadRef == Some("") then None else s.payloadRef)
    && d.version == (if s.version == Some("") then None else s.version)
    && d.installedAt == None && d.lastBootedAt == None
  }

  /** The slot documents of every reachable state: that of A, then that of B, each telling the
      record of its slot. */
  lemma SlotDocumentsTell(o: Txn, es: seq<Event>, targetRef: string)
    requires Constructed(o)
    ensures var s, docs := Run(o, es), SlotDocumentsOf(targetRef, Run(o, es));
            && |docs| == 2 && docs[0].slot == A && docs[1].slot == B
            && RecordTold(docs[if o.fallback.slot.A? then 0 else 1], targetRef, s.fallback)
            && RecordTold(docs[if o.fallback.slot.A? then 1 else 0], targetRef, s.trial)
  {
    hide Run;
    ShapeRun(o, es);
    SlotsOfShape(o, Run(o, es));
  }

  lemma SlotsOfShape(o: Txn, s: Txn)
    requires SlotShape(o, s)
    ensures s.fallback.slot == o.fallback.slot && s.trial.slot == o.trial.slot
  {
  }

  lemma FallbackConforms(o: Txn, es: seq<Event>)
    requires Constructed(o) && Conformant(o.fallback)
    ensures Conformant(Run(o, es).fallback)
  {
    FallbackPreserved(o, es);
    ShapeRun(o, es);
  }

  lemma TrialConforms(o: Txn, s: Txn)
    requires SlotShape(o, s) && Counts(o, s) && Constructed(o) && Conformant(o.trial)
    ensures Conformant(s.trial) <==> !(s.phase.Promoted? && s.candidate == "")
  {
  }

  lemma OneSlotRuns(o: Txn, es: seq<Event>)
    requires Constructed(o) && o.fallback.currentlyRunning != o.trial.currentlyRunning
    ensures Run(o, es).fallback.currentlyRunning != Run(o, es).trial.currentlyRunning
  {
    ShapeRun(o, es);
  }

  /** From a conformant start both slot documents meet the UpdateSlot contract in every
      reachable state, and exactly one slot runs; except that promoting an empty digest
      leaves an active slot whose document carries none. */
  lemma SlotDocumentsConform(o: Txn, es: seq<Event>)
    requires Constructed(o) && ConformantStart(o)
    ensures var s := Run(o, es);
            && Conformant(s.fallback)
            && (Conformant(s.trial) <==> !(s.phase.Promoted? && s.candidate == ""))
            && s.fallback.currentlyRunning != s.trial.currentlyRunning
  {
    hide Run, Conformant, SlotShape, FieldShape, Counts;
    FallbackConforms(o, es);
    ShapeRun(o, es);
    CountsRun(o, es);
    TrialConforms(o, Run(o, es));
    OneSlotRuns(o, es);
  }
}

/** What the field descriptions of the two A/B contracts promise beyond their clauses, and
    exactly which runs keep each promise. */
module UpdatePromises {
  import opened Options
  import opened Slots
  import opened UpdateSpec
  import opened UpdateRuns
  import opened UpdateSafety

  // ── counting along a legal trace ──────────────────────────────────────────────

  lemma LegalPrefix(tr: seq<Event>, n: nat, max: int)
    requires Legal(tr, max) && n <= |tr|
    ensures Legal(tr[..n], max)
  {
    forall i | 0 <= i < n ensures LegalAt(tr[..n], i, max) {
      assert LegalAt(tr, i, max);
    }
  }

  /** A legal trace boots at every other position from 3 on, save where it ends aborted. */
  lemma {:induction false} BootsOfLegal(tr: seq<Event>, max: int)
    requires Legal(tr, max)
    ensures var n := |tr|;
            Boots(tr) == if n <= 3 then 0
                         else (n - 2) / 2 - if n % 2 == 0 && !tr[n - 1].BootAttempt? then 1 else 0
  {
    if tr != [] {
      LegalPrefix(tr, |tr| - 1, max);
      BootsOfLegal(tr[..|tr| - 1], max);
      assert LegalAt(tr, |tr| - 1, max);
    }
  }

  lemma {:induction false} LogLength(o: Txn, tr: seq<Event>, max: int)
    requires Legal(tr, max)
    ensures |LogOf(o, tr)| == if |tr| <= 4 then 0 else (|tr| - 3) / 2
  {
    if |tr| >= 2 {
      LegalPrefix(tr, |tr| - 1, max);
      LogLength(o, tr[..|tr| - 1], max);
      assert LegalAt(tr, |tr| - 1, max) && LegalAt(tr, |tr| - 2, max);
    }
  }

  /** The entry at `i` is the one made at position 4 + 2 * i, where attempt i + 1 ended. */
  lemma {:induction false} LogAt(o: Txn, tr: seq<Event>, max: int, i: nat)
    requires Legal(tr, max) && 4 + 2 * i < |tr|
    ensures i < |LogOf(o, tr)| && LogOf(o, tr)[i] == Entry(o, tr[..5 + 2 * i])
    ensures tr[3 + 2 * i].BootAttempt? && Boots(tr[..5 + 2 * i]) == i + 1
  {
    hide Entry;
    var init := tr[..|tr| - 1];
    LogLength(o, tr, max);
    LegalPrefix(tr, |tr| - 1, max);
    LogLength(o, init, max);
    LegalPrefix(tr, 5 + 2 * i, max);
    BootsOfLegal(tr[..5 + 2 * i], max);
    assert LegalAt(tr, 4 + 2 * i, max);
    if 4 + 2 * i < |init| {
      LogAt(o, init, max, i);
      assert init[..5 + 2 * i] == tr[..5 + 2 * i];
    } else {
      assert tr[..5 + 2 * i] == tr;
    }
  }

  // ── the attempt list ──────────────────────────────────────────────────────────

  /** The list is empty exactly while no boot has been followed by anything: as long as at
      most four events were allowed. */
  lemma AttemptsEmptyIff(o: Txn, es: seq<Event>)
    requires Constructed(o)
    ensures var tr := Allowed(o, es);
            && (Run(o, es).attempts == [] <==> |tr| <= 4)
            && (Run(o, es).attempts == [] <==> forall i :: 0 <= i < |tr| - 1 ==> !tr[i].BootAttempt?)
  {
    AllowedTracesAreLegal(o, es);
    var tr := Allowed(o, es);
    LogLength(o, tr, o.maxAttempts);
    if |tr| >= 5 {
      LogAt(o, tr, o.maxAttempts, 0);
    } else {
      forall i | 0 <= i < |tr| - 1 ensures !tr[i].BootAttempt? {
        assert LegalAt(tr, i, o.maxAttempts);
      }
    }
  }

  /** "Empty only while the payload is still being written" holds exactly after one allowed
      event, and again from the fifth on. In between the list is empty in candidate_ready,
      armed, trying or rolled_back. */
  lemma EmptyOnlyWhileWritingIff(o: Txn, es: seq<Event>)
    requires Constructed(o) && Allowed(o, es) != []
    ensures TransactionDocumentOf(Run(o, es)).Some?
    ensures var tr, s := Allowed(o, es), Run(o, es);
            var d := TransactionDocumentOf(s).value;
            && ((d.attempts == [] ==> s.phase.Writing?) <==> |tr| == 1 || |tr| >= 5)
            && (2 <= |tr| <= 4 ==>
                  s.phase.CandidateReady? || s.phase.Armed? || s.phase.Trying? || s.phase.RolledBack?)
  {
    OpenIffAllowed(o, es);
    AllowedTracesAreLegal(o, es);
    AttemptsEmptyIff(o, es);
    var tr := Allowed(o, es);
    assert LegalAt(tr, |tr| - 1, o.maxAttempts);
  }

  /** The run up to and including a first boot, from any start. */
  function FirstBoot(d: string): seq<Event> {
    [Begin(d, None, None), WriteComplete(d), Arm, BootAttempt]
  }

  lemma FirstBootIsAllowed(o: Txn, d: string)
    requires Constructed(o)
    ensures Legal(FirstBoot(d), o.maxAttempts) && Allowed(o, FirstBoot(d)) == FirstBoot(d)
  {
    LegalTracesAreAllowed(o, FirstBoot(d));
  }

  /** From every start: the candidate is on trial and the document lists no attempt. */
  lemma FirstTrialIsUnlisted(o: Txn, d: string)
    requires Constructed(o)
    ensures var s := Run(o, FirstBoot(d));
            && s.phase.Trying? && TransactionDocumentOf(s).Some? && TransactionDocumentOf(s).value.attempts == []
  {
    FirstBootIsAllowed(o, d);
    AllowedTracesAreLegal(o, FirstBoot(d));
    EmptyOnlyWhileWritingIff(o, FirstBoot(d));
    AttemptsEmptyIff(o, FirstBoot(d));
  }

  /** A legal trace taken as a run: it is allowed whole, and this is where it stands. */
  lemma AfterTrace(o: Txn, tr: seq<Event>)
    requires Constructed(o) && Legal(tr, o.maxAttempts)
    ensures Allowed(o, tr) == tr && Run(o, tr).phase == PhaseAfter(tr, o.maxAttempts)
    ensures |Run(o, tr).attempts| == if |tr| <= 4 then 0 else (|tr| - 3) / 2
    ensures Counts(o, Run(o, tr))
  {
    LegalTracesAreAllowed(o, tr);
    AllowedTracesAreLegal(o, tr);
    LogLength(o, tr, o.maxAttempts);
    CountsRun(o, tr);
  }

  lemma PhasesAtBoot(tr: seq<Event>, max: int, i: nat)
    requires Legal(tr, max) && 3 + 2 * i < |tr| && tr[3 + 2 * i].BootAttempt?
    ensures PhaseAfter(tr[..3 + 2 * i], max).Armed? && PhaseAfter(tr[..4 + 2 * i], max).Trying?
  {
    assert LegalAt(tr, 3 + 2 * i, max);
    assert tr[..4 + 2 * i][3 + 2 * i] == tr[3 + 2 * i];
    assert tr[..3 + 2 * i][2 + 2 * i] == tr[2 + 2 * i];
  }

  /** The states around boot i + 1 of a legal trace. */
  lemma AroundBoot(o: Txn, tr: seq<Event>, i: nat)
    requires Constructed(o) && Legal(tr, o.maxAttempts) && 3 + 2 * i < |tr| && tr[3 + 2 * i].BootAttempt?
    ensures var armed, booted := Run(o, tr[..3 + 2 * i]), Run(o, tr[..4 + 2 * i]);
            && armed.phase.Armed? && booted.phase.Trying? && booted.now == armed.now == o.now + 1 + i
            && booted.trial.triesRemaining == o.maxAttempts - (i + 1)
  {
    hide Legal, LegalAt, PhaseAfter, Run, Allowed;
    PhasesAtBoot(tr, o.maxAttempts, i);
    LegalPrefix(tr, 3 + 2 * i, o.maxAttempts);
    LegalPrefix(tr, 4 + 2 * i, o.maxAttempts);
    AfterTrace(o, tr[..3 + 2 * i]);
    AfterTrace(o, tr[..4 + 2 * i]);
  }

  /** The trace around the attempt logged at `i`. */
  lemma AttemptInTrace(o: Txn, es: seq<Event>, i: nat)
    requires Constructed(o) && i < |Run(o, es).attempts|
    ensures var tr := Allowed(o, es);
            && Legal(tr, o.maxAttempts) && 4 + 2 * i < |tr| && tr[3 + 2 * i].BootAttempt?
            && Run(o, es).attempts[i] == Entry(o, tr[..5 + 2 * i]) && Boots(tr[..5 + 2 * i]) == i + 1
  {
    hide Legal, LegalAt, PhaseAfter, Run, Allowed, Entry, ReasonAfter;
    AllowedTracesAreLegal(o, es);
    LogLength(o, Allowed(o, es), o.maxAttempts);
    LogAt(o, Allowed(o, es), o.maxAttempts, i);
  }

  lemma NowGrows(o: Txn, es: seq<Event>)
    requires Constructed(o) && !Run(o, es).phase.Idle?
    ensures Run(o, es).now > o.now + |Run(o, es).attempts|
  {
    ShapeRun(o, es);
  }

  /** `startedAt` is described as the moment of the boot. The boot reads no clock; what is
      recorded is the first reading of the event that ended the attempt. */
  lemma StartIsReadAtTheEnd(o: Txn, es: seq<Event>, i: nat)
    requires Constructed(o) && i < |Run(o, es).attempts|
    ensures 4 + 2 * i < |Allowed(o, es)|
    ensures var tr := Allowed(o, es);
            var armed, booted, ended := Run(o, tr[..3 + 2 * i]), Run(o, tr[..4 + 2 * i]), Run(o, tr[..5 + 2 * i]);
            && tr[3 + 2 * i].BootAttempt? && armed.phase.Armed? && booted.phase.Trying?
            && booted.now == armed.now
            && Run(o, es).attempts[i].startedAt == booted.now < ended.now
  {
    hide Legal, LegalAt, PhaseAfter, Run, Allowed, Entry;
    var tr := Allowed(o, es);
    AttemptInTrace(o, es, i);
    AroundBoot(o, tr, i);
    LogShapeRun(o, es);
    assert AttemptShape(o, Run(o, es), i);
    LegalPrefix(tr, 5 + 2 * i, o.maxAttempts);
    AfterTrace(o, tr[..5 + 2 * i]);
    OpenIffAllowed(o, tr[..5 + 2 * i]);
    NowGrows(o, tr[..5 + 2 * i]);
  }

  predicate FallsBackAtOnce(e: Event) {
    e.WatchdogExpired? && e.action.RebootToFallback?
  }

  /** `triesRemainingAfter` is described as the tries left once the bootloader had decremented
      for the attempt. It is, unless a watchdog fell back at once with tries to spare. */
  lemma TriesAfterBootIff(o: Txn, es: seq<Event>, i: nat)
    requires Constructed(o) && i < |Run(o, es).attempts|
    ensures 4 + 2 * i < |Allowed(o, es)|
    ensures var tr := Allowed(o, es);
            Run(o, es).attempts[i].triesRemainingAfter == Run(o, tr[..4 + 2 * i]).trial.triesRemaining <==>
            !(FallsBackAtOnce(tr[4 + 2 * i]) && i + 1 < o.maxAttempts)
  {
    hide Legal, LegalAt, PhaseAfter, Run, Allowed, LogOf, Boots;
    var tr := Allowed(o, es);
    AttemptInTrace(o, es, i);
    AroundBoot(o, tr, i);
    EndsAttempt(tr, o.maxAttempts, i);
    assert tr[..5 + 2 * i][4 + 2 * i] == tr[4 + 2 * i];
  }

  lemma EndsAttempt(tr: seq<Event>, max: int, i: nat)
    requires Legal(tr, max) && 4 + 2 * i < |tr|
    ensures var e := tr[4 + 2 * i]; (e.ProbePass? || e.ProbeFail? || e.WatchdogExpired? || e.OperatorAbort?)
    ensures i < max
  {
    assert LegalAt(tr, 4 + 2 * i, max) && LegalAt(tr, 3 + 2 * i, max);
  }

  // ── the outcome ───────────────────────────────────────────────────────────────

  predicate FailedVerdict(e: Event) {
    e.ProbeFail? || e.WatchdogExpired?
  }

  /** The last event gave the transaction up: a failed or mismatching write, or the operator. */
  predicate Abandons(tr: seq<Event>) {
    tr != [] &&
    match tr[|tr| - 1]
    case WriteFailed(_) => true
    case OperatorAbort(_) => true
    case WriteComplete(d) => tr[0].Begin? && d != tr[0].payloadDigest
    case _ => false
  }

  /** The last event failed the last attempt of the budget, or cut the budget short. */
  predicate SpendsBudget(tr: seq<Event>, max: int) {
    tr != [] && FailedVerdict(tr[|tr| - 1]) && (Boots(tr) == max || FallsBackAtOnce(tr[|tr| - 1]))
  }

  lemma OutcomeOfTrace(tr: seq<Event>, max: int)
    requires Legal(tr, max)
    ensures PhaseAfter(tr, max).RolledBack? <==> Abandons(tr)
    ensures PhaseAfter(tr, max).Refused? <==> SpendsBudget(tr, max)
  {
    BootsOfLegal(tr, max);
    hide Boots;
    if tr != [] {
      assert LegalAt(tr, 0, max) && LegalAt(tr, |tr| - 1, max);
    }
  }

  /** Which unpromoted outcome a run has, by its last allowed event. */
  lemma OutcomeIff(o: Txn, es: seq<Event>)
    requires Constructed(o)
    ensures var tr := Allowed(o, es);
            && (Run(o, es).phase.RolledBack? <==> Abandons(tr))
            && (Run(o, es).phase.Refused? <==> SpendsBudget(tr, o.maxAttempts))
  {
    hide Legal, PhaseAfter, Run, Allowed, Abandons, SpendsBudget;
    AllowedTracesAreLegal(o, es);
    OutcomeOfTrace(Allowed(o, es), o.maxAttempts);
  }

  /** A failed attempt never rolls a transaction back, whatever the budget; with a budget of
      one it is always refused, where the contract lists that policy under rolled-back. */
  lemma FailedAttemptsAreNotRolledBack(o: Txn, es: seq<Event>)
    requires Constructed(o) && Allowed(o, es) != [] && FailedVerdict(Allowed(o, es)[|Allowed(o, es)| - 1])
    ensures !Run(o, es).phase.RolledBack?
    ensures o.maxAttempts == 1 ==>
              Run(o, es).phase.Refused? && Run(o, es).rollbackReason == Some(ForAttemptsExhausted)
  {
    hide Run, Allowed, PhaseAfter, LogOf, Legal, LegalAt, Boots;
    OutcomeIff(o, es);
    OpenIffAllowed(o, es);
    AllowedTracesAreLegal(o, es);
    FailureBoots(Allowed(o, es), o.maxAttempts);
  }

  lemma FailureBoots(tr: seq<Event>, max: int)
    requires Legal(tr, max) && tr != [] && FailedVerdict(tr[|tr| - 1])
    ensures 1 <= Boots(tr) <= max
  {
    BootsOfLegal(tr, max);
    hide Boots;
    assert LegalAt(tr, |tr| - 1, max);
    assert LegalAt(tr, |tr| - 2, max);
  }

  /** From every start: the run up to the end of a first attempt. */
  lemma FirstVerdict(o: Txn, d: string, e: Event)
    requires Constructed(o) && (e.ProbePass? || e.ProbeFail? || e.WatchdogExpired? || e.OperatorAbort?)
    ensures var es := FirstBoot(d) + [e];
            Allowed(o, es) == es && |Run(o, es).attempts| == 1 && !Run(o, es).phase.Idle?
  {
    hide Run, Allowed, PhaseAfter;
    FirstBootIsAllowed(o, d);
    LegalSnoc(FirstBoot(d), e, o.maxAttempts);
    AfterTrace(o, FirstBoot(d) + [e]);
    OpenIffAllowed(o, FirstBoot(d) + [e]);
  }

  /** From every start with a budget of one: the document of a single failed probe. */
  lemma SingleAttemptIsRefused(o: Txn, d: string, why: string)
    requires Constructed(o) && o.maxAttempts == 1
    ensures var document := TransactionDocumentOf(Run(o, FirstBoot(d) + [ProbeFail(why)]));
            document.Some? && document.value.outcome.RefusedOutcome?
  {
    hide Run, Allowed;
    FirstVerdict(o, d, ProbeFail(why));
    FailedAttemptsAreNotRolledBack(o, FirstBoot(d) + [ProbeFail(why)]);
  }

  /** From every start with a budget of more than one: a watchdog that falls back at once has
      the transaction refused after one attempt, with tries recorded as 0 that the boot had
      left, and a fail verdict though no probe was run. */
  lemma ImmediateFallback(o: Txn, d: string, why: string)
    requires Constructed(o) && o.maxAttempts > 1
    ensures var s := Run(o, FirstBoot(d) + [WatchdogExpired(why, RebootToFallback)]);
            && s.phase.Refused? && |s.attempts| == 1
            && s.attempts[0].triesRemainingAfter == 0 < Run(o, FirstBoot(d)).trial.triesRemaining
            && s.trial.lastProbeVerdict == Some(Fail)
  {
    hide Run, Allowed, Shape, Counts, PhaseAfter;
    var es := FirstBoot(d) + [WatchdogExpired(why, RebootToFallback)];
    FirstVerdict(o, d, WatchdogExpired(why, RebootToFallback));
    OutcomeIff(o, es);
    LogShapeRun(o, es);
    assert AttemptShape(o, Run(o, es), 0);
    VerdictFollowsLog(o, es);
    assert es[..4] == FirstBoot(d);
    AroundBoot(o, es, 0);
  }

  /** And after a failed probe the slot is `written` though it has been booted. */
  lemma RetriedSlotIsWritten(o: Txn, d: string, why: string)
    requires Constructed(o) && o.maxAttempts > 1
    ensures var es := FirstBoot(d) + [ProbeFail(why)];
            Run(o, es).phase.Armed? && Run(o, es).trial.state.Written? && Boots(Allowed(o, es)) == 1
  {
    hide Run, Allowed;
    var es := FirstBoot(d) + [ProbeFail(why)];
    FirstVerdict(o, d, ProbeFail(why));
    AllowedTracesAreLegal(o, es);
    BootsOfLegal(es, o.maxAttempts);
    WrittenIsUnbootedIff(o, es);
  }

  lemma BudgetOfTrace(o: Txn, tr: seq<Event>, max: int)
    requires Legal(tr, max) && max >= 1 && tr != []
    ensures |tr| <= 3 + 2 * max && (|LogOf(o, tr)| < max <==> |tr| < 3 + 2 * max)
    ensures Abandons(tr) && |tr| == 3 + 2 * max ==> tr[|tr| - 1].OperatorAbort?
    ensures FailedVerdict(tr[|tr| - 1]) ==> Boots(tr) == |LogOf(o, tr)|
  {
    LogLength(o, tr, max);
    BootsOfLegal(tr, max);
    LegalIsBounded(tr, max);
    assert LegalAt(tr, |tr| - 1, max);
  }

  /** rolled-back is described as abandoned before the budget was spent, and refused as the
      budget spent. The exceptions: aborting the last attempt is rolled back with every
      attempt made, and a watchdog that falls back at once refuses with attempts to spare. */
  lemma OutcomeAndBudget(o: Txn, es: seq<Event>)
    requires Constructed(o)
    ensures var tr, s := Allowed(o, es), Run(o, es);
            && (s.phase.RolledBack? ==> (|s.attempts| < o.maxAttempts <==> |tr| < 3 + 2 * o.maxAttempts))
            && (s.phase.Refused? ==> s.attempts != [])
            && ((s.phase.RolledBack? ==> |s.attempts| < o.maxAttempts) <==>
                !(tr != [] && tr[|tr| - 1].OperatorAbort? && |tr| == 3 + 2 * o.maxAttempts))
            && ((s.phase.Refused? ==> |s.attempts| == o.maxAttempts) <==>
                !(tr != [] && FallsBackAtOnce(tr[|tr| - 1]) && |tr| < 3 + 2 * o.maxAttempts))
  {
    hide Legal, LegalAt, PhaseAfter, Run, Allowed, LogOf, ReasonAfter, Boots;
    var tr := Allowed(o, es);
    OutcomeIff(o, es);
    AllowedTracesAreLegal(o, es);
    ShapeRun(o, es);
    if tr != [] {
      BudgetOfTrace(o, tr, o.maxAttempts);
    }
  }

  /** From every start: failing all attempts but the last and aborting that one is rolled back
      with the budget spent. */
  lemma LastAttemptAborted(o: Txn, d: string, why: string)
    requires Constructed(o)
    ensures var s := Run(o, Failing(d, o.maxAttempts - 1) + [BootAttempt] + [OperatorAbort(why)]);
            s.phase.RolledBack? && |s.attempts| == o.maxAttempts
  {
    hide Run, Allowed, Legal, PhaseAfter, Failing;
    var failing := Failing(d, o.maxAttempts - 1);
    FailingIsLegal(d, o.maxAttempts - 1, o.maxAttempts);
    LegalSnoc(failing, BootAttempt, o.maxAttempts);
    LegalSnoc(failing + [BootAttempt], OperatorAbort(why), o.maxAttempts);
    var es := failing + [BootAttempt] + [OperatorAbort(why)];
    AfterTrace(o, es);
    OutcomeIff(o, es);
  }

  /** Four of the six reasons are ever given, each for its own kind of last event; a failed
      probe and an expired watchdog are never given as reasons. */
  lemma ReasonsGiven(o: Txn, es: seq<Event>)
    requires Constructed(o)
    ensures var tr, reason := Allowed(o, es), Run(o, es).rollbackReason;
            && reason != Some(ForProbeFailed) && reason != Some(ForWatchdogExpired)
            && (reason == Some(ForAttemptsExhausted) <==> SpendsBudget(tr, o.maxAttempts))
            && (reason == Some(ForWriteFailed) <==> tr != [] && tr[|tr| - 1].WriteFailed?)
            && (reason == Some(ForOperatorAbort) <==> tr != [] && tr[|tr| - 1].OperatorAbort?)
            && (reason == Some(ForDigestMismatch) <==> Abandons(tr) && tr[|tr| - 1].WriteComplete?)
  {
    OutcomeIff(o, es);
    AllowedTracesAreLegal(o, es);
  }

  /** `preservedPayloadDigest` is described as still matching the active slot after settling.
      It matches the fallback throughout, and the active slot unless the allowed events
      promote another payload. */
  lemma PreservedMatchesActiveIff(o: Txn, es: seq<Event>)
    requires Constructed(o) && SafeStart(o) && Terminal(Run(o, es).phase)
    ensures Allowed(o, es) != [] && Allowed(o, es)[0].Begin?
    ensures var tr, s := Allowed(o, es), Run(o, es);
            && s.fallback.payloadDigest == Some(s.preserved)
            && (SettledOn(s).payloadDigest == Some(s.preserved) <==>
                !(IsPromotion(tr, o.maxAttempts) && Some(tr[0].payloadDigest) != o.fallback.payloadDigest))
  {
    hide Legal, PhaseAfter, LogOf, ReasonAfter, IsPromotion;
    OpenIffAllowed(o, es);
    LinkedRun(o, es);
    PromotedIff(o, es);
    ShapeRun(o, es);
  }

  /** From every safe start: promoting any other payload leaves the active slot with that. */
  lemma PromotionLeavesPreserved(o: Txn, d: string)
    requires Constructed(o) && SafeStart(o) && o.fallback.payloadDigest != Some(d)
    ensures var s := Run(o, FirstBoot(d) + [ProbePass(None)]);
            s.phase.Promoted? && SettledOn(s).payloadDigest == Some(d) != Some(s.preserved)
  {
    hide Run, Allowed, LogOf, ReasonAfter;
    var es := FirstBoot(d) + [ProbePass(None)];
    FirstVerdict(o, d, ProbePass(None));
    AllowedTracesAreLegal(o, es);
    ShapeRun(o, es);
  }

  // ── the trial slot ────────────────────────────────────────────────────────────

  /** `written` is described as not yet booted. The exception is a slot whose last attempt
      failed with attempts to spare. */
  lemma WrittenIsUnbootedIff(o: Txn, es: seq<Event>)
    requires Constructed(o) && !Run(o, es).phase.Idle?
    ensures var tr, s := Allowed(o, es), Run(o, es);
            && (s.trial.state.Written? <==> s.phase.CandidateReady? || s.phase.Armed?)
            && ((s.trial.state.Written? ==> Boots(tr) == 0) <==>
                !(tr != [] && Retries(tr[|tr| - 1]) && Boots(tr) < o.maxAttempts))
  {
    hide Run, Allowed, LogOf, ReasonAfter, Boots;
    ShapeRun(o, es);
    LinkedRun(o, es);
    var tr := Allowed(o, es);
    BootsOfLegal(tr, o.maxAttempts);
    if tr != [] {
      assert LegalAt(tr, |tr| - 1, o.maxAttempts);
    }
  }

  /** The digest found in the trial slot when the write ended, if it ended. */
  function Observed(tr: seq<Event>): Option<string> {
    if |tr| >= 2 && tr[1].WriteComplete? then Some(tr[1].observedDigest) else None
  }

  /** The trial slot's payload digest is that of the begin from the begin on. It is described
      as the digest of the payload installed. It is, once the write was observed to end with
      that digest: not before the second allowed event, and after the second only if that is a
      matching write. */
  lemma RecordedDigestIsObservedIff(o: Txn, es: seq<Event>)
    requires Constructed(o) && Allowed(o, es) != []
    ensures Allowed(o, es)[0].Begin?
    ensures var tr, s := Allowed(o, es), Run(o, es);
            && s.trial.payloadDigest == Some(tr[0].payloadDigest)
            && (s.trial.payloadDigest == Observed(tr) <==>
                |tr| >= 3 || (|tr| == 2 && tr[1] == WriteComplete(tr[0].payloadDigest)))
            && (s.trial.payloadDigest == Observed(tr) <==>
                !s.phase.Writing? && (s.phase.RolledBack? ==> |tr| >= 3))
  {
    hide Run, Allowed, LogOf, ReasonAfter;
    var tr := Allowed(o, es);
    ShapeRun(o, es);
    LinkedRun(o, es);
    OpenIffAllowed(o, es);
    OutcomeIff(o, es);
    if |tr| >= 3 {
      assert LegalAt(tr, 2, o.maxAttempts);
      LegalFromArm(tr, o.maxAttempts);
    } else if |tr| == 2 {
      assert LegalAt(tr, 1, o.maxAttempts);
    }
  }

  lemma LegalFromArm(tr: seq<Event>, max: int)
    requires Legal(tr, max) && |tr| >= 3
    ensures tr[0].Begin? && tr[1] == WriteComplete(tr[0].payloadDigest) && !PhaseAfter(tr, max).Writing?
  {
    assert LegalAt(tr, 2, max);
  }

  /** From every start: a write that ended with other contents is rolled back, and the slot
      still carries the digest of the payload it does not hold. */
  lemma MismatchKeepsDigest(o: Txn, d: string, found: string)
    requires Constructed(o) && d != found
    ensures var s := Run(o, [Begin(d, None, None), WriteComplete(found)]);
            && s.phase.RolledBack? && s.rollbackReason == Some(ForDigestMismatch)
            && s.trial.payloadDigest == Some(d)
  {
    hide Run, Allowed, LogOf;
    var es := [Begin(d, None, None), WriteComplete(found)];
    AfterTrace(o, es);
    AllowedTracesAreLegal(o, es);
    RecordedDigestIsObservedIff(o, es);
  }

  /** `unbootable` is described as never chosen by the selector again. A slot left unbootable
      stays out of its choice until the next transaction is armed, and no longer. */
  lemma {:induction false} UnbootableUntilArmed(o: Txn, es: seq<Event>)
    requires Constructed(o) && o.trial.state.Unbootable? && o.trial.bootPriority == 0
    ensures (exists n :: 0 <= n <= |es| && Bootable(Run(o, es[..n]).trial)) <==>
            exists e :: e in Allowed(o, es) && e.Arm?
  {
    hide Run, Bootable;
    BootableTrial(o, es);
    assert es[..|es|] == es;
    if es != [] {
      var init := es[..|es| - 1];
      UnbootableUntilArmed(o, init);
      assert forall n :: 0 <= n <= |init| ==> init[..n] == es[..n];
    }
  }

  lemma BootableTrial(o: Txn, es: seq<Event>)
    requires Constructed(o) && o.trial.bootPriority == 0
    ensures Bootable(Run(o, es).trial) ==> exists e :: e in Allowed(o, es) && e.Arm?
    ensures Allowed(o, es) != [] && Allowed(o, es)[|Allowed(o, es)| - 1].Arm? ==> Bootable(Run(o, es).trial)
  {
    hide Run, Allowed, LogOf, ReasonAfter, Boots;
    var tr := Allowed(o, es);
    ShapeRun(o, es);
    LinkedRun(o, es);
    if tr != [] && tr[|tr| - 1].Arm? {
      assert LegalAt(tr, |tr| - 1, o.maxAttempts);
    }
    if Bootable(Run(o, es).trial) {
      ArmedBefore(tr, o.maxAttempts);
    }
  }

  lemma ArmedBefore(tr: seq<Event>, max: int)
    requires Legal(tr, max)
    requires var p := PhaseAfter(tr, max); p.Armed? || p.Trying? || p.Promoted?
    ensures |tr| >= 3 && tr[2].Arm? && tr[2] in tr
  {
    assert LegalAt(tr, |tr| - 1, max);
    if |tr| > 3 {
      assert LegalAt(tr, 3, max);
    }
  }

  predicate Fails(a: Attempt) {
    a.result.FailedProbe? || a.result.FailedWatchdog?
  }

  lemma FailsUnlessAborted(o: Txn, s: Txn)
    requires LogShape(o, s) && s.attempts != [] && !s.phase.Promoted?
    ensures Fails(s.attempts[0]) || (|s.attempts| == 1 && s.attempts[0].result.Aborted?)
    ensures s.attempts[0].result.Aborted? ==> |s.attempts| == 1 && s.phase.RolledBack?
  {
    assert AttemptShape(o, s, 0);
  }

  lemma VerdictOfShape(o: Txn, s: Txn)
    requires SlotShape(o, s) && !s.phase.Idle?
    ensures s.trial.lastProbeVerdict ==
            if s.phase.Promoted? then Some(Pass)
            else if s.phase.Writing? || s.phase.CandidateReady? then None
            else if s.phase.Armed? || s.phase.Trying? then Retried(s)
            else GivenUpVerdict(s.attempts)
  {
  }

  /** `lastProbeVerdict` is described as the verdict of a health probe. After a begin it says
      pass exactly in promoted, and fail exactly when some attempt failed, be it by a probe or
      by a watchdog before any probe was run. */
  lemma VerdictFollowsLog(o: Txn, es: seq<Event>)
    requires Constructed(o) && !Run(o, es).phase.Idle?
    ensures var s := Run(o, es);
            && (s.trial.lastProbeVerdict == Some(Pass) <==> s.phase.Promoted?)
            && (s.trial.lastProbeVerdict == Some(Fail) <==>
                !s.phase.Promoted? && exists i :: 0 <= i < |s.attempts| && Fails(s.attempts[i]))
  {
    hide Run, SlotShape, AttemptShape;
    var s := Run(o, es);
    ShapeRun(o, es);
    LogShapeRun(o, es);
    VerdictOfShape(o, s);
    if s.attempts != [] && !s.phase.Promoted? {
      FailsUnlessAborted(o, s);
    }
  }
  /** The verdict of the last attempt that ended by a probe. */
  function LastProbe(log: seq<Attempt>): Option<Verdict> {
    if log == [] then None
    else
      match log[|log| - 1].result
      case Passed => Some(Pass)
      case FailedProbe => Some(Fail)
      case _ => LastProbe(log[..|log| - 1])
  }

  ghost predicate Logs(log: seq<Attempt>, result: AttemptResult) {
    exists i :: 0 <= i < |log| && log[i].result == result
  }

  lemma {:induction false} LastProbeUnpassed(log: seq<Attempt>)
    requires !Logs(log, Passed)
    ensures LastProbe(log) == if Logs(log, FailedProbe) then Some(Fail) else None
  {
    if log != [] {
      var init := log[..|log| - 1];
      assert forall i :: 0 <= i < |init| ==> init[i] == log[i];
      LastProbeUnpassed(init);
    }
  }

  /** `lastProbeVerdict` is the verdict of the last probe run, unless some attempt ended by a
      watchdog, none by a failed probe, and none passed. */
  lemma VerdictOfLog(o: Txn, es: seq<Event>)
    requires Constructed(o) && !Run(o, es).phase.Idle?
    ensures var s := Run(o, es);
            s.trial.lastProbeVerdict == LastProbe(s.attempts) <==>
            s.phase.Promoted? || !Logs(s.attempts, FailedWatchdog) || Logs(s.attempts, FailedProbe)
  {
    hide Run;
    var s := Run(o, es);
    VerdictFollowsLog(o, es);
    LogShapeRun(o, es);
    ShapeRun(o, es);
    var n := |s.attempts|;
    if s.phase.Promoted? {
      assert AttemptShape(o, s, n - 1);
    } else {
      assert forall i :: 0 <= i < n ==> AttemptShape(o, s, i) && !s.attempts[i].result.Passed?;
      LastProbeUnpassed(s.attempts);
    }
  }

  /** Each entry's result names the event that ended the attempt. */
  lemma ResultNamesEvent(o: Txn, tr: seq<Event>, max: int, i: nat)
    requires Legal(tr, max) && 4 + 2 * i < |tr|
    ensures i < |LogOf(o, tr)|
    ensures LogOf(o, tr)[i].result.FailedProbe? <==> tr[4 + 2 * i].ProbeFail?
    ensures LogOf(o, tr)[i].result.FailedWatchdog? <==> tr[4 + 2 * i].WatchdogExpired?
  {
    hide LogOf, Boots;
    LogAt(o, tr, max, i);
    EndsAttempt(tr, max, i);
    assert tr[..5 + 2 * i][4 + 2 * i] == tr[4 + 2 * i];
  }

  lemma LogNamesEvents(o: Txn, tr: seq<Event>, max: int)
    requires Legal(tr, max)
    ensures Logs(LogOf(o, tr), FailedProbe) <==> exists e :: e in tr && e.ProbeFail?
    ensures Logs(LogOf(o, tr), FailedWatchdog) <==> exists e :: e in tr && e.WatchdogExpired?
  {
    hide LogOf;
    var log := LogOf(o, tr);
    LogLength(o, tr, max);
    forall i | 0 <= i < |log|
      ensures log[i].result.FailedProbe? <==> tr[4 + 2 * i].ProbeFail?
      ensures log[i].result.FailedWatchdog? <==> tr[4 + 2 * i].WatchdogExpired?
    {
      ResultNamesEvent(o, tr, max, i);
    }
    forall j | 0 <= j < |tr| && FailedVerdict(tr[j])
      ensures 0 <= (j - 4) / 2 < |log| && 4 + 2 * ((j - 4) / 2) == j
    {
      assert LegalAt(tr, j, max);
    }
    forall e | e in tr && FailedVerdict(e)
      ensures if e.ProbeFail? then Logs(log, FailedProbe) else Logs(log, FailedWatchdog)
    {
      var j :| 0 <= j < |tr| && tr[j] == e;
      var i := (j - 4) / 2;
      assert log[i].result == if e.ProbeFail? then FailedProbe else FailedWatchdog;
    }
  }

  /** `lastProbeVerdict` is described as the verdict of the most recent probe run, null before
      the first. For the payload begun it is, unless a watchdog expired on trial, no probe
      failed, and the events do not promote. */
  lemma VerdictIsLastProbeIff(o: Txn, es: seq<Event>)
    requires Constructed(o) && Allowed(o, es) != []
    ensures var tr, s := Allowed(o, es), Run(o, es);
            s.trial.lastProbeVerdict == LastProbe(s.attempts) <==>
            !(&& (exists e :: e in tr && e.WatchdogExpired?)
              && !(exists e :: e in tr && e.ProbeFail?)
              && !IsPromotion(tr, o.maxAttempts))
  {
    hide Run, Allowed, Legal, PhaseAfter, LogOf, ReasonAfter, IsPromotion, Logs;
    OpenIffAllowed(o, es);
    AllowedTracesAreLegal(o, es);
    VerdictOfLog(o, es);
    LogNamesEvents(o, Allowed(o, es), o.maxAttempts);
    PromotedIff(o, es);
  }
}

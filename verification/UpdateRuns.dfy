/** Every run of one transaction: the shape of each reachable state, and the exact
    language of the event sequences the machine allows. */
module UpdateRuns {
  import opened Options
  import opened Slots
  import opened UpdateSpec

  // ── the shape of reachable states ─────────────────────────────────────────────

  /** The trial slot once `begin` has loaded a candidate payload into it. */
  ghost function Loaded(o: Txn, s: Txn): SlotState {
    o.trial.(successful := false, payloadDigest := Some(s.candidate), payloadRef := s.trial.payloadRef,
             version := s.trial.version, lastProbeVerdict := None)
  }

  ghost function Retried(s: Txn): Option<Verdict> {
    if s.attempts == [] then None else Some(Fail)
  }

  /** The verdict left on a candidate that is given up: an abort on the first attempt, or
      before it, leaves none. */
  ghost function GivenUpVerdict(attempts: seq<Attempt>): Option<Verdict> {
    if |attempts| == 0 || (|attempts| == 1 && attempts[0].result.Aborted?) then None else Some(Fail)
  }

  /** How the two slot records of a state reached from `o` differ from those of `o`. */
  ghost predicate SlotShape(o: Txn, s: Txn) {
    var n := |s.attempts|;
    match s.phase
    case Idle => s == o
    case Writing => s.fallback == o.fallback && s.trial == Loaded(o, s).(state := Condition.Writing)
    case CandidateReady => s.fallback == o.fallback && s.trial == Loaded(o, s).(state := Written)
    case Armed =>
      && s.fallback == o.fallback.(bootPriority := 14, currentlyRunning := n > 0 || o.fallback.currentlyRunning)
      && s.trial == Loaded(o, s).(state := Written, bootPriority := 15, triesRemaining := o.maxAttempts - n,
                                  currentlyRunning := n == 0 && o.trial.currentlyRunning,
                                  lastProbeVerdict := Retried(s))
    case Trying =>
      && s.fallback == o.fallback.(bootPriority := 14, currentlyRunning := false)
      && s.trial == Loaded(o, s).(state := Condition.Trying, bootPriority := 15,
                                  triesRemaining := o.maxAttempts - n - 1, currentlyRunning := true,
                                  lastProbeVerdict := Retried(s))
    case Promoted =>
      && s.fallback == o.fallback.(role := Candidate, bootPriority := 14, currentlyRunning := false)
      && s.trial == Loaded(o, s).(role := Active, state := Good, successful := true, bootPriority := 15,
                                  triesRemaining := 0, currentlyRunning := true, lastProbeVerdict := Some(Pass))
    case _ =>
      && s.fallback == o.fallback.(bootPriority := 15, currentlyRunning := true)
      && s.trial == Loaded(o, s).(state := Unbootable, bootPriority := 0, triesRemaining := 0,
                                  currentlyRunning :=
                                    n == 0 && o.trial.currentlyRunning && o.fallback.currentlyRunning,
                                  lastProbeVerdict := GivenUpVerdict(s.attempts))
  }

  /** How the transaction's own fields stand in a state reached from `o`. */
  ghost predicate FieldShape(o: Txn, s: Txn) {
    var n := |s.attempts|;
    && s.maxAttempts == o.maxAttempts
    && (!s.phase.Idle? ==> s.preserved == o.fallback.payloadDigest.GetOr("") && s.openedAt == Some(o.now))
    && (s.phase.Idle? || s.phase.Writing? || s.phase.CandidateReady? ==> n == 0)
    && (s.phase.Armed? || s.phase.Trying? ==> n < o.maxAttempts)
    && (s.phase.Promoted? || s.phase.Refused? ==> n >= 1)
    && n <= o.maxAttempts
    && s.now == o.now + (if s.phase.Idle? then 0 else 1) + n + (if Terminal(s.phase) then 1 else 0)
    && s.settledAt == (if Terminal(s.phase) then Some((s.now - 1) as nat) else None)
    && (s.rollbackReason.Some? <==> s.phase.Refused? || s.phase.RolledBack?)
    && (s.phase.Armed? || s.phase.Trying? ==> forall i :: 0 <= i < n ==> !s.attempts[i].result.Aborted?)
  }

  ghost predicate Shape(o: Txn, s: Txn) {
    SlotShape(o, s) && FieldShape(o, s)
  }

  /** The budget account of a state: while the candidate is on trial, the attempts logged,
      the one in progress and the tries left always add up to the whole budget. */
  ghost predicate Counts(o: Txn, s: Txn) {
    var n := |s.attempts|;
    && s.maxAttempts == o.maxAttempts && s.fallback.slot == o.fallback.slot && n <= o.maxAttempts
    && (s.phase.Armed? ==> n + s.trial.triesRemaining == o.maxAttempts && s.trial.triesRemaining > 0)
    && (s.phase.Trying? ==> n + 1 + s.trial.triesRemaining == o.maxAttempts && s.trial.triesRemaining >= 0)
    && (!s.phase.Idle? && !Terminal(s.phase) ==> s.now == o.now + 1 + n)
    && (s.phase.Writing? || s.phase.CandidateReady? ==> n == 0)
    && (!Terminal(s.phase) ==> s.rollbackReason == None)
  }

  lemma ShapeStepWriting(o: Txn, s: Txn, e: Event)
    requires Constructed(o) && Shape(o, s) && (s.phase.Idle? || s.phase.Writing?)
    ensures Shape(o, Step(s, e))
  {
  }

  lemma ShapeStepArmed(o: Txn, s: Txn, e: Event)
    requires Constructed(o) && Shape(o, s) && (s.phase.CandidateReady? || s.phase.Armed?)
    ensures Shape(o, Step(s, e))
  {
  }

  lemma FieldStepTrying(o: Txn, s: Txn, e: Event)
    requires Counts(o, s) && FieldShape(o, s) && s.phase.Trying?
    ensures FieldShape(o, Step(s, e))
  {
  }

  lemma SlotStepTrying(o: Txn, s: Txn, e: Event)
    requires Constructed(o) && Shape(o, s) && s.phase.Trying?
    ensures SlotShape(o, Step(s, e))
  {
  }

  lemma ShapeStep(o: Txn, s: Txn, e: Event)
    requires Constructed(o) && Shape(o, s)
    ensures Shape(o, Step(s, e))
  {
    if s.phase.Trying? {
      FieldStepTrying(o, s, e);
      SlotStepTrying(o, s, e);
    } else if s.phase.Idle? || s.phase.Writing? {
      ShapeStepWriting(o, s, e);
    } else if !Terminal(s.phase) {
      ShapeStepArmed(o, s, e);
    }
  }

  lemma {:induction false} ShapeRun(o: Txn, es: seq<Event>)
    requires Constructed(o)
    ensures Shape(o, Run(o, es))
  {
    if es != [] {
      ShapeRun(o, es[..|es| - 1]);
      ShapeStep(o, Run(o, es[..|es| - 1]), es[|es| - 1]);
    }
  }

  lemma CountsRun(o: Txn, es: seq<Event>)
    requires Constructed(o)
    ensures Counts(o, Run(o, es))
  {
    ShapeRun(o, es);
  }

  // ── the language of allowed traces ────────────────────────────────────────────

  predicate Retries(e: Event) {
    e.ProbeFail? || (e.WatchdogExpired? && e.action.Reboot?)
  }

  /** Whether the event at position `i` may follow the ones before it, with `max` attempts
      in all. Positions 0, 1, 2 are begin, the end of the write, and arming; from 3 on, odd
      positions are boots and even ones their verdicts. */
  predicate LegalAt(tr: seq<Event>, i: nat, max: int)
    requires i < |tr|
  {
    var e := tr[i];
    if i == 0 then e.Begin?
    else if i == 1 then tr[0].Begin? && (e.WriteComplete? || e.WriteFailed? || e.OperatorAbort?)
    else if i == 2 then
      && tr[0].Begin? && tr[1] == WriteComplete(tr[0].payloadDigest)
      && (e.Arm? || e.OperatorAbort?)
    else if i % 2 == 1 then
      && (i - 3) / 2 < max
      && (if i == 3 then tr[2].Arm? else Retries(tr[i - 1]))
      && (e.BootAttempt? || e.OperatorAbort?)
    else
      && tr[i - 1].BootAttempt?
      && (e.ProbePass? || e.ProbeFail? || e.WatchdogExpired? || e.OperatorAbort?)
  }

  ghost predicate Legal(tr: seq<Event>, max: int) {
    forall i :: 0 <= i < |tr| ==> LegalAt(tr, i, max)
  }

  /** The phase a legal trace ends in, read off its length and last event. */
  function PhaseAfter(tr: seq<Event>, max: int): Phase {
    var n := |tr|;
    if n == 0 then Idle
    else if n == 1 then Phase.Writing
    else
      match tr[n - 1]
      case WriteComplete(d) =>
        if tr[0].Begin? && d == tr[0].payloadDigest then CandidateReady else RolledBack
      case Arm => Armed
      case BootAttempt => Phase.Trying
      case ProbePass(_) => Promoted
      case ProbeFail(_) => if (n - 3) / 2 == max then Refused else Armed
      case WatchdogExpired(_, a) => if a.RebootToFallback? || (n - 3) / 2 == max then Refused else Armed
      case _ => RolledBack
  }

  /** Why a legal trace ended without promotion, read off its last event. */
  function ReasonAfter(tr: seq<Event>, max: int): Option<Reason> {
    if tr == [] then None
    else
      match tr[|tr| - 1]
      case WriteComplete(_) => if PhaseAfter(tr, max).RolledBack? then Some(ForDigestMismatch) else None
      case WriteFailed(_) => Some(ForWriteFailed)
      case OperatorAbort(_) => Some(ForOperatorAbort)
      case _ => if PhaseAfter(tr, max).Refused? then Some(ForAttemptsExhausted) else None
  }

  function Boots(tr: seq<Event>): nat {
    if tr == [] then 0
    else Boots(tr[..|tr| - 1]) + if tr[|tr| - 1].BootAttempt? then 1 else 0
  }

  /** The attempt that the last event of `tr` ends, the event before it being a boot. */
  function Entry(o: Txn, tr: seq<Event>): Attempt
    requires tr != []
  {
    var k := Boots(tr);
    match tr[|tr| - 1]
    case ProbePass(note) => Attempt(k, o.now + k, Passed, None, o.maxAttempts - k, note)
    case ProbeFail(why) => Attempt(k, o.now + k, FailedProbe, Some(o.fallback.slot), o.maxAttempts - k, Some(why))
    case WatchdogExpired(why, a) =>
      Attempt(k, o.now + k, FailedWatchdog, Some(o.fallback.slot),
              if a.RebootToFallback? then 0 else o.maxAttempts - k, Some(why))
    case OperatorAbort(why) => Attempt(k, o.now + k, Aborted, Some(o.fallback.slot), o.maxAttempts - k, Some(why))
    case _ => Attempt(k, o.now + k, FailedWrite, None, 0, None)
  }

  /** The attempt log an allowed trace calls for: one entry for each boot that was followed
      by anything, in order. */
  function LogOf(o: Txn, tr: seq<Event>): seq<Attempt> {
    if |tr| < 2 then []
    else LogOf(o, tr[..|tr| - 1]) + if tr[|tr| - 2].BootAttempt? then [Entry(o, tr)] else []
  }

  /** What ties a reachable state to the trace of events that were allowed on the way. */
  ghost predicate Linked(o: Txn, tr: seq<Event>, s: Txn) {
    && Legal(tr, o.maxAttempts)
    && s.phase == PhaseAfter(tr, o.maxAttempts)
    && s.attempts == LogOf(o, tr)
    && Boots(tr) == |s.attempts| + (if s.phase.Trying? then 1 else 0)
    && (tr != [] ==>
          && tr[0].Begin? && s.candidate == tr[0].payloadDigest
          && s.trial.payloadRef == tr[0].payloadRef && s.trial.version == tr[0].version)
    && s.rollbackReason == ReasonAfter(tr, o.maxAttempts)
    && (s.phase.Armed? ==> |tr| == 3 + 2 * |s.attempts|)
    && (s.phase.Trying? ==> |tr| == 4 + 2 * |s.attempts|)
    && (s.phase.Promoted? ==> |tr| == 3 + 2 * |s.attempts|)
    && (s.phase.CandidateReady? ==> |tr| == 2)
  }

  lemma LegalSnoc(tr: seq<Event>, e: Event, max: int)
    ensures Legal(tr + [e], max) <==> Legal(tr, max) && LegalAt(tr + [e], |tr|, max)
  {
    var tr' := tr + [e];
    forall i | 0 <= i < |tr| ensures LegalAt(tr, i, max) == LegalAt(tr', i, max) {
    }
  }

  /** The machine admits exactly the events that keep the trace legal. */
  lemma AdmitsLegal(o: Txn, tr: seq<Event>, s: Txn, e: Event)
    requires Constructed(o) && Counts(o, s) && Linked(o, tr, s)
    ensures Admits(s, e) <==> LegalAt(tr + [e], |tr|, o.maxAttempts)
  {
    var n := |tr|;
    if n >= 1 {
      assert LegalAt(tr, n - 1, o.maxAttempts);
    }
  }

  lemma Snoc(o: Txn, tr: seq<Event>, e: Event)
    ensures Boots(tr + [e]) == Boots(tr) + if e.BootAttempt? then 1 else 0
    ensures LogOf(o, tr + [e]) ==
            LogOf(o, tr) + if tr != [] && tr[|tr| - 1].BootAttempt? then [Entry(o, tr + [e])] else []
  {
    assert (tr + [e])[..|tr|] == tr;
  }

  lemma PhaseStep(o: Txn, tr: seq<Event>, s: Txn, e: Event)
    requires Constructed(o) && Counts(o, s) && Linked(o, tr, s) && Admits(s, e)
    ensures Step(s, e).phase == PhaseAfter(tr + [e], o.maxAttempts)
  {
  }

  lemma ReasonStep(o: Txn, tr: seq<Event>, s: Txn, e: Event)
    requires Counts(o, s) && Admits(s, e) && Step(s, e).phase == PhaseAfter(tr + [e], o.maxAttempts)
    ensures Step(s, e).rollbackReason == ReasonAfter(tr + [e], o.maxAttempts)
  {
    hide PhaseAfter;
  }

  /** An attempt is logged exactly when the last allowed event was a boot. */
  lemma BootedIsTrying(o: Txn, tr: seq<Event>, s: Txn)
    requires Linked(o, tr, s)
    ensures s.phase.Trying? <==> tr != [] && tr[|tr| - 1].BootAttempt?
  {
  }

  lemma LogStep(o: Txn, tr: seq<Event>, s: Txn, e: Event)
    requires Constructed(o) && Counts(o, s) && Linked(o, tr, s) && Admits(s, e)
    ensures Step(s, e).attempts == LogOf(o, tr + [e])
    ensures Boots(tr + [e]) == |Step(s, e).attempts| + (if Step(s, e).phase.Trying? then 1 else 0)
  {
    hide Legal, PhaseAfter, LogOf, Boots;
    Snoc(o, tr, e);
    BootedIsTrying(o, tr, s);
  }

  lemma LinkedStep(o: Txn, tr: seq<Event>, s: Txn, e: Event)
    requires Constructed(o) && Counts(o, s) && Linked(o, tr, s) && Admits(s, e)
    ensures Linked(o, tr + [e], Step(s, e))
  {
    AdmitsLegal(o, tr, s, e);
    LegalSnoc(tr, e, o.maxAttempts);
    PhaseStep(o, tr, s, e);
    LogStep(o, tr, s, e);
    ReasonStep(o, tr, s, e);
  }

  lemma {:induction false} LinkedRun(o: Txn, es: seq<Event>)
    requires Constructed(o)
    ensures Linked(o, Allowed(o, es), Run(o, es))
  {
    if es != [] {
      var init, e := es[..|es| - 1], es[|es| - 1];
      LinkedRun(o, init);
      CountsRun(o, init);
      if Admits(Run(o, init), e) {
        LinkedStep(o, Allowed(o, init), Run(o, init), e);
      } else {
        assert Allowed(o, es) == Allowed(o, init);
      }
    }
  }

  // ── main results on traces ────────────────────────────────────────────────────

  /** Whatever is offered, what is allowed is a legal trace, and it decides the phase, the
      rollback reason, what was loaded into the trial slot and the whole attempt log. */
  lemma AllowedTracesAreLegal(o: Txn, es: seq<Event>)
    requires Constructed(o)
    ensures Legal(Allowed(o, es), o.maxAttempts)
    ensures Run(o, es).phase == PhaseAfter(Allowed(o, es), o.maxAttempts)
    ensures Run(o, es).rollbackReason == ReasonAfter(Allowed(o, es), o.maxAttempts)
    ensures Run(o, es).attempts == LogOf(o, Allowed(o, es))
    ensures var tr, s := Allowed(o, es), Run(o, es);
            tr != [] ==> tr[0] == Begin(s.candidate, s.trial.payloadRef, s.trial.version)
  {
    LinkedRun(o, es);
  }

  /** And every legal trace is allowed, event by event: the language is exact. */
  lemma {:induction false} LegalTracesAreAllowed(o: Txn, tr: seq<Event>)
    requires Constructed(o) && Legal(tr, o.maxAttempts)
    ensures Allowed(o, tr) == tr
  {
    if tr != [] {
      var init, e := tr[..|tr| - 1], tr[|tr| - 1];
      assert tr == init + [e];
      LegalSnoc(init, e, o.maxAttempts);
      LegalTracesAreAllowed(o, init);
      LinkedRun(o, init);
      CountsRun(o, init);
      AdmitsLegal(o, init, Run(o, init), e);
    }
  }

  /** Refused events leave no trace at all: a run ends where its allowed part alone ends. */
  lemma {:induction false} RefusedEventsVanish(o: Txn, es: seq<Event>)
    ensures Run(o, es) == Run(o, Allowed(o, es)) && Allowed(o, Allowed(o, es)) == Allowed(o, es)
  {
    if es != [] {
      var init, e := es[..|es| - 1], es[|es| - 1];
      RefusedEventsVanish(o, init);
      var tr := Allowed(o, init);
      if Admits(Run(o, init), e) {
        assert Allowed(o, es) == tr + [e] && (tr + [e])[..|tr|] == tr;
      } else {
        assert Allowed(o, es) == tr;
      }
    }
  }

  lemma LegalIsBounded(tr: seq<Event>, max: int)
    requires Legal(tr, max) && max >= 1
    ensures |tr| <= 3 + 2 * max
    ensures |tr| == 3 + 2 * max ==> Terminal(PhaseAfter(tr, max))
  {
    assert |tr| > 3 + 2 * max ==> !LegalAt(tr, 3 + 2 * max, max);
    assert |tr| == 3 + 2 * max ==> LegalAt(tr, 2 + 2 * max, max);
  }

  /** No run admits more than 3 + 2 * maxAttempts events, and the bound is reached only in
      a terminal phase. */
  lemma TracesAreBounded(o: Txn, es: seq<Event>)
    requires Constructed(o)
    ensures |Allowed(o, es)| <= 3 + 2 * o.maxAttempts
    ensures |Allowed(o, es)| == 3 + 2 * o.maxAttempts ==> Terminal(Run(o, es).phase)
  {
    hide Run, Allowed, PhaseAfter;
    AllowedTracesAreLegal(o, es);
    LegalIsBounded(Allowed(o, es), o.maxAttempts);
  }

  /** A run that fails its first `k` attempts. */
  function Failing(d: string, k: nat): seq<Event> {
    if k == 0 then [Begin(d, None, None), WriteComplete(d), Arm]
    else Failing(d, k - 1) + [BootAttempt, ProbeFail("")]
  }

  lemma {:induction false} FailingIsLegal(d: string, k: nat, max: int)
    requires k <= max
    ensures |Failing(d, k)| == 3 + 2 * k && Legal(Failing(d, k), max)
    ensures var tr := Failing(d, k); if k == 0 then tr[|tr| - 1].Arm? else Retries(tr[|tr| - 1])
  {
    if k > 0 {
      FailingIsLegal(d, k - 1, max);
      var tr := Failing(d, k - 1);
      LegalSnoc(tr, BootAttempt, max);
      LegalSnoc(tr + [BootAttempt], ProbeFail(""), max);
      assert tr + [BootAttempt] + [ProbeFail("")] == Failing(d, k);
    }
  }

  /** The bound is reached for every budget: by failing every attempt. */
  lemma BoundIsReached(o: Txn, d: string)
    requires Constructed(o)
    ensures var es := Failing(d, o.maxAttempts);
            Allowed(o, es) == es && |es| == 3 + 2 * o.maxAttempts && Run(o, es).phase.Refused?
  {
    hide Run, Allowed, Legal;
    var es := Failing(d, o.maxAttempts);
    FailingIsLegal(d, o.maxAttempts, o.maxAttempts);
    LegalTracesAreAllowed(o, es);
    AllowedTracesAreLegal(o, es);
  }

  /** A terminal transaction refuses everything, for ever. */
  lemma {:induction false} TerminalAbsorbs(s: Txn, es: seq<Event>)
    requires Terminal(s.phase)
    ensures Run(s, es) == s && Allowed(s, es) == []
  {
    if es != [] {
      TerminalAbsorbs(s, es[..|es| - 1]);
    }
  }
}

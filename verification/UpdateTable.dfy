/** The explicit transition table of the update machine, and its agreement with what the
    event handlers do. */
module UpdateTable {
  import opened Options
  import opened RuleIndex
  import opened Slots
  import opened UpdateSpec
  import opened UpdateRuns
  import opened UpdateSafety

  datatype EventName =
    | OnBegin | OnWriteComplete | OnWriteFailed | OnArm | OnBootAttempt
    | OnProbePass | OnProbeFail | OnWatchdogExpired | OnOperatorAbort

  datatype Guard = DigestMatches | DigestMismatch | TriesRemain | TriesExhausted

  datatype Rule = Rule(event: EventName, fromPhase: Phase, toPhase: Phase, guard: Option<Guard>)

  /** Anything not in this table is illegal. */
  const TABLE: seq<Rule> := [
    Rule(OnBegin, Idle, Phase.Writing, None),
    Rule(OnWriteComplete, Phase.Writing, CandidateReady, Some(DigestMatches)),
    Rule(OnWriteComplete, Phase.Writing, RolledBack, Some(DigestMismatch)),
    Rule(OnWriteFailed, Phase.Writing, RolledBack, None),
    Rule(OnArm, CandidateReady, Armed, None),
    Rule(OnBootAttempt, Armed, Phase.Trying, None),
    Rule(OnProbePass, Phase.Trying, Promoted, None),
    Rule(OnProbeFail, Phase.Trying, Armed, Some(TriesRemain)),
    Rule(OnProbeFail, Phase.Trying, Refused, Some(TriesExhausted)),
    Rule(OnWatchdogExpired, Phase.Trying, Armed, Some(TriesRemain)),
    Rule(OnWatchdogExpired, Phase.Trying, Refused, Some(TriesExhausted)),
    Rule(OnOperatorAbort, Phase.Writing, RolledBack, None),
    Rule(OnOperatorAbort, CandidateReady, RolledBack, None),
    Rule(OnOperatorAbort, Armed, RolledBack, None),
    Rule(OnOperatorAbort, Phase.Trying, RolledBack, None)
  ]

  function KeyOf(r: Rule): (Phase, EventName) {
    (r.fromPhase, r.event)
  }

  function NameOf(e: Event): EventName {
    match e
    case Begin(_, _, _) => OnBegin
    case WriteComplete(_) => OnWriteComplete
    case WriteFailed(_) => OnWriteFailed
    case Arm => OnArm
    case BootAttempt => OnBootAttempt
    case ProbePass(_) => OnProbePass
    case ProbeFail(_) => OnProbeFail
    case WatchdogExpired(_, _) => OnWatchdogExpired
    case OperatorAbort(_) => OnOperatorAbort
  }

  /** What a guard can see: the digest observed by the write, the one the transaction was
      begun with, and the tries left. */
  datatype Facts = Facts(observed: string, candidate: string, tries: int)

  predicate Holds(g: Guard, f: Facts) {
    match g
    case DigestMatches => f.observed == f.candidate
    case DigestMismatch => f.observed != f.candidate
    case TriesRemain => f.tries > 0
    case TriesExhausted => f.tries == 0
  }

  predicate Admissible(r: Rule, f: Facts) {
    r.guard.None? || Holds(r.guard.value, f)
  }

  /** The facts at the moment `e` is offered; a watchdog that falls back at once has then
      already spent the remaining tries. */
  function FactsOf(s: Txn, e: Event): Facts {
    Facts(if e.WriteComplete? then e.observedDigest else "", s.candidate,
          if s.phase.Trying? && e.WatchdogExpired? && e.action.RebootToFallback? then 0 else s.trial.triesRemaining)
  }

  /** The position of the row an event takes, or -1. */
  function Row(p: Phase, n: EventName, f: Facts): int {
    match (p, n)
    case (Idle, OnBegin) => 0
    case (Writing, OnWriteComplete) => if f.observed == f.candidate then 1 else 2
    case (Writing, OnWriteFailed) => 3
    case (CandidateReady, OnArm) => 4
    case (Armed, OnBootAttempt) => 5
    case (Trying, OnProbePass) => 6
    case (Trying, OnProbeFail) => if f.tries > 0 then 7 else if f.tries == 0 then 8 else -1
    case (Trying, OnWatchdogExpired) => if f.tries > 0 then 9 else if f.tries == 0 then 10 else -1
    case (Writing, OnOperatorAbort) => 11
    case (CandidateReady, OnOperatorAbort) => 12
    case (Armed, OnOperatorAbort) => 13
    case (Trying, OnOperatorAbort) => 14
    case _ => -1
  }

  /** Row `i` of the table is for this phase and event, and its guard holds. */
  ghost predicate Fires(p: Phase, n: EventName, f: Facts, i: int) {
    0 <= i < |TABLE| && KeyOf(TABLE[i]) == (p, n) && Admissible(TABLE[i], f)
  }

  lemma FiresAtRow(p: Phase, n: EventName, f: Facts, i: int)
    requires Fires(p, n, f, i)
    ensures i == Row(p, n, f)
  {
  }

  lemma RowFires(p: Phase, n: EventName, f: Facts)
    requires Row(p, n, f) >= 0
    ensures Fires(p, n, f, Row(p, n, f))
  {
  }

  /** At most one row fires, and it is the one at `Row`. */
  lemma OneRowFires(p: Phase, n: EventName, f: Facts, i: int)
    ensures Fires(p, n, f, i) <==> i == Row(p, n, f) >= 0
  {
    if Fires(p, n, f, i) {
      FiresAtRow(p, n, f, i);
    } else if i == Row(p, n, f) >= 0 {
      RowFires(p, n, f);
    }
  }

  /** What the machine's indexed lookup finds. */
  lemma ScanFindsRow(p: Phase, n: EventName, f: Facts)
    ensures First(Bucket(TABLE, KeyOf, (p, n)), r => Admissible(r, f)) ==
            if Row(p, n, f) < 0 then None else Some(TABLE[Row(p, n, f)])
  {
    var admissible := r => Admissible(r, f);
    forall i | 0 <= i < |TABLE|
      ensures KeyOf(TABLE[i]) == (p, n) && admissible(TABLE[i]) <==> i == Row(p, n, f)
    {
      OneRowFires(p, n, f, i);
    }
    BucketScanHits(TABLE, KeyOf, (p, n), admissible, Row(p, n, f));
  }

  lemma NextIsRow(s: Txn, e: Event)
    ensures var row := Row(s.phase, NameOf(e), FactsOf(s, e));
            Next(s, e) == if row < 0 || (e.BootAttempt? && s.trial.triesRemaining <= 0) then None
                          else Some(TABLE[row].toPhase)
  {
  }

  /** The handlers refine the table. In any state an event moves to `p` exactly when a row
      for that phase and event leads to `p` with its guard holding, apart from a boot with
      no tries left, which the handler itself declines. */
  lemma NextIsTable(s: Txn, e: Event, p: Phase)
    ensures Next(s, e) == Some(p) <==>
            && (exists i :: Fires(s.phase, NameOf(e), FactsOf(s, e), i) && TABLE[i].toPhase == p)
            && (e.BootAttempt? ==> s.trial.triesRemaining > 0)
    ensures Step(s, e).phase == Next(s, e).GetOr(s.phase)
  {
    var n, f := NameOf(e), FactsOf(s, e);
    NextIsRow(s, e);
    forall i ensures Fires(s.phase, n, f, i) <==> i == Row(s.phase, n, f) >= 0 {
      OneRowFires(s.phase, n, f, i);
    }
    StepPhase(s, e);
  }

  /** In reachable states the guards on one key are exclusive and exhaustive: exactly one
      row fires when the table has any row for the phase and event, and the event is
      refused exactly when it has none. */
  lemma ReachableRefusal(o: Txn, es: seq<Event>, e: Event)
    requires Constructed(o)
    ensures var s := Run(o, es);
            && (Admits(s, e) <==> Bucket(TABLE, KeyOf, (s.phase, NameOf(e))) != [])
            && (Admits(s, e) <==> exists i :: Fires(s.phase, NameOf(e), FactsOf(s, e), i))
            && forall i, j | Fires(s.phase, NameOf(e), FactsOf(s, e), i)
                             && Fires(s.phase, NameOf(e), FactsOf(s, e), j) :: i == j
  {
    CountsRun(o, es);
    var s := Run(o, es);
    var n, f := NameOf(e), FactsOf(s, e);
    forall i ensures Fires(s.phase, n, f, i) <==> i == Row(s.phase, n, f) >= 0 {
      OneRowFires(s.phase, n, f, i);
    }
    NextIsRow(s, e);
    KeyedRows(s.phase, n, f);
    assert Row(s.phase, n, f) >= 0 ==> Fires(s.phase, n, f, Row(s.phase, n, f));
    assert s.phase.Armed? ==> s.trial.triesRemaining > 0;
  }

  lemma KeyedRow(p: Phase, n: EventName, f: Facts, i: int)
    requires (p.Trying? ==> f.tries >= 0) && 0 <= i < |TABLE| && KeyOf(TABLE[i]) == (p, n)
    ensures Row(p, n, f) >= 0
  {
  }

  /** A key with a row has one that fires, given that tries left on trial are not negative. */
  lemma KeyedRows(p: Phase, n: EventName, f: Facts)
    requires p.Trying? ==> f.tries >= 0
    ensures Bucket(TABLE, KeyOf, (p, n)) != [] <==> Row(p, n, f) >= 0
  {
    BucketEmpty(TABLE, KeyOf, (p, n));
    forall i | 0 <= i < |TABLE| && KeyOf(TABLE[i]) == (p, n) ensures Row(p, n, f) >= 0 {
      KeyedRow(p, n, f, i);
    }
    if Row(p, n, f) >= 0 {
      RowFires(p, n, f);
    }
  }

  // ── what a caller gets back ───────────────────────────────────────────────────

  datatype TransitionResult = TransitionResult(
    allowed: bool, event: EventName, fromPhase: Phase, toPhase: Phase, fellBackTo: Option<Label>)

  datatype Answer = Returned(result: TransitionResult) | Raised

  /** The slot an allowed event says the target fell back to: given whenever the transaction
      is abandoned or an attempt has failed. */
  function FellBackTo(s: Txn, to: Phase): Option<Label> {
    if to.RolledBack? || to.Refused? || (s.phase.Trying? && to.Armed?) then Some(s.fallback.slot) else None
  }

  /** What offering `e` in `s` answers when it leads to `after`. */
  function AnswerTo(s: Txn, e: Event, after: Txn): Answer {
    match Next(s, e)
    case None => Returned(TransitionResult(false, NameOf(e), s.phase, s.phase, None))
    case Some(p) =>
      if !Invariants(after) then Raised
      else Returned(TransitionResult(true, NameOf(e), s.phase, p, FellBackTo(s, p)))
  }

  /** In every reachable state an event is answered unless it raises, and truly: allowed or
      not, the phases before and after, and the fallback as the slot fallen back to exactly
      when the event ended the transaction unpromoted or logged a failed attempt; that slot is
      then both active and running. From a safe start every event is answered. */
  lemma AnswersAreTrue(o: Txn, es: seq<Event>, e: Event)
    requires Constructed(o)
    ensures var s := Run(o, es);
            var after := Step(s, e);
            var a := AnswerTo(s, e, after);
            && (a.Returned? <==> !Raises(s, e)) && (SafeStart(o) ==> a.Returned?)
            && (a.Returned? ==>
                  && a.result.allowed == Admits(s, e) && a.result.event == NameOf(e)
                  && a.result.fromPhase == s.phase && a.result.toPhase == after.phase
                  && (a.result.fellBackTo.Some? <==>
                        && Admits(s, e)
                        && (after.phase.RolledBack? || after.phase.Refused?
                            || (|after.attempts| > |s.attempts|
                                && !after.attempts[|after.attempts| - 1].result.Passed?)))
                  && (a.result.fellBackTo.Some? ==>
                        && a.result.fellBackTo == Some(after.fallback.slot)
                        && after.fallback.role.Active? && after.fallback.currentlyRunning))
  {
    var s := Run(o, es);
    NeverRaisesIff(o);
    assert SafeStart(o) ==> !Raises(s, e);
    StepPhase(s, e);
    assert Run(o, es + [e]) == Step(s, e) by {
      assert (es + [e])[..|es|] == es;
    }
    hide Run, NeverRaises, Invariants;
    ShapeRun(o, es);
    ShapeRun(o, es + [e]);
    if Admits(s, e) {
      FellBackTruly(o, s, e);
    }
  }

  lemma FellBackTruly(o: Txn, s: Txn, e: Event)
    requires Shape(o, s) && Shape(o, Step(s, e)) && Constructed(o) && Admits(s, e)
    ensures var after := Step(s, e);
            var on := FellBackTo(s, after.phase);
            && (on.Some? <==>
                  after.phase.RolledBack? || after.phase.Refused?
                  || (|after.attempts| > |s.attempts| && !after.attempts[|after.attempts| - 1].result.Passed?))
            && (on.Some? ==>
                  on == Some(after.fallback.slot) && after.fallback.role.Active? && after.fallback.currentlyRunning)
  {
    hide FieldShape;
  }
}

/** Chains of transactions on one target: each opened from the slot documents the one
    before it left, whether or not that one was settled. */
module UpdateChain {
  import opened Options
  import opened Slots
  import opened UpdateSpec
  import opened UpdateRuns
  import opened UpdateSafety

  function ActiveOf(s: Txn): SlotState {
    if s.trial.role.Active? then s.trial else s.fallback
  }

  function CandidateOf(s: Txn): SlotState {
    if s.trial.role.Active? then s.fallback else s.trial
  }

  /** The machine opened next on the slots of `s`. */
  function Successor(s: Txn, maxAttempts: int): Txn {
    Fresh(Normal(ActiveOf(s)), Normal(CandidateOf(s)), maxAttempts, s.now)
  }

  /** Two slots with opposite labels and roles, the active one successful. */
  predicate Paired(s: Txn) {
    s.trial.slot == Other(s.fallback.slot) && s.fallback.role != s.trial.role && ActiveOf(s).successful
  }

  lemma PairedReopens(s: Txn, targetRef: string, maxAttempts: int)
    requires Paired(s) && 1 <= maxAttempts <= 7
    ensures Reopen(SlotDocumentsOf(targetRef, s), maxAttempts, s.now) == Ok(Successor(s, maxAttempts))
    ensures Constructed(Successor(s, maxAttempts))
  {
    assert Normal(s.fallback) == FromDocument(ToDocument(targetRef, s.fallback));
    assert Normal(s.trial) == FromDocument(ToDocument(targetRef, s.trial));
  }

  lemma PairedRun(o: Txn, es: seq<Event>)
    requires Constructed(o)
    ensures Paired(Run(o, es)) && (Run(o, es).trial.role.Active? <==> Run(o, es).phase.Promoted?)
  {
    ShapeRun(o, es);
  }

  /** Writing the slots of any reachable state out and opening a machine on the documents
      always passes the constructor's checks, and gives back the same two records, in their
      current roles, without their empty strings. */
  lemma ReopenRoundTrip(o: Txn, es: seq<Event>, targetRef: string, maxAttempts: int)
    requires Constructed(o) && 1 <= maxAttempts <= 7
    ensures var s := Run(o, es);
            && Reopen(SlotDocumentsOf(targetRef, s), maxAttempts, s.now) == Ok(Successor(s, maxAttempts))
            && Constructed(Successor(s, maxAttempts))
            && SlotDocumentsOf(targetRef, Successor(s, maxAttempts)) == SlotDocumentsOf(targetRef, s)
  {
    PairedRun(o, es);
    PairedReopens(Run(o, es), targetRef, maxAttempts);
  }

  lemma NormalConforms(s: SlotState)
    ensures Conformant(Normal(s)) == Conformant(s)
  {
    assert ToDocument("", Normal(s)) == ToDocument("", s);
  }

  /** Whether a machine opened on the slots of `s` is safe, whatever its budget. */
  predicate SafeSlots(s: Txn) {
    SafeStart(Successor(s, 1))
  }

  lemma NextIsSafeIff(o: Txn, es: seq<Event>)
    requires Constructed(o) && SafeSlots(o)
    ensures var s := Run(o, es); SafeSlots(s) <==> !(s.phase.Promoted? && s.candidate == "")
  {
    ShapeRun(o, es);
  }

  lemma NextConforms(o: Txn, es: seq<Event>, maxAttempts: int)
    requires Constructed(o) && ConformantStart(o)
    ensures var s := Run(o, es);
            ConformantStart(Successor(s, maxAttempts)) <==> !(s.phase.Promoted? && s.candidate == "")
  {
    hide Run;
    SlotDocumentsConform(o, es);
    NormalConforms(Run(o, es).fallback);
    NormalConforms(Run(o, es).trial);
  }

  /** From any slots that are safe once written out, the next machine can run without ever
      raising exactly when the last one did not promote an empty digest; and from conformant
      slots it is then itself a conformant start. */
  lemma SuccessorSafeIff(o: Txn, es: seq<Event>, maxAttempts: int)
    requires Constructed(o) && SafeSlots(o) && 1 <= maxAttempts <= 7
    ensures var s := Run(o, es);
            var stranded := s.phase.Promoted? && s.candidate == "";
            && (NeverRaises(Successor(s, maxAttempts)) <==> !stranded)
            && (ConformantStart(o) ==> (ConformantStart(Successor(s, maxAttempts)) <==> !stranded))
  {
    hide Run, NeverRaises, ConformantStart;
    ReopenRoundTrip(o, es, "", maxAttempts);
    NeverRaisesIff(Successor(Run(o, es), maxAttempts));
    NextIsSafeIff(o, es);
    if ConformantStart(o) {
      NextConforms(o, es, maxAttempts);
    }
  }

  lemma ConformantSlotsAreSafe(o: Txn)
    requires Constructed(o) && ConformantStart(o)
    ensures SafeSlots(o)
  {
  }

  lemma PromotedDigest(o: Txn, es: seq<Event>)
    requires Constructed(o) && Run(o, es).phase.Promoted?
    ensures ActiveOf(Run(o, es)).payloadDigest == Some(Run(o, es).candidate)
  {
    ShapeRun(o, es);
  }

  lemma PromotedEmptyRaises(o: Txn, es: seq<Event>, maxAttempts: int, begin: Event)
    requires Constructed(o) && Run(o, es).phase.Promoted? && Run(o, es).candidate == "" && begin.Begin?
    ensures Raises(Successor(Run(o, es), maxAttempts), begin)
  {
    PromotedDigest(o, es);
    PairedRun(o, es);
    hide Run;
  }

  lemma StrandingTrace()
    ensures var es := [Begin("", None, None), WriteComplete(""), Arm, BootAttempt, ProbePass(None)];
            Legal(es, 1) && PhaseAfter(es, 1).Promoted?
  {
  }

  /** A concrete target stranded by promoting an empty digest: the promotion succeeds, its
      slot document carries no digest, and the next transaction raises as it opens. */
  lemma EmptyDigestStrands()
    ensures var o := Fresh(SlotState(A, Active, Good, 15, 0, true, true, Some("good"), None, None, None),
                           SlotState(B, Candidate, Empty, 1, 0, false, false, None, None, None, None), 1, 0);
            var es := [Begin("", None, None), WriteComplete(""), Arm, BootAttempt, ProbePass(None)];
            && Constructed(o) && ConformantStart(o) && Run(o, es).phase.Promoted?
            && Raises(Successor(Run(o, es), 1), Begin("next", None, None))
  {
    hide Run, Allowed, Legal, LegalAt, PhaseAfter, ReasonAfter, LogOf, Boots, Raises;
    var o := Fresh(SlotState(A, Active, Good, 15, 0, true, true, Some("good"), None, None, None),
                   SlotState(B, Candidate, Empty, 1, 0, false, false, None, None, None, None), 1, 0);
    var es := [Begin("", None, None), WriteComplete(""), Arm, BootAttempt, ProbePass(None)];
    StrandingTrace();
    LegalTracesAreAllowed(o, es);
    LinkedRun(o, es);
    PromotedEmptyRaises(o, es, 1, Begin("next", None, None));
  }

  /** When the next machine's write target is outranked, so that the fallback stays the
      selector's choice during its write: after every settled transaction, but after one
      abandoned on trial only if the candidate was on its last attempt. */
  lemma SuccessorOutrankedIff(o: Txn, es: seq<Event>, maxAttempts: int)
    requires Constructed(o)
    ensures var s := Run(o, es);
            Outranked(Successor(s, maxAttempts)) <==>
            || Terminal(s.phase)
            || (!s.phase.Armed? && !s.phase.Trying? && Outranked(o))
            || (s.phase.Trying? && s.trial.triesRemaining == 0)
  {
    ShapeRun(o, es);
    CountsRun(o, es);
  }

  // ── chains ────────────────────────────────────────────────────────────────────

  datatype Leg = Leg(maxAttempts: int, events: seq<Event>)

  /** The slots after every transaction of `legs`, starting from those of `o`. */
  function Chain(o: Txn, targetRef: string, legs: seq<Leg>): Result<Txn, OpenError> {
    if legs == [] then Ok(o)
    else
      var leg := legs[|legs| - 1];
      match Chain(o, targetRef, legs[..|legs| - 1])
      case Err(e) => Err(e)
      case Ok(s) =>
        match Reopen(SlotDocumentsOf(targetRef, s), leg.maxAttempts, s.now)
        case Err(e) => Err(e)
        case Ok(start) => Ok(Run(start, leg.events))
  }

  /** Every budget is within the tries width. */
  predicate Budgeted(legs: seq<Leg>) {
    forall i :: 0 <= i < |legs| ==> 1 <= legs[i].maxAttempts <= 7
  }

  /** A transaction opened in `o` promotes an empty digest. */
  ghost predicate Strands(o: Txn, leg: Leg) {
    exists k :: k <= leg.maxAttempts && PromotionTrace(Allowed(o, leg.events), "", k)
  }

  /** No transaction of the chain promotes an empty digest. */
  ghost predicate Unstranded(o: Txn, targetRef: string, legs: seq<Leg>) {
    legs == [] ||
    var init, leg := legs[..|legs| - 1], legs[|legs| - 1];
    && Unstranded(o, targetRef, init)
    && (Chain(o, targetRef, init).Ok? ==> !Strands(Successor(Chain(o, targetRef, init).value, leg.maxAttempts), leg))
  }

  /** Two conformant slots, one active and one candidate, one of them running. */
  predicate Standing(s: Txn) {
    && s.trial.slot == Other(s.fallback.slot) && s.fallback.role != s.trial.role
    && Conformant(s.fallback) && Conformant(s.trial)
    && s.fallback.currentlyRunning != s.trial.currentlyRunning
  }

  lemma StandingReopens(s: Txn, targetRef: string, maxAttempts: int)
    requires Standing(s) && 1 <= maxAttempts <= 7
    ensures Reopen(SlotDocumentsOf(targetRef, s), maxAttempts, s.now) == Ok(Successor(s, maxAttempts))
    ensures Constructed(Successor(s, maxAttempts)) && ConformantStart(Successor(s, maxAttempts))
    ensures Successor(s, maxAttempts).fallback.payloadDigest == ActiveOf(s).payloadDigest
    ensures ActiveOf(s).payloadDigest.Some? && ActiveOf(s).payloadDigest != Some("")
  {
    PairedReopens(s, targetRef, maxAttempts);
    NormalConforms(s.fallback);
    NormalConforms(s.trial);
  }

  lemma StrandsIff(o: Txn, leg: Leg)
    requires Constructed(o) && o.maxAttempts == leg.maxAttempts
    ensures Strands(o, leg) <==> Run(o, leg.events).phase.Promoted? && Run(o, leg.events).candidate == ""
  {
    hide Run, Allowed;
    PromotedIff(o, leg.events);
    if d, k :| k <= leg.maxAttempts && PromotionTrace(Allowed(o, leg.events), d, k) {
      PromotionResult(o, leg.events, d, k);
    }
  }

  lemma LegStands(o: Txn, leg: Leg)
    requires Constructed(o) && ConformantStart(o) && o.maxAttempts == leg.maxAttempts && !Strands(o, leg)
    ensures Standing(Run(o, leg.events))
  {
    hide Run, Strands;
    StrandsIff(o, leg);
    SlotDocumentsConform(o, leg.events);
    PairedRun(o, leg.events);
  }

  /** The digest a chain ought to leave active: that of its last promotion trace, or the
      original one when there is none. */
  ghost function Expected(o: Txn, targetRef: string, legs: seq<Leg>): Option<string> {
    if legs == [] then o.fallback.payloadDigest
    else
      var leg, before := legs[|legs| - 1], Chain(o, targetRef, legs[..|legs| - 1]);
      var rest := Expected(o, targetRef, legs[..|legs| - 1]);
      if before.Err? then rest
      else
        var tr := Allowed(Successor(before.value, leg.maxAttempts), leg.events);
        if IsPromotion(tr, leg.maxAttempts) then Some(tr[0].payloadDigest) else rest
  }

  /** Opening never fails over any chain, stranded or not. */
  lemma {:induction false} ChainOpens(o: Txn, targetRef: string, legs: seq<Leg>)
    requires Constructed(o) && Budgeted(legs)
    ensures Chain(o, targetRef, legs).Ok? && Paired(Chain(o, targetRef, legs).value)
  {
    if legs != [] {
      var init, leg := legs[..|legs| - 1], legs[|legs| - 1];
      ChainOpens(o, targetRef, init);
      var s := Chain(o, targetRef, init).value;
      PairedReopens(s, targetRef, leg.maxAttempts);
      PairedRun(Successor(s, leg.maxAttempts), leg.events);
    }
  }

  /** One transaction's effect on the active digest. */
  lemma LegActive(o: Txn, es: seq<Event>)
    requires Constructed(o)
    ensures ActiveOf(Run(o, es)).payloadDigest ==
            if IsPromotion(Allowed(o, es), o.maxAttempts) then Some(Allowed(o, es)[0].payloadDigest)
            else o.fallback.payloadDigest
  {
    var tr := Allowed(o, es);
    PromotedIff(o, es);
    FallbackPreserved(o, es);
    if d, k :| k <= o.maxAttempts && PromotionTrace(tr, d, k) {
      PromotionResult(o, es, d, k);
    } else {
      PairedRun(o, es);
    }
  }

  /** Over any number of transactions, settled or abandoned, from any accepted start, the
      active slot's document carries exactly the digest of the last completed promotion:
      begun, observed equal when written, and passed by the probe. */
  lemma {:induction false} ChainProvenance(o: Txn, targetRef: string, legs: seq<Leg>)
    requires Constructed(o) && Budgeted(legs)
    ensures Chain(o, targetRef, legs).Ok?
    ensures Truthy(ActiveOf(Chain(o, targetRef, legs).value).payloadDigest) == Truthy(Expected(o, targetRef, legs))
  {
    ChainOpens(o, targetRef, legs);
    if legs != [] {
      var init, leg := legs[..|legs| - 1], legs[|legs| - 1];
      ChainProvenance(o, targetRef, init);
      ChainOpens(o, targetRef, init);
      var s := Chain(o, targetRef, init).value;
      PairedReopens(s, targetRef, leg.maxAttempts);
      LegActive(Successor(s, leg.maxAttempts), leg.events);
    }
  }

  /** From a conformant start and with no empty digest promoted, both slots conform after
      every transaction, and the active record itself holds the expected digest. */
  lemma {:induction false} ChainStands(o: Txn, targetRef: string, legs: seq<Leg>)
    requires Constructed(o) && ConformantStart(o) && Budgeted(legs) && Unstranded(o, targetRef, legs)
    ensures Chain(o, targetRef, legs).Ok? && Standing(Chain(o, targetRef, legs).value)
    ensures ActiveOf(Chain(o, targetRef, legs).value).payloadDigest == Expected(o, targetRef, legs)
  {
    if legs != [] {
      var init, leg := legs[..|legs| - 1], legs[|legs| - 1];
      ChainStands(o, targetRef, init);
      var s := Chain(o, targetRef, init).value;
      StandingReopens(s, targetRef, leg.maxAttempts);
      var start := Successor(s, leg.maxAttempts);
      LegStands(start, leg);
      LegActive(start, leg.events);
    }
  }

  /** Whatever its budget, the machine opened on the slots of `s` never raises. */
  ghost predicate QuietAfter(s: Txn) {
    forall maxAttempts :: 1 <= maxAttempts <= 7 ==> NeverRaises(Successor(s, maxAttempts))
  }

  /** No machine opened along the chain, or after it, can ever raise. */
  ghost predicate QuietThroughout(o: Txn, targetRef: string, legs: seq<Leg>) {
    && Chain(o, targetRef, legs).Ok? && QuietAfter(Chain(o, targetRef, legs).value)
    && (legs != [] ==> QuietThroughout(o, targetRef, legs[..|legs| - 1]))
  }

  lemma QuietAfterIff(s: Txn)
    requires Paired(s)
    ensures QuietAfter(s) <==> SafeSlots(s)
  {
    hide NeverRaises;
    forall maxAttempts | 1 <= maxAttempts <= 7
      ensures NeverRaises(Successor(s, maxAttempts)) <==> SafeSlots(s)
    {
      PairedReopens(s, "", maxAttempts);
      NeverRaisesIff(Successor(s, maxAttempts));
    }
    assert QuietAfter(s) ==> NeverRaises(Successor(s, 1));
  }

  lemma LegIsSafeIff(s: Txn, leg: Leg)
    requires Paired(s) && SafeSlots(s) && 1 <= leg.maxAttempts <= 7
    ensures var start := Successor(s, leg.maxAttempts);
            SafeSlots(Run(start, leg.events)) <==> !Strands(start, leg)
  {
    hide Run, Strands;
    PairedReopens(s, "", leg.maxAttempts);
    NextIsSafeIff(Successor(s, leg.maxAttempts), leg.events);
    StrandsIff(Successor(s, leg.maxAttempts), leg);
  }

  /** From any accepted start, no machine opened along a chain, or after it, can ever raise,
      if and only if the slots it starts from are safe once written out and no transaction of
      the chain promotes an empty digest. */
  lemma {:induction false} ChainNeverRaisesIff(o: Txn, targetRef: string, legs: seq<Leg>)
    requires Constructed(o) && Budgeted(legs)
    ensures QuietThroughout(o, targetRef, legs) <==> SafeSlots(o) && Unstranded(o, targetRef, legs)
    ensures QuietThroughout(o, targetRef, legs) ==> SafeSlots(Chain(o, targetRef, legs).value)
  {
    hide QuietAfter, Strands, Run, SafeSlots, Paired;
    ChainOpens(o, targetRef, legs);
    QuietAfterIff(Chain(o, targetRef, legs).value);
    if legs != [] {
      var init, leg := legs[..|legs| - 1], legs[|legs| - 1];
      ChainNeverRaisesIff(o, targetRef, init);
      ChainOpens(o, targetRef, init);
      var s := Chain(o, targetRef, init).value;
      PairedReopens(s, targetRef, leg.maxAttempts);
      if SafeSlots(s) {
        LegIsSafeIff(s, leg);
      }
    }
  }

  /** What a caller can check beforehand: no event that could begin begins an empty digest. */
  predicate NamesDigests(legs: seq<Leg>) {
    forall i, e :: 0 <= i < |legs| && e in legs[i].events && e.Begin? ==> e.payloadDigest != ""
  }

  lemma {:induction false} AllowedWasOffered(o: Txn, es: seq<Event>, e: Event)
    requires e in Allowed(o, es)
    ensures e in es
  {
    if e in Allowed(o, es[..|es| - 1]) {
      AllowedWasOffered(o, es[..|es| - 1], e);
    }
  }

  lemma {:induction false} NamedDigestsNeverStrand(o: Txn, targetRef: string, legs: seq<Leg>)
    requires NamesDigests(legs)
    ensures Unstranded(o, targetRef, legs)
  {
    if legs != [] {
      var init, leg := legs[..|legs| - 1], legs[|legs| - 1];
      NamedDigestsNeverStrand(o, targetRef, init);
      if Chain(o, targetRef, init).Ok? {
        var start := Successor(Chain(o, targetRef, init).value, leg.maxAttempts);
        if k :| k <= leg.maxAttempts && PromotionTrace(Allowed(start, leg.events), "", k) {
          AllowedWasOffered(start, leg.events, Allowed(start, leg.events)[0]);
        }
      }
    }
  }

  /** In a chain the active slot is the trial slot exactly after a promotion. */
  lemma ChainRoles(o: Txn, targetRef: string, legs: seq<Leg>)
    requires Constructed(o) && Budgeted(legs) && legs != []
    ensures Chain(o, targetRef, legs).Ok?
    ensures var s := Chain(o, targetRef, legs).value; s.trial.role.Active? <==> s.phase.Promoted?
  {
    var init, leg := legs[..|legs| - 1], legs[|legs| - 1];
    ChainOpens(o, targetRef, init);
    var s := Chain(o, targetRef, init).value;
    PairedReopens(s, targetRef, leg.maxAttempts);
    PairedRun(Successor(s, leg.maxAttempts), leg.events);
  }

  lemma LegPreserves(s: Txn, leg: Leg)
    requires Paired(s) && 1 <= leg.maxAttempts <= 7
    ensures var after := Run(Successor(s, leg.maxAttempts), leg.events);
            && after.fallback.slot == ActiveOf(s).slot
            && (!after.phase.Idle? ==> after.preserved == ActiveOf(s).payloadDigest.GetOr(""))
  {
    PairedReopens(s, "", leg.maxAttempts);
    ShapeRun(Successor(s, leg.maxAttempts), leg.events);
  }

  /** A transaction falls back to the slot its predecessor settled on, and the digest it
      preserves is the one in that slot, none being preserved as the empty string. */
  lemma PreservedIsSettled(o: Txn, targetRef: string, legs: seq<Leg>, leg: Leg)
    requires Constructed(o) && Budgeted(legs) && legs != [] && 1 <= leg.maxAttempts <= 7
    ensures Chain(o, targetRef, legs).Ok? && Chain(o, targetRef, legs + [leg]).Ok?
    ensures var before := Chain(o, targetRef, legs).value;
            var after := Chain(o, targetRef, legs + [leg]).value;
            !after.phase.Idle? ==>
              && after.preserved == ActiveOf(before).payloadDigest.GetOr("")
              && (ConformantStart(o) && Unstranded(o, targetRef, legs) ==>
                    Some(after.preserved) == ActiveOf(before).payloadDigest)
              && after.fallback.slot == ActiveOf(before).slot
              && (Terminal(before.phase) ==>
                    TransactionDocumentOf(before).value.settledOnSlot
                    == Some(TransactionDocumentOf(after).value.fromSlot))
  {
    hide Run, Paired, Unstranded, ConformantStart;
    ChainOpens(o, targetRef, legs);
    var before := Chain(o, targetRef, legs).value;
    assert (legs + [leg])[..|legs|] == legs;
    PairedReopens(before, targetRef, leg.maxAttempts);
    LegPreserves(before, leg);
    ChainRoles(o, targetRef, legs);
    if ConformantStart(o) && Unstranded(o, targetRef, legs) {
      ChainStands(o, targetRef, legs);
      StandingReopens(before, targetRef, leg.maxAttempts);
    }
  }

  /** The candidate is the one to boot: armed, promoted, or on trial with tries to spare. */
  predicate TrialsTurn(s: Txn) {
    s.phase.Armed? || s.phase.Promoted? || (s.phase.Trying? && s.trial.triesRemaining > 0)
  }

  lemma SettledIsSelectable(o: Txn, es: seq<Event>)
    requires Constructed(o) && Terminal(Run(o, es).phase)
    ensures ActiveOf(Run(o, es)).bootPriority >= 1
  {
    ShapeRun(o, es);
  }

  lemma LastLegOutranks(o: Txn, targetRef: string, legs: seq<Leg>, maxAttempts: int)
    requires Constructed(o) && Budgeted(legs) && Chain(o, targetRef, legs).Ok?
    requires if legs == [] then o.fallback.bootPriority >= 1 && Outranked(o)
             else Terminal(Chain(o, targetRef, legs).value.phase)
    ensures var next := Successor(Chain(o, targetRef, legs).value, maxAttempts);
            Outranked(next) && next.fallback.bootPriority >= 1
  {
    if legs != [] {
      var init, leg := legs[..|legs| - 1], legs[|legs| - 1];
      ChainOpens(o, targetRef, init);
      var s := Chain(o, targetRef, init).value;
      PairedReopens(s, targetRef, leg.maxAttempts);
      SuccessorOutrankedIff(Successor(s, leg.maxAttempts), leg.events, maxAttempts);
      SettledIsSelectable(Successor(s, leg.maxAttempts), leg.events);
    }
  }

  /** Once the last transaction was settled, or from the start if the fallback can be selected
      and the trial slot is outranked, the selector has exactly one choice throughout the next
      transaction, and it is the trial slot exactly when that slot's turn has come. */
  lemma SettledChainSelects(o: Txn, targetRef: string, legs: seq<Leg>, maxAttempts: int, es: seq<Event>)
    requires Constructed(o) && Budgeted(legs) && 1 <= maxAttempts <= 7
    requires if legs == [] then o.fallback.bootPriority >= 1 && Outranked(o)
             else Chain(o, targetRef, legs).Ok? && Terminal(Chain(o, targetRef, legs).value.phase)
    ensures Chain(o, targetRef, legs).Ok?
    ensures var s := Run(Successor(Chain(o, targetRef, legs).value, maxAttempts), es);
            !s.phase.Idle? ==>
              && (Selected(s.trial, s.fallback) <==> TrialsTurn(s))
              && (Selected(s.fallback, s.trial) <==> !TrialsTurn(s))
  {
    ChainOpens(o, targetRef, legs);
    var before := Chain(o, targetRef, legs).value;
    var start := Successor(before, maxAttempts);
    PairedReopens(before, targetRef, maxAttempts);
    LastLegOutranks(o, targetRef, legs, maxAttempts);
    SelectorFollowsPhase(start, es);
    CountsRun(start, es);
  }
}

/** The rollback drill: a recorded list of events folded through the machine, with every
    answer reported and the contract documents written out at the end. */
module Replay {
  import opened Options
  import opened RuleIndex
  import opened Slots
  import opened UpdateSpec
  import opened UpdateRuns
  import opened UpdateSafety
  import opened UpdateTable
  import opened AbUpdateMachines

  /** A recorded event, as read from JSON. */
  datatype RawEvent = RawEvent(
    name: string,
    payloadDigest: Option<string>,
    observedDigest: Option<string>,
    payloadRef: Option<string>,
    version: Option<string>,
    detail: Option<string>,
    expiryAction: Option<string>)

  datatype DecodeError = UnknownEvent | MissingPayloadDigest | UnknownExpiryAction

  /** What a recorded event asks of the machine. */
  function Decode(e: RawEvent): Result<Event, DecodeError> {
    if e.name == "begin" then
      if e.payloadDigest.None? then Err(MissingPayloadDigest)
      else Ok(Event.Begin(e.payloadDigest.value, e.payloadRef, e.version))
    else if e.name == "write_complete" then
      if Truthy(e.observedDigest).Some? then Ok(Event.WriteComplete(e.observedDigest.value))
      else if e.payloadDigest.None? then Err(MissingPayloadDigest)
      else Ok(Event.WriteComplete(e.payloadDigest.value))
    else if e.name == "write_failed" then Ok(Event.WriteFailed(e.detail.GetOr("write failed")))
    else if e.name == "arm" then Ok(Event.Arm)
    else if e.name == "boot_attempt" then Ok(Event.BootAttempt)
    else if e.name == "probe_pass" then Ok(Event.ProbePass(e.detail))
    else if e.name == "probe_fail" then Ok(Event.ProbeFail(e.detail.GetOr("health probe failed")))
    else if e.name == "watchdog_expired" then
      var why := e.detail.GetOr("watchdog expired");
      if e.expiryAction.GetOr("reboot") == "reboot" then Ok(Event.WatchdogExpired(why, Reboot))
      else if e.expiryAction == Some("reboot-to-fallback") then Ok(Event.WatchdogExpired(why, RebootToFallback))
      else Err(UnknownExpiryAction)
    else if e.name == "operator_abort" then Ok(Event.OperatorAbort(e.detail.GetOr("aborted by operator")))
    else Err(UnknownEvent)
  }

  /** A recording of an event, every text spelled out. */
  function Recorded(e: Event): RawEvent {
    match e
    case Begin(d, ref, version) => RawEvent("begin", Some(d), None, ref, version, None, None)
    case WriteComplete(d) => RawEvent("write_complete", Some(d), None, None, None, None, None)
    case WriteFailed(why) => RawEvent("write_failed", None, None, None, None, Some(why), None)
    case Arm => RawEvent("arm", None, None, None, None, None, None)
    case BootAttempt => RawEvent("boot_attempt", None, None, None, None, None, None)
    case ProbePass(note) => RawEvent("probe_pass", None, None, None, None, note, None)
    case ProbeFail(why) => RawEvent("probe_fail", None, None, None, None, Some(why), None)
    case WatchdogExpired(why, action) =>
      RawEvent("watchdog_expired", None, None, None, None, Some(why),
               Some(if action.Reboot? then "reboot" else "reboot-to-fallback"))
    case OperatorAbort(why) => RawEvent("operator_abort", None, None, None, None, Some(why), None)
  }

  /** Every event of the machine, the empty digest included, can be recorded and read back. */
  lemma RecordedEventsDecode(e: Event)
    ensures Decode(Recorded(e)) == Ok(e)
  {
  }

  /** What an event is called in a recording. */
  function Spelled(n: EventName): string {
    match n
    case OnBegin => "begin"
    case OnWriteComplete => "write_complete"
    case OnWriteFailed => "write_failed"
    case OnArm => "arm"
    case OnBootAttempt => "boot_attempt"
    case OnProbePass => "probe_pass"
    case OnProbeFail => "probe_fail"
    case OnWatchdogExpired => "watchdog_expired"
    case OnOperatorAbort => "operator_abort"
  }

  const NAMES: set<string> := {
    "begin", "write_complete", "write_failed", "arm", "boot_attempt", "probe_pass", "probe_fail",
    "watchdog_expired", "operator_abort"
  }

  /** A recording is read as the event it names, and reported under that name. */
  lemma DecodedByName(e: RawEvent)
    ensures Decode(e).Ok? ==> e.name == Spelled(NameOf(Decode(e).value))
  {
  }

  /** It is unknown exactly when it names none of the nine. */
  lemma UnknownIff(e: RawEvent)
    ensures Decode(e) == Err(UnknownEvent) <==> e.name !in NAMES
  {
  }

  /** Which digest a write is read with: the observed one when there is one, the recorded
      payload's otherwise, and neither is an error; a begin takes the payload's only. */
  lemma DecodedDigests(e: RawEvent)
    ensures e.name == "begin" ==>
              Decode(e) == match e.payloadDigest
                           case None => Err(MissingPayloadDigest)
                           case Some(d) => Ok(Begin(d, e.payloadRef, e.version))
    ensures e.name == "write_complete" && e.observedDigest.Some? && e.observedDigest != Some("") ==>
              Decode(e) == Ok(WriteComplete(e.observedDigest.value))
    ensures e.name == "write_complete" && (e.observedDigest == None || e.observedDigest == Some("")) ==>
              Decode(e) == match e.payloadDigest
                           case None => Err(MissingPayloadDigest)
                           case Some(d) => Ok(WriteComplete(d))
    ensures Decode(e) == Err(MissingPayloadDigest) ==> e.name == "begin" || e.name == "write_complete"
  {
  }

  /** The texts and the action an event is read with when its recording gives none. */
  lemma DecodedDefaults(e: RawEvent)
    ensures var text := e.detail;
            && (e.name == "write_failed" ==>
                  Decode(e) == Ok(WriteFailed(if text.Some? then text.value else "write failed")))
            && (e.name == "arm" ==> Decode(e) == Ok(Arm))
            && (e.name == "boot_attempt" ==> Decode(e) == Ok(BootAttempt))
            && (e.name == "probe_pass" ==> Decode(e) == Ok(ProbePass(text)))
            && (e.name == "probe_fail" ==>
                  Decode(e) == Ok(ProbeFail(if text.Some? then text.value else "health probe failed")))
            && (e.name == "operator_abort" ==>
                  Decode(e) == Ok(OperatorAbort(if text.Some? then text.value else "aborted by operator")))
    ensures e.name == "watchdog_expired" ==>
              var text := if e.detail.Some? then e.detail.value else "watchdog expired";
              && (Decode(e) == Ok(WatchdogExpired(text, RebootToFallback)) <==>
                  e.expiryAction == Some("reboot-to-fallback"))
              && (Decode(e) == Ok(WatchdogExpired(text, Reboot)) <==>
                  e.expiryAction == None || e.expiryAction == Some("reboot"))
              && (Decode(e) == Err(UnknownExpiryAction) <==>
                  e.expiryAction.Some? && e.expiryAction.value !in {"reboot", "reboot-to-fallback"})
  {
  }

  datatype ReplayError = BadEvent(index: nat, error: DecodeError) | Violation

  datatype Played = Played(state: Txn, transitions: seq<TransitionResult>)

  /** The state and log after the events, or the error that stops the replay. */
  function Play(o: Txn, events: seq<RawEvent>): Result<Played, ReplayError> {
    if events == [] then Ok(Played(o, []))
    else
      var n := |events| - 1;
      match Play(o, events[..n])
      case Err(e) => Err(e)
      case Ok(p) =>
        match Decode(events[n])
        case Err(e) => Err(BadEvent(n, e))
        case Ok(e) =>
          match AnswerTo(p.state, e, Step(p.state, e))
          case Raised => Err(Violation)
          case Returned(t) => Ok(Played(Step(p.state, e), p.transitions + [t]))
  }

  datatype Output = Output(
    finalPhase: Phase,
    transitions: seq<TransitionResult>,
    transaction: TransactionDocument,
    slots: seq<SlotDocument>)

  function ReplayOf(o: Txn, targetRef: string, events: seq<RawEvent>): Result<Output, ReplayError> {
    match Play(o, events)
    case Err(e) => Err(e)
    case Ok(p) =>
      if TransactionDocumentOf(p.state).None? then Err(Violation)
      else Ok(Output(p.state.phase, p.transitions, TransactionDocumentOf(p.state).value,
                     SlotDocumentsOf(targetRef, p.state)))
  }

  method Offer(m: AbUpdateMachine, e: Event) returns (r: Answer)
    requires m.Valid()
    modifies m
    ensures m.Valid() && m.State() == Step(old(m.State()), e)
    ensures r == AnswerTo(old(m.State()), e, m.State())
  {
    match e
    case Begin(d, ref, version) => r := m.Begin(d, ref, version);
    case WriteComplete(d) => r := m.WriteComplete(d);
    case WriteFailed(why) => r := m.WriteFailed(why);
    case Arm => r := m.Arm();
    case BootAttempt => r := m.BootAttempt();
    case ProbePass(note) => r := m.ProbePass(note);
    case ProbeFail(why) => r := m.ProbeFail(why);
    case WatchdogExpired(why, action) => r := m.WatchdogExpired(why, action);
    case OperatorAbort(why) => r := m.OperatorAbort(why);
  }

  method Replay(m: AbUpdateMachine, events: seq<RawEvent>) returns (r: Result<Output, ReplayError>)
    requires m.Valid()
    modifies m
    ensures m.Valid() && r == ReplayOf(old(m.State()), m.targetRef, events)
  {
    ghost var o := m.State();
    var log := [];
    for i := 0 to |events|
      invariant m.Valid() && Play(o, events[..i]) == Ok(Played(m.State(), log))
    {
      assert events[..i + 1][..i] == events[..i];
      var event := Decode(events[i]);
      if event.Err? {
        PlayStops(o, events, i + 1);
        return Err(BadEvent(i, event.error));
      }
      var answer := Offer(m, event.value);
      if answer.Raised? {
        PlayStops(o, events, i + 1);
        return Err(Violation);
      }
      log := log + [answer.result];
    }
    assert events[..|events|] == events;
    var d := m.ToTransactionDocument();
    if d.None? {
      return Err(Violation);
    }
    var slots := m.ToSlotDocuments();
    r := Ok(Output(m.phase, log, d.value, slots));
  }

  datatype DrillError = NotOpened(opening: OpenError) | NotPlayed(playing: ReplayError)

  /** The whole drill: index the table, open a machine on the slot documents, replay. */
  method Drill(docs: seq<SlotDocument>, maxAttempts: int, events: seq<RawEvent>)
    returns (r: Result<Output, DrillError>)
    ensures match Reopen(docs, maxAttempts, 0)
            case Err(e) => r == Err(NotOpened(e))
            case Ok(o) =>
              match ReplayOf(o, docs[0].targetRef, events)
              case Err(e) => r == Err(NotPlayed(e))
              case Ok(output) => r == Ok(output)
  {
    var index := Build(TABLE, KeyOf);
    var built := AbUpdateMachine.FromSlotDocuments(docs, maxAttempts, 0, index);
    if built.Err? {
      return Err(NotOpened(built.error));
    }
    var played := Replay(built.value, events);
    r := if played.Err? then Err(NotPlayed(played.error)) else Ok(played.value);
  }

  lemma {:induction false} PlayStops(o: Txn, events: seq<RawEvent>, k: nat)
    requires k <= |events| && Play(o, events[..k]).Err?
    ensures Play(o, events) == Play(o, events[..k])
  {
    if k < |events| {
      assert events[..|events| - 1][..k] == events[..k];
      PlayStops(o, events[..|events| - 1], k);
    } else {
      assert events[..k] == events;
    }
  }

  // ── what a drill can rely on ──────────────────────────────────────────────────

  predicate Decodes(events: seq<RawEvent>) {
    forall i :: 0 <= i < |events| ==> Decode(events[i]).Ok?
  }

  function Events(events: seq<RawEvent>): seq<Event>
    requires Decodes(events)
  {
    seq(|events|, i requires 0 <= i < |events| => Decode(events[i]).value)
  }

  /** The recorded events that were allowed. */
  function AllowedRaw(o: Txn, events: seq<RawEvent>): seq<RawEvent>
    requires Decodes(events)
  {
    if events == [] then []
    else
      var init, e := events[..|events| - 1], events[|events| - 1];
      AllowedRaw(o, init) + if Admits(Run(o, Events(init)), Decode(e).value) then [e] else []
  }

  lemma AnswerReturns(s: Txn, e: Event)
    ensures AnswerTo(s, e, Step(s, e)).Returned? <==> !Raises(s, e)
  {
  }

  /** The fold is the run. It stops exactly at an event that cannot be read or that raises. */
  lemma {:induction false} PlayIsRun(o: Txn, events: seq<RawEvent>)
    ensures Play(o, events).Ok? <==> Decodes(events) && !HasRaised(o, Events(events))
    ensures Play(o, events).Ok? ==> Play(o, events).value.state == Run(o, Events(events))
  {
    hide Decode, Step, Next, Invariants, HasRaised, AnswerTo, Raises;
    if events != [] {
      var n := |events| - 1;
      var init := events[..n];
      PlayIsRun(o, init);
      if Decodes(events) {
        var es := Events(events);
        assert Decodes(init) && es[..n] == Events(init) && es[n] == Decode(events[n]).value;
        HasRaisedSnoc(o, es);
        AnswerReturns(Run(o, es[..n]), es[n]);
      } else if Decodes(init) {
        assert Decode(events[n]).Err?;
      }
    } else {
      assert Events(events) == [];
      NothingRaised(o);
    }
  }

  lemma NothingRaised(o: Txn)
    ensures !HasRaised(o, [])
  {
  }

  /** The answer to the event at position `i` of a run. */
  function Reported(o: Txn, es: seq<Event>, i: nat): Answer
    requires i < |es|
  {
    AnswerTo(Run(o, es[..i]), es[i], Run(o, es[..i + 1]))
  }

  lemma ReportedLast(o: Txn, es: seq<Event>)
    requires es != []
    ensures var n := |es| - 1;
            Reported(o, es, n) == AnswerTo(Run(o, es[..n]), es[n], Step(Run(o, es[..n]), es[n]))
  {
    assert es[..|es| - 1 + 1] == es;
  }

  lemma PlaySnoc(o: Txn, events: seq<RawEvent>)
    requires events != [] && Play(o, events).Ok?
    ensures Decode(events[|events| - 1]).Ok?
    ensures var n := |events| - 1;
            && Play(o, events[..n]).Ok?
            && (var p := Play(o, events[..n]).value;
                var e := Decode(events[n]).value;
                var t := AnswerTo(p.state, e, Step(p.state, e));
                t.Returned? && Play(o, events).value.transitions == p.transitions + [t.result])
  {
  }

  /** Every event is reported in its place, a refused one as refused in the phase it met. */
  lemma {:induction false} PlayReports(o: Txn, events: seq<RawEvent>)
    requires Play(o, events).Ok?
    ensures Decodes(events) && |Play(o, events).value.transitions| == |events|
    ensures forall i :: 0 <= i < |events| ==>
              Reported(o, Events(events), i) == Returned(Play(o, events).value.transitions[i])
  {
    hide Decode, Step, AnswerTo, HasRaised;
    PlayIsRun(o, events);
    if events != [] {
      var n := |events| - 1;
      var init, es := events[..n], Events(events);
      PlaySnoc(o, events);
      PlayIsRun(o, init);
      PlayReports(o, init);
      assert es[..n] == Events(init) && es[..n + 1] == es;
      forall i | 0 <= i < |events|
        ensures Reported(o, es, i) == Returned(Play(o, events).value.transitions[i])
      {
        if i < n {
          assert es[..n][..i] == es[..i] && es[..n][..i + 1] == es[..i + 1];
          assert Reported(o, Events(init), i) == Reported(o, es, i);
        } else {
          ReportedLast(o, es);
        }
      }
    }
  }

  lemma OpensStep(s: Txn, e: Event)
    ensures !Step(s, e).phase.Idle? <==> !s.phase.Idle? || e.Begin?
  {
    StepPhase(s, e);
  }

  /** A machine leaves idle exactly when some event begins. */
  lemma {:induction false} OpensAtBegin(o: Txn, es: seq<Event>)
    requires o.phase.Idle?
    ensures !Run(o, es).phase.Idle? <==> exists i :: 0 <= i < |es| && es[i].Begin?
  {
    if es != [] {
      var n := |es| - 1;
      OpensAtBegin(o, es[..n]);
      OpensStep(Run(o, es[..n]), es[n]);
      assert forall i :: 0 <= i < n ==> es[..n][i] == es[i];
    }
  }

  /** The output: the phase the run ends in, one answer for each event in its place, the
      transaction document of the run, and the slot documents of A and B as the run left
      them. */
  lemma ReplayTells(o: Txn, targetRef: string, events: seq<RawEvent>)
    requires ReplayOf(o, targetRef, events).Ok?
    ensures Decodes(events) && |ReplayOf(o, targetRef, events).value.transitions| == |events|
    ensures var out, s := ReplayOf(o, targetRef, events).value, Run(o, Events(events));
            && out.finalPhase == s.phase
            && Some(out.transaction) == TransactionDocumentOf(s)
            && |out.slots| == 2
            && out.slots[0] == ToDocument(targetRef, if s.fallback.slot.A? then s.fallback else s.trial)
            && out.slots[1] == ToDocument(targetRef, if s.fallback.slot.A? then s.trial else s.fallback)
            && forall i :: 0 <= i < |events| ==> Reported(o, Events(events), i) == Returned(out.transitions[i])
  {
    hide Decode, Reported, Play;
    PlayIsRun(o, events);
    PlayReports(o, events);
  }

  /** The event at `i` cannot be read, and everything before it was and did not raise. */
  ghost predicate UnreadableAt(o: Txn, events: seq<RawEvent>, i: nat, e: DecodeError) {
    && i < |events| && Decode(events[i]) == Err(e)
    && Decodes(events[..i]) && !HasRaised(o, Events(events[..i]))
  }

  /** One of the first `n` events raised, all of them being readable. */
  ghost predicate RaisedWithin(o: Txn, events: seq<RawEvent>, n: nat) {
    n <= |events| && Decodes(events[..n]) && HasRaised(o, Events(events[..n]))
  }

  /** The last step of the fold. */
  lemma PlaysOn(o: Txn, events: seq<RawEvent>)
    requires events != []
    ensures var n := |events| - 1;
            && (Play(o, events[..n]).Err? ==> Play(o, events) == Play(o, events[..n]))
            && (Play(o, events[..n]).Ok? && Decode(events[n]).Err? ==>
                  Play(o, events) == Err(BadEvent(n, Decode(events[n]).error)))
            && (Play(o, events[..n]).Ok? && Decode(events[n]).Ok? && Play(o, events).Err? ==>
                  Play(o, events) == Err(Violation))
  {
  }

  /** The fold stops at a bad event exactly when that is the first thing to go wrong. */
  lemma {:induction false} PlayStopsIff(o: Txn, events: seq<RawEvent>)
    ensures forall i, e :: Play(o, events) == Err(BadEvent(i, e)) <==> UnreadableAt(o, events, i, e)
  {
    hide Decode, HasRaised, Step, AnswerTo;
    if events != [] {
      var n := |events| - 1;
      var init := events[..n];
      PlayStopsIff(o, init);
      PlayIsRun(o, init);
      PlayIsRun(o, events);
      assert forall i :: 0 <= i <= n ==> init[..i] == events[..i];
      assert forall i :: 0 <= i < n ==> init[i] == events[i];
      assert forall i: nat, e :: UnreadableAt(o, init, i, e) <==> UnreadableAt(o, events, i, e) && i < n;
      PlaysOn(o, events);
    }
  }

  lemma {:induction false} ViolatedWithin(o: Txn, events: seq<RawEvent>) returns (n: nat)
    requires Play(o, events) == Err(Violation)
    ensures RaisedWithin(o, events, n)
  {
    hide Decode, HasRaised, Step, AnswerTo;
    var init := events[..|events| - 1];
    PlaysOn(o, events);
    if Play(o, init).Err? {
      n := ViolatedWithin(o, init);
      assert init[..n] == events[..n];
    } else {
      n := |events|;
      PlayIsRun(o, init);
      PlayIsRun(o, events);
      assert events[..n] == events;
    }
  }

  /** When every event can be read, nothing but a violation stops the fold. */
  lemma {:induction false} OnlyViolated(o: Txn, events: seq<RawEvent>)
    requires Decodes(events) && Play(o, events).Err?
    ensures Play(o, events) == Err(Violation)
  {
    hide Decode, Step, AnswerTo;
    PlaysOn(o, events);
    if Play(o, events[..|events| - 1]).Err? {
      OnlyViolated(o, events[..|events| - 1]);
    }
  }

  /** And with a violation exactly when some event raised while all so far could be read. */
  lemma PlayViolatesIff(o: Txn, events: seq<RawEvent>)
    ensures Play(o, events) == Err(Violation) <==> exists n :: RaisedWithin(o, events, n)
  {
    hide Decode, HasRaised, Play;
    if Play(o, events) == Err(Violation) {
      var n := ViolatedWithin(o, events);
    } else if n: nat :| RaisedWithin(o, events, n) {
      PlayIsRun(o, events[..n]);
      PlayStops(o, events, n);
      OnlyViolated(o, events[..n]);
    }
  }

  /** Which error a replay ends with. A bad event is reported with its own place and error,
      when nothing before it was bad or raised; a violation is one event that raised before
      any was bad, or a replay without a begin. */
  lemma ReplayFails(o: Txn, targetRef: string, events: seq<RawEvent>)
    requires Constructed(o)
    ensures forall i, e :: ReplayOf(o, targetRef, events) == Err(BadEvent(i, e)) <==> UnreadableAt(o, events, i, e)
    ensures ReplayOf(o, targetRef, events) == Err(Violation) <==>
            || (exists n :: RaisedWithin(o, events, n))
            || (Decodes(events) && !exists i :: 0 <= i < |events| && Decode(events[i]).value.Begin?)
  {
    hide Decode, HasRaised, Play, Step;
    PlayStopsIff(o, events);
    PlayViolatesIff(o, events);
    PlayIsRun(o, events);
    if Decodes(events) {
      OpensAtBegin(o, Events(events));
      assert forall i :: 0 <= i < |events| ==> Events(events)[i] == Decode(events[i]).value;
      if Play(o, events).Err? {
        OnlyViolated(o, events);
      }
    }
  }

  /** A replay yields its documents exactly when every event can be read, one of them begins
      a transaction, and the checks hold to the end; from a safe start they always do. */
  lemma ReplaySucceedsIff(o: Txn, targetRef: string, events: seq<RawEvent>)
    requires Constructed(o)
    ensures ReplayOf(o, targetRef, events).Ok? <==>
            && Decodes(events) && (exists i :: 0 <= i < |events| && Decode(events[i]).value.Begin?)
            && !Violated(o, Run(o, Events(events)).phase)
    ensures ReplayOf(o, targetRef, events).Ok? ==>
              TransactionConforms(ReplayOf(o, targetRef, events).value.transaction)
  {
    hide HasRaised, Violated;
    PlayIsRun(o, events);
    if Decodes(events) {
      HasRaisedIff(o, Events(events));
      TransactionDocumentConforms(o, Events(events));
      OpensAtBegin(o, Events(events));
      if i :| 0 <= i < |events| && Decode(events[i]).value.Begin? {
        assert Events(events)[i].Begin?;
      }
    }
  }

  /** Replaying only the allowed events gives the same final phase, transaction document
      and slot documents as replaying them all. */
  lemma RefusedEventsAreInert(o: Txn, targetRef: string, events: seq<RawEvent>)
    requires Constructed(o) && ReplayOf(o, targetRef, events).Ok?
    ensures Decodes(events) && ReplayOf(o, targetRef, AllowedRaw(o, events)).Ok?
    ensures var all := ReplayOf(o, targetRef, events).value;
            var few := ReplayOf(o, targetRef, AllowedRaw(o, events)).value;
            && few.finalPhase == all.finalPhase && few.transaction == all.transaction && few.slots == all.slots
            && forall i :: 0 <= i < |few.transitions| ==> few.transitions[i].allowed
  {
    hide HasRaised;
    PlayIsRun(o, events);
    AllowedRawDecodes(o, events);
    var es, few := Events(events), AllowedRaw(o, events);
    RefusedEventsVanish(o, es);
    HasRaisedIff(o, es);
    HasRaisedIff(o, Allowed(o, es));
    PlayIsRun(o, few);
    PlayReports(o, few);
    forall i | 0 <= i < |few| ensures Play(o, few).value.transitions[i].allowed {
      AllowedPrefix(o, Events(few), i);
      assert Reported(o, Events(few), i) == Returned(Play(o, few).value.transitions[i]);
    }
  }

  lemma {:induction false} AllowedRawDecodes(o: Txn, events: seq<RawEvent>)
    requires Decodes(events)
    ensures Decodes(AllowedRaw(o, events)) && Events(AllowedRaw(o, events)) == Allowed(o, Events(events))
  {
    if events != [] {
      var init := events[..|events| - 1];
      AllowedRawDecodes(o, init);
      assert Events(events)[..|events| - 1] == Events(init);
    }
  }

  /** When a whole sequence is allowed, so is each event in its turn. */
  lemma {:induction false} AllowedPrefix(o: Txn, es: seq<Event>, i: nat)
    requires Allowed(o, es) == es && i < |es|
    ensures Admits(Run(o, es[..i]), es[i])
  {
    var n := |es| - 1;
    AllowedLength(o, es[..n]);
    assert Allowed(o, es)[..n] == Allowed(o, es[..n]);
    if i < n {
      AllowedPrefix(o, es[..n], i);
      assert es[..n][..i] == es[..i];
    }
  }

  lemma {:induction false} AllowedLength(o: Txn, es: seq<Event>)
    ensures |Allowed(o, es)| <= |es|
  {
    if es != [] {
      AllowedLength(o, es[..|es| - 1]);
    }
  }
}

/** The lifecycle promotion engine: a table-driven admission decision behind four ordered
    gates, and what must have happened in every run that reaches a host-mutating state. */
module Lifecycle {
  import opened Options
  import opened RuleIndex

  datatype State =
    | Draft | Resolved | Built | Signed | Assigned | Planned | Fetched | Loaded | Executed
    | Attested | Compliant | Noncompliant | RollbackAvailable | RolledBack | Blocked

  datatype Name =
    | ResolveBom | Build | Sign | Assign | ValidateToken | Plan | Fetch | LoadOnly | Execute
    | Attest | EvaluateCompliance | MarkRollbackAvailable | Rollback | Refuse | Other(text: string)

  datatype Proof =
    | SbomRef | SignatureRef | KatelloManifestRef | TrustChainAdmissionRef | ArtifactDigestRef | AttestationRef
    | OtherProof(text: string)

  datatype Rule = Rule(
    name: Name, fromState: State, toState: State, approvalRequired: bool, requiredProofs: seq<Proof>)

  /** Anything not in this table is illegal. */
  const TABLE: seq<Rule> := [
    Rule(ResolveBom, Draft, Resolved, false, []),
    Rule(Build, Resolved, Built, false, [SbomRef]),
    Rule(Sign, Built, Signed, true, [SignatureRef, KatelloManifestRef]),
    Rule(Assign, Signed, Assigned, true, [TrustChainAdmissionRef]),
    Rule(ValidateToken, Assigned, Assigned, false, []),
    Rule(Plan, Assigned, Planned, false, []),
    Rule(Fetch, Planned, Fetched, false, [ArtifactDigestRef]),
    Rule(LoadOnly, Fetched, Loaded, false, []),
    Rule(Execute, Loaded, Executed, true, []),
    Rule(Attest, Executed, Attested, false, [AttestationRef]),
    Rule(EvaluateCompliance, Attested, Compliant, false, []),
    Rule(EvaluateCompliance, Attested, Noncompliant, false, []),
    Rule(MarkRollbackAvailable, Compliant, RollbackAvailable, false, []),
    Rule(MarkRollbackAvailable, Noncompliant, RollbackAvailable, false, []),
    Rule(MarkRollbackAvailable, Executed, RollbackAvailable, false, []),
    Rule(Rollback, RollbackAvailable, RolledBack, true, [])
  ]

  function KeyOf(r: Rule): (Option<State>, Name) {
    (Some(r.fromState), r.name)
  }

  // ── lookup ────────────────────────────────────────────────────────────────────

  /** Without a target the one rule filed, if it is the only one; with a target the first
      that leads there. */
  function Pick(candidates: seq<Rule>, toState: Option<State>): Option<Rule> {
    if candidates == [] then None
    else if toState.None? then if |candidates| == 1 then Some(candidates[0]) else None
    else First(candidates, Leads(toState.value))
  }

  function Leads(to: State): Rule -> bool {
    (r: Rule) => r.toState == to
  }

  method Lookup(index: map<(Option<State>, Name), seq<Rule>>, fromState: Option<State>, name: Name,
                toState: Option<State>)
    returns (rule: Option<Rule>)
    requires Indexes(index, TABLE, KeyOf)
    ensures rule == Found(fromState, name, toState)
  {
    var candidates := Get(index, (fromState, name));
    assert candidates == Bucket(TABLE, KeyOf, (fromState, name));
    rule := Pick(candidates, toState);
  }

  function Found(fromState: Option<State>, name: Name, toState: Option<State>): Option<Rule> {
    Pick(Bucket(TABLE, KeyOf, (fromState, name)), toState)
  }

  /** For any table: without a target, lookup answers exactly the rule that alone carries the
      key; with one, exactly what a scan of the whole table for key and target answers. */
  lemma PickIsScan(table: seq<Rule>, k: (Option<State>, Name), toState: Option<State>, rule: Rule)
    ensures var found := Pick(Bucket(table, KeyOf, k), toState);
            if toState.None? then
              found == Some(rule) <==> exists i :: OnlyAt(table, KeyOf, k, i) && table[i] == rule
            else
              found == First(table, Keyed(KeyOf, k, Leads(toState.value)))
  {
    var bucket := Bucket(table, KeyOf, k);
    if toState.Some? {
      BucketScan(table, KeyOf, k, Leads(toState.value));
    } else {
      if |bucket| == 1 {
        var i := BucketIsOnlyAt(table, KeyOf, k);
      }
      if i :| OnlyAt(table, KeyOf, k, i) && table[i] == rule {
        OnlyAtIsBucket(table, KeyOf, k, i);
      }
    }
  }

  // ── one transition ────────────────────────────────────────────────────────────

  const BOTTOM_CAPABILITY: string := "\U{22A5}"

  datatype Request = Request(
    name: Name, capability: string, toState: Option<State>, proofsPresent: seq<Proof>,
    approvalRef: Option<string>)

  datatype Refusal = CapabilityBottom | IllegalTransition | ApprovalMissing | EvidenceMissing

  datatype SideEffects = SideEffects(hostMutation: bool, diskWrite: bool, reboot: bool, networkFetch: bool)

  datatype Record = Record(
    fromState: Option<State>, toState: State, name: Name, allowed: bool, refusal: Option<Refusal>,
    required: seq<Proof>, present: seq<Proof>, missing: seq<Proof>,
    approvalRequired: bool, approvalRef: Option<string>, sideEffects: Option<SideEffects>)

  /** The required proofs that are not present, in order. */
  function Missing(required: seq<Proof>, present: seq<Proof>): (missing: seq<Proof>)
    ensures forall p :: p in missing <==> p in required && p !in present
  {
    if required == [] then []
    else
      (if required[0] in present then [] else [required[0]]) + Missing(required[1..], present)
  }

  function Refused(from: Option<State>, r: Request, why: Refusal, required: seq<Proof>, approvalRequired: bool,
                   approvalRef: Option<string>): Record {
    Record(from, Blocked, Refuse, false, Some(why), required, r.proofsPresent, Missing(required, r.proofsPresent),
           approvalRequired, approvalRef, None)
  }

  /** An approval reference approves when it is truthy. */
  predicate Approved(r: Request) {
    r.approvalRef.Some? && r.approvalRef.value != ""
  }

  /** The record of an attempted transition; the first gate that fails refuses it. */
  function Apply(from: Option<State>, r: Request): Record {
    if r.capability == BOTTOM_CAPABILITY then Refused(from, r, CapabilityBottom, [], false, None)
    else
      match Found(from, r.name, r.toState)
      case None => Refused(from, r, IllegalTransition, [], false, None)
      case Some(rule) =>
        if rule.approvalRequired && !Approved(r) then
          Refused(from, r, ApprovalMissing, rule.requiredProofs, true, None)
        else if Missing(rule.requiredProofs, r.proofsPresent) != [] then
          Refused(from, r, EvidenceMissing, rule.requiredProofs, rule.approvalRequired, r.approvalRef)
        else
          Record(from, rule.toState, r.name, true, None, rule.requiredProofs, r.proofsPresent,
                 Missing(rule.requiredProofs, r.proofsPresent), rule.approvalRequired, r.approvalRef,
                 if r.name.Execute? || r.name.Rollback?
                 then Some(SideEffects(true, true, r.name.Execute?, false)) else None)
  }

  predicate NeedsApproval(n: Name) {
    n.Sign? || n.Assign? || n.Execute? || n.Rollback?
  }

  function ProofsFor(n: Name): seq<Proof> {
    match n
    case Build => [SbomRef]
    case Sign => [SignatureRef, KatelloManifestRef]
    case Assign => [TrustChainAdmissionRef]
    case Fetch => [ArtifactDigestRef]
    case Attest => [AttestationRef]
    case _ => []
  }

  /** What the request itself must bring for its transition, told from the name alone. */
  predicate Gated(r: Request) {
    && r.capability != BOTTOM_CAPABILITY
    && (NeedsApproval(r.name) ==> r.approvalRef.Some? && r.approvalRef.value != "")
    && forall p :: p in ProofsFor(r.name) ==> p in r.proofsPresent
  }

  /** The legal edges, told without the table. */
  predicate Link(s: State, n: Name, to: State) {
    match n
    case ResolveBom => s.Draft? && to.Resolved?
    case Build => s.Resolved? && to.Built?
    case Sign => s.Built? && to.Signed?
    case Assign => s.Signed? && to.Assigned?
    case ValidateToken => s.Assigned? && to.Assigned?
    case Plan => s.Assigned? && to.Planned?
    case Fetch => s.Planned? && to.Fetched?
    case LoadOnly => s.Fetched? && to.Loaded?
    case Execute => s.Loaded? && to.Executed?
    case Attest => s.Executed? && to.Attested?
    case EvaluateCompliance => s.Attested? && (to.Compliant? || to.Noncompliant?)
    case MarkRollbackAvailable => (s.Compliant? || s.Noncompliant? || s.Executed?) && to.RollbackAvailable?
    case Rollback => s.RollbackAvailable? && to.RolledBack?
    case _ => false
  }

  /** The only state a name can lead to; a compliance evaluation has two. */
  function Target(n: Name): State {
    match n
    case ResolveBom => Resolved
    case Build => Built
    case Sign => Signed
    case Assign => Assigned
    case ValidateToken => Assigned
    case Plan => Planned
    case Fetch => Fetched
    case LoadOnly => Loaded
    case Execute => Executed
    case Attest => Attested
    case MarkRollbackAvailable => RollbackAvailable
    case Rollback => RolledBack
    case _ => Blocked
  }

  /** Where a request leads from a state; None when the edge is illegal, or when the request
      leaves open which of two edges it means. */
  function Edge(s: State, r: Request): Option<State> {
    var to := r.toState.GetOr(Target(r.name));
    if Link(s, r.name, to) then Some(to) else None
  }

  // ── the table, row by row ─────────────────────────────────────────────────────

  /** The position of the row for an edge. */
  function RowOf(s: State, n: Name, to: State): int {
    match n
    case ResolveBom => 0
    case Build => 1
    case Sign => 2
    case Assign => 3
    case ValidateToken => 4
    case Plan => 5
    case Fetch => 6
    case LoadOnly => 7
    case Execute => 8
    case Attest => 9
    case EvaluateCompliance => if to.Compliant? then 10 else 11
    case MarkRollbackAvailable => if s.Compliant? then 12 else if s.Noncompliant? then 13 else 14
    case Rollback => 15
    case _ => -1
  }

  ghost predicate RowStates(rule: Rule, i: int) {
    && Link(rule.fromState, rule.name, rule.toState) && i == RowOf(rule.fromState, rule.name, rule.toState)
    && rule.approvalRequired == NeedsApproval(rule.name) && rule.requiredProofs == ProofsFor(rule.name)
  }

  /** Each row is a legal edge and asks what its name asks. */
  lemma RowMeaning(i: int)
    requires 0 <= i < |TABLE|
    ensures RowStates(TABLE[i], i)
  {
  }

  /** And each legal edge has its row. */
  lemma LinkHasRow(s: State, n: Name, to: State)
    requires Link(s, n, to)
    ensures 0 <= RowOf(s, n, to) < |TABLE|
    ensures var rule := TABLE[RowOf(s, n, to)];
            KeyOf(rule) == (Some(s), n) && rule.toState == to
  {
  }

  lemma FoundTargeted(s: State, n: Name, to: State)
    ensures Found(Some(s), n, Some(to)) ==
            if Link(s, n, to) then Some(Rule(n, s, to, NeedsApproval(n), ProofsFor(n))) else None
  {
    hide TABLE;
    var k, hit := (Some(s), n), if Link(s, n, to) then RowOf(s, n, to) else -1;
    if Link(s, n, to) {
      LinkHasRow(s, n, to);
      RowMeaning(hit);
    }
    forall i | 0 <= i < |TABLE| ensures KeyOf(TABLE[i]) == k && Leads(to)(TABLE[i]) <==> i == hit {
      RowMeaning(i);
    }
    BucketScanHits(TABLE, KeyOf, k, Leads(to), hit);
  }

  lemma FoundUntargeted(s: State, n: Name)
    ensures var to := Target(n);
            Found(Some(s), n, None) ==
            if Link(s, n, to) then Some(Rule(n, s, to, NeedsApproval(n), ProofsFor(n))) else None
  {
    hide TABLE;
    var k, to := (Some(s), n), Target(n);
    if |Bucket(TABLE, KeyOf, k)| == 1 {
      var i := BucketIsOnlyAt(TABLE, KeyOf, k);
      RowMeaning(i);
      if n.EvaluateCompliance? {
        LinkHasRow(s, n, Compliant);
        LinkHasRow(s, n, Noncompliant);
      }
    } else if Link(s, n, to) {
      var row := RowOf(s, n, to);
      LinkHasRow(s, n, to);
      forall i | 0 <= i < |TABLE| && KeyOf(TABLE[i]) == k ensures i == row {
        RowMeaning(i);
      }
      assert OnlyAt(TABLE, KeyOf, k, row);
      OnlyAtIsBucket(TABLE, KeyOf, k, row);
    }
  }

  /** The indexed lookup finds a rule exactly when the edge is legal and settled, and then
      the rule that leads along it. */
  lemma FoundIsEdge(s: State, r: Request)
    ensures Found(Some(s), r.name, r.toState) ==
            if Edge(s, r).None? then None
            else Some(Rule(r.name, s, Edge(s, r).value, NeedsApproval(r.name), ProofsFor(r.name)))
  {
    hide Found, Link, Target, NeedsApproval, ProofsFor;
    if r.toState.Some? {
      FoundTargeted(s, r.name, r.toState.value);
    } else {
      FoundUntargeted(s, r.name);
    }
  }

  /** A transition is allowed exactly when the request passes the gates of its name and its
      edge is legal and settled; and then it leads along that edge. */
  lemma AllowedIff(s: State, r: Request)
    ensures Apply(Some(s), r).allowed <==> Gated(r) && Edge(s, r).Some?
    ensures Apply(Some(s), r).allowed ==> Apply(Some(s), r).toState == Edge(s, r).value
    ensures Apply(Some(s), r).allowed && NeedsApproval(r.name) ==>
              r.approvalRef.Some? && r.approvalRef.value != ""
  {
    hide Found, Edge, NeedsApproval, ProofsFor;
    FoundIsEdge(s, r);
    var missing := Missing(ProofsFor(r.name), r.proofsPresent);
    assert missing != [] ==> missing[0] in missing;
  }

  /** A record declares side effects exactly when it allows one of the two transitions that
      mutate the host: a host mutation that writes to disk, without a network fetch, and with
      a reboot only when executing. */
  lemma SideEffectsIff(s: State, r: Request)
    ensures var effects := Apply(Some(s), r).sideEffects;
            && (effects.Some? <==> Apply(Some(s), r).allowed && (r.name.Execute? || r.name.Rollback?))
            && (effects.Some? ==> effects.value == SideEffects(true, true, r.name.Execute?, false))
  {
  }

  /** The gates refuse in order, each for its own reason, and a refused record says so. */
  lemma RefusalsAreOrdered(s: State, r: Request)
    ensures var record := Apply(Some(s), r);
            var bottom := r.capability == BOTTOM_CAPABILITY;
            var unapproved := NeedsApproval(r.name) && (r.approvalRef == None || r.approvalRef == Some(""));
            var unproven := exists p :: p in ProofsFor(r.name) && p !in r.proofsPresent;
            && (record.refusal == Some(CapabilityBottom) <==> bottom)
            && (record.refusal == Some(IllegalTransition) <==> !bottom && Edge(s, r).None?)
            && (record.refusal == Some(ApprovalMissing) <==> !bottom && Edge(s, r).Some? && unapproved)
            && (record.refusal == Some(EvidenceMissing) <==>
                  !bottom && Edge(s, r).Some? && !unapproved && unproven)
            && (record.allowed <==> record.refusal == None)
            && (!record.allowed ==> record.toState.Blocked? && record.name.Refuse? && record.sideEffects == None)
            && (forall p :: p in record.missing <==> p in record.required && p !in record.present)
            && (record.allowed ==> record.missing == [] && record.name == r.name)
  {
    hide Found, Edge, NeedsApproval, ProofsFor;
    FoundIsEdge(s, r);
    var missing := Missing(ProofsFor(r.name), r.proofsPresent);
    assert missing != [] ==> missing[0] in missing;
  }

  /** A non-null approval reference is described as granting approval. With every other gate
      passed it does, unless approval is needed and the reference is the empty string. */
  lemma NonNullApprovalIff(s: State, r: Request)
    requires r.capability != BOTTOM_CAPABILITY && Edge(s, r).Some? && r.approvalRef.Some?
    requires forall p :: p in ProofsFor(r.name) ==> p in r.proofsPresent
    ensures Apply(Some(s), r).allowed <==> !(NeedsApproval(r.name) && r.approvalRef == Some(""))
  {
    hide Apply, Found, Edge, NeedsApproval, ProofsFor;
    AllowedIff(s, r);
  }

  /** A concrete one: signing with every proof and an empty approval reference. */
  lemma EmptyApprovalIsRefused()
    ensures var r := Request(Sign, "cap:operator", None, ProofsFor(Sign), Some(""));
            Apply(Some(Built), r).refusal == Some(ApprovalMissing)
  {
    hide Found, Apply;
    RefusalsAreOrdered(Built, Request(Sign, "cap:operator", None, ProofsFor(Sign), Some("")));
  }

  /** Nothing is allowed before there is a state: the initial mint is refused, as illegal
      unless the capability already is. */
  lemma MintIsRefused(r: Request)
    ensures var record := Apply(None, r);
            && !record.allowed && record.toState.Blocked? && record.name.Refuse?
            && record.fromState == None && record.present == r.proofsPresent && record.required == record.missing == []
            && !record.approvalRequired && record.approvalRef == None && record.sideEffects == None
            && record.refusal == Some(if r.capability == BOTTOM_CAPABILITY then CapabilityBottom else IllegalTransition)
  {
    var k: (Option<State>, Name) := (None, r.name);
    BucketEmpty(TABLE, KeyOf, k);
    assert forall i :: 0 <= i < |TABLE| ==> KeyOf(TABLE[i]) != k;
  }

  /** Which proofs a record lists as missing, in the order they are required: one after the
      other, each by itself. */
  lemma {:induction false} MissingOneByOne(required: seq<Proof>, more: seq<Proof>, present: seq<Proof>)
    ensures Missing(required + more, present) == Missing(required, present) + Missing(more, present)
    ensures |required| == 1 ==> Missing(required, present) == if required[0] in present then [] else required
  {
    if required == [] {
      assert required + more == more;
    } else {
      assert (required + more)[1..] == required[1..] + more;
      MissingOneByOne(required[1..], more, present);
    }
  }

  /** What else a record says: always where the request came from and what it brought; and
      what was asked for, as far as the gates were reached. */
  lemma RecordTells(s: State, r: Request)
    ensures var record := Apply(Some(s), r);
            var reached := record.allowed || record.refusal == Some(ApprovalMissing)
                           || record.refusal == Some(EvidenceMissing);
            && record.fromState == Some(s) && record.present == r.proofsPresent
            && record.required == (if reached then ProofsFor(r.name) else [])
            && record.missing == Missing(record.required, r.proofsPresent)
            && (record.missing != [] ==>
                  record.refusal == Some(ApprovalMissing) || record.refusal == Some(EvidenceMissing))
            && (record.refusal == Some(EvidenceMissing) ==> record.missing != [])
            && record.approvalRequired == (reached && NeedsApproval(r.name))
            && record.approvalRef ==
               (if record.allowed || record.refusal == Some(EvidenceMissing) then r.approvalRef else None)
  {
    hide Found, Edge, ProofsFor;
    FoundIsEdge(s, r);
  }
}

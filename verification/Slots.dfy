/** The two boot slots of an update target: on-device records, their UpdateSlot
    documents, the contract clauses on those documents, and the slot selector's rule. */
module Slots {
  import opened Options

  datatype Label = A | B

  function Other(l: Label): Label {
    match l
    case A => B
    case B => A
  }

  datatype Role = Active | Candidate

  datatype Condition = Empty | Writing | Written | Trying | Good | Unbootable

  datatype Verdict = Pass | Fail

  datatype SlotState = SlotState(
    slot: Label,
    role: Role,
    state: Condition,
    bootPriority: int,
    triesRemaining: int,
    successful: bool,
    currentlyRunning: bool,
    payloadDigest: Option<string>,
    payloadRef: Option<string>,
    version: Option<string>,
    lastProbeVerdict: Option<Verdict>)

  /** An UpdateSlot document; an optional field is None when its key is absent or null. */
  datatype SlotDocument = SlotDocument(
    targetRef: string,
    slot: Label,
    role: Role,
    state: Condition,
    bootPriority: int,
    triesRemaining: int,
    successful: bool,
    currentlyRunning: bool,
    payloadDigest: Option<string>,
    payloadRef: Option<string>,
    version: Option<string>,
    installedAt: Option<string>,
    lastBootedAt: Option<string>,
    lastProbeVerdict: Option<Verdict>)

  /** An optional string is written out only when it is truthy. */
  function Truthy(o: Option<string>): Option<string> {
    if o == Some("") then None else o
  }

  function ToDocument(targetRef: string, s: SlotState): SlotDocument {
    SlotDocument(targetRef, s.slot, s.role, s.state, s.bootPriority, s.triesRemaining,
                 s.successful, s.currentlyRunning,
                 Truthy(s.payloadDigest), Truthy(s.payloadRef), Truthy(s.version), None, None, s.lastProbeVerdict)
  }

  function FromDocument(d: SlotDocument): SlotState {
    SlotState(d.slot, d.role, d.state, d.bootPriority, d.triesRemaining, d.successful,
              d.currentlyRunning, d.payloadDigest, d.payloadRef, d.version, d.lastProbeVerdict)
  }

  /** The record without its empty strings: what survives being written out and read back. */
  function Normal(s: SlotState): SlotState {
    s.(payloadDigest := Truthy(s.payloadDigest), payloadRef := Truthy(s.payloadRef), version := Truthy(s.version))
  }

  /** A record holds what its document says, field by field. */
  lemma DocumentRead(d: SlotDocument)
    ensures var s := FromDocument(d);
            && s.slot == d.slot && s.role == d.role && s.state == d.state
            && s.bootPriority == d.bootPriority && s.triesRemaining == d.triesRemaining
            && s.successful == d.successful && s.currentlyRunning == d.currentlyRunning
            && s.payloadDigest == d.payloadDigest && s.payloadRef == d.payloadRef && s.version == d.version
            && s.lastProbeVerdict == d.lastProbeVerdict
  {
  }

  /** A record is described as round-tripping through a document, field for field. It does
      unless one of its strings is empty. */
  lemma RecordRoundTripIff(targetRef: string, s: SlotState)
    ensures FromDocument(ToDocument(targetRef, s)) == s <==>
            s.payloadDigest != Some("") && s.payloadRef != Some("") && s.version != Some("")
  {
    assert FromDocument(ToDocument(targetRef, s)) == Normal(s);
  }

  /** A document read and written again is the same unless one of its strings is empty or it
      carried a time: no record holds `installedAt` or `lastBootedAt`. */
  lemma DocumentRoundTripIff(d: SlotDocument)
    ensures ToDocument(d.targetRef, FromDocument(d)) == d <==>
            && d.payloadDigest != Some("") && d.payloadRef != Some("") && d.version != Some("")
            && d.installedAt == None && d.lastBootedAt == None
  {
  }

  /** The conditional clauses and numeric ranges of the UpdateSlot contract. */
  predicate Conforms(d: SlotDocument) {
    && (d.state.Writing? ==> d.role.Candidate?)
    && (d.role.Active? ==> d.successful && d.bootPriority >= 1)
    && (d.state.Unbootable? ==> d.bootPriority == 0 && !d.successful)
    && (d.state.Good? ==> d.successful)
    && (d.successful ==> d.payloadDigest.Some?)
    && 0 <= d.bootPriority <= 15
    && 0 <= d.triesRemaining <= 7
    && d.payloadRef != Some("") && d.version != Some("")
  }

  /** The record's own document meets the contract. */
  predicate Conformant(s: SlotState) {
    Conforms(ToDocument("", s))
  }

  /** GPT selection considers a slot of non-zero priority that is successful or has tries left. */
  predicate Bootable(s: SlotState) {
    s.bootPriority > 0 && (s.successful || s.triesRemaining > 0)
  }

  /** The selector boots `s` rather than `other`, with no tie to break. */
  predicate Selected(s: SlotState, other: SlotState) {
    Bootable(s) && (Bootable(other) ==> other.bootPriority < s.bootPriority)
  }
}

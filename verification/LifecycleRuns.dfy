/** Every lifecycle run from draft, advanced on allowed records only. */
module LifecycleRuns {
  import opened Options
  import opened Lifecycle

  /** The state after offering `rs` in order, moving only on allowed records. */
  function After(rs: seq<Request>): State {
    if rs == [] then Draft
    else
      var s := After(rs[..|rs| - 1]);
      var record := Apply(Some(s), rs[|rs| - 1]);
      if record.allowed then record.toState else s
  }

  /** The allowed requests of a run, token validations aside. */
  function Spine(rs: seq<Request>): seq<Request> {
    if rs == [] then []
    else
      var init, r := rs[..|rs| - 1], rs[|rs| - 1];
      Spine(init) + if Apply(Some(After(init)), r).allowed && !r.name.ValidateToken? then [r] else []
  }

  /** How many records of a run declare that the host was mutated. */
  function HostMutations(rs: seq<Request>): nat {
    if rs == [] then 0
    else
      var init, r := rs[..|rs| - 1], rs[|rs| - 1];
      var effects := Apply(Some(After(init)), r).sideEffects;
      HostMutations(init) + if effects.Some? && effects.value.hostMutation then 1 else 0
  }

  /** The one road from draft to executed. */
  function RoadName(i: nat): Name
    requires i < 8
  {
    match i
    case 0 => ResolveBom
    case 1 => Build
    case 2 => Sign
    case 3 => Assign
    case 4 => Plan
    case 5 => Fetch
    case 6 => LoadOnly
    case _ => Execute
  }

  function RoadState(i: nat): State
    requires i <= 8
  {
    if i == 0 then Draft else Target(RoadName(i - 1))
  }

  /** The state a spine ends in, read off its length and last names. */
  function EndOf(sp: seq<Request>): State {
    var n := |sp|;
    if n <= 8 then RoadState(n)
    else if n == 9 then if sp[8].name.Attest? then Attested else RollbackAvailable
    else if n == 10 then if sp[9].name.Rollback? then RolledBack else sp[9].toState.GetOr(Blocked)
    else if n == 11 then RollbackAvailable
    else RolledBack
  }

  /** Position `i` of a spine: the next name on the road, or past `execute` one of the two
      ways on, with everything its gates ask and no contrary target. */
  predicate StationAt(sp: seq<Request>, i: nat)
    requires i < |sp|
  {
    var r := sp[i];
    && Gated(r)
    && (r.toState.None? || r.toState.value == EndOf(sp[..i + 1]))
    && if i < 8 then r.name == RoadName(i)
       else if i == 8 then r.name.Attest? || r.name.MarkRollbackAvailable?
       else if i == 9 then
         || (sp[8].name.MarkRollbackAvailable? && r.name.Rollback?)
         || (sp[8].name.Attest? && r.name.EvaluateCompliance?
             && (r.toState == Some(Compliant) || r.toState == Some(Noncompliant)))
       else if i == 10 then sp[9].name.EvaluateCompliance? && r.name.MarkRollbackAvailable?
       else i == 11 && r.name.Rollback?
  }

  ghost predicate OnRoad(sp: seq<Request>) {
    forall i :: 0 <= i < |sp| ==> StationAt(sp, i)
  }

  lemma OnRoadSnoc(sp: seq<Request>, r: Request)
    ensures OnRoad(sp + [r]) <==> OnRoad(sp) && StationAt(sp + [r], |sp|)
  {
    forall i | 0 <= i < |sp| ensures StationAt(sp, i) == StationAt(sp + [r], i) {
      assert (sp + [r])[..i + 1] == sp[..i + 1];
    }
  }

  lemma NextStationOnTheWay(sp: seq<Request>, r: Request)
    requires |sp| < 8 && !r.name.ValidateToken?
    ensures StationAt(sp + [r], |sp|) <==> Gated(r) && Edge(RoadState(|sp|), r).Some?
    ensures StationAt(sp + [r], |sp|) ==> RoadState(|sp| + 1) == Edge(RoadState(|sp|), r).value
  {
    hide Gated;
    assert (sp + [r])[..|sp| + 1] == sp + [r];
  }

  /** Where an on-road spine can go next: exactly along the edges of the state it is in. */
  lemma NextStation(sp: seq<Request>, r: Request)
    requires OnRoad(sp) && !r.name.ValidateToken?
    ensures StationAt(sp + [r], |sp|) <==> Gated(r) && Edge(EndOf(sp), r).Some?
    ensures StationAt(sp + [r], |sp|) ==> EndOf(sp + [r]) == Edge(EndOf(sp), r).value
  {
    hide Gated;
    if |sp| < 8 {
      NextStationOnTheWay(sp, r);
    } else {
      assert (sp + [r])[..|sp| + 1] == sp + [r] && sp[..|sp|] == sp;
      assert StationAt(sp, |sp| - 1);
      if |sp| > 9 {
        assert StationAt(sp, 9);
      }
      if |sp| > 10 {
        assert StationAt(sp, 10);
      }
    }
  }

  /** Every run keeps to the road, and its spine tells where it is. */
  lemma {:induction false} RunsKeepToTheRoad(rs: seq<Request>)
    ensures OnRoad(Spine(rs)) && After(rs) == EndOf(Spine(rs))
  {
    hide Apply;
    if rs != [] {
      var init, r := rs[..|rs| - 1], rs[|rs| - 1];
      RunsKeepToTheRoad(init);
      var sp := Spine(init);
      AllowedIff(After(init), r);
      if Apply(Some(After(init)), r).allowed && !r.name.ValidateToken? {
        NextStation(sp, r);
        OnRoadSnoc(sp, r);
      } else {
        assert Spine(rs) == sp;
      }
    }
  }

  /** And every spine that keeps to the road is a run in which each request is allowed. */
  lemma {:induction false} TheRoadIsOpen(sp: seq<Request>)
    requires OnRoad(sp)
    ensures Spine(sp) == sp
  {
    hide Apply, Gated;
    if sp != [] {
      var init, r := sp[..|sp| - 1], sp[|sp| - 1];
      assert sp == init + [r];
      OnRoadSnoc(init, r);
      TheRoadIsOpen(init);
      RunsKeepToTheRoad(init);
      assert StationAt(sp, |init|);
      assert !r.name.ValidateToken?;
      NextStation(init, r);
      AllowedIff(After(init), r);
    }
  }

  predicate AtOrBeyondExecuted(s: State) {
    s.Executed? || s.Attested? || s.Compliant? || s.Noncompliant? || s.RollbackAvailable? || s.RolledBack?
  }

  lemma SpineHistory(sp: seq<Request>)
    requires OnRoad(sp)
    ensures AtOrBeyondExecuted(EndOf(sp)) <==> |sp| >= 8
    ensures |sp| <= 12 && !EndOf(sp).Blocked?
    ensures forall i :: 0 <= i < |sp| ==> Gated(sp[i]) && (i < 8 ==> sp[i].name == RoadName(i))
    ensures forall i :: 0 <= i < |sp| && NeedsApproval(sp[i].name) ==>
              sp[i].approvalRef.Some? && sp[i].approvalRef.value != ""
    ensures EndOf(sp).RolledBack? <==> |sp| > 8 && sp[|sp| - 1].name.Rollback?
  {
    forall i | 0 <= i < |sp| ensures Gated(sp[i]) && (i < 8 ==> sp[i].name == RoadName(i)) {
      assert StationAt(sp, i);
    }
    if |sp| > 8 {
      assert StationAt(sp, |sp| - 1) && StationAt(sp, 8);
      assert sp[..|sp|] == sp;
    }
  }

  /** A run is at or beyond executed exactly when its eighth step is taken: by then the whole
      road has been allowed in order, with approval of sign, assign and execute and every
      proof they call for. Rolled back further takes an approved rollback after that. */
  lemma HistoryOfExecuted(rs: seq<Request>)
    ensures var sp := Spine(rs);
            && (AtOrBeyondExecuted(After(rs)) <==> |sp| >= 8)
            && (forall i :: 0 <= i < |sp| ==> Gated(sp[i]) && (i < 8 ==> sp[i].name == RoadName(i)))
            && (forall i :: 0 <= i < |sp| && (i == 2 || i == 3 || i == 7 || sp[i].name.Rollback?) ==>
                  sp[i].approvalRef.Some? && sp[i].approvalRef.value != "")
            && (After(rs).RolledBack? <==> |sp| > 8 && sp[|sp| - 1].name.Rollback?)
  {
    hide Apply;
    RunsKeepToTheRoad(rs);
    SpineHistory(Spine(rs));
  }

  function Mutating(sp: seq<Request>): nat {
    if sp == [] then 0
    else Mutating(sp[..|sp| - 1]) + if sp[|sp| - 1].name.Execute? || sp[|sp| - 1].name.Rollback? then 1 else 0
  }

  lemma {:induction false} MutatingOnRoad(sp: seq<Request>)
    requires OnRoad(sp)
    ensures Mutating(sp) == (if |sp| >= 8 then 1 else 0) + (if EndOf(sp).RolledBack? then 1 else 0)
  {
    hide Gated;
    if sp != [] {
      var init, r := sp[..|sp| - 1], sp[|sp| - 1];
      assert sp == init + [r];
      OnRoadSnoc(init, r);
      MutatingOnRoad(init);
      assert StationAt(sp, |sp| - 1) && sp[..|sp|] == sp;
      if |sp| > 9 {
        assert StationAt(sp, |sp| - 2);
      }
    }
  }

  lemma MutatingSnoc(sp: seq<Request>, r: Request)
    ensures Mutating(sp + [r]) == Mutating(sp) + if r.name.Execute? || r.name.Rollback? then 1 else 0
  {
    assert (sp + [r])[..|sp|] == sp;
  }

  lemma {:induction false} MutationsAreSpine(rs: seq<Request>)
    ensures HostMutations(rs) == Mutating(Spine(rs))
  {
    hide Apply, Mutating;
    if rs != [] {
      var init, r := rs[..|rs| - 1], rs[|rs| - 1];
      MutationsAreSpine(init);
      SideEffectsIff(After(init), r);
      MutatingSnoc(Spine(init), r);
      assert Spine(rs) == Spine(init) || Spine(rs) == Spine(init) + [r];
    } else {
      assert Mutating([]) == 0 by { MutatingEmpty(); }
    }
  }

  lemma MutatingEmpty()
    ensures Mutating([]) == 0
  {
  }

  /** A run takes at most twelve steps, declares a host mutation once for its execute and
      once more for its rollback, and never enters blocked. */
  lemma RunsAreBounded(rs: seq<Request>)
    ensures |Spine(rs)| <= 12
    ensures HostMutations(rs) == (if AtOrBeyondExecuted(After(rs)) then 1 else 0)
                                 + (if After(rs).RolledBack? then 1 else 0)
    ensures !After(rs).Blocked?
  {
    hide Apply;
    RunsKeepToTheRoad(rs);
    SpineHistory(Spine(rs));
    MutationsAreSpine(rs);
    MutatingOnRoad(Spine(rs));
  }

  /** Every step of the longest road: to executed, attested, found compliant, made available
      for rollback, and rolled back, with all that each step asks for. */
  function LongestRoad(): seq<Request> {
    seq(12, i requires 0 <= i < 12 =>
      var n := if i < 8 then RoadName(i)
               else if i == 8 then Attest
               else if i == 9 then EvaluateCompliance
               else if i == 10 then MarkRollbackAvailable
               else Rollback;
      Request(n, "cap:operator", if i == 9 then Some(Compliant) else None, ProofsFor(n), Some("urn:srcos:approval")))
  }

  lemma LongestRoadIsOnRoad()
    ensures OnRoad(LongestRoad())
  {
    hide ProofsFor;
    var sp := LongestRoad();
    forall i | 0 <= i < 12 ensures StationAt(sp, i) {
      assert sp[..i + 1][i] == sp[i];
    }
  }

  /** Both bounds are reached: a run of twelve steps that mutates the host twice. */
  lemma BoundsAreReached()
    ensures |Spine(LongestRoad())| == 12 && After(LongestRoad()).RolledBack? && HostMutations(LongestRoad()) == 2
  {
    hide OnRoad, StationAt, Spine, After, HostMutations;
    LongestRoadIsOnRoad();
    TheRoadIsOpen(LongestRoad());
    RunsKeepToTheRoad(LongestRoad());
    RunsAreBounded(LongestRoad());
  }

  /** More evidence or an approval never turns an allowed request away or elsewhere. */
  lemma MoreEvidenceKeepsAllowed(s: State, r: Request, more: Request)
    requires more.name == r.name && more.capability == r.capability && more.toState == r.toState
    requires (forall p :: p in r.proofsPresent ==> p in more.proofsPresent) && (Approved(r) ==> Approved(more))
    requires Apply(Some(s), r).allowed
    ensures Apply(Some(s), more).allowed && Apply(Some(s), more).toState == Apply(Some(s), r).toState
  {
    AllowedIff(s, r);
    AllowedIff(s, more);
  }
}

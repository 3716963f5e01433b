/** Which decision fields a certification carries in which status, and what stands behind GRANTED. */
module Decisions {
  import opened Text
  import opened Lifecycle
  import opened Registry
  import opened Changes
  import opened Ledger

  /** The nullable columns agree with the status, both ways. */
  predicate FieldsAgree(cert: Certification) {
    var decided := cert.currentStatus == Granted || cert.currentStatus == Revoked || cert.currentStatus == Renewed;
    && (cert.certificationNumber.Some? <==> decided)
    && (cert.grant.Some? <==> decided)
    && (cert.denial.Some? <==> cert.currentStatus == Denied)
    && (cert.revocation.Some? <==> cert.currentStatus == Revoked)
  }

  predicate AllFieldsAgree(w: World) {
    forall id | 0 <= id < |w.certifications| :: FieldsAgree(w.certifications[id])
  }

  lemma TransitionKeepsFields(w: World, id: Id, cert: Certification, row: LedgerRow)
    requires IsTransition(w, id, cert, row) && FieldsAgree(w.certifications[id])
    ensures FieldsAgree(cert)
  {
  }

  lemma ChangeKeepsFields(d: Change, w: World, w': World)
    requires AllFieldsAgree(w) && Applies(d, w, w') && !d.Overwritten?
    ensures AllFieldsAgree(w')
  {
    if d.Moved? || d.Succeeded? {
      TransitionKeepsFields(w, d.id, d.cert, d.row);
    }
    forall id | 0 <= id < |w'.certifications|
      ensures FieldsAgree(w'.certifications[id])
    {
      if id < |w.certifications| && !((d.Moved? || d.Succeeded?) && id == d.id) {
        assert w'.certifications[id] == w.certifications[id];
      }
    }
  }

  lemma StepKeepsFields(w: World, c: Call)
    requires AllFieldsAgree(w) && !IsInspection(c)
    ensures AllFieldsAgree(Step(w, c))
  {
    var d := ChangeOf(w, c);
    ChangeKeepsFields(d, w, Step(w, c));
  }

  /**
   * In every run of CertificationService calls: a number and grant data exactly while GRANTED, REVOKED or RENEWED;
   * denial data exactly when DENIED; revocation data exactly when REVOKED.
   */
  lemma {:induction false} FieldsAlwaysAgree(worlds: seq<World>, calls: seq<Call>, i: nat)
    requires Trace(worlds, calls) && LedgerOnly(calls) && i <= |calls|
    ensures AllFieldsAgree(worlds[i])
  {
    if i > 0 {
      assert Linked(worlds, calls, i - 1);
      FieldsAlwaysAgree(worlds, calls, i - 1);
      StepKeepsFields(worlds[i - 1], calls[i - 1]);
    }
  }

  // ----- Where the agreement ends -----

  /** A status written without its columns keeps the agreement exactly when no decision had been made. */
  lemma OverwriteKeepsFieldsIff(w: World, id: Id, status: Status)
    requires AllFieldsAgree(w) && id < |w.certifications|
    requires status == Status.InspectionScheduled || status == InspectionComplete
    ensures AllFieldsAgree(OverwriteStatus(w, id, status)) <==>
            w.certifications[id].currentStatus !in {Granted, Denied, Revoked, Renewed}
  {
    var certs := OverwriteStatus(w, id, status).certifications;
    assert FieldsAgree(w.certifications[id]);
    assert forall other | 0 <= other < |certs| && other != id :: certs[other] == w.certifications[other];
    assert FieldsAgree(certs[id]) <==> w.certifications[id].currentStatus !in {Granted, Denied, Revoked, Renewed};
    if AllFieldsAgree(OverwriteStatus(w, id, status)) {
      assert FieldsAgree(certs[id]);
    }
  }

  /** Scheduling an inspection keeps the agreement exactly when the certification is not yet decided. */
  lemma SchedulingKeepsFieldsIff(w: World, dto: ScheduleDto)
    requires AllFieldsAgree(w) && dto.certificationId < |w.certifications|
    ensures AllFieldsAgree(ScheduleInspection(w, dto).world) <==>
            w.certifications[dto.certificationId].currentStatus !in {Granted, Denied, Revoked, Renewed}
  {
    OverwriteKeepsFieldsIff(w, dto.certificationId, Status.InspectionScheduled);
    assert ScheduleInspection(w, dto).world.certifications ==
           OverwriteStatus(w, dto.certificationId, Status.InspectionScheduled).certifications;
  }

  /** Completing an open inspection keeps it exactly when the certification is not yet decided. */
  lemma CompletingKeepsFieldsIff(w: World, id: Id, dto: CompleteDto, inspector: string)
    requires AllFieldsAgree(w)
    requires id < |w.inspections| && w.inspections[id].certificationId < |w.certifications|
    requires w.inspections[id].status == Scheduled || w.inspections[id].status == InProgress
    ensures AllFieldsAgree(CompleteInspection(w, id, dto, inspector).world) <==>
            w.certifications[w.inspections[id].certificationId].currentStatus !in {Granted, Denied, Revoked, Renewed}
  {
    var cert := w.inspections[id].certificationId;
    OverwriteKeepsFieldsIff(w, cert, InspectionComplete);
    assert CompleteInspection(w, id, dto, inspector).world.certifications ==
           OverwriteStatus(w, cert, InspectionComplete).certifications;
  }

  // ----- What survives InspectionService -----

  predicate IsGrantRow(row: LedgerRow, id: Id) {
    row.certificationId == id && row.edge.event == DecisionGranted
  }

  /** A grant row of the certification no later than t. */
  predicate GrantedBefore(ledger: seq<LedgerRow>, id: Id, t: Time) {
    exists k | 0 <= k < |ledger| :: IsGrantRow(ledger[k], id) && ledger[k].occurredAt <= t
  }

  /** GRANTED is only ever reached through a grant: there is a number, grant data and a ledger row. */
  predicate GrantsBacked(w: World) {
    forall id | 0 <= id < |w.certifications| && w.certifications[id].currentStatus == Granted ::
      && w.certifications[id].certificationNumber.Some?
      && w.certifications[id].grant.Some?
      && GrantedBefore(w.ledger, id, w.now)
  }

  lemma ClockAdvances(w: World, c: Call)
    ensures w.now <= Step(w, c).now
    ensures !c.Tick? ==> w.now == Step(w, c).now
  {
  }

  lemma {:induction false} ClockIsMonotone(worlds: seq<World>, calls: seq<Call>, i: nat, j: nat)
    requires Trace(worlds, calls) && i <= j <= |calls|
    ensures worlds[i].now <= worlds[j].now
    decreases j
  {
    if i < j {
      assert Linked(worlds, calls, j - 1);
      ClockIsMonotone(worlds, calls, i, j - 1);
      ClockAdvances(worlds[j - 1], calls[j - 1]);
    }
  }

  lemma TransitionBacksGrant(w: World, id: Id, cert: Certification, row: LedgerRow, w': World)
    requires IsTransition(w, id, cert, row) && w'.ledger == w.ledger + [row] && w.now <= w'.now
    requires cert.currentStatus == Granted
    ensures cert.certificationNumber.Some? && cert.grant.Some? && GrantedBefore(w'.ledger, id, w'.now)
  {
    ArrivalOf(row.edge.event);
    assert row.edge.event == DecisionGranted;
    assert w'.ledger[|w.ledger|] == row;
  }

  lemma ChangeKeepsGrantsBacked(d: Change, w: World, w': World)
    requires GrantsBacked(w) && Applies(d, w, w') && w.ledger <= w'.ledger && w.now <= w'.now
    ensures GrantsBacked(w')
  {
    forall id | 0 <= id < |w'.certifications| && w'.certifications[id].currentStatus == Granted
      ensures w'.certifications[id].certificationNumber.Some? && w'.certifications[id].grant.Some?
      ensures GrantedBefore(w'.ledger, id, w'.now)
    {
      if (d.Moved? || d.Succeeded?) && id == d.id {
        TransitionBacksGrant(w, id, d.cert, d.row, w');
      } else {
        assert id < |w.certifications| && w'.certifications[id] == w.certifications[id];
      }
    }
  }

  lemma StepKeepsGrantsBacked(w: World, c: Call)
    requires GrantsBacked(w)
    ensures GrantsBacked(Step(w, c))
  {
    var d := ChangeOf(w, c);
    LedgerGrows(w, c);
    ClockAdvances(w, c);
    ChangeKeepsGrantsBacked(d, w, Step(w, c));
  }

  /** In every run, inspections included, whatever is GRANTED has its number and its DECISION_GRANTED row. */
  lemma {:induction false} GrantsAlwaysBacked(worlds: seq<World>, calls: seq<Call>, i: nat)
    requires Trace(worlds, calls) && i <= |calls|
    ensures GrantsBacked(worlds[i])
  {
    if i > 0 {
      assert Linked(worlds, calls, i - 1);
      GrantsAlwaysBacked(worlds, calls, i - 1);
      StepKeepsGrantsBacked(worlds[i - 1], calls[i - 1]);
    }
  }

  // ----- Final statuses -----

  /** REVOKED, DENIED and RENEWED are final as long as InspectionService stays out. */
  lemma FinalStep(w: World, c: Call, id: Id)
    requires !IsInspection(c) && id < |w.certifications|
    requires forall e: EventType :: EdgeOf(e).from != w.certifications[id].currentStatus
    ensures id < |Step(w, c).certifications| && Step(w, c).certifications[id] == w.certifications[id]
  {
    var d := ChangeOf(w, c);
    if d.Moved? || d.Succeeded? {
      assert d.row.edge.from == EdgeOf(d.row.edge.event).from;
    }
  }

  lemma {:induction false} RevocationIsFinal(worlds: seq<World>, calls: seq<Call>, i: nat, j: nat, id: Id)
    requires Trace(worlds, calls) && LedgerOnly(calls) && i <= j <= |calls|
    requires id < |worlds[i].certifications| && worlds[i].certifications[id].currentStatus == Revoked
    ensures id < |worlds[j].certifications| && worlds[j].certifications[id] == worlds[i].certifications[id]
    decreases j
  {
    if i < j {
      assert Linked(worlds, calls, j - 1);
      RevocationIsFinal(worlds, calls, i, j - 1, id);
      FinalStep(worlds[j - 1], calls[j - 1], id);
    }
  }
}

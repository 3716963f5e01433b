/** The few ways a call can change certifications and ledger; the run theorems are proved over these. */
module Changes {
  import opened Text
  import opened Lifecycle
  import opened Registry

  datatype Change =
    | Untouched
    | Drafted(draft: Certification)
    | Moved(id: Id, cert: Certification, row: LedgerRow)
    | Succeeded(id: Id, cert: Certification, row: LedgerRow, draft: Certification)
    | Overwritten(id: Id, status: Status)

  /** A row with no decision yet. */
  predicate IsFreshDraft(cert: Certification) {
    && cert.currentStatus == Draft
    && cert.certificationNumber.None? && cert.grant.None? && cert.denial.None? && cert.revocation.None?
  }

  /** The payload that goes with a decision. */
  predicate Documented(row: LedgerRow) {
    match row.edge.event
    case DecisionGranted => row.payload.Award?
    case DecisionDenied => row.payload.Reason?
    case CertificateRevoked => row.payload.Reason?
    case _ => true
  }

  /** What one ledger row says happened to a certification: the status, and for a decision who, when and what. */
  function Recorded(cert: Certification, row: LedgerRow): Certification {
    var moved := cert.(currentStatus := row.edge.to);
    match (row.edge.event, row.payload)
    case (DecisionGranted, Award(number, validFrom, validUntil)) =>
      moved.(certificationNumber := Some(number),
             grant := Some(Grant(row.actor.id, row.occurredAt, validFrom, validUntil)))
    case (DecisionDenied, Reason(reason)) =>
      moved.(denial := Some(Refusal(row.actor.id, row.occurredAt, reason)))
    case (CertificateRevoked, Reason(reason)) =>
      moved.(revocation := Some(Refusal(row.actor.id, row.occurredAt, reason)))
    case _ => moved
  }

  /** A guarded transition of one certification with its one ledger row. */
  predicate IsTransition(w: World, id: Id, cert: Certification, row: LedgerRow) {
    && id < |w.certifications|
    && row.certificationId == id && row.occurredAt == w.now
    && row.edge == EdgeOf(row.edge.event) && row.edge.from == w.certifications[id].currentStatus
    && Documented(row) && cert == Recorded(w.certifications[id], row)
  }

  predicate Applies(d: Change, w: World, w': World) {
    match d
    case Untouched => w'.certifications == w.certifications && w'.ledger == w.ledger
    case Drafted(draft) =>
      && IsFreshDraft(draft) && draft.renewedFromId.None? && |draft.terms.regionCode| <= 50
      && w'.certifications == w.certifications + [draft] && w'.ledger == w.ledger
    case Moved(id, cert, row) =>
      && IsTransition(w, id, cert, row) && row.edge.event != CertificateRenewed
      && w'.certifications == w.certifications[id := cert] && w'.ledger == w.ledger + [row]
    case Succeeded(id, cert, row, draft) =>
      && IsTransition(w, id, cert, row) && row.edge.event == CertificateRenewed
      && IsFreshDraft(draft) && draft.renewedFromId == Some(id) && draft.terms == cert.terms
      && w'.certifications == w.certifications[id := cert] + [draft] && w'.ledger == w.ledger + [row]
    case Overwritten(id, status) =>
      && id < |w.certifications|
      && (status == Status.InspectionScheduled || status == InspectionComplete)
      && w'.certifications == w.certifications[id := w.certifications[id].(currentStatus := status)]
      && w'.ledger == w.ledger
  }

  predicate StandsAt(w: World, id: Id, status: Status) {
    id < |w.certifications| && w.certifications[id].currentStatus == status
  }

  /** The status each plain step waits for. */
  function Awaited(stage: Stage): Status {
    match stage
    case SubmitRequest => Draft
    case StartReview(_) => Submitted
    case ScheduleInspectionChain(_, _, _) => DocumentReview
    case StartInspection => Status.InspectionScheduled
    case CompleteInspectionChain(_, _) => InspectionInProgress
    case RequestLab(_, _) => InspectionComplete
    case StartFinalReview => Status.LabResultsReceived
  }

  /** What the row of each plain step records. */
  predicate SaysStage(row: LedgerRow, stage: Stage, now: Time) {
    match stage
    case SubmitRequest => row.edge == Edge(RequestSubmitted, Draft, Submitted) && row.payload.NoPayload?
    case StartReview(remarks) =>
      && row.edge == Edge(ReviewStarted, Submitted, DocumentReview)
      && row.payload.Remarks? && row.payload.remarks == remarks
    case ScheduleInspectionChain(inspectorId, scheduledDate, farmIds) =>
      && row.edge == Edge(EventType.InspectionScheduled, DocumentReview, Status.InspectionScheduled)
      && row.payload.Visit? && row.payload.inspectorId == inspectorId
      && row.payload.scheduledDate == scheduledDate && row.payload.farmIds == farmIds
    case StartInspection =>
      && row.edge == Edge(InspectionStarted, Status.InspectionScheduled, InspectionInProgress)
      && row.payload.Started? && row.payload.at == now
    case CompleteInspectionChain(passed, summary) =>
      && row.edge == Edge(InspectionCompleted, InspectionInProgress, InspectionComplete)
      && row.payload.Outcome? && row.payload.passed == passed && row.payload.summary == summary
    case RequestLab(labId, remarks) =>
      && row.edge == Edge(LabRequested, InspectionComplete, LabTesting)
      && row.payload.LabOrder? && row.payload.labId == labId && row.payload.labRemarks == remarks
    case StartFinalReview =>
      && row.edge == Edge(FinalReviewStarted, Status.LabResultsReceived, UnderReview) && row.payload.NoPayload?
  }

  /** When a call moves a certification at all. */
  ghost predicate TakesEffect(w: World, c: Call) {
    match c
    case Advanced(id, stage, _) => StandsAt(w, id, Awaited(stage))
    case Granting(id, _, _, _, _) => StandsAt(w, id, UnderReview)
    case Denying(id, _, _) => StandsAt(w, id, UnderReview)
    case Revoking(id, _, _) => StandsAt(w, id, Granted)
    case Renewing(id, _) => StandsAt(w, id, Granted)
    case LabTestCompleted(event, _) =>
      && (forall i | 0 <= i < |w.ledger| :: w.ledger[i].actor.correlationId != event.eventId)
      && exists id: Id :: StandsAt(w, id, LabTesting) && w.certifications[id].terms.batchId == event.batchId
    case _ => false
  }

  /** Which call writes which row: for whom, by whom and with what payload; lab rows come from unseen events. */
  predicate FromCall(w: World, c: Call, id: Id, row: LedgerRow)
    requires id < |w.certifications|
  {
    match c
    case Advanced(id', stage, actor) =>
      id == id' && row.actor == actor && SaysStage(row, stage, w.now)
    case Granting(id', validFrom, validUntil, year, actor) =>
      var terms := w.certifications[id].terms;
      && id == id' && row.edge == Edge(DecisionGranted, UnderReview, Granted) && row.actor == actor
      && row.payload ==
         Award(NumberText(terms, year, LastSeq(w, SeriesOf(terms, year)) + 1), validFrom, validUntil)
    case Denying(id', reason, actor) =>
      && id == id' && row.edge == Edge(DecisionDenied, UnderReview, Denied) && row.actor == actor
      && row.payload == Reason(reason)
    case Revoking(id', reason, actor) =>
      && id == id' && row.edge == Edge(CertificateRevoked, Granted, Revoked) && row.actor == actor
      && row.payload == Reason(reason)
    case Renewing(id', actor) =>
      && id == id' && row.edge == Edge(CertificateRenewed, Granted, Renewed) && row.actor == actor
      && row.payload == NoPayload
    case LabTestCompleted(event, _) =>
      && AwaitsLab(w.certifications, event.batchId, id) && !IsEventProcessed(w, event.eventId)
      && row.edge == Edge(EventType.LabResultsReceived, LabTesting, Status.LabResultsReceived)
      && row.actor == Actor("system", "service-account", event.eventId)
      && row.payload == LabReport(event.labTestId, event.passed, w.now)
    case _ => false
  }

  /** The certification and status an inspection call writes, if any. */
  function Overwrites(w: World, c: Call): Option<(Id, Status)> {
    match c
    case Scheduling(dto) =>
      if dto.certificationId < |w.certifications| then Some((dto.certificationId, Status.InspectionScheduled)) else None
    case Completing(id, _, _) => Completes(w, id)
    case Filing(id, _, _, _, _) => Completes(w, id)
    case _ => None
  }

  function Completes(w: World, id: Id): Option<(Id, Status)> {
    if id >= |w.inspections| then None
    else
      var inspection := w.inspections[id];
      if (inspection.status == Scheduled || inspection.status == InProgress) &&
         inspection.certificationId < |w.certifications|
      then Some((inspection.certificationId, InspectionComplete))
      else None
  }

  /** Who asked for a draft, when, and for what. */
  predicate Requested(w: World, c: Call, draft: Certification) {
    match c
    case Request(dto, userId) =>
      && draft.requestedBy == userId && draft.requestedAt == w.now
      && draft.terms == Terms(userId, dto.cooperativeName, dto.batchId, dto.productTypeCode, dto.certificationType,
                              dto.regionCode)
    case Renewing(_, actor) => draft.requestedBy == actor.id && draft.requestedAt == w.now
    case _ => false
  }

  /** The change is the call's: a row, a draft or an overwritten status appears exactly when it should. */
  ghost predicate FitsCall(w: World, c: Call, d: Change) {
    && (d.Moved? || d.Succeeded? <==> TakesEffect(w, c))
    && (d.Moved? || d.Succeeded? ==> d.id < |w.certifications| && FromCall(w, c, d.id, d.row))
    && (d.Drafted? <==>
          c.Request? && |c.dto.cooperativeName| <= 200 && |c.dto.productTypeCode| <= 50 && |c.dto.regionCode| <= 50)
    && (d.Drafted? || d.Succeeded? ==> Requested(w, c, d.draft))
    && (d.Overwritten? <==> Overwrites(w, c).Some?)
    && (d.Overwritten? ==> (d.id, d.status) == Overwrites(w, c).value)
  }

  lemma OnlyGrantsGrant(d: Change, w: World, c: Call)
    requires FitsCall(w, c, d) && !(c.Granting? && TakesEffect(w, c))
    ensures d.Moved? ==> d.row.edge.event != DecisionGranted
  {
  }

  /** applyTransition with the edits of its event is a Moved change. */
  lemma TransitionMoves(w: World, id: Id, edited: Certification, event: EventType, actor: Actor, payload: Payload,
                        w': World) returns (d: Change)
    requires StandsAt(w, id, EdgeOf(event).from) && event != CertificateRenewed
    requires edited.currentStatus == EdgeOf(event).from
    requires var row := LedgerRow(id, EdgeOf(event), actor, payload, w.now);
             Documented(row) && edited.(currentStatus := EdgeOf(event).to) == Recorded(w.certifications[id], row)
    requires var t := Transition(w, id, edited, event, actor, payload);
             w'.certifications == t.certifications && w'.ledger == t.ledger
    ensures d == Moved(id, edited.(currentStatus := EdgeOf(event).to),
                       LedgerRow(id, EdgeOf(event), actor, payload, w.now))
    ensures Applies(d, w, w')
  {
    var to := EdgeOf(event).to;
    d := Moved(id, edited.(currentStatus := to),
               LedgerRow(id, Edge(event, edited.currentStatus, to), actor, payload, w.now));
  }

  lemma QuietCall(w: World, c: Call)
    requires c.Generating? || c.Verifying? || c.Assigning? || c.Exporting? || c.Referencing? || c.Approving? ||
             c.Tick? || c.CacheLoss?
    ensures Applies(Untouched, w, Step(w, c))
  {
  }

  lemma RequestDrafts(w: World, dto: RequestDto, user: string) returns (d: Change)
    ensures Applies(d, w, RequestCertification(w, dto, user).world) && !d.Overwritten?
    ensures FitsCall(w, Request(dto, user), d)
  {
    if FitsColumns(dto) {
      d := Drafted(NewDraft(Terms(user, dto.cooperativeName, dto.batchId, dto.productTypeCode, dto.certificationType,
                                  dto.regionCode), user, w.now, None));
    } else {
      d := Untouched;
    }
  }

  lemma AdvanceMoves(w: World, id: Id, stage: Stage, actor: Actor) returns (d: Change)
    ensures Applies(d, w, Advance(w, id, stage, actor).world) && !d.Overwritten?
    ensures FitsCall(w, Advanced(id, stage, actor), d)
  {
    if Guard(w, id, EdgeOf(StageEvent(stage)).from).None? {
      d := TransitionMoves(w, id, w.certifications[id], StageEvent(stage), actor, StagePayload(stage, w.now),
                           Advance(w, id, stage, actor).world);
    } else {
      d := Untouched;
    }
  }

  lemma LabMoves(w: World, e: LabEvent, pick: Id) returns (d: Change)
    ensures Applies(d, w, HandleLabTestCompleted(w, e, pick).world) && !d.Overwritten?
    ensures FitsCall(w, LabTestCompleted(e, pick), d)
  {
    var found := FindAwaiting(w.certifications, e.batchId, pick);
    assert forall id: Id :: AwaitsLab(w.certifications, e.batchId, id) <==>
                            StandsAt(w, id, LabTesting) && w.certifications[id].terms.batchId == e.batchId;
    if !IsEventProcessed(w, e.eventId) && found.Some? {
      d := TransitionMoves(w, found.value, w.certifications[found.value], EventType.LabResultsReceived,
                           Actor("system", "service-account", e.eventId),
                           LabReport(e.labTestId, e.passed, w.now), HandleLabTestCompleted(w, e, pick).world);
    } else {
      d := Untouched;
    }
  }

  /** Issuing the QR code, or failing to, leaves certifications and ledger as the transition wrote them. */
  lemma GrantedTables(w: World, id: Id, validFrom: Time, validUntil: Time, year: nat, actor: Actor)
    requires Guard(w, id, UnderReview).None?
    ensures var w', t := GrantCertification(w, id, validFrom, validUntil, year, actor).world,
                         GrantTransition(w, id, validFrom, validUntil, year, actor);
            w'.certifications == t.certifications && w'.ledger == t.ledger
  {
  }

  lemma GrantMoves(w: World, id: Id, validFrom: Time, validUntil: Time, year: nat, actor: Actor)
    returns (d: Change)
    ensures Applies(d, w, GrantCertification(w, id, validFrom, validUntil, year, actor).world) && !d.Overwritten?
    ensures FitsCall(w, Granting(id, validFrom, validUntil, year, actor), d)
  {
    if Guard(w, id, UnderReview).None? {
      GrantedTables(w, id, validFrom, validUntil, year, actor);
      d := GrantTransitionMoves(w, id, validFrom, validUntil, year, actor,
                                GrantCertification(w, id, validFrom, validUntil, year, actor).world);
    } else {
      d := Untouched;
    }
  }

  lemma GrantTransitionMoves(w: World, id: Id, validFrom: Time, validUntil: Time, year: nat, actor: Actor, w': World)
    returns (d: Change)
    requires Guard(w, id, UnderReview).None?
    requires var t := GrantTransition(w, id, validFrom, validUntil, year, actor);
             w'.certifications == t.certifications && w'.ledger == t.ledger
    ensures Applies(d, w, w') && d.Moved? && FromCall(w, Granting(id, validFrom, validUntil, year, actor), id, d.row)
    ensures d.id == id
  {
    var cert := w.certifications[id];
    var key := SeriesOf(cert.terms, year);
    var number := NumberText(cert.terms, year, LastSeq(Increment(w, key), key));
    d := TransitionMoves(w, id, Awarded(cert, number, actor.id, w.now, validFrom, validUntil), DecisionGranted, actor,
                         Award(number, validFrom, validUntil), w');
  }

  lemma DenyMoves(w: World, id: Id, reason: string, actor: Actor) returns (d: Change)
    ensures Applies(d, w, DenyCertification(w, id, reason, actor).world) && !d.Overwritten?
    ensures FitsCall(w, Denying(id, reason, actor), d)
  {
    if Guard(w, id, UnderReview).None? {
      var edited := w.certifications[id].(denial := Some(Refusal(actor.id, w.now, reason)));
      d := TransitionMoves(w, id, edited, DecisionDenied, actor, Reason(reason),
                           DenyCertification(w, id, reason, actor).world);
    } else {
      d := Untouched;
    }
  }

  lemma RevokeMoves(w: World, id: Id, reason: string, actor: Actor) returns (d: Change)
    ensures Applies(d, w, RevokeCertification(w, id, reason, actor).world) && !d.Overwritten?
    ensures FitsCall(w, Revoking(id, reason, actor), d)
  {
    if Guard(w, id, Granted).None? {
      var edited := w.certifications[id].(revocation := Some(Refusal(actor.id, w.now, reason)));
      d := TransitionMoves(w, id, edited, CertificateRevoked, actor, Reason(reason),
                           RevokeCertification(w, id, reason, actor).world);
    } else {
      d := Untouched;
    }
  }

  lemma RenewSucceeds(w: World, id: Id, actor: Actor) returns (d: Change)
    ensures Applies(d, w, RenewCertification(w, id, actor).world) && !d.Overwritten?
    ensures FitsCall(w, Renewing(id, actor), d)
  {
    if Guard(w, id, Granted).None? {
      var cert := w.certifications[id];
      d := Succeeded(id, cert.(currentStatus := Renewed),
                     LedgerRow(id, EdgeOf(CertificateRenewed), actor, NoPayload, w.now),
                     NewDraft(cert.terms, actor.id, w.now, Some(id)));
    } else {
      d := Untouched;
    }
  }

  lemma InspectionOverwrites(w: World, c: Call) returns (d: Change)
    requires IsInspection(c)
    ensures Applies(d, w, Step(w, c)) && FitsCall(w, c, d)
  {
    d := match Overwrites(w, c) case Some((id, status)) => Overwritten(id, status) case None => Untouched;
    match c
    case Scheduling(_) =>
    case Completing(id, dto, inspector) => CompletionOverwrites(w, id, dto, inspector);
    case Filing(id, passed, summary, finding, inspector) =>
      CompletionOverwrites(w, id, FiledDto(passed, summary, finding), inspector);
  }

  lemma CompletionOverwrites(w: World, id: Id, dto: CompleteDto, inspector: string)
    ensures var d := match Completes(w, id) case Some((cert, status)) => Overwritten(cert, status)
                                             case None => Untouched;
            Applies(d, w, CompleteInspection(w, id, dto, inspector).world)
  {
  }

  /** Every call makes one of these changes, and only InspectionService overwrites a status. */
  lemma ChangeOf(w: World, c: Call) returns (d: Change)
    ensures Applies(d, w, Step(w, c))
    ensures d.Overwritten? ==> IsInspection(c)
    ensures FitsCall(w, c, d)
  {
    match c
    case Request(dto, user) => d := RequestDrafts(w, dto, user);
    case Advanced(id, stage, actor) => d := AdvanceMoves(w, id, stage, actor);
    case LabTestCompleted(event, pick) => d := LabMoves(w, event, pick);
    case Granting(id, from, until, year, actor) => d := GrantMoves(w, id, from, until, year, actor);
    case Denying(id, reason, actor) => d := DenyMoves(w, id, reason, actor);
    case Revoking(id, reason, actor) => d := RevokeMoves(w, id, reason, actor);
    case Renewing(id, actor) => d := RenewSucceeds(w, id, actor);
    case Scheduling(_) => d := InspectionOverwrites(w, c);
    case Completing(_, _, _) => d := InspectionOverwrites(w, c);
    case Filing(_, _, _, _, _) => d := InspectionOverwrites(w, c);
    case _ => QuietCall(w, c); d := Untouched;
  }

  predicate SameTerms(a: Certification, b: Certification) {
    && a.terms == b.terms && a.renewedFromId == b.renewedFromId
    && a.requestedBy == b.requestedBy && a.requestedAt == b.requestedAt
  }

  lemma ChangeKeepsTerms(d: Change, w: World, w': World, id: Id)
    requires Applies(d, w, w') && id < |w.certifications|
    ensures id < |w'.certifications| && SameTerms(w.certifications[id], w'.certifications[id])
  {
  }

  /** No call edits what a certification is about, who asked for it and when, or what it renews. */
  lemma TermsStay(w: World, c: Call, id: Id)
    requires id < |w.certifications|
    ensures id < |Step(w, c).certifications| && SameTerms(w.certifications[id], Step(w, c).certifications[id])
  {
    var d := ChangeOf(w, c);
    ChangeKeepsTerms(d, w, Step(w, c), id);
  }

  /** A new certification has a region that fits its column, or the terms of the one it renews. */
  predicate TermsFit(w: World, draft: Certification) {
    || |draft.terms.regionCode| <= 50
    || (draft.renewedFromId.Some? && draft.renewedFromId.value < |w.certifications| &&
        draft.terms == w.certifications[draft.renewedFromId.value].terms)
  }

  lemma NewTermsFit(w: World, c: Call, id: Id)
    requires |w.certifications| <= id < |Step(w, c).certifications|
    ensures TermsFit(w, Step(w, c).certifications[id])
  {
    var d := ChangeOf(w, c);
  }

  predicate IsDocumentCall(c: Call) {
    c.Exporting? || c.Referencing? || c.Approving?
  }

  /** Calls that concern inspections, documents or the clock only. */
  predicate IsSideCall(c: Call) {
    IsInspection(c) || c.Assigning? || IsDocumentCall(c) || c.Tick?
  }

  lemma SideCallsKeepTables(w: World, c: Call)
    requires IsSideCall(c)
    ensures var w' := Step(w, c);
            && w'.ledger == w.ledger && w'.counters == w.counters && w'.qrCodes == w.qrCodes
            && w'.cache == w.cache && w'.scans == w.scans
  {
    if IsInspection(c) {
      InspectionKeepsTables(w, c);
    }
  }

  /** Everything but certifications, inspections and reports. */
  predicate OtherTablesSame(w: World, w': World) {
    && w'.ledger == w.ledger && w'.counters == w.counters && w'.qrCodes == w.qrCodes
    && w'.cache == w.cache && w'.scans == w.scans && w'.documents == w.documents && w'.now == w.now
  }

  lemma CompletionKeepsTables(w: World, id: Id, dto: CompleteDto, inspector: string)
    ensures OtherTablesSame(w, CompleteInspection(w, id, dto, inspector).world)
  {
  }

  lemma InspectionKeepsTables(w: World, c: Call)
    requires IsInspection(c)
    ensures OtherTablesSame(w, Step(w, c))
  {
    match c
    case Scheduling(_) =>
    case Completing(id, dto, inspector) => CompletionKeepsTables(w, id, dto, inspector);
    case Filing(id, passed, summary, finding, inspector) =>
      CompletionKeepsTables(w, id, FiledDto(passed, summary, finding), inspector);
  }
}

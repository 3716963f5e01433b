/**
 * The certification database, the verification cache and the clock as one value, and every service call as a
 * function on it. The services' methods are proved against these functions; the theorems are about runs of them.
 */
module Registry {
  import opened Text
  import opened Lifecycle
  import opened CertificateNumber
  import opened ExportDates

  /** Row ids are insertion positions; any other value is an id nobody has. */
  type Id = nat
  /** Milliseconds since the epoch. */
  type Time = nat

  // ----- Rows -----

  /** What a certification is about; a renewal copies all of it. */
  datatype Terms = Terms(
    cooperativeId: string, cooperativeName: string, batchId: string, productTypeCode: string,
    certificationType: CertificationType, regionCode: string)

  datatype Grant = Grant(userId: string, at: Time, validFrom: Time, validUntil: Time)

  /** Who ended a certification, when and why; used for denials and for revocations. */
  datatype Refusal = Refusal(userId: string, at: Time, reason: string)

  datatype Certification = Certification(
    terms: Terms, requestedBy: string, requestedAt: Time, currentStatus: Status,
    certificationNumber: Option<string>, grant: Option<Grant>,
    denial: Option<Refusal>, revocation: Option<Refusal>, renewedFromId: Option<Id>)

  datatype Actor = Actor(id: string, role: string, correlationId: string)

  datatype Payload =
    | NoPayload
    | Remarks(remarks: Option<string>)
    | Visit(inspectorId: string, scheduledDate: string, farmIds: seq<string>)
    | Started(at: Time)
    | Outcome(passed: bool, summary: string)
    | LabOrder(labId: Option<string>, labRemarks: Option<string>)
    | LabReport(labTestId: string, labPassed: bool, receivedAt: Time)
    | Award(number: string, validFrom: Time, validUntil: Time)
    | Reason(reason: string)

  /** One row of the append-only ledger. */
  datatype LedgerRow = LedgerRow(certificationId: Id, edge: Edge, actor: Actor, payload: Payload, occurredAt: Time)

  /** The key of one certification_seq row. */
  datatype Series = Series(typeAbbr: string, regionCode: string, year: nat)

  /** An HMAC over certification id and issue time; distinct inputs are taken to give distinct signatures. */
  datatype Signature = Signature(certificationId: Id, issuedAt: Time)

  datatype QrCode = QrCode(isActive: bool, scansCount: nat, expiresAt: Option<Time>)

  datatype ScanEvent = ScanEvent(signature: Signature, ipAddress: Option<string>, scannedAt: Time)

  datatype Message =
    | NotFoundOrInactive
    | Expired
    | CertificationMissing
    | Superseded(successor: Option<string>)
    | NotActive(status: Status)
    | ValidAndActive

  datatype Verification = Verification(
    valid: bool, certification: Option<Certification>, qrCode: Option<QrCode>, message: Message,
    newCertificationNumber: Option<string>)

  datatype CacheEntry = CacheEntry(answer: Verification, storedAt: Time)

  datatype InspectionStatus = Scheduled | InProgress | Completed | Cancelled

  datatype Inspection = Inspection(
    certificationId: Id, cooperativeId: string, inspectorId: string, inspectorName: Option<string>,
    scheduledDate: string, farmIds: seq<string>, status: InspectionStatus, completedAt: Option<Time>,
    passed: Option<bool>)

  datatype FarmFinding = FarmFinding(farmId: string, findings: string, passed: bool, photos: Option<seq<string>>)

  datatype Severity = Minor | Major | Critical

  datatype NonConformity = NonConformity(
    code: string, description: string, severity: Severity, correctiveAction: Option<string>)

  datatype Report = Report(
    inspectionId: Id, certificationId: Id, cooperativeId: string, inspectorId: string, passed: bool, summary: string,
    farmFindings: seq<FarmFinding>, nonConformities: seq<NonConformity>, completedAt: Time)

  datatype ExportRequest = ExportRequest(
    destinationCountry: string, hsCode: string, quantityKg: real, consigneeName: string, consigneeCountry: string)

  datatype DocumentStatus = InSubmission | Approved

  datatype ExportDocument = ExportDocument(
    certificationId: Id, cooperativeId: string, request: ExportRequest, requestedBy: string,
    status: DocumentStatus, onssaReference: Option<string>, validUntil: Option<Date>, createdAt: Time)

  datatype World = World(
    certifications: seq<Certification>,
    ledger: seq<LedgerRow>,
    counters: map<Series, nat>,
    qrCodes: map<Signature, QrCode>,
    cache: map<Signature, CacheEntry>,
    scans: seq<ScanEvent>,
    inspections: seq<Inspection>,
    reports: seq<Report>,
    documents: seq<ExportDocument>,
    now: Time)

  function Blank(now: Time): World {
    World([], [], map[], map[], map[], [], [], [], [], now)
  }

  // ----- Replies -----

  datatype Error =
    | NotFound
    | InvalidTransition(current: Status, expected: Status)
    | ColumnOverflow
    | DuplicateSignature
    | InvalidInspectionStatus(inspection: InspectionStatus)
    | AlreadyClosed
    | NotGranted

  datatype Reply =
    | Row(id: Id)
    | Verified(answer: Verification)
    | Skipped
    | Failed(error: Error)

  datatype Effect = Effect(world: World, reply: Reply)

  // ----- CertificationService -----

  datatype RequestDto = RequestDto(
    cooperativeName: string, batchId: string, productTypeCode: string,
    certificationType: CertificationType, regionCode: string)

  function NewDraft(terms: Terms, userId: string, now: Time, renewedFromId: Option<Id>): Certification {
    Certification(terms, userId, now, Draft, None, None, None, None, renewedFromId)
  }

  /** The widths of the VARCHAR columns a request fills. */
  predicate FitsColumns(dto: RequestDto) {
    |dto.cooperativeName| <= 200 && |dto.productTypeCode| <= 50 && |dto.regionCode| <= 50
  }

  function RequestCertification(w: World, dto: RequestDto, userId: string): Effect {
    if !FitsColumns(dto) then Effect(w, Failed(ColumnOverflow))
    else
      var terms := Terms(userId, dto.cooperativeName, dto.batchId, dto.productTypeCode, dto.certificationType,
                         dto.regionCode);
      Effect(w.(certifications := w.certifications + [NewDraft(terms, userId, w.now, None)]),
             Row(|w.certifications|))
  }

  /** findById followed by assertStatus: the error the caller sees, if any. */
  function Guard(w: World, id: Id, expected: Status): Option<Error> {
    if id >= |w.certifications| then Some(NotFound)
    else if w.certifications[id].currentStatus != expected
    then Some(InvalidTransition(w.certifications[id].currentStatus, expected))
    else None
  }

  /** applyTransition: one ledger row and the saved entity, in one transaction. */
  function Transition(w: World, id: Id, cert: Certification, event: EventType, actor: Actor, payload: Payload): World
    requires id < |w.certifications|
  {
    var to := EdgeOf(event).to;
    w.(ledger := w.ledger + [LedgerRow(id, Edge(event, cert.currentStatus, to), actor, payload, w.now)],
       certifications := w.certifications[id := cert.(currentStatus := to)])
  }

  /** The steps that only move the status: 1-6 and 8. */
  datatype Stage =
    | SubmitRequest
    | StartReview(remarks: Option<string>)
    | ScheduleInspectionChain(inspectorId: string, scheduledDate: string, farmIds: seq<string>)
    | StartInspection
    | CompleteInspectionChain(passed: bool, summary: string)
    | RequestLab(labId: Option<string>, labRemarks: Option<string>)
    | StartFinalReview

  function StageEvent(s: Stage): EventType {
    match s
    case SubmitRequest => RequestSubmitted
    case StartReview(_) => ReviewStarted
    case ScheduleInspectionChain(_, _, _) => EventType.InspectionScheduled
    case StartInspection => InspectionStarted
    case CompleteInspectionChain(_, _) => InspectionCompleted
    case RequestLab(_, _) => LabRequested
    case StartFinalReview => FinalReviewStarted
  }

  function StagePayload(s: Stage, now: Time): Payload {
    match s
    case SubmitRequest => NoPayload
    case StartReview(remarks) => Remarks(remarks)
    case ScheduleInspectionChain(inspectorId, date, farmIds) => Visit(inspectorId, date, farmIds)
    case StartInspection => Started(now)
    case CompleteInspectionChain(passed, summary) => Outcome(passed, summary)
    case RequestLab(labId, remarks) => LabOrder(labId, remarks)
    case StartFinalReview => NoPayload
  }

  function Advance(w: World, id: Id, stage: Stage, actor: Actor): Effect {
    match Guard(w, id, EdgeOf(StageEvent(stage)).from)
    case Some(e) => Effect(w, Failed(e))
    case None =>
      Effect(Transition(w, id, w.certifications[id], StageEvent(stage), actor, StagePayload(stage, w.now)), Row(id))
  }

  function SeriesOf(terms: Terms, year: nat): Series {
    Series(Abbreviation(terms.certificationType), terms.regionCode, year)
  }

  function LastSeq(w: World, s: Series): nat {
    if s in w.counters then w.counters[s] else 0
  }

  /** The counter row is created on demand and incremented under its lock. */
  function Increment(w: World, s: Series): World {
    w.(counters := w.counters[s := LastSeq(w, s) + 1])
  }

  function NumberText(terms: Terms, year: nat, sequence: nat): string {
    Print(Number(terms.certificationType, terms.regionCode, year, sequence))
  }

  function Awarded(cert: Certification, number: string, userId: string, now: Time, validFrom: Time, validUntil: Time)
    : Certification
  {
    cert.(certificationNumber := Some(number), grant := Some(Grant(userId, now, validFrom, validUntil)))
  }

  /** Numbering, transition, then the first QR code; a refused QR row does not undo the transition. */
  function GrantCertification(w: World, id: Id, validFrom: Time, validUntil: Time, year: nat, actor: Actor): Effect {
    match Guard(w, id, UnderReview)
    case Some(e) => Effect(w, Failed(e))
    case None =>
      var granted := GrantTransition(w, id, validFrom, validUntil, year, actor);
      var qr := GenerateQrCode(granted, id);
      Effect(qr.world, if qr.reply.Failed? then qr.reply else Row(id))
  }

  function GrantTransition(w: World, id: Id, validFrom: Time, validUntil: Time, year: nat, actor: Actor): World
    requires id < |w.certifications|
  {
    var cert := w.certifications[id];
    var numbered := Increment(w, SeriesOf(cert.terms, year));
    var number := NumberText(cert.terms, year, LastSeq(numbered, SeriesOf(cert.terms, year)));
    Transition(numbered, id, Awarded(cert, number, actor.id, w.now, validFrom, validUntil), DecisionGranted, actor,
               Award(number, validFrom, validUntil))
  }

  function DenyCertification(w: World, id: Id, reason: string, actor: Actor): Effect {
    match Guard(w, id, UnderReview)
    case Some(e) => Effect(w, Failed(e))
    case None =>
      var cert := w.certifications[id].(denial := Some(Refusal(actor.id, w.now, reason)));
      Effect(Transition(w, id, cert, DecisionDenied, actor, Reason(reason)), Row(id))
  }

  function RevokeTransition(w: World, id: Id, reason: string, actor: Actor): World
    requires id < |w.certifications|
  {
    var cert := w.certifications[id].(revocation := Some(Refusal(actor.id, w.now, reason)));
    Transition(w, id, cert, CertificateRevoked, actor, Reason(reason))
  }

  ghost function RevokeCertification(w: World, id: Id, reason: string, actor: Actor): Effect {
    match Guard(w, id, Granted)
    case Some(e) => Effect(w, Failed(e))
    case None => Effect(DeactivateByCertificationId(RevokeTransition(w, id, reason, actor), id), Row(id))
  }

  /** The old certification leaves GRANTED, its cached answer goes, a linked draft appears. */
  ghost function RenewCertification(w: World, id: Id, actor: Actor): Effect {
    match Guard(w, id, Granted)
    case Some(e) => Effect(w, Failed(e))
    case None =>
      var evicted :=
        EvictQrCache(Transition(w, id, w.certifications[id], CertificateRenewed, actor, NoPayload), id);
      var draft := NewDraft(w.certifications[id].terms, actor.id, w.now, Some(id));
      Effect(evicted.(certifications := evicted.certifications + [draft]), Row(|w.certifications|))
  }

  // ----- The lab listener -----

  datatype LabEvent = LabEvent(eventId: string, batchId: string, labTestId: string, passed: bool)

  predicate IsEventProcessed(w: World, correlationId: string) {
    exists i | 0 <= i < |w.ledger| :: w.ledger[i].actor.correlationId == correlationId
  }

  predicate AwaitsLab(certs: seq<Certification>, batchId: string, id: Id) {
    id < |certs| && certs[id].terms.batchId == batchId && certs[id].currentStatus == LabTesting
  }

  function FirstAwaiting(certs: seq<Certification>, batchId: string, from: Id): (r: Option<Id>)
    requires from <= |certs|
    ensures r.Some? ==> AwaitsLab(certs, batchId, r.value)
    ensures r.None? ==> forall id | from <= id :: !AwaitsLab(certs, batchId, id)
    decreases |certs| - from
  {
    if from == |certs| then None
    else if AwaitsLab(certs, batchId, from) then Some(from)
    else FirstAwaiting(certs, batchId, from + 1)
  }

  /** findOne without an order: any match may come back; pick is the database's choice. */
  function FindAwaiting(certs: seq<Certification>, batchId: string, pick: Id): (r: Option<Id>)
    ensures r.Some? ==> AwaitsLab(certs, batchId, r.value)
    ensures r.None? ==> forall id :: !AwaitsLab(certs, batchId, id)
    ensures AwaitsLab(certs, batchId, pick) ==> r == Some(pick)
  {
    if AwaitsLab(certs, batchId, pick) then Some(pick) else FirstAwaiting(certs, batchId, 0)
  }

  function ReceiveLabResults(w: World, e: LabEvent, pick: Id): Effect {
    match FindAwaiting(w.certifications, e.batchId, pick)
    case None => Effect(w, Skipped)
    case Some(id) =>
      Effect(Transition(w, id, w.certifications[id], EventType.LabResultsReceived,
                        Actor("system", "service-account", e.eventId), LabReport(e.labTestId, e.passed, w.now)),
             Row(id))
  }

  function HandleLabTestCompleted(w: World, e: LabEvent, pick: Id): Effect {
    if IsEventProcessed(w, e.eventId) then Effect(w, Skipped) else ReceiveLabResults(w, e, pick)
  }

  // ----- QrCodeService -----

  function Deactivate(codes: map<Signature, QrCode>, id: Id): map<Signature, QrCode> {
    map s | s in codes :: if s.certificationId == id then codes[s].(isActive := false) else codes[s]
  }

  /** A code expires with the validity its certification has when it is issued; without one it never does. */
  function ExpiryOf(cert: Certification): Option<Time> {
    if cert.grant.Some? then Some(cert.grant.value.validUntil) else None
  }

  /** Older codes go inactive first; the insert can still fail on the unique signature. */
  function GenerateQrCode(w: World, id: Id): Effect {
    if id >= |w.certifications| then Effect(w, Failed(NotFound))
    else
      var cleared := w.(qrCodes := Deactivate(w.qrCodes, id));
      var signature := Signature(id, w.now);
      if signature in w.qrCodes then Effect(cleared, Failed(DuplicateSignature))
      else
        var code := QrCode(true, 0, ExpiryOf(w.certifications[id]));
        Effect(cleared.(qrCodes := cleared.qrCodes[signature := code]), Row(id))
  }

  ghost predicate ActiveFor(codes: map<Signature, QrCode>, id: Id, s: Signature) {
    s in codes && s.certificationId == id && codes[s].isActive
  }

  /** findOne({ certificationId, isActive: true }) */
  ghost function FindActive(codes: map<Signature, QrCode>, id: Id): (r: Option<Signature>)
    ensures r.Some? ==> ActiveFor(codes, id, r.value)
    ensures r.None? ==> forall s :: !ActiveFor(codes, id, s)
  {
    if s :| ActiveFor(codes, id, s) then Some(s) else None
  }

  ghost function EvictQrCache(w: World, id: Id): World {
    match FindActive(w.qrCodes, id)
    case None => w
    case Some(s) => w.(cache := w.cache - {s})
  }

  ghost function DeactivateByCertificationId(w: World, id: Id): World {
    var evicted := EvictQrCache(w, id);
    evicted.(qrCodes := Deactivate(evicted.qrCodes, id))
  }

  const TTL: Time := 300_000

  /** A Redis key lives until its expiry instant has passed. */
  predicate Live(w: World, s: Signature) {
    s in w.cache && w.now <= w.cache[s].storedAt + TTL
  }

  predicate IsExpired(code: QrCode, now: Time) {
    code.expiresAt.Some? && now > code.expiresAt.value
  }

  /** findOne({ renewedFromId }): the oldest row linked to id. */
  function Successor(certs: seq<Certification>, id: Id, from: Id): (r: Option<Id>)
    requires from <= |certs|
    ensures r.Some? ==> from <= r.value < |certs| && certs[r.value].renewedFromId == Some(id)
    ensures r.Some? ==> forall j | from <= j < r.value :: certs[j].renewedFromId != Some(id)
    ensures r.None? ==> forall j | from <= j < |certs| :: certs[j].renewedFromId != Some(id)
    decreases |certs| - from
  {
    if from == |certs| then None
    else if certs[from].renewedFromId == Some(id) then Some(from)
    else Successor(certs, id, from + 1)
  }

  function SuccessorNumber(certs: seq<Certification>, id: Id): Option<string> {
    match Successor(certs, id, 0)
    case None => None
    case Some(j) => certs[j].certificationNumber
  }

  function Scanned(code: QrCode): QrCode {
    code.(scansCount := code.scansCount + 1)
  }

  /** What verification answers from the tables alone. */
  function Lookup(w: World, s: Signature): Verification {
    if s !in w.qrCodes || !w.qrCodes[s].isActive then Verification(false, None, None, NotFoundOrInactive, None)
    else
      var code := w.qrCodes[s];
      if IsExpired(code, w.now) then Verification(false, None, Some(code), Expired, None)
      else if s.certificationId >= |w.certifications|
      then Verification(false, None, Some(code), CertificationMissing, None)
      else
        var cert := w.certifications[s.certificationId];
        if cert.currentStatus == Renewed then
          var number := SuccessorNumber(w.certifications, s.certificationId);
          Verification(false, Some(cert), Some(Scanned(code)), Superseded(number), number)
        else if cert.currentStatus != Granted then
          Verification(false, Some(cert), Some(code), NotActive(cert.currentStatus), None)
        else Verification(true, Some(cert), Some(Scanned(code)), ValidAndActive, None)
  }

  /** The answers that count a scan and go into the cache. */
  predicate Counted(a: Verification) {
    a.message.Superseded? || a.message.ValidAndActive?
  }

  function Answer(w: World, s: Signature): Verification {
    if Live(w, s) then w.cache[s].answer else Lookup(w, s)
  }

  /** logged says whether the fire-and-forget scan row was written. */
  function VerifyQrCode(w: World, s: Signature, ip: Option<string>, logged: bool): Effect {
    var answer := Answer(w, s);
    if Live(w, s) || !Counted(answer) then Effect(w, Verified(answer))
    else
      Effect(w.(qrCodes := w.qrCodes[s := Scanned(w.qrCodes[s])],
                cache := w.cache[s := CacheEntry(answer, w.now)],
                scans := if answer.valid && logged then w.scans + [ScanEvent(s, ip, w.now)] else w.scans),
             Verified(answer))
  }

  // ----- InspectionService -----

  datatype ScheduleDto = ScheduleDto(
    certificationId: Id, inspectorId: string, inspectorName: Option<string>, scheduledDate: string,
    farmIds: seq<string>)

  /** The status is written with neither guard nor ledger row. */
  function OverwriteStatus(w: World, id: Id, status: Status): World {
    if id < |w.certifications|
    then w.(certifications := w.certifications[id := w.certifications[id].(currentStatus := status)])
    else w
  }

  function ScheduleInspection(w: World, dto: ScheduleDto): Effect {
    if dto.certificationId >= |w.certifications| then Effect(w, Failed(NotFound))
    else
      var inspection := Inspection(
                          dto.certificationId, w.certifications[dto.certificationId].terms.cooperativeId,
                          dto.inspectorId, dto.inspectorName, dto.scheduledDate, dto.farmIds, Scheduled, None, None);
      Effect(OverwriteStatus(w.(inspections := w.inspections + [inspection]), dto.certificationId,
                             Status.InspectionScheduled),
             Row(|w.inspections|))
  }

  datatype CompleteDto = CompleteDto(
    passed: bool, summary: string, farmFindings: Option<seq<FarmFinding>>,
    nonConformities: Option<seq<NonConformity>>)

  function CompleteInspection(w: World, id: Id, dto: CompleteDto, inspectorId: string): Effect {
    if id >= |w.inspections| then Effect(w, Failed(NotFound))
    else
      var inspection := w.inspections[id];
      if inspection.status != Scheduled && inspection.status != InProgress
      then Effect(w, Failed(InvalidInspectionStatus(inspection.status)))
      else
        var closed := inspection.(status := Completed, completedAt := Some(w.now), passed := Some(dto.passed));
        var report := Report(id, inspection.certificationId, inspection.cooperativeId, inspectorId, dto.passed,
                             dto.summary, OrEmpty(dto.farmFindings), OrEmpty(dto.nonConformities), w.now);
        Effect(OverwriteStatus(w.(inspections := w.inspections[id := closed], reports := w.reports + [report]),
                               inspection.certificationId, InspectionComplete),
               Row(|w.reports|))
  }

  function AssignInspector(w: World, id: Id, inspectorId: string, inspectorName: string): Effect {
    if id >= |w.inspections| then Effect(w, Failed(NotFound))
    else if w.inspections[id].status == Completed || w.inspections[id].status == Cancelled
    then Effect(w, Failed(AlreadyClosed))
    else
      Effect(w.(inspections := w.inspections[id := w.inspections[id].(inspectorId := inspectorId,
                                                                     inspectorName := Some(inspectorName))]),
             Row(id))
  }

  /** A filed report has no farm findings and at most one minor non-conformity, NC-001. */
  function FiledDto(passed: bool, summary: string, nonConformity: Option<string>): CompleteDto {
    CompleteDto(passed, summary, Some([]),
                Some(if nonConformity.Some? && nonConformity.value != ""
                     then [NonConformity("NC-001", nonConformity.value, Minor, None)] else []))
  }

  /** fileReport completes the inspection and returns it. */
  function FileReport(w: World, id: Id, passed: bool, summary: string, nonConformity: Option<string>,
                      inspectorId: string): Effect {
    var done := CompleteInspection(w, id, FiledDto(passed, summary, nonConformity), inspectorId);
    if done.reply.Failed? then done else Effect(done.world, Row(id))
  }

  // ----- ExportDocumentService -----

  function RequestExportDocument(w: World, id: Id, request: ExportRequest, userId: string): Effect {
    if id >= |w.certifications| || w.certifications[id].currentStatus != Granted then Effect(w, Failed(NotGranted))
    else
      var document := ExportDocument(id, w.certifications[id].terms.cooperativeId, request, userId, InSubmission, None,
                                     None, w.now);
      Effect(w.(documents := w.documents + [document]), Row(|w.documents|))
  }

  function UpdateOnssaReference(w: World, id: Id, reference: string): Effect {
    if id >= |w.documents| then Effect(w, Failed(NotFound))
    else
      var document := w.documents[id].(onssaReference := Some(reference), status := Approved);
      Effect(w.(documents := w.documents[id := document]), Row(id))
  }

  /** Customs approval: valid for six calendar months from today. */
  function ValidateDocument(w: World, id: Id): Effect {
    if id >= |w.documents| then Effect(w, Failed(NotFound))
    else
      var until := AddSixMonths(DateOf(w.now));
      var document := w.documents[id].(status := Approved, validUntil := Some(until));
      Effect(w.(documents := w.documents[id := document]), Row(id))
  }

  // ----- Calls and runs -----

  datatype Call =
    | Request(dto: RequestDto, userId: string)
    | Advanced(id: Id, stage: Stage, actor: Actor)
    | LabTestCompleted(event: LabEvent, pick: Id)
    | Granting(id: Id, validFrom: Time, validUntil: Time, year: nat, actor: Actor)
    | Denying(id: Id, reason: string, actor: Actor)
    | Revoking(id: Id, reason: string, actor: Actor)
    | Renewing(id: Id, actor: Actor)
    | Generating(id: Id)
    | Verifying(signature: Signature, ip: Option<string>, logged: bool)
    | Scheduling(schedule: ScheduleDto)
    | Completing(id: Id, report: CompleteDto, inspectorId: string)
    | Filing(id: Id, passed: bool, summary: string, nonConformity: Option<string>, inspectorId: string)
    | Assigning(id: Id, inspectorId: string, inspectorName: string)
    | Exporting(id: Id, request: ExportRequest, userId: string)
    | Referencing(id: Id, reference: string)
    | Approving(id: Id)
    | Tick(elapsed: Time)
    | CacheLoss(signature: Signature)

  ghost function Perform(w: World, c: Call): Effect {
    match c
    case Request(dto, user) => RequestCertification(w, dto, user)
    case Advanced(id, stage, actor) => Advance(w, id, stage, actor)
    case LabTestCompleted(event, pick) => HandleLabTestCompleted(w, event, pick)
    case Granting(id, from, until, year, actor) => GrantCertification(w, id, from, until, year, actor)
    case Denying(id, reason, actor) => DenyCertification(w, id, reason, actor)
    case Revoking(id, reason, actor) => RevokeCertification(w, id, reason, actor)
    case Renewing(id, actor) => RenewCertification(w, id, actor)
    case Generating(id) => GenerateQrCode(w, id)
    case Verifying(s, ip, logged) => VerifyQrCode(w, s, ip, logged)
    case Scheduling(dto) => ScheduleInspection(w, dto)
    case Completing(id, dto, inspector) => CompleteInspection(w, id, dto, inspector)
    case Filing(id, passed, summary, finding, inspector) => FileReport(w, id, passed, summary, finding, inspector)
    case Assigning(id, inspector, name) => AssignInspector(w, id, inspector, name)
    case Exporting(id, request, user) => RequestExportDocument(w, id, request, user)
    case Referencing(id, reference) => UpdateOnssaReference(w, id, reference)
    case Approving(id) => ValidateDocument(w, id)
    case Tick(elapsed) => Effect(w.(now := w.now + elapsed), Skipped)
    case CacheLoss(s) => Effect(w.(cache := w.cache - {s}), Skipped)
  }

  ghost function Step(w: World, c: Call): World {
    Perform(w, c).world
  }

  /** The i-th call leads from the i-th world to the next. */
  ghost predicate Linked(worlds: seq<World>, calls: seq<Call>, i: nat)
    requires i < |calls| && i + 1 < |worlds|
  {
    worlds[i + 1] == Step(worlds[i], calls[i])
  }

  /** A run from an empty database. */
  ghost predicate Trace(worlds: seq<World>, calls: seq<Call>) {
    && |worlds| == |calls| + 1
    && worlds[0] == Blank(worlds[0].now)
    && forall i | 0 <= i < |calls| :: Linked(worlds, calls, i)
  }

  /** A run can be carried on by any call. */
  lemma TraceGrows(worlds: seq<World>, calls: seq<Call>, c: Call, w: World)
    requires Trace(worlds, calls) && w == Step(worlds[|calls|], c)
    ensures Trace(worlds + [w], calls + [c])
  {
    forall i | 0 <= i < |calls + [c]|
      ensures Linked(worlds + [w], calls + [c], i)
    {
      assert i < |calls| ==> Linked(worlds, calls, i);
    }
  }

  /** The calls that write statuses without guard or ledger row. */
  predicate IsInspection(c: Call) {
    c.Scheduling? || c.Completing? || c.Filing?
  }

  /** A run in which only CertificationService (and its listener) moves certifications. */
  predicate LedgerOnly(calls: seq<Call>) {
    forall i | 0 <= i < |calls| :: !IsInspection(calls[i])
  }

  /** No QR code is generated other than by a grant. */
  predicate NoRegeneration(calls: seq<Call>) {
    forall i | 0 <= i < |calls| :: !calls[i].Generating?
  }
}
